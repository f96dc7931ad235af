/**
 A streamed upload: the body of a `multipart/form-data` request reaches the
 handler in pieces, and the handler looks for the closing delimiter in each piece
 by itself. The delimiter is the "--boundary" the handler made of the header
 field; the closing delimiter is that with "--" behind it.
 */
module Upload {
  import opened Bytes
  import opened Options

  datatype State = ExpectHeaders | ExpectContent | ExpectBoundary | Complete

  /** What a `FileUploadContext` has written to its file, and how much it counted. */
  datatype Upload = Upload(state: State, file: string, total: nat)

  const NEW := Upload(ExpectHeaders, "", 0)
  const BLANK_LINE := "\r\n\r\n"

  function Closing(b: string): (r: string)
    ensures r != [] && |r| == |b| + 2
  {
    b + "--"
  }

  /** `writeData` */
  function Write(u: Upload, data: string): Upload { u.(file := u.file + data, total := u.total + |data|) }

  /** The first piece. `None`: the closing delimiter stands before the end of the
      header block, so that the length of the write is negative as a stream size;
      the write fails and throws. */
  function First(b: string, body: string): Option<Upload>
    requires b != ""
  {
    var blank := Search(body, BLANK_LINE);
    if blank == |body| then Some(NEW) else
    var end := Search(body, Closing(b));
    if end == |body| then Some(Write(NEW, body[blank + 4..]).(state := ExpectBoundary))
    else if end == 0 then Some(NEW.(state := Complete))
    else if end < blank + 4 then None
    else Some(Write(NEW, body[blank + 4..end]).(state := Complete))
  }

  /** A later piece. */
  function Later(u: Upload, b: string, body: string): Upload
    requires b != ""
  {
    match u.state
    case ExpectBoundary =>
      var end := Search(body, Closing(b));
      if end < |body| then Write(u, body[..end]).(state := Complete) else
      var at := Search(body, b);
      if at == |body| then Write(u, body)
      else if SearchFrom(body, BLANK_LINE, at) < |body| then Write(u, body[..at]).(state := ExpectContent)
      else u
    case ExpectContent =>
      var at := Search(body, b);
      if at < |body| then Write(u, body[..at]).(state := ExpectBoundary) else Write(u, body)
    case _ => u
  }

  /** What one call of the handler leaves: the upload context in the connection's
      context, the body in the request, and the upload that is reported as complete,
      if one is. */
  datatype Handled = Handled(slot: Option<Upload>, body: string, report: Option<Upload>)

  /** `handleFileUpload`. `named`: the file name comes with a header field, so that it
      need not be looked for in the body. `gotAll`: the request is complete. */
  function Handle(b: string, named: bool, slot: Option<Upload>, body: string, gotAll: bool): Handled
    requires b != ""
  {
    if slot.None? && !named && body == "" then Handled(None, body, None) else
    match (if slot.None? then First(b, body) else Some(Later(slot.value, b, body)))
    case None => Handled(Some(NEW), body, None)
    case Some(u) => if u.state == Complete || gotAll then Handled(None, "", Some(u)) else Handled(Some(u), "", None)
  }

  /** The handler is about to throw. */
  predicate Throws(b: string, named: bool, slot: Option<Upload>, body: string)
    requires b != ""
  {
    slot.None? && (named || body != "") && First(b, body).None?
  }

  function Listed(report: Option<Upload>): seq<Upload> { if report.Some? then [report.value] else [] }

  /** The uploads reported for the pieces of one request, the last of which comes
      with the complete request. */
  function Reports(b: string, named: bool, slot: Option<Upload>, pieces: seq<string>): seq<Upload>
    requires b != ""
    decreases |pieces|
  {
    if pieces == [] then [] else
    var h := Handle(b, named, slot, pieces[0], |pieces| == 1);
    Listed(h.report) + Reports(b, named, h.slot, pieces[1..])
  }

  predicate NeverThrows(b: string, named: bool, slot: Option<Upload>, pieces: seq<string>)
    requires b != ""
    decreases |pieces|
  {
    pieces == [] || (
      && !Throws(b, named, slot, pieces[0])
      && NeverThrows(b, named, Handle(b, named, slot, pieces[0], |pieces| == 1).slot, pieces[1..]))
  }

  function Flat(pieces: seq<string>): string {
    if pieces == [] then "" else pieces[0] + Flat(pieces[1..])
  }

  // --------------------------------------------------------------- the body format

  /** One part: the header block ends at `h`, the closing delimiter is at `e` and
      nowhere else, and no delimiter starts in the data between them. */
  ghost predicate OnePart(b: string, body: string, h: nat, e: nat) {
    && b != "" && 4 <= h <= e
    && Search(body, BLANK_LINE) == h - 4
    && OccursAt(body, Closing(b), e)
    && (forall k :: OccursAt(body, Closing(b), k) ==> k == e)
    && (forall k :: h <= k < e ==> !OccursAt(body, b, k))
  }

  /** The `n` bytes at position `e` lie in one piece. */
  predicate InOnePiece(pieces: seq<string>, e: int, n: nat)
    decreases |pieces|
  {
    pieces != [] && ((0 <= e && e + n <= |pieces[0]|) || InOnePiece(pieces[1..], e - |pieces[0]|, n))
  }

  lemma {:induction false} NotBehind(pieces: seq<string>, e: int, n: nat)
    requires e < 0
    ensures !InOnePiece(pieces, e, n)
    decreases |pieces|
  {
    if pieces != [] { NotBehind(pieces[1..], e - |pieces[0]|, n); }
  }

  lemma FirstPiece(body: string, off: nat, pieces: seq<string>)
    requires off <= |body| && pieces != [] && Flat(pieces) == body[off..]
    ensures off + |pieces[0]| <= |body| && pieces[0] == body[off..off + |pieces[0]|]
    ensures Flat(pieces[1..]) == body[off + |pieces[0]|..]
  {
    var p, rest := pieces[0], Flat(pieces[1..]);
    assert p + rest == body[off..];
    assert p == (p + rest)[..|p|] && rest == (p + rest)[|p|..];
  }

  /** A piece that does not hold the closing delimiter does not complete. */
  lemma MissesClosing(u: Upload, b: string, body: string, e: nat, lo: nat, hi: nat)
    requires b != "" && lo <= hi <= |body| && u.state != Complete
    requires forall k :: OccursAt(body, Closing(b), k) ==> k == e
    requires !(lo <= e && e + |b| + 2 <= hi)
    ensures Search(body[lo..hi], Closing(b)) == hi - lo
    ensures Later(u, b, body[lo..hi]).state != Complete
  {
    SearchInSlice(body, Closing(b), lo, hi);
    hide Search, SearchFrom;
  }

  /** A piece within the data goes to the file whole. */
  lemma DataPiece(u: Upload, b: string, body: string, h: nat, e: nat, lo: nat, hi: nat)
    requires OnePart(b, body, h, e) && h <= lo <= hi <= e && u.state == ExpectBoundary
    ensures Later(u, b, body[lo..hi]) == Write(u, body[lo..hi])
  {
    MissesClosing(u, b, body, e, lo, hi);
    SearchInSlice(body, b, lo, hi);
    hide Search, SearchFrom, OccursAt;
  }

  /** The piece with the closing delimiter gives its bytes before it. */
  lemma LastPiece(u: Upload, b: string, body: string, h: nat, e: nat, lo: nat, hi: nat)
    requires OnePart(b, body, h, e) && h <= lo <= e && e + |b| + 2 <= hi <= |body| && u.state == ExpectBoundary
    ensures Later(u, b, body[lo..hi]) == Write(u, body[lo..e]).(state := Complete)
  {
    ClosingInSlice(b, body, h, e, lo, hi);
    assert body[lo..hi][..e - lo] == body[lo..e];
    hide Search, SearchFrom, OccursAt;
  }

  lemma ClosingInSlice(b: string, body: string, h: nat, e: nat, lo: nat, hi: nat)
    requires OnePart(b, body, h, e) && lo <= e && e + |b| + 2 <= hi <= |body|
    ensures Search(body[lo..hi], Closing(b)) == e - lo
  {
    OccursInSlice(body, Closing(b), lo, hi, e - lo);
    forall k | 0 <= k < e - lo ensures !OccursAt(body[lo..hi], Closing(b), k) {
      OccursInSlice(body, Closing(b), lo, hi, k);
    }
    SearchIs(body[lo..hi], Closing(b), e - lo);
  }

  lemma InPrefix(s: string, lo: nat, hi: nat, n: nat)
    requires lo <= hi <= n <= |s|
    ensures "" + s[..n][lo..hi] == s[lo..hi] && "" + s[..n][lo..] == s[lo..n]
  {
  }

  lemma FirstOf(b: string, body: string, h: nat, e: nat, hi: nat)
    requires OnePart(b, body, h, e) && hi <= |body|
    ensures hi < h ==> First(b, body[..hi]) == Some(NEW)
    ensures h <= hi < e + |b| + 2 ==> First(b, body[..hi]) == Some(Upload(ExpectBoundary, body[h..hi], hi - h))
    ensures e + |b| + 2 <= hi ==> First(b, body[..hi]) == Some(Upload(Complete, body[h..e], e - h))
  {
    assert body[0..hi] == body[..hi];
    if hi < h {
      SearchInSlice(body, BLANK_LINE, 0, hi);
    } else {
      OccursInSlice(body, BLANK_LINE, 0, hi, h - 4);
      forall k | 0 <= k < h - 4 ensures !OccursAt(body[..hi], BLANK_LINE, k) {
        OccursInSlice(body, BLANK_LINE, 0, hi, k);
      }
      SearchIs(body[..hi], BLANK_LINE, h - 4);
      if e + |b| + 2 <= hi {
        ClosingInSlice(b, body, h, e, 0, hi);
        InPrefix(body, h, e, hi);
      } else {
        SearchInSlice(body, Closing(b), 0, hi);
        InPrefix(body, h, hi, hi);
      }
    }
    hide OccursAt, Search, SearchFrom;
  }

  // ------------------------------------------------------------- what is reported

  predicate NonEmpty(pieces: seq<string>) { forall i :: 0 <= i < |pieces| ==> pieces[i] != "" }

  /** Where the last piece starts. */
  function LastStart(pieces: seq<string>): nat {
    if |pieces| <= 1 then 0 else |pieces[0]| + LastStart(pieces[1..])
  }

  lemma {:induction false} StuckInHeaders(b: string, named: bool, u: Upload, pieces: seq<string>)
    requires b != "" && u.state == ExpectHeaders && pieces != []
    ensures Reports(b, named, Some(u), pieces) == [u] && NeverThrows(b, named, Some(u), pieces)
    decreases |pieces|
  {
    if |pieces| > 1 { StuckInHeaders(b, named, u, pieces[1..]); }
  }

  /** A first piece without the closing delimiter does not complete. */
  lemma FirstMisses(b: string, body: string, e: nat, lo: nat, hi: nat)
    requires b != "" && lo <= hi <= |body| && !(lo <= e && e + |b| + 2 <= hi)
    requires forall k :: OccursAt(body, Closing(b), k) ==> k == e
    ensures First(b, body[lo..hi]).Some? && First(b, body[lo..hi]).value.state != Complete
  {
    SearchInSlice(body, Closing(b), lo, hi);
    hide Search;
  }

  /** One piece without the closing delimiter, in whatever state. */
  lemma MissHandled(b: string, named: bool, slot: Option<Upload>, body: string, e: nat, lo: nat, hi: nat, gotAll: bool)
    requires b != "" && lo < hi <= |body| && !(lo <= e && e + |b| + 2 <= hi)
    requires forall k :: OccursAt(body, Closing(b), k) ==> k == e
    requires slot.Some? ==> slot.value.state != Complete
    ensures var p := body[lo..hi];
            var h := Handle(b, named, slot, p, gotAll);
            && !Throws(b, named, slot, p)
            && var u := if slot.None? then First(b, p).value else Later(slot.value, b, p);
               && u.state != Complete
               && h == (if gotAll then Handled(None, "", Some(u)) else Handled(Some(u), "", None))
  {
    if slot.Some? { MissesClosing(slot.value, b, body, e, lo, hi); } else { FirstMisses(b, body, e, lo, hi); }
    hide First, Later, OccursAt;
  }

  /** Behind the closing delimiter, or after it was cut apart, exactly one more
      upload is reported, and it has found no delimiter. */
  lemma {:induction false} Misreported(b: string, named: bool, slot: Option<Upload>, body: string, e: nat, off: nat,
                                       pieces: seq<string>)
    requires b != "" && e < off <= |body| && Flat(pieces) == body[off..] && pieces != [] && NonEmpty(pieces)
    requires slot.Some? ==> slot.value.state != Complete
    requires forall k :: OccursAt(body, Closing(b), k) ==> k == e
    ensures NeverThrows(b, named, slot, pieces)
    ensures |Reports(b, named, slot, pieces)| == 1 && Reports(b, named, slot, pieces)[0].state != Complete
    decreases |pieces|
  {
    hide First, Later, OccursAt, Handle, Throws;
    FirstPiece(body, off, pieces);
    var hi := off + |pieces[0]|;
    MissHandled(b, named, slot, body, e, off, hi, |pieces| == 1);
    if |pieces| > 1 {
      Misreported(b, named, Handle(b, named, slot, pieces[0], false).slot, body, e, hi, pieces[1..]);
    }
  }

  /** What is reported from a piece on, with the data before it written. */
  lemma {:induction false} ReportsFrom(b: string, named: bool, u: Upload, body: string, h: nat, e: nat, off: nat,
                                       pieces: seq<string>)
    requires OnePart(b, body, h, e) && h <= off <= e && Flat(pieces) == body[off..] && pieces != [] && NonEmpty(pieces)
    requires u == Upload(ExpectBoundary, body[h..off], off - h)
    ensures NeverThrows(b, named, Some(u), pieces)
    ensures var rs, good := Reports(b, named, Some(u), pieces), Upload(Complete, body[h..e], e - h);
            if off + LastStart(pieces) <= e then rs == [good]
            else if InOnePiece(pieces, e - off, |b| + 2) then |rs| == 2 && rs[0] == good && rs[1].state != Complete
            else |rs| == 1 && rs[0].state != Complete
    decreases |pieces|
  {
    hide First, Later, OccursAt, Search, Closing;
    PartFits(b, body, h, e);
    FirstPiece(body, off, pieces);
    var p, rest := pieces[0], pieces[1..];
    var hi := off + |p|;
    if e + |b| + 2 <= hi {
      LastPiece(u, b, body, h, e, off, hi);
      assert body[h..off] + body[off..e] == body[h..e];
      if rest != [] { Misreported(b, named, None, body, e, hi, rest); }
    } else if hi <= e {
      DataPiece(u, b, body, h, e, off, hi);
      assert body[h..off] + body[off..hi] == body[h..hi];
      NotAtEnd(body, e, hi, rest);
      ReportsFrom(b, named, Upload(ExpectBoundary, body[h..hi], hi - h), body, h, e, hi, rest);
    } else {
      MissHandled(b, named, Some(u), body, e, off, hi, |pieces| == 1);
      NotBehind(rest, e - hi, |b| + 2);
      NotAtEnd(body, e + |b| + 1, hi, rest);
      Misreported(b, named, Some(Later(u, b, p)), body, e, hi, rest);
    }
  }

  lemma PartFits(b: string, body: string, h: nat, e: nat)
    requires OnePart(b, body, h, e)
    ensures b != "" && 4 <= h <= e && e + |b| + 2 <= |body|
  {
  }

  lemma NotAtEnd(body: string, e: nat, hi: nat, rest: seq<string>)
    requires hi <= e < |body| && Flat(rest) == body[hi..]
    ensures rest != []
  {
  }

  /** For every way to cut a one-part body into pieces with bytes in them, what the
      handler reports:
      with the header block not in the first piece, one empty upload;
      with the closing delimiter in the last piece, the data and nothing else;
      with it in an earlier piece, the data, and then a second upload;
      and with it cut in two, one upload that has not found it. */
  lemma ReportsAre(b: string, named: bool, body: string, h: nat, e: nat, pieces: seq<string>)
    requires OnePart(b, body, h, e) && pieces != [] && NonEmpty(pieces) && Flat(pieces) == body
    ensures NeverThrows(b, named, None, pieces)
    ensures var rs, good := Reports(b, named, None, pieces), Upload(Complete, body[h..e], e - h);
            if |pieces[0]| < h then rs == [NEW]
            else if LastStart(pieces) <= e then rs == [good]
            else if InOnePiece(pieces, e, |b| + 2) then |rs| == 2 && rs[0] == good && rs[1].state != Complete
            else |rs| == 1 && rs[0].state != Complete
  {
    hide First, Later, OccursAt, Search, Closing;
    assert body == body[0..];
    FirstPiece(body, 0, pieces);
    PartFits(b, body, h, e);
    var hi, rest := |pieces[0]|, pieces[1..];
    assert pieces[0] == body[..hi] == body[0..hi];
    FirstOf(b, body, h, e, hi);
    if hi < h {
      NotAtEnd(body, h, hi, rest);
      StuckInHeaders(b, named, NEW, rest);
    } else if e + |b| + 2 <= hi {
      if rest != [] { Misreported(b, named, None, body, e, hi, rest); }
    } else {
      NotAtEnd(body, if hi <= e then e else hi, hi, rest);
      if hi <= e {
        ReportsFrom(b, named, Upload(ExpectBoundary, body[h..hi], hi - h), body, h, e, hi, rest);
      } else {
        NotBehind(rest, e - hi, |b| + 2);
        Misreported(b, named, Some(Upload(ExpectBoundary, body[h..hi], hi - h)), body, e, hi, rest);
      }
    }
  }

  /** So exactly one upload is reported, by its closing delimiter, if and only if the
      header block is in the first piece and the whole delimiter in the last; and
      then it is the data between the first blank line and the delimiter. */
  lemma ReportedIff(b: string, named: bool, body: string, h: nat, e: nat, pieces: seq<string>)
    requires OnePart(b, body, h, e) && pieces != [] && NonEmpty(pieces) && Flat(pieces) == body
    ensures var rs := Reports(b, named, None, pieces);
            && (|rs| == 1 && rs[0].state == Complete <==> |pieces[0]| >= h && LastStart(pieces) <= e)
            && (|rs| == 1 && rs[0].state == Complete ==> rs[0].file == body[h..e] && rs[0].total == e - h)
  {
    ReportsAre(b, named, body, h, e, pieces);
  }

  lemma LaterCounts(u: Upload, b: string, p: string)
    requires b != "" && u.total == |u.file|
    ensures Later(u, b, p).total == |Later(u, b, p).file|
  {
    hide Search, SearchFrom;
  }

  /** Every upload reported has counted the bytes of its file. */
  lemma {:induction false} Counted(b: string, named: bool, slot: Option<Upload>, pieces: seq<string>)
    requires b != "" && (slot.Some? ==> slot.value.total == |slot.value.file|)
    ensures forall i :: 0 <= i < |Reports(b, named, slot, pieces)| ==>
              Reports(b, named, slot, pieces)[i].total == |Reports(b, named, slot, pieces)[i].file|
    decreases |pieces|
  {
    hide Later, Search;
    if pieces != [] {
      if slot.Some? { LaterCounts(slot.value, b, pieces[0]); }
      var h := Handle(b, named, slot, pieces[0], |pieces| == 1);
      Counted(b, named, h.slot, pieces[1..]);
    }
  }

  /** The line break before the closing delimiter belongs to the delimiter in
      section 5.1.1 of RFC 2046; here it stays at the end of the file. */
  lemma KeepsLineBreak(b: string, named: bool, header: string, content: string, epilogue: string)
    requires OnePart(b, header + "\r\n\r\n" + (content + "\r\n") + (b + "--") + epilogue,
                     |header| + 4, |header| + 4 + |content| + 2)
    ensures var body := header + "\r\n\r\n" + (content + "\r\n") + (b + "--") + epilogue;
            Reports(b, named, None, [body]) == [Upload(Complete, content + "\r\n", |content| + 2)]
  {
    hide First, Later, OccursAt, Search, Closing, Reports;
    var body, h := header + "\r\n\r\n" + (content + "\r\n") + (b + "--") + epilogue, |header| + 4;
    assert Flat([body]) == body + Flat([body][1..]) == body;
    assert body[h..h + |content| + 2] == content + "\r\n";
    ReportsAre(b, named, body, h, h + |content| + 2, [body]);
  }

  // ------------------------------------------------- when the file itself is right

  /** All pieces but the last have at least `large` bytes. */
  predicate Large(pieces: seq<string>, large: nat)
    decreases |pieces|
  {
    |pieces| <= 1 || (|pieces[0]| >= large && Large(pieces[1..], large))
  }

  /** No line break in the delimiter: it comes from one header line. */
  predicate OneLine(b: string) { '\r' !in b }

  /** Only the length of the file matters here. */
  lemma {:induction false} OnlyLonger(b: string, named: bool, u: Upload, pieces: seq<string>)
    requires b != "" && u.state != Complete && pieces != []
    ensures Reports(b, named, Some(u), pieces) != [] && |Reports(b, named, Some(u), pieces)[0].file| >= |u.file|
    decreases |pieces|
  {
    LaterLonger(u, b, pieces[0]);
    hide Later;
    var v := Later(u, b, pieces[0]);
    if v.state != Complete && |pieces| > 1 { OnlyLonger(b, named, v, pieces[1..]); }
  }

  lemma LaterLonger(u: Upload, b: string, p: string)
    requires b != ""
    ensures |u.file| <= |Later(u, b, p).file| <= |u.file| + |p|
  {
    hide Search, SearchFrom;
  }

  /** A piece in which the closing delimiter starts but does not end: either bytes
      of the delimiter are written, or the data in the piece is lost. */
  lemma CutPiece(u: Upload, b: string, body: string, h: nat, e: nat, lo: nat, hi: nat)
    requires OnePart(b, body, h, e) && OneLine(b) && h <= lo <= e < hi < e + |b| + 2 && hi <= |body|
    requires u.state == ExpectBoundary
    ensures var v := Later(u, b, body[lo..hi]);
            v.state != Complete && (|v.file| == |u.file| + hi - lo || v == u)
  {
    MissesClosing(u, b, body, e, lo, hi);
    var p := body[lo..hi];
    var at := Search(p, b);
    if at < |p| {
      DelimiterOnlyAt(b, body, h, e, lo, hi);
      NoBlankBehind(b, body, e, lo, hi);
    }
    hide OccursAt, Search, SearchFrom, Closing;
  }

  lemma DelimiterOnlyAt(b: string, body: string, h: nat, e: nat, lo: nat, hi: nat)
    requires OnePart(b, body, h, e) && h <= lo <= e < hi <= |body| && Search(body[lo..hi], b) < hi - lo
    requires hi < e + |b| + 2
    ensures Search(body[lo..hi], b) >= e - lo
  {
    var at := Search(body[lo..hi], b);
    OccursInSlice(body, b, lo, hi, at);
    hide Search;
  }

  /** Behind the start of the delimiter there is only the delimiter. */
  lemma NoBlankBehind(b: string, body: string, e: nat, lo: nat, hi: nat)
    requires b != "" && OneLine(b) && OccursAt(body, Closing(b), e) && lo <= e < hi < e + |b| + 2 && hi <= |body|
    ensures forall at :: e - lo <= at <= hi - lo ==> SearchFrom(body[lo..hi], BLANK_LINE, at) == hi - lo
  {
    var p := body[lo..hi];
    forall k | e - lo <= k < hi - lo ensures p[k] != '\r' {
      assert p[k] == body[e..e + |b| + 2][lo + k - e] == Closing(b)[lo + k - e];
    }
    forall k | e - lo <= k < hi - lo ensures !OccursAt(p, BLANK_LINE, k) { StartsWith(p, BLANK_LINE, k); }
    hide OccursAt;
  }

  lemma StartsWith(s: string, p: string, k: nat)
    requires p != "" && k < |s|
    ensures OccursAt(s, p, k) ==> s[k] == p[0]
  {
    if k + |p| <= |s| { assert s[k..k + |p|][0] == s[k]; }
  }

  lemma {:induction false} WrongFile(b: string, named: bool, u: Upload, body: string, h: nat, e: nat, off: nat,
                                     pieces: seq<string>, large: nat)
    requires OnePart(b, body, h, e) && OneLine(b) && h <= off <= e && Flat(pieces) == body[off..] && pieces != []
    requires NonEmpty(pieces) && u == Upload(ExpectBoundary, body[h..off], off - h)
    requires Large(pieces, large) && |body| - e + 1 < large && !InOnePiece(pieces, e - off, |b| + 2)
    ensures |Reports(b, named, Some(u), pieces)| >= 1 && |Reports(b, named, Some(u), pieces)[0].file| != e - h
    decreases |pieces|
  {
    hide First, Later, OccursAt, Search, Closing;
    PartFits(b, body, h, e);
    FirstPiece(body, off, pieces);
    var p, rest := pieces[0], pieces[1..];
    var hi := off + |p|;
    if hi <= e {
      DataPiece(u, b, body, h, e, off, hi);
      assert body[h..off] + body[off..hi] == body[h..hi];
      NotAtEnd(body, e, hi, rest);
      WrongFile(b, named, Upload(ExpectBoundary, body[h..hi], hi - h), body, h, e, hi, rest, large);
    } else {
      NotAtEnd(body, e + |b| + 1, hi, rest);
      CutPiece(u, b, body, h, e, off, hi);
      var v := Later(u, b, p);
      FirstPiece(body, hi, rest);
      if v == u {
        LaterLonger(u, b, rest[0]);
        OnlyOneLeft(body, e, hi, rest, large);
        LostData(b, named, u, rest);
      } else {
        OnlyLonger(b, named, v, rest);
      }
    }
  }

  /** Behind the delimiter there is no room for a large piece and another one. */
  lemma OnlyOneLeft(body: string, e: nat, hi: nat, rest: seq<string>, large: nat)
    requires e < hi <= |body| && |body| - e + 1 < large && Flat(rest) == body[hi..] && rest != [] && Large(rest, large)
    ensures |rest| == 1 && |rest[0]| == |body| - hi
  {
    FirstPiece(body, hi, rest);
    if |rest| == 1 { assert rest[1..] == [] && Flat(rest) == rest[0] + ""; }
  }

  lemma LostData(b: string, named: bool, u: Upload, rest: seq<string>)
    requires b != "" && |rest| == 1 && u.state == ExpectBoundary
    ensures Reports(b, named, Some(u), rest) == [Later(u, b, rest[0])]
  {
    assert rest[1..] == [];
    hide Later;
  }

  /** With a header block, and a delimiter with what follows it, that are smaller than
      the large pieces: exactly one upload is reported, and its file and count are
      right, if and only if the last piece holds the whole closing delimiter. */
  lemma RightFileIff(b: string, named: bool, body: string, h: nat, e: nat, pieces: seq<string>, large: nat)
    requires OnePart(b, body, h, e) && OneLine(b) && pieces != [] && NonEmpty(pieces) && Flat(pieces) == body
    requires Large(pieces, large) && h <= large && |body| - e + 1 < large
    ensures var rs := Reports(b, named, None, pieces);
            |rs| == 1 && rs[0].file == body[h..e] && rs[0].total == e - h <==> LastStart(pieces) <= e
  {
    hide First, Later, OccursAt, Search, Closing, Reports;
    ReportsAre(b, named, body, h, e, pieces);
    PartFits(b, body, h, e);
    assert body == body[0..];
    FirstPiece(body, 0, pieces);
    if |pieces| == 1 { OnePieceIs(pieces); }
    if LastStart(pieces) > e && !InOnePiece(pieces, e, |b| + 2) {
      WrongFirst(b, named, body, h, e, pieces, large);
    }
  }

  lemma OnePieceIs(pieces: seq<string>)
    requires |pieces| == 1
    ensures Flat(pieces) == pieces[0]
  {
    assert pieces[1..] == [] && pieces[0] + "" == pieces[0];
  }

  lemma WrongFirst(b: string, named: bool, body: string, h: nat, e: nat, pieces: seq<string>, large: nat)
    requires OnePart(b, body, h, e) && OneLine(b) && |pieces| > 1 && NonEmpty(pieces) && Flat(pieces) == body
    requires Large(pieces, large) && h <= large && |body| - e + 1 < large && !InOnePiece(pieces, e, |b| + 2)
    ensures Reports(b, named, None, pieces) != [] && |Reports(b, named, None, pieces)[0].file| != e - h
  {
    hide First, Later, OccursAt, Search, Closing;
    PartFits(b, body, h, e);
    assert body == body[0..];
    FirstPiece(body, 0, pieces);
    var hi, rest := |pieces[0]|, pieces[1..];
    assert pieces[0] == body[..hi];
    FirstOf(b, body, h, e, hi);
    var u := Upload(ExpectBoundary, body[h..hi], hi - h);
    if hi <= e {
      WrongFile(b, named, u, body, h, e, hi, rest, large);
    } else {
      OnlyLonger(b, named, u, rest);
    }
  }

  // ------------------------------------------------------------------ an example

  lemma SmallPart(b: string, body: string)
    requires b == "b" && body == "\r\n\r\n" + "xb--"
    ensures OnePart(b, body, 4, 5)
  {
    assert |body| == 8 && body[5] == 'b' && body[6] == '-' && body[7] == '-';
    assert forall k :: 0 <= k < 8 && k != 5 ==> body[k] != 'b';
    assert body[0..4] == BLANK_LINE && OccursAt(body, BLANK_LINE, 0);
    SearchIs(body, BLANK_LINE, 0);
    assert body[5..8] == Closing(b) && OccursAt(body, Closing(b), 5);
    hide OccursAt, Search;
    forall k | OccursAt(body, Closing(b), k) ensures k == 5 { StartsAt(body, Closing(b), k); }
    forall k | 4 <= k < 5 ensures !OccursAt(body, b, k) { StartsWith(body, b, k); }
  }

  lemma StartsAt(s: string, p: string, k: int)
    requires p != "" && OccursAt(s, p, k)
    ensures 0 <= k < |s| && s[k] == p[0]
  {
    assert s[k..k + |p|][0] == s[k];
  }

  /** A closing delimiter cut in two: the upload reported has not found it. */
  lemma CutDelimiter(named: bool)
    ensures var rs := Reports("b", named, None, ["\r\n\r\nxb-", "-"]); |rs| == 1 && rs[0].state != Complete
  {
    var body, pieces := "\r\n\r\n" + "xb--", ["\r\n\r\nxb-", "-"];
    SmallPart("b", body);
    assert pieces[1..] == ["-"] && pieces[1..][1..] == [];
    assert Flat(pieces[1..]) == "-" + "" == "-" && Flat(pieces) == pieces[0] + "-" == body;
    assert LastStart(pieces) == 7 && !InOnePiece(pieces[1..][1..], -3, 3) && !InOnePiece(pieces[1..], -2, 3);
    hide Reports, OnePart, Flat, LastStart, InOnePiece;
    ReportsAre("b", named, body, 4, 5, pieces);
  }

  /** And the same body in one piece. */
  lemma WholeDelimiter(named: bool)
    ensures Reports("b", named, None, ["\r\n\r\nxb--"]) == [Upload(Complete, "x", 1)]
  {
    var body, pieces := "\r\n\r\n" + "xb--", ["\r\n\r\nxb--"];
    SmallPart("b", body);
    assert pieces[1..] == [] && Flat(pieces) == pieces[0] + "" == body && body[4..5] == "x";
    hide Reports, OnePart, Flat;
    ReportsAre("b", named, body, 4, 5, pieces);
  }

  /** Inside a further part: a piece goes to the file whole, or up to the delimiter, if
      one starts in it, after which the next part's headers are looked for. */
  lemma ContentPiece(u: Upload, b: string, data: string, rest: string)
    requires u.state == ExpectContent && b != ""
    ensures (forall k :: !OccursAt(data, b, k)) ==>
              Later(u, b, data) == u.(file := u.file + data, total := u.total + |data|)
    ensures (forall k :: OccursAt(data + b + rest, b, k) ==> k >= |data|) ==>
              Later(u, b, data + b + rest) ==
              Upload(ExpectBoundary, u.file + data, u.total + |data|)
  {
    var p := data + b + rest;
    assert p[|data|..|data| + |b|] == b && OccursAt(p, b, |data|);
    if forall k :: OccursAt(p, b, k) ==> k >= |data| {
      SearchIs(p, b, |data|);
      assert p[..|data|] == data;
    }
    hide OccursAt, Search;
  }

  /** Between two parts: the file ends where the delimiter starts, once the header block
      behind it is there. */
  lemma NextPart(u: Upload, b: string, data: string, header: string, rest: string)
    requires u.state == ExpectBoundary && b != ""
    requires var p := data + b + header + "\r\n\r\n" + rest;
             && (forall k :: !OccursAt(p, b + "--", k))
             && (forall k :: OccursAt(p, b, k) ==> k >= |data|)
    ensures Later(u, b, data + b + header + "\r\n\r\n" + rest) ==
            Upload(ExpectContent, u.file + data, u.total + |data|)
  {
    var p := data + b + header + "\r\n\r\n" + rest;
    assert p[|data|..|data| + |b|] == b && OccursAt(p, b, |data|);
    SearchIs(p, b, |data|);
    assert p[..|data|] == data;
    var k := |data| + |b| + |header|;
    assert p[k..k + 4] == BLANK_LINE && OccursAt(p, BLANK_LINE, k);
    assert SearchFrom(p, BLANK_LINE, |data|) < |p|;
    hide OccursAt, Search, SearchFrom;
  }
}
