/**
 Which requests are uploads, and what the server does with them, said of the text of
 the request: its first line, its headers, and the bytes behind them.
 */
module UploadText {
  import opened Options
  import opened HttpParser
  import opened ParserDriver
  import opened ParserCalls
  import opened RequestText
  import opened HttpServerModel
  import Upload

  // ------------------------------------------------- the words of the first line

  lemma StepWords(c: Config, m: Option<string>)
    requires Wf(c) && !c.failed && c.ctx.phase in {ExpectHeaders, ExpectBody, GotAll}
    ensures Step(c, m).Some? ==>
              var d := Step(c, m).value;
              && !d.failed && d.ctx.phase in {ExpectHeaders, ExpectBody, GotAll}
              && d.ctx.request.meth == c.ctx.request.meth && d.ctx.request.path == c.ctx.request.path
  {
    hide LineEnd, HasLine, Line, AfterLine, HasColon, ToRead, Memory;
    if HasLine(c.unread) && HasColon(Line(c.unread)) {
      LineWords(c.ctx, Line(c.unread), Memory(AfterLine(c.unread), m));
    }
    hide HeaderLine;
  }

  lemma LineWords(ctx: Context, line: string, after: Option<string>)
    requires HasColon(line)
    ensures var r := HeaderLine(ctx, line, after).request; r.meth == ctx.request.meth && r.path == ctx.request.path
  {
    hide IsLengthLine, SameNoCase, HeaderLength, HasColon, FieldOf, ValueOf, TrimRight;
  }

  lemma {:induction false} RunWords(c: Config, m: Option<string>)
    requires Wf(c) && !c.failed && c.ctx.phase in {ExpectHeaders, ExpectBody, GotAll}
    ensures var d := Run(c, m);
            && !d.failed && d.ctx.request.meth == c.ctx.request.meth && d.ctx.request.path == c.ctx.request.path
    decreases Rank(c), |c.unread|
  {
    hide Step;
    StepWords(c, m);
    if Step(c, m).Some? { RunWords(Step(c, m).value, m); }
  }

  /** A context that a stream starting with the line leads to, with `t` still to
      come: the line is not there yet, or the request has its words. */
  predicate Tied(c: Config, t: string, msg: Message) {
    && Ready(c) && !c.failed
    && if c.ctx.phase == ExpectRequestLine
       then HasLine(c.unread + t) && Line(c.unread + t) == StartLine(msg)
       else c.ctx.request.meth == msg.meth && c.ctx.request.path == msg.path
  }

  lemma CallTied(c: Config, p: Piece, t: string, msg: Message)
    requires Sendable(msg) && Tied(c, p.bytes + t, msg) && Call(c, p).Parsed?
    ensures Tied(Call(c, p).config, t, msg)
  {
    hide LineEnd, HasLine, Line, AfterLine, RequestLine, Run, BlockEnds, Call, Ready, StartLine, Sendable;
    var f := Feed(c, p.bytes);
    CallIsRun(c, p);
    ReadyPhase(c);
    if c.ctx.phase == ExpectRequestLine {
      assert f.unread + t == c.unread + (p.bytes + t);
      FirstLine(c, p);
      if HasLine(f.unread) {
        LineOfMore(f.unread, t);
        Accepts(c.ctx.request, msg);
        RunStep(f, Some(p.beyond));
        var h := Step(f, Some(p.beyond)).value;
        AcceptedStep(f, p.beyond);
        RunWords(h, Some(p.beyond));
      }
    } else {
      RunWords(f, Some(p.beyond));
      PastTheLine(c, p);
    }
  }

  lemma AcceptedStep(f: Config, m: string)
    requires Wf(f) && !f.failed && f.ctx.phase == ExpectRequestLine && HasLine(f.unread)
    requires RequestLine(f.ctx.request, Line(f.unread)).0
    ensures Step(f, Some(m)).Some?
    ensures var h := Step(f, Some(m)).value;
            h.ctx.phase == ExpectHeaders && !h.failed && h.ctx.request == RequestLine(f.ctx.request, Line(f.unread)).1
  {
    hide LineEnd, HasLine, Line, AfterLine, RequestLine;
  }

  lemma BodyTied(c: Config, t: string, msg: Message, body: string)
    requires Tied(c, t, msg) && ActionOf(c).HandPiece?
    ensures Tied(WithBody(c, body), t, msg)
  {
    hide HasLine, Line;
  }

  predicate UploadWords(msg: Message) { msg.meth == Post && msg.path == "/upload" }

  /** The action, in full: a request with its words "POST /upload" is handed over in
      pieces of a megabyte, any other is not. */
  lemma TiedAction(c: Config, t: string, msg: Message)
    requires Tied(c, t, msg)
    ensures ActionOf(c) == if c.ctx.phase == GotAll then Answer(c.ctx.request)
                           else if UploadWords(msg) && c.ctx.phase == ExpectBody && |c.ctx.request.body| >= 1048576
                           then HandPiece(c.ctx.request.body)
                           else Wait
    ensures c.ctx.phase == GotAll ==> (IsUpload(c.ctx.request) <==> UploadWords(msg))
  {
    hide HasLine, Line;
  }

  // ------------------------------------------------------------ no other request

  /** For a stream that starts with the line of any other request, in whatever
      messages: nothing is handed over but the complete request, and no upload is
      reported. */
  lemma {:induction false} OtherRequest(s: Session, ps: seq<Piece>, msg: Message, b: string, named: bool)
    requires Sendable(msg) && !UploadWords(msg) && Tied(s.config, Joined(ps), msg) && b != ""
    ensures var r, t := Receive(s, ps, b, named), Deliver(s.config, ps);
            && r.reports == s.reports
            && |t.handed| == (if t.end == Answered then 1 else 0)
            && (r.end != Answered ==> r.slot == s.slot)
    decreases |ps|
  {
    hide Call, Ready, Sendable, Tied, Upload.Handle;
    TiedReady(s.config, Joined(ps), msg);
    if ps != [] {
      assert ps == [ps[0]] + ps[1..] && Joined(ps) == ps[0].bytes + Joined(ps[1..]);
      if Call(s.config, ps[0]).Parsed? {
        CallIsRun(s.config, ps[0]);
        CallTied(s.config, ps[0], Joined(ps[1..]), msg);
        var d := Call(s.config, ps[0]).config;
        TiedAction(d, Joined(ps[1..]), msg);
        assert s.reports + [] == s.reports;
        if d.ctx.phase != GotAll {
          OtherRequest(Session(d, s.slot, s.reports, s.end), ps[1..], msg, b, named);
        }
      }
    }
  }

  lemma TiedReady(c: Config, t: string, msg: Message)
    requires Tied(c, t, msg)
    ensures Ready(c) && !c.failed
  {
  }

  // ------------------------------------------------------------------- an upload

  /** For an upload, when all calls return and the request is not complete: less than
      a megabyte of its body waits in the request. */
  lemma {:induction false} NothingLargeWaits(c: Config, ps: seq<Piece>, msg: Message)
    requires Sendable(msg) && UploadWords(msg) && Tied(c, Joined(ps), msg) && ps != []
    ensures var t := Deliver(c, ps);
            t.end == Open && t.config.ctx.phase == ExpectBody ==> |t.config.ctx.request.body| < 1048576
    decreases |ps|
  {
    hide Call, Ready, Sendable, Tied;
    TiedReady(c, Joined(ps), msg);
    assert ps == [ps[0]] + ps[1..] && Joined(ps) == ps[0].bytes + Joined(ps[1..]);
    if Call(c, ps[0]).Parsed? {
      CallIsRun(c, ps[0]);
      CallTied(c, ps[0], Joined(ps[1..]), msg);
      var d := Call(c, ps[0]).config;
      TiedAction(d, Joined(ps[1..]), msg);
      if ActionOf(d).HandPiece? {
        BodyTied(d, Joined(ps[1..]), msg, "");
        if ps[1..] != [] { NothingLargeWaits(WithBody(d, ""), ps[1..], msg); }
      } else if d.ctx.phase != GotAll && ps[1..] != [] {
        NothingLargeWaits(d, ps[1..], msg);
      }
    }
  }

  /** The text in front of an upload's header block. */
  function PostLine(query: string, minor: char): string { "POST /upload" + query + " HTTP/1." + [minor] }

  function PostMessage(query: string, minor: char, hs: seq<Header>): Message {
    Message(Post, "/upload", query, minor, hs)
  }

  lemma PostLineIs(query: string, minor: char, hs: seq<Header>)
    ensures var msg := PostMessage(query, minor, hs);
            && StartLine(msg) == PostLine(query, minor) && HeadText(msg) == PostLine(query, minor) + CRLF + Block(hs)
            && UploadWords(msg) && msg.headers == hs
  {
    assert "POST" + " " + ("/upload" + query + " " + ("HTTP/1." + [minor])) == PostLine(query, minor);
    hide Block;
  }

  /** The messages of an upload whose calls of the parser all return: the request line,
      headers without a chunked encoding and with `n` for a length, and `x` behind
      the header block. */
  ghost predicate Arrives(c: Config, ps: seq<Piece>, query: string, minor: char, hs: seq<Header>, n: nat, x: string) {
    && AtStart(c) && ps != [] && Calls(c, ps).Parsed?
    && Joined(ps) == PostLine(query, minor) + CRLF + Block(hs) + x
    && ' ' !in query && '\r' !in query && (query != "" ==> query[0] == '?') && minor in "01"
    && AllPlain(hs) && SaysLength(hs, n) && forall h :: h in hs ==> !IsChunked(h)
  }

  /** What they leave in the request when nothing is taken out of it. */
  lemma UploadArrives(c: Config, ps: seq<Piece>, query: string, minor: char, hs: seq<Header>, n: nat, x: string)
    requires Arrives(c, ps, query, minor, hs, n, x)
    ensures var d := Calls(c, ps).config;
            && !d.failed && d.ctx.phase == (if |x| >= n then GotAll else ExpectBody)
            && d.ctx.request.body == (if |x| >= n then x[..n] else x)
            && IsUpload(d.ctx.request)
            && ActionOf(d) == if |x| >= n then Answer(d.ctx.request)
                              else if |x| >= 1048576 then HandPiece(x)
                              else Wait
  {
    var msg := PostMessage(query, minor, hs);
    ArrivesIs(c, ps, query, minor, hs, n, x);
    assert forall h :: h in msg.headers ==> !IsChunked(h) by { hide IsChunked; }
    hide *;
    WholeRequest(c, ps, msg, n, x);
    WholeAction(Calls(c, ps).config, msg);
  }

  lemma WholeAction(d: Config, msg: Message)
    requires !d.failed && d.ctx.request.meth == msg.meth && d.ctx.request.path == msg.path && UploadWords(msg)
    ensures IsUpload(d.ctx.request)
    ensures d.ctx.phase == GotAll ==> ActionOf(d) == Answer(d.ctx.request)
    ensures d.ctx.phase == ExpectBody ==>
              ActionOf(d) == if |d.ctx.request.body| >= 1048576 then HandPiece(d.ctx.request.body) else Wait
  {
  }

  lemma ArrivesIs(c: Config, ps: seq<Piece>, query: string, minor: char, hs: seq<Header>, n: nat, x: string)
    requires Arrives(c, ps, query, minor, hs, n, x)
    ensures var msg := PostMessage(query, minor, hs);
            && Sendable(msg) && UploadWords(msg) && SaysLength(msg.headers, n) && msg.headers == hs
            && AtStart(c) && Ready(c) && !c.failed && c.ctx.phase == ExpectRequestLine && c.unread == ""
            && ps != [] && Calls(c, ps).Parsed? && Joined(ps) == HeadText(msg) + x
            && HasLine(Joined(ps)) && Line(Joined(ps)) == StartLine(msg)
            && forall h :: h in hs ==> !IsChunked(h)
  {
    hide LineEnd, HasLine, Line, AfterLine, Calls, Ready, AllPlain, SaysLength, Joined, Block, IsChunked;
    var msg := PostMessage(query, minor, hs);
    PostLineIs(query, minor, hs);
    hide PostLine, HeadText, StartLine;
    assert Sendable(msg) by { hide Words; PostWords(query, minor); }
    LineNoReturn(msg);
    assert StartLine(msg) + CRLF + Block(hs) + x == StartLine(msg) + CRLF + (Block(hs) + x);
    RequestText.LineIs(StartLine(msg), Block(hs) + x);
  }

  lemma PostWords(query: string, minor: char)
    requires ' ' !in query && (query != "" ==> query[0] == '?') && minor in "01"
    ensures Words("/upload", query, minor) && '\r' !in "/upload"
  {
  }

  /** And at every moment less than a megabyte of the body waits in the request, until
      it is complete. */
  lemma UploadWaits(c: Config, ps: seq<Piece>, query: string, minor: char, hs: seq<Header>, n: nat, x: string)
    requires Arrives(c, ps, query, minor, hs, n, x) && |x| < n
    ensures var t := Deliver(c, ps);
            && t.end == Open && Upload.Flat(t.handed) + t.config.ctx.request.body == x
            && |t.config.ctx.request.body| < 1048576 && forall i :: 0 <= i < |t.handed| ==> |t.handed[i]| >= 1048576
  {
    var msg := PostMessage(query, minor, hs);
    ArrivesIs(c, ps, query, minor, hs, n, x);
    UploadArrives(c, ps, query, minor, hs, n, x);
    assert c.unread + Joined(ps) == Joined(ps);
    hide *;
    TiedAtStart(c, Joined(ps), msg);
    DrainedBody(c, ps);
    OpenRest(Deliver(c, ps));
    NothingLargeWaits(c, ps, msg);
    AllLarge(c, ps);
    StillInBody(c, ps);
    BodyOnly(Deliver(c, ps).config, Calls(c, ps).config.ctx.request.body);
  }

  lemma OpenRest(t: Transfer)
    ensures t.end == Open ==> Rest(t) == t.config.ctx.request.body
  {
  }

  lemma BodyOnly(d: Config, body: string)
    ensures WithBody(d, body).ctx.phase == d.ctx.phase
  {
  }

  lemma TiedAtStart(c: Config, t: string, msg: Message)
    requires Ready(c) && !c.failed && c.ctx.phase == ExpectRequestLine
    requires HasLine(c.unread + t) && Line(c.unread + t) == StartLine(msg)
    ensures Tied(c, t, msg)
  {
  }

  /** Every piece handed over before the request is complete has a megabyte. */
  lemma {:induction false} AllLarge(c: Config, ps: seq<Piece>)
    requires Ready(c) && Deliver(c, ps).end == Open
    ensures forall i :: 0 <= i < |Deliver(c, ps).handed| ==> |Deliver(c, ps).handed[i]| >= 1048576
    decreases |ps|
  {
    hide Call, Ready, Run, IsUpload;
    if ps != [] {
      CallIsRun(c, ps[0]);
      var d := Call(c, ps[0]).config;
      match ActionOf(d) {
        case HandPiece(body) =>
          Drained(d);
          AllLarge(WithBody(d, ""), ps[1..]);
        case Answer(r) =>
        case _ => AllLarge(d, ps[1..]);
      }
    }
  }

  /** The context of a session is that of the calls, but for the body. */
  lemma {:induction false} StillInBody(c: Config, ps: seq<Piece>)
    requires Ready(c) && Calls(c, ps).Parsed? && Deliver(c, ps).end == Open
    ensures var d, e := Deliver(c, ps).config, Calls(c, ps).config; e == WithBody(d, e.ctx.request.body)
    decreases |ps|
  {
    hide Call, Ready, Run, IsUpload, InBody;
    if ps != [] {
      CallIsRun(c, ps[0]);
      var d := Call(c, ps[0]).config;
      match ActionOf(d) {
        case HandPiece(body) =>
          Drained(d);
          var e := WithBody(d, "");
          CallsLonger(e, body, ps[1..]);
          StillInBody(e, ps[1..]);
        case Answer(r) =>
        case _ => StillInBody(d, ps[1..]);
      }
    }
  }

  /** An upload end to end, from the text that TCP carries to the uploads reported, when
      every call of the parser returns. Exactly one upload is reported, by its closing
      delimiter, if and only if the first piece handed over holds the header block of
      the part and the last one the whole delimiter; then its file and count are the
      data's. And with a header block, and a delimiter and what follows it, of less
      than a megabyte, exactly one upload is reported with the right file and count if
      and only if the last piece holds the whole delimiter. */
  lemma StreamedUpload(c: Config, ps: seq<Piece>, query: string, minor: char, hs: seq<Header>, n: nat, x: string,
                       b: string, named: bool, h: nat, e: nat)
    requires Arrives(c, ps, query, minor, hs, n, x) && |x| >= n && Upload.OnePart(b, x[..n], h, e)
    ensures var body, pieces := x[..n], Deliver(c, ps).handed;
            var s := Receive(Session(c, None, [], Open), ps, b, named);
            && s.end == Answered && pieces != [] && Upload.Flat(pieces) == body && h <= e <= |body|
            && (forall i :: 0 <= i < |pieces| - 1 ==> |pieces[i]| >= 1048576)
            && (|s.reports| == 1 && s.reports[0].state == Upload.Complete <==>
                  |pieces[0]| >= h && Upload.LastStart(pieces) <= e)
            && (|s.reports| == 1 && s.reports[0].state == Upload.Complete ==>
                  s.reports[0].file == body[h..e] && s.reports[0].total == e - h)
            && (Upload.OneLine(b) && h <= 1048576 && |body| - e + 1 < 1048576 ==>
                  (|s.reports| == 1 && s.reports[0].file == body[h..e] && s.reports[0].total == e - h <==>
                     Upload.LastStart(pieces) <= e))
  {
    UploadArrives(c, ps, query, minor, hs, n, x);
    assert Ready(c) && !c.failed && c.ctx.phase == ExpectRequestLine;
    hide Calls, Ready, IsUpload, Deliver, Receive, Upload.OnePart, Block, PostLine, SaysLength;
    StreamedBody(c, ps, b, named, h, e);
    DrainedBody(c, ps);
    LargeOnes(Deliver(c, ps).handed);
  }

  lemma {:induction false} LargeOnes(pieces: seq<string>)
    requires Upload.Large(pieces, LARGE)
    ensures forall i :: 0 <= i < |pieces| - 1 ==> |pieces[i]| >= 1048576
    decreases |pieces|
  {
    if |pieces| > 1 {
      LargeOnes(pieces[1..]);
      forall i | 0 < i < |pieces| - 1 ensures |pieces[i]| >= 1048576 { assert pieces[i] == pieces[1..][i - 1]; }
    }
  }
}
