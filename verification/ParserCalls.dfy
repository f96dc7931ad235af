/**
 The calls of the parser for one request, as messages arrive: a call may find the
 assertion of `setMethod` violated, may not return, or returns a context for the
 next one. When the result depends on how the stream was cut.
 */
module ParserCalls {
  import opened Bytes
  import opened Options
  import opened HttpParser
  import opened ParserDriver

  datatype Outcome = Aborts | Spins | Parsed(config: Config)

  predicate HasSpace(line: string) { IndexOf(line, ' ') < |line| }

  /** The call reaches `setMethod` with a method already set: the one that a bad
      request line has left behind, and that line is parsed again. */
  predicate AssertFails(c: Config) {
    && c.ctx.phase == ExpectRequestLine && HasLine(c.unread) && HasSpace(Line(c.unread))
    && c.ctx.request.meth != Invalid
  }

  /** A refused line is still unread, and parsing it again changes nothing. */
  predicate Refused(c: Config) {
    && c.ctx.phase == ExpectRequestLine && HasLine(c.unread)
    && RequestLine(c.ctx.request, Line(c.unread)) == (false, c.ctx.request)
    && (c.ctx.request.meth != Invalid ==> HasSpace(Line(c.unread)))
  }

  /** What a call can start from. */
  predicate Callable(c: Config) {
    !c.failed && c.ctx.contentLength.Some? && (Wf(c) || (AssertFails(c) && Wf(c.(failed := true))))
  }

  lemma AbortOrWf(c: Config)
    requires Callable(c)
    ensures AssertFails(c) <==> !Wf(c)
    ensures AssertFails(c) ==> c.ctx.phase == ExpectRequestLine
  {
    hide HasLine, Line, HasSpace;
  }

  /** What holds between two calls. */
  predicate Ready(c: Config) {
    && Wf(c) && c.ctx.contentLength.Some? && c.ctx.phase != ExpectHeaders
    && (c.failed ==> Refused(c))
  }

  /** The next call does not remember that the last one failed. */
  function Reopened(c: Config): Config { c.(failed := false) }

  /** The assertion holds in the next call, whatever bytes it brings, if and only if
      no bad request line with a known method is waiting: which is to say, if the
      parser expects a request line, no method is set. */
  lemma AssertionIff(c: Config, bytes: string)
    requires Ready(c)
    ensures AssertFails(Feed(Reopened(c), bytes)) <==> c.ctx.phase == ExpectRequestLine && c.ctx.request.meth != Invalid
    ensures AssertFails(Feed(Reopened(c), bytes)) <==> c.failed && c.ctx.request.meth != Invalid
    ensures !AssertFails(Feed(Reopened(c), bytes)) ==> Wf(Feed(Reopened(c), bytes))
  {
    if c.failed { LineOfMore(c.unread, bytes); }
    hide HasLine, Line, RequestLine;
  }

  lemma NextCallable(c: Config)
    requires Wf(c) && c.ctx.contentLength.Some? && (c.failed ==> Refused(c))
    ensures Callable(Reopened(c))
  {
    hide HasLine, Line, RequestLine, HasSpace;
  }

  function Call(c: Config, p: Piece): Outcome
    requires Ready(c)
  {
    var d := Feed(Reopened(c), p.bytes);
    if AssertFails(d) then Aborts else
    AssertionIff(c, p.bytes);
    if !Returns(d) then Spins else Parsed(Run(d, Some(p.beyond)))
  }

  lemma RejectAgain(r: Request, line: string)
    requires !RequestLine(r, line).0
    ensures RequestLine(RequestLine(r, line).1, line) == (false, RequestLine(r, line).1)
    ensures RequestLine(r, line).1.meth != Invalid ==> HasSpace(line) || r.meth != Invalid
  {
    hide MethodOf;
  }

  lemma StepRefused(c: Config, m: string)
    requires Wf(c) && !c.failed && Step(c, Some(m)).Some? && Step(c, Some(m)).value.failed
    ensures Refused(Step(c, Some(m)).value)
  {
    RejectAgain(c.ctx.request, Line(c.unread));
    hide LineEnd, RequestLine;
  }

  lemma {:induction false} RunRefused(c: Config, m: string)
    requires Wf(c) && !c.failed
    ensures Run(c, Some(m)).failed ==> Refused(Run(c, Some(m)))
    decreases Rank(c), |c.unread|
  {
    hide Refused, Step;
    if Step(c, Some(m)).Some? {
      var d := Step(c, Some(m)).value;
      if d.failed {
        StepRefused(c, m);
        FailedRuns(d, m);
      } else {
        RunRefused(d, m);
      }
    }
  }

  lemma FailedRuns(c: Config, m: string)
    requires Wf(c) && c.failed
    ensures Run(c, Some(m)) == c
  {
  }

  /** The bad line is refused again. */
  lemma RefusedAgain(c: Config, p: Piece)
    requires Ready(c) && c.failed && c.ctx.request.meth == Invalid
    ensures Call(c, p) == Parsed(Feed(c, p.bytes)) && Ready(Feed(c, p.bytes))
  {
    var d := Feed(Reopened(c), p.bytes);
    AssertionIff(c, p.bytes);
    LineOfMore(c.unread, p.bytes);
    FailedRuns(Feed(c, p.bytes), p.beyond);
    RunStep(d, Some(p.beyond));
    hide LineEnd, HasLine, Line, RequestLine, Run, BlockEnds;
  }

  /** A call that returns leaves what `Run` does, and is ready for the next. */
  lemma CallIsRun(c: Config, p: Piece)
    requires Ready(c) && Call(c, p).Parsed?
    ensures Call(c, p).config == Run(Feed(c, p.bytes), Some(p.beyond)) && Ready(Call(c, p).config)
  {
    AssertionIff(c, p.bytes);
    if c.failed {
      RefusedAgain(c, p);
      FailedRuns(Feed(c, p.bytes), p.beyond);
    } else {
      var d := Feed(c, p.bytes);
      assert Reopened(c) == c;
      RunRefused(d, p.beyond);
      ReturnsWithin(d, p.beyond, 3);
      ReturnedMeansRun(d, p.beyond, NeedMore, 3);
    }
    hide Returns, Run, Refused, Drive;
  }

  function Calls(c: Config, ps: seq<Piece>): Outcome
    requires Ready(c)
    decreases |ps|
  {
    if ps == [] then Parsed(c) else
    match Call(c, ps[0])
    case Parsed(d) =>
      CallIsRun(c, ps[0]);
      Calls(d, ps[1..])
    case o => o
  }

  lemma {:induction false} CallsAreRuns(c: Config, ps: seq<Piece>)
    requires Ready(c) && Calls(c, ps).Parsed?
    ensures Calls(c, ps).config == RunPieces(c, ps) && Ready(Calls(c, ps).config)
    decreases |ps|
  {
    hide Call, Ready, Run;
    if ps != [] {
      CallIsRun(c, ps[0]);
      CallsAreRuns(Call(c, ps[0]).config, ps[1..]);
    }
  }

  // ------------------------------------------------------ when a call aborts

  /** The first line is refused, and its method is a known one. */
  predicate RefusedKnown(r: Request, u: string) {
    HasLine(u) && !RequestLine(r, Line(u)).0 && RequestLine(r, Line(u)).1.meth != Invalid
  }

  lemma PastTheLine(c: Config, p: Piece)
    requires Ready(c) && !c.failed && c.ctx.phase in {ExpectBody, GotAll} && Call(c, p).Parsed?
    ensures var d := Call(c, p).config; !d.failed && d.ctx.phase in {ExpectBody, GotAll}
  {
    CallIsRun(c, p);
    BodyStays(Feed(c, p.bytes), Some(p.beyond));
    hide Call, Ready, Run;
  }

  lemma {:induction false} BodyStays(c: Config, m: Option<string>)
    requires Wf(c) && !c.failed && c.ctx.phase in {ExpectBody, GotAll}
    ensures !Run(c, m).failed && Run(c, m).ctx.phase in {ExpectBody, GotAll}
    decreases Rank(c), |c.unread|
  {
    if Step(c, m).Some? { BodyStays(Step(c, m).value, m); }
  }

  lemma {:induction false} NoAbortInBody(c: Config, ps: seq<Piece>)
    requires Ready(c) && !c.failed && c.ctx.phase in {ExpectBody, GotAll}
    ensures !Calls(c, ps).Aborts?
    decreases |ps|
  {
    if ps != [] {
      AssertionIff(c, ps[0].bytes);
      if Call(c, ps[0]).Parsed? {
        PastTheLine(c, ps[0]);
        CallIsRun(c, ps[0]);
        NoAbortInBody(Call(c, ps[0]).config, ps[1..]);
      }
      hide Run, Ready, AssertFails;
    }
  }

  /** A refused line with an unknown method is refused for ever. */
  lemma {:induction false} RefusedForEver(c: Config, ps: seq<Piece>)
    requires Ready(c) && c.failed && c.ctx.request.meth == Invalid
    ensures Calls(c, ps) == Parsed(Feed(c, Joined(ps)))
    decreases |ps|
  {
    hide Call, Ready;
    if ps == [] {
      assert c.unread + "" == c.unread;
    } else {
      RefusedAgain(c, ps[0]);
      RefusedForEver(Feed(c, ps[0].bytes), ps[1..]);
      FeedFeed(c, ps[0].bytes, Joined(ps[1..]));
    }
  }

  lemma FeedFeed(c: Config, s: string, t: string)
    ensures Feed(Feed(c, s), t) == Feed(c, s + t)
  {
    assert c.unread + s + t == c.unread + (s + t);
  }

  /** The first call that sees a line. */
  lemma FirstLine(c: Config, p: Piece)
    requires Ready(c) && !c.failed && c.ctx.phase == ExpectRequestLine
    ensures var d := Feed(c, p.bytes);
            && !Call(c, p).Aborts?
            && (!HasLine(d.unread) ==> Call(c, p) == Parsed(d))
            && (HasLine(d.unread) && !RequestLine(c.ctx.request, Line(d.unread)).0 ==>
                  var r := RequestLine(c.ctx.request, Line(d.unread)).1;
                  Call(c, p) == Parsed(d.(ctx := d.ctx.(request := r), failed := true)))
            && (HasLine(d.unread) && RequestLine(c.ctx.request, Line(d.unread)).0 ==>
                  (Call(c, p).Parsed? <==> BlockEnds(AfterLine(d.unread)))
                  && (Call(c, p).Parsed? ==>
                        !Call(c, p).config.failed && Call(c, p).config.ctx.phase in {ExpectBody, GotAll}))
  {
    var d := Feed(c, p.bytes);
    AssertionIff(c, p.bytes);
    assert Reopened(c) == c;
    RunStep(d, Some(p.beyond));
    if HasLine(d.unread) {
      var e := Step(d, Some(p.beyond)).value;
      if e.failed {
        FailedRuns(e, p.beyond);
      } else if BlockEnds(AfterLine(d.unread)) {
        CallIsRun(c, p);
        HeadersStay(e, Some(p.beyond));
      }
    }
    hide LineEnd, HasLine, Line, AfterLine, RequestLine, Run, BlockEnds;
  }

  lemma {:induction false} HeadersStay(c: Config, m: Option<string>)
    requires Wf(c) && !c.failed && c.ctx.phase == ExpectHeaders
    ensures !Run(c, m).failed && Run(c, m).ctx.phase != ExpectRequestLine
    decreases Rank(c), |c.unread|
  {
    hide LineEnd, HeaderLine;
    if Step(c, m).Some? {
      var d := Step(c, m).value;
      if d.ctx.phase == ExpectHeaders { HeadersStay(d, m); } else { BodyStays(d, m); }
    }
  }

  /** One of the calls aborts if and only if the stream starts with a refused line
      whose method is known and that line was complete before the last message. */
  lemma {:induction false} AbortsIff(c: Config, ps: seq<Piece>)
    requires Ready(c) && !c.failed && c.ctx.phase == ExpectRequestLine
    ensures Calls(c, ps).Aborts? <==>
            && |ps| >= 2 && RefusedKnown(c.ctx.request, c.unread + Joined(ps))
            && HasLine(c.unread + Joined(ps[..|ps| - 1]))
    decreases |ps|
  {
    hide Call, Ready, RequestLine, HasLine, Line, AfterLine, BlockEnds;
    if ps != [] {
      FirstLine(c, ps[0]);
      var d := Feed(c, ps[0].bytes);
      var rest := ps[1..];
      assert d.unread + Joined(rest) == c.unread + Joined(ps) by { FeedFeed(c, ps[0].bytes, Joined(rest)); }
      if |ps| >= 2 { InitOf(c, ps); }
      if HasLine(d.unread) {
        LineOfMore(d.unread, Joined(rest));
        if |ps| >= 2 { LineOfMore(d.unread, Joined(rest[..|rest| - 1])); }
        if Call(c, ps[0]).Parsed? {
          CallIsRun(c, ps[0]);
          var e := Call(c, ps[0]).config;
          if !e.failed {
            NoAbortInBody(e, rest);
          } else if e.ctx.request.meth == Invalid {
            RefusedForEver(e, rest);
          } else if |ps| >= 2 {
            AbortsNext(e, rest[0]);
          }
        }
      } else {
        CallIsRun(c, ps[0]);
        AbortsIff(d, rest);
        if |ps| == 1 { assert rest == []; }
        if |ps| == 2 { assert rest[..0] == [] && d.unread + "" == d.unread; }
      }
    }
  }

  lemma InitOf(c: Config, ps: seq<Piece>)
    requires |ps| >= 2
    ensures var rest := ps[1..];
            c.unread + Joined(ps[..|ps| - 1]) == Feed(c, ps[0].bytes).unread + Joined(rest[..|rest| - 1])
  {
    var rest := ps[1..];
    assert ps[..|ps| - 1][1..] == rest[..|rest| - 1];
    FeedFeed(c, ps[0].bytes, Joined(rest[..|rest| - 1]));
  }

  lemma AbortsNext(c: Config, p: Piece)
    requires Ready(c) && c.failed && c.ctx.request.meth != Invalid
    ensures Call(c, p) == Aborts
  {
    AssertionIff(c, p.bytes);
    hide AssertFails, Returns;
  }

  // ------------------------------------------------- the length of the body

  predicate AllSpaces(s: string) { forall i :: 0 <= i < |s| ==> IsSpace(s[i]) }

  /** How long the header block is, its last line included. */
  function BlockLen(v: string): (n: nat)
    requires BlockEnds(v)
    ensures 2 <= n <= |v|
    decreases |v|
  {
    hide LineEnd;
    LineEnd(v) + 2 + (if HasColon(Line(v)) then BlockLen(AfterLine(v)) else 0)
  }

  /** The last Content-Length header has a blank value, and only spaces follow it to
      the end of the block: it is the last header. */
  predicate OpenEnded(v: string)
    requires BlockEnds(v)
    decreases |v|
  {
    hide LineEnd;
    HasColon(Line(v)) && (
      OpenEnded(AfterLine(v))
      || (IsLengthLine(Line(v)) && ValueOf(Line(v)) == "" && AllSpaces(AfterLine(v)[..BlockLen(AfterLine(v))])))
  }

  lemma {:induction false} SkipAll(s: string)
    ensures SkipSpaces(s) == "" <==> AllSpaces(s)
  {
    if s != "" {
      SkipAll(s[1..]);
      if IsSpace(s[0]) { assert AllSpaces(s) <==> AllSpaces(s[1..]); }
    }
  }

  lemma BlockEndsLine(v: string)
    requires BlockEnds(v)
    ensures v[BlockLen(v) - 2..BlockLen(v)] == CRLF
    decreases |v|
  {
    hide HasColon, LineEnd;
    LineOccurs(v);
    var i := LineEnd(v);
    if HasColon(Line(v)) {
      var w, n := AfterLine(v), BlockLen(AfterLine(v));
      BlockEndsLine(w);
      assert w[n - 2..n] == v[i + 2 + n - 2..i + 2 + n];
    }
  }

  lemma LineOccurs(v: string)
    requires HasLine(v)
    ensures v[LineEnd(v)..LineEnd(v) + 2] == CRLF
  {
    assert OccursAt(v, CRLF, LineEnd(v));
  }

  /** The number in a text that ends with a line end, and not of spaces only, is
      read from there and from nowhere behind it. */
  lemma ReadBefore(t: string, rest: string)
    requires |t| >= 2 && t[|t| - 2..] == CRLF && !AllSpaces(t)
    ensures ReadNumber(t + rest) == ReadNumber(t)
  {
    hide SkipSpaces, SignedNumber, IsSpace, AllSpaces;
    SkipAll(t);
    SkipThrough(t, rest);
    var r := SkipSpaces(t);
    EndsTheSame(t, r);
    var w := r[..|r| - 2];
    assert r == w + CRLF;
    SignedStops(w, rest);
    SignedStops(w, "");
    assert w + CRLF + "" == r;
  }

  /** With something else than spaces left in the block, a blank length is read from
      the block. */
  lemma ReadInBlock(v: string, z: string)
    requires BlockEnds(v) && !AllSpaces(v[..BlockLen(v)])
    ensures HeaderLength("", Some(v + z)) == HeaderLength("", Some(v[..BlockLen(v)]))
  {
    var n := BlockLen(v);
    BlockEndsLine(v);
    hide BlockLen, BlockEnds, AllSpaces, ReadNumber, HeaderLength;
    var t, rest := CRLF + v[..n], v[n..] + z;
    assert CRLF + (v + z) == t + rest;
    assert t[|t| - 2..] == v[n - 2..n];
    SpacesBehind(v[..n]);
    ReadBefore(t, rest);
    SameBlankLength(v + z, v[..n]);
  }

  lemma SpacesBehind(s: string)
    ensures AllSpaces(CRLF + s) <==> AllSpaces(s)
  {
    forall i | 0 <= i < |s| ensures (CRLF + s)[i + 2] == s[i] {}
  }

  lemma SameBlankLength(a: string, b: string)
    requires ReadNumber(CRLF + a) == ReadNumber(CRLF + b)
    ensures HeaderLength("", Some(a)) == HeaderLength("", Some(b))
  {
    hide ReadNumber, Narrow;
    assert "" + CRLF + a == CRLF + a && "" + CRLF + b == CRLF + b;
  }

  /** What is left of a text that ends with a line end, once its spaces are skipped. */
  lemma EndsTheSame(t: string, r: string)
    requires |t| >= 2 && t[|t| - 2..] == CRLF && |r| <= |t| && r == t[|t| - |r|..] && r != "" && !IsSpace(r[0])
    ensures |r| > 2 && r[|r| - 2..] == CRLF
  {
    assert t[|t| - 2] == '\r' && t[|t| - 1] == '\n';
    assert r[0] == t[|t| - |r|];
  }

  /** The header lines of a complete block give the same context whatever follows
      the block, unless the block is open-ended. */
  lemma {:induction false} HeadsAgree(c: Config, x: string, m: string, m': string)
    requires Wf(c) && !c.failed && c.ctx.phase == ExpectHeaders && c.ctx.contentLength.Some?
    requires BlockEnds(c.unread) && !OpenEnded(c.unread)
    ensures HeaderLoop(Feed(c, x), m').ctx == HeaderLoop(c, m).ctx
    ensures HeaderLoop(c, m).unread == c.unread[BlockLen(c.unread)..]
    ensures HeaderLoop(Feed(c, x), m').unread == c.unread[BlockLen(c.unread)..] + x
    decreases |c.unread|
  {
    hide LineEnd, HasLine, Line, AfterLine, HasColon, HeaderLine, IsLengthLine, ValueOf, RequestLine, HeaderLoop;
    var v, line, rest := c.unread, Line(c.unread), AfterLine(c.unread);
    LineOfMore(v, x);
    HeaderTurn(c, m);
    HeaderTurn(Feed(c, x), m');
    LineCut(v);
    if HasColon(line) {
      assert rest + x + m' == rest + (x + m');
      LengthInBlock(line, rest, m, x + m');
      SameHeader(c.ctx, line, rest + m, rest + (x + m'));
      var ctx := HeaderLine(c.ctx, line, Some(rest + m));
      assert Feed(Config(ctx, rest, false), x) == Config(ctx, rest + x, false);
      HeadsAgree(Config(ctx, rest, false), x, m, m');
    }
  }

  /** Where the block is behind its first line. */
  lemma LineCut(v: string)
    requires BlockEnds(v)
    ensures if HasColon(Line(v)) then v[BlockLen(v)..] == AfterLine(v)[BlockLen(AfterLine(v))..]
            else v[BlockLen(v)..] == AfterLine(v)
  {
  }

  lemma LengthInBlock(line: string, rest: string, a: string, b: string)
    requires BlockEnds(rest) && HasColon(line)
    requires !(IsLengthLine(line) && ValueOf(line) == "" && AllSpaces(rest[..BlockLen(rest)]))
    ensures IsLengthLine(line) ==>
              HeaderLength(ValueOf(line), Some(rest + a)) == HeaderLength(ValueOf(line), Some(rest + b))
  {
    hide HeaderLength, IsLengthLine;
    if IsLengthLine(line) {
      if ValueOf(line) == "" {
        ReadInBlock(rest, a);
        ReadInBlock(rest, b);
      } else {
        LengthStops(ValueOf(line), rest + a);
        LengthStops(ValueOf(line), rest + b);
      }
    }
  }

  lemma SameHeader(ctx: Context, line: string, a: string, b: string)
    requires HasColon(line)
    requires IsLengthLine(line) ==> HeaderLength(ValueOf(line), Some(a)) == HeaderLength(ValueOf(line), Some(b))
    ensures HeaderLine(ctx, line, Some(a)) == HeaderLine(ctx, line, Some(b))
  {
    hide HeaderLength, HasColon, IsLengthLine, ValueOf, FieldOf, TrimRight;
  }

  // ----------------------------------------------------- what all cuts agree on

  /** The stream starts with an accepted request line and an open-ended block. */
  predicate OpenStream(c: Config, u: string) {
    && c.ctx.phase == ExpectRequestLine && !c.failed && HasLine(u) && RequestLine(c.ctx.request, Line(u)).0
    && BlockEnds(AfterLine(u)) && OpenEnded(AfterLine(u))
  }

  lemma SameStream(c: Config, d: Config, u: string)
    requires d == c.(unread := d.unread)
    ensures OpenStream(c, u) <==> OpenStream(d, u)
  {
  }

  /** In the body, and behind it, memory does not matter: one pass over the rest. */
  lemma BodyAgrees(c: Config, ps: seq<Piece>)
    requires Wf(c) && !c.failed && c.ctx.phase in {ExpectBody, GotAll} && c.ctx.contentLength.Some? && ps != []
    ensures RunPieces(c, ps) == Run(Feed(c, Joined(ps)), None)
  {
    NoBlankInBody(Feed(c, Joined(ps)));
    SplitIndependence(c, ps);
    hide LengthFrom, Run, RunPieces, Joined;
  }

  lemma OnePass(c: Config, s: string, m: string)
    requires Wf(c) && !c.failed && c.ctx.phase in {ExpectBody, GotAll} && c.ctx.contentLength.Some?
    ensures Run(Feed(c, s), Some(m)) == Run(Feed(c, s), None)
  {
    var ps := [Piece(s, m)];
    assert ps[1..] == [] && s + "" == s;
    assert Joined(ps) == s + Joined(ps[1..]) == s;
    BodyAgrees(c, ps);
    assert RunPieces(c, ps) == RunPieces(Run(Feed(c, s), Some(m)), ps[1..]) == Run(Feed(c, s), Some(m));
    hide Run, RunPieces, Joined;
  }

  lemma PiecesUnroll(c: Config, p: Piece, rest: seq<Piece>)
    requires Wf(c)
    ensures RunPieces(c, [p] + rest) == RunPieces(Run(Feed(c, p.bytes), Some(p.beyond)), rest)
    ensures Joined([p] + rest) == p.bytes + Joined(rest)
  {
    assert ([p] + rest)[1..] == rest;
    hide Run;
  }

  /** The state with an accepted request line read. */
  function Accepted(c: Config, line: string, rest: string): Config {
    Config(c.ctx.(request := RequestLine(c.ctx.request, line).1, phase := ExpectHeaders), rest, false)
  }

  lemma RunAccepted(c: Config, m: string)
    requires Wf(c) && !c.failed && c.ctx.phase == ExpectRequestLine && HasLine(c.unread)
    requires RequestLine(c.ctx.request, Line(c.unread)).0
    ensures var h := Accepted(c, Line(c.unread), AfterLine(c.unread));
            && Wf(h) && Run(c, Some(m)) == Run(HeaderLoop(h, m), Some(m))
  {
    RunStep(c, Some(m));
    hide LineEnd, HasLine, Line, AfterLine, RequestLine, Run, HeaderLoop;
  }

  /** The first call that sees the request line sees the whole header block, and
      from there on all cuts agree with one pass over the stream. */
  lemma HeadSeen(c: Config, p: Piece, rest: seq<Piece>)
    requires Ready(c) && !c.failed && c.ctx.phase == ExpectRequestLine
    requires var u := Feed(c, p.bytes).unread;
             && HasLine(u) && RequestLine(c.ctx.request, Line(u)).0 && BlockEnds(AfterLine(u))
             && !OpenEnded(AfterLine(u))
    ensures RunPieces(Run(Feed(c, p.bytes), Some(p.beyond)), rest) == Run(Feed(c, p.bytes + Joined(rest)), Some(""))
  {
    hide LineEnd, HasLine, Line, AfterLine, RequestLine, Run, RunPieces, HeaderLoop;
    hide BlockEnds, BlockLen, OpenEnded, Joined;
    var u, x := Feed(c, p.bytes).unread, Joined(rest);
    LineOfMore(u, x);
    FeedFeed(c, p.bytes, x);
    RunAccepted(Feed(c, p.bytes), p.beyond);
    RunAccepted(Feed(c, p.bytes + x), "");
    var h := Accepted(Feed(c, p.bytes), Line(u), AfterLine(u));
    HeadsAgree(h, x, p.beyond, "");
    HeaderLoopEnds(h, p.beyond);
    HeaderLoopEnds(Feed(h, x), "");
    AfterHead(h, x, p.beyond, "", rest);
  }

  lemma AfterHead(h: Config, x: string, m: string, m': string, rest: seq<Piece>)
    requires Wf(h) && !h.failed && h.ctx.phase == ExpectHeaders && h.ctx.contentLength.Some? && x == Joined(rest)
    requires HeaderLoop(h, m).ctx == HeaderLoop(Feed(h, x), m').ctx && HeaderLoop(h, m).ctx.phase != ExpectHeaders
    requires HeaderLoop(Feed(h, x), m').unread == HeaderLoop(h, m).unread + x
    requires HeaderLoop(h, m).ctx.contentLength.Some?
    ensures RunPieces(Run(HeaderLoop(h, m), Some(m)), rest) == Run(HeaderLoop(Feed(h, x), m'), Some(m'))
  {
    hide Run, RunPieces, HeaderLoop, Joined;
    var d := HeaderLoop(h, m);
    var k := d.(unread := "");
    assert Feed(k, d.unread) == d by { assert "" + d.unread == d.unread; }
    PiecesUnroll(k, Piece(d.unread, m), rest);
    BodyAgrees(k, [Piece(d.unread, m)] + rest);
    OnePass(k, d.unread + x, m');
    assert Feed(k, d.unread + x) == HeaderLoop(Feed(h, x), m') by { assert "" + (d.unread + x) == d.unread + x; }
  }

  /** Calls that all return end as one pass over the stream does, unless the stream
      has an open-ended header block. */
  lemma {:induction false} ReturningAgree(c: Config, ps: seq<Piece>)
    requires Ready(c) && ps != [] && Calls(c, ps).Parsed? && !OpenStream(c, c.unread + Joined(ps))
    ensures Calls(c, ps).config == Run(Feed(c, Joined(ps)), Some(""))
    decreases |ps|
  {
    hide LineEnd, HasLine, Line, AfterLine, RequestLine, Run, RunPieces, BlockEnds, OpenEnded, Call, Ready;
    var p, rest := ps[0], ps[1..];
    CallIsRun(c, p);
    var d := Call(c, p).config;
    if c.failed {
      FailedAgree(c, ps);
    } else if c.ctx.phase == ExpectRequestLine {
      FirstLine(c, p);
      var f := Feed(c, p.bytes);
      FeedFeed(c, p.bytes, Joined(rest));
      if !HasLine(f.unread) {
        if rest == [] {
          assert p.bytes + "" == p.bytes;
          NoLineRun(f, "");
        } else {
          ReturningAgree(f, rest);
        }
      } else {
        LineOfMore(f.unread, Joined(rest));
        if RequestLine(c.ctx.request, Line(f.unread)).0 {
          OpenPrefix(AfterLine(f.unread), Joined(rest));
          HeadSeen(c, p, rest);
          CallsAreRuns(d, rest);
        } else {
          RejectedAgree(c, p, rest);
        }
      }
    } else {
      CallsAreRuns(c, ps);
      ReadyPhase(c);
      BodyAgrees(c, ps);
      OnePass(c, Joined(ps), "");
    }
  }

  lemma ReadyPhase(c: Config)
    requires Ready(c)
    ensures Wf(c) && c.ctx.contentLength.Some?
    ensures !c.failed && c.ctx.phase != ExpectRequestLine ==> c.ctx.phase in {ExpectBody, GotAll}
  {
  }

  lemma NoLineRun(c: Config, m: string)
    requires Wf(c) && c.ctx.phase == ExpectRequestLine && !HasLine(c.unread)
    ensures Run(c, Some(m)) == c
  {
  }

  lemma FailedAgree(c: Config, ps: seq<Piece>)
    requires Ready(c) && c.failed && ps != []
    ensures if c.ctx.request.meth == Invalid then Calls(c, ps) == Parsed(Run(Feed(c, Joined(ps)), Some("")))
            else Calls(c, ps) == Aborts
  {
    if c.ctx.request.meth == Invalid {
      RefusedForEver(c, ps);
      FailedRuns(Feed(c, Joined(ps)), "");
    } else {
      AbortsNext(c, ps[0]);
    }
    hide Run, Call, Ready;
  }

  /** A refused line, met for the first time. */
  lemma RejectedAgree(c: Config, p: Piece, rest: seq<Piece>)
    requires Ready(c) && !c.failed && c.ctx.phase == ExpectRequestLine
    requires HasLine(Feed(c, p.bytes).unread) && !RequestLine(c.ctx.request, Line(Feed(c, p.bytes).unread)).0
    requires Call(c, p).Parsed? && Ready(Call(c, p).config) && Calls(Call(c, p).config, rest).Parsed?
    ensures Calls(Call(c, p).config, rest).config == Run(Feed(c, p.bytes + Joined(rest)), Some(""))
  {
    hide LineEnd, HasLine, Line, AfterLine, RequestLine, Run, RunPieces, BlockEnds, Call, Ready;
    FirstLine(c, p);
    var u, x := Feed(c, p.bytes).unread, Joined(rest);
    var d := Call(c, p).config;
    LineOfMore(u, x);
    FeedFeed(c, p.bytes, x);
    var whole := Feed(c, p.bytes + x);
    ReadyPhase(c);
    FirstLine(c, Piece(p.bytes + x, ""));
    CallIsRun(c, Piece(p.bytes + x, ""));
    assert Run(whole, Some("")) == Feed(d, x);
    if rest == [] {
      assert u + "" == u;
    } else if d.ctx.request.meth == Invalid {
      RefusedForEver(d, rest);
    } else {
      AbortsNext(d, rest[0]);
    }
  }

  /** A block that is complete in a prefix is the block of the whole. */
  lemma {:induction false} OpenPrefix(v: string, x: string)
    requires BlockEnds(v)
    ensures BlockEnds(v + x) && BlockLen(v + x) == BlockLen(v) && (OpenEnded(v + x) <==> OpenEnded(v))
    decreases |v|
  {
    LineOfMore(v, x);
    SameEnd(v, x);
    if HasColon(Line(v)) {
      OpenPrefix(AfterLine(v), x);
      var n := BlockLen(AfterLine(v));
      assert (AfterLine(v) + x)[..n] == AfterLine(v)[..n];
    }
    hide LineEnd, HasLine, Line, AfterLine, HasColon, IsLengthLine, ValueOf, AllSpaces;
  }

  lemma SameEnd(v: string, x: string)
    requires HasLine(v)
    ensures LineEnd(v + x) == LineEnd(v)
  {
    SearchInPrefix(v, x, CRLF);
  }

  // ------------------------------------------------------------ the split theorem

  /** A way in which a stream can arrive: every message brings bytes. */
  predicate Cut(ps: seq<Piece>, s: string) {
    ps != [] && Joined(ps) == s && forall i :: 0 <= i < |ps| ==> ps[i].bytes != ""
  }

  ghost predicate SameOutcome(c: Config, s: string)
    requires Ready(c)
  {
    forall ps, qs :: Cut(ps, s) && Cut(qs, s) && !Calls(c, ps).Spins? && !Calls(c, qs).Spins? ==>
      Calls(c, ps) == Calls(c, qs)
  }

  /** The stream starts with a refused line of a known method, and does not end with
      the first byte that completes it. */
  predicate RefusedThenMore(c: Config, s: string) {
    && c.ctx.phase == ExpectRequestLine && !c.failed && RefusedKnown(c.ctx.request, c.unread + s)
    && |s| >= 2 && HasLine(c.unread + s[..|s| - 1])
  }

  lemma OneCut(s: string, m: string)
    requires s != ""
    ensures Cut([Piece(s, m)], s)
  {
    assert [Piece(s, m)][1..] == [] && s + "" == s;
    assert Joined([Piece(s, m)]) == s + Joined([Piece(s, m)][1..]);
  }

  lemma TwoCut(s: string, k: nat, m: string)
    requires 0 < k < |s|
    ensures Cut([Piece(s[..k], m), Piece(s[k..], "")], s)
  {
    JoinedTwo(Piece(s[..k], m), Piece(s[k..], ""));
    assert s[..k] + s[k..] == s;
  }

  lemma {:induction false} InitNonEmpty(ps: seq<Piece>)
    requires |ps| >= 1 && forall i :: 0 <= i < |ps| ==> ps[i].bytes != ""
    ensures Joined(ps) == Joined(ps[..|ps| - 1]) + ps[|ps| - 1].bytes
    decreases |ps|
  {
    if |ps| == 1 {
      assert ps[..0] == [] && ps[1..] == [] && "" + ps[0].bytes == ps[0].bytes + "";
    } else {
      InitNonEmpty(ps[1..]);
      assert ps[1..][..|ps| - 2] == ps[..|ps| - 1][1..];
      var a, b, z := ps[0].bytes, Joined(ps[1..][..|ps| - 2]), ps[|ps| - 1].bytes;
      assert a + (b + z) == a + b + z;
    }
  }

  /** Without more behind a refused line, no cut aborts. */
  lemma NoAbort(c: Config, ps: seq<Piece>, s: string)
    requires Ready(c) && !c.failed && Cut(ps, s) && !RefusedThenMore(c, s)
    ensures !Calls(c, ps).Aborts?
  {
    if c.ctx.phase != ExpectRequestLine {
      ReadyPhase(c);
      NoAbortInBody(c, ps);
    } else {
      AbortsIff(c, ps);
      if |ps| >= 2 && HasLine(c.unread + Joined(ps[..|ps| - 1])) { InitInPrefix(ps, s, c.unread); }
    }
    hide Calls, RequestLine, HasLine, Line, AfterLine;
  }

  /** All but the last message are part of all but the last byte. */
  lemma InitInPrefix(ps: seq<Piece>, s: string, w: string)
    requires Cut(ps, s) && |ps| >= 2 && HasLine(w + Joined(ps[..|ps| - 1]))
    ensures |s| >= 2 && HasLine(w + s[..|s| - 1])
  {
    var init, last := Joined(ps[..|ps| - 1]), ps[|ps| - 1].bytes;
    InitNonEmpty(ps);
    assert init != "" by { assert ps[..|ps| - 1][0] == ps[0]; }
    LineOfMore(w + init, last[..|last| - 1]);
    assert w + init + last[..|last| - 1] == w + s[..|s| - 1];
    hide HasLine;
  }

  /** Cut in front of the last byte, the second call aborts. */
  lemma AbortingCut(c: Config, s: string) returns (ps: seq<Piece>)
    requires Ready(c) && RefusedThenMore(c, s)
    ensures Cut(ps, s) && Calls(c, ps) == Aborts
  {
    var k := |s| - 1;
    assert !c.failed && c.ctx.phase == ExpectRequestLine && RefusedKnown(c.ctx.request, c.unread + s);
    hide HasLine, RefusedKnown, Ready, Calls;
    ps := [Piece(s[..k], ""), Piece(s[k..], "")];
    TwoCut(s, k, "");
    assert ps[..1] == [Piece(s[..k], "")];
    OneCut(s[..k], "");
    hide Cut, Joined;
    JoinedOf(ps, s);
    JoinedOf(ps[..1], s[..k]);
    AbortsIff(c, ps);
  }

  lemma JoinedOf(ps: seq<Piece>, s: string)
    requires Cut(ps, s)
    ensures Joined(ps) == s
  {
  }

  /** In one message, the line is refused. */
  lemma RefusedOnce(c: Config, s: string)
    requires Ready(c) && RefusedThenMore(c, s)
    ensures Calls(c, [Piece(s, "")]).Parsed?
  {
    FirstLine(c, Piece(s, ""));
    assert [Piece(s, "")][1..] == [];
    hide HasLine, Line, RequestLine, Call, Ready;
  }

  lemma SpacesThenNumber(t: string, z: string)
    requires AllSpaces(t) && z != "" && !IsSpace(z[0])
    ensures ReadNumber(t + z) == ReadNumber(z)
  {
    SkipAll(t);
    SkipThrough(t, z);
    NoSpace(z);
    hide AllSpaces, IsSpace, SignedNumber, SkipSpaces;
  }

  lemma BlankReadsDigit(v: string, z: string)
    requires AllSpaces(v) && |z| == 1 && '0' <= z[0] <= '9'
    ensures HeaderLength("", Some(v + z)) == Some(z[0] as int - '0' as int)
  {
    hide AllSpaces, ReadNumber, HeaderLength;
    SpacesBehind(v);
    SpacesThenNumber(CRLF + v, z);
    ReadDigit(z);
    assert CRLF + (v + z) == CRLF + v + z;
    BlankLengthIs(v + z, z[0] as int - '0' as int);
  }

  lemma BlankLengthIs(a: string, n: nat)
    requires n < 10 && ReadNumber(CRLF + a) == n
    ensures HeaderLength("", Some(a)) == Some(n)
  {
    SmallLength(n);
    hide ReadNumber, Narrow, SizeOf;
    assert "" + CRLF + a == CRLF + a;
  }

  /** Where the end of the header block leads with that length. */
  predicate EndsWith(d: Config, length: nat) {
    && d.ctx.contentLength == Some(length) && d.unread == ""
    && d.ctx.phase == if length == 0 && !d.ctx.chunked then GotAll else ExpectBody
  }

  /** At the end of an open-ended block the length is whatever lies behind it. */
  lemma {:induction false} OpenLength(c: Config, z: string)
    requires Wf(c) && !c.failed && c.ctx.phase == ExpectHeaders && c.ctx.contentLength.Some?
    requires BlockEnds(c.unread) && OpenEnded(c.unread) && BlockLen(c.unread) == |c.unread|
    requires |z| == 1 && '0' <= z[0] <= '9'
    ensures EndsWith(HeaderLoop(c, z), z[0] as int - '0' as int)
    decreases |c.unread|
  {
    hide LineEnd, HasLine, Line, AfterLine, HasColon, HeaderLine, IsLengthLine, ValueOf;
    hide RequestLine, HeaderLoop, AllSpaces, EndsWith;
    var v, line, rest := c.unread, Line(c.unread), AfterLine(c.unread);
    HeaderTurn(c, z);
    LineCut(v);
    RestLength(v);
    var d := Config(HeaderLine(c.ctx, line, Some(rest + z)), rest, false);
    if OpenEnded(rest) {
      OpenLength(d, z);
    } else {
      assert rest[..BlockLen(rest)] == rest;
      BlankReadsDigit(rest, z);
      LastLine(d, z);
    }
  }

  lemma RestLength(v: string)
    requires BlockEnds(v) && HasColon(Line(v)) && BlockLen(v) == |v|
    ensures BlockLen(AfterLine(v)) == |AfterLine(v)|
  {
  }

  /** A block of spaces only is its last line. */
  lemma LastLine(c: Config, z: string)
    requires Wf(c) && !c.failed && c.ctx.phase == ExpectHeaders && c.ctx.contentLength.Some?
    requires BlockEnds(c.unread) && BlockLen(c.unread) == |c.unread| && AllSpaces(c.unread)
    ensures EndsWith(HeaderLoop(c, z), c.ctx.contentLength.value)
  {
    hide LineEnd, HasLine, AfterLine, HeaderLine, RequestLine, HeaderLoop, IsLengthLine;
    HeaderTurn(c, z);
    LineCut(c.unread);
    NoColonInSpaces(c.unread);
  }

  lemma NoColonInSpaces(v: string)
    requires HasLine(v) && AllSpaces(v)
    ensures !HasColon(Line(v))
  {
    var line := Line(v);
    assert forall i :: 0 <= i < |line| ==> line[i] == v[i];
  }

  /** Where an open-ended block ends in the bytes to come. */
  function OpenAt(c: Config, s: string): (k: nat)
    requires OpenStream(c, c.unread + s) && !OpenStream(c, c.unread)
    ensures 0 < k <= |s|
  {
    var u := c.unread + s;
    var k := LineEnd(u) + 2 + BlockLen(AfterLine(u));
    OpenBefore(c, s);
    k - |c.unread|
  }

  lemma BlockInside(u: string)
    requires HasLine(u) && BlockEnds(AfterLine(u))
    ensures LineEnd(u) + 2 + BlockLen(AfterLine(u)) <= |u|
  {
    hide LineEnd, BlockEnds, BlockLen;
  }

  lemma OpenBefore(c: Config, s: string)
    requires OpenStream(c, c.unread + s)
    ensures var k := LineEnd(c.unread + s) + 2 + BlockLen(AfterLine(c.unread + s));
            k <= |c.unread + s| && (k <= |c.unread| ==> OpenStream(c, c.unread))
  {
    hide LineEnd, RequestLine, BlockEnds, BlockLen, OpenEnded, HasLine, Line, AfterLine;
    var u, w := c.unread + s, c.unread;
    BlockInside(u);
    var k := LineEnd(u) + 2 + BlockLen(AfterLine(u));
    if k <= |w| {
      HeadPrefix(u, k);
      var t := u[..k];
      assert t + w[k..] == w by { assert u[..k] == w[..k]; }
      LineOfMore(t, w[k..]);
      OpenPrefix(AfterLine(t), w[k..]);
    }
  }

  /** A cut right behind an open-ended block, or no cut at all if the stream ends
      there: the length is the digit in memory. */
  lemma OpenWitness(c: Config, s: string, z: string) returns (ps: seq<Piece>)
    requires Ready(c) && OpenStream(c, c.unread + s) && !OpenStream(c, c.unread) && |z| == 1 && '1' <= z[0] <= '9'
    ensures Cut(ps, s) && Calls(c, ps).Parsed?
    ensures Calls(c, ps).config.ctx.contentLength == Some(z[0] as int - '0' as int)
  {
    var k := OpenAt(c, s);
    ps := if k == |s| then [Piece(s, z)] else [Piece(s[..k], z), Piece(s[k..], "")];
    OpenCall(c, s, z);
    hide LineEnd, HasLine, Line, AfterLine, RequestLine, Run, Ready, BlockEnds, BlockLen, OpenEnded, Call, OpenAt;
    if k == |s| {
      OneCut(s, z);
      assert s[..k] == s;
      OneCall(c, ps[0]);
    } else {
      TwoCut(s, k, z);
      TwoCalls(c, ps[0], ps[1]);
    }
  }

  lemma OneCall(c: Config, p: Piece)
    requires Ready(c) && Call(c, p).Parsed?
    ensures Calls(c, [p]) == Call(c, p)
  {
    CallIsRun(c, p);
    assert [p][1..] == [];
    hide Call, Ready;
  }

  lemma TwoCalls(c: Config, p: Piece, q: Piece)
    requires Ready(c) && Call(c, p).Parsed? && !Call(c, p).config.failed && Call(c, p).config.ctx.phase == ExpectBody
    ensures Calls(c, [p, q]).Parsed?
    ensures Calls(c, [p, q]).config.ctx.contentLength == Call(c, p).config.ctx.contentLength
  {
    CallIsRun(c, p);
    hide Call, Ready, Run;
    var d := Call(c, p).config;
    BodyCall(d, q);
    OneCall(d, q);
    assert [p, q][1..] == [q];
  }

  lemma HeadPrefix(s: string, k: nat)
    requires HasLine(s) && BlockEnds(AfterLine(s)) && k == LineEnd(s) + 2 + BlockLen(AfterLine(s))
    ensures var t := s[..k];
            && HasLine(t) && Line(t) == Line(s) && BlockEnds(AfterLine(t))
            && BlockLen(AfterLine(t)) == |AfterLine(t)|
            && (OpenEnded(AfterLine(t)) <==> OpenEnded(AfterLine(s)))
  {
    assert k <= |s|;
    hide LineEnd, HasLine, Line, AfterLine, BlockEnds, BlockLen, OpenEnded;
    LineOfSlice(s, k);
    BlockAlone(AfterLine(s));
    assert AfterLine(s[..k]) == AfterLine(s)[..BlockLen(AfterLine(s))];
  }

  lemma BlockAlone(v: string)
    requires BlockEnds(v)
    ensures var w := v[..BlockLen(v)]; BlockEnds(w) && BlockLen(w) == |w| && (OpenEnded(w) <==> OpenEnded(v))
  {
    hide BlockEnds, BlockLen, OpenEnded;
    BlockPrefix(v);
    var w, x := v[..BlockLen(v)], v[BlockLen(v)..];
    assert w + x == v;
    OpenPrefix(w, x);
  }

  lemma {:induction false} BlockPrefix(v: string)
    requires BlockEnds(v)
    ensures BlockEnds(v[..BlockLen(v)]) && BlockLen(v[..BlockLen(v)]) == BlockLen(v)
    decreases |v|
  {
    hide LineEnd, HasLine, Line, AfterLine, HasColon;
    var n := BlockLen(v);
    LineOfSlice(v, n);
    SliceEnd(v, n);
    if HasColon(Line(v)) { BlockPrefix(AfterLine(v)); }
  }

  lemma SliceEnd(u: string, k: nat)
    requires HasLine(u) && LineEnd(u) + 2 <= k <= |u|
    ensures HasLine(u[..k]) && LineEnd(u[..k]) == LineEnd(u)
  {
    LineOfSlice(u, k);
    assert |Line(u[..k])| == |Line(u)|;
  }

  /** The call that gets the end of the block, and memory behind it. */
  lemma OpenCall(c: Config, s: string, z: string)
    requires Ready(c) && OpenStream(c, c.unread + s) && !OpenStream(c, c.unread) && |z| == 1 && '0' <= z[0] <= '9'
    ensures Call(c, Piece(s[..OpenAt(c, s)], z)).Parsed?
    ensures var d := Call(c, Piece(s[..OpenAt(c, s)], z)).config;
            !d.failed && EndsWith(d, z[0] as int - '0' as int) && d.ctx.bodyReceived == 0
    ensures var h := Feed(c, s[..OpenAt(c, s)]);
            && HasLine(h.unread)
            && Call(c, Piece(s[..OpenAt(c, s)], z)).config ==
               HeaderLoop(Accepted(h, Line(h.unread), AfterLine(h.unread)), z)
  {
    hide LineEnd, HasLine, Line, AfterLine, RequestLine, Run, BlockEnds, BlockLen, OpenEnded, Call, HeaderLoop;
    var k := OpenAt(c, s);
    OpenHead(c, s, k);
    var p := Piece(s[..k], z);
    var t := c.unread + s[..k];
    FirstLine(c, p);
    CallIsRun(c, p);
    RunAccepted(Feed(c, p.bytes), z);
    var h := Accepted(Feed(c, p.bytes), Line(t), AfterLine(t));
    OpenLength(h, z);
    HeaderReceives(h, z);
    EndWaits(HeaderLoop(h, z), z);
  }

  lemma OpenHead(c: Config, s: string, k: nat)
    requires OpenStream(c, c.unread + s) && !OpenStream(c, c.unread) && k == OpenAt(c, s)
    ensures var t := c.unread + s[..k];
            OpenStream(c, t) && BlockLen(AfterLine(t)) == |AfterLine(t)| && Line(t) == Line(c.unread + s)
  {
    hide LineEnd, HasLine, Line, AfterLine, RequestLine, BlockEnds, BlockLen, OpenEnded;
    var u := c.unread + s;
    HeadPrefix(u, k + |c.unread|);
    assert u[..k + |c.unread|] == c.unread + s[..k];
  }

  lemma {:induction false} HeaderReceives(c: Config, m: string)
    requires Wf(c) && !c.failed && c.ctx.phase == ExpectHeaders && BlockEnds(c.unread)
    ensures HeaderLoop(c, m).ctx.bodyReceived == 0 && !HeaderLoop(c, m).failed
    decreases |c.unread|
  {
    hide LineEnd, HasLine, Line, AfterLine, HasColon, HeaderLine, RequestLine, HeaderLoop;
    HeaderTurn(c, m);
    if HasColon(Line(c.unread)) { HeaderReceives(Step(c, Some(m)).value, m); }
  }

  lemma EndWaits(c: Config, m: string)
    requires Wf(c) && !c.failed && c.ctx.contentLength.Some? && EndsWith(c, c.ctx.contentLength.value)
    requires c.ctx.bodyReceived == 0
    ensures Run(c, Some(m)) == c
  {
  }

  lemma BodyCall(c: Config, p: Piece)
    requires Ready(c) && !c.failed && c.ctx.phase == ExpectBody
    ensures Call(c, p).Parsed? && Call(c, p).config.ctx.contentLength == c.ctx.contentLength
  {
    AssertionIff(c, p.bytes);
    assert Reopened(c) == c;
    BodyKeepsLength(Feed(c, p.bytes), p.beyond);
    hide Run, AssertFails;
  }

  /** Over all cuts whose calls return or abort, the outcome is the same unless the
      stream starts with an accepted request line and an open-ended header block, or
      with a refused line of a known method and something behind it. */
  lemma SameUnless(c: Config, s: string)
    requires Ready(c) && !OpenStream(c, c.unread + s) && !RefusedThenMore(c, s)
    ensures SameOutcome(c, s)
  {
    hide LineEnd, HasLine, Line, AfterLine, RequestLine, Run, Ready, BlockEnds, OpenEnded, Calls, Cut;
    forall ps, qs | Cut(ps, s) && Cut(qs, s) && !Calls(c, ps).Spins? && !Calls(c, qs).Spins?
      ensures Calls(c, ps) == Calls(c, qs)
    {
      CutAgrees(c, ps, s);
      CutAgrees(c, qs, s);
    }
  }

  /** The exact condition under which the way a stream is cut does not matter, also
      when part of it has arrived before. Only what a first message left behind is
      excepted, when that holds a whole open-ended header block already. */
  lemma OutcomeIff(c: Config, s: string)
    requires Ready(c) && !OpenStream(c, c.unread)
    ensures SameOutcome(c, s) <==> !OpenStream(c, c.unread + s) && !RefusedThenMore(c, s)
  {
    hide LineEnd, HasLine, Line, AfterLine, RequestLine, Run, Ready, BlockEnds, OpenEnded, Calls, Cut;
    if OpenStream(c, c.unread + s) {
      var ps := OpenWitness(c, s, "1");
      var qs := OpenWitness(c, s, "2");
      assert Calls(c, ps) != Calls(c, qs);
    } else if RefusedThenMore(c, s) {
      var ps := AbortingCut(c, s);
      RefusedOnce(c, s);
      OneCut(s, "");
      assert Calls(c, ps) != Calls(c, [Piece(s, "")]);
    } else {
      SameUnless(c, s);
    }
  }

  /** What every such cut leads to. */
  function CommonOutcome(c: Config, s: string): Outcome
    requires Ready(c)
  {
    if c.failed && c.ctx.request.meth != Invalid then Aborts else Parsed(Run(Feed(c, s), Some("")))
  }

  lemma CutAgrees(c: Config, ps: seq<Piece>, s: string)
    requires Ready(c) && Cut(ps, s) && !Calls(c, ps).Spins?
    requires !OpenStream(c, c.unread + s) && !RefusedThenMore(c, s)
    ensures Calls(c, ps) == CommonOutcome(c, s)
  {
    if c.failed {
      FailedAgree(c, ps);
    } else {
      NoAbort(c, ps, s);
      ReturningAgree(c, ps);
    }
    hide LineEnd, RequestLine, Run, BlockEnds, OpenEnded, Calls;
  }

  lemma NoLineInNothing()
    ensures !HasLine("")
  {
  }
}
