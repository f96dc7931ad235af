/**
 Several requests on one connection. The server parses only when a message arrives,
 and at most one request a message: what comes in behind an answered request waits
 for the next message. So the replies depend on how the stream is cut, and this
 module says exactly when. A reply is what the server decides on; a connection that
 is on its way down sends it no more.
 */
module Conversation {
  import opened Options
  import opened HttpParser
  import opened ParserDriver
  import opened ParserCalls
  import KeepAlive

  datatype Reply = Refusal | Answer(request: Request)

  datatype End = Waiting | Aborted | Spinning

  datatype Talk = Talk(replies: seq<Reply>, end: End)

  function Then(r: Reply, t: Talk): Talk { t.(replies := [r] + t.replies) }

  const SILENCE := Talk([], Waiting)

  /** After the answer to a request. */
  function Renewed(d: Config): (c: Config)
    ensures !d.failed ==> Ready(c)
  {
    d.(ctx := KeepAlive.Reset(d.ctx))
  }

  /** `onMessage`, message by message, for requests that are no uploads. */
  function Converse(c: Config, ps: seq<Piece>): Talk
    requires Ready(c)
    decreases |ps|
  {
    if ps == [] then SILENCE else
    match Call(c, ps[0])
    case Aborts => Talk([], Aborted)
    case Spins => Talk([], Spinning)
    case Parsed(d) =>
      CallIsRun(c, ps[0]);
      if d.failed then Then(Refusal, Converse(d, ps[1..]))
      else if d.ctx.phase == GotAll then Then(Answer(d.ctx.request), Converse(Renewed(d), ps[1..]))
      else Converse(d, ps[1..])
  }

  // ------------------------------------------------ what a stream holds, in one pass

  function Pass(w: Config): (d: Config)
    requires Wf(w)
    ensures Wf(d)
  {
    Run(w, Some(""))
  }

  predicate Refuses(w: Config) { HasLine(w.unread) && !RequestLine(w.ctx.request, Line(w.unread)).0 }

  /** Its request is complete. */
  predicate Answers(w: Config)
    requires Wf(w)
  {
    Pass(w).ctx.phase == GotAll && !Pass(w).failed
  }

  /** Its length is what lies in memory, and it matters. */
  predicate Opens(w: Config)
    requires Wf(w)
  {
    OpenStream(w, w.unread) && !Pass(w).ctx.chunked
  }

  /** Nothing in it can be answered. */
  predicate Silent(w: Config)
    requires Wf(w)
  {
    !Refuses(w) && !Opens(w) && !Answers(w)
  }

  // --------------------------------------------------------------- header and body

  /** Memory, and what follows the header block, matter for the length alone. */
  lemma {:induction false} HeadsShape(c: Config, d: Config, x: string, m: string, m': string)
    requires Wf(c) && !c.failed && c.ctx.phase == ExpectHeaders && BlockEnds(c.unread)
    requires Wf(d) && d.ctx.contentLength.Some?
    requires d == Config(c.ctx.(contentLength := d.ctx.contentLength), c.unread + x, false)
    ensures var e, f := HeaderLoop(c, m).ctx, HeaderLoop(d, m').ctx;
            && f == e.(contentLength := f.contentLength, phase := f.phase)
            && e.phase in {ExpectBody, GotAll} && f.phase in {ExpectBody, GotAll}
            && e.request.body == c.ctx.request.body && e.bodyReceived == 0
    decreases |c.unread|
  {
    hide LineEnd, HasLine, Line, AfterLine, HasColon, HeaderLine, IsLengthLine, ValueOf, RequestLine, HeaderLoop;
    var v, line, rest := c.unread, Line(c.unread), AfterLine(c.unread);
    LineOfMore(v, x);
    HeaderTurn(c, m);
    HeaderTurn(d, m');
    if HasColon(line) {
      OnlyLength(c.ctx, d.ctx.contentLength.value, line, Some(rest + m), rest + x + m');
      KeepAlive.HeaderLineKeeps(c.ctx, line, Some(rest + m));
      var e, f := HeaderLine(c.ctx, line, Some(rest + m)), HeaderLine(d.ctx, line, Some(rest + x + m'));
      HeadsShape(Config(e, rest, false), Config(f, rest + x, false), x, m, m');
    }
  }

  lemma {:induction false} BodyKeeps(c: Config, m: Option<string>)
    requires Wf(c) && !c.failed && c.ctx.phase in {ExpectBody, GotAll}
    ensures Run(c, m).ctx.chunked == c.ctx.chunked
    ensures c.ctx.phase == GotAll || c.ctx.chunked ==> Run(c, m) == c
    decreases Rank(c), |c.unread|
  {
    if Step(c, m).Some? { BodyKeeps(Step(c, m).value, m); }
  }

  /** What the first call that sees the header block leaves, against one pass over
      the stream. */
  lemma HeadCall(c: Config, p: Piece, x: string)
    requires Ready(c) && !c.failed && c.ctx.phase == ExpectRequestLine
    requires var u := Feed(c, p.bytes).unread;
             HasLine(u) && RequestLine(c.ctx.request, Line(u)).0 && BlockEnds(AfterLine(u))
    ensures Call(c, p).Parsed?
    ensures var d, f := Call(c, p).config, Pass(Feed(c, p.bytes + x));
            && Ready(d) && !d.failed && d.ctx.phase in {ExpectBody, GotAll}
            && !f.failed && f.ctx.phase in {ExpectBody, GotAll} && d.ctx.chunked == f.ctx.chunked
            && (d.ctx.chunked ==> d.ctx.phase == ExpectBody) && (f.ctx.chunked ==> f.ctx.phase == ExpectBody)
  {
    hide LineEnd, HasLine, Line, AfterLine, RequestLine, Run, HeaderLoop, BlockEnds, Call, Ready;
    var u := Feed(c, p.bytes).unread;
    FirstLine(c, p);
    CallIsRun(c, p);
    LineOfMore(u, x);
    FeedFeed(c, p.bytes, x);
    ReadyPhase(c);
    RunAccepted(Feed(c, p.bytes), p.beyond);
    RunAccepted(Feed(c, p.bytes + x), "");
    var h := Accepted(Feed(c, p.bytes), Line(u), AfterLine(u));
    var g := Accepted(Feed(c, p.bytes + x), Line(u), AfterLine(u) + x);
    HeadsShape(h, g, x, p.beyond, "");
    BodyKeeps(HeaderLoop(h, p.beyond), Some(p.beyond));
    BodyKeeps(HeaderLoop(g, ""), Some(""));
    BodyStays(HeaderLoop(g, ""), Some(""));
  }

  // -------------------------------------------------------- what a cut leads to

  /** In the body every call returns. */
  lemma BodyParsed(c: Config, p: Piece)
    requires Ready(c) && !c.failed && c.ctx.phase == ExpectBody
    ensures Call(c, p) == Parsed(Run(Feed(c, p.bytes), Some(p.beyond))) && Ready(Call(c, p).config)
    ensures !Call(c, p).config.failed && Call(c, p).config.ctx.phase in {ExpectBody, GotAll}
  {
    hide Call, Ready, Run;
    BodyCall(c, p);
    CallIsRun(c, p);
    PastTheLine(c, p);
  }

  lemma {:induction false} StaysComplete(c: Config, ps: seq<Piece>)
    requires Wf(c) && !c.failed && c.ctx.phase == GotAll
    ensures RunPieces(c, ps) == Feed(c, Joined(ps))
    decreases |ps|
  {
    if ps == [] {
      assert c.unread + "" == c.unread;
    } else {
      BodyKeeps(Feed(c, ps[0].bytes), Some(ps[0].beyond));
      StaysComplete(Feed(c, ps[0].bytes), ps[1..]);
      FeedFeed(c, ps[0].bytes, Joined(ps[1..]));
    }
    hide Run;
  }

  /** A body that stays incomplete is not answered. */
  lemma {:induction false} BodyTalk(c: Config, ps: seq<Piece>)
    requires Ready(c) && !c.failed && c.ctx.phase in {ExpectBody, GotAll} && RunPieces(c, ps).ctx.phase != GotAll
    ensures Converse(c, ps) == SILENCE && c.ctx.phase == ExpectBody
    decreases |ps|
  {
    hide Call, Run;
    if c.ctx.phase == GotAll {
      StaysComplete(c, ps);
    } else if ps != [] {
      BodyParsed(c, ps[0]);
      BodyTalk(Call(c, ps[0]).config, ps[1..]);
    }
  }

  /** Nor is one whose length is not used. */
  lemma {:induction false} ChunkedTalk(c: Config, ps: seq<Piece>)
    requires Ready(c) && !c.failed && c.ctx.phase == ExpectBody && c.ctx.chunked
    ensures Converse(c, ps) == SILENCE
    decreases |ps|
  {
    hide Call, Ready, Run;
    if ps != [] {
      BodyParsed(c, ps[0]);
      ReadyPhase(c);
      BodyKeeps(Feed(c, ps[0].bytes), Some(ps[0].beyond));
      ChunkedTalk(Call(c, ps[0]).config, ps[1..]);
    }
  }

  lemma SameWhole(c: Config, p: Piece, rest: seq<Piece>)
    ensures Feed(c, Joined([p] + rest)) == Feed(Feed(c, p.bytes), Joined(rest)) == Feed(c, p.bytes + Joined(rest))
  {
    assert ([p] + rest)[1..] == rest;
    FeedFeed(c, p.bytes, Joined(rest));
  }

  /** Without anything in it that can be answered, no cut gets an answer. */
  lemma {:induction false} SilentTalk(c: Config, ps: seq<Piece>)
    requires Ready(c) && !c.failed && c.ctx.phase == ExpectRequestLine && Silent(Feed(c, Joined(ps)))
    requires Converse(c, ps).end != Spinning
    ensures Converse(c, ps) == SILENCE
    decreases |ps|
  {
    hide LineEnd, HasLine, Line, AfterLine, RequestLine, Run, RunPieces, BlockEnds, OpenEnded, Call, Ready, Joined;
    if ps != [] {
      var p, rest := ps[0], ps[1..];
      assert ps == [p] + rest;
      SameWhole(c, p, rest);
      FirstLine(c, p);
      var f := Feed(c, p.bytes);
      if !HasLine(f.unread) {
        CallIsRun(c, p);
        SilentTalk(f, rest);
      } else {
        LineOfMore(f.unread, Joined(rest));
        HeadCall(c, p, Joined(rest));
        OpenPrefix(AfterLine(f.unread), Joined(rest));
        var d := Call(c, p).config;
        if OpenEnded(AfterLine(f.unread)) {
          ChunkedTalk(d, rest);
        } else {
          CallIsRun(c, p);
          HeadSeen(c, p, rest);
          BodyTalk(d, rest);
        }
      }
    }
  }

  /** A complete body is answered once, and what comes behind it is silent. */
  lemma {:induction false} BodyAnswer(c: Config, ps: seq<Piece>)
    requires Ready(c) && !c.failed && c.ctx.phase in {ExpectBody, GotAll} && ps != [] && c.ctx.phase == ExpectBody
    requires RunPieces(c, ps).ctx.phase == GotAll && !RunPieces(c, ps).failed && Silent(Renewed(RunPieces(c, ps)))
    requires Converse(c, ps).end != Spinning
    ensures Converse(c, ps) == Talk([Answer(RunPieces(c, ps).ctx.request)], Waiting)
    decreases |ps|
  {
    hide Call, Ready, Run, Silent;
    BodyParsed(c, ps[0]);
    var d, rest := Call(c, ps[0]).config, ps[1..];
    if d.ctx.phase == GotAll {
      CompleteTalk(d, rest);
    } else {
      BodyAnswer(d, rest);
    }
  }

  lemma CompleteTalk(d: Config, rest: seq<Piece>)
    requires Ready(d) && !d.failed && d.ctx.phase == GotAll && Silent(Renewed(RunPieces(d, rest)))
    requires Converse(Renewed(d), rest).end != Spinning
    ensures Converse(Renewed(d), rest) == SILENCE && RunPieces(d, rest).ctx.request == d.ctx.request
  {
    hide Call, Ready, Run, Silent, Converse, RunPieces, Joined;
    ReadyPhase(d);
    StaysComplete(d, rest);
    assert Renewed(Feed(d, Joined(rest))) == Feed(Renewed(d), Joined(rest));
    SilentTalk(Renewed(d), rest);
  }

  /** A complete request with nothing behind it that can be answered: one answer,
      the same for every cut. */
  lemma {:induction false} AnswerTalk(c: Config, ps: seq<Piece>)
    requires Ready(c) && !c.failed && c.ctx.phase == ExpectRequestLine
    requires var w := Feed(c, Joined(ps)); Answers(w) && !OpenStream(w, w.unread) && Silent(Renewed(Pass(w)))
    requires ps != [] && Converse(c, ps).end != Spinning
    ensures Converse(c, ps) == Talk([Answer(Pass(Feed(c, Joined(ps))).ctx.request)], Waiting)
    decreases |ps|
  {
    hide LineEnd, HasLine, Line, AfterLine, RequestLine, Run, RunPieces, BlockEnds, OpenEnded, Call, Ready, Joined;
    hide Silent;
    var p, rest := ps[0], ps[1..];
    assert ps == [p] + rest;
    SameWhole(c, p, rest);
    FirstLine(c, p);
    var f := Feed(c, p.bytes);
    ReadyPhase(c);
    HasHead(Feed(c, Joined(ps)));
    if !HasLine(f.unread) {
      CallIsRun(c, p);
      if rest == [] { NothingMore(f); }
      AnswerTalk(f, rest);
    } else {
      LineOfMore(f.unread, Joined(rest));
      HeadCall(c, p, Joined(rest));
      OpenPrefix(AfterLine(f.unread), Joined(rest));
      CallIsRun(c, p);
      HeadSeen(c, p, rest);
      var d := Call(c, p).config;
      if d.ctx.phase == GotAll {
        CompleteTalk(d, rest);
      } else {
        if rest == [] { assert RunPieces(d, rest) == d by { NoPieces(d); } }
        BodyAnswer(d, rest);
      }
    }
  }

  lemma NoPieces(c: Config)
    requires Wf(c)
    ensures RunPieces(c, []) == c
  {
  }

  lemma NothingMore(f: Config)
    ensures Feed(f, Joined([])) == f
  {
    assert f.unread + "" == f.unread;
  }

  /** A stream that is answered starts with an accepted line and a complete block. */
  lemma HasHead(w: Config)
    requires Wf(w) && !w.failed && w.ctx.phase == ExpectRequestLine && Answers(w)
    ensures HasLine(w.unread) && RequestLine(w.ctx.request, Line(w.unread)).0 && BlockEnds(AfterLine(w.unread))
  {
    hide LineEnd, HasLine, Line, AfterLine, RequestLine, Run, HeaderLoop, BlockEnds;
    RunStep(w, Some(""));
    if !HasLine(w.unread) {
      NoLineRun(w, "");
    } else if RequestLine(w.ctx.request, Line(w.unread)).0 {
      RunAccepted(w, "");
      var h := Accepted(w, Line(w.unread), AfterLine(w.unread));
      HeaderLoopEnds(h, "");
      if !BlockEnds(h.unread) { StuckInHeaders(HeaderLoop(h, ""), ""); }
    } else {
      FailedRuns(w.(ctx := w.ctx.(request := RequestLine(w.ctx.request, Line(w.unread)).1), failed := true), "");
    }
  }

  lemma StuckInHeaders(c: Config, m: string)
    requires Wf(c) && !c.failed && c.ctx.phase == ExpectHeaders && !HasLine(c.unread)
    ensures Run(c, Some(m)) == c
  {
  }

  /** A refused line that ends with the stream: one refusal, for every cut. */
  lemma {:induction false} RefusedTalk(c: Config, ps: seq<Piece>)
    requires Ready(c) && !c.failed && c.ctx.phase == ExpectRequestLine && Refuses(Feed(c, Joined(ps)))
    requires ps != [] && forall i :: 0 <= i < |ps| ==> ps[i].bytes != ""
    requires AfterLine(c.unread + Joined(ps)) == ""
    ensures Converse(c, ps) == Talk([Refusal], Waiting)
    decreases |ps|
  {
    hide LineEnd, HasLine, Line, AfterLine, RequestLine, Run, BlockEnds, Call, Ready;
    var p, rest := ps[0], ps[1..];
    assert ps == [p] + rest;
    SameWhole(c, p, rest);
    FirstLine(c, p);
    var f := Feed(c, p.bytes);
    if !HasLine(f.unread) {
      CallIsRun(c, p);
      if rest == [] { NothingMore(f); }
      RefusedTalk(f, rest);
    } else {
      LineOfMore(f.unread, Joined(rest));
      CallIsRun(c, p);
      NoBytes(rest);
    }
  }

  lemma NoBytes(ps: seq<Piece>)
    requires Joined(ps) == "" && forall i :: 0 <= i < |ps| ==> ps[i].bytes != ""
    ensures ps == []
  {
  }

  // ------------------------------------------------------------- cuts that differ

  /** Two messages, the second of which is the last byte, against one. */
  lemma RefusedDiffers(c: Config, s: string)
    requires Ready(c) && !c.failed && c.ctx.phase == ExpectRequestLine && c.unread == ""
    requires Refuses(Feed(c, s)) && HasLine(s) && AfterLine(s) != ""
    ensures !SameTalk(c, s)
  {
    hide LineEnd, HasLine, Line, AfterLine, RequestLine, Run, BlockEnds, Call, Ready;
    assert c.unread + s == s;
    var k := BehindLine(s);
    var p, q := Piece(s[..k], ""), Piece(s[k..], "");
    OneCut(s, "");
    TwoCut(s, k, "");
    FirstLine(c, Piece(s, ""));
    CallIsRun(c, Piece(s, ""));
    OneMessage(c, Piece(s, ""));
    assert c.unread + s[..k] == s[..k] && s[..k] + s[k..] == s;
    LineOfMore(s[..k], s[k..]);
    FirstLine(c, p);
    CallIsRun(c, p);
    assert [p, q] == [p] + [q];
    FirstMessage(c, p, [q]);
    var d := Call(c, p).config;
    if d.ctx.request.meth == Invalid {
      RefusedAgain(d, q);
      OneMessage(d, q);
    } else {
      AbortsNext(d, q);
    }
    assert Converse(c, [p, q]) != Converse(c, [Piece(s, "")]);
  }

  lemma BehindLine(s: string) returns (k: nat)
    requires HasLine(s) && AfterLine(s) != ""
    ensures 0 < k < |s| && HasLine(s[..k])
  {
    k := LineEnd(s) + 2;
    LineOfSlice(s, k);
    hide LineEnd;
  }

  lemma FirstMessage(c: Config, p: Piece, rest: seq<Piece>)
    requires Ready(c) && Call(c, p).Parsed?
    ensures var d := Call(c, p).config;
            && Ready(d)
            && Converse(c, [p] + rest) == if d.failed then Then(Refusal, Converse(d, rest))
                                          else if d.ctx.phase == GotAll
                                          then Then(Answer(d.ctx.request), Converse(Renewed(d), rest))
                                          else Converse(d, rest)
  {
    CallIsRun(c, p);
    assert ([p] + rest)[1..] == rest;
    hide Call, Ready;
  }

  lemma OneMessage(c: Config, p: Piece)
    requires Ready(c) && Call(c, p).Parsed?
    ensures var d := Call(c, p).config;
            Converse(c, [p]) == Talk(if d.failed then [Refusal]
                                     else if d.ctx.phase == GotAll then [Answer(d.ctx.request)] else [], Waiting)
  {
    FirstMessage(c, p, []);
    assert [p] + [] == [p];
    hide Call, Ready;
  }

  ghost predicate SameTalk(c: Config, s: string)
    requires Ready(c)
  {
    forall ps, qs :: Cut(ps, s) && Cut(qs, s) && Converse(c, ps).end != Spinning && Converse(c, qs).end != Spinning ==>
      Converse(c, ps) == Converse(c, qs)
  }

  /** A body of one or two bytes, in one message. */
  lemma ShortBody(c: Config, n: nat, x: string)
    requires Ready(c) && !c.failed && c.ctx.phase == ExpectBody && !c.ctx.chunked && c.unread == ""
    requires c.ctx.contentLength == Some(n) && c.ctx.bodyReceived == 0 && 0 < n && x != ""
    ensures Call(c, Piece(x, "")).Parsed?
    ensures var d := Call(c, Piece(x, "")).config;
            && !d.failed && Ready(d)
            && if |x| < n then d.ctx.phase == ExpectBody
               else d.ctx.phase == GotAll && |d.ctx.request.body| == |c.ctx.request.body| + n
  {
    BodyParsed(c, Piece(x, ""));
    var w := Feed(c, x);
    assert w.unread == x;
    RunStep(w, Some(""));
    var d := Step(w, Some("")).value;
    RunStep(d, Some(""));
    hide Run, Call, Ready;
  }

  /** The call that gets the end of an open-ended block. */
  lemma OpenHeadCall(c: Config, s: string, z: string, z': string)
    requires Ready(c) && OpenStream(c, c.unread + s) && !OpenStream(c, c.unread)
    requires |z| == |z'| == 1 && '0' <= z[0] <= '9' && '0' <= z'[0] <= '9'
    ensures var k := OpenAt(c, s);
            var d, e := Call(c, Piece(s[..k], z)), Call(c, Piece(s[..k], z'));
            && d.Parsed? && e.Parsed? && Ready(d.config) && !d.config.failed
            && EndsWith(d.config, z[0] as int - '0' as int) && d.config.ctx.bodyReceived == 0
            && d.config.ctx.request.body == e.config.ctx.request.body
            && d.config.ctx.chunked == Pass(Feed(c, s)).ctx.chunked
  {
    hide LineEnd, HasLine, Line, AfterLine, RequestLine, Run, HeaderLoop, BlockEnds, Call, Ready, OpenAt, EndsWith;
    var k := OpenAt(c, s);
    OpenCall(c, s, z);
    OpenCall(c, s, z');
    CallIsRun(c, Piece(s[..k], z));
    OpenHead(c, s, k);
    var f := Feed(c, s[..k]);
    var h := Accepted(f, Line(f.unread), AfterLine(f.unread));
    ReadyPhase(c);
    RunAccepted(f, z);
    HeadsShape(h, h, "", z, z') by { assert h.unread + "" == h.unread; }
    assert s[..k] + s[k..] == s;
    HeadCall(c, Piece(s[..k], z), s[k..]);
  }

  lemma OpenAtEnd(c: Config, s: string)
    requires Ready(c) && OpenStream(c, c.unread + s) && !OpenStream(c, c.unread) && !Pass(Feed(c, s)).ctx.chunked
    requires OpenAt(c, s) == |s|
    ensures !SameTalk(c, s)
  {
    hide Run, Call, Ready, OpenAt, OpenStream, Converse, Cut;
    assert s[..|s|] == s && s != "";
    OpenHeadCall(c, s, "0", "1");
    OpenHeadCall(c, s, "1", "0");
    OneMessage(c, Piece(s, "0"));
    OneMessage(c, Piece(s, "1"));
    OneCut(s, "0");
    OneCut(s, "1");
    assert Converse(c, [Piece(s, "0")]) != Converse(c, [Piece(s, "1")]);
  }

  /** The block and its length, and then the rest. */
  lemma OpenThenRest(c: Config, s: string, n: string, n': string)
    requires Ready(c) && OpenStream(c, c.unread + s) && !OpenStream(c, c.unread) && !Pass(Feed(c, s)).ctx.chunked
    requires OpenAt(c, s) < |s| && |n| == |n'| == 1 && '1' <= n[0] <= '9' && '1' <= n'[0] <= '9'
    ensures var k, size := OpenAt(c, s), n[0] as int - '0' as int;
            var d := Call(c, Piece(s[..k], n));
            var e := Call(c, Piece(s[..k], n'));
            && d.Parsed? && e.Parsed? && d.config.ctx.request.body == e.config.ctx.request.body
            && var t := Converse(c, [Piece(s[..k], n), Piece(s[k..], "")]);
               if |s| - k < size then t == SILENCE
               else && t.end == Waiting && |t.replies| == 1 && t.replies[0].Answer?
                    && |t.replies[0].request.body| == |d.config.ctx.request.body| + size
  {
    hide Run, Call, Ready, OpenAt, OpenStream, Converse;
    var k := OpenAt(c, s);
    OpenHeadCall(c, s, n, n');
    var p, r := Piece(s[..k], n), Piece(s[k..], "");
    var d := Call(c, p).config;
    ShortBody(d, n[0] as int - '0' as int, s[k..]);
    FirstMessage(c, p, [r]);
    OneMessage(d, r);
    assert [p] + [r] == [p, r];
  }

  lemma OpenInside(c: Config, s: string)
    requires Ready(c) && OpenStream(c, c.unread + s) && !OpenStream(c, c.unread) && !Pass(Feed(c, s)).ctx.chunked
    requires OpenAt(c, s) < |s|
    ensures !SameTalk(c, s)
  {
    hide Run, Call, Ready, OpenAt, OpenStream, Converse, Cut;
    var k := OpenAt(c, s);
    OpenThenRest(c, s, "1", "2");
    OpenThenRest(c, s, "2", "1");
    TwoCut(s, k, "1");
    TwoCut(s, k, "2");
    assert Converse(c, [Piece(s[..k], "1"), Piece(s[k..], "")]) != Converse(c, [Piece(s[..k], "2"), Piece(s[k..], "")]);
  }

  lemma OpenDiffers(c: Config, s: string)
    requires Ready(c) && !c.failed && c.ctx.phase == ExpectRequestLine && c.unread == "" && Opens(Feed(c, s))
    ensures !SameTalk(c, s)
  {
    assert c.unread + s == s;
    NoLineInNothing();
    assert OpenStream(c, c.unread + s) && !OpenStream(c, c.unread) && !Pass(Feed(c, s)).ctx.chunked;
    hide Run, Call, Ready, OpenAt, OpenStream, Converse, Cut, SameTalk;
    if OpenAt(c, s) == |s| { OpenAtEnd(c, s); } else { OpenInside(c, s); }
  }

  lemma {:induction false} RunShrinks(c: Config, m: Option<string>)
    requires Wf(c)
    ensures |Run(c, m).unread| <= |c.unread|
    decreases Rank(c), |c.unread|
  {
    StepShrinks(c, m);
    hide Step;
    if Step(c, m).Some? { RunShrinks(Step(c, m).value, m); }
  }

  lemma StepShrinks(c: Config, m: Option<string>)
    requires Wf(c)
    ensures Step(c, m).Some? ==> |Step(c, m).value.unread| <= |c.unread|
  {
    hide LineEnd, HasLine, Line, RequestLine, HeaderLine, HasColon;
  }

  /** An answered request ends behind its header block. */
  lemma BlockConsumed(w: Config)
    requires Wf(w) && !w.failed && w.ctx.phase == ExpectRequestLine && w.ctx.contentLength.Some? && Answers(w)
    requires !OpenStream(w, w.unread)
    ensures HasLine(w.unread) && RequestLine(w.ctx.request, Line(w.unread)).0 && BlockEnds(AfterLine(w.unread))
    ensures LineEnd(w.unread) + 2 + BlockLen(AfterLine(w.unread)) + |Pass(w).unread| <= |w.unread|
  {
    hide LineEnd, HasLine, Line, RequestLine, Run, HeaderLoop, BlockEnds, BlockLen, OpenEnded;
    HasHead(w);
    RunAccepted(w, "");
    var h := Accepted(w, Line(w.unread), AfterLine(w.unread));
    HeadsAgree(h, "", "", "");
    RunShrinks(HeaderLoop(h, ""), Some(""));
    BlockInside(w.unread);
  }

  /** A missing body takes at least one byte. */
  lemma ConsumesOne(d: Config, x: string)
    requires Wf(d) && !d.failed && d.ctx.phase == ExpectBody && Step(d, Some("")).None?
    requires Run(Feed(d, x), Some("")).ctx.phase == GotAll && d.ctx.contentLength.Some?
    ensures |Run(Feed(d, x), Some("")).unread| < |x|
  {
    var w := Feed(d, x);
    RunStep(w, Some(""));
    if Step(w, Some("")).Some? { RunShrinks(Step(w, Some("")).value, Some("")); }
    hide Run;
  }

  lemma InPrefix(s: string, k: nat, j: nat)
    requires HasLine(s) && BlockEnds(AfterLine(s)) && k == LineEnd(s) + 2 + BlockLen(AfterLine(s)) <= j <= |s|
    ensures var u := s[..j];
            && HasLine(u) && Line(u) == Line(s) && BlockEnds(AfterLine(u))
            && (OpenEnded(AfterLine(u)) <==> OpenEnded(AfterLine(s)))
  {
    hide LineEnd, HasLine, Line, AfterLine, RequestLine, BlockEnds, BlockLen, OpenEnded;
    HeadPrefix(s, k);
    var t := s[..k];
    assert s[..j] == t + s[k..j];
    LineOfMore(t, s[k..j]);
    OpenPrefix(AfterLine(t), s[k..j]);
  }

  /** A message that holds the whole request, and some of what is behind it. */
  lemma ShortPass(c: Config, s: string, j: nat)
    requires Ready(c) && !c.failed && c.ctx.phase == ExpectRequestLine && c.unread == "" && j <= |s|
    requires var w := Feed(c, s); Answers(w) && !OpenStream(w, s) && |s| - j <= |Pass(w).unread|
    ensures Call(c, Piece(s[..j], "")).Parsed?
    ensures var d, f := Call(c, Piece(s[..j], "")).config, Pass(Feed(c, s));
            d == f.(unread := d.unread) && d.unread + s[j..] == f.unread
  {
    hide LineEnd, HasLine, Line, AfterLine, RequestLine, Run, RunPieces, BlockEnds, BlockLen, OpenEnded, Call, Ready;
    hide Step, Joined;
    var w, p, x := Feed(c, s), Piece(s[..j], ""), s[j..];
    assert w.unread == s && s[..j] + x == s && c.unread + s[..j] == s[..j];
    ReadyPhase(c);
    BlockConsumed(w);
    InPrefix(s, LineEnd(s) + 2 + BlockLen(AfterLine(s)), j);
    HeadCall(c, p, x);
    CallIsRun(c, p);
    HeadSeenOnce(c, p, x);
    var d := Call(c, p).config;
    ReadyPhase(d);
    if d.ctx.phase == GotAll {
      BodyKeeps(Feed(d, x), Some(""));
    } else {
      ConsumesOne(d, x);
    }
  }

  lemma HeadSeenOnce(c: Config, p: Piece, x: string)
    requires Ready(c) && !c.failed && c.ctx.phase == ExpectRequestLine
    requires var u := Feed(c, p.bytes).unread;
             && HasLine(u) && RequestLine(c.ctx.request, Line(u)).0 && BlockEnds(AfterLine(u))
             && !OpenEnded(AfterLine(u))
    ensures Run(Feed(Run(Feed(c, p.bytes), Some(p.beyond)), x), Some("")) == Pass(Feed(c, p.bytes + x))
  {
    hide LineEnd, HasLine, Line, AfterLine, RequestLine, Run, BlockEnds, OpenEnded, Ready;
    var rest := [Piece(x, "")];
    assert rest[1..] == [] && x + "" == x;
    assert Joined(rest) == x + Joined(rest[1..]);
    HeadSeen(c, p, rest);
    ReadyPhase(c);
    var d := Run(Feed(c, p.bytes), Some(p.beyond));
    assert RunPieces(d, rest) == RunPieces(Run(Feed(d, x), Some("")), rest[1..]);
    NoPieces(Run(Feed(d, x), Some("")));
  }

  // ------------------------------------------------- a second request behind the first

  lemma CutMore(p: Piece, ps: seq<Piece>, s: string, j: nat)
    requires 0 < j <= |s| && p.bytes == s[..j] && Cut(ps, s[j..])
    ensures Cut([p] + ps, s)
  {
    assert ([p] + ps)[1..] == ps;
    assert s[..j] + s[j..] == s;
  }

  /** The whole stream in one message, against one answered in two: the first
      message holds the first request and all but `|s| - j` bytes. */
  lemma SecondAnswer(c: Config, s: string, j: nat, ps: seq<Piece>)
    requires Ready(c) && !c.failed && c.ctx.phase == ExpectRequestLine && c.unread == "" && 0 < j < |s|
    requires var w := Feed(c, s); Answers(w) && !OpenStream(w, s) && |s| - j <= |Pass(w).unread|
    requires Cut(ps, s[j..])
    requires var f := Pass(Feed(c, s));
             var d := Renewed(f).(unread := f.unread[..|f.unread| - (|s| - j)]);
             Ready(d) && Converse(d, ps).end != Spinning && Converse(d, ps).replies != []
    ensures !SameTalk(c, s)
  {
    hide Run, Call, Ready, OpenStream, Converse, Cut, Answers;
    ShortPass(c, s, |s|);
    ShortPass(c, s, j);
    assert s[..|s|] == s;
    var p := Piece(s[..j], "");
    OneMessage(c, Piece(s, ""));
    FirstMessage(c, p, ps);
    OneCut(s, "");
    CutMore(p, ps, s, j);
    ReadyPhase(c);
    PassAnswers(Feed(c, s));
    var f, d := Pass(Feed(c, s)), Call(c, p).config;
    assert d.unread == f.unread[..|f.unread| - (|s| - j)];
    assert Converse(c, [p] + ps) != Converse(c, [Piece(s, "")]);
  }

  lemma PassAnswers(w: Config)
    requires Wf(w) && Answers(w)
    ensures !Pass(w).failed && Pass(w).ctx.phase == GotAll
  {
  }

  /** What is behind is refused, or complete: its last byte brings the reply. */
  lemma LastByteReplies(d: Config, x: string)
    requires Ready(d) && !d.failed && d.ctx.phase == ExpectRequestLine && |x| == 1
    requires var w := Feed(d, x); Refuses(w) || Answers(w)
    ensures var t := Converse(d, [Piece(x, "")]); t.end != Spinning && t.replies != []
  {
    hide LineEnd, HasLine, Line, AfterLine, RequestLine, Run, BlockEnds, Call, Ready;
    var p := Piece(x, "");
    ReadyPhase(d);
    FirstLine(d, p);
    if Answers(Feed(d, x)) { HasHead(Feed(d, x)); }
    CallIsRun(d, p);
    OneMessage(d, p);
  }

  /** It is open-ended: the byte that ends its block is followed by memory. */
  lemma OpenReplies(d: Config, x: string) returns (ps: seq<Piece>)
    requires Ready(d) && OpenStream(d, d.unread + x) && !OpenStream(d, d.unread) && !Pass(Feed(d, x)).ctx.chunked
    requires OpenAt(d, x) == 1
    ensures Cut(ps, x)
    ensures var t := Converse(d, ps); t.end != Spinning && t.replies != []
  {
    hide Run, Call, Ready, OpenAt, OpenStream, Converse, Cut;
    if |x| == 1 {
      ps := [Piece(x, "0")];
      assert x[..1] == x;
      OpenHeadCall(d, x, "0", "0");
      OneMessage(d, ps[0]);
      OneCut(x, "0");
    } else {
      ps := [Piece(x[..1], "1"), Piece(x[1..], "")];
      OpenThenRest(d, x, "1", "1");
      TwoCut(x, 1, "1");
    }
  }

  lemma NothingBehind(f: Config)
    requires !f.failed && f.unread == ""
    ensures Silent(Renewed(f))
  {
    NoLineInNothing();
    NoLineRun(Renewed(f), "");
    hide Run;
  }

  lemma NotOpenYet(c: Config, t: string, k: nat)
    requires OpenStream(c, t) && k < LineEnd(t) + 2 + BlockLen(AfterLine(t)) && k <= |t|
    ensures !OpenStream(c, t[..k])
  {
    hide LineEnd, HasLine, Line, AfterLine, RequestLine, BlockEnds, BlockLen, OpenEnded;
    var u := t[..k];
    assert u + t[k..] == t;
    if OpenStream(c, u) {
      LineOfMore(u, t[k..]);
      SameEnd(u, t[k..]);
      OpenPrefix(AfterLine(u), t[k..]);
      BlockInside(u);
    }
  }

  /** One message ends a byte before the block does, the next one with it. */
  lemma CutBlock(d: Config, t: string) returns (k: nat)
    requires d.unread == t && OpenStream(d, t)
    ensures k < |t| && !OpenStream(d, t[..k]) && t[..k] + t[k..] == t
    ensures var e := d.(unread := t[..k]); OpenStream(e, t) && !OpenStream(e, t[..k]) && OpenAt(e, t[k..]) == 1
  {
    hide LineEnd, HasLine, Line, AfterLine, RequestLine, BlockEnds, BlockLen, OpenEnded;
    BlockInside(t);
    k := LineEnd(t) + 1 + BlockLen(AfterLine(t));
    NotOpenYet(d, t, k);
    assert t[..k] + t[k..] == t;
    SameStream(d, d.(unread := t[..k]), t);
    SameStream(d, d.(unread := t[..k]), t[..k]);
  }

  /** What is behind an answered request can be answered or refused itself. */
  lemma SecondDiffers(c: Config, s: string)
    requires Ready(c) && !c.failed && c.ctx.phase == ExpectRequestLine && c.unread == ""
    requires var w := Feed(c, s); Answers(w) && !OpenStream(w, s) && !Silent(Renewed(Pass(w)))
    ensures !SameTalk(c, s)
  {
    var w := Feed(c, s);
    assert w.unread == s;
    ReadyPhase(c);
    PassAnswers(w);
    var f, t := Pass(w), Pass(w).unread;
    var g := Renewed(f);
    assert Refuses(g) || Opens(g) || Answers(g);
    if t == "" { NothingBehind(f); }
    BlockConsumed(w);
    hide Run, Call, Ready, OpenStream, Converse, Cut, Answers, Refuses, OpenAt;
    hide LineEnd, HasLine, Line, AfterLine, RequestLine, BlockEnds, BlockLen, OpenEnded, Silent, SameTalk;
    if Refuses(g) || Answers(g) {
      var j := |s| - 1;
      ShortPass(c, s, j);
      var x, d := s[j..], Renewed(f).(unread := t[..|t| - 1]);
      assert d == Renewed(f.(unread := t[..|t| - 1]));
      assert t[..|t| - 1] + x == t;
      assert Feed(d, x) == g;
      LastByteReplies(d, x);
      OneCut(x, "");
      SecondAnswer(c, s, j, [Piece(x, "")]);
    } else {
      var k := CutBlock(g, t);
      var j := |s| - (|t| - k);
      ShortPass(c, s, j);
      var x, d := s[j..], Renewed(f).(unread := t[..k]);
      assert d == Renewed(f.(unread := t[..k]));
      assert t[..k] + x == t && x == t[k..];
      assert Feed(d, x) == g;
      var ps := OpenReplies(d, x);
      SecondAnswer(c, s, j, ps);
    }
  }

  /** Every cut whose calls return or abort leads to the same replies if and only if
      in one pass over the stream
      no header block is open-ended whose length matters,
      nothing follows a refused request line,
      and nothing follows an answered request that could be answered or refused. */
  lemma SameTalkIff(c: Config, s: string)
    requires Ready(c) && !c.failed && c.ctx.phase == ExpectRequestLine && c.unread == ""
    ensures var w := Feed(c, s);
            SameTalk(c, s) <==>
            && !Opens(w) && (Refuses(w) ==> AfterLine(w.unread) == "") && (Answers(w) ==> Silent(Renewed(Pass(w))))
  {
    var w := Feed(c, s);
    assert w.unread == s && c.unread + s == s;
    ReadyPhase(c);
    hide Run, Call, Ready, OpenStream, Converse, SameTalk;
    hide LineEnd, HasLine, Line, AfterLine, RequestLine, BlockEnds, BlockLen, OpenEnded, Silent;
    if Answers(w) { NotChunked(c, s); }
    if Opens(w) {
      OpenDiffers(c, s);
    } else if Refuses(w) && AfterLine(s) != "" {
      RefusedDiffers(c, s);
    } else if Answers(w) && !Silent(Renewed(Pass(w))) {
      SecondDiffers(c, s);
    } else {
      SameOtherwise(c, s);
    }
  }

  lemma NotChunked(c: Config, s: string)
    requires Ready(c) && !c.failed && c.ctx.phase == ExpectRequestLine && Answers(Feed(c, s))
    ensures !Pass(Feed(c, s)).ctx.chunked
  {
    hide LineEnd, HasLine, Line, AfterLine, RequestLine, Run, BlockEnds, Call, Ready;
    ReadyPhase(c);
    HasHead(Feed(c, s));
    assert s + "" == s;
    HeadCall(c, Piece(s, ""), "");
  }

  lemma SameOtherwise(c: Config, s: string)
    requires Ready(c) && !c.failed && c.ctx.phase == ExpectRequestLine && c.unread == ""
    requires var w := Feed(c, s);
             && !Opens(w) && (Refuses(w) ==> AfterLine(w.unread) == "")
             && (Answers(w) ==> !OpenStream(w, w.unread) && Silent(Renewed(Pass(w))))
    ensures SameTalk(c, s)
  {
    hide Run, Call, Ready, OpenStream, Converse;
    hide LineEnd, HasLine, Line, AfterLine, RequestLine, BlockEnds, BlockLen, OpenEnded;
    forall ps, qs | Cut(ps, s) && Cut(qs, s) && Converse(c, ps).end != Spinning && Converse(c, qs).end != Spinning
      ensures Converse(c, ps) == Converse(c, qs)
    {
      TalkOf(c, ps, s);
      TalkOf(c, qs, s);
    }
  }

  lemma TalkOf(c: Config, ps: seq<Piece>, s: string)
    requires Ready(c) && !c.failed && c.ctx.phase == ExpectRequestLine && Cut(ps, s)
    requires Converse(c, ps).end != Spinning
    requires var w := Feed(c, s);
             && !Opens(w) && (Refuses(w) ==> AfterLine(w.unread) == "")
             && (Answers(w) ==> !OpenStream(w, w.unread) && Silent(Renewed(Pass(w))))
    ensures var w := Feed(c, s);
            Converse(c, ps) == if Refuses(w) then Talk([Refusal], Waiting)
                               else if Answers(w) then Talk([Answer(Pass(w).ctx.request)], Waiting)
                               else SILENCE
  {
    var w := Feed(c, s);
    if Refuses(w) {
      RefusedTalk(c, ps);
    } else if Answers(w) {
      AnswerTalk(c, ps);
    } else {
      SilentTalk(c, ps);
    }
    hide Run, Call, Ready, OpenStream, Converse, LineEnd, HasLine, Line, AfterLine, RequestLine, BlockEnds, OpenEnded;
  }
}
