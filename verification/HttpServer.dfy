/**
 What the server does with a parsed message: a large upload body is handed to the
 handler, and taken out of the request, whenever a megabyte of it has arrived;
 what is left goes with the complete request.
 */
module HttpServerModel {
  import opened HttpParser
  import KeepAlive
  import ParserDriver
  import opened ParserCalls
  import Upload
  import opened Options

  const LARGE: nat := 1024 * 1024

  /** What `onMessage` does after the parser: answer 400 and shut down, hand over
      a piece of an upload, hand over the complete request, or nothing yet. */
  datatype Action = Reject | HandPiece(body: string) | Answer(request: Request) | Wait

  predicate IsUpload(r: Request) { r.path == "/upload" && r.meth == Post }

  function WithBody(c: Config, body: string): Config {
    c.(ctx := c.ctx.(request := c.ctx.request.(body := body)))
  }

  /** What a parsed context makes the server do, whatever call parsed it. */
  function ActionOf(d: Config): Action {
    if d.failed then Reject
    else if d.ctx.phase == GotAll then Answer(d.ctx.request)
    else if d.ctx.phase == ExpectBody && IsUpload(d.ctx.request) && |d.ctx.request.body| >= LARGE
    then HandPiece(d.ctx.request.body)
    else Wait
  }

  /** Bytes of a body come from the body of a message that is not chunked. */
  predicate NoBodyYet(c: Config) {
    c.ctx.phase in {ExpectRequestLine, ExpectHeaders} || (c.ctx.phase == ExpectBody && c.ctx.chunked) ==>
      c.ctx.request.body == ""
  }

  lemma StepNoBodyYet(c: Config, m: Option<string>)
    requires Wf(c) && NoBodyYet(c)
    ensures Step(c, m).Some? ==> NoBodyYet(Step(c, m).value)
  {
    hide LineEnd, RequestLine, HeaderLine, ToRead, Memory;
    KeepAlive.HeaderPath(c, m);
  }

  lemma {:induction false} RunNoBodyYet(c: Config, m: Option<string>)
    requires Wf(c) && NoBodyYet(c)
    ensures NoBodyYet(Run(c, m))
    decreases Rank(c), |c.unread|
  {
    hide Step;
    StepNoBodyYet(c, m);
    if Step(c, m).Some? { RunNoBodyYet(Step(c, m).value, m); }
  }

  /** While an upload's body arrives, the parser says "headers complete". */
  lemma PieceMeansMissing(c: Config, m: string)
    requires Wf(c) && NoBodyYet(c) && c.ctx.contentLength.Some?
    ensures var d := Run(c, Some(m));
            !d.failed && d.ctx.phase == ExpectBody && d.ctx.request.body != "" ==> ParserDriver.BodyMissing(d.ctx)
    ensures NoBodyYet(Run(c, Some(m)))
  {
    RunNoBodyYet(c, Some(m));
    hide LineEnd, RequestLine, HeaderLine, Run;
  }

  lemma DriveResult(c: Config, m: string, result: ParserDriver.ParseResult, turns: nat)
    requires Wf(c) && !c.failed && ParserDriver.Drive(c, m, result, turns).returned
    requires result in {ParserDriver.NeedMore, ParserDriver.HeadersComplete}
    ensures var o := ParserDriver.Drive(c, m, result, turns);
            o.config.ctx.phase == ExpectBody && ParserDriver.BodyMissing(o.config.ctx) && !o.config.failed ==>
              o.result == ParserDriver.HeadersComplete
    decreases turns
  {
    hide LineEnd, RequestLine, HeaderLine, Step;
    var t := ParserDriver.Turn(c, m, result);
    if t.hasMore { DriveResult(t.config, m, t.result, turns - 1); }
  }

  // ----------------------------------------------------------------- the reaction

  /** The context afterwards, the upload in progress, and the upload reported. */
  datatype Reaction = Reaction(config: Config, slot: Option<Upload.Upload>, report: Option<Upload.Upload>)

  /** What the server and the upload handler do after a call of the parser: the
      handler leaves the body it was given or empties it, and a request that was
      answered is followed by a reset, which also drops the upload. */
  function React(d: Config, slot: Option<Upload.Upload>, b: string, named: bool): Reaction
    requires b != ""
  {
    match ActionOf(d)
    case HandPiece(body) =>
      var h := Upload.Handle(b, named, slot, body, false);
      Reaction(WithBody(d, h.body), h.slot, h.report)
    case Answer(r) =>
      Reaction(d.(ctx := KeepAlive.Reset(d.ctx)), None,
               if IsUpload(r) then Upload.Handle(b, named, slot, r.body, true).report else None)
    case _ => Reaction(d, slot, None)
  }

  /** What a call that returned tells the server. */
  lemma MessageParsed(c: Config, m: string, turns: nat)
    requires Wf(c) && !c.failed && c.ctx.contentLength.Some? && NoBodyYet(c)
    requires ParserDriver.Drive(c, m, ParserDriver.NeedMore, turns).returned
    ensures var o, d := ParserDriver.Drive(c, m, ParserDriver.NeedMore, turns), Run(c, Some(m));
            && o.config == d && NoBodyYet(d) && (d.failed ==> Refused(d)) && d.ctx.contentLength.Some?
            && ActionOf(d) == (
                 if o.result == ParserDriver.Error then Reject
                 else if o.result == ParserDriver.GotRequest then Answer(d.ctx.request)
                 else if o.result == ParserDriver.HeadersComplete && d.ctx.phase == ExpectBody
                         && IsUpload(d.ctx.request) && |d.ctx.request.body| >= LARGE
                 then HandPiece(d.ctx.request.body)
                 else Wait)
  {
    ParserDriver.ReturnedMeansRun(c, m, ParserDriver.NeedMore, turns);
    DriveResult(c, m, ParserDriver.NeedMore, turns);
    PieceMeansMissing(c, m);
    RunRefused(c, m);
    hide Run, ParserDriver.Drive, Refused, IsUpload;
  }

  /** After the reaction the next message can come. */
  lemma ReactReady(d: Config, slot: Option<Upload.Upload>, b: string, named: bool)
    requires Wf(d) && d.ctx.contentLength.Some? && (d.failed ==> Refused(d)) && NoBodyYet(d) && b != ""
    ensures var c := React(d, slot, b, named).config.(failed := false); Callable(c) && NoBodyYet(c)
  {
    NextCallable(d);
    hide Upload.Handle, Refused, HasLine, Line, RequestLine;
  }

  // ------------------------------------------------------- pieces of one request

  /** How the messages of one request ended: the request is open, a call aborted or
      did not return, or the request was answered. */
  datatype End = Open | Aborted | Spinning | Answered

  /** One request's body on its way: the pieces handed over. */
  datatype Transfer = Transfer(handed: seq<string>, end: End, config: Config)

  /** The pieces handed over, when the handler empties the body each time. */
  function Deliver(c: Config, ps: seq<Piece>): (t: Transfer)
    requires Ready(c)
    decreases |ps|
  {
    if ps == [] then Transfer([], Open, c) else
    match Call(c, ps[0])
    case Aborts => Transfer([], Aborted, c)
    case Spins => Transfer([], Spinning, c)
    case Parsed(d) =>
      CallIsRun(c, ps[0]);
      match ActionOf(d)
      case Answer(r) => Transfer([r.body], Answered, d)
      case HandPiece(body) =>
        var t := Deliver(WithBody(d, ""), ps[1..]);
        t.(handed := [body] + t.handed)
      case _ => Deliver(d, ps[1..])
  }

  function Rest(t: Transfer): string { if t.end == Answered then "" else t.config.ctx.request.body }

  /** A connection with an upload in progress, and the uploads reported so far. */
  datatype Session = Session(config: Config, slot: Option<Upload.Upload>, reports: seq<Upload.Upload>, end: End)

  /** The messages of a connection until its request is answered. */
  function Receive(s: Session, ps: seq<Piece>, b: string, named: bool): Session
    requires Ready(s.config) && b != ""
    decreases |ps|
  {
    if ps == [] then s else
    match Call(s.config, ps[0])
    case Aborts => s.(end := Aborted)
    case Spins => s.(end := Spinning)
    case Parsed(d) =>
      CallIsRun(s.config, ps[0]);
      var r := React(d, s.slot, b, named);
      var reports := s.reports + Upload.Listed(r.report);
      if ActionOf(d).Answer? then Session(r.config, r.slot, reports, Answered)
      else Receive(Session(r.config, r.slot, reports, s.end), ps[1..], b, named)
  }

  function Longer(c: Config, front: string): (d: Config)
    ensures Wf(c) && !c.failed && c.ctx.phase in {ExpectBody, GotAll} ==> Wf(d)
  {
    WithBody(c, front + c.ctx.request.body)
  }

  predicate InBody(c: Config) { !c.failed && c.ctx.phase in {ExpectBody, GotAll} }

  lemma StepLonger(c: Config, front: string, m: Option<string>)
    requires Wf(c) && InBody(c)
    ensures Step(Longer(c, front), m).Some? == Step(c, m).Some?
    ensures Step(c, m).Some? ==>
              InBody(Step(c, m).value) && Step(Longer(c, front), m).value == Longer(Step(c, m).value, front)
  {
    if c.ctx.phase == ExpectBody && !c.ctx.chunked && c.ctx.contentLength.Some? {
      var taken := c.unread[..ToRead(c)];
      assert front + c.ctx.request.body + taken == front + (c.ctx.request.body + taken);
    }
  }

  lemma {:induction false} RunLonger(c: Config, front: string, m: Option<string>)
    requires Wf(c) && InBody(c)
    ensures InBody(Run(c, m)) && Run(Longer(c, front), m) == Longer(Run(c, m), front)
    decreases Rank(c), |c.unread|
  {
    hide Step;
    StepLonger(c, front, m);
    if Step(c, m).Some? { RunLonger(Step(c, m).value, front, m); }
  }

  lemma CallLonger(c: Config, front: string, p: Piece)
    requires Ready(c) && InBody(c)
    ensures Ready(Longer(c, front))
    ensures Call(c, p).Parsed? <==> Call(Longer(c, front), p).Parsed?
    ensures Call(c, p).Parsed? ==>
              InBody(Call(c, p).config) && Call(Longer(c, front), p).config == Longer(Call(c, p).config, front)
  {
    assert Feed(Longer(c, front), p.bytes) == Longer(Feed(c, p.bytes), front);
    RunLonger(Feed(c, p.bytes), front, Some(p.beyond));
    AssertionIff(c, p.bytes);
    AssertionIff(Longer(c, front), p.bytes);
    assert Reopened(c) == c && Reopened(Longer(c, front)) == Longer(c, front);
    hide Run, AssertFails;
  }

  lemma {:induction false} CallsLonger(c: Config, front: string, ps: seq<Piece>)
    requires Ready(c) && InBody(c)
    ensures Ready(Longer(c, front))
    ensures Calls(c, ps).Parsed? <==> Calls(Longer(c, front), ps).Parsed?
    ensures Calls(c, ps).Parsed? ==> Calls(Longer(c, front), ps).config == Longer(Calls(c, ps).config, front)
    decreases |ps|
  {
    if ps != [] {
      CallLonger(c, front, ps[0]);
      if Call(c, ps[0]).Parsed? {
        CallIsRun(c, ps[0]);
        CallsLonger(Call(c, ps[0]).config, front, ps[1..]);
      }
    } else {
      ReadyLonger(c, front);
    }
    hide Call, Ready, InBody;
  }

  lemma ReadyLonger(c: Config, front: string)
    requires Ready(c) && InBody(c)
    ensures Ready(Longer(c, front))
  {
  }

  /** A complete request takes no further call. */
  lemma CompleteSpins(c: Config, ps: seq<Piece>)
    requires Ready(c) && !c.failed && c.ctx.phase == GotAll && Calls(c, ps).Parsed?
    ensures ps == []
  {
    if ps != [] { AssertionIff(c, ps[0].bytes); }
    hide AssertFails;
  }

  lemma Drained(d: Config)
    requires Ready(d) && ActionOf(d).HandPiece?
    ensures var e := WithBody(d, "");
            Ready(e) && InBody(e) && d == Longer(e, d.ctx.request.body)
  {
    assert d.ctx.request.body + "" == d.ctx.request.body;
  }

  /** Draining loses nothing and mixes nothing up: if every call returns, the pieces
      handed over, and what is still in the request, are the body as if nothing had
      been drained; the request is answered if and only if it is complete; its last
      piece comes with the answer, and all others have at least a megabyte. */
  lemma {:induction false} DrainedBody(c: Config, ps: seq<Piece>)
    requires Ready(c) && Calls(c, ps).Parsed?
    ensures var t, whole := Deliver(c, ps), Calls(c, ps).config;
            && Upload.Flat(t.handed) + Rest(t) == whole.ctx.request.body
            && t.end == (if ps != [] && !whole.failed && whole.ctx.phase == GotAll then Answered else Open)
            && (t.end == Answered ==> t.handed != [] && Upload.Large(t.handed, LARGE))
    decreases |ps|
  {
    hide Call, Ready, InBody, Run, IsUpload;
    if ps != [] {
      CallIsRun(c, ps[0]);
      var d := Call(c, ps[0]).config;
      match ActionOf(d) {
        case Answer(r) =>
          CompleteSpins(d, ps[1..]);
          FlatOne(r.body);
        case HandPiece(body) =>
          Drained(d);
          var e := WithBody(d, "");
          CallsLonger(e, body, ps[1..]);
          DrainedBody(e, ps[1..]);
          NotAnswered(d, e, ps[1..]);
          FlatHead(body, Deliver(e, ps[1..]), Calls(e, ps[1..]).config.ctx.request.body);
        case _ => NotYet(d, ps[1..]); DrainedBody(d, ps[1..]);
      }
    }
  }

  lemma NotYet(d: Config, rest: seq<Piece>)
    requires Ready(d) && Calls(d, rest).Parsed? && !ActionOf(d).Answer?
    ensures rest == [] ==> d.failed || d.ctx.phase != GotAll
  {
  }

  lemma NotAnswered(d: Config, e: Config, rest: seq<Piece>)
    requires Ready(e) && ActionOf(d).HandPiece? && e == WithBody(d, "")
    ensures rest == [] ==> Calls(e, rest) == Parsed(e) && e.ctx.phase == ExpectBody
  {
  }

  lemma FlatOne(body: string)
    ensures Upload.Flat([body]) == body
  {
    assert [body][1..] == [] && body + "" == body;
  }

  lemma FlatHead(body: string, t: Transfer, whole: string)
    requires Upload.Flat(t.handed) + Rest(t) == whole
    ensures Upload.Flat([body] + t.handed) + Rest(t) == body + whole
    ensures Upload.Large(t.handed, LARGE) && |body| >= LARGE ==> Upload.Large([body] + t.handed, LARGE)
  {
    assert ([body] + t.handed)[1..] == t.handed;
  }

  // ------------------------------------------------- every piece has bytes in it

  /** The rest of the body is still to come, if it can come at all. */
  predicate Waiting(c: Config) {
    InBody(c) && c.ctx.phase == ExpectBody ==> c.ctx.chunked || ParserDriver.BodyMissing(c.ctx)
  }

  lemma RunWaits(c: Config, m: string)
    requires Wf(c) && c.ctx.contentLength.Some?
    ensures Waiting(Run(c, Some(m)))
  {
    hide Run, RequestStep, HeaderStep;
  }

  lemma {:induction false} BodyGrows(c: Config, m: Option<string>)
    requires Wf(c) && InBody(c)
    ensures |Run(c, m).ctx.request.body| >= |c.ctx.request.body|
    ensures c.ctx.phase == ExpectBody && Waiting(c) && InBody(c) && Run(c, m).ctx.phase == GotAll ==>
              |Run(c, m).ctx.request.body| > |c.ctx.request.body|
    decreases Rank(c), |c.unread|
  {
    if Step(c, m).Some? { BodyGrows(Step(c, m).value, m); }
  }

  lemma CallWaits(c: Config, p: Piece)
    requires Ready(c) && !c.failed && Call(c, p).Parsed?
    ensures Waiting(Call(c, p).config)
    ensures InBody(c) && c.ctx.phase == ExpectBody && Waiting(c) && Call(c, p).config.ctx.phase == GotAll ==>
              |Call(c, p).config.ctx.request.body| > 0
  {
    CallIsRun(c, p);
    RunWaits(Feed(c, p.bytes), p.beyond);
    if InBody(c) { BodyGrows(Feed(c, p.bytes), Some(p.beyond)); }
    hide Call, Ready, Run;
  }

  /** The pieces of a body that is not empty. */
  lemma {:induction false} PiecesHaveBytes(c: Config, ps: seq<Piece>)
    requires Ready(c) && !c.failed && Waiting(c) && Calls(c, ps).Parsed?
    requires var w := Calls(c, ps).config; !w.failed && w.ctx.phase == GotAll && ps != []
    requires c.ctx.phase == ExpectBody || Calls(c, ps).config.ctx.request.body != ""
    ensures Upload.NonEmpty(Deliver(c, ps).handed)
    decreases |ps|
  {
    hide Call, Ready, Run, IsUpload, Waiting;
    CallIsRun(c, ps[0]);
    var d := Call(c, ps[0]).config;
    CallWaits(c, ps[0]);
    if c.failed || d.failed {
      StaysFailed(d, ps[1..]);
    } else {
      match ActionOf(d) {
        case Answer(r) =>
          CompleteSpins(d, ps[1..]);
          NotInHeaders(c, ps[0]);
        case HandPiece(body) =>
          Drained(d);
          var e := WithBody(d, "");
          CallsLonger(e, body, ps[1..]);
          NotAnswered(d, e, ps[1..]);
          StillWaits(d);
          PiecesHaveBytes(e, ps[1..]);
        case _ =>
          NotYet(d, ps[1..]);
          NotInHeaders(c, ps[0]);
          PiecesHaveBytes(d, ps[1..]);
      }
    }
  }

  lemma StillWaits(d: Config)
    requires Waiting(d)
    ensures Waiting(WithBody(d, ""))
  {
  }

  /** Where a call leaves the phase. */
  lemma NotInHeaders(c: Config, p: Piece)
    requires Ready(c) && !c.failed && Call(c, p).Parsed?
    ensures c.ctx.phase in {ExpectRequestLine, ExpectBody, GotAll}
    ensures c.ctx.phase != GotAll
    ensures c.ctx.phase == ExpectBody && Call(c, p).config.ctx.phase != GotAll ==>
              Call(c, p).config.ctx.phase == ExpectBody
  {
    AssertionIff(c, p.bytes);
    assert Reopened(c) == c;
    CallIsRun(c, p);
    if c.ctx.phase == ExpectBody { BodyStays(Feed(c, p.bytes), Some(p.beyond)); }
    hide Run, AssertFails;
  }

  lemma {:induction false} StaysFailed(c: Config, ps: seq<Piece>)
    requires Ready(c) && c.failed && Calls(c, ps).Parsed?
    ensures Calls(c, ps).config.failed
    decreases |ps|
  {
    if c.ctx.request.meth == Invalid {
      RefusedForEver(c, ps);
    } else if ps != [] {
      AbortsNext(c, ps[0]);
    }
    hide Call, Ready;
  }

  // -------------------------------------------------------------- what is reported

  lemma ReactPiece(d: Config, slot: Option<Upload.Upload>, b: string, named: bool)
    requires b != "" && ActionOf(d).HandPiece? && !Upload.Throws(b, named, slot, d.ctx.request.body)
    ensures var h := Upload.Handle(b, named, slot, d.ctx.request.body, false);
            React(d, slot, b, named) == Reaction(WithBody(d, ""), h.slot, h.report)
  {
    hide Upload.First, Upload.Later;
  }

  /** A piece is handed over: the session goes on with the rest. */
  lemma PieceHanded(s: Session, p: Piece, rest: seq<Piece>, b: string, named: bool)
    requires Ready(s.config) && b != "" && Call(s.config, p).Parsed? && ActionOf(Call(s.config, p).config).HandPiece?
    requires Ready(Call(s.config, p).config) && Calls(Call(s.config, p).config, rest).Parsed?
    requires var w := Calls(Call(s.config, p).config, rest).config;
             !w.failed && w.ctx.phase == GotAll && IsUpload(w.ctx.request)
    requires Upload.NeverThrows(b, named, s.slot, Deliver(s.config, [p] + rest).handed)
    ensures var d := Call(s.config, p).config;
            var e := WithBody(d, "");
            var h := Upload.Handle(b, named, s.slot, d.ctx.request.body, false);
            && Ready(e) && Calls(e, rest).Parsed? && rest != []
            && !Calls(e, rest).config.failed && Calls(e, rest).config.ctx.phase == GotAll
            && IsUpload(Calls(e, rest).config.ctx.request)
            && Upload.NeverThrows(b, named, h.slot, Deliver(e, rest).handed)
            && Upload.Reports(b, named, s.slot, Deliver(s.config, [p] + rest).handed) ==
               Upload.Listed(h.report) + Upload.Reports(b, named, h.slot, Deliver(e, rest).handed)
            && React(d, s.slot, b, named) == Reaction(e, h.slot, h.report)
  {
    hide Call, Ready, Run, IsUpload, Upload.Handle, Upload.Throws, Upload.Reports, Upload.NeverThrows, React;
    var d := Call(s.config, p).config;
    var e, body := WithBody(d, ""), d.ctx.request.body;
    CallIsRun(s.config, p);
    Drained(d);
    CallsLonger(e, body, rest);
    NotAnswered(d, e, rest);
    DrainedBody(e, rest);
    UploadLonger(Calls(e, rest).config, body);
    var pieces := Deliver(e, rest).handed;
    assert ([p] + rest)[1..] == rest;
    assert Deliver(s.config, [p] + rest).handed == [body] + pieces;
    ReportsMore(b, named, s.slot, body, pieces);
    ReactPiece(d, s.slot, b, named);
  }

  /** The session reports what the handler reports of the pieces, one by one. */
  lemma {:induction false} SessionReports(s: Session, ps: seq<Piece>, b: string, named: bool)
    requires Ready(s.config) && b != "" && Calls(s.config, ps).Parsed? && ps != []
    requires var w := Calls(s.config, ps).config; !w.failed && w.ctx.phase == GotAll && IsUpload(w.ctx.request)
    requires Upload.NeverThrows(b, named, s.slot, Deliver(s.config, ps).handed)
    ensures var r := Receive(s, ps, b, named);
            && r.end == Answered
            && r.reports == s.reports + Upload.Reports(b, named, s.slot, Deliver(s.config, ps).handed)
    decreases |ps|
  {
    hide Call, Calls, Ready, Run, IsUpload, Upload.Handle, Upload.Throws, React, Receive, Deliver, ActionOf,
         Upload.Reports, Upload.NeverThrows, WithBody;
    FirstMessage(s, ps, b, named);
    var d, rest := Call(s.config, ps[0]).config, ps[1..];
    match ActionOf(d) {
      case Answer(r) => ReportsOne(b, named, s.slot, r.body);
      case HandPiece(body) =>
        assert [ps[0]] + rest == ps;
        PieceHanded(s, ps[0], rest, b, named);
        var e, h := WithBody(d, ""), Upload.Handle(b, named, s.slot, body, false);
        SessionReports(Session(e, h.slot, s.reports + Upload.Listed(h.report), s.end), rest, b, named);
        var x, y := Upload.Listed(h.report), Upload.Reports(b, named, h.slot, Deliver(e, rest).handed);
        assert s.reports + x + y == s.reports + (x + y);
      case _ =>
        assert s.reports + [] == s.reports;
        SessionReports(Session(d, s.slot, s.reports, s.end), rest, b, named);
    }
  }

  /** The first message of a session, by what it makes the server do. */
  lemma FirstMessage(s: Session, ps: seq<Piece>, b: string, named: bool)
    requires Ready(s.config) && b != "" && Calls(s.config, ps).Parsed? && ps != []
    requires var w := Calls(s.config, ps).config; !w.failed && w.ctx.phase == GotAll && IsUpload(w.ctx.request)
    ensures Call(s.config, ps[0]).Parsed?
    ensures var d, rest, x := Call(s.config, ps[0]).config, ps[1..], Receive(s, ps, b, named);
            && Ready(d) && Calls(d, rest) == Calls(s.config, ps)
            && (ActionOf(d).Answer? ==>
                  var body := ActionOf(d).request.body;
                  && Deliver(s.config, ps).handed == [body] && x.end == Answered
                  && x.reports == s.reports + Upload.Listed(Upload.Handle(b, named, s.slot, body, true).report))
            && (ActionOf(d).HandPiece? ==>
                  var r := React(d, s.slot, b, named);
                  && Ready(r.config) && ActionOf(d).body == d.ctx.request.body
                  && x == Receive(Session(r.config, r.slot, s.reports + Upload.Listed(r.report), s.end),
                                  rest, b, named))
            && (ActionOf(d).Reject? || ActionOf(d).Wait? ==>
                  && rest != [] && Deliver(s.config, ps) == Deliver(d, rest)
                  && x == Receive(Session(d, s.slot, s.reports, s.end), rest, b, named))
  {
    hide Call, Ready, Run, IsUpload, Upload.Handle;
    CallIsRun(s.config, ps[0]);
    var d, rest := Call(s.config, ps[0]).config, ps[1..];
    assert s.reports + [] == s.reports;
    match ActionOf(d) {
      case Answer(r) => AnswersUpload(s.config, d, ps);
      case HandPiece(body) => HandReady(d, s.slot, b, named);
      case _ => NotYet(d, rest);
    }
  }

  lemma AnswersUpload(c: Config, d: Config, ps: seq<Piece>)
    requires Ready(c) && Ready(d) && ps != [] && Call(c, ps[0]) == Parsed(d) && ActionOf(d).Answer?
    requires Calls(c, ps).Parsed? && IsUpload(Calls(c, ps).config.ctx.request)
    ensures IsUpload(d.ctx.request)
  {
    hide Call, Ready, Run, IsUpload;
    CompleteSpins(d, ps[1..]);
  }

  lemma HandReady(d: Config, slot: Option<Upload.Upload>, b: string, named: bool)
    requires Ready(d) && b != "" && ActionOf(d).HandPiece?
    ensures Ready(React(d, slot, b, named).config)
  {
    hide Upload.Handle;
  }

  lemma UploadLonger(c: Config, front: string)
    ensures IsUpload(Longer(c, front).ctx.request) <==> IsUpload(c.ctx.request)
  {
  }

  lemma ReportsOne(b: string, named: bool, slot: Option<Upload.Upload>, body: string)
    requires b != ""
    ensures Upload.Reports(b, named, slot, [body]) == Upload.Listed(Upload.Handle(b, named, slot, body, true).report)
  {
    hide Upload.Handle;
    assert [body][1..] == [];
  }

  lemma ReportsMore(b: string, named: bool, slot: Option<Upload.Upload>, body: string, pieces: seq<string>)
    requires b != "" && pieces != [] && Upload.NeverThrows(b, named, slot, [body] + pieces)
    ensures var h := Upload.Handle(b, named, slot, body, false);
            && !Upload.Throws(b, named, slot, body)
            && Upload.NeverThrows(b, named, h.slot, pieces)
            && Upload.Reports(b, named, slot, [body] + pieces) ==
               Upload.Listed(h.report) + Upload.Reports(b, named, h.slot, pieces)
  {
    hide Upload.Handle, Upload.Throws;
    assert ([body] + pieces)[1..] == pieces;
  }

  /** An upload end to end, from the messages that TCP makes of the stream to the
      uploads reported, when every call of the parser returns. Exactly one upload is
      reported, by its closing delimiter, if and only if the first piece handed over
      holds the header block and the last one the whole delimiter; then its file and
      count are the data's. And with a header block, and a delimiter and what follows
      it, of less than a megabyte, exactly one upload is reported with the right file
      and count if and only if the last piece holds the whole delimiter. */
  lemma StreamedBody(c: Config, ps: seq<Piece>, b: string, named: bool, h: nat, e: nat)
    requires Ready(c) && !c.failed && c.ctx.phase == ExpectRequestLine && ps != [] && Calls(c, ps).Parsed?
    requires var w := Calls(c, ps).config;
             && !w.failed && w.ctx.phase == GotAll && IsUpload(w.ctx.request)
             && Upload.OnePart(b, w.ctx.request.body, h, e)
    ensures var body, pieces := Calls(c, ps).config.ctx.request.body, Deliver(c, ps).handed;
            var s := Receive(Session(c, None, [], Open), ps, b, named);
            && s.end == Answered && pieces != [] && Upload.Flat(pieces) == body && h <= e <= |body|
            && (|s.reports| == 1 && s.reports[0].state == Upload.Complete <==>
                  |pieces[0]| >= h && Upload.LastStart(pieces) <= e)
            && (|s.reports| == 1 && s.reports[0].state == Upload.Complete ==>
                  s.reports[0].file == body[h..e] && s.reports[0].total == e - h)
            && (Upload.OneLine(b) && h <= LARGE && |body| - e + 1 < LARGE ==>
                  (|s.reports| == 1 && s.reports[0].file == body[h..e] && s.reports[0].total == e - h <==>
                     Upload.LastStart(pieces) <= e))
  {
    hide Call, Calls, Ready, Run, IsUpload, Deliver, Receive, Upload.OnePart, Upload.Reports, Upload.NeverThrows;
    var body, pieces := Calls(c, ps).config.ctx.request.body, Deliver(c, ps).handed;
    DrainedBody(c, ps);
    Upload.PartFits(b, body, h, e);
    PiecesHaveBytes(c, ps);
    assert Upload.Flat(pieces) + "" == Upload.Flat(pieces);
    Upload.ReportsAre(b, named, body, h, e, pieces);
    Upload.ReportedIff(b, named, body, h, e, pieces);
    SessionReports(Session(c, None, [], Open), ps, b, named);
    assert [] + Upload.Reports(b, named, None, pieces) == Upload.Reports(b, named, None, pieces);
    if Upload.OneLine(b) && h <= LARGE && |body| - e + 1 < LARGE {
      Upload.RightFileIff(b, named, body, h, e, pieces, LARGE);
    }
  }
}
