/**
 The loop of `parseRequest` around the turns of HttpParser: exactly when a call
 returns, with what result, and that a returned call has made every turn the
 bytes allow. The loop does not return from some states, so it is followed for
 a given number of its iterations.
 */
module ParserDriver {
  import opened HttpParser
  import opened Options

  datatype ParseResult = Error | NeedMore | HeadersComplete | GotRequest
  datatype Outcome = Outcome(returned: bool, result: ParseResult, config: Config)

  /** `processHeaders`: header lines until the block or the lines end. */
  function HeaderLoop(c: Config, m: string): (d: Config)
    requires Wf(c)
    ensures Wf(d) && d.failed == c.failed && |d.unread| <= |c.unread|
    ensures c.ctx.contentLength.Some? ==> d.ctx.contentLength.Some?
    ensures !c.failed && c.ctx.phase == ExpectHeaders ==> d.ctx.phase != ExpectRequestLine
    ensures !c.failed && c.ctx.phase == ExpectHeaders && d.ctx.phase == ExpectBody ==>
              d.ctx.bodyReceived == 0 && (d.ctx.chunked || d.ctx.contentLength != Some(0))
    ensures !c.failed && c.ctx.phase == ExpectHeaders && d.ctx.phase == GotAll ==>
              d.ctx.contentLength == Some(0) && !d.ctx.chunked
    ensures Run(d, Some(m)) == Run(c, Some(m))
    decreases |c.unread|
  {
    hide LineEnd, RequestLine, HeaderLine;
    if !c.failed && c.ctx.phase == ExpectHeaders && HasLine(c.unread)
    then HeaderLoop(Step(c, Some(m)).value, m) else c
  }

  /** One line of the header loop. */
  lemma HeaderTurn(c: Config, m: string)
    requires Wf(c) && !c.failed && c.ctx.phase == ExpectHeaders && HasLine(c.unread)
    ensures var line, rest := Line(c.unread), AfterLine(c.unread);
            var ctx := if HasColon(line) then HeaderLine(c.ctx, line, Some(rest + m)) else EndHeaders(c.ctx);
            && Wf(Config(ctx, rest, false))
            && HeaderLoop(c, m) == HeaderLoop(Config(ctx, rest, false), m)
            && (!HasColon(line) ==> HeaderLoop(c, m) == Config(ctx, rest, false))
  {
    hide LineEnd, RequestLine, HeaderLine;
  }

  datatype Turned = Turned(hasMore: bool, result: ParseResult, config: Config)

  /** One iteration of the loop of `parseRequest`: one branch per state. */
  function Turn(c: Config, m: string, result: ParseResult): (t: Turned)
    requires Wf(c) && !c.failed
    ensures Wf(t.config) && (t.hasMore ==> !t.config.failed)
  {
    hide LineEnd, RequestLine, HeaderLine;
    match c.ctx.phase
    case ExpectRequestLine =>
      if !HasLine(c.unread) then Turned(false, result, c) else
      var d := Step(c, Some(m)).value;
      if d.failed then Turned(false, Error, d) else Turned(true, result, d)
    case ExpectHeaders =>
      var d := HeaderLoop(c, m);
      if d.ctx.phase == ExpectHeaders then Turned(true, result, d)
      else if d.ctx.phase == GotAll then Turned(false, GotRequest, d)
      else Turned(d.unread != "", HeadersComplete, d)
    case ExpectBody =>
      var d := BodyTurn(c);
      Turned(false, if d.ctx.phase == GotAll then GotRequest
                    else if BodyMissing(d.ctx) then HeadersComplete else result, d)
    case GotAll => Turned(true, result, c)
  }

  /** `turns` iterations, or fewer when the loop ends. */
  function Drive(c: Config, m: string, result: ParseResult, turns: nat): Outcome
    requires Wf(c) && !c.failed
    decreases turns
  {
    if turns == 0 then Outcome(false, result, c) else
    var t := Turn(c, m, result);
    if t.hasMore then Drive(t.config, m, t.result, turns - 1) else Outcome(true, t.result, t.config)
  }

  function BodyTurn(c: Config): (d: Config)
    requires Wf(c) && !c.failed
    ensures Wf(d) && !d.failed && |d.unread| <= |c.unread|
    ensures c.ctx.phase == ExpectBody ==> d.ctx.phase in {ExpectBody, GotAll}
  {
    match BodyStep(c)
    case None => c
    case Some(d) => d
  }

  predicate BodyMissing(ctx: Context) {
    ctx.contentLength.Some? && ctx.bodyReceived < ctx.contentLength.value
  }

  /** A complete line without a colon follows, with only complete header lines
      before it. */
  predicate BlockEnds(u: string)
    decreases |u|
  {
    hide LineEnd;
    HasLine(u) && (!HasColon(Line(u)) || BlockEnds(AfterLine(u)))
  }

  /** Read off the state and the buffer before the call. */
  predicate Returns(c: Config)
    requires Wf(c)
  {
    match c.ctx.phase
    case ExpectRequestLine =>
      !HasLine(c.unread) || !RequestLine(c.ctx.request, Line(c.unread)).0 || BlockEnds(AfterLine(c.unread))
    case ExpectHeaders => BlockEnds(c.unread)
    case ExpectBody => true
    case GotAll => false
  }

  lemma {:induction false} HeaderLoopEnds(c: Config, m: string)
    requires Wf(c) && !c.failed && c.ctx.phase == ExpectHeaders
    ensures HeaderLoop(c, m).ctx.phase == ExpectHeaders <==> !BlockEnds(c.unread)
    ensures HeaderLoop(c, m).ctx.phase == ExpectHeaders ==> !HasLine(HeaderLoop(c, m).unread)
    decreases |c.unread|
  {
    hide LineEnd, RequestLine, HeaderLine;
    if HasLine(c.unread) && HasColon(Line(c.unread)) {
      HeaderLoopEnds(Step(c, Some(m)).value, m);
    }
  }

  /** With headers missing, or with the request complete, the loop spins: each
      iteration leaves everything as it was. */
  lemma {:induction false} Spins(c: Config, m: string, result: ParseResult, turns: nat)
    requires Wf(c) && !c.failed
    requires c.ctx.phase == GotAll || (c.ctx.phase == ExpectHeaders && !HasLine(c.unread))
    ensures !Drive(c, m, result, turns).returned
    decreases turns
  {
    if turns > 0 { Spins(c, m, result, turns - 1); }
  }

  lemma DriveHeaders(c: Config, m: string, result: ParseResult, turns: nat)
    requires Wf(c) && !c.failed && c.ctx.phase == ExpectHeaders
    ensures !BlockEnds(c.unread) ==> !Drive(c, m, result, turns).returned
    ensures BlockEnds(c.unread) && turns >= 2 ==> Drive(c, m, result, turns).returned
  {
    hide LineEnd, HasLine, RequestLine, HeaderLine, BlockEnds, HeaderLoop, BodyTurn, Step;
    if turns > 0 {
      HeaderLoopEnds(c, m);
      if !BlockEnds(c.unread) { Spins(HeaderLoop(c, m), m, result, turns - 1); }
    }
  }

  /** The call returns if and only if `Returns` held before it, and then within
      three iterations. */
  lemma ReturnsIff(c: Config, m: string)
    requires Wf(c) && !c.failed
    ensures Returns(c) ==> forall turns :: turns >= 3 ==> Drive(c, m, NeedMore, turns).returned
    ensures !Returns(c) ==> forall turns :: !Drive(c, m, NeedMore, turns).returned
  {
    forall turns: nat
      ensures Returns(c) && turns >= 3 ==> Drive(c, m, NeedMore, turns).returned
      ensures !Returns(c) ==> !Drive(c, m, NeedMore, turns).returned
    {
      ReturnsWithin(c, m, turns);
    }
  }

  lemma ReturnsWithin(c: Config, m: string, turns: nat)
    requires Wf(c) && !c.failed
    ensures Returns(c) && turns >= 3 ==> Drive(c, m, NeedMore, turns).returned
    ensures !Returns(c) ==> !Drive(c, m, NeedMore, turns).returned
  {
    hide LineEnd, RequestLine, HeaderLine, BlockEnds, HeaderLoop;
    if turns > 0 {
      match c.ctx.phase
      case ExpectRequestLine =>
        if HasLine(c.unread) && !Step(c, Some(m)).value.failed {
          DriveHeaders(Step(c, Some(m)).value, m, NeedMore, turns - 1);
        }
      case ExpectHeaders => DriveHeaders(c, m, NeedMore, turns);
      case ExpectBody =>
      case GotAll => Spins(c, m, NeedMore, turns);
    }
  }

  /** A call that returns has made every turn of the parser, is never left in the
      header block, and its result names the state it is left in. */
  lemma {:induction false} ReturnedMeansRun(c: Config, m: string, result: ParseResult, turns: nat)
    requires Wf(c) && !c.failed && Drive(c, m, result, turns).returned
    requires result in {NeedMore, HeadersComplete}
    requires c.ctx.phase == ExpectHeaders || c.ctx.phase == ExpectRequestLine ==> result == NeedMore
    ensures var o := Drive(c, m, result, turns);
            && o.config == Run(c, Some(m))
            && o.config.ctx.phase != ExpectHeaders
            && (o.result == Error <==> o.config.failed)
            && (o.result == GotRequest <==> o.config.ctx.phase == GotAll)
            && (o.result == NeedMore && result == NeedMore && c.ctx.phase != ExpectBody ==>
                  o.config.ctx.phase == ExpectRequestLine)
            && (o.result == HeadersComplete ==> o.config.ctx.phase == ExpectBody)
    decreases turns
  {
    hide LineEnd, RequestLine, HeaderLine, HeaderLoop, BlockEnds;
    if c.ctx.phase == ExpectRequestLine {
      if HasLine(c.unread) {
        var d := Step(c, Some(m)).value;
        if !d.failed { ReturnedMeansRun(d, m, result, turns - 1); }
      }
    } else if c.ctx.phase == ExpectHeaders {
      var d := HeaderLoop(c, m);
      HeaderLoopEnds(c, m);
      if d.ctx.phase == ExpectHeaders {
        ReturnedMeansRun(d, m, result, turns - 1);
      } else if d.ctx.phase == ExpectBody && d.unread != "" {
        ReturnedMeansRun(d, m, HeadersComplete, turns - 1);
      }
    } else if c.ctx.phase == ExpectBody {
      BodyTurnIsRun(c, m);
    } else {
      ReturnedMeansRun(c, m, result, turns - 1);
    }
  }

  lemma BodyTurnIsRun(c: Config, m: string)
    requires Wf(c) && !c.failed && c.ctx.phase == ExpectBody
    ensures BodyTurn(c) == Run(c, Some(m))
  {
    var d := BodyTurn(c);
    assert Step(d, Some(m)).None?;
  }
}
