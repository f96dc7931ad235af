/**
 The incremental HTTP/1.1 request parser as a state machine on values:
 what one turn of the parser's loop does to the context and the unread bytes,
 what a sequence of such turns reaches, and when that depends on where the stream
 is cut. Which turns the calls of the program make is in ParserCalls. The class in
 HttpContext.dfy is proved against it.
 */
module HttpParser {
  import opened Bytes
  import opened Options

  datatype Method = Invalid | Get | Post | Head | Put | Delete
  datatype Version = Unknown | Http10 | Http11
  datatype Phase = ExpectRequestLine | ExpectHeaders | ExpectBody | GotAll

  datatype Request = Request(
    meth: Method,
    version: Version,
    path: string,
    query: string,
    body: string,
    headers: map<string, string>)

  /** `contentLength` is always `Some` in the program; `None` marks a length
      the bytes of the stream do not determine (see `HeaderLength`). */
  datatype Context = Context(
    phase: Phase,
    request: Request,
    contentLength: Option<nat>,
    bodyReceived: nat,
    chunked: bool)

  /** A context with the bytes it has not consumed. `failed` is set when the call
      ended with a bad request line; what the next call does with that line is in
      ParserCalls. */
  datatype Config = Config(ctx: Context, unread: string, failed: bool)

  const EMPTY_REQUEST := Request(Invalid, Unknown, "", "", "", map[])
  const FRESH := Context(ExpectRequestLine, EMPTY_REQUEST, Some(0), 0, false)
  const CRLF := "\r\n"

  // ------------------------------------------------------------- text of one line

  predicate IsSpace(c: char) { c == ' ' || 9 <= c as int <= 13 }

  function SkipSpaces(s: string): (r: string)
    ensures |r| <= |s| && r == s[|s| - |r|..]
    ensures r != [] ==> !IsSpace(r[0])
  {
    if s == [] || !IsSpace(s[0]) then s else SkipSpaces(s[1..])
  }

  lemma {:induction false} SkipThrough(s: string, t: string)
    ensures SkipSpaces(s + t) == if SkipSpaces(s) != "" then SkipSpaces(s) + t else SkipSpaces(t)
  {
    if s == "" {
      assert s + t == t;
    } else {
      assert (s + t)[1..] == s[1..] + t;
      if IsSpace(s[0]) { SkipThrough(s[1..], t); }
    }
  }

  function TrimRight(s: string): (r: string)
    ensures r <= s
    ensures r != [] ==> !IsSpace(r[|r| - 1])
  {
    if s == [] || !IsSpace(s[|s| - 1]) then s else TrimRight(s[..|s| - 1])
  }

  function LowerChar(c: char): char {
    if 'A' <= c <= 'Z' then (c as int + 32) as char else c
  }

  function Lower(s: string): string {
    seq(|s|, i requires 0 <= i < |s| => LowerChar(s[i]))
  }

  /** What a C string function sees of a `std::string`. */
  function UpToNul(s: string): string { s[..IndexOf(s, '\0')] }

  predicate SameNoCase(s: string, name: string) { Lower(UpToNul(s)) == Lower(name) }

  function MethodOf(s: string): Method {
    if s == "GET" then Get
    else if s == "POST" then Post
    else if s == "HEAD" then Head
    else if s == "PUT" then Put
    else if s == "DELETE" then Delete
    else Invalid
  }

  /** `methodString` */
  function MethodString(m: Method): string {
    match m
    case Get => "GET"
    case Post => "POST"
    case Head => "HEAD"
    case Put => "PUT"
    case Delete => "DELETE"
    case Invalid => "UNKNOWN"
  }

  /** The names of the known methods, and no other text, name a method. */
  lemma MethodNames(s: string, m: Method)
    requires m != Invalid
    ensures MethodOf(s) == m <==> MethodString(m) == s
    ensures MethodOf(s) == Invalid <==> forall k :: k != Invalid ==> MethodString(k) != s
    ensures MethodString(Get) == "GET" && MethodString(Post) == "POST" && MethodString(Head) == "HEAD"
    ensures MethodString(Put) == "PUT" && MethodString(Delete) == "DELETE"
  {
    assert forall k :: k != Invalid ==> MethodOf(MethodString(k)) == k;
    if MethodOf(s) != Invalid { assert MethodString(MethodOf(s)) == s; }
  }

  /** The request line: method, target split at '?', version. A rejected line
      may already have changed the request. */
  function RequestLine(r: Request, line: string): (res: (bool, Request))
    ensures res.0 ==> res.1.meth != Invalid && res.1.version != Unknown
    ensures res.1.body == r.body && res.1.headers == r.headers
    ensures '?' !in r.path ==> '?' !in res.1.path
    ensures res.1.query == r.query || (res.1.query != "" && res.1.query[0] == '?')
  {
    var sp := IndexOf(line, ' ');
    if sp == |line| then (false, r) else
    var r1 := r.(meth := MethodOf(line[..sp]));
    if r1.meth == Invalid then (false, r1) else
    var rest := line[sp + 1..];
    var sp2 := IndexOf(rest, ' ');
    if sp2 == |rest| then (false, r1) else
    var r2 := SetTarget(r1, rest[..sp2]);
    var version := VersionOf(rest[sp2 + 1..]);
    if version == Unknown then (false, r2) else (true, r2.(version := version))
  }

  function VersionOf(s: string): Version {
    if |s| == 8 && s[..7] == "HTTP/1." && s[7] == '1' then Http11
    else if |s| == 8 && s[..7] == "HTTP/1." && s[7] == '0' then Http10
    else Unknown
  }

  function SetTarget(r: Request, target: string): Request {
    var q := IndexOf(target, '?');
    if q == |target| then r.(path := target)
    else r.(path := target[..q], query := target[q..])
  }

  // -------------------------------------------------- atoi, as the C library has it

  const INT64_MAX := 0x7FFF_FFFF_FFFF_FFFF
  const TWO_32 := 0x1_0000_0000
  const TWO_64 := 0x1_0000_0000_0000_0000

  function LeadingNumber(s: string, acc: nat): nat {
    if s == [] || !('0' <= s[0] <= '9') then acc
    else LeadingNumber(s[1..], 10 * acc + (s[0] as int - '0' as int))
  }

  function SignedNumber(t: string): int {
    if t != [] && t[0] == '-' then 0 - LeadingNumber(t[1..], 0)
    else if t != [] && t[0] == '+' then LeadingNumber(t[1..], 0)
    else LeadingNumber(t, 0)
  }

  /** The number `strtol` reads: spaces, a sign, digits. */
  function ReadNumber(s: string): int { SignedNumber(SkipSpaces(s)) }

  /** A 64-bit long that saturates, cut to 32 bits. */
  function Narrow(n: int): int {
    var long := if n > INT64_MAX then INT64_MAX else if n < -INT64_MAX - 1 then -INT64_MAX - 1 else n;
    var low := long % TWO_32;
    if low >= TWO_32 / 2 then low - TWO_32 else low
  }

  function Atoi(s: string): int { Narrow(ReadNumber(s)) }

  /** The cast of that int to `size_t`: a negative length becomes huge. */
  function SizeOf(i: int): nat { i % TWO_64 }

  /** `atoi` starts at the first byte of the value that is not a space and runs
      over whatever memory follows. `after` is that memory behind the CRLF. A
      value of spaces only makes it read the next line, or memory that was never
      received: without `after`, the length is then undetermined. */
  function HeaderLength(value: string, after: Option<string>): Option<nat> {
    match after
    case Some(m) => Some(SizeOf(Atoi(value + CRLF + m)))
    case None => if value == "" then None else Some(SizeOf(Atoi(value)))
  }

  lemma {:induction false} NumberStops(s: string, m: string, acc: nat)
    ensures LeadingNumber(s + CRLF + m, acc) == LeadingNumber(s, acc)
  {
    var t := s + CRLF + m;
    if s == [] {
      assert t[0] == '\r';
    } else {
      assert t[1..] == s[1..] + CRLF + m;
      if '0' <= s[0] <= '9' {
        NumberStops(s[1..], m, 10 * acc + (s[0] as int - '0' as int));
      }
    }
  }

  /** A value that is not blank stops `atoi` at its own CR at the latest. */
  lemma LengthStops(value: string, m: string)
    requires value != "" && !IsSpace(value[0])
    ensures HeaderLength(value, Some(m)) == HeaderLength(value, None)
  {
    hide Narrow, SignedNumber, IsSpace;
    SignedStops(value, m);
    NoSpace(value);
    NoSpace(value + CRLF + m);
  }

  lemma SignedStops(value: string, m: string)
    requires value != ""
    ensures SignedNumber(value + CRLF + m) == SignedNumber(value)
  {
    hide LeadingNumber;
    var t := value + CRLF + m;
    assert t[0] == value[0] && t[1..] == value[1..] + CRLF + m;
    NumberStops(value, m, 0);
    NumberStops(value[1..], m, 0);
  }

  // ------------------------------------------------------------------ one header

  predicate HasColon(line: string) { IndexOf(line, ':') < |line| }

  function FieldOf(line: string): string { line[..IndexOf(line, ':')] }

  function ValueOf(line: string): string
    requires HasColon(line)
  {
    SkipSpaces(line[IndexOf(line, ':') + 1..])
  }

  predicate IsLengthLine(line: string)
    ensures IsLengthLine(line) ==> HasColon(line)
  {
    HasColon(line) && SameNoCase(FieldOf(line), "Content-Length")
  }

  function HeaderLine(ctx: Context, line: string, after: Option<string>): (r: Context)
    requires HasColon(line)
    ensures r.phase == ctx.phase && r.bodyReceived == ctx.bodyReceived
    ensures ctx.contentLength.Some? && after.Some? ==> r.contentLength.Some?
    ensures !IsLengthLine(line) ==> r.contentLength == ctx.contentLength
    ensures IsLengthLine(line) ==> r.contentLength == HeaderLength(ValueOf(line), after)
  {
    var value := ValueOf(line);
    var ctx' := ctx.(request := ctx.request.(headers := ctx.request.headers[FieldOf(line) := TrimRight(value)]));
    if IsLengthLine(line) then
      ctx'.(contentLength := HeaderLength(value, after))
    else if SameNoCase(FieldOf(line), "Transfer-Encoding") && SameNoCase(value, "chunked") then
      ctx'.(chunked := true)
    else ctx'
  }

  /** The first line without a colon ends the header block, empty or not. */
  function EndHeaders(ctx: Context): Context {
    ctx.(phase := if ctx.contentLength == Some(0) && !ctx.chunked then GotAll else ExpectBody)
  }

  // --------------------------------------------------------------- one loop turn

  /** What every reachable context keeps. */
  predicate Wf(c: Config) {
    && (c.ctx.phase == ExpectRequestLine && !c.failed ==> c.ctx.request.meth == Invalid)
    && (c.ctx.phase in {ExpectRequestLine, ExpectHeaders} ==> c.ctx.bodyReceived == 0)
    && (c.ctx.contentLength.Some? ==> c.ctx.bodyReceived <= c.ctx.contentLength.value)
  }

  function Memory(rest: string, beyond: Option<string>): Option<string> {
    if beyond.None? then None else Some(rest + beyond.value)
  }

  /** Where the first line ends, or `|u|`. */
  function LineEnd(u: string): (i: nat)
    ensures i == |u| || i + 2 <= |u|
  {
    Search(u, CRLF)
  }

  predicate HasLine(u: string) { LineEnd(u) < |u| }

  function Line(u: string): string
    requires HasLine(u)
  {
    u[..LineEnd(u)]
  }

  function AfterLine(u: string): (r: string)
    requires HasLine(u)
    ensures |r| < |u|
  {
    u[LineEnd(u) + 2..]
  }

  function RequestStep(c: Config): Option<Config> {
    if !HasLine(c.unread) then None else
    var (ok, r) := RequestLine(c.ctx.request, Line(c.unread));
    if ok then Some(Config(c.ctx.(request := r, phase := ExpectHeaders), AfterLine(c.unread), false))
    else Some(Config(c.ctx.(request := r), c.unread, true))
  }

  function HeaderStep(c: Config, beyond: Option<string>): Option<Config> {
    if !HasLine(c.unread) then None else
    var line, rest := Line(c.unread), AfterLine(c.unread);
    var ctx := if HasColon(line) then HeaderLine(c.ctx, line, Memory(rest, beyond)) else EndHeaders(c.ctx);
    Some(Config(ctx, rest, false))
  }

  function BodyStep(c: Config): Option<Config>
    requires Wf(c)
  {
    if c.ctx.chunked || c.ctx.contentLength.None? then None else
    var n := ToRead(c);
    if n == 0 && c.ctx.bodyReceived < c.ctx.contentLength.value then None
    else Some(Config(TakeBody(c.ctx, c.unread[..n]), c.unread[n..], false))
  }

  /** One turn of the parser, or `None` when it has to wait for bytes (or is
      done). `beyond` is the memory behind the last unread byte; `None` asks for
      the outcome as far as the stream alone determines it. */
  function Step(c: Config, beyond: Option<string>): (d: Option<Config>)
    requires Wf(c)
    ensures d.Some? ==> Wf(d.value)
    ensures d.Some? ==> Rank(d.value) < Rank(c) || (Rank(d.value) == Rank(c) && |d.value.unread| < |c.unread|)
    ensures d.Some? && c.ctx.contentLength.Some? && beyond.Some? ==> d.value.ctx.contentLength.Some?
  {
    if c.failed then None else
    match c.ctx.phase
    case ExpectRequestLine => RequestStep(c)
    case ExpectHeaders => HeaderStep(c, beyond)
    case ExpectBody => BodyStep(c)
    case GotAll => None
  }

  function ToRead(c: Config): (n: nat)
    requires Wf(c) && c.ctx.contentLength.Some?
    ensures n <= |c.unread| && c.ctx.bodyReceived + n <= c.ctx.contentLength.value
  {
    var remaining := c.ctx.contentLength.value - c.ctx.bodyReceived;
    if |c.unread| < remaining then |c.unread| else remaining
  }

  function TakeBody(ctx: Context, bytes: string): Context
    requires ctx.contentLength.Some?
  {
    var received := ctx.bodyReceived + |bytes|;
    ctx.(request := ctx.request.(body := ctx.request.body + bytes),
         bodyReceived := received,
         phase := if received >= ctx.contentLength.value then GotAll else ExpectBody)
  }

  function Rank(c: Config): nat {
    if c.failed then 0 else
    match c.ctx.phase
    case ExpectRequestLine => 3
    case ExpectHeaders => 2
    case ExpectBody => 1
    case GotAll => 0
  }

  /** Turns until none is possible. */
  function Run(c: Config, beyond: Option<string>): (d: Config)
    requires Wf(c)
    ensures Wf(d) && Step(d, beyond).None?
    ensures c.ctx.contentLength.Some? && beyond.Some? ==> d.ctx.contentLength.Some?
    decreases Rank(c), |c.unread|
  {
    match Step(c, beyond)
    case None => c
    case Some(d) => Run(d, beyond)
  }

  lemma RunStep(c: Config, beyond: Option<string>)
    requires Wf(c)
    ensures Run(c, beyond) == (if Step(c, beyond).None? then c else Run(Step(c, beyond).value, beyond))
  {
  }

  // ---------------------------------------------------------- split independence

  function Feed(c: Config, bytes: string): Config { c.(unread := c.unread + bytes) }

  lemma LineOfMore(u: string, s: string)
    requires HasLine(u)
    ensures HasLine(u + s) && Line(u + s) == Line(u) && AfterLine(u + s) == AfterLine(u) + s
  {
    SearchInPrefix(u, s, CRLF);
  }

  lemma StepOnMore(c: Config, s: string)
    requires Wf(c) && Step(c, None).Some?
    requires c.ctx.phase == ExpectBody ==> |c.unread| >= c.ctx.contentLength.value - c.ctx.bodyReceived
    ensures Step(Feed(c, s), None) == Some(Feed(Step(c, None).value, s))
  {
    var u := c.unread;
    if c.ctx.phase == ExpectBody {
      var n := ToRead(c);
      assert (u + s)[..n] == u[..n] && (u + s)[n..] == u[n..] + s;
    } else {
      LineOfMore(u, s);
      hide HasLine, Line, AfterLine, RequestLine, HeaderLine;
    }
  }

  /** Parsing what has arrived first, and the rest when it comes, is parsing all
      of it at once. */
  lemma {:induction false} FeedRun(c: Config, s: string)
    requires Wf(c)
    ensures Run(Feed(c, s), None) == Run(Feed(Run(c, None), s), None)
    decreases Rank(c), |c.unread|
  {
    if Step(c, None).Some? {
      var d := Step(c, None).value;
      FeedRun(d, s);
      if c.ctx.phase == ExpectBody && |c.unread| < c.ctx.contentLength.value - c.ctx.bodyReceived {
        if s == "" {
          assert Feed(c, s) == c && Feed(d, s) == d;
        } else {
          BodyInTwo(c, s);
        }
      } else {
        StepOnMore(c, s);
      }
    }
  }

  lemma TakeTwice(ctx: Context, u: string, v: string)
    requires ctx.contentLength.Some?
    ensures TakeBody(TakeBody(ctx, u), v) == TakeBody(ctx, u + v)
  {
    assert ctx.request.body + (u + v) == ctx.request.body + u + v;
  }

  /** A body read in two portions is the body read in one. */
  lemma BodyInTwo(c: Config, s: string)
    requires Wf(c) && s != "" && c.ctx.phase == ExpectBody && Step(c, None).Some?
    requires |c.unread| < c.ctx.contentLength.value - c.ctx.bodyReceived
    ensures Step(Feed(c, s), None) == Step(Feed(Step(c, None).value, s), None)
  {
    hide RequestStep, HeaderStep;
    var u, d := c.unread, Step(c, None).value;
    assert u[..|u|] == u;
    assert d == Config(TakeBody(c.ctx, u), "", false) && Feed(d, s).unread == s;
    var n, k := ToRead(Feed(c, s)), ToRead(Feed(d, s));
    assert n == |u| + k;
    assert (u + s)[..n] == u + s[..k] && (u + s)[n..] == s[k..];
    TakeTwice(c.ctx, u, s[..k]);
    hide TakeBody;
  }

  /** One call of the parser: the bytes that arrived, and what lies in memory
      behind them. */
  datatype Piece = Piece(bytes: string, beyond: string)

  function Joined(ps: seq<Piece>): string {
    if ps == [] then "" else ps[0].bytes + Joined(ps[1..])
  }

  function RunPieces(c: Config, ps: seq<Piece>): (d: Config)
    requires Wf(c)
    ensures Wf(d)
    ensures c.ctx.contentLength.Some? ==> d.ctx.contentLength.Some?
    decreases |ps|
  {
    if ps == [] then c
    else RunPieces(Run(Feed(c, ps[0].bytes), Some(ps[0].beyond)), ps[1..])
  }

  /** `k` is a configuration of the program and `a` what the stream alone says of it. */
  predicate Determines(a: Config, k: Config) {
    && k.ctx.contentLength.Some? && a.unread == k.unread && a.failed == k.failed
    && (a.ctx == k.ctx || (a.ctx.contentLength.None? && a.ctx == k.ctx.(contentLength := None)))
  }

  /** In the body with an undetermined length, the stream says no more. */
  predicate Blind(a: Config) {
    !a.failed && a.ctx.phase in {ExpectBody, GotAll} && a.ctx.contentLength.None?
  }

  lemma HeaderDetermined(a: Context, k: Context, line: string, after: string)
    requires HasColon(line) && k.contentLength.Some?
    requires a == k || (a.contentLength.None? && a == k.(contentLength := None))
    ensures var a', k' := HeaderLine(a, line, None), HeaderLine(k, line, Some(after));
            a' == k' || (a'.contentLength.None? && a' == k'.(contentLength := None))
  {
    if IsLengthLine(line) && ValueOf(line) != "" {
      LengthStops(ValueOf(line), after);
    }
  }

  lemma StepDetermined(a: Config, k: Config, m: string)
    requires Wf(a) && Wf(k) && Determines(a, k) && !Blind(a)
    ensures Step(a, None).Some? == Step(k, Some(m)).Some?
    ensures Step(a, None).Some? ==>
              Blind(Step(a, None).value) || Determines(Step(a, None).value, Step(k, Some(m)).value)
  {
    hide LineEnd, RequestLine, IsLengthLine, ValueOf;
    if a.ctx.phase == ExpectHeaders && HasLine(a.unread) && HasColon(Line(a.unread)) {
      HeaderDetermined(a.ctx, k.ctx, Line(a.unread), AfterLine(a.unread) + m);
    }
  }

  lemma {:induction false} RunDetermined(a: Config, k: Config, m: string)
    requires Wf(a) && Wf(k) && (Blind(a) || Determines(a, k))
    ensures Blind(Run(a, None)) || Determines(Run(a, None), Run(k, Some(m)))
    decreases Rank(a), |a.unread|
  {
    if !Blind(a) {
      StepDetermined(a, k, m);
      if Step(a, None).Some? {
        RunDetermined(Step(a, None).value, Step(k, Some(m)).value, m);
      }
    }
  }

  lemma {:induction false} PiecesDetermined(a: Config, k: Config, ps: seq<Piece>)
    requires Wf(a) && Wf(k) && (Blind(a) || Determines(a, k)) && ps != []
    ensures var z := Run(Feed(a, Joined(ps)), None);
            Blind(z) || Determines(z, RunPieces(k, ps))
    decreases |ps|
  {
    var s, rest := ps[0].bytes, Joined(ps[1..]);
    var a1, k1 := Run(Feed(a, s), None), Run(Feed(k, s), Some(ps[0].beyond));
    RunDetermined(Feed(a, s), Feed(k, s), ps[0].beyond);
    FeedRun(Feed(a, s), rest);
    assert Feed(Feed(a, s), rest) == Feed(a, Joined(ps)) by {
      assert a.unread + s + rest == a.unread + (s + rest);
    }
    if |ps| == 1 {
      assert rest == "" && Feed(a1, "") == a1;
    } else {
      PiecesDetermined(a1, k1, ps[1..]);
    }
  }

  // --------------------------------------- when the stream determines the length

  /** Where the final Content-Length comes from: no such header was read, the
      last one read had a blank value, or the last one read had a number. */
  datatype LengthSource = Kept | Blank | Given

  function LengthFrom(c: Config): LengthSource
    requires Wf(c)
    decreases Rank(c), |c.unread|
  {
    if Step(c, None).None? then Kept else
    var later := LengthFrom(Step(c, None).value);
    if later != Kept || c.ctx.phase != ExpectHeaders then later else
    SourceOf(Line(c.unread))
  }

  function SourceOf(line: string): LengthSource {
    if !IsLengthLine(line) then Kept else if ValueOf(line) == "" then Blank else Given
  }

  lemma {:induction false} LengthFromRun(c: Config)
    requires Wf(c)
    ensures match LengthFrom(c)
            case Kept => Run(c, None).ctx.contentLength == c.ctx.contentLength
            case Blank => Run(c, None).ctx.contentLength.None?
            case Given => Run(c, None).ctx.contentLength.Some?
    decreases Rank(c), |c.unread|
  {
    hide LineEnd, RequestLine, HeaderLine, IsLengthLine, ValueOf;
    if Step(c, None).Some? { LengthFromRun(Step(c, None).value); }
  }

  /** For every context with a length, every stream, and every way to cut it:
      unless the last Content-Length header read has a blank value, parsing the
      pieces ends in the same context and the same unread bytes as one pass over
      the whole, whatever memory lies behind each piece. */
  lemma SplitIndependence(c: Config, ps: seq<Piece>)
    requires Wf(c) && c.ctx.contentLength.Some? && ps != []
    requires LengthFrom(Feed(c, Joined(ps))) != Blank
    ensures RunPieces(c, ps) == Run(Feed(c, Joined(ps)), None)
    ensures RunPieces(c, ps).ctx.bodyReceived <= RunPieces(c, ps).ctx.contentLength.value
  {
    PiecesDetermined(c, c, ps);
    LengthFromRun(Feed(c, Joined(ps)));
  }

  function WithLength(c: Config, n: nat): Config {
    c.(ctx := c.ctx.(contentLength := Some(n)))
  }

  lemma {:induction false} KeptWhateverLength(c: Config, n: nat, m: string)
    requires Wf(c) && LengthFrom(c) == Kept && c.ctx.phase == ExpectHeaders
    ensures Run(WithLength(c, n), Some(m)).ctx.contentLength == Some(n)
    decreases Rank(c), |c.unread|
  {
    hide LineEnd, RequestLine, HeaderLine, IsLengthLine, ValueOf;
    if Step(c, None).Some? {
      var d, e := Step(c, None).value, Step(WithLength(c, n), Some(m)).value;
      if d.ctx.phase == ExpectHeaders {
        OtherLine(c, n, m);
        KeptWhateverLength(d, n, m);
      } else {
        BodyKeepsLength(e, m);
      }
    }
  }

  /** A header line that is not a Content-Length treats every length alike. */
  lemma OtherLine(c: Config, n: nat, m: string)
    requires Wf(c) && c.ctx.phase == ExpectHeaders && !c.failed && HasLine(c.unread)
    requires HasColon(Line(c.unread)) && !IsLengthLine(Line(c.unread))
    ensures Step(WithLength(c, n), Some(m)) == Some(WithLength(Step(c, None).value, n))
    ensures Step(WithLength(c, n), None) == Some(WithLength(Step(c, None).value, n))
  {
  }

  /** A Content-Length line forgets the old length. */
  lemma LengthLine(c: Config, n: nat)
    requires Wf(c) && c.ctx.phase == ExpectHeaders && !c.failed && HasLine(c.unread)
    requires HasColon(Line(c.unread)) && IsLengthLine(Line(c.unread))
    ensures Step(WithLength(c, n), None) == Step(c, None)
  {
  }

  lemma {:induction false} BodyKeepsLength(c: Config, m: string)
    requires Wf(c) && c.ctx.phase in {ExpectBody, GotAll}
    ensures Run(c, Some(m)).ctx.contentLength == c.ctx.contentLength
    decreases Rank(c), |c.unread|
  {
    if Step(c, Some(m)).Some? { BodyKeepsLength(Step(c, Some(m)).value, m); }
  }

  lemma {:induction false} NoBlankInBody(c: Config)
    requires Wf(c)
    ensures (c.failed || c.ctx.phase in {ExpectBody, GotAll}) ==> LengthFrom(c) == Kept
    decreases Rank(c), |c.unread|
  {
    hide LineEnd, RequestLine, HeaderLine, SourceOf;
    if !c.failed && c.ctx.phase == ExpectBody && Step(c, None).Some? {
      NoBlankInBody(Step(c, None).value);
    }
  }

  lemma {:induction false} SourceIgnoresLength(c: Config, n: nat)
    requires Wf(c) && c.ctx.phase == ExpectHeaders
    ensures LengthFrom(WithLength(c, n)) == LengthFrom(c)
    decreases Rank(c), |c.unread|
  {
    hide LineEnd, RequestLine, HeaderLine, IsLengthLine, ValueOf;
    if Step(c, None).Some? {
      var d, e := Step(c, None).value, Step(WithLength(c, n), None).value;
      if d.ctx.phase == ExpectHeaders {
        SourceIgnoresLength(d, n);
        if IsLengthLine(Line(c.unread)) {
          LengthLine(c, n);
        } else {
          OtherLine(c, n, "");
        }
      } else {
        NoBlankInBody(d);
        NoBlankInBody(e);
      }
    }
  }

  lemma BlankInHeaders(c: Config)
    requires Wf(c) && LengthFrom(c) == Blank
    ensures !c.failed && c.ctx.phase in {ExpectRequestLine, ExpectHeaders} && HasLine(c.unread)
    ensures Step(c, None).Some?
    ensures var d := Step(c, None).value;
            && !d.failed && d.ctx.phase == ExpectHeaders && d.unread == AfterLine(c.unread)
            && (LengthFrom(d) != Blank ==>
                  && LengthFrom(d) == Kept && c.ctx.phase == ExpectHeaders
                  && IsLengthLine(Line(c.unread)) && ValueOf(Line(c.unread)) == "")
  {
    hide LineEnd, RequestLine, HeaderLine, IsLengthLine, ValueOf;
    NoBlankInBody(c);
    NoBlankInBody(Step(c, None).value);
  }

  /** How many bytes the last blank Content-Length line ends at. */
  function BlankEnd(c: Config): (k: nat)
    requires Wf(c) && LengthFrom(c) == Blank
    ensures HasLine(c.unread) && LineEnd(c.unread) + 2 <= k <= |c.unread|
    decreases |c.unread|
  {
    hide LineEnd, HasLine, Step, LengthFrom;
    BlankInHeaders(c);
    var d := Step(c, None).value;
    LineEnd(c.unread) + 2 + if LengthFrom(d) == Blank then BlankEnd(d) else 0
  }

  lemma LineOfSlice(u: string, k: nat)
    requires HasLine(u) && LineEnd(u) + 2 <= k <= |u|
    ensures HasLine(u[..k]) && Line(u[..k]) == Line(u)
    ensures AfterLine(u[..k]) == AfterLine(u)[..k - LineEnd(u) - 2]
    ensures u[k..] == AfterLine(u)[k - LineEnd(u) - 2..]
  {
    var p, i := u[..k], LineEnd(u);
    assert u[0..k] == p;
    OccursInSlice(u, CRLF, 0, k, i);
    forall j | 0 <= j < i ensures !OccursAt(p, CRLF, j) { OccursInSlice(u, CRLF, 0, k, j); }
    SearchIs(p, CRLF, i);
  }

  /** The program's turn on a line that is followed by `tail` in the buffer,
      against the turn on all of the stream. */
  lemma TurnOnPrefix(c: Config, n: nat, k: nat, m: string)
    requires Wf(c) && !c.failed && c.ctx.phase in {ExpectRequestLine, ExpectHeaders} && HasLine(c.unread)
    requires LineEnd(c.unread) + 2 <= k <= |c.unread|
    requires Step(c, None).value.unread == AfterLine(c.unread) && Step(c, None).value.ctx.phase == ExpectHeaders
    ensures var c' := WithLength(c, n).(unread := c.unread[..k]);
            var d, tail := Step(c, None).value, AfterLine(c.unread)[..k - LineEnd(c.unread) - 2];
            && Step(c', Some(m)).Some? && Step(c', Some(m)).value.ctx.contentLength.Some?
            && var d' := Step(c', Some(m)).value;
            && d' == WithLength(d, d'.ctx.contentLength.value).(unread := tail)
            && c.unread[k..] == AfterLine(c.unread)[k - LineEnd(c.unread) - 2..]
            && (c.ctx.phase == ExpectHeaders && IsLengthLine(Line(c.unread)) ==>
                  d'.ctx.contentLength == HeaderLength(ValueOf(Line(c.unread)), Some(tail + m)))
  {
    LineOfSlice(c.unread, k);
    if c.ctx.phase == ExpectHeaders {
      var tail := AfterLine(c.unread)[..k - LineEnd(c.unread) - 2];
      OnlyLength(c.ctx, n, Line(c.unread), Memory(AfterLine(c.unread), None), tail + m);
    }
    hide LineEnd, HasLine, Line, AfterLine, RequestLine, HeaderLine, IsLengthLine, ValueOf, HeaderLength, HasColon;
  }

  /** What is in memory behind a header line matters for the length alone. */
  lemma OnlyLength(ctx: Context, n: nat, line: string, after: Option<string>, memory: string)
    requires HasColon(line)
    ensures var r := HeaderLine(ctx.(contentLength := Some(n)), line, Some(memory));
            r == HeaderLine(ctx, line, after).(contentLength := r.contentLength)
  {
    hide IsLengthLine, SameNoCase, HeaderLength, HasColon, FieldOf, ValueOf, TrimRight;
  }

  lemma NoLine(c: Config, m: string)
    requires Wf(c) && c.unread == "" && c.ctx.phase == ExpectHeaders
    ensures Run(c, Some(m)) == c
  {
  }

  /** Up to that point the program has taken its length from the memory behind. */
  lemma {:induction false} RunToBlank(c: Config, n: nat, m: string)
    requires Wf(c) && LengthFrom(c) == Blank
    ensures var k := BlankEnd(c);
            var d := Run(WithLength(c, n).(unread := c.unread[..k]), Some(m));
            && d.unread == "" && !d.failed && d.ctx.phase == ExpectHeaders
            && d.ctx.contentLength == HeaderLength("", Some(m))
            && LengthFrom(d.(unread := c.unread[k..])) == Kept
    decreases Rank(c), |c.unread|
  {
    hide LineEnd, HasLine, Line, AfterLine, Step, Run, LengthFrom, ValueOf, IsLengthLine, HeaderLength;
    BlankInHeaders(c);
    var k, d := BlankEnd(c), Step(c, None).value;
    TurnOnPrefix(c, n, k, m);
    var c' := WithLength(c, n).(unread := c.unread[..k]);
    var d' := Step(c', Some(m)).value;
    var n' := d'.ctx.contentLength.value;
    RunStep(c', Some(m));
    if LengthFrom(d) == Blank {
      RunToBlank(d, n', m);
    } else {
      SourceIgnoresLength(d, n');
      assert d'.unread == "" && "" + m == m;
      NoLine(d', m);
      assert d'.(unread := c.unread[k..]) == WithLength(d, n');
    }
  }

  /** And when the last Content-Length header read is blank, the turns do depend
      on the cut: cutting right behind that header, two different contents of the
      memory there give two different final contexts. No call returns at such a
      cut; see ParserCalls. */
  lemma BlankLengthSplits(c: Config, s: string) returns (k: nat)
    requires Wf(c) && c.unread == "" && c.ctx.contentLength.Some?
    requires LengthFrom(Feed(c, s)) == Blank
    ensures k <= |s|
    ensures RunPieces(c, [Piece(s[..k], "1"), Piece(s[k..], "")])
         != RunPieces(c, [Piece(s[..k], "2"), Piece(s[k..], "")])
  {
    assert Feed(c, s).unread == s;
    k := BlankEnd(Feed(c, s));
    var n1 := AfterBlank(c, s, k, "1");
    var n2 := AfterBlank(c, s, k, "2");
    assert n1 == 1 && n2 == 2 by { BlankReads("1"); BlankReads("2"); }
  }

  lemma SmallLength(n: int)
    requires 0 <= n < 10
    ensures SizeOf(Narrow(n)) == n
  {
  }

  lemma BlankReads(m: string)
    requires |m| == 1 && '0' <= m[0] <= '9'
    ensures HeaderLength("", Some(m)) == Some(m[0] as int - '0' as int)
  {
    var t := "" + CRLF + m;
    assert t[1..] == "\n" + m && t[1..][1..] == m;
    SkipSpace(t);
    SkipSpace(t[1..]);
    ReadDigit(m);
    SmallLength(m[0] as int - '0' as int);
    hide Narrow, SizeOf, ReadNumber;
  }

  lemma SkipSpace(s: string)
    requires s != [] && IsSpace(s[0])
    ensures ReadNumber(s) == ReadNumber(s[1..])
  {
  }

  lemma OneDigit(m: string)
    requires |m| == 1 && '0' <= m[0] <= '9'
    ensures LeadingNumber(m, 0) == m[0] as int - '0' as int
  {
    assert m[1..] == [];
  }

  lemma NoSpace(s: string)
    requires s != [] && !IsSpace(s[0])
    ensures SkipSpaces(s) == s
  {
  }

  lemma ReadDigit(m: string)
    requires |m| == 1 && '0' <= m[0] <= '9'
    ensures ReadNumber(m) == m[0] as int - '0' as int
  {
    OneDigit(m);
    NoSpace(m);
    hide LeadingNumber, SkipSpaces;
  }

  lemma AfterBlank(c: Config, s: string, k: nat, m: string) returns (n: nat)
    requires Wf(c) && c.unread == "" && c.ctx.contentLength.Some? && LengthFrom(Feed(c, s)) == Blank
    requires k == BlankEnd(Feed(c, s))
    ensures k <= |s| && HeaderLength("", Some(m)) == Some(n)
    ensures RunPieces(c, [Piece(s[..k], m), Piece(s[k..], "")]).ctx.contentLength == Some(n)
  {
    hide LineEnd, HasLine, Step, Run, LengthFrom, BlankEnd, HeaderLength;
    var e := Feed(c, s);
    assert e.unread == s;
    RunToBlank(e, c.ctx.contentLength.value, m);
    assert Feed(c, s[..k]) == WithLength(e, c.ctx.contentLength.value).(unread := s[..k]);
    var d := Run(Feed(c, s[..k]), Some(m));
    n := d.ctx.contentLength.value;
    var f := d.(unread := s[k..]);
    assert Feed(d, s[k..]) == f == WithLength(f, n);
    KeptWhateverLength(f, n, "");
    assert HeaderLength("", Some(m)) == d.ctx.contentLength;
    var ps := [Piece(s[..k], m), Piece(s[k..], "")];
    assert ps[1..] == [Piece(s[k..], "")] && ps[1..][1..] == [];
    assert RunPieces(c, ps) == RunPieces(d, ps[1..]) == RunPieces(Run(Feed(d, s[k..]), Some("")), []);
  }

  ghost predicate SameForEveryCut(c: Config, s: string)
    requires Wf(c)
  {
    forall ps, qs :: ps != [] && qs != [] && Joined(ps) == s && Joined(qs) == s ==> RunPieces(c, ps) == RunPieces(c, qs)
  }

  /** The exact condition for the turns to be independent of the cuts, those at
      which a call would not return included. */
  lemma SplitIndependentIff(c: Config, s: string)
    requires Wf(c) && c.unread == "" && c.ctx.contentLength.Some?
    ensures SameForEveryCut(c, s) <==> LengthFrom(Feed(c, s)) != Blank
  {
    hide LengthFrom, RunPieces, Joined;
    if LengthFrom(Feed(c, s)) == Blank {
      var k := BlankLengthSplits(c, s);
      var ps, qs := [Piece(s[..k], "1"), Piece(s[k..], "")], [Piece(s[..k], "2"), Piece(s[k..], "")];
      JoinedTwo(ps[0], ps[1]);
      JoinedTwo(qs[0], qs[1]);
      assert Joined(ps) == s && Joined(qs) == s;
    } else {
      forall ps, qs | ps != [] && qs != [] && Joined(ps) == s && Joined(qs) == s
        ensures RunPieces(c, ps) == RunPieces(c, qs)
      {
        SplitIndependence(c, ps);
        SplitIndependence(c, qs);
      }
    }
  }

  lemma JoinedTwo(p: Piece, q: Piece)
    ensures Joined([p, q]) == p.bytes + q.bytes
  {
    assert [p, q][1..] == [q] && [q][1..] == [];
    assert Joined([q]) == q.bytes + "" == q.bytes;
  }
}
