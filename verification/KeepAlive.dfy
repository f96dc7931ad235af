/**
 Reuse of one parser context for all requests of a connection: after any number
 of resets the next request is parsed as in a fresh context, although `reset()`
 leaves the old path behind as the query.
 */
module KeepAlive {
  import opened Bytes
  import opened HttpParser
  import opened Options

  /** `reset()` swaps the request with a fresh one, except that the two swaps of
      `path_` and `query_` leave the old path behind as the query. (The path
      parameters, which are not swapped, are set by the router and are no part of
      a parsed request.) */
  function Reset(ctx: Context): Context {
    FRESH.(request := EMPTY_REQUEST.(query := ctx.request.path))
  }

  /** A query string that `getQuery` looks into. */
  predicate Marked(query: string) { query != "" && query[0] == '?' }

  /** The parameters of a query: split at every '&'. */
  function Split(q: string): (r: seq<string>)
    ensures r != []
  {
    var i := IndexOf(q, '&');
    if i == |q| then [q] else [q[..i]] + Split(q[i + 1..])
  }

  lemma SplitAt(q: string, start: nat, end: nat)
    requires start <= end <= |q| && end == start + IndexOf(q[start..], '&')
    ensures end < |q| ==> Split(q[start..]) == [q[start..end]] + Split(q[end + 1..])
    ensures end == |q| ==> Split(q[start..]) == [q[start..]]
  {
    if end < |q| {
      assert q[start..][end - start + 1..] == q[end + 1..];
      assert q[start..][..end - start] == q[start..end];
    }
  }

  /** The first parameter that names the key decides. */
  function Lookup(params: seq<string>, key: string, default: string, urlDecode: string -> string): string {
    if params == [] then default else
    var p := params[0];
    var e := IndexOf(p, '=');
    if e < |p| && p[..e] == key then urlDecode(p[e + 1..])
    else if e == |p| && p == key then "true"
    else Lookup(params[1..], key, default, urlDecode)
  }

  function GetQuery(query: string, key: string, default: string, urlDecode: string -> string): string {
    if !Marked(query) then default else Lookup(Split(query[1..]), key, default, urlDecode)
  }

  // ---------------------------------------------------------- a query, as a text

  /** The parameters joined with '&'. */
  function Joined(params: seq<string>): string
    requires params != []
  {
    if |params| == 1 then params[0] else params[0] + "&" + Joined(params[1..])
  }

  /** Splitting takes a query apart at every '&' ... */
  lemma {:induction false} SplitJoins(q: string)
    ensures Split(q) != [] && Joined(Split(q)) == q
    ensures forall i :: 0 <= i < |Split(q)| ==> '&' !in Split(q)[i]
    decreases |q|
  {
    var i := IndexOf(q, '&');
    if i < |q| {
      SplitJoins(q[i + 1..]);
      assert q == q[..i] + "&" + q[i + 1..];
      assert Split(q)[1..] == Split(q[i + 1..]);
    } else {
      assert '&' !in q;
    }
  }

  /** ... and that is the only way to take it apart. */
  lemma {:induction false} JoinSplits(params: seq<string>)
    requires params != [] && forall i :: 0 <= i < |params| ==> '&' !in params[i]
    ensures Split(Joined(params)) == params
    decreases |params|
  {
    var q, p := Joined(params), params[0];
    if |params| == 1 {
      assert '&' !in p;
    } else {
      assert q[|p|] == '&' && q[..|p|] == p && q[|p| + 1..] == Joined(params[1..]);
      assert IndexOf(q, '&') == |p| by { assert forall k :: 0 <= k < |p| ==> q[k] == p[k]; }
      JoinSplits(params[1..]);
    }
  }

  /** The parameter is the key by itself, or the key, '=' and a value. */
  predicate Names(p: string, key: string) { p == key || (|p| > |key| && p[..|key|] == key && p[|key|] == '=') }

  lemma OneParameter(p: string, key: string)
    requires '=' !in key
    ensures var e := IndexOf(p, '=');
            && (e < |p| && p[..e] == key <==> |p| > |key| && p[..|key|] == key && p[|key|] == '=')
            && (e == |p| && p == key <==> p == key)
            && (e < |p| && p[..e] == key ==> p[e + 1..] == p[|key| + 1..])
  {
    var e := IndexOf(p, '=');
    if |p| > |key| && p[..|key|] == key && p[|key|] == '=' {
      assert forall k :: 0 <= k < |key| ==> p[k] == key[k];
      assert e == |key|;
    }
    if p == key { assert e == |p|; }
  }

  lemma {:induction false} LookupIs(params: seq<string>, key: string, default: string, urlDecode: string -> string,
                                    i: nat)
    requires '=' !in key && i <= |params| && forall j :: 0 <= j < i ==> !Names(params[j], key)
    ensures i == |params| ==> Lookup(params, key, default, urlDecode) == default
    ensures i < |params| && params[i] == key ==> Lookup(params, key, default, urlDecode) == "true"
    ensures i < |params| && Names(params[i], key) && params[i] != key ==>
              Lookup(params, key, default, urlDecode) == urlDecode(params[i][|key| + 1..])
    decreases i
  {
    hide IndexOf;
    if params != [] {
      OneParameter(params[0], key);
      if i > 0 {
        assert forall j :: 0 <= j < i - 1 ==> params[1..][j] == params[j + 1];
        LookupIs(params[1..], key, default, urlDecode, i - 1);
      }
    }
  }

  lemma {:induction false} NoSuchKey(params: seq<string>, key: string, default: string, urlDecode: string -> string)
    requires '=' in key
    ensures Lookup(params, key, default, urlDecode) == default
  {
    if params != [] {
      var p := params[0];
      var e := IndexOf(p, '=');
      assert '=' !in p[..e];
      NoSuchKey(params[1..], key, default, urlDecode);
    }
  }

  /** What `getQuery` answers, for any query text that is "?" and parameters joined with
      '&': the decoded value of the first one that is the key, '=' and a value; "true",
      if the key by itself comes first; and the default, if neither is there. */
  lemma QueryAnswer(params: seq<string>, key: string, default: string, urlDecode: string -> string, i: nat)
    requires params != [] && (forall j :: 0 <= j < |params| ==> '&' !in params[j])
    requires '=' !in key && i <= |params| && forall j :: 0 <= j < i ==> !Names(params[j], key)
    ensures var answer := GetQuery("?" + Joined(params), key, default, urlDecode);
            && (i == |params| ==> answer == default)
            && (i < |params| && params[i] == key ==> answer == "true")
            && forall v :: i < |params| && params[i] == key + "=" + v ==> answer == urlDecode(v)
  {
    hide Joined, Split, Lookup, Names, IndexOf;
    var q := "?" + Joined(params);
    assert q[1..] == Joined(params);
    JoinSplits(params);
    LookupIs(params, key, default, urlDecode, i);
    forall v | i < |params| && params[i] == key + "=" + v
      ensures Names(params[i], key) && params[i] != key && params[i][|key| + 1..] == v
    {
      KeyAndValue(key, v);
    }
  }

  lemma KeyAndValue(key: string, v: string)
    ensures var p := key + "=" + v; Names(p, key) && p != key && p[|key| + 1..] == v
  {
    var p := key + "=" + v;
    assert p[..|key|] == key && |p| > |key|;
  }

  /** Without the question mark, or with '=' in the key, the default. */
  lemma NoAnswer(query: string, key: string, default: string, urlDecode: string -> string)
    requires query == "" || query[0] != '?' || '=' in key
    ensures GetQuery(query, key, default, urlDecode) == default
  {
    if query != "" && query[0] == '?' { NoSuchKey(Split(query[1..]), key, default, urlDecode); }
  }

  /** For example. */
  lemma QueryExample(urlDecode: string -> string)
    ensures GetQuery("?x=1&code=abc", "code", "", urlDecode) == urlDecode("abc")
  {
    hide *;
    TwoJoined("x=1", "code=abc");
    assert "?" + ("x=1" + "&" + "code=abc") == "?x=1&code=abc" && "code=abc" == "code" + "=" + "abc";
    OtherKey();
    QueryAnswer(["x=1", "code=abc"], "code", "", urlDecode, 1);
  }

  lemma TwoJoined(a: string, b: string)
    ensures Joined([a, b]) == a + "&" + b
  {
    assert [a, b][1..] == [b];
  }

  lemma OtherKey()
    ensures !Names("x=1", "code")
  {
  }

  /** What the parser stores is the same: all fields except the query, and the query
      too unless `getQuery` ignores it in both. */
  predicate Alike(c: Config, d: Config) {
    && d == c.(ctx := c.ctx.(request := c.ctx.request.(query := d.ctx.request.query)))
    && (c.ctx.request.query == d.ctx.request.query || (!Marked(c.ctx.request.query) && !Marked(d.ctx.request.query)))
  }

  lemma RequestLineAlike(r: Request, q: string, line: string)
    ensures var (ok, x), (ok', y) := RequestLine(r, line), RequestLine(r.(query := q), line);
            && ok == ok' && y == x.(query := y.query)
            && ((x.query == y.query && Marked(x.query)) || (x.query == r.query && y.query == q))
  {
    hide MethodOf, IndexOf, VersionOf, SetTarget;
    var sp := IndexOf(line, ' ');
    if sp < |line| {
      var rest := line[sp + 1..];
      TargetAlike(r.(meth := MethodOf(line[..sp])), q, rest[..IndexOf(rest, ' ')]);
    }
  }

  lemma TargetAlike(r: Request, q: string, target: string)
    ensures var x, y := SetTarget(r, target), SetTarget(r.(query := q), target);
            && y == x.(query := y.query)
            && ((x.query == y.query && Marked(x.query)) || (x.query == r.query && y.query == q))
  {
  }

  lemma HeaderLineAlike(ctx: Context, q: string, line: string, after: Option<string>)
    requires HasColon(line)
    ensures HeaderLine(ctx.(request := ctx.request.(query := q)), line, after)
         == HeaderLine(ctx, line, after).(request := HeaderLine(ctx, line, after).request.(query := q))
    ensures HeaderLine(ctx, line, after).request.query == ctx.request.query
  {
    hide IsLengthLine, SameNoCase, HeaderLength, HasColon, FieldOf, ValueOf, TrimRight;
  }

  /** The same but for the query. */
  predicate Beside(c: Config, d: Config) {
    d == c.(ctx := c.ctx.(request := c.ctx.request.(query := d.ctx.request.query)))
  }

  /** Two queries after a turn: read from the same line, or left as they were. */
  predicate Moved(c: Config, d: Config, c': Config, d': Config) {
    && Beside(c', d')
    && var x, y := c'.ctx.request.query, d'.ctx.request.query;
       (x == y && Marked(x)) || (x == c.ctx.request.query && y == d.ctx.request.query)
  }

  lemma RequestBeside(c: Config, d: Config)
    requires Beside(c, d)
    ensures RequestStep(c).Some? == RequestStep(d).Some?
    ensures RequestStep(c).Some? ==> Moved(c, d, RequestStep(c).value, RequestStep(d).value)
  {
    if HasLine(c.unread) { RequestLineAlike(c.ctx.request, d.ctx.request.query, Line(c.unread)); }
    hide LineEnd, HasLine, Line, AfterLine, RequestLine, Marked;
  }

  lemma HeaderBeside(c: Config, d: Config, m: Option<string>)
    requires Beside(c, d)
    ensures HeaderStep(c, m).Some? == HeaderStep(d, m).Some?
    ensures HeaderStep(c, m).Some? ==> Moved(c, d, HeaderStep(c, m).value, HeaderStep(d, m).value)
  {
    if HasLine(c.unread) && HasColon(Line(c.unread)) {
      HeaderLineAlike(c.ctx, d.ctx.request.query, Line(c.unread), Memory(AfterLine(c.unread), m));
    }
    hide LineEnd, HasLine, Line, AfterLine, HeaderLine, HasColon, Memory, Marked;
  }

  /** A turn of the parser does not look at the query. */
  lemma StepBeside(c: Config, d: Config, m: Option<string>)
    requires Wf(c) && Wf(d) && Beside(c, d)
    ensures Step(c, m).Some? == Step(d, m).Some?
    ensures Step(c, m).Some? ==> Moved(c, d, Step(c, m).value, Step(d, m).value)
  {
    RequestBeside(c, d);
    HeaderBeside(c, d, m);
    hide RequestStep, HeaderStep, Marked;
  }

  lemma StepAlike(c: Config, d: Config, m: Option<string>)
    requires Wf(c) && Wf(d) && Alike(c, d)
    ensures Step(c, m).Some? == Step(d, m).Some?
    ensures Step(c, m).Some? ==> Alike(Step(c, m).value, Step(d, m).value)
  {
    StepBeside(c, d, m);
    hide Step, Marked;
  }

  lemma {:induction false} RunAlike(c: Config, d: Config, m: Option<string>)
    requires Wf(c) && Wf(d) && Alike(c, d)
    ensures Alike(Run(c, m), Run(d, m))
    decreases Rank(c), |c.unread|
  {
    StepAlike(c, d, m);
    if Step(c, m).Some? { RunAlike(Step(c, m).value, Step(d, m).value, m); }
  }

  lemma {:induction false} PiecesAlike(c: Config, d: Config, ps: seq<Piece>)
    requires Wf(c) && Wf(d) && Alike(c, d)
    ensures Alike(RunPieces(c, ps), RunPieces(d, ps))
    decreases |ps|
  {
    if ps != [] {
      var p := ps[0];
      RunAlike(Feed(c, p.bytes), Feed(d, p.bytes), Some(p.beyond));
      PiecesAlike(Run(Feed(c, p.bytes), Some(p.beyond)), Run(Feed(d, p.bytes), Some(p.beyond)), ps[1..]);
    }
  }

  /** A header line touches neither path nor body. */
  lemma HeaderLineKeeps(ctx: Context, line: string, after: Option<string>)
    requires HasColon(line)
    ensures HeaderLine(ctx, line, after).request.path == ctx.request.path
    ensures HeaderLine(ctx, line, after).request.body == ctx.request.body
  {
    hide IsLengthLine, SameNoCase, HeaderLength, HasColon, FieldOf, ValueOf, TrimRight;
  }

  lemma StepPathUnmarked(c: Config, m: Option<string>)
    requires Wf(c) && '?' !in c.ctx.request.path
    ensures Step(c, m).Some? ==> '?' !in Step(c, m).value.ctx.request.path
  {
    RequestPath(c);
    HeaderPath(c, m);
    hide RequestStep, HeaderStep, ToRead;
  }

  lemma RequestPath(c: Config)
    requires '?' !in c.ctx.request.path
    ensures RequestStep(c).Some? ==> '?' !in RequestStep(c).value.ctx.request.path
  {
    hide RequestLine, LineEnd, HasLine, Line, AfterLine;
  }

  lemma HeaderPath(c: Config, m: Option<string>)
    ensures HeaderStep(c, m).Some? ==> HeaderStep(c, m).value.ctx.request.path == c.ctx.request.path
    ensures HeaderStep(c, m).Some? ==> HeaderStep(c, m).value.ctx.request.body == c.ctx.request.body
  {
    if HasLine(c.unread) && HasColon(Line(c.unread)) {
      HeaderLineKeeps(c.ctx, Line(c.unread), Memory(AfterLine(c.unread), m));
    }
    hide HeaderLine, LineEnd, HasLine, Line, AfterLine, HasColon, Memory;
  }

  lemma {:induction false} RunPathUnmarked(c: Config, m: Option<string>)
    requires Wf(c) && '?' !in c.ctx.request.path
    ensures '?' !in Run(c, m).ctx.request.path
    decreases Rank(c), |c.unread|
  {
    StepPathUnmarked(c, m);
    hide Step;
    if Step(c, m).Some? { RunPathUnmarked(Step(c, m).value, m); }
  }

  /** What happens to a connection's context: bytes arrive, the handler has taken
      the part of a body that arrived so far, or the server has answered a complete
      request and resets the context. */
  datatype Event = Arrive(piece: Piece) | Drained | Answered

  function Handle(c: Config, e: Event): (d: Config)
    requires Wf(c)
    ensures Wf(d)
  {
    match e
    case Arrive(p) => Run(Feed(c, p.bytes), Some(p.beyond))
    case Drained => c.(ctx := c.ctx.(request := c.ctx.request.(body := "")))
    case Answered => if c.ctx.phase == GotAll && !c.failed then c.(ctx := Reset(c.ctx)) else c
  }

  function Serve(c: Config, events: seq<Event>): (d: Config)
    requires Wf(c)
    ensures Wf(d)
    decreases |events|
  {
    if events == [] then c else Serve(Handle(c, events[0]), events[1..])
  }

  lemma {:induction false} ServePathUnmarked(c: Config, events: seq<Event>)
    requires Wf(c) && '?' !in c.ctx.request.path
    ensures '?' !in Serve(c, events).ctx.request.path
    decreases |events|
  {
    if events != [] {
      if events[0].Arrive? {
        RunPathUnmarked(Feed(c, events[0].piece.bytes), Some(events[0].piece.beyond));
      }
      ServePathUnmarked(Handle(c, events[0]), events[1..]);
    }
  }

  /** Whatever the connection went through before, and after any number of
      resets, the next request is parsed as a fresh context would parse it. */
  lemma LikeFresh(events: seq<Event>, ps: seq<Piece>)
    ensures var c := Serve(Config(FRESH, "", false), events);
            c.ctx.phase == GotAll && !c.failed ==>
              var d := Handle(c, Answered);
              d.unread == c.unread && Alike(RunPieces(d, ps), RunPieces(Config(FRESH, c.unread, false), ps))
  {
    var c := Serve(Config(FRESH, "", false), events);
    ServePathUnmarked(Config(FRESH, "", false), events);
    if c.ctx.phase == GotAll && !c.failed {
      var d := c.(ctx := Reset(c.ctx));
      assert Marked(c.ctx.request.path) ==> '?' in c.ctx.request.path;
      PiecesAlike(d, Config(FRESH, c.unread, false), ps);
    }
  }

  /** ... with the same method, path, headers and body, and the same answer to
      every `getQuery`. */
  lemma SameAnswers(events: seq<Event>, ps: seq<Piece>, key: string, default: string, urlDecode: string -> string)
    ensures var c := Serve(Config(FRESH, "", false), events);
            c.ctx.phase == GotAll && !c.failed ==>
              var r := RunPieces(Handle(c, Answered), ps);
              var f := RunPieces(Config(FRESH, c.unread, false), ps);
              && r.ctx.(request := r.ctx.request.(query := "")) == f.ctx.(request := f.ctx.request.(query := ""))
              && r.unread == f.unread && r.failed == f.failed
              && GetQuery(r.ctx.request.query, key, default, urlDecode) ==
                 GetQuery(f.ctx.request.query, key, default, urlDecode)
  {
    LikeFresh(events, ps);
  }

  // ------------------------------------------------------------- the raw query

  /** `d` goes the way of `c`, with `q` for a query until one is read. */
  predicate Twin(c: Config, d: Config, q: string) {
    && d == c.(ctx := c.ctx.(request := c.ctx.request.(query := d.ctx.request.query)))
    && d.ctx.request.query == if c.ctx.request.query == "" then q else c.ctx.request.query
  }

  lemma StepTwin(c: Config, d: Config, q: string, m: Option<string>)
    requires Wf(c) && Wf(d) && Twin(c, d, q)
    ensures Step(c, m).Some? == Step(d, m).Some?
    ensures Step(c, m).Some? ==> Twin(Step(c, m).value, Step(d, m).value, q)
  {
    StepBeside(c, d, m);
    hide Step;
  }

  lemma {:induction false} RunTwin(c: Config, d: Config, q: string, m: Option<string>)
    requires Wf(c) && Wf(d) && Twin(c, d, q)
    ensures Twin(Run(c, m), Run(d, m), q)
    decreases Rank(c), |c.unread|
  {
    StepTwin(c, d, q, m);
    hide Step, Twin;
    if Step(c, m).Some? { RunTwin(Step(c, m).value, Step(d, m).value, q, m); }
  }

  lemma {:induction false} PiecesTwin(c: Config, d: Config, q: string, ps: seq<Piece>)
    requires Wf(c) && Wf(d) && Twin(c, d, q)
    ensures Twin(RunPieces(c, ps), RunPieces(d, ps), q)
    decreases |ps|
  {
    hide Run;
    if ps != [] {
      var p := ps[0];
      RunTwin(Feed(c, p.bytes), Feed(d, p.bytes), q, Some(p.beyond));
      PiecesTwin(Run(Feed(c, p.bytes), Some(p.beyond)), Run(Feed(d, p.bytes), Some(p.beyond)), q, ps[1..]);
    }
  }

  /** A handler that reads the raw query finds in it what it would in a fresh context
      if and only if the new request line has a query of its own, or the path of the
      request before was empty. */
  lemma QueryIff(events: seq<Event>, ps: seq<Piece>)
    ensures var c := Serve(Config(FRESH, "", false), events);
            c.ctx.phase == GotAll && !c.failed ==>
              var r := RunPieces(Handle(c, Answered), ps).ctx.request.query;
              var f := RunPieces(Config(FRESH, c.unread, false), ps).ctx.request.query;
              (r == f <==> f != "" || c.ctx.request.path == "") && (f == "" ==> r == c.ctx.request.path)
  {
    var c := Serve(Config(FRESH, "", false), events);
    hide Serve, RunPieces;
    if c.ctx.phase == GotAll && !c.failed {
      PiecesTwin(Config(FRESH, c.unread, false), c.(ctx := Reset(c.ctx)), c.ctx.request.path, ps);
    }
  }
}
