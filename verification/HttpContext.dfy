/**
 The parser's objects: a request whose fields the setters fill in, and the
 context that reads a `Buffer`. Each method is proved to do what the functions
 of HttpParser, ParserDriver and KeepAlive say.
 */
module HttpObjects {
  import opened Bytes
  import opened HttpParser
  import opened ParserDriver
  import opened ParserCalls
  import opened NetBuffer
  import KeepAlive
  import opened Options

  class HttpRequest {
    var meth: Method
    var version: Version
    var path: string
    var query: string
    var body: string
    var headers: map<string, string>
    var pathParams: map<string, string>   // set by the router for its handler

    function View(): Request
      reads this
    {
      Request(meth, version, path, query, body, headers)
    }

    constructor ()
      ensures View() == EMPTY_REQUEST && pathParams == map[]
    {
      pathParams := map[];
      meth, version, path, query, body, headers := Invalid, Unknown, "", "", "", map[];
    }

    /** The method with that name, if there is one. */
    method SetMethod(name: string) returns (ok: bool)
      requires meth == Invalid
      modifies this`meth
      ensures ok <==> exists m :: m != Invalid && MethodString(m) == name
      ensures ok ==> MethodString(meth) == name
      ensures ok == (meth != Invalid) && meth == MethodOf(name)
    {
      MethodNames(name, Get);
      if name == "GET" { meth := Get; }
      else if name == "POST" { meth := Post; }
      else if name == "HEAD" { meth := Head; }
      else if name == "PUT" { meth := Put; }
      else if name == "DELETE" { meth := Delete; }
      else { meth := Invalid; }
      ok := meth != Invalid;
    }

    /** One header: spaces after the colon and at the end of the line dropped. */
    method AddHeader(field: string, afterColon: string)
      modifies this`headers
      ensures headers == old(headers)[field := TrimRight(SkipSpaces(afterColon))]
    {
      var k := 0;
      while k < |afterColon| && IsSpace(afterColon[k])
        invariant k <= |afterColon| && SkipSpaces(afterColon[k..]) == SkipSpaces(afterColon)
      {
        k := k + 1;
      }
      var value := afterColon[k..];
      while value != "" && IsSpace(value[|value| - 1])
        invariant TrimRight(value) == TrimRight(SkipSpaces(afterColon))
        decreases |value|
      {
        value := value[..|value| - 1];
      }
      headers := headers[field := value];
    }

    method AppendToBody(bytes: string)
      modifies this`body
      ensures body == old(body) + bytes
    {
      body := body + bytes;
    }

    method SetPathParams(params: map<string, string>)
      modifies this`pathParams
      ensures pathParams == params
    {
      pathParams := params;
    }

    method GetPathParam(name: string) returns (value: string)
      ensures value == if name in pathParams then pathParams[name] else ""
    {
      value := if name in pathParams then pathParams[name] else "";
    }

    /** The old path ends up in `query`: `path_` is swapped with the other
        object's query, and that query then with this one. The path parameters
        stay where they are. */
    method Swap(that: HttpRequest)
      requires that != this
      modifies this, that
      ensures View() == old(that.View()).(path := old(that.query), query := old(path))
      ensures that.View() == old(View()).(path := old(that.path), query := old(query))
      ensures pathParams == old(pathParams) && that.pathParams == old(that.pathParams)
    {
      meth, that.meth := that.meth, meth;
      version, that.version := that.version, version;
      path, that.query := that.query, path;
      query, that.query := that.query, query;
      body, that.body := that.body, body;
      headers, that.headers := that.headers, headers;
    }

    static method SplitParams(q: string) returns (params: seq<string>)
      ensures params == KeepAlive.Split(q) && params != [] && KeepAlive.Joined(params) == q
      ensures forall i :: 0 <= i < |params| ==> '&' !in params[i]
    {
      KeepAlive.SplitJoins(q);
      hide KeepAlive.Split, KeepAlive.Joined, IndexOf;
      params := [];
      var start, end := 0, IndexOf(q, '&');
      assert q[0..] == q && params + KeepAlive.Split(q) == KeepAlive.Split(q);
      while end < |q|
        invariant start <= end <= |q|
        invariant end == start + IndexOf(q[start..], '&')
        invariant params + KeepAlive.Split(q[start..]) == KeepAlive.Split(q)
        decreases |q| - end
      {
        KeepAlive.SplitAt(q, start, end);
        params := params + [q[start..end]];
        start := end + 1;
        end := start + IndexOf(q[start..], '&');
      }
      KeepAlive.SplitAt(q, start, end);
      params := params + [q[start..]];
    }

    /** The value of the first parameter named `key`. */
    method GetQuery(key: string, default: string, urlDecode: string -> string) returns (r: string)
      ensures r == KeepAlive.GetQuery(query, key, default, urlDecode)
    {
      if query == "" || query[0] != '?' {
        return default;
      }
      var params := SplitParams(query[1..]);
      for i := 0 to |params|
        invariant KeepAlive.Lookup(params[i..], key, default, urlDecode)
               == KeepAlive.Lookup(params, key, default, urlDecode)
      {
        var pos := IndexOf(params[i], '=');
        assert params[i..][1..] == params[i + 1..];
        if pos < |params[i]| {
          if params[i][..pos] == key {
            return urlDecode(params[i][pos + 1..]);
          }
        } else if params[i] == key {
          return "true";
        }
      }
      return default;
    }
  }

  class HttpContext {
    var state: Phase
    const request: HttpRequest
    var contentLength: nat
    var bodyReceived: nat
    var isChunked: bool

    function View(): Context
      reads this, request
    {
      Context(state, request.View(), Some(contentLength), bodyReceived, isChunked)
    }

    /** The context together with the unread bytes of a buffer. */
    ghost function Conf(buf: Buffer): Config
      requires buf.Valid()
      reads this, request, buf, buf.data
    {
      Config(View(), buf.Contents(), false)
    }

    constructor ()
      ensures View() == FRESH && fresh(request)
    {
      state, contentLength, bodyReceived, isChunked := ExpectRequestLine, 0, 0, false;
      request := new HttpRequest();
    }

    /** `aborted`: the assertion in `setMethod` is reached and does not hold. */
    method ProcessRequestLine(line: string) returns (aborted: bool, ok: bool)
      modifies request
      ensures aborted == (HasSpace(line) && old(request.meth) != Invalid)
      ensures aborted ==> request.View() == old(request.View())
      ensures !aborted ==> (ok, request.View()) == RequestLine(old(request.View()), line)
    {
      hide MethodOf, VersionOf, SetTarget;
      aborted, ok := false, false;
      var space := IndexOf(line, ' ');
      if space < |line| {
        if request.meth != Invalid {
          aborted := true;
          return;
        }
        var known := request.SetMethod(line[..space]);
        if known {
          var rest := line[space + 1..];
          space := IndexOf(rest, ' ');
          if space < |rest| {
            TakeTarget(rest[..space]);
            ok := TakeVersion(rest[space + 1..]);
          }
        }
      }
    }

    method TakeTarget(target: string)
      modifies request`path, request`query
      ensures request.View() == SetTarget(old(request.View()), target)
    {
      var question := IndexOf(target, '?');
      if question != |target| {
        request.path := target[..question];
        request.query := target[question..];
      } else {
        request.path := target;
      }
    }

    method TakeVersion(text: string) returns (ok: bool)
      modifies request`version
      ensures ok <==> VersionOf(text) != Unknown
      ensures request.version == if ok then VersionOf(text) else old(request.version)
    {
      ok := |text| == 8 && text[..7] == "HTTP/1.";
      if ok {
        if text[7] == '1' {
          request.version := Http11;
        } else if text[7] == '0' {
          request.version := Http10;
        } else {
          ok := false;
        }
      }
    }

    /** What a header line does to the context; `memory` is what lies in the
        buffer's array from the colon's successor on. */
    method TakeHeader(line: string, ghost after: string, memory: string)
      requires HasColon(line) && memory == line[IndexOf(line, ':') + 1..] + CRLF + after
      modifies this`contentLength, this`isChunked, request`headers
      ensures View() == HeaderLine(old(View()), line, Some(after))
    {
      hide Atoi, SameNoCase, TrimRight, SkipSpaces;
      var colon := IndexOf(line, ':');
      request.AddHeader(line[..colon], line[colon + 1..]);
      if SameNoCase(line[..colon], "Content-Length") {
        contentLength := SizeOf(Atoi(memory));
        AtoiSkips(line[colon + 1..], CRLF + after);
        assert line[colon + 1..] + (CRLF + after) == memory;
        assert ValueOf(line) + (CRLF + after) == ValueOf(line) + CRLF + after;
      } else if SameNoCase(line[..colon], "Transfer-Encoding") {
        if SameNoCase(SkipSpaces(line[colon + 1..]), "chunked") {
          isChunked := true;
        }
      }
    }

    /** One complete line of the header block. */
    method ProcessHeader(buf: Buffer, crlf: nat) returns (hasMore: bool)
      requires buf.Valid() && state == ExpectHeaders
      requires HasLine(buf.Contents()) && crlf == LineEnd(buf.Contents())
      modifies this, request, buf
      ensures buf.Valid() && buf.data == old(buf.data)
      ensures var line, rest := Line(old(buf.Contents())), AfterLine(old(buf.Contents()));
              && hasMore == HasColon(line)
              && Conf(buf) == Config(
                   if hasMore then HeaderLine(old(View()), line, Some(rest + old(buf.Stale())))
                   else old(View()).(phase := ExpectBody), rest, false)
      ensures buf.Contents() != "" ==> buf.Stale() == old(buf.Stale())
    {
      ghost var u := buf.Contents();
      LineEndIs(u);
      hide LineEnd, RequestLine, HeaderLine, Line, AfterLine, HasColon, HasLine, IndexOf;
      var line := buf.Peek(crlf);
      var colon := IndexOf(line, ':');
      hasMore := colon != |line|;
      assert hasMore == HasColon(line) by { ColonIs(line); }
      if hasMore {
        var memory := buf.MemoryFrom(colon + 1);
        ghost var after := AfterLine(u) + buf.Stale();
        assert memory == line[colon + 1..] + CRLF + after by { LineAndRest(u, buf.Stale(), colon + 1); }
        TakeHeader(line, after, memory);
        buf.Retrieve(crlf + 2);
      } else {
        buf.Retrieve(crlf + 2);
        state := ExpectBody;
      }
    }

    method ProcessHeaders(buf: Buffer)
      requires buf.Valid() && Wf(Conf(buf)) && state == ExpectHeaders
      modifies this, request, buf
      ensures buf.Valid() && buf.data == old(buf.data)
      ensures var d := HeaderLoop(old(Conf(buf)), old(buf.Stale()));
              Conf(buf) == if d.ctx.phase == GotAll then d.(ctx := d.ctx.(phase := ExpectBody)) else d
      ensures buf.Contents() != "" ==> buf.Stale() == old(buf.Stale())
    {
      hide LineEnd, RequestLine, HeaderLine, HeaderLoop, HasLine, Line, AfterLine, HasColon;
      ghost var start, m := Conf(buf), buf.Stale();
      var hasMore := true;
      while hasMore
        invariant buf.Valid() && buf.data == old(buf.data) && Wf(Conf(buf))
        invariant buf.Contents() != "" ==> buf.Stale() == m
        invariant hasMore ==> state == ExpectHeaders && HeaderLoop(Conf(buf), m) == HeaderLoop(start, m)
        invariant !hasMore ==>
                    var d := HeaderLoop(start, m);
                    Conf(buf) == if d.ctx.phase == GotAll then d.(ctx := d.ctx.(phase := ExpectBody)) else d
        decreases hasMore, buf.ReadableBytes()
      {
        ghost var c := Conf(buf);
        LineEndIs(c.unread);
        var crlf := buf.FindCRLF();
        if crlf < buf.ReadableBytes() {
          HeaderTurn(c, m);
          hasMore := ProcessHeader(buf, crlf);
        } else {
          HeaderWait(c, m);
          hasMore := false;
        }
      }
    }

    method ProcessBody(buf: Buffer) returns (done: bool)
      requires buf.Valid() && Wf(Conf(buf)) && state == ExpectBody
      modifies this`bodyReceived, request`body, buf
      ensures buf.Valid() && buf.data == old(buf.data)
      ensures var d := BodyTurn(old(Conf(buf)));
              Conf(buf) == d.(ctx := d.ctx.(phase := ExpectBody))
      ensures done == (BodyTurn(old(Conf(buf))).ctx.phase == GotAll)
      ensures buf.Contents() != "" ==> buf.Stale() == old(buf.Stale())
    {
      hide LineEnd, RequestStep, HeaderStep;
      if isChunked {
        done := false;
      } else {
        var readable, remaining := buf.ReadableBytes(), contentLength - bodyReceived;
        var toRead := if readable < remaining then readable else remaining;
        BodyTurnIs(Conf(buf), toRead);
        if toRead > 0 {
          var bytes := buf.Peek(toRead);
          request.AppendToBody(bytes);
          bodyReceived := bodyReceived + toRead;
          buf.Retrieve(toRead);
        }
        done := bodyReceived >= contentLength;
      }
    }

    method TurnRequestLine(buf: Buffer) returns (aborted: bool, hasMore: bool, failed: bool)
      requires buf.Valid() && Callable(Conf(buf)) && state == ExpectRequestLine
      modifies this`state, request, buf
      ensures buf.Valid() && buf.data == old(buf.data)
      ensures aborted == AssertFails(old(Conf(buf)))
      ensures aborted ==> Conf(buf) == old(Conf(buf))
      ensures !aborted ==>
              var c := old(Conf(buf));
              var d := if HasLine(c.unread) then Step(c, Some(old(buf.Stale()))).value else c;
              && Conf(buf) == d.(failed := false) && failed == d.failed
              && hasMore == (HasLine(c.unread) && !d.failed)
      ensures |buf.Contents()| <= old(|buf.Contents()|)
      ensures buf.Contents() != "" ==> buf.Stale() == old(buf.Stale())
    {
      hide LineEnd, RequestLine, HeaderLine;
      aborted, hasMore, failed := false, false, false;
      LineEndIs(buf.Contents());
      var crlf := buf.FindCRLF();
      if crlf < buf.ReadableBytes() {
        var line := buf.Peek(crlf);
        var ok;
        aborted, ok := ProcessRequestLine(line);
        if aborted {
          return;
        }
        if ok {
          buf.Retrieve(crlf + 2);
          state := ExpectHeaders;
          hasMore := true;
        } else {
          failed := true;
        }
      }
    }

    method TurnHeaders(buf: Buffer, before: ParseResult) returns (hasMore: bool, result: ParseResult)
      requires buf.Valid() && Wf(Conf(buf)) && state == ExpectHeaders
      modifies this, request, buf
      ensures buf.Valid() && buf.data == old(buf.data)
      ensures Turned(hasMore, result, Conf(buf)) == Turn(old(Conf(buf)), old(buf.Stale()), before)
      ensures |buf.Contents()| <= old(|buf.Contents()|)
      ensures buf.Contents() != "" ==> buf.Stale() == old(buf.Stale())
    {
      hide LineEnd, RequestLine, HeaderLine, HeaderLoop;
      hasMore, result := true, before;
      ProcessHeaders(buf);
      if state == ExpectBody {
        if contentLength == 0 && !isChunked {
          state := GotAll;
          result := GotRequest;
          hasMore := false;
        } else {
          result := HeadersComplete;
          if buf.ReadableBytes() == 0 {
            hasMore := false;
          }
        }
      }
    }

    method TurnBody(buf: Buffer, before: ParseResult) returns (result: ParseResult)
      requires buf.Valid() && Wf(Conf(buf)) && state == ExpectBody
      modifies this, request, buf
      ensures buf.Valid() && buf.data == old(buf.data)
      ensures Turned(false, result, Conf(buf)) == Turn(old(Conf(buf)), old(buf.Stale()), before)
      ensures |buf.Contents()| <= old(|buf.Contents()|)
      ensures buf.Contents() != "" ==> buf.Stale() == old(buf.Stale())
    {
      hide LineEnd, RequestLine, HeaderLine, HeaderLoop, BodyTurn;
      result := before;
      ghost var d := BodyTurn(Conf(buf));
      TurnInBody(Conf(buf), buf.Stale(), result);
      hide Turn;
      var done := ProcessBody(buf);
      if done {
        state := GotAll;
        result := GotRequest;
      } else if bodyReceived < contentLength {
        result := HeadersComplete;
      }
      assert Conf(buf) == d;
    }

    /** `parseRequest`, followed for at most `turns` iterations of its loop. */
    method ParseRequest(buf: Buffer, turns: nat) returns (aborted: bool, returned: bool, result: ParseResult)
      requires buf.Valid() && Callable(Conf(buf))
      modifies this, request, buf
      ensures buf.Valid() && buf.data == old(buf.data)
      ensures aborted == (turns > 0 && AssertFails(old(Conf(buf))))
      ensures !aborted && turns > 0 ==>
              && Wf(old(Conf(buf)))
              && var o := Drive(old(Conf(buf)), old(buf.Stale()), NeedMore, turns);
              && returned == o.returned && result == o.result
              && Conf(buf) == o.config.(failed := false)
              && (result == Error <==> o.config.failed)
    {
      hide LineEnd, RequestLine, HeaderLine, HeaderLoop, BodyTurn, HasLine, AssertFails, Wf;
      ghost var start, m := Conf(buf), buf.Stale();
      ghost var fine := Wf(start);
      AbortOrWf(start);
      var hasMore := true;
      var left: nat := turns;
      aborted, result := false, NeedMore;
      while hasMore && left > 0
        invariant buf.Valid() && buf.data == old(buf.data) && !aborted
        invariant !fine ==> hasMore && left == turns && Conf(buf) == start
        invariant fine && buf.Contents() != "" ==> buf.Stale() == m
        invariant fine && hasMore ==> result != Error && Wf(Conf(buf))
        invariant fine && hasMore ==> Drive(start, m, NeedMore, turns) == Drive(Conf(buf), m, result, left)
        invariant fine && !hasMore ==>
                    var o := Drive(start, m, NeedMore, turns);
                    && o.returned && o.result == result && Conf(buf) == o.config.(failed := false)
                    && (result == Error <==> o.config.failed)
        invariant left < turns ==> fine
        invariant left <= turns
        decreases left
      {
        if fine { TurnSees(Conf(buf), buf.Stale(), m, result); }
        if state == ExpectRequestLine { AbortOrWf(Conf(buf)); }
        left := left - 1;
        if state == ExpectRequestLine {
          var failed;
          aborted, hasMore, failed := TurnRequestLine(buf);
          if aborted {
            return true, false, result;
          }
          if failed {
            result := Error;
          }
        } else if state == ExpectHeaders {
          hasMore, result := TurnHeaders(buf, result);
        } else if state == ExpectBody {
          result := TurnBody(buf, result);
          hasMore := false;
        }
      }
      returned := !hasMore;
    }

    method Reset()
      modifies this, request
      ensures View() == KeepAlive.Reset(old(View())) && request.pathParams == old(request.pathParams)
    {
      state := ExpectRequestLine;
      var dummy := new HttpRequest();
      request.Swap(dummy);
      contentLength, bodyReceived, isChunked := 0, 0, false;
    }
  }

  lemma SkipTwice(s: string, t: string)
    ensures SkipSpaces(SkipSpaces(s) + t) == SkipSpaces(s + t)
  {
    SkipThrough(s, t);
    if SkipSpaces(s) == "" {
      assert "" + t == t;
    }
  }

  /** `atoi` skips the spaces that the parser has skipped before it. */
  lemma AtoiSkips(s: string, t: string)
    ensures Atoi(SkipSpaces(s) + t) == Atoi(s + t)
  {
    SkipTwice(s, t);
    hide Narrow, SkipSpaces, SignedNumber;
  }

  lemma LineEndIs(u: string)
    ensures Search(u, CRLF) == LineEnd(u)
    ensures HasLine(u) <==> LineEnd(u) < |u|
    ensures HasLine(u) ==> Line(u) == u[..LineEnd(u)] && AfterLine(u) == u[LineEnd(u) + 2..]
  {
  }

  /** Without unread bytes, what is in memory behind them does not matter. */
  lemma TurnSees(c: Config, m: string, m': string, result: ParseResult)
    requires Wf(c) && !c.failed && (c.unread != "" ==> m == m')
    ensures Turn(c, m, result) == Turn(c, m', result)
    ensures result != Error ==> (Turn(c, m, result).result == Error <==> Turn(c, m, result).config.failed)
  {
    if c.unread == "" { NoLineInNothing(); }
    hide LineEnd, RequestLine, HeaderLine;
  }

  lemma TurnInBody(c: Config, m: string, result: ParseResult)
    requires Wf(c) && !c.failed && c.ctx.phase == ExpectBody
    ensures var d := BodyTurn(c);
            && !d.failed && d.ctx.phase in {ExpectBody, GotAll}
            && Turn(c, m, result) == Turned(
                 false,
                 if d.ctx.phase == GotAll then GotRequest else if BodyMissing(d.ctx) then HeadersComplete else result,
                 d)
  {
    hide BodyTurn;
  }

  lemma NoLineInNothing()
    ensures !HasLine("")
  {
  }

  lemma BodyTurnIs(c: Config, n: nat)
    requires Wf(c) && !c.failed && c.ctx.phase == ExpectBody && !c.ctx.chunked && c.ctx.contentLength.Some?
    requires n == ToRead(c)
    ensures var received := c.ctx.bodyReceived + n;
            BodyTurn(c) == Config(
              c.ctx.(request := c.ctx.request.(body := c.ctx.request.body + c.unread[..n]),
                     bodyReceived := received,
                     phase := if received >= c.ctx.contentLength.value then GotAll else ExpectBody),
              c.unread[n..], false)
    ensures n == 0 ==> c.ctx.request.body + c.unread[..n] == c.ctx.request.body && c.unread[n..] == c.unread
  {
    if n == 0 {
      assert c.ctx.request.body + c.unread[..n] == c.ctx.request.body;
    }
  }

  lemma HeaderWait(c: Config, m: string)
    requires Wf(c) && !HasLine(c.unread)
    ensures HeaderLoop(c, m) == c
  {
  }

  lemma ColonIs(line: string)
    ensures HasColon(line) <==> IndexOf(line, ':') != |line|
  {
  }

  lemma LineAndRest(u: string, m: string, k: nat)
    requires HasLine(u) && k <= LineEnd(u)
    ensures (u + m)[k..] == Line(u)[k..] + CRLF + (AfterLine(u) + m)
  {
    var i := LineEnd(u);
    assert u[i..i + 2] == CRLF;
    assert u == u[..k] + u[k..i] + u[i..i + 2] + u[i + 2..];
  }
}
