/**
 What the parser makes of the text of a request, said of the text itself: its first
 line, its header lines, the number in a Content-Length header, and the body behind
 the header block.
 */
module RequestText {
  import opened Bytes
  import opened Options
  import opened HttpParser
  import opened ParserDriver
  import opened ParserCalls
  import LogStream
  import Integers

  // ------------------------------------------------------------- decimal numbers

  predicate Digits(s: string) { forall i :: 0 <= i < |s| ==> '0' <= s[i] <= '9' }

  lemma {:induction false} DigitsThen(s: string, t: string, acc: nat)
    requires Digits(s)
    ensures LeadingNumber(s + t, acc) == LeadingNumber(t, LeadingNumber(s, acc))
  {
    if s == "" {
      assert s + t == t;
    } else {
      assert (s + t)[1..] == s[1..] + t;
      DigitsThen(s[1..], t, 10 * acc + (s[0] as int - '0' as int));
    }
  }

  lemma OneDigit(k: nat, acc: nat)
    requires k < 10
    ensures '0' <= LogStream.Digit(k) <= '9' && LeadingNumber([LogStream.Digit(k)], acc) == 10 * acc + k
  {
    var s := [LogStream.Digit(k)];
    assert LogStream.HEX_DIGITS[k] as int == '0' as int + k;
    assert s[1..] == "" && LeadingNumber(s[1..], 10 * acc + k) == 10 * acc + k;
  }

  lemma {:induction false} NumeralIsRead(n: nat)
    ensures Digits(LogStream.Numeral(n, false)) && LogStream.Numeral(n, false) != ""
    ensures LeadingNumber(LogStream.Numeral(n, false), 0) == n
    decreases n
  {
    var k, m := n % 10, n / 10;
    if m == 0 {
      OneDigit(k, 0);
      assert LogStream.Numeral(n, false) == [LogStream.Digit(k)];
    } else {
      NumeralIsRead(m);
      OneDigit(k, m);
      DigitsThen(LogStream.Numeral(m, false), [LogStream.Digit(k)], 0);
    }
  }

  /** No digit comes first. */
  predicate Stops(t: string) { t == "" || !('0' <= t[0] <= '9') }

  lemma NumberThen(s: string, t: string)
    requires Digits(s) && s != "" && Stops(t)
    ensures SignedNumber(s + t) == LeadingNumber(s, 0) && SignedNumber("-" + s + t) == 0 - LeadingNumber(s, 0)
  {
    DigitsThen(s, t, 0);
    assert ("-" + s + t)[1..] == s + t;
  }

  lemma {:induction false} SpacesSkipped(sp: string, t: string)
    requires (forall i :: 0 <= i < |sp| ==> IsSpace(sp[i])) && t != "" && !IsSpace(t[0])
    ensures SkipSpaces(sp + t) == t
  {
    if sp == "" { assert sp + t == t; } else { assert (sp + t)[1..] == sp[1..] + t; SpacesSkipped(sp[1..], t); }
  }

  /** The text of any integer, with spaces before it and something else than a digit
      behind it, is read as that integer. */
  lemma ReadsText(sp: string, v: int, t: string)
    requires (forall i :: 0 <= i < |sp| ==> IsSpace(sp[i])) && Stops(t)
    ensures ReadNumber(sp + LogStream.Text(v) + t) == v
    ensures LogStream.Text(v) != "" && !IsSpace(LogStream.Text(v)[0])
  {
    var n: nat := if v < 0 then 0 - v else v;
    NumeralIsRead(n);
    var s := LogStream.Numeral(n, false);
    assert LogStream.Text(v) == if v < 0 then "-" + s else s;
    hide LogStream.Numeral, LogStream.Text, LeadingNumber, ReadNumber, Digits;
    ReadsSigned(sp, s, t, v < 0);
  }

  lemma FirstOf(s: string, negative: bool)
    requires Digits(s) && s != ""
    ensures var text := if negative then "-" + s else s; text != "" && !IsSpace(text[0])
  {
  }

  lemma ReadsSigned(sp: string, s: string, t: string, negative: bool)
    requires Digits(s) && s != "" && Stops(t) && forall i :: 0 <= i < |sp| ==> IsSpace(sp[i])
    ensures var text, n := if negative then "-" + s else s, LeadingNumber(s, 0);
            text != "" && !IsSpace(text[0]) && ReadNumber(sp + text + t) == if negative then 0 - n else n
  {
    FirstOf(s, negative);
    hide SignedNumber, LeadingNumber, ReadNumber, IsSpace, Digits, Stops;
    NumberThen(s, t);
    ReadsThen(sp, if negative then "-" + s else s, t);
  }

  lemma ReadsThen(sp: string, text: string, t: string)
    requires text != "" && !IsSpace(text[0]) && forall i :: 0 <= i < |sp| ==> IsSpace(sp[i])
    ensures ReadNumber(sp + text + t) == SignedNumber(text + t)
  {
    hide SignedNumber, SkipSpaces, IsSpace;
    assert (text + t)[0] == text[0];
    SpacesSkipped(sp, text + t);
    assert sp + text + t == sp + (text + t);
  }

  /** `atoi` on such a text: the integer if an int holds it; the 64-bit one cut to an
      int if only a long does; and beyond that the ends of the long, cut. */
  lemma AtoiReads(sp: string, v: int, t: string)
    requires (forall i :: 0 <= i < |sp| ==> sp[i] in " \t\n\U{0B}\U{0C}\r") && Stops(t)
    ensures -0x8000_0000 <= v <= 0x7FFF_FFFF ==> Atoi(sp + LogStream.Text(v) + t) == v
    ensures -0x8000_0000_0000_0000 <= v <= 0x7FFF_FFFF_FFFF_FFFF ==>
              Atoi(sp + LogStream.Text(v) + t) == Integers.Int32(v)
    ensures v > 0x7FFF_FFFF_FFFF_FFFF ==> Atoi(sp + LogStream.Text(v) + t) == -1
    ensures v < -0x8000_0000_0000_0000 ==> Atoi(sp + LogStream.Text(v) + t) == 0
  {
    SpaceChars(sp);
    hide ReadNumber, LogStream.Text, Narrow, Integers.Int32, IsSpace;
    ReadsText(sp, v, t);
    NarrowIs(v);
  }

  /** The six characters that the C library takes for spaces. */
  lemma SpaceChars(sp: string)
    ensures (forall i :: 0 <= i < |sp| ==> sp[i] in " \t\n\U{0B}\U{0C}\r") <==>
            forall i :: 0 <= i < |sp| ==> IsSpace(sp[i])
  {
  }

  lemma NarrowIs(v: int)
    ensures -0x8000_0000 <= v <= 0x7FFF_FFFF ==> Narrow(v) == v
    ensures -0x8000_0000_0000_0000 <= v <= 0x7FFF_FFFF_FFFF_FFFF ==> Narrow(v) == Integers.Int32(v)
    ensures v > 0x7FFF_FFFF_FFFF_FFFF ==> Narrow(v) == -1
    ensures v < -0x8000_0000_0000_0000 ==> Narrow(v) == 0
  {
  }

  lemma SizeIs(v: int)
    requires -0x8000_0000 <= v <= 0x7FFF_FFFF
    ensures SizeOf(v) == if v >= 0 then v else 0x1_0000_0000_0000_0000 + v
  {
  }

  /** So is the length in front of the end of its line, whatever lies behind that: the
      number in the header, or, if it is negative, what the cast makes of it. */
  lemma LengthReads(v: int, sp: string, after: Option<string>)
    requires -0x8000_0000 <= v <= 0x7FFF_FFFF && (forall i :: 0 <= i < |sp| ==> IsSpace(sp[i]))
    ensures HeaderLength(LogStream.Text(v) + sp, after) == Some(if v >= 0 then v else 0x1_0000_0000_0000_0000 + v)
  {
    hide Atoi, LogStream.Text, SizeOf, IsSpace, ReadNumber;
    var text := LogStream.Text(v);
    var t := if after.Some? then sp + CRLF + after.value else sp;
    StopsAfter(sp, after);
    AtoiReads("", v, t);
    assert "" + text + t == (if after.Some? then text + sp + CRLF + after.value else text + sp);
    ReadsText("", v, "");
    SizeIs(v);
  }

  lemma StopsAfter(sp: string, after: Option<string>)
    requires forall i :: 0 <= i < |sp| ==> IsSpace(sp[i])
    ensures Stops(if after.Some? then sp + CRLF + after.value else sp)
  {
  }

  // ------------------------------------------------------------- the first line

  lemma IndexIs(s: string, c: char, before: string, after: string)
    requires c !in before && s == before + [c] + after
    ensures IndexOf(s, c) == |before| && s[..|before|] == before && s[|before| + 1..] == after
  {
    assert s[|before|] == c && forall i :: 0 <= i < |before| ==> s[i] == before[i];
  }

  /** The three words, in the form the program asks for: a path without spaces and
      question marks, and a query that is empty or starts with a question mark. */
  predicate Words(path: string, query: string, minor: char) {
    ' ' !in path && '?' !in path && ' ' !in query && (query != "" ==> query[0] == '?') && minor in "01"
  }

  function LineText(name: string, path: string, query: string, minor: char): string {
    name + " " + (path + query + " " + ("HTTP/1." + [minor]))
  }

  lemma NameHasNoSpace(m: Method)
    ensures ' ' !in MethodString(m)
  {
  }

  lemma TargetReads(r: Request, path: string, query: string)
    requires '?' !in path && (query != "" ==> query[0] == '?')
    ensures SetTarget(r, path + query) == r.(path := path, query := if query == "" then r.query else query)
  {
    if query == "" {
      assert path + query == path;
    } else {
      assert path + query == path + ['?'] + query[1..];
      IndexIs(path + query, '?', path, query[1..]);
      assert (path + query)[|path|..] == query;
    }
  }

  lemma VersionReads(minor: char)
    ensures VersionOf("HTTP/1." + [minor]) == if minor == '1' then Http11 else if minor == '0' then Http10 else Unknown
  {
    var t := "HTTP/1." + [minor];
    assert t[..7] == "HTTP/1." && t[7] == minor;
  }

  /** Such a line is accepted, and the request gets exactly its words. */
  lemma LineReads(r: Request, m: Method, path: string, query: string, minor: char)
    requires m != Invalid && Words(path, query, minor)
    ensures RequestLine(r, LineText(MethodString(m), path, query, minor)) ==
            (true, r.(meth := m, path := path, query := if query == "" then r.query else query,
                      version := if minor == '1' then Http11 else Http10))
  {
    MethodNames(MethodString(m), m);
    NameHasNoSpace(m);
    TargetReads(r.(meth := m), path, query);
    VersionReads(minor);
    hide MethodOf, MethodString, VersionOf, SetTarget, IndexOf, RequestLine;
    ThreeWords(r, MethodString(m), path + query, "HTTP/1." + [minor]);
  }

  lemma ThreeWords(r: Request, name: string, target: string, version: string)
    requires ' ' !in name && ' ' !in target && MethodOf(name) != Invalid && VersionOf(version) != Unknown
    ensures RequestLine(r, name + " " + (target + " " + version)) ==
            (true, SetTarget(r.(meth := MethodOf(name)), target).(version := VersionOf(version)))
  {
    hide MethodOf, VersionOf, SetTarget, IndexOf;
    IndexIs(name + " " + (target + " " + version), ' ', name, target + " " + version);
    IndexIs(target + " " + version, ' ', target, version);
  }

  /** And no other line is. */
  lemma OnlySuchLines(r: Request, line: string) returns (m: Method, path: string, query: string, minor: char)
    requires RequestLine(r, line).0
    ensures m != Invalid && Words(path, query, minor) && line == LineText(MethodString(m), path, query, minor)
  {
    hide MethodOf, MethodString, VersionOf, SetTarget, IndexOf;
    var k := IndexOf(line, ' ');
    m := MethodOf(line[..k]);
    MethodNames(line[..k], m);
    var rest := line[k + 1..];
    assert line == line[..k] + " " + rest;
    var j := IndexOf(rest, ' ');
    var target, version := rest[..j], rest[j + 1..];
    assert rest == target + " " + version;
    minor := VersionIs(version);
    path, query := TargetIs(target);
  }

  lemma TargetIs(target: string) returns (path: string, query: string)
    ensures target == path + query && '?' !in path && (query != "" ==> query[0] == '?')
    ensures ' ' !in target ==> ' ' !in path && ' ' !in query
  {
    var q := IndexOf(target, '?');
    path, query := target[..q], target[q..];
  }

  lemma VersionIs(version: string) returns (minor: char)
    requires VersionOf(version) != Unknown
    ensures version == "HTTP/1." + [minor] && minor in "01"
  {
    minor := version[7];
    assert version == version[..7] + [version[7]];
  }

  /** For example. */
  lemma OneLine()
    ensures RequestLine(EMPTY_REQUEST, "GET /a?x=1 HTTP/1.0") ==
            (true, EMPTY_REQUEST.(meth := Get, path := "/a", query := "?x=1", version := Http10))
  {
    hide RequestLine;
    assert LineText("GET", "/a", "?x=1", '0') == "GET /a?x=1 HTTP/1.0";
    LineReads(EMPTY_REQUEST, Get, "/a", "?x=1", '0');
  }

  // ----------------------------------------------------------------- header lines

  predicate SameLetter(a: char, b: char) {
    a == b || ('A' <= a <= 'Z' && b as int == a as int + 32) || ('A' <= b <= 'Z' && a as int == b as int + 32)
  }

  predicate SameLetters(s: string, t: string) {
    |s| == |t| && forall i :: 0 <= i < |s| ==> SameLetter(s[i], t[i])
  }

  lemma SameNoCaseIs(s: string, name: string)
    requires '\0' !in s
    ensures SameNoCase(s, name) <==> SameLetters(s, name)
  {
    assert UpToNul(s) == s;
    if SameNoCase(s, name) {
      assert |Lower(s)| == |Lower(name)|;
      forall i | 0 <= i < |s| ensures SameLetter(s[i], name[i]) { assert Lower(s)[i] == Lower(name)[i]; }
    }
  }

  predicate Spaces(s: string) { forall i :: 0 <= i < |s| ==> IsSpace(s[i]) }

  /** A value without spaces at its ends. */
  predicate Bare(value: string) { value != "" ==> !IsSpace(value[0]) && !IsSpace(value[|value| - 1]) }

  lemma {:induction false} TrimmedIs(value: string, sp: string)
    requires Spaces(sp) && Bare(value)
    ensures TrimRight(value + sp) == value
    decreases |sp|
  {
    if sp == "" {
      assert value + sp == value;
    } else {
      var t := value + sp;
      assert t[|t| - 1] == sp[|sp| - 1] && t[..|t| - 1] == value + sp[..|sp| - 1];
      TrimmedIs(value, sp[..|sp| - 1]);
    }
  }

  lemma {:induction false} AllSkipped(sp: string)
    requires Spaces(sp)
    ensures SkipSpaces(sp) == ""
  {
    if sp != "" { AllSkipped(sp[1..]); }
  }

  function HeaderText(name: string, before: string, value: string, behind: string): string {
    name + ":" + (before + value + behind)
  }

  /** What a header line is split into. */
  lemma HeaderParts(name: string, before: string, value: string, behind: string)
    requires ':' !in name && Spaces(before) && Spaces(behind) && Bare(value)
    ensures var line := HeaderText(name, before, value, behind);
            && HasColon(line) && FieldOf(line) == name
            && ValueOf(line) == (if value == "" then "" else value + behind)
            && TrimRight(ValueOf(line)) == value
  {
    var line := HeaderText(name, before, value, behind);
    hide IndexOf, SkipSpaces, TrimRight, IsSpace;
    IndexIs(line, ':', name, before + value + behind);
    if value == "" {
      assert before + value + behind == before + behind;
      AllSkipped(before + behind);
    } else {
      assert before + value + behind == before + (value + behind);
      SpacesSkipped(before, value + behind);
      TrimmedIs(value, behind);
    }
    assert value == "" ==> TrimRight("") == "" by { TrimmedIs("", ""); assert "" + "" == ""; }
  }

  /** A header line stores its value without the spaces around it under its name and
      leaves all other headers; it is a Content-Length line, or makes the request
      chunked, if and only if name and value say so in letters of either case. */
  lemma HeaderReads(ctx: Context, name: string, before: string, value: string, behind: string, after: Option<string>)
    requires ':' !in name && '\0' !in name && '\0' !in value && '\0' !in behind
    requires Spaces(before) && Spaces(behind) && Bare(value)
    ensures var line := HeaderText(name, before, value, behind);
            && HasColon(line)
            && HeaderLine(ctx, line, after).request == ctx.request.(headers := ctx.request.headers[name := value])
            && (IsLengthLine(line) <==> SameLetters(name, "Content-Length"))
            && (HeaderLine(ctx, line, after).chunked <==>
                  || ctx.chunked
                  || (SameLetters(name, "Transfer-Encoding") && behind == "" && SameLetters(value, "chunked")))
  {
    hide IndexOf, TrimRight, SkipSpaces, HeaderLength, SameNoCase, FieldOf, ValueOf, HasColon, HeaderText;
    HeaderParts(name, before, value, behind);
    SameNoCaseIs(name, "Content-Length");
    SameNoCaseIs(name, "Transfer-Encoding");
    ChunkedValue(value, behind);
    NotBoth(name);
  }

  lemma ChunkedValue(value: string, behind: string)
    requires '\0' !in value && '\0' !in behind && Spaces(behind)
    ensures SameNoCase(if value == "" then "" else value + behind, "chunked") <==>
            behind == "" && SameLetters(value, "chunked")
  {
    SameNoCaseIs(value + behind, "chunked");
    SameNoCaseIs("", "chunked");
    if behind == "" {
      assert value + behind == value;
    } else {
      var k := |value + behind| - 1;
      assert (value + behind)[k] == behind[|behind| - 1] && IsSpace(behind[|behind| - 1]);
      assert k < |"chunked"| ==> !SameLetter((value + behind)[k], "chunked"[k]);
    }
  }

  lemma NotBoth(name: string)
    ensures !(SameLetters(name, "Content-Length") && SameLetters(name, "Transfer-Encoding"))
  {
  }

  // ------------------------------------------------------------- a header block

  datatype Header = Header(name: string, before: string, value: string, behind: string)

  function Text(h: Header): string { HeaderText(h.name, h.before, h.value, h.behind) }

  predicate Plain(h: Header) {
    && ':' !in h.name && '\0' !in h.name && '\0' !in h.value && '\0' !in h.behind && '\r' !in Text(h)
    && Spaces(h.before) && Spaces(h.behind) && Bare(h.value)
    && (IsLength(h) ==> h.value != "")
  }

  predicate IsLength(h: Header) { SameLetters(h.name, "Content-Length") }

  predicate IsChunked(h: Header) {
    SameLetters(h.name, "Transfer-Encoding") && h.behind == "" && SameLetters(h.value, "chunked")
  }

  function Block(hs: seq<Header>): string {
    if hs == [] then CRLF else Text(hs[0]) + CRLF + Block(hs[1..])
  }

  predicate AllPlain(hs: seq<Header>) { forall h :: h in hs ==> Plain(h) }

  function ReadLine(ctx: Context, h: Header): Context
    requires Plain(h)
  {
    HeaderReads(ctx, h.name, h.before, h.value, h.behind, None);
    HeaderLine(ctx, Text(h), None)
  }

  /** What the lines of a block do to the context, one after the other. */
  function Read(ctx: Context, hs: seq<Header>): Context
    requires AllPlain(hs)
    decreases |hs|
  {
    if hs == [] then ctx else
    assert hs[0] in hs;
    Read(ReadLine(ctx, hs[0]), hs[1..])
  }

  /** One line. */
  lemma ReadLineIs(ctx: Context, h: Header)
    requires Plain(h)
    ensures var d := ReadLine(ctx, h);
            && d == ctx.(request := d.request, contentLength := d.contentLength, chunked := d.chunked)
            && d.request == ctx.request.(headers := ctx.request.headers[h.name := h.value])
            && (d.chunked <==> ctx.chunked || IsChunked(h))
            && d.contentLength == if IsLength(h) then HeaderLength(h.value + h.behind, None) else ctx.contentLength
  {
    hide HeaderText, IsLengthLine, HasColon, SameLetters, HeaderLength, Bare, Spaces, ValueOf;
    HeaderReads(ctx, h.name, h.before, h.value, h.behind, None);
    HeaderParts(h.name, h.before, h.value, h.behind);
    HeaderKeeps(ctx, Text(h));
    hide HeaderLine;
  }

  lemma HeaderKeeps(ctx: Context, line: string)
    requires HasColon(line)
    ensures var d := HeaderLine(ctx, line, None);
            d == ctx.(request := d.request, contentLength := d.contentLength, chunked := d.chunked)
  {
    hide IsLengthLine, SameNoCase, HeaderLength, HasColon, FieldOf, ValueOf, TrimRight;
  }

  lemma LineIs(line: string, x: string)
    requires '\r' !in line
    ensures var u := line + CRLF + x; HasLine(u) && Line(u) == line && AfterLine(u) == x && LineEnd(u) == |line|
  {
    var u, n := line + CRLF + x, |line|;
    assert u[n..n + 2] == CRLF;
    assert OccursAt(u, CRLF, n);
    forall k | 0 <= k < n ensures !OccursAt(u, CRLF, k) { assert u[k] == line[k] && u[k..k + 2][0] == u[k]; }
    SearchIs(u, CRLF, n);
  }

  /** A plain header line does the same whatever lies behind it. */
  lemma PlainLine(ctx: Context, h: Header, after: string)
    requires Plain(h)
    ensures var line := Text(h);
            HasColon(line) && HeaderLine(ctx, line, Some(after)) == HeaderLine(ctx, line, None)
            && (IsLengthLine(line) ==> ValueOf(line) != "")
  {
    hide HeaderText, HeaderLength, IsLengthLine, SameNoCase, FieldOf, ValueOf, HasColon, TrimRight;
    HeaderReads(ctx, h.name, h.before, h.value, h.behind, None);
    HeaderParts(h.name, h.before, h.value, h.behind);
    if IsLength(h) { LengthStops(h.value + h.behind, after); }
    SameLine(ctx, Text(h), after);
  }

  lemma SameLine(ctx: Context, line: string, after: string)
    requires HasColon(line)
    requires IsLengthLine(line) ==> HeaderLength(ValueOf(line), Some(after)) == HeaderLength(ValueOf(line), None)
    ensures HeaderLine(ctx, line, Some(after)) == HeaderLine(ctx, line, None)
  {
    hide HeaderLength, HasColon, IsLengthLine, ValueOf, FieldOf, TrimRight;
  }

  lemma BlockUnroll(hs: seq<Header>, x: string)
    ensures hs != [] ==> Block(hs) + x == Text(hs[0]) + CRLF + (Block(hs[1..]) + x)
    ensures hs == [] ==> Block(hs) + x == "" + CRLF + x
  {
    hide Text;
  }

  /** The whole block, up to its blank line. */
  lemma {:induction false} BlockReads(c: Config, hs: seq<Header>, x: string, m: string)
    requires Wf(c) && !c.failed && c.ctx.phase == ExpectHeaders && c.ctx.contentLength.Some?
    requires AllPlain(hs) && c.unread == Block(hs) + x
    ensures HeaderLoop(c, m) == Config(EndHeaders(Read(c.ctx, hs)), x, false)
    ensures BlockEnds(c.unread) && !OpenEnded(c.unread)
    decreases |hs|
  {
    hide LineEnd, HasLine, Line, AfterLine, HasColon, HeaderLine, RequestLine, HeaderLoop, IsLengthLine, ValueOf;
    hide Text, Plain, IsLength, Block, EndHeaders;
    BlockUnroll(hs, x);
    if hs == [] {
      LineIs("", x);
      NoColon();
      HeaderTurn(c, m);
    } else {
      var rest := Block(hs[1..]) + x;
      assert Plain(hs[0]) && '\r' !in Text(hs[0]) by { NoReturn(hs[0]); assert hs[0] in hs; }
      LineIs(Text(hs[0]), rest);
      HeaderTurn(c, m);
      PlainLine(c.ctx, hs[0], rest + m);
      var d := Config(ReadLine(c.ctx, hs[0]), rest, false);
      BlockReads(d, hs[1..], x, m);
    }
  }

  lemma NoReturn(h: Header)
    ensures Plain(h) ==> '\r' !in Text(h)
  {
  }

  lemma NoColon()
    ensures !HasColon("")
  {
  }

  // --------------------------------------------------- what a block leaves behind

  /** Everything but headers, length and encoding stays. */
  lemma {:induction false} ReadKeeps(ctx: Context, hs: seq<Header>)
    requires AllPlain(hs)
    ensures var d := Read(ctx, hs);
            && d == ctx.(request := d.request, contentLength := d.contentLength, chunked := d.chunked)
            && d.request == ctx.request.(headers := d.request.headers)
    decreases |hs|
  {
    hide Plain, ReadLine;
    if hs != [] {
      assert hs[0] in hs;
      ReadLineIs(ctx, hs[0]);
      ReadKeeps(ReadLine(ctx, hs[0]), hs[1..]);
    }
  }

  lemma PlainJoin(hs: seq<Header>, more: seq<Header>)
    requires AllPlain(hs + more)
    ensures AllPlain(hs) && AllPlain(more)
  {
    hide Plain;
    forall h | h in hs ensures Plain(h) { assert h in hs + more; }
    forall h | h in more ensures Plain(h) { assert h in hs + more; }
  }

  lemma {:induction false} ReadJoin(ctx: Context, hs: seq<Header>, more: seq<Header>)
    requires AllPlain(hs + more)
    ensures AllPlain(hs) && AllPlain(more) && Read(ctx, hs + more) == Read(Read(ctx, hs), more)
    decreases |hs|
  {
    hide Plain, ReadLine;
    PlainJoin(hs, more);
    if hs == [] {
      assert hs + more == more;
    } else {
      assert (hs + more)[1..] == hs[1..] + more && (hs + more)[0] == hs[0] && hs[0] in hs;
      ReadJoin(ReadLine(ctx, hs[0]), hs[1..], more);
    }
  }

  lemma ReadOne(ctx: Context, h: Header)
    requires Plain(h)
    ensures AllPlain([h]) && Read(ctx, [h]) == ReadLine(ctx, h)
  {
    hide Plain, ReadLine;
    assert [h][1..] == [];
  }

  /** Lines that say nothing of a length, of an encoding, or of a name. */
  lemma {:induction false} ReadSilent(ctx: Context, hs: seq<Header>)
    requires AllPlain(hs)
    ensures (forall h :: h in hs ==> !IsLength(h)) ==> Read(ctx, hs).contentLength == ctx.contentLength
    ensures Read(ctx, hs).chunked <==> ctx.chunked || exists h :: h in hs && IsChunked(h)
    decreases |hs|
  {
    hide Plain, ReadLine, IsLength, IsChunked;
    if hs != [] {
      assert hs == [hs[0]] + hs[1..] && hs[0] in hs;
      ReadLineIs(ctx, hs[0]);
      ReadSilent(ReadLine(ctx, hs[0]), hs[1..]);
    }
  }

  lemma {:induction false} ReadOthers(ctx: Context, hs: seq<Header>, name: string)
    requires AllPlain(hs) && forall h :: h in hs ==> h.name != name
    ensures var a, b := ctx.request.headers, Read(ctx, hs).request.headers;
            (name in b <==> name in a) && (name in a ==> b[name] == a[name])
    decreases |hs|
  {
    hide Plain, ReadLine, IsLength, IsChunked;
    if hs != [] {
      assert hs == [hs[0]] + hs[1..] && hs[0] in hs;
      ReadLineIs(ctx, hs[0]);
      ReadOthers(ReadLine(ctx, hs[0]), hs[1..], name);
    }
  }

  /** The last header of a name counts. */
  lemma LastOfName(ctx: Context, front: seq<Header>, h: Header, rest: seq<Header>)
    requires AllPlain(front + [h] + rest) && forall k :: k in rest ==> k.name != h.name
    ensures var b := Read(ctx, front + [h] + rest).request.headers; h.name in b && b[h.name] == h.value
  {
    hide Plain, ReadLine, IsLength, IsChunked;
    assert h in front + [h] + rest;
    ReadJoin(ctx, front + [h], rest);
    ReadJoin(ctx, front, [h]);
    ReadOne(Read(ctx, front), h);
    ReadLineIs(Read(ctx, front), h);
    ReadOthers(Read(ctx, front + [h]), rest, h.name);
  }

  /** The last Content-Length header counts, and its text is decimal. */
  lemma LastLength(ctx: Context, front: seq<Header>, h: Header, rest: seq<Header>, n: nat)
    requires AllPlain(front + [h] + rest) && (forall k :: k in rest ==> !IsLength(k))
    requires IsLength(h) && h.value == LogStream.Text(n) && n <= 0x7FFF_FFFF
    ensures Read(ctx, front + [h] + rest).contentLength == Some(n)
  {
    assert Plain(h) by { assert h in front + [h] + rest; }
    LengthReads(n, h.behind, None);
    hide Plain, ReadLine, IsLength, IsChunked, HeaderLength, LogStream.Text;
    ReadJoin(ctx, front + [h], rest);
    ReadJoin(ctx, front, [h]);
    ReadOne(Read(ctx, front), h);
    ReadLineIs(Read(ctx, front), h);
    ReadSilent(Read(ctx, front + [h]), rest);
  }

  // ------------------------------------------------------------ the whole request

  /** A body of `n` bytes, in one pass over what is behind the header block. */
  lemma BodyReads(c: Config, n: nat, m: Option<string>)
    requires Wf(c) && !c.failed && c.ctx.phase == ExpectBody && !c.ctx.chunked && c.ctx.contentLength == Some(n)
    requires c.ctx.bodyReceived == 0 && c.ctx.request.body == "" && n > 0
    ensures var d, x := Run(c, m), c.unread;
            && !d.failed && d.ctx.chunked == false && d.ctx.contentLength == Some(n)
            && d.ctx.request == c.ctx.request.(body := d.ctx.request.body)
            && (if |x| >= n then d.ctx.phase == GotAll && d.ctx.request.body == x[..n] && d.unread == x[n..]
                else d.ctx.phase == ExpectBody && d.ctx.request.body == x && d.unread == "")
  {
    RunStep(c, m);
    if Step(c, m).Some? { RunStep(Step(c, m).value, m); }
    hide Run;
  }

  /** The text of a request up to its body. */
  datatype Message = Message(meth: Method, path: string, query: string, minor: char, headers: seq<Header>)

  function StartLine(msg: Message): string { LineText(MethodString(msg.meth), msg.path, msg.query, msg.minor) }

  function HeadText(msg: Message): string { StartLine(msg) + CRLF + Block(msg.headers) }

  predicate Sendable(msg: Message) {
    && msg.meth != Invalid && Words(msg.path, msg.query, msg.minor) && AllPlain(msg.headers)
    && '\r' !in msg.path && '\r' !in msg.query
  }

  predicate LengthAt(hs: seq<Header>, i: nat, n: nat) {
    i < |hs| && IsLength(hs[i]) && hs[i].value == LogStream.Text(n) && forall j :: i < j < |hs| ==> !IsLength(hs[j])
  }

  /** The last Content-Length says so, or there is none. */
  ghost predicate SaysLength(hs: seq<Header>, n: nat) {
    n <= 0x7FFF_FFFF && ((exists i: nat :: LengthAt(hs, i, n)) || (n == 0 && forall h :: h in hs ==> !IsLength(h)))
  }

  /** A context in which a request starts. */
  predicate AtStart(c: Config) {
    && Ready(c) && !c.failed && c.ctx.phase == ExpectRequestLine && c.unread == ""
    && c.ctx.contentLength == Some(0) && !c.ctx.chunked && c.ctx.request.body == ""
  }

  /** The request with its first line and its headers read. */
  function AfterHead(ctx: Context, msg: Message): Context
    requires Sendable(msg)
  {
    EndHeaders(Read(ctx.(request := RequestLine(ctx.request, StartLine(msg)).1, phase := ExpectHeaders), msg.headers))
  }

  lemma LineNoReturn(msg: Message)
    requires Sendable(msg)
    ensures '\r' !in StartLine(msg)
  {
    assert '\r' !in MethodString(msg.meth);
    hide MethodString;
  }

  lemma HeadRun(c: Config, msg: Message, x: string, m: string)
    requires Wf(c) && !c.failed && c.ctx.phase == ExpectRequestLine && c.ctx.contentLength.Some?
    requires Sendable(msg) && c.unread == HeadText(msg) + x
    ensures !OpenStream(c, c.unread)
    ensures var d := Config(AfterHead(c.ctx, msg), x, false); Wf(d) && Run(c, Some(m)) == Run(d, Some(m))
  {
    hide LineEnd, HasLine, Line, AfterLine, RequestLine, HeaderLoop, Run, Block, Plain, StartLine, EndHeaders;
    var line, v := StartLine(msg), Block(msg.headers) + x;
    assert c.unread == line + CRLF + v;
    LineNoReturn(msg);
    LineIs(line, v);
    Accepts(c.ctx.request, msg);
    RunAccepted(c, m);
    BlockReads(Accepted(c, line, v), msg.headers, x, m);
  }

  lemma Accepts(r: Request, msg: Message)
    requires Sendable(msg)
    ensures RequestLine(r, StartLine(msg)) ==
            (true, r.(meth := msg.meth, path := msg.path, query := if msg.query == "" then r.query else msg.query,
                      version := if msg.minor == '1' then Http11 else Http10))
  {
    LineReads(r, msg.meth, msg.path, msg.query, msg.minor);
    hide RequestLine;
  }

  lemma LengthIs(ctx: Context, hs: seq<Header>, n: nat)
    requires AllPlain(hs) && SaysLength(hs, n) && ctx.contentLength == Some(0)
    ensures Read(ctx, hs).contentLength == Some(n)
  {
    hide Plain, ReadLine, IsLength, LogStream.Text;
    if i: nat :| LengthAt(hs, i, n) {
      assert hs == hs[..i] + [hs[i]] + hs[i + 1..];
      LastLength(ctx, hs[..i], hs[i], hs[i + 1..], n);
    } else {
      ReadSilent(ctx, hs);
    }
  }

  /** What is known once the header block is there. */
  lemma HeadIs(c: Config, msg: Message, n: nat)
    requires AtStart(c) && Sendable(msg) && SaysLength(msg.headers, n)
    requires forall h :: h in msg.headers ==> !IsChunked(h)
    ensures var d := AfterHead(c.ctx, msg);
            && d.phase == (if n == 0 then GotAll else ExpectBody)
            && d.contentLength == Some(n) && !d.chunked && d.bodyReceived == 0
            && d.request == Request(msg.meth, if msg.minor == '1' then Http11 else Http10, msg.path,
                                    if msg.query == "" then c.ctx.request.query else msg.query, "", d.request.headers)
  {
    var ctx := c.ctx.(request := RequestLine(c.ctx.request, StartLine(msg)).1, phase := ExpectHeaders);
    Accepts(c.ctx.request, msg);
    ReadKeeps(ctx, msg.headers);
    ReadSilent(ctx, msg.headers);
    LengthIs(ctx, msg.headers, n);
    hide RequestLine, Read, StartLine, Plain, IsLength, IsChunked;
  }

  /** A request that is not chunked, in any messages whose calls return: its method,
      path, query and version are the words of its first line; and with `n` the number
      in its last Content-Length header, it is complete exactly when `n` bytes have
      come behind the header block, and these are its body. */
  lemma WholeRequest(c: Config, ps: seq<Piece>, msg: Message, n: nat, x: string)
    requires AtStart(c) && ps != [] && Calls(c, ps).Parsed? && Joined(ps) == HeadText(msg) + x
    requires Sendable(msg) && SaysLength(msg.headers, n) && forall h :: h in msg.headers ==> !IsChunked(h)
    ensures var d := Calls(c, ps).config;
            && !d.failed
            && d.ctx.request.meth == msg.meth && d.ctx.request.path == msg.path
            && d.ctx.request.version == (if msg.minor == '1' then Http11 else Http10)
            && d.ctx.request.query == (if msg.query == "" then c.ctx.request.query else msg.query)
            && (d.ctx.phase == GotAll <==> |x| >= n) && (|x| < n ==> d.ctx.phase == ExpectBody)
            && d.ctx.request.body == (if |x| >= n then x[..n] else x)
            && d.unread == (if |x| >= n then x[n..] else "")
            && d.ctx.request.headers == AfterHead(c.ctx, msg).request.headers
  {
    hide Run, Ready, Call, Calls, HeadText, Sendable, AfterHead, SaysLength, OpenStream, IsChunked, Joined;
    var w := Feed(c, Joined(ps));
    assert w.unread == HeadText(msg) + x;
    ReadyPhase(c);
    HeadRun(w, msg, x, "");
    SameStream(c, w, w.unread);
    ReturningAgree(c, ps);
    HeadIs(c, msg, n);
    var d := Config(AfterHead(c.ctx, msg), x, false);
    if n == 0 {
      CompleteRuns(d, "");
    } else {
      BodyReads(d, n, Some(""));
    }
  }

  lemma CompleteRuns(c: Config, m: string)
    requires Wf(c) && c.ctx.phase == GotAll
    ensures Run(c, Some(m)) == c
  {
  }

  predicate Named(hs: seq<Header>, name: string) { exists i :: 0 <= i < |hs| && hs[i].name == name }

  predicate LastNamed(hs: seq<Header>, i: nat, name: string) {
    i < |hs| && hs[i].name == name && forall j :: i < j < |hs| ==> hs[j].name != name
  }

  /** And of each name the last header counts, its value without the spaces around
      it; a name that no header has, is not there. */
  lemma WholeHeaders(c: Config, msg: Message, name: string)
    requires AtStart(c) && Sendable(msg) && c.ctx.request.headers == map[]
    ensures var hs, got := msg.headers, AfterHead(c.ctx, msg).request.headers;
            && (name in got <==> Named(hs, name))
            && forall i: nat :: LastNamed(hs, i, name) ==> name in got && got[name] == hs[i].value
  {
    var ctx := c.ctx.(request := RequestLine(c.ctx.request, StartLine(msg)).1, phase := ExpectHeaders);
    Accepts(c.ctx.request, msg);
    assert AfterHead(c.ctx, msg).request == Read(ctx, msg.headers).request && ctx.request.headers == map[];
    hide RequestLine, Read, StartLine, Plain, Named, LastNamed;
    HeadersRead(ctx, msg.headers, name);
  }

  lemma HeadersRead(ctx: Context, hs: seq<Header>, name: string)
    requires AllPlain(hs) && ctx.request.headers == map[]
    ensures var got := Read(ctx, hs).request.headers;
            && (name in got <==> Named(hs, name))
            && forall i: nat :: LastNamed(hs, i, name) ==> name in got && got[name] == hs[i].value
  {
    hide Read, Plain;
    if Named(hs, name) {
      var i := FindLast(hs, name);
      LastCounts(ctx, hs, i);
    } else {
      ReadOthers(ctx, hs, name);
    }
    forall i: nat | LastNamed(hs, i, name)
      ensures name in Read(ctx, hs).request.headers && Read(ctx, hs).request.headers[name] == hs[i].value
    {
      LastCounts(ctx, hs, i);
    }
  }

  lemma LastCounts(ctx: Context, hs: seq<Header>, i: nat)
    requires AllPlain(hs) && i < |hs| && forall j :: i < j < |hs| ==> hs[j].name != hs[i].name
    ensures var b := Read(ctx, hs).request.headers; hs[i].name in b && b[hs[i].name] == hs[i].value
  {
    hide Read, Plain;
    assert hs == hs[..i] + [hs[i]] + hs[i + 1..];
    LastOfName(ctx, hs[..i], hs[i], hs[i + 1..]);
  }

  lemma {:induction false} FindLast(hs: seq<Header>, name: string) returns (i: nat)
    requires Named(hs, name)
    ensures LastNamed(hs, i, name)
    decreases |hs|
  {
    var k := |hs| - 1;
    if hs[k].name == name {
      i := k;
    } else {
      assert Named(hs[..k], name) by {
        var j :| 0 <= j < |hs| && hs[j].name == name;
        assert hs[..k][j] == hs[j];
      }
      i := FindLast(hs[..k], name);
      assert forall j :: i < j < k ==> hs[j] == hs[..k][j];
    }
  }
}
