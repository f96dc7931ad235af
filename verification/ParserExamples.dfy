/**
 One concrete stream for each way in which the calls of the parser fail.
 */
module ParserExamples {
  import opened Bytes
  import opened HttpParser
  import opened ParserDriver
  import opened ParserCalls
  import opened RequestText

  const START := Config(FRESH, "", false)

  /** A line of a known method, another word and nothing else. */
  lemma TwoWords(meth: string, target: string)
    requires MethodOf(meth) != Invalid && ' ' !in meth && ' ' !in target
    ensures var r := RequestLine(EMPTY_REQUEST, meth + " " + target); !r.0 && r.1.meth != Invalid
  {
    IndexIs(meth + " " + target, ' ', meth, target);
    hide MethodOf, IndexOf;
  }

  const GET_LINE := "GET" + " " + ("/" + " " + "HTTP/1.1")

  lemma GetAccepted()
    ensures RequestLine(EMPTY_REQUEST, GET_LINE).0 && '\r' !in GET_LINE
  {
    hide RequestLine;
    ThreeWords(EMPTY_REQUEST, "GET", "/", "HTTP/1.1");
  }

  lemma RefusedAborts(line: string, x: string, m: string)
    requires '\r' !in line && |x| == 1
    requires var r := RequestLine(EMPTY_REQUEST, line); !r.0 && r.1.meth != Invalid
    ensures RefusedThenMore(START, line + CRLF + x)
    ensures Ready(START) && Calls(START, [Piece(line + CRLF, m), Piece(x, "")]) == Aborts
  {
    hide HasLine, Line, LineEnd, AfterLine, RequestLine, Calls, Call, Refused, OpenStream;
    var c, s, first := START, line + CRLF + x, line + CRLF;
    LineIs(line, x);
    LineIs(line, "");
    var ps := [Piece(first, m), Piece(x, "")];
    assert ps[..1] == [ps[0]] && ps[..1][1..] == [];
    JoinedTwo(ps[0], ps[1]);
    assert Joined(ps[..1]) == first + Joined(ps[..1][1..]);
    assert first + "" == first && "" + s == s && "" + first == first && s[..|s| - 1] == first;
    hide Joined;
    AbortsIff(c, ps);
  }

  /** "GET /", which has no version: refused in one message, and the next byte
      aborts the program. */
  lemma GetAborts(m: string)
    ensures RefusedThenMore(START, "GET /\r\nx")
    ensures Ready(START) && Calls(START, [Piece("GET /\r\n", m), Piece("x", "")]) == Aborts
  {
    TwoWords("GET", "/");
    hide RefusedThenMore, Ready, Calls, RequestLine;
    var line := "GET" + " " + "/";
    assert line + CRLF == "GET /\r\n" && line + CRLF + "x" == "GET /\r\nx";
    RefusedAborts(line, "x", m);
  }

  lemma LineSpins(line: string, m: string)
    requires '\r' !in line && RequestLine(EMPTY_REQUEST, line).0
    ensures Ready(START) && Call(START, Piece(line + CRLF, m)) == Spins
  {
    LineIs(line, "");
    assert "" + (line + CRLF) == line + CRLF + "";
    NoLineInNothing();
    hide HasLine, Line, AfterLine, RequestLine;
  }

  /** A message that ends behind the request line: the call does not return. */
  lemma LineAloneSpins(m: string)
    ensures Ready(START) && Call(START, Piece("GET / HTTP/1.1\r\n", m)) == Spins
  {
    hide Ready, Call, RequestLine;
    GetAccepted();
    assert GET_LINE + CRLF == "GET / HTTP/1.1\r\n";
    LineSpins(GET_LINE, m);
  }

  lemma BlankField(name: string)
    requires ':' !in name && SameNoCase(name, "Content-Length")
    ensures var header := name + ":"; HasColon(header) && IsLengthLine(header) && ValueOf(header) == ""
  {
    hide SameNoCase, IndexOf;
    var header := name + ":";
    IndexIs(header, ':', name, "");
  }

  const LENGTH_NAME := "Content-Length"

  lemma LengthName()
    ensures SameNoCase(LENGTH_NAME, "Content-Length") && ':' !in LENGTH_NAME && '\r' !in LENGTH_NAME
  {
    hide Lower, IndexOf;
    assert '\0' !in LENGTH_NAME;
    assert UpToNul(LENGTH_NAME) == LENGTH_NAME;
  }

  lemma BlankBlock(v: string, header: string)
    requires HasLine(v) && Line(v) == header && AfterLine(v) == CRLF
    requires HasColon(header) && IsLengthLine(header) && ValueOf(header) == ""
    requires HasLine(CRLF) && Line(CRLF) == "" && AfterLine(CRLF) == "" && !HasColon("")
    ensures BlockEnds(v) && OpenEnded(v)
  {
    hide HasLine, Line, AfterLine, RequestLine, LineEnd, HasColon, IsLengthLine, ValueOf;
    assert BlockEnds(CRLF) && !OpenEnded(CRLF);
    assert AllSpaces(CRLF[..BlockLen(CRLF)]);
  }

  lemma BlankIsOpen(line: string, header: string)
    requires '\r' !in line && '\r' !in header && RequestLine(EMPTY_REQUEST, line).0
    requires HasColon(header) && IsLengthLine(header) && ValueOf(header) == ""
    ensures OpenStream(START, line + CRLF + (header + CRLF + CRLF)) && !OpenStream(START, "")
  {
    assert !HasColon("");
    hide HasLine, Line, AfterLine, RequestLine, HasColon, IsLengthLine, ValueOf, BlockEnds, OpenEnded;
    LineIs(line, header + CRLF + CRLF);
    LineIs(header, CRLF);
    LineIs("", "");
    NoLineInNothing();
    assert "" + CRLF + "" == CRLF;
    BlankBlock(header + CRLF + CRLF, header);
  }

  lemma BlankDiffers(line: string, name: string)
    requires '\r' !in line && '\r' !in name && RequestLine(EMPTY_REQUEST, line).0
    requires ':' !in name && SameNoCase(name, "Content-Length")
    ensures Ready(START) && !SameOutcome(START, line + CRLF + (name + ":" + CRLF + CRLF))
  {
    hide RequestLine, SameOutcome, HasColon, IsLengthLine, ValueOf, OpenStream, SameNoCase;
    BlankField(name);
    BlankIsOpen(line, name + ":");
    var s := line + CRLF + (name + ":" + CRLF + CRLF);
    assert "" + s == s;
    OutcomeIff(START, s);
  }

  lemma BlankStream()
    ensures GET_LINE + CRLF + (LENGTH_NAME + ":" + CRLF + CRLF) == "GET / HTTP/1.1\r\nContent-Length:\r\n\r\n"
  {
  }

  /** A blank Content-Length in the last header: the same stream is read with
      different lengths. */
  lemma BlankLengthOpen()
    ensures Ready(START) && !SameOutcome(START, "GET / HTTP/1.1\r\nContent-Length:\r\n\r\n")
  {
    hide RequestLine, SameOutcome, SameNoCase, Ready;
    GetAccepted();
    LengthName();
    BlankStream();
    hide *;
    BlankDiffers(GET_LINE, LENGTH_NAME);
  }
}
