/**
 The text of a log line: a fixed array with a fill position, and integers written
 into it backwards and turned around, in decimal through a digit table that also
 takes negative remainders, and in hexadecimal.
 */
module LogStream {
  import opened Integers

  // --------------------------------------------------------------------- numerals

  const HEX_DIGITS := "0123456789ABCDEF"

  /** `digits`; `zero` points at its middle. */
  const SIGNED_DIGITS := "9876543210123456789"

  function Digit(k: nat): char
    requires k < 16
  {
    HEX_DIGITS[k]
  }

  predicate IsDigit(c: char, hex: bool) { '0' <= c <= '9' || (hex && 'A' <= c <= 'F') }

  /** The last digit of a number, the number without it, and both put together. */
  function Last(n: nat, hex: bool): (k: nat)
    ensures k < 16 && (!hex ==> k < 10)
  {
    if hex then n % 16 else n % 10
  }

  function Front(n: nat, hex: bool): (m: nat)
    ensures n > 0 ==> m < n
  {
    if hex then n / 16 else n / 10
  }

  function Joined(m: nat, k: nat, hex: bool): nat { if hex then 16 * m + k else 10 * m + k }

  function DigitValue(c: char, hex: bool): (k: nat)
    requires IsDigit(c, hex)
    ensures k < 16 && (!hex ==> k < 10) && Digit(k) == c
  {
    if c <= '9' then c as int - '0' as int else c as int - 'A' as int + 10
  }

  /** The digits, last one first, as the loop produces them. */
  function Low(n: nat, hex: bool): string
  {
    [Digit(Last(n, hex))] + if Front(n, hex) == 0 then "" else Low(Front(n, hex), hex)
  }

  function Numeral(n: nat, hex: bool): string
  {
    (if Front(n, hex) == 0 then "" else Numeral(Front(n, hex), hex)) + [Digit(Last(n, hex))]
  }

  /** The decimal text of an integer. */
  function Text(v: int): string {
    if v < 0 then "-" + Numeral(0 - v, false) else Numeral(v, false)
  }

  function ReadNumeral(s: string, hex: bool): nat
    requires forall i :: 0 <= i < |s| ==> IsDigit(s[i], hex)
  {
    if s == "" then 0
    else Joined(ReadNumeral(s[..|s| - 1], hex), DigitValue(s[|s| - 1], hex), hex)
  }

  /** Digits without a superfluous zero in front. */
  predicate IsNumeral(s: string, hex: bool) {
    s != "" && (forall i :: 0 <= i < |s| ==> IsDigit(s[i], hex)) && (|s| > 1 ==> s[0] != '0')
  }

  /** What is read as an integer: a numeral, or a minus sign and one that is not 0. */
  predicate IsInteger(s: string) {
    IsNumeral(s, false) || (s != "" && s[0] == '-' && IsNumeral(s[1..], false) && s[1..] != "0")
  }

  function ReadInteger(s: string): int
    requires IsInteger(s)
  {
    if s[0] == '-' then 0 - ReadNumeral(s[1..], false) else ReadNumeral(s, false)
  }

  lemma {:induction false} NumeralReads(n: nat, hex: bool)
    ensures IsNumeral(Numeral(n, hex), hex) && ReadNumeral(Numeral(n, hex), hex) == n
    ensures n > 0 ==> Numeral(n, hex)[0] != '0'
    decreases n
  {
    var s, k := Numeral(n, hex), Last(n, hex);
    assert DigitValue(Digit(k), hex) == k;
    if Front(n, hex) == 0 {
      assert s == [Digit(k)] && s[..0] == "";
    } else {
      var t := Numeral(Front(n, hex), hex);
      NumeralReads(Front(n, hex), hex);
      assert s[..|s| - 1] == t && s[|s| - 1] == Digit(k);
    }
  }

  lemma {:induction false} ReadIsPositive(s: string, hex: bool)
    requires IsNumeral(s, hex) && s[0] != '0'
    ensures ReadNumeral(s, hex) > 0
    decreases |s|
  {
    if |s| > 1 {
      ReadIsPositive(s[..|s| - 1], hex);
    } else {
      assert s[..0] == "" && DigitValue(s[0], hex) > 0;
    }
  }

  lemma NumeralOf(m: nat, k: nat, hex: bool)
    requires k < 16 && (!hex ==> k < 10)
    ensures m > 0 ==> Numeral(Joined(m, k, hex), hex) == Numeral(m, hex) + [Digit(k)]
    ensures m == 0 ==> Numeral(Joined(m, k, hex), hex) == [Digit(k)]
  {
    ShiftIn(m, k, hex);
    hide Front, Last, Joined;
  }

  lemma {:induction false} ReadNumeralBack(s: string, hex: bool)
    requires IsNumeral(s, hex)
    ensures Numeral(ReadNumeral(s, hex), hex) == s
    decreases |s|
  {
    hide Numeral, Front, Last, Joined;
    var t, k := s[..|s| - 1], DigitValue(s[|s| - 1], hex);
    NumeralOf(ReadNumeral(t, hex), k, hex);
    assert s == t + [Digit(k)];
    if t != "" {
      ReadIsPositive(t, hex);
      ReadNumeralBack(t, hex);
    }
  }

  lemma ShiftIn(n: nat, k: nat, hex: bool)
    requires k < 16 && (!hex ==> k < 10)
    ensures Front(Joined(n, k, hex), hex) == n && Last(Joined(n, k, hex), hex) == k
  {
  }

  /** Printing and reading are inverse to each other: the text of every integer is
      read back as that integer, and every integer that can be read, and has no
      superfluous zero, is printed as it was. */
  lemma TextRoundTrip(v: int)
    ensures IsInteger(Text(v)) && ReadInteger(Text(v)) == v
  {
    var n: nat := if v < 0 then 0 - v else v;
    NumeralReads(n, false);
    if v < 0 {
      assert Text(v)[1..] == Numeral(n, false);
      assert ReadNumeral("0", false) == 0 by { assert "0"[..0] == ""; }
    }
  }

  lemma NotZero(s: string)
    requires IsNumeral(s, false) && s != "0"
    ensures s[0] != '0'
  {
    assert |s| == 1 ==> s == [s[0]];
  }

  lemma ReadRoundTrip(s: string)
    requires IsInteger(s)
    ensures Text(ReadInteger(s)) == s
  {
    hide ReadNumeral, Numeral;
    if s[0] == '-' {
      NotZero(s[1..]);
      ReadIsPositive(s[1..], false);
      ReadNumeralBack(s[1..], false);
      assert s == "-" + s[1..];
    } else {
      ReadNumeralBack(s, false);
    }
  }

  /** The smallest number with more than `k` digits. */
  function Limit(k: nat, hex: bool): nat { if k == 0 then 1 else Joined(Limit(k - 1, hex), 0, hex) }

  lemma {:induction false} NumeralLength(n: nat, hex: bool, k: nat)
    requires k > 0 && n < Limit(k, hex)
    ensures |Numeral(n, hex)| <= k
    decreases n
  {
    if Front(n, hex) > 0 {
      if k > 1 { NumeralLength(Front(n, hex), hex, k - 1); }
    }
  }

  const MAX_NUMERIC_SIZE: nat := 48

  /** A value of one of the integer types the stream takes. */
  predicate Fits64(v: int) { -0x8000_0000_0000_0000 <= v <= 0xFFFF_FFFF_FFFF_FFFF }

  lemma TenTo20()
    ensures Limit(20, false) == 100000000000000000000
  {
    assert Limit(5, false) == 100000;
    assert Limit(10, false) == 10000000000;
    assert Limit(15, false) == 1000000000000000;
  }

  lemma SixteenTo16()
    ensures Limit(16, true) == 0x1_0000_0000_0000_0000
  {
    assert Limit(4, true) == 0x1_0000;
    assert Limit(8, true) == 0x1_0000_0000;
    assert Limit(12, true) == 0x1_0000_0000_0000;
  }

  /** With its terminator the text has room in the space the stream asks for. */
  lemma TextFits(v: int)
    requires Fits64(v)
    ensures 0 < |Text(v)| && |Text(v)| + 1 < MAX_NUMERIC_SIZE
  {
    var n: nat := if v < 0 then 0 - v else v;
    TenTo20();
    NumeralLength(n, false, 20);
    NumeralReads(n, false);
    hide Numeral, Limit;
  }

  lemma HexFits(v: nat)
    requires v <= 0xFFFF_FFFF_FFFF_FFFF
    ensures 0 < |Numeral(v, true)| && |Numeral(v, true)| + 3 < MAX_NUMERIC_SIZE
  {
    SixteenTo16();
    NumeralLength(v, true, 16);
    NumeralReads(v, true);
    hide Numeral, Limit;
  }

  /** The text from its last character to its first. */
  function Reverse(s: string): (r: string)
    ensures |r| == |s|
  {
    seq(|s|, i requires 0 <= i < |s| => s[|s| - 1 - i])
  }

  lemma ReverseAppend(s: string, c: char)
    ensures Reverse(s + [c]) == [c] + Reverse(s)
    ensures Reverse([c] + s) == Reverse(s) + [c]
  {
  }

  /** Turned around, the digits the loop produces are the numeral. */
  lemma {:induction false} ReverseLow(n: nat, hex: bool)
    ensures Reverse(Low(n, hex)) == Numeral(n, hex)
    decreases n
  {
    var c := Digit(Last(n, hex));
    if Front(n, hex) > 0 {
      ReverseLow(Front(n, hex), hex);
      ReverseAppend(Low(Front(n, hex), hex), c);
    }
  }

  // -------------------------------------------------------------- one digit

  function Abs(v: int): nat { if v < 0 then 0 - v else v }

  /** The table turns a remainder of either sign into its digit. */
  lemma SignedDigit(i: int)
    ensures -9 <= Rem(i, 10) <= 9 && SIGNED_DIGITS[9 + Rem(i, 10)] == Digit(Last(Abs(i), false))
    ensures Abs(Quot(i, 10)) == Front(Abs(i), false)
  {
    var r := Rem(i, 10);
    assert Abs(r) == Last(Abs(i), false);
    TableAt(r);
  }

  lemma TableAt(r: int)
    requires -9 <= r <= 9
    ensures SIGNED_DIGITS[9 + r] == Digit(Abs(r))
  {
  }

  // ------------------------------------------------------------------- the array code

  /** `std::reverse` on a stretch of the array. */
  method ReverseInPlace(a: array<char>, lo: nat, hi: nat)
    requires lo <= hi <= a.Length
    modifies a
    ensures a[lo..hi] == Reverse(old(a[lo..hi]))
    ensures forall j :: 0 <= j < a.Length && !(lo <= j < hi) ==> a[j] == old(a[j])
  {
    var i := 0;
    ghost var was := a[lo..hi];
    while i < (hi - lo) / 2
      invariant 0 <= i <= (hi - lo) / 2
      invariant forall j :: lo <= j < lo + i || hi - i <= j < hi ==> a[j] == was[hi - 1 - j]
      invariant forall j :: lo + i <= j < hi - i ==> a[j] == was[j - lo]
      invariant forall j :: 0 <= j < a.Length && !(lo <= j < hi) ==> a[j] == old(a[j])
    {
      a[lo + i], a[hi - 1 - i] := a[hi - 1 - i], a[lo + i];
      i := i + 1;
    }
    assert a[lo..hi] == Reverse(was);
  }

  /** `*p++ = c` */
  method PutChar(buf: array<char>, ghost at: nat, p: nat, c: char) returns (next: nat)
    requires at <= p < buf.Length
    modifies buf
    ensures next == p + 1 && buf[at..next] == old(buf[at..p]) + [c]
    ensures forall j :: 0 <= j < at ==> buf[j] == old(buf[j])
  {
    buf[p] := c;
    next := p + 1;
  }

  /** `convert`, into the array from `at` on. */
  method Convert(buf: array<char>, at: nat, value: int) returns (len: nat)
    requires Fits64(value) && at + MAX_NUMERIC_SIZE <= buf.Length
    modifies buf
    ensures len == |Text(value)| && len + 1 < MAX_NUMERIC_SIZE
    ensures buf[at..at + len] == Text(value) && buf[at + len] == '\0'
    ensures forall j :: 0 <= j < at ==> buf[j] == old(buf[j])
  {
    TextFits(value);
    TextIsReversed(value);
    hide Reverse, Low, Text;
    var p := DigitLoop(buf, at, value);
    if value < 0 {
      p := PutChar(buf, at, p, '-');
    }
    buf[p] := '\0';
    ReverseInPlace(buf, at, p);
    len := p - at;
  }

  lemma TextIsReversed(v: int)
    ensures var low := Low(Abs(v), false);
            && Text(v) == (if v < 0 then Reverse(low + ['-']) else Reverse(low))
            && |Text(v)| == |low| + (if v < 0 then 1 else 0)
  {
    ReverseLow(Abs(v), false);
    ReverseAppend(Low(Abs(v), false), '-');
    hide Reverse, Numeral, Low;
  }

  /** The `do` loop: one digit, and more while something is left. */
  method DigitLoop(buf: array<char>, at: nat, value: int) returns (p: nat)
    requires at + |Low(Abs(value), false)| <= buf.Length
    modifies buf
    ensures p == at + |Low(Abs(value), false)| && buf[at..p] == Low(Abs(value), false)
    ensures forall j :: 0 <= j < at ==> buf[j] == old(buf[j])
  {
    hide Low;
    var i, more := value, true;
    p := at;
    assert buf[at..at] + Low(Abs(i), false) == Low(Abs(i), false);
    while more
      invariant at <= p <= buf.Length
      invariant if more then buf[at..p] + Low(Abs(i), false) == Low(Abs(value), false)
                else buf[at..p] == Low(Abs(value), false)
      invariant forall j :: 0 <= j < at ==> buf[j] == old(buf[j])
      decreases more, Abs(i)
    {
      SignedDigit(i);
      LowStep(Abs(i), false, buf[at..p], Low(Abs(value), false));
      hide Quot, Rem, Last, Front;
      var lsd := Rem(i, 10);
      i := Quot(i, 10);
      p := PutChar(buf, at, p, SIGNED_DIGITS[9 + lsd]);
      more := i != 0;
    }
  }

  /** One digit leaves the low end of what is still to be written. */
  lemma LowStep(n: nat, hex: bool, written: string, all: string)
    requires written + Low(n, hex) == all
    ensures |written| < |all| && (n > 0 ==> Front(n, hex) < n)
    ensures Front(n, hex) == 0 ==> written + [Digit(Last(n, hex))] == all
    ensures Front(n, hex) > 0 ==> written + [Digit(Last(n, hex))] + Low(Front(n, hex), hex) == all
  {
    var c := Digit(Last(n, hex));
    if Front(n, hex) > 0 {
      assert written + ([c] + Low(Front(n, hex), hex)) == written + [c] + Low(Front(n, hex), hex);
    }
  }

  /** `convertHex` */
  method ConvertHex(buf: array<char>, at: nat, value: nat) returns (len: nat)
    requires value <= 0xFFFF_FFFF_FFFF_FFFF && at + MAX_NUMERIC_SIZE <= buf.Length + 2
    modifies buf
    ensures len == |Numeral(value, true)| && len + 3 < MAX_NUMERIC_SIZE
    ensures buf[at..at + len] == Numeral(value, true) && buf[at + len] == '\0'
    ensures forall j :: 0 <= j < at ==> buf[j] == old(buf[j])
  {
    HexFits(value);
    ReverseLow(value, true);
    hide Reverse, Numeral, Low;
    var i, p, more := value, at, true;
    assert buf[at..at] + Low(i, true) == Low(i, true);
    while more
      invariant at <= p <= buf.Length
      invariant if more then buf[at..p] + Low(i, true) == Low(value, true) else buf[at..p] == Low(value, true)
      invariant forall j :: 0 <= j < at ==> buf[j] == old(buf[j])
      decreases more, i
    {
      LowStep(i, true, buf[at..p], Low(value, true));
      var lsd := i % 16;
      i := i / 16;
      p := PutChar(buf, at, p, HEX_DIGITS[lsd]);
      more := i != 0;
    }
    buf[p] := '\0';
    ReverseInPlace(buf, at, p);
    len := p - at;
  }

  // ----------------------------------------------------------------------- the stream

  class FixedBuffer {
    const data: array<char>
    var cur: nat

    ghost predicate Valid()
      reads this
    {
      cur <= data.Length < 0x8000_0000
    }

    ghost function Contents(): string
      requires Valid()
      reads this, data
    {
      data[..cur]
    }

    function Avail(): nat
      requires Valid()
      reads this
    {
      data.Length - cur
    }

    constructor (size: nat)
      requires size < 0x8000_0000
      ensures Valid() && fresh(data) && data.Length == size && Contents() == ""
    {
      data := new char[size](_ => '\0');
      cur := 0;
    }

    /** Only what leaves a byte free is taken. The length is compared as a 32-bit
        number: `overrun` tells that a longer text got past that test, and the copy
        would leave the array. */
    method Append(bytes: string) returns (overrun: bool)
      requires Valid()
      modifies this`cur, data
      ensures Valid() && overrun == Overruns(|bytes|, old(Avail()))
      ensures Contents() == old(Contents()) + (if |bytes| < old(Avail()) then bytes else "")
    {
      CutKeeps(|bytes|);
      overrun := false;
      if Avail() > Int32(|bytes|) {
        if |bytes| > Avail() {
          return true;
        }
        for k := 0 to |bytes|
          invariant cur + k <= data.Length && data[..cur] == old(data[..cur]) && data[cur..cur + k] == bytes[..k]
        {
          data[cur + k] := bytes[k];
        }
        assert data[..cur + |bytes|] == data[..cur] + data[cur..cur + |bytes|];
        cur := cur + |bytes|;
      }
    }

    method Reset()
      requires Valid()
      modifies this`cur
      ensures Valid() && Contents() == ""
    {
      cur := 0;
    }

    method Add(len: nat)
      requires Valid() && len <= Avail()
      modifies this`cur
      ensures Valid() && cur == old(cur) + len
    {
      cur := cur + len;
    }
  }

  /** A text that does not fit although the test says so. */
  predicate Overruns(len: nat, avail: nat) { Int32(len) < avail && len >= avail }

  lemma CutKeeps(len: nat)
    ensures len < 0x8000_0000 ==> Int32(len) == len
    ensures Int32(len) <= len
  {
  }

  /** A text overruns the buffer if and only if it has two gigabytes or more and its
      length cut to 32 bits is negative or less than the room left. */
  lemma OverrunIff(len: nat, avail: nat)
    requires avail <= 0x7FFF_FFFF
    ensures Overruns(len, avail) <==>
            len >= 0x8000_0000 && (len % 0x1_0000_0000 >= 0x8000_0000 || len % 0x1_0000_0000 < avail)
  {
  }

  /** For example, with one byte of room and a text of two gigabytes. */
  lemma TwoGigabytes()
    ensures Overruns(0x8000_0000, 1)
  {
  }

  lemma Extended(d: string, before: string, more: string)
    requires |before| + |more| <= |d| && d[..|before|] == before && d[|before|..|before| + |more|] == more
    ensures d[..|before| + |more|] == before + more
  {
  }

  class Stream {
    const buffer: FixedBuffer

    constructor (size: nat)
      requires size < 0x8000_0000
      ensures fresh(buffer) && fresh(buffer.data) && buffer.data.Length == size
      ensures buffer.Valid() && buffer.Contents() == ""
    {
      buffer := new FixedBuffer(size);
    }

    /** An integer is written whole, or, with less than 48 bytes left, not at all. */
    method FormatInteger(v: int)
      requires buffer.Valid() && Fits64(v)
      modifies buffer, buffer.data
      ensures buffer.Valid()
      ensures buffer.Contents() == old(buffer.Contents()) +
                (if old(buffer.Avail()) >= 48 then Text(v) else "")
    {
      hide Text;
      if buffer.Avail() >= MAX_NUMERIC_SIZE {
        ghost var before := buffer.Contents();
        var len := Convert(buffer.data, buffer.cur, v);
        Extended(buffer.data[..], before, Text(v));
        buffer.Add(len);
      }
    }

    /** A pointer. */
    method FormatPointer(v: nat)
      requires buffer.Valid() && v <= 0xFFFF_FFFF_FFFF_FFFF
      modifies buffer, buffer.data
      ensures buffer.Valid()
      ensures buffer.Contents() == old(buffer.Contents()) +
                (if old(buffer.Avail()) >= 48 then "0x" + Numeral(v, true) else "")
    {
      if buffer.Avail() >= MAX_NUMERIC_SIZE {
        hide Numeral;
        ghost var before := buffer.Contents();
        buffer.data[buffer.cur] := '0';
        buffer.data[buffer.cur + 1] := 'x';
        var len := ConvertHex(buffer.data, buffer.cur + 2, v);
        Extended(buffer.data[..], before, "0x" + Numeral(v, true));
        buffer.Add(len + 2);
      }
    }
  }
}
