/**
 The day number of a Gregorian date and the date of a day number, in the integer
 arithmetic of the program: division truncates toward zero, and the fields of a
 date are 8 and 16 bits wide.
 */
module JulianDay {
  import opened Integers

  datatype Date = Date(year: int, month: int, day: int)

  // ------------------------------------------------------------------- the program

  /** The year that starts in March, counted from 4800 years before year 0. */
  function ShiftedYear(year: int, month: int): int { year + 4800 - Quot(14 - month, 12) }

  function ShiftedMonth(month: int): int { month + 12 * Quot(14 - month, 12) - 3 }

  function GetJulianDayNumber(year: int, month: int, day: int): int {
    var y, m := ShiftedYear(year, month), ShiftedMonth(month);
    day + Quot(153 * m + 2, 5) + y * 365 + Quot(y, 4) - Quot(y, 100) + Quot(y, 400) - 32045
  }

  function GetYearMonthDay(julianDayNumber: int): Date {
    var a := julianDayNumber + 32044;
    var b := Quot(4 * a + 3, 146097);
    var c := a - Quot(146097 * b, 4);
    var d := Quot(4 * c + 3, 1461);
    var e := c - Quot(1461 * d, 4);
    var m := Quot(5 * e + 2, 153);
    Date(Int16(100 * b + d - 4800 + Quot(m, 10)), Int8(m + 3 - 12 * Quot(m, 10)), Int8(e - Quot(153 * m + 2, 5) + 1))
  }

  function NumberOf(d: Date): int { GetJulianDayNumber(d.year, d.month, d.day) }

  // ------------------------------------------------------------------ the calendar

  predicate Leap(year: int) { year % 4 == 0 && (year % 100 != 0 || year % 400 == 0) }

  function DaysIn(year: int, month: int): int {
    if month == 2 then (if Leap(year) then 29 else 28)
    else if month in {4, 6, 9, 11} then 30 else 31
  }

  /** A date that exists and that the fields can hold. */
  predicate Valid(d: Date) {
    -0x8000 <= d.year < 0x8000 && 1 <= d.month <= 12 && 1 <= d.day <= DaysIn(d.year, d.month)
  }

  /** On or after 1 March of the year -4800. */
  predicate InRange(d: Date) { d.year > -4800 || (d.year == -4800 && d.month >= 3) }

  function NextDay(d: Date): Date {
    if d.day < DaysIn(d.year, d.month) then d.(day := d.day + 1)
    else if d.month < 12 then Date(d.year, d.month + 1, 1)
    else Date(d.year + 1, 1, 1)
  }

  predicate Before(d: Date, f: Date) {
    d.year < f.year || (d.year == f.year && (d.month < f.month || (d.month == f.month && d.day < f.day)))
  }

  // ------------------------------------------------------------- days, by the parts

  /** Days before a month of the shifted year, and before the year itself. */
  function MonthStart(m: int): int { (153 * m + 2) / 5 }

  function YearStart(y: int): int { 365 * y + y / 4 - y / 100 + y / 400 }

  function YearLength(y: int): int { if Leap(y + 1) then 366 else 365 }

  lemma QuotStep(y: int, n: int)
    requires n in {4, 100, 400}
    ensures (y + 1) / n - y / n == if (y + 1) % n == 0 then 1 else 0
  {
  }

  lemma Divides(y: int)
    ensures y % 100 == 0 ==> y % 4 == 0
    ensures y % 400 == 0 ==> y % 100 == 0
  {
  }

  lemma YearStep(y: int)
    ensures YearStart(y + 1) == YearStart(y) + YearLength(y)
  {
    QuotStep(y, 4);
    QuotStep(y, 100);
    QuotStep(y, 400);
    Divides(y + 1);
    var p, q, r := (y + 1) / 4 - y / 4, (y + 1) / 100 - y / 100, (y + 1) / 400 - y / 400;
    assert YearStart(y + 1) - YearStart(y) == 365 + p - q + r;
  }

  /** 4800 years are a whole number of leap-year periods. */
  lemma LeapPeriod(year: int)
    ensures Leap(year + 4800) <==> Leap(year)
  {
  }

  lemma {:induction false} YearsGrow(y: int, z: int)
    requires y < z
    ensures YearStart(y) + YearLength(y) <= YearStart(z)
    decreases z - y
  {
    YearStep(y);
    if y + 1 < z { YearsGrow(y + 1, z); }
  }

  lemma MonthLength(d: Date)
    requires 1 <= d.month <= 12
    ensures var m := ShiftedMonth(d.month);
            && 0 <= m <= 11
            && (m < 11 ==> MonthStart(m + 1) - MonthStart(m) == DaysIn(d.year, d.month))
            && (m == 11 ==> YearLength(ShiftedYear(d.year, d.month)) - MonthStart(m) == DaysIn(d.year, d.month))
  {
    LeapPeriod(d.year);
    hide Leap;
    MonthTable(d.month);
    hide ShiftedMonth, MonthStart;
  }

  lemma MonthTable(month: int)
    requires 1 <= month <= 12
    ensures var m := ShiftedMonth(month);
            && 0 <= m <= 11 && (m == 11 <==> month == 2) && (m == 11 ==> MonthStart(m) == 337)
            && (m < 11 ==> MonthStart(m + 1) - MonthStart(m) == if month in {4, 6, 9, 11} then 30 else 31)
  {
    if month <= 2 { assert ShiftedMonth(month) == month + 9; } else { assert ShiftedMonth(month) == month - 3; }
  }

  /** The day of the shifted year, from 0. */
  function DayOfYear(d: Date): int { MonthStart(ShiftedMonth(d.month)) + d.day - 1 }

  function YearOf(d: Date): int { ShiftedYear(d.year, d.month) }

  lemma DayOfYearFits(d: Date)
    requires Valid(d)
    ensures 0 <= DayOfYear(d) < YearLength(YearOf(d))
  {
    MonthLength(d);
  }

  lemma NumberIs(d: Date)
    requires 1 <= d.month <= 12 && YearOf(d) >= 0
    ensures NumberOf(d) + 32044 == YearStart(YearOf(d)) + DayOfYear(d)
  {
    MonthTable(d.month);
    hide ShiftedYear, ShiftedMonth;
  }

  lemma RangeIs(d: Date)
    requires Valid(d)
    ensures InRange(d) <==> YearOf(d) >= 0
  {
  }

  // ----------------------------------------------------------------- order and step

  /** The day after has the number after. */
  lemma NextDayNumber(d: Date)
    requires Valid(d) && InRange(d)
    ensures NumberOf(NextDay(d)) == NumberOf(d) + 1
  {
    var f := NextDay(d);
    RangeIs(d);
    NextDayShifted(d);
    NumberIs(d);
    NumberIs(f);
    YearStep(YearOf(d));
    hide NumberOf, DayOfYear, YearOf, YearStart, YearLength, InRange;
  }

  lemma NextDayShifted(d: Date)
    requires Valid(d)
    ensures var f := NextDay(d);
            && 1 <= f.month <= 12
            && if DayOfYear(d) + 1 < YearLength(YearOf(d))
               then YearOf(f) == YearOf(d) && DayOfYear(f) == DayOfYear(d) + 1
               else YearOf(f) == YearOf(d) + 1 && DayOfYear(f) == 0 && DayOfYear(d) + 1 == YearLength(YearOf(d))
  {
    var f := NextDay(d);
    DayOfYearFits(d);
    MonthLength(d);
    MonthTable(d.month);
    MonthTable(f.month);
    MonthSteps(d.month);
    assert DayOfYear(d) + 1 < YearLength(YearOf(d)) || ShiftedMonth(d.month) == 11;
    hide YearLength, MonthStart;
  }

  lemma MonthSteps(month: int)
    requires 1 <= month <= 12
    ensures month == 2 ==> ShiftedMonth(3) == 0 && MonthStart(0) == 0
    ensures month == 12 ==> ShiftedMonth(1) == ShiftedMonth(12) + 1
    ensures month !in {2, 12} ==> ShiftedMonth(month + 1) == ShiftedMonth(month) + 1
  {
  }

  lemma MonthsGrow(m: int, n: int)
    requires 0 <= m < n <= 11
    ensures MonthStart(m + 1) <= MonthStart(n)
  {
  }

  lemma ShiftedOrder(d: Date, f: Date)
    requires Valid(d) && Valid(f) && Before(d, f)
    ensures YearOf(d) < YearOf(f) || (YearOf(d) == YearOf(f) && DayOfYear(d) < DayOfYear(f))
  {
    MonthLength(d);
    MonthLength(f);
    if ShiftedMonth(d.month) < ShiftedMonth(f.month) { MonthsGrow(ShiftedMonth(d.month), ShiftedMonth(f.month)); }
  }

  lemma EarlierSmaller(d: Date, f: Date)
    requires Valid(d) && Valid(f) && InRange(d) && Before(d, f)
    ensures NumberOf(d) < NumberOf(f)
  {
    ShiftedOrder(d, f);
    NumberIs(d);
    NumberIs(f);
    DayOfYearFits(d);
    DayOfYearFits(f);
    if YearOf(d) < YearOf(f) { YearsGrow(YearOf(d), YearOf(f)); }
    hide NumberOf, DayOfYear, YearStart, YearLength;
  }

  /** Day numbers are ordered as the dates are. */
  lemma SameOrder(d: Date, f: Date)
    requires Valid(d) && Valid(f) && InRange(d) && InRange(f)
    ensures NumberOf(d) < NumberOf(f) <==> Before(d, f)
  {
    if Before(d, f) { EarlierSmaller(d, f); }
    if Before(f, d) { EarlierSmaller(f, d); }
    hide NumberOf, InRange, Valid;
  }

  // ---------------------------------------------------------------------- decoding

  /** Where `GetYearMonthDay` finds the century, the year in it and the day in that,
      for a count of days that is not negative. */
  function CenturyOf(a: int): int { (4 * a + 3) / 146097 }

  function InCentury(a: int): int { a - 146097 * CenturyOf(a) / 4 }

  function YearIn(c: int): int { (4 * c + 3) / 1461 }

  function DayIn(c: int): int { c - 1461 * YearIn(c) / 4 }

  function YearFor(a: int): int { 100 * CenturyOf(a) + YearIn(InCentury(a)) }

  function DayFor(a: int): int { DayIn(InCentury(a)) }

  lemma Decoded(a: int)
    requires a >= 0
    ensures CenturyOf(a) >= 0 && InCentury(a) >= 0 && YearIn(InCentury(a)) >= 0 && YearFor(a) >= 0
    ensures 0 <= DayFor(a) < YearLength(YearFor(a)) && DayFor(a) <= 365
    ensures a == YearStart(YearFor(a)) + DayFor(a)
  {
    var b, c := CenturyOf(a), InCentury(a);
    Century(b, c);
    var d := YearIn(c);
    YearInCentury(c, d);
    CenturyStart(b, d);
    CenturyLeap(b, d);
    hide YearStart, Leap;
  }

  lemma Century(b: int, c: int)
    requires b >= 0 && 0 <= 4 * (c + 146097 * b / 4) + 3 - 146097 * b < 146097
    ensures 0 <= c < 36524 + (if (b + 1) % 4 == 0 then 1 else 0)
  {
  }

  lemma YearInCentury(c: int, d: int)
    requires 0 <= c <= 36524 && d == (4 * c + 3) / 1461
    ensures 0 <= d <= 99 && 0 <= c - 1461 * d / 4 < 365 + (if (d + 1) % 4 == 0 then 1 else 0)
    ensures c < 36524 && d == 99 ==> c - 1461 * d / 4 < 365
  {
  }

  lemma CenturyStart(b: int, d: int)
    requires 0 <= d <= 99
    ensures YearStart(100 * b + d) == 146097 * b / 4 + 1461 * d / 4
  {
    assert (100 * b + d) / 100 == b;
    assert (100 * b + d) / 4 == 25 * b + d / 4;
    assert (100 * b + d) / 400 == b / 4;
  }

  lemma CenturyLeap(b: int, d: int)
    requires 0 <= d <= 99
    ensures Leap(100 * b + d + 1) <==> (d + 1) % 4 == 0 && (d == 99 ==> (b + 1) % 4 == 0)
  {
  }

  lemma MonthOf(e: int)
    requires 0 <= e <= 365
    ensures var m := (5 * e + 2) / 153;
            0 <= m <= 11 && MonthStart(m) <= e && (m < 11 ==> e < MonthStart(m + 1))
  {
  }

  /** The date with a given shifted year and day in it. */
  function Assemble(y: int, e: int): Date {
    var m := (5 * e + 2) / 153;
    Date(y - 4800 + m / 10, m + 3 - 12 * (m / 10), e - MonthStart(m) + 1)
  }

  lemma Assembled(y: int, e: int)
    requires 0 <= y && 0 <= e < YearLength(y) && Assemble(y, e).year < 0x8000
    ensures var d := Assemble(y, e); Valid(d) && InRange(d) && YearOf(d) == y && DayOfYear(d) == e
  {
    MonthOf(e);
    var d := Assemble(y, e);
    MonthLength(d);
  }

  lemma Fits(x: int)
    ensures -0x80 <= x < 0x80 ==> Int8(x) == x
    ensures -0x8000 <= x < 0x8000 ==> Int16(x) == x
    ensures -0x8000 <= Int16(x) < 0x8000
  {
  }

  /** The month and day of a shifted year and a day in it, as the program has them. */
  function Fields(y: int, e: int): Date {
    var m := Quot(5 * e + 2, 153);
    Date(Int16(y - 4800 + Quot(m, 10)), Int8(m + 3 - 12 * Quot(m, 10)), Int8(e - Quot(153 * m + 2, 5) + 1))
  }

  lemma DecodedFields(a: int)
    requires a >= 0
    ensures GetYearMonthDay(a - 32044) == Fields(YearFor(a), DayFor(a))
  {
    hide Quot, Int8, Int16, CenturyOf, InCentury, YearIn, DayIn, YearStart, YearLength;
    Decoded(a);
    Quotients(a);
    var b, c := CenturyOf(a), InCentury(a);
    assert Fields(100 * b + YearIn(c), DayIn(c)) == GetYearMonthDay(a - 32044);
  }

  lemma DecodedDate(j: int)
    requires j >= -32044
    ensures var f := Assemble(YearFor(j + 32044), DayFor(j + 32044));
            GetYearMonthDay(j) == f.(year := Int16(f.year))
  {
    hide Int16, Fields, GetYearMonthDay, Assemble, YearStart, YearLength, YearFor, DayFor;
    Decoded(j + 32044);
    DecodedFields(j + 32044);
    FieldsOf(YearFor(j + 32044), DayFor(j + 32044));
  }

  lemma Quotients(a: int)
    requires a >= 0 && CenturyOf(a) >= 0 && InCentury(a) >= 0 && YearIn(InCentury(a)) >= 0
    ensures Quot(4 * a + 3, 146097) == CenturyOf(a)
    ensures a - Quot(146097 * CenturyOf(a), 4) == InCentury(a)
    ensures Quot(4 * InCentury(a) + 3, 1461) == YearIn(InCentury(a))
    ensures InCentury(a) - Quot(1461 * YearIn(InCentury(a)), 4) == DayIn(InCentury(a))
  {
    QuotIs(4 * a + 3, 146097);
    QuotIs(146097 * CenturyOf(a), 4);
    QuotIs(4 * InCentury(a) + 3, 1461);
    QuotIs(1461 * YearIn(InCentury(a)), 4);
    hide Quot;
  }

  lemma QuotIs(a: int, b: int)
    requires a >= 0 && b > 0
    ensures Quot(a, b) == a / b
  {
  }

  lemma FieldsOf(y: int, e: int)
    requires 0 <= e <= 365
    ensures var f := Assemble(y, e); Fields(y, e) == f.(year := Int16(f.year))
  {
    MonthOf(e);
    var f := Assemble(y, e);
    Fits(f.month);
    Fits(f.day);
    MonthBound((5 * e + 2) / 153, e);
    hide Int8, Int16;
  }

  lemma MonthBound(m: int, e: int)
    requires 0 <= m <= 11 && MonthStart(m) <= e <= 365 && (m < 11 ==> e < MonthStart(m + 1))
    ensures 1 <= e - MonthStart(m) + 1 <= 31
  {
  }

  /** With a negative count of days the day of the month is never positive. */
  lemma NegativeDecodes(j: int)
    requires j < -32044
    ensures GetYearMonthDay(j).day <= 0
  {
    var a := j + 32044;
    var b := Quot(4 * a + 3, 146097);
    var c := a - Quot(146097 * b, 4);
    QuotUp(4 * a + 3, 146097);
    var d := Quot(4 * c + 3, 1461);
    var e := c - Quot(1461 * d, 4);
    NegativePart(a, b, 146097);
    NegativePart(c, d, 1461);
    var m := Quot(5 * e + 2, 153);
    NegativeDay(e, m);
    Fits(e - Quot(153 * m + 2, 5) + 1);
    hide Quot, Int8, Int16;
  }

  lemma QuotUp(a: int, b: int)
    requires b > 0 && a < 0
    ensures a <= b * Quot(a, b) < a + b && Quot(a, b) <= 0
  {
  }

  lemma NegativePart(a: int, q: int, n: int)
    requires a < 0 && n in {146097, 1461} && q == Quot(4 * a + 3, n)
    ensures 0 - n / 4 - 1 <= a - Quot(n * q, 4) < 0
  {
    QuotUp(4 * a + 3, n);
  }

  lemma NegativeDay(e: int, m: int)
    requires -366 <= e < 0 && m == Quot(5 * e + 2, 153)
    ensures -0x80 <= e - Quot(153 * m + 2, 5) + 1 <= 0
  {
    QuotUp(5 * e + 2, 153);
  }

  // ------------------------------------------------------------------- round trips

  lemma NumberBefore(d: Date)
    requires Valid(d) && YearOf(d) < 0
    ensures NumberOf(d) <= -32044
    ensures NumberOf(d) == -32044 ==> d == Date(-4800, 2, 29)
  {
    MonthLength(d);
    DayOfYearFits(d);
  }

  /** The decoding finds the year and the day a date's number was made of. */
  lemma Located(d: Date)
    requires Valid(d) && YearOf(d) >= 0
    ensures NumberOf(d) + 32044 >= 0
    ensures YearFor(NumberOf(d) + 32044) == YearOf(d) && DayFor(NumberOf(d) + 32044) == DayOfYear(d)
  {
    hide NumberOf, DayOfYear, YearOf, YearStart, YearLength, YearFor, DayFor;
    var a := NumberOf(d) + 32044;
    NumberIs(d);
    DayOfYearFits(d);
    NotNegative(YearOf(d));
    Decoded(a);
    SameYear(YearFor(a), YearOf(d), a);
  }

  lemma NotNegative(y: int)
    requires y >= 0
    ensures YearStart(y) >= 0
  {
  }

  lemma ComesBack(d: Date)
    requires Valid(d) && YearOf(d) >= 0
    ensures GetYearMonthDay(NumberOf(d)) == d
  {
    Located(d);
    AssembleInverse(d);
    Fits(d.year);
    hide Valid, Int16, NumberOf, DayOfYear, YearOf, GetYearMonthDay, Assemble, YearFor, DayFor;
    DecodedDate(NumberOf(d));
  }

  lemma DoesNotComeBack(d: Date)
    requires Valid(d) && YearOf(d) < 0
    ensures GetYearMonthDay(NumberOf(d)) != d
  {
    NumberBefore(d);
    assert d.day >= 1;
    hide NumberOf, YearOf, GetYearMonthDay;
    if NumberOf(d) < -32044 { NegativeDecodes(NumberOf(d)); } else { DayZero(); }
  }

  /** Every date the fields can hold comes back from its day number if and only if
      it is on or after 1 March -4800. */
  lemma DateRoundTripIff(d: Date)
    requires Valid(d)
    ensures GetYearMonthDay(NumberOf(d)) == d <==> InRange(d)
  {
    RangeIs(d);
    hide NumberOf, YearOf, InRange, GetYearMonthDay;
    if YearOf(d) >= 0 { ComesBack(d); } else { DoesNotComeBack(d); }
  }

  lemma DayZero()
    ensures GetYearMonthDay(-32044) == Date(-4800, 3, 1)
  {
    assert Quot(3, 146097) == Quot(3, 1461) == Quot(2, 153) == Quot(0, 4) == Quot(0, 10) == Quot(2, 5) == 0;
    hide Quot, Int8, Int16;
    Fits(1);
    Fits(3);
    Fits(-4800);
  }

  /** A day lies in one year only. */
  lemma SameYear(y: int, z: int, a: int)
    requires YearStart(y) <= a < YearStart(y) + YearLength(y)
    requires YearStart(z) <= a < YearStart(z) + YearLength(z)
    ensures y == z
  {
    if y < z { YearsGrow(y, z); }
    if z < y { YearsGrow(z, y); }
    hide YearStart, YearLength;
  }

  lemma AssembleInverse(d: Date)
    requires Valid(d)
    ensures Assemble(YearOf(d), DayOfYear(d)) == d
  {
    DayOfYearFits(d);
    MonthLength(d);
    MonthOf(DayOfYear(d));
  }

  const LAST := Date(0x7FFF, 12, 31)

  /** Every number in the reach of the 64-bit arithmetic comes back, by way of a
      date that exists, if and only if it is one from 1 March -4800 to the last day
      that the 16-bit year can hold. */
  lemma NumberRoundTripIff(j: int)
    requires -0x1000_0000_0000_0000 <= j <= 0x1000_0000_0000_0000
    ensures Valid(GetYearMonthDay(j)) && NumberOf(GetYearMonthDay(j)) == j <==> -32044 <= j <= NumberOf(LAST)
  {
    hide Int16, NumberOf, InRange, DayOfYear, YearOf, YearStart, YearLength, GetYearMonthDay, Assemble, YearFor, DayFor;
    if j < -32044 {
      NegativeDecodes(j);
    } else {
      Decoded(j + 32044);
      DecodedDate(j);
      var y, e := YearFor(j + 32044), DayFor(j + 32044);
      if Assemble(y, e).year < 0x8000 {
        Assembled(y, e);
        Fits(Assemble(y, e).year);
        NumberIs(Assemble(y, e));
        LastIsLast(Assemble(y, e));
      } else {
        TooLate(y, e, j);
      }
    }
  }

  lemma LastIsLast(d: Date)
    requires Valid(d) && InRange(d)
    ensures NumberOf(d) <= NumberOf(LAST)
  {
    if d != LAST { EarlierSmaller(d, LAST); }
    hide NumberOf;
  }

  /** A number whose year does not fit has no date. */
  lemma TooLate(y: int, e: int, j: int)
    requires y >= 0 && 0 <= e < YearLength(y) && j + 32044 == YearStart(y) + e && Assemble(y, e).year >= 0x8000
    ensures j > NumberOf(LAST)
    ensures var d := GetYearMonthDay(j); Valid(d) ==> NumberOf(d) != j
  {
    NumberIs(LAST);
    MonthOf(e);
    MonthStarts();
    assert y >= YearOf(LAST);
    if y > YearOf(LAST) {
      YearsGrow(YearOf(LAST), y);
      DayOfYearFits(LAST);
    }
    assert j > NumberOf(LAST) by { hide NumberOf, YearStart, YearLength; }
    var d := GetYearMonthDay(j);
    if Valid(d) {
      RangeIs(d);
      if InRange(d) { LastIsLast(d); } else { NumberBefore(d); }
    }
    hide NumberOf, YearStart, YearLength, GetYearMonthDay;
  }

  lemma MonthStarts()
    ensures MonthStart(9) == 275 && MonthStart(10) == 306 && DayOfYear(LAST) == 305 && YearOf(LAST) == 0x7FFF + 4800
  {
  }

  /** 1 January 2000 has the number astronomers give it. */
  lemma Anchored()
    ensures GetJulianDayNumber(2000, 1, 1) == 2451545
  {
  }
}
