/** The year of a timestamp: an integer formula against the calendar it stands for. */
module Timestamp {
  import opened ModArith

  const USECS_PER_DAY := 86400000000
  const POSTGRES_EPOCH_JDATE := 2451545
  const INT_MAX := 0x7FFF_FFFF

  type Int64 = x: int | -0x8000_0000_0000_0000 <= x < 0x8000_0000_0000_0000

  // ---- The proleptic Gregorian calendar, counted year by year from 2000.

  predicate Leap(y: int) { y % 4 == 0 && (y % 100 != 0 || y % 400 == 0) }

  function YearLength(y: int): int { if Leap(y) then 366 else 365 }

  /** The Julian day of 1 January of year `y`. */
  function NewYear(y: int): int
    decreases if y > 2000 then y - 2000 else 2000 - y
  {
    if y == 2000 then 2451545
    else if y > 2000 then NewYear(y - 1) + YearLength(y - 1)
    else NewYear(y + 1) - YearLength(y)
  }

  // ---- The code, with its unsigned 32-bit words.

  function U32(x: int): int { x % 0x1_0000_0000 }

  /** The day of a timestamp: TMODULO and the correction for negative remainders. */
  function Day(timestamp: Int64): int {
    var date := TruncDiv(timestamp, USECS_PER_DAY);
    var rest := timestamp - date * USECS_PER_DAY;
    if rest < 0 then date - 1 else date
  }

  /** The day shifted to a calendar in which every fourth year is leap. */
  function Shift(day: int): int {
    var date := day + 32044;
    var quad := U32(date / 146097);
    var extra := U32((date - U32(quad * 146097)) * 4 + 3);
    date + U32(60 + U32(quad * 3) + extra / 146097)
  }

  function YearOf(date: int): int {
    var quad := U32(date / 1461);
    var rest := date - U32(quad * 1461);
    U32(rest * 4 / 1461 + U32(quad * 4)) - 4800
  }

  function ExtractYear(timestamp: Int64): int {
    var date := Day(timestamp) + POSTGRES_EPOCH_JDATE;
    if date < 0 || date > INT_MAX then -1 else YearOf(Shift(date))
  }

  // ---- Days.

  /** The day is the floor of the quotient, for negative timestamps too. */
  lemma {:induction false} DayIsFloor(timestamp: Int64)
    ensures Day(timestamp) * 86400000000 <= timestamp < (Day(timestamp) + 1) * 86400000000
  {
  }

  // ---- The calendar in closed form.

  /** Julian years: every fourth one has 366 days. */
  function JulianStart(y: int): int { 365 * y + (y + 3) / 4 }

  /** The century years up to `y` that are not leap. */
  function Skipped(y: int): int { (y + 99) / 100 - (y + 399) / 400 }

  lemma {:induction false} SkippedStep(y: int)
    ensures Skipped(y + 1) == Skipped(y) + (if y % 100 == 0 && y % 400 != 0 then 1 else 0)
  {
    CeilStep(y, 100);
    CeilStep(y, 400);
    Centuries(y);
  }

  lemma {:induction false} NewYearStep(y: int)
    ensures NewYear(y + 1) == NewYear(y) + YearLength(y)
  {
  }

  lemma {:induction false} JulianStep(y: int)
    ensures JulianStart(y + 1) == JulianStart(y) + (if y % 4 == 0 then 366 else 365)
  {
    CeilStep(y, 4);
  }

  lemma {:induction false} Centuries(y: int)
    ensures y % 100 == 0 ==> y % 4 == 0
    ensures y % 400 == 0 ==> y % 100 == 0
  {
    assert y == 4 * (25 * (y / 100)) + y % 100;
    assert y == 100 * (4 * (y / 400)) + y % 400;
  }

  lemma {:induction false} ClosedStep(y: int)
    ensures JulianStart(y + 1) - Skipped(y + 1) == JulianStart(y) - Skipped(y) + YearLength(y)
  {
    hide JulianStart, Skipped;
    SkippedStep(y);
    JulianStep(y);
    Centuries(y);
  }

  lemma {:induction false} NewYearClosed(y: int)
    ensures NewYear(y) == 1721060 + JulianStart(y) - Skipped(y)
    decreases if y > 2000 then y - 2000 else 2000 - y
  {
    if y > 2000 {
      NewYearClosed(y - 1);
      ClosedStep(y - 1);
    } else if y < 2000 {
      NewYearClosed(y + 1);
      ClosedStep(y);
    }
  }

  // ---- The formula.

  lemma {:induction false} Fits(x: int)
    requires 0 <= x < 0x1_0000_0000
    ensures U32(x) == x
  {
  }

  /** No unsigned word overflows. */
  lemma {:induction false} ShiftIs(day: int)
    requires 0 <= day <= INT_MAX
    ensures var d := day + 32044;
            Shift(day) == d + 60 + 3 * (d / 146097) + (4 * (d % 146097) + 3) / 146097
  {
    hide U32;
    var d := day + 32044;
    var q, r := d / 146097, d % 146097;
    assert d == 146097 * q + r && 0 <= q < 20000;
    Fits(q);
    Fits(q * 146097);
    Fits(4 * r + 3);
    Fits(q * 3);
    Fits(60 + q * 3 + (4 * r + 3) / 146097);
  }

  lemma {:induction false} YearOfIs(e: int)
    requires 0 <= e < 0x9000_0000
    ensures YearOf(e) == e % 1461 * 4 / 1461 + 4 * (e / 1461) - 4800
  {
    hide U32;
    var k, t := e / 1461, e % 1461;
    assert e == 1461 * k + t && 0 <= k < 2000000;
    Fits(k);
    Fits(k * 1461);
    Fits(k * 4);
    Fits(t * 4 / 1461 + k * 4);
  }

  /** Year `y` of the Julian count: `e` is in it. */
  lemma {:induction false} JulianYear(e: int)
    ensures var y := e % 1461 * 4 / 1461 + 4 * (e / 1461);
            JulianStart(y) <= e < JulianStart(y + 1)
  {
    var k, t := e / 1461, e % 1461;
    var j := t * 4 / 1461;
    assert 0 <= j <= 3 && 1461 * j <= 4 * t < 1461 * (j + 1);
    assert JulianStart(4 * k) == 1461 * k && JulianStart(4 * k + 1) == 1461 * k + 366;
    assert JulianStart(4 * k + 2) == 1461 * k + 731 && JulianStart(4 * k + 3) == 1461 * k + 1096;
    assert JulianStart(4 * k + 4) == 1461 * k + 1461;
  }

  /** The century `n = 4 q + c`, counted from March: where its days lie. */
  lemma {:induction false} Century(d: int)
    requires d >= 0
    ensures var q, r := d / 146097, d % 146097;
            var c := (4 * r + 3) / 146097;
            && 0 <= c <= 3
            && 36524 * (4 * q + c) + q <= d < 36524 * (4 * q + c + 1) + q + (if c == 3 then 1 else 0)
  {
    var q, r := d / 146097, d % 146097;
    var c := (4 * r + 3) / 146097;
    assert d == 146097 * q + r;
    assert 146097 * c <= 4 * r + 3 < 146097 * (c + 1);
  }

  lemma {:induction false} SkippedAt(q: int, c: int, y: int)
    requires 0 <= c <= 3 && 100 * (4 * q + c) <= y <= 100 * (4 * q + c) + 100
    ensures Skipped(y) == 3 * q + c - (if y == 100 * (4 * q + c) && c != 0 then 1 else 0)
  {
    var n := 4 * q + c;
    var i := if y == 100 * n then n else n + 1;
    var j := if y == 100 * n && c == 0 then q else q + 1;
    QuotientUnique(y + 99, i, y + 99 - 100 * i, 100);
    QuotientUnique(y + 399, j, y + 399 - 400 * j, 400);
  }

  lemma {:induction false} JulianMono(a: int, b: int)
    requires a <= b
    ensures JulianStart(a) <= JulianStart(b)
  {
  }

  /** A shifted day lies in its century or just after it. */
  lemma {:induction false} YearInCentury(n: int, e: int, y: int)
    requires 36525 * n + 60 <= e < 36525 * (n + 1) + 60 && JulianStart(y) <= e < JulianStart(y + 1)
    ensures 100 * n <= y <= 100 * n + 100
    ensures y == 100 * n ==> e - JulianStart(y) >= 60
    ensures y == 100 * n + 100 ==> e - JulianStart(y) < 60
  {
    assert JulianStart(100 * n) == 36525 * n && JulianStart(100 * n + 100) == 36525 * (n + 1);
    if y < 100 * n { JulianMono(y + 1, 100 * n); }
    if y > 100 * n + 100 { JulianMono(100 * n + 101, y); JulianStep(100 * n + 100); }
  }

  /** A day, its shifted form and the year of that: how far into the year the day is. */
  lemma {:induction false} DayOfYear(day: int, y: int)
    requires 0 <= day <= INT_MAX && JulianStart(y) <= Shift(day) < JulianStart(y + 1)
    ensures NewYear(y - 4800) <= day < NewYear(y - 4799)
  {
    hide JulianStart, Skipped, NewYear, YearLength, Shift;
    var d, e := day + 32044, Shift(day);
    var q, r := d / 146097, d % 146097;
    var c := (4 * r + 3) / 146097;
    ShiftIs(day);
    Century(d);
    JulianStep(y);
    YearInCentury(4 * q + c, e, y);
    SkippedAt(q, c, y);
    NewYearFrom4800(y);
    NewYearStep(y - 4800);
    WithinYear(q, c, y, e - JulianStart(y));
  }

  lemma {:induction false} TwelveCycles(y: int)
    ensures JulianStart(y - 4800) == JulianStart(y) - 1753200 && Skipped(y - 4800) == Skipped(y) - 36
  {
    ShiftDown(y + 3, 1200, 4);
    ShiftDown(y + 99, 48, 100);
    ShiftDown(y + 399, 12, 400);
  }

  lemma {:induction false} NewYearFrom4800(y: int)
    ensures NewYear(y - 4800) == JulianStart(y) - Skipped(y) - 32104
  {
    hide JulianStart, Skipped, NewYear;
    NewYearClosed(y - 4800);
    TwelveCycles(y);
  }

  lemma {:induction false} LeapCycle(y: int)
    ensures Leap(y - 4800) <==> Leap(y)
  {
    ShiftDown(y, 1200, 4);
    ShiftDown(y, 48, 100);
    ShiftDown(y, 12, 400);
  }

  lemma {:induction false} CenturyYear(q: int, c: int)
    requires 0 <= c <= 3
    ensures (100 * (4 * q + c)) % 4 == 0 && (Leap(100 * (4 * q + c)) <==> c == 0)
  {
    assert 100 * (4 * q + c) == 400 * q + 100 * c;
  }

  lemma {:induction false} InnerYear(n: int, y: int)
    requires 100 * n < y < 100 * n + 100
    ensures Leap(y) <==> y % 4 == 0
  {
  }

  /** Subtracting the century's correction keeps the day in the Gregorian year. */
  lemma {:induction false} WithinYear(q: int, c: int, y: int, t: int)
    requires 0 <= c <= 3 && 100 * (4 * q + c) <= y <= 100 * (4 * q + c) + 100
    requires 0 <= t < (if y % 4 == 0 then 366 else 365)
    requires y == 100 * (4 * q + c) ==> t >= 60
    requires y == 100 * (4 * q + c) + 100 ==> t < 60
    ensures 0 <= t - (if y == 100 * (4 * q + c) && c != 0 then 1 else 0) < YearLength(y - 4800)
  {
    hide Leap;
    LeapCycle(y);
    CenturyYear(q, c);
    if 100 * (4 * q + c) < y < 100 * (4 * q + c) + 100 { InnerYear(4 * q + c, y); }
  }

  lemma {:induction false} YearsApart(a: int, b: int)
    requires a < b
    ensures NewYear(a + 1) <= NewYear(b)
    decreases b - a
  {
    if a + 1 < b {
      YearsApart(a, b - 1);
      NewYearStep(b - 1);
    }
  }

  /** The year is the one the day lies in, and no other; days the formula cannot take give -1. */
  lemma {:induction false} ExtractYearExactly(timestamp: Int64, y: int)
    ensures var day := Day(timestamp) + 2451545;
            if 0 <= day <= 0x7FFF_FFFF then ExtractYear(timestamp) == y <==> NewYear(y) <= day < NewYear(y + 1)
            else ExtractYear(timestamp) == -1
  {
    var day := Day(timestamp) + POSTGRES_EPOCH_JDATE;
    if 0 <= day <= INT_MAX {
      var e := Shift(day);
      ShiftIs(day);
      YearOfIs(e);
      JulianYear(e);
      var z := ExtractYear(timestamp);
      DayOfYear(day, z + 4800);
      if y < z { YearsApart(y, z); }
      if z < y { YearsApart(z, y); }
    }
  }

  /** The calendar: 1 January 2000 is Julian day 2451545, and years have 365 or 366 days. */
  lemma {:induction false} CalendarIs(y: int)
    ensures NewYear(2000) == 2451545
    ensures NewYear(y + 1) - NewYear(y) == if y % 4 == 0 && (y % 100 != 0 || y % 400 == 0) then 366 else 365
  {
    NewYearStep(y);
  }

  /** Timestamps count from the start of 2000: that year has the microseconds of 366 days. */
  lemma {:induction false} FirstYear(timestamp: Int64)
    ensures ExtractYear(timestamp) == 2000 <==> 0 <= timestamp < 366 * 86400000000
    ensures ExtractYear(timestamp) == 1999 <==> -365 * 86400000000 <= timestamp < 0
  {
    hide ExtractYear, Day;
    CalendarIs(1999);
    CalendarIs(2000);
    DayIsFloor(timestamp);
    ExtractYearExactly(timestamp, 2000);
    ExtractYearExactly(timestamp, 1999);
  }
}
