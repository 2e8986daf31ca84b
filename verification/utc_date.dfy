/**
  UTC calendar dates as the daily-reward gate sees them: the calendar fields a
  JavaScript Date reports in UTC, the day count `Date.UTC` turns them into, and
  the `YYYY-MM-DD` text (the full-date of RFC 3339, section 5.6) the gate stores.
 */
module UtcDate {
  import opened Wrappers

  /** A proleptic Gregorian calendar date; month 1..12 and day 1..31 as written in text. */
  datatype Date = Date(year: nat, month: int, day: int)

  predicate IsLeapYear(y: int) {
    y % 4 == 0 && (y % 100 != 0 || y % 400 == 0)
  }

  function DaysInMonth(y: int, m: int): int {
    if m == 2 then (if IsLeapYear(y) then 29 else 28)
    else if m == 4 || m == 6 || m == 9 || m == 11 then 30
    else 31
  }

  function YearLength(y: int): int {
    if IsLeapYear(y) then 366 else 365
  }

  /** A calendar date that exists. */
  predicate Valid(d: Date) {
    1 <= d.month <= 12 && 1 <= d.day <= DaysInMonth(d.year, d.month)
  }

  // ---------------------------------------------------------------------------
  // Day numbers: the day part of the time value `Date.UTC` produces.
  // ---------------------------------------------------------------------------

  /** Days in the months of year y before month m. */
  function DaysBeforeMonth(y: int, m: int): (r: int)
    requires 1 <= m <= 13
    ensures r >= 0
  {
    if m == 1 then 0 else DaysBeforeMonth(y, m - 1) + DaysInMonth(y, m - 1)
  }

  /** Leap years among the years 0 .. y - 1 (year 0 is one). */
  function LeapYearsBefore(y: nat): int {
    (y + 3) / 4 - (y + 99) / 100 + (y + 399) / 400
  }

  /** Days from 0000-01-01 to the first day of year y. */
  function DaysBeforeYear(y: nat): int {
    365 * y + LeapYearsBefore(y)
  }

  /** `Date.UTC(y, m - 1, d)` divided by the milliseconds of a day, counted from 0000-01-01.
      A day past the end of its month rolls over into the next month, as `Date.UTC` does. */
  function DayCount(y: nat, m: int, d: int): int
    requires 1 <= m <= 12
  {
    DaysBeforeYear(y) + DaysBeforeMonth(y, m) + d - 1
  }

  /** `Date.UTC` reads a year 0..99 as 1900..1999. */
  function UtcYear(y: nat): (r: nat)
    ensures 0 <= y <= 99 ==> r == 1900 + y
    ensures y >= 100 ==> r == y
  {
    if y <= 99 then 1900 + y else y
  }

  /** The day `Date.UTC(d.year, d.month - 1, d.day)` falls on. */
  function UtcDayNumber(d: Date): int
    requires 1 <= d.month <= 12
  {
    DayCount(UtcYear(d.year), d.month, d.day)
  }

  /** The calendar order of dates: by year, then month, then day. */
  predicate Before(a: Date, b: Date) {
    || a.year < b.year
    || (a.year == b.year && a.month < b.month)
    || (a.year == b.year && a.month == b.month && a.day < b.day)
  }

  /** Multiples of k below y + 1 against those below y: one more exactly when k divides y. */
  lemma CeilStep4(y: nat)
    ensures (y + 4) / 4 - (y + 3) / 4 == if y % 4 == 0 then 1 else 0
  {
    var q, r := y / 4, y % 4;
    assert y == 4 * q + r;
    assert (y + 4) / 4 == q + 1;
    assert (y + 3) / 4 == if r == 0 then q else q + 1;
  }

  lemma CeilStep100(y: nat)
    ensures (y + 100) / 100 - (y + 99) / 100 == if y % 100 == 0 then 1 else 0
  {
    var q, r := y / 100, y % 100;
    assert y == 100 * q + r;
    assert (y + 100) / 100 == q + 1;
    assert (y + 99) / 100 == if r == 0 then q else q + 1;
  }

  lemma CeilStep400(y: nat)
    ensures (y + 400) / 400 - (y + 399) / 400 == if y % 400 == 0 then 1 else 0
  {
    var q, r := y / 400, y % 400;
    assert y == 400 * q + r;
    assert (y + 400) / 400 == q + 1;
    assert (y + 399) / 400 == if r == 0 then q else q + 1;
  }

  /** A multiple of 400 is one of 100, and a multiple of 100 is one of 4. */
  lemma DivisorChain(y: nat)
    ensures y % 400 == 0 ==> y % 100 == 0
    ensures y % 100 == 0 ==> y % 4 == 0
  {
    if y % 400 == 0 {
      var q := y / 400;
      assert y == 100 * (4 * q);
    }
    if y % 100 == 0 {
      var q := y / 100;
      assert y == 4 * (25 * q);
    }
  }

  /** The leap-year count grows by one exactly across a leap year. */
  lemma DaysBeforeYearStep(y: nat)
    ensures DaysBeforeYear(y + 1) == DaysBeforeYear(y) + YearLength(y)
  {
    CeilStep4(y);
    CeilStep100(y);
    CeilStep400(y);
    DivisorChain(y);
    assert LeapYearsBefore(y + 1) - LeapYearsBefore(y) == if IsLeapYear(y) then 1 else 0;
  }

  lemma {:induction false} DaysBeforeYearMonotone(a: nat, b: nat)
    requires a <= b
    ensures DaysBeforeYear(a) + 365 * (b - a) <= DaysBeforeYear(b)
    decreases b - a
  {
    if a < b {
      DaysBeforeYearStep(a);
      DaysBeforeYearMonotone(a + 1, b);
    }
  }

  /** The twelve months add up to the year. */
  lemma MonthsMakeYear(y: int)
    ensures DaysBeforeMonth(y, 13) == YearLength(y)
  {
    assert DaysBeforeMonth(y, 2) == 31;
    assert DaysBeforeMonth(y, 3) == 31 + DaysInMonth(y, 2);
    assert DaysBeforeMonth(y, 4) == DaysBeforeMonth(y, 3) + 31;
    assert DaysBeforeMonth(y, 5) == DaysBeforeMonth(y, 3) + 61;
    assert DaysBeforeMonth(y, 6) == DaysBeforeMonth(y, 3) + 92;
    assert DaysBeforeMonth(y, 7) == DaysBeforeMonth(y, 3) + 122;
    assert DaysBeforeMonth(y, 8) == DaysBeforeMonth(y, 3) + 153;
    assert DaysBeforeMonth(y, 9) == DaysBeforeMonth(y, 3) + 184;
    assert DaysBeforeMonth(y, 10) == DaysBeforeMonth(y, 3) + 214;
    assert DaysBeforeMonth(y, 11) == DaysBeforeMonth(y, 3) + 245;
    assert DaysBeforeMonth(y, 12) == DaysBeforeMonth(y, 3) + 275;
  }

  lemma {:induction false} DaysBeforeMonthMonotone(y: int, m: int, n: int)
    requires 1 <= m <= n <= 13
    ensures DaysBeforeMonth(y, m) + 28 * (n - m) <= DaysBeforeMonth(y, n)
    decreases n - m
  {
    if m < n {
      DaysBeforeMonthMonotone(y, m, n - 1);
    }
  }

  /** A valid date's day number lies inside its year. */
  lemma DayCountInYear(d: Date)
    requires Valid(d)
    ensures DaysBeforeYear(d.year) <= DayCount(d.year, d.month, d.day) < DaysBeforeYear(d.year + 1)
  {
    DaysBeforeMonthMonotone(d.year, d.month + 1, 13);
    MonthsMakeYear(d.year);
    DaysBeforeYearStep(d.year);
  }

  /** Dates of different years are ordered by year. */
  lemma DayCountAcrossYears(a: Date, b: Date)
    requires Valid(a) && Valid(b) && a.year < b.year
    ensures DayCount(a.year, a.month, a.day) < DayCount(b.year, b.month, b.day)
  {
    DayCountInYear(a);
    DayCountInYear(b);
    DaysBeforeYearMonotone(a.year + 1, b.year);
  }

  /** Dates of one year and different months are ordered by month. */
  lemma DayCountAcrossMonths(a: Date, b: Date)
    requires Valid(a) && Valid(b) && a.year == b.year && a.month < b.month
    ensures DayCount(a.year, a.month, a.day) < DayCount(b.year, b.month, b.day)
  {
    var y := a.year;
    var next := DaysBeforeMonth(y, a.month + 1);
    assert next == DaysBeforeMonth(y, a.month) + DaysInMonth(y, a.month);
    assert DaysBeforeMonth(y, a.month) + a.day - 1 < next;
    DaysBeforeMonthMonotone(y, a.month + 1, b.month);
    assert next <= DaysBeforeMonth(y, b.month);
  }

  /** For dates that exist, comparing day numbers is comparing calendar dates: the
      time of day plays no part. */
  lemma DayCountOrder(a: Date, b: Date)
    requires Valid(a) && Valid(b)
    ensures DayCount(a.year, a.month, a.day) < DayCount(b.year, b.month, b.day) <==> Before(a, b)
    ensures DayCount(a.year, a.month, a.day) == DayCount(b.year, b.month, b.day) <==> a == b
  {
    if a.year < b.year {
      DayCountAcrossYears(a, b);
    } else if b.year < a.year {
      DayCountAcrossYears(b, a);
    } else if a.month < b.month {
      DayCountAcrossMonths(a, b);
    } else if b.month < a.month {
      DayCountAcrossMonths(b, a);
    }
  }

  /** From the year 100 on, `Date.UTC` keeps the year, so its day order is the calendar order. */
  lemma UtcDayNumberOrder(a: Date, b: Date)
    requires Valid(a) && Valid(b) && a.year >= 100 && b.year >= 100
    ensures UtcDayNumber(a) < UtcDayNumber(b) <==> Before(a, b)
  {
    DayCountOrder(a, b);
  }

  /** A stored date in the years 0..99 is compared as the same day in 1900..1999: against a
      date from the year 100 on, it comes earlier exactly when its 19xx twin does. */
  lemma TwoDigitYearComparesAs19xx(last: Date, today: Date)
    requires Valid(last) && last.year <= 99 && Valid(Date(1900 + last.year, last.month, last.day))
    requires Valid(today) && today.year >= 100
    ensures UtcDayNumber(today) > UtcDayNumber(last)
      <==> Before(Date(1900 + last.year, last.month, last.day), today)
  {
    UtcDayNumberOrder(Date(1900 + last.year, last.month, last.day), today);
  }

  /** The calendar day after d. */
  function NextDay(d: Date): (r: Date)
    requires Valid(d)
    ensures Valid(r) && Before(d, r)
  {
    if d.day < DaysInMonth(d.year, d.month) then Date(d.year, d.month, d.day + 1)
    else if d.month < 12 then Date(d.year, d.month + 1, 1)
    else Date(d.year + 1, 1, 1)
  }

  /** The next day is exactly one day number later. */
  lemma NextDayCount(d: Date)
    requires Valid(d)
    ensures DayCount(NextDay(d).year, NextDay(d).month, NextDay(d).day) == DayCount(d.year, d.month, d.day) + 1
  {
    if d.day == DaysInMonth(d.year, d.month) && d.month == 12 {
      MonthsMakeYear(d.year);
      DaysBeforeYearStep(d.year);
    }
  }

  // ---------------------------------------------------------------------------
  // The `YYYY-MM-DD` text.
  // ---------------------------------------------------------------------------

  predicate IsDigit(c: char) {
    '0' <= c <= '9'
  }

  function DigitChar(n: int): (c: char)
    requires 0 <= n <= 9
    ensures IsDigit(c)
  {
    (48 + n) as char
  }

  function DigitValue(c: char): int
    requires IsDigit(c)
  {
    c as int - 48
  }

  predicate AllDigits(s: string) {
    forall i :: 0 <= i < |s| ==> IsDigit(s[i])
  }

  /** `String(n)` for a non-negative integer: its decimal digits, no leading zero. */
  function DecimalString(n: nat): (r: string)
    ensures |r| >= 1 && AllDigits(r)
    ensures r[0] != '0' || n == 0
  {
    if n < 10 then [DigitChar(n)] else DecimalString(n / 10) + [DigitChar(n % 10)]
  }

  /** The value of a string of decimal digits. */
  function DigitsValue(s: string): (r: nat)
    requires AllDigits(s)
  {
    if s == [] then 0 else 10 * DigitsValue(s[..|s| - 1]) + DigitValue(s[|s| - 1])
  }

  /** `String(n).padStart(2, '0')`. */
  function PadStart2(n: nat): (r: string)
    ensures |r| >= 2 && AllDigits(r)
  {
    var s := DecimalString(n);
    if |s| < 2 then ['0'] + s else s
  }

  /** The text the gate stores: the year unpadded, month and day padded to two digits. */
  function FormatDate(d: Date): string
    requires Valid(d)
  {
    DecimalString(d.year) + ['-'] + PadStart2(d.month) + ['-'] + PadStart2(d.day)
  }

  /** Reading a full-date `YYYY-MM-DD` that names an existing day; any other text is no date.
      (A timestamp or a year of other than four digits is outside this model.) */
  function ParseFullDate(s: string): (r: Option<Date>)
    ensures r.Some? ==> Valid(r.value) && r.value.year <= 9999
  {
    if |s| == 10 && s[4] == '-' && s[7] == '-'
       && AllDigits(s[0..4]) && AllDigits(s[5..7]) && AllDigits(s[8..10])
    then
      var d := Date(DigitsValue(s[0..4]), DigitsValue(s[5..7]), DigitsValue(s[8..10]));
      if Valid(d) && d.year <= 9999 then Some(d) else None
    else None
  }

  /** Reading back the decimal digits of n gives n. */
  lemma {:induction false} DecimalStringValue(n: nat)
    ensures DigitsValue(DecimalString(n)) == n
  {
    if n >= 10 {
      DecimalStringValue(n / 10);
      var s := DecimalString(n);
      assert s[..|s| - 1] == DecimalString(n / 10);
    }
  }

  /** A digit string with no leading zero is the decimal text of its value. */
  lemma {:induction false} DigitsValueString(s: string)
    requires |s| >= 1 && AllDigits(s) && s[0] != '0'
    ensures DigitsValue(s) >= 1
    ensures DecimalString(DigitsValue(s)) == s
    decreases |s|
  {
    if |s| > 1 {
      var init, last := s[..|s| - 1], s[|s| - 1];
      DigitsValueString(init);
      var n, v := DigitsValue(s), DigitsValue(init);
      assert n == 10 * v + DigitValue(last);
      assert n / 10 == v && n % 10 == DigitValue(last);
      assert DecimalString(n) == DecimalString(v) + [DigitChar(DigitValue(last))];
      assert s == init + [last];
    }
  }

  /** The four-digit years are those whose decimal text has four characters. */
  lemma DecimalStringLength4(n: nat)
    requires 1000 <= n <= 9999
    ensures |DecimalString(n)| == 4
  {
    assert |DecimalString(n / 1000)| == 1;
    assert |DecimalString(n / 100)| == 2 by {
      assert (n / 100) / 10 == n / 1000;
    }
    assert |DecimalString(n / 10)| == 3 by {
      assert (n / 10) / 10 == n / 100;
    }
  }

  lemma PadStart2Value(n: nat)
    requires 1 <= n <= 99
    ensures |PadStart2(n)| == 2
    ensures DigitsValue(PadStart2(n)) == n
  {
    DecimalStringValue(n);
    var p := PadStart2(n);
    if n < 10 {
      assert p[..1] == ['0'];
    }
  }

  lemma PadStart2Text(t: string)
    requires |t| == 2 && AllDigits(t) && 1 <= DigitsValue(t) <= 99
    ensures PadStart2(DigitsValue(t)) == t
  {
    var n := DigitsValue(t);
    assert t[..1] == [t[0]];
    if t[0] == '0' {
      assert n == DigitValue(t[1]);
    } else {
      DigitsValueString(t);
    }
  }

  /** Where the pieces of a formatted four-digit-year date sit in its text. */
  lemma FormatDatePieces(d: Date)
    requires Valid(d) && 1000 <= d.year <= 9999
    ensures |FormatDate(d)| == 10
    ensures FormatDate(d)[4] == '-' && FormatDate(d)[7] == '-'
    ensures FormatDate(d)[0..4] == DecimalString(d.year)
    ensures FormatDate(d)[5..7] == PadStart2(d.month)
    ensures FormatDate(d)[8..10] == PadStart2(d.day)
  {
    DecimalStringLength4(d.year);
    PadStart2Value(d.month);
    PadStart2Value(d.day);
    var s := FormatDate(d);
    assert s == DecimalString(d.year) + ['-'] + PadStart2(d.month) + ['-'] + PadStart2(d.day);
  }

  /** The stored text of a date with a four-digit year reads back as that date. */
  lemma FormatParse(d: Date)
    requires Valid(d) && 1000 <= d.year <= 9999
    ensures ParseFullDate(FormatDate(d)) == Some(d)
  {
    FormatDatePieces(d);
    DecimalStringValue(d.year);
    PadStart2Value(d.month);
    PadStart2Value(d.day);
  }

  /** Conversely a full-date with a year from 1000 on is the stored text of the date it reads as. */
  lemma ParseFormat(s: string)
    requires ParseFullDate(s).Some? && ParseFullDate(s).value.year >= 1000
    ensures FormatDate(ParseFullDate(s).value) == s
  {
    var d := ParseFullDate(s).value;
    var y := s[0..4];
    if y[0] == '0' {
      assert DigitsValue(y) == DigitsValue(y[1..]) by {
        ZeroLeadValue(y);
      }
      assert DigitsValue(y[1..]) <= 999 by {
        DigitsValueBound(y[1..]);
      }
    }
    DigitsValueString(y);
    PadStart2Text(s[5..7]);
    PadStart2Text(s[8..10]);
    FormatDatePieces(d);
    assert s == s[0..4] + ['-'] + s[5..7] + ['-'] + s[8..10];
  }

  /** A leading zero adds nothing to a digit string's value. */
  lemma {:induction false} ZeroLeadValue(s: string)
    requires |s| >= 1 && AllDigits(s) && s[0] == '0'
    ensures DigitsValue(s) == DigitsValue(s[1..])
    decreases |s|
  {
    if |s| > 1 {
      ZeroLeadValue(s[..|s| - 1]);
      assert s[..|s| - 1][1..] == s[1..][..|s[1..]| - 1];
    }
  }

  /** Three digits make at most 999. */
  lemma DigitsValueBound(s: string)
    requires |s| == 3 && AllDigits(s)
    ensures DigitsValue(s) <= 999
  {
    var a, b := s[..1], s[..2];
    assert b[..1] == a && s[..2] == b;
    assert DigitsValue(a) <= 9;
    assert DigitsValue(b) <= 99;
  }
}
