/**
 * Calendar dates as the dashboard uses them through date-fns: a day is a
 * (year, month, day) triple at local midnight, compared with `isAfter`,
 * stepped with `startOfMonth` and `subDays(·, 1)`, and written with
 * `format(·, "yyyy/MM/dd")` or `format(·, "yyyy/MM")`. Years follow the
 * proleptic Gregorian calendar of JavaScript's `Date`.
 */
module Dates {
  import opened Wrappers
  import opened Text

  datatype Date = Date(year: int, month: int, day: int)

  predicate IsLeapYear(y: int)
  {
    y % 4 == 0 && (y % 100 != 0 || y % 400 == 0)
  }

  function DaysInMonth(y: int, m: int): (n: int)
    requires 1 <= m <= 12
    ensures 28 <= n <= 31
  {
    if m == 2 then (if IsLeapYear(y) then 29 else 28)
    else if m == 4 || m == 6 || m == 9 || m == 11 then 30
    else 31
  }

  /** A triple that names a real calendar day, as every JavaScript `Date` does. */
  predicate Valid(d: Date)
  {
    1 <= d.month <= 12 && 1 <= d.day <= DaysInMonth(d.year, d.month)
  }

  /** date-fns `isAfter(a, b)` on two midnights: `a` is a strictly later day than `b`. */
  predicate IsAfter(a: Date, b: Date)
  {
    a.year > b.year
    || (a.year == b.year && (a.month > b.month || (a.month == b.month && a.day > b.day)))
  }

  /** `isAfter` on days is a strict total order. */
  lemma IsAfterStrictTotalOrder(a: Date, b: Date, c: Date)
    ensures !IsAfter(a, a)
    ensures IsAfter(a, b) ==> !IsAfter(b, a)
    ensures IsAfter(a, b) && IsAfter(b, c) ==> IsAfter(a, c)
    ensures a != b ==> IsAfter(a, b) || IsAfter(b, a)
  {
  }

  /** date-fns `startOfMonth`: the first day of the same month. */
  function StartOfMonth(d: Date): (r: Date)
    requires Valid(d)
    ensures Valid(r) && r.year == d.year && r.month == d.month && r.day == 1
    ensures !IsAfter(r, d)
  {
    Date(d.year, d.month, 1)
  }

  /** date-fns `subDays(d, 1)` on a midnight: the calendar day before `d`. */
  function PreviousDay(d: Date): (r: Date)
    requires Valid(d)
    ensures Valid(r) && IsAfter(d, r)
  {
    if d.day > 1 then Date(d.year, d.month, d.day - 1)
    else if d.month > 1 then Date(d.year, d.month - 1, DaysInMonth(d.year, d.month - 1))
    else Date(d.year - 1, 12, 31)
  }

  /** No calendar day lies strictly between a day and the day before it. */
  lemma PreviousDayIsImmediate(d: Date, e: Date)
    requires Valid(d) && Valid(e) && IsAfter(d, e)
    ensures !IsAfter(e, PreviousDay(d))
  {
  }

  /**
   * `subDays(startOfMonth(date), 1)`, the day the dashboard asks for the
   * country list of: the last day of the calendar month before `d`.
   */
  function LastDayOfPreviousMonth(d: Date): (r: Date)
    requires Valid(d)
    ensures Valid(r)
    ensures r.year * 12 + r.month == d.year * 12 + d.month - 1
    ensures r.day == DaysInMonth(r.year, r.month)
  {
    PreviousDay(StartOfMonth(d))
  }

  /** The previous month depends on the year and month of `d` only, never on its day. */
  lemma LastDayOfPreviousMonthIgnoresDay(d1: Date, d2: Date)
    requires Valid(d1) && Valid(d2)
    requires d1.year == d2.year && d1.month == d2.month
    ensures LastDayOfPreviousMonth(d1) == LastDayOfPreviousMonth(d2)
  {
  }

  /**
   * The `yyyy` token: the year of the era (a year `y <= 0` of the proleptic
   * calendar is the year `1 - y` before Christ), zero-padded to four digits.
   */
  function YearToken(y: int): (r: string)
    ensures AllDigits(r) && 4 <= |r|
    ensures ParseDecimal(r) == if y > 0 then y else 1 - y
  {
    ZeroPad(if y > 0 then y else 1 - y, 4)
  }

  /** A month or day number, zero-padded to two digits (`MM`, `dd`). */
  function TwoDigits(n: nat): (r: string)
    requires 1 <= n <= 31
    ensures AllDigits(r) && |r| == 2 && ParseDecimal(r) == n
  {
    DecimalLength(n, 2);
    ZeroPad(n, 2)
  }

  /** `format(d, "yyyy/MM")`. */
  function FormatMonth(d: Date): (r: string)
    requires Valid(d)
    ensures 7 <= |r| && r[|r| - 3] == '/'
    ensures r[..|r| - 3] == YearToken(d.year)
    ensures AllDigits(r[|r| - 2..]) && ParseDecimal(r[|r| - 2..]) == d.month
  {
    var r := YearToken(d.year) + "/" + TwoDigits(d.month);
    assert r[..|r| - 3] == YearToken(d.year);
    assert r[|r| - 2..] == TwoDigits(d.month);
    r
  }

  /** `format(d, "yyyy/MM/dd")`. */
  function FormatDate(d: Date): (r: string)
    requires Valid(d)
    ensures 10 <= |r| && r[|r| - 3] == '/' && r[|r| - 6] == '/'
    ensures r[..|r| - 6] == YearToken(d.year)
    ensures AllDigits(r[|r| - 5..|r| - 3]) && ParseDecimal(r[|r| - 5..|r| - 3]) == d.month
    ensures AllDigits(r[|r| - 2..]) && ParseDecimal(r[|r| - 2..]) == d.day
  {
    var r := YearToken(d.year) + "/" + TwoDigits(d.month) + "/" + TwoDigits(d.day);
    assert r[..|r| - 6] == YearToken(d.year);
    assert r[|r| - 5..|r| - 3] == TwoDigits(d.month);
    assert r[|r| - 2..] == TwoDigits(d.day);
    r
  }

  /** The inverse of `FormatMonth` on four-digit years: reads `yyyy/MM` back as (year, month). */
  function ParseMonth(s: string): (r: Option<(int, int)>)
  {
    if |s| == 7 && s[4] == '/' && AllDigits(s[..4]) && AllDigits(s[5..])
    then Some((ParseDecimal(s[..4]), ParseDecimal(s[5..])))
    else None
  }

  /** The inverse of `FormatDate` on four-digit years: reads `yyyy/MM/dd` back as a date. */
  function ParseDate(s: string): (r: Option<Date>)
  {
    if |s| == 10 && s[7] == '/' && ParseMonth(s[..7]).Some? && AllDigits(s[8..])
    then
      var ym := ParseMonth(s[..7]).value;
      Some(Date(ym.0, ym.1, ParseDecimal(s[8..])))
    else None
  }

  /** A four-digit year of the common era writes as exactly four digits of its own value. */
  lemma YearTokenFourDigits(y: int)
    requires 1 <= y <= 9999
    ensures |YearToken(y)| == 4 && ParseDecimal(YearToken(y)) == y
  {
    assert Pow10(4) == 10000;
    DecimalLength(y, 4);
  }

  /** From year 10000 on, `yyyy` writes five digits or more. */
  lemma YearTokenLongFromTenThousand(y: int)
    requires 10000 <= y
    ensures 5 <= |YearToken(y)|
  {
    assert Pow10(4) == 10000;
    DecimalLengthAtLeast(y, 5);
  }

  /** Year 0 (1 BC) and year 1 share the `yyyy` token `0001`, so their days are written alike. */
  lemma YearZeroCollidesWithYearOne()
    ensures FormatDate(Date(0, 1, 1)) == FormatDate(Date(1, 1, 1)) == "0001/01/01"
    ensures FormatMonth(Date(0, 1, 1)) == FormatMonth(Date(1, 1, 1)) == "0001/01"
  {
  }

  /** Reading a formatted month back gives its year and month (years 1 to 9999). */
  lemma {:induction false} ParseFormatMonth(d: Date)
    requires Valid(d)
    ensures 1 <= d.year <= 9999 ==> ParseMonth(FormatMonth(d)) == Some((d.year, d.month))
  {
    if !(1 <= d.year <= 9999) { return; }
    YearTokenFourDigits(d.year);
    var s := FormatMonth(d);
    assert s[..4] == YearToken(d.year);
    assert s[5..] == TwoDigits(d.month);
  }

  /** Reading a formatted date back gives the date (years 1 to 9999). */
  lemma {:induction false} ParseFormatDate(d: Date)
    requires Valid(d)
    ensures 1 <= d.year <= 9999 ==> ParseDate(FormatDate(d)) == Some(d)
  {
    if !(1 <= d.year <= 9999) { return; }
    var s := FormatDate(d);
    YearTokenFourDigits(d.year);
    assert s[..7] == FormatMonth(d);
    ParseFormatMonth(d);
    assert s[8..] == TwoDigits(d.day);
  }

  /** Two different days of years 1 to 9999 are never written the same way. */
  lemma FormatDateInjective(d1: Date, d2: Date)
    requires Valid(d1) && 1 <= d1.year <= 9999
    requires Valid(d2) && 1 <= d2.year <= 9999
    requires FormatDate(d1) == FormatDate(d2)
    ensures d1 == d2
  {
    ParseFormatDate(d1);
    ParseFormatDate(d2);
  }

  /** Two different months of years 1 to 9999 are never written the same way. */
  lemma FormatMonthInjective(d1: Date, d2: Date)
    requires Valid(d1) && 1 <= d1.year <= 9999
    requires Valid(d2) && 1 <= d2.year <= 9999
    requires FormatMonth(d1) == FormatMonth(d2)
    ensures d1.year == d2.year && d1.month == d2.month
  {
    ParseFormatMonth(d1);
    ParseFormatMonth(d2);
  }
}
