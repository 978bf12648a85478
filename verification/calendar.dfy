/**
 * Calendar dates as the ledger sees them, the Gregorian month lengths behind
 * `new Date(y, m, 0)`, and the `YYYY-MM` month keys used by the month filter
 * and the month selector.
 */
module Calendar {
  import opened Wrappers
  import opened Text

  /** A calendar date with a 1-indexed month; transactions have no time of day. */
  datatype Date = Date(year: nat, month: nat, day: nat)

  predicate IsLeapYear(y: int) {
    (y % 4 == 0 && y % 100 != 0) || y % 400 == 0
  }

  function DaysInMonth(y: int, m: nat): (n: nat)
    requires 1 <= m <= 12
    ensures 28 <= n <= 31
    ensures n == 31 <==> m in {1, 3, 5, 7, 8, 10, 12}
    ensures n == 29 <==> m == 2 && IsLeapYear(y)
    ensures n == 28 <==> m == 2 && !IsLeapYear(y)
    ensures n == 30 <==> m in {4, 6, 9, 11}
  {
    if m == 2 then (if IsLeapYear(y) then 29 else 28)
    else if m == 4 || m == 6 || m == 9 || m == 11 then 30
    else 31
  }

  /** A date an ISO `YYYY-MM-DD` string can hold, with a four-digit year. */
  predicate ValidDate(d: Date) {
    1000 <= d.year <= 9999 && 1 <= d.month <= 12 && 1 <= d.day <= DaysInMonth(d.year, d.month)
  }

  /**
   * `new Date(y, m, 0).getDate()`: day 0 of the month with 0-based index `m`
   * is the last day of the month before it. JavaScript reads a year in 0..99
   * as 1900 + year and carries a month index outside 0..11 into the year.
   */
  function JsDaysInMonth(y: int, m: int): (n: nat)
    ensures 28 <= n <= 31
  {
    var fullYear := if 0 <= y <= 99 then 1900 + y else y;
    var index := m - 1;
    DaysInMonth(fullYear + index / 12, index % 12 + 1)
  }

  lemma JsDaysInMonthIsGregorian(y: int, m: int)
    requires y >= 100 && 1 <= m <= 12
    ensures JsDaysInMonth(y, m) == DaysInMonth(y, m)
  {
  }

  /** The day of a calendar date is one of the days JavaScript counts in its month. */
  lemma DayWithinJsMonth(d: Date)
    requires ValidDate(d)
    ensures 1 <= d.day <= JsDaysInMonth(d.year, d.month)
  {
    JsDaysInMonthIsGregorian(d.year, d.month);
  }

  /** `a` is on or before `b` in calendar order. */
  predicate OnOrBefore(a: Date, b: Date) {
    a.year < b.year || (a.year == b.year && (a.month < b.month || (a.month == b.month && a.day <= b.day)))
  }

  /** `${year}-${String(month).padStart(2, '0')}` with a 1-indexed month. */
  function MonthKey(year: nat, month: nat): string {
    NatToString(year) + "-" + PadZeros(NatToString(month), 2)
  }

  /** The month key of a date, as the month filter builds it. */
  function KeyOf(d: Date): (key: string)
    ensures ParseMonthKey(key) == Some((d.year, d.month))
  {
    MonthKeyRoundTrip(d.year, d.month);
    MonthKey(d.year, d.month)
  }

  /** The `YYYY-MM-DD` text of a date with a four-digit year, as `toISOString` writes it. */
  function IsoDate(d: Date): string {
    NatToString(d.year) + "-" + PadZeros(NatToString(d.month), 2) + "-" + PadZeros(NatToString(d.day), 2)
  }

  /**
   * `key.split('-').map(Number)` read as `[year, month]`, for keys of the
   * shape digits, dash, digits; anything else has no year and month.
   */
  function ParseMonthKey(key: string): Option<(nat, nat)> {
    var i := IndexOf(key, '-');
    if i < |key| && 0 < i < |key| - 1 && AllDigits(key[..i]) && AllDigits(key[i + 1..]) then
      Some((ParseNat(key[..i]), ParseNat(key[i + 1..])))
    else
      None
  }

  /** Every month key reads back as the year and month it was built from. */
  lemma MonthKeyRoundTrip(year: nat, month: nat)
    ensures ParseMonthKey(MonthKey(year, month)) == Some((year, month))
  {
    var a := NatToString(year);
    var b := PadZeros(NatToString(month), 2);
    SplitAfterDigits(a, '-', b);
    ParseNatToString(year);
    PaddedRoundTrip(month, 2);
  }

  /** Two month keys are equal exactly when their years and months are. */
  lemma MonthKeyInjective(y1: nat, m1: nat, y2: nat, m2: nat)
    ensures MonthKey(y1, m1) == MonthKey(y2, m2) <==> y1 == y2 && m1 == m2
  {
    MonthKeyRoundTrip(y1, m1);
    MonthKeyRoundTrip(y2, m2);
  }
}
