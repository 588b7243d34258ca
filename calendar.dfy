/**
 * Proleptic Gregorian calendar dates, as Go's `time.Time` presents them in UTC
 * (the clock part is always midnight in this service and is not modelled).
 */
module Calendar {

  datatype Date = Date(year: int, month: int, day: int)

  predicate IsLeapYear(y: int) {
    y % 4 == 0 && (y % 100 != 0 || y % 400 == 0)
  }

  function DaysIn(y: int, m: int): (n: int)
    requires 1 <= m <= 12
    ensures 28 <= n <= 31
    ensures n == 29 <==> m == 2 && IsLeapYear(y)
  {
    if m == 2 then (if IsLeapYear(y) then 29 else 28)
    else if m == 4 || m == 6 || m == 9 || m == 11 then 30
    else 31
  }

  predicate Valid(d: Date) {
    1 <= d.month <= 12 && 1 <= d.day <= DaysIn(d.year, d.month)
  }

  /** A date that exists on the calendar: every `time.Time` has one. */
  type CalendarDate = d: Date | Valid(d) witness Date(1970, 1, 1)

  /** Chronological order of calendar dates (`!a.After(b)` in Go). */
  predicate LessEq(a: Date, b: Date) {
    a.year < b.year || (a.year == b.year && (a.month < b.month || (a.month == b.month && a.day <= b.day)))
  }

  /** Months counted from January of year 0: the month a date falls in, as one number. */
  function MonthIndex(d: Date): int {
    d.year * 12 + (d.month - 1)
  }

  function FirstOfMonth(d: CalendarDate): (r: CalendarDate)
    ensures r.day == 1 && MonthIndex(r) == MonthIndex(d) && LessEq(r, d)
  {
    Date(d.year, d.month, 1)
  }

  function NextDay(d: CalendarDate): (r: CalendarDate)
    ensures LessEq(d, r) && r != d
  {
    if d.day < DaysIn(d.year, d.month) then Date(d.year, d.month, d.day + 1)
    else if d.month < 12 then Date(d.year, d.month + 1, 1)
    else Date(d.year + 1, 1, 1)
  }

  function PrevDay(d: CalendarDate): (r: CalendarDate)
    ensures LessEq(r, d) && r != d
  {
    if d.day > 1 then Date(d.year, d.month, d.day - 1)
    else if d.month > 1 then Date(d.year, d.month - 1, DaysIn(d.year, d.month - 1))
    else Date(d.year - 1, 12, 31)
  }

  /** The date `k` days after `d` (before it when `k` is negative). */
  function AddDays(d: CalendarDate, k: int): CalendarDate
    decreases if k < 0 then -k else k
  {
    if k == 0 then d
    else if k > 0 then AddDays(NextDay(d), k - 1)
    else AddDays(PrevDay(d), k + 1)
  }

  /**
   * Go's `time.Date(y, m, d, ...)`: a month outside 1..12 carries into the
   * year (floor division), then the day is counted from the first of that
   * month, so day 0 is the last day of the month before.
   */
  function Normalize(y: int, m: int, d: int): (r: CalendarDate)
    ensures 1 <= d <= DaysIn(y + (m - 1) / 12, (m - 1) % 12 + 1) ==> MonthIndex(r) == y * 12 + (m - 1) && r.day == d
    ensures d == 0 ==> MonthIndex(r) == y * 12 + (m - 1) - 1 && r.day == DaysIn(r.year, r.month)
  {
    var first := Date(y + (m - 1) / 12, (m - 1) % 12 + 1, 1);
    if 1 <= d <= DaysIn(first.year, first.month) then
      AddDaysWithinMonth(first, d - 1);
      AddDays(first, d - 1)
    else
      assert d == 0 ==> AddDays(first, d - 1) == PrevDay(first);
      AddDays(first, d - 1)
  }

  /** Counting days forward without leaving the month only moves the day. */
  lemma {:induction false} AddDaysWithinMonth(d: CalendarDate, k: nat)
    requires d.day + k <= DaysIn(d.year, d.month)
    ensures AddDays(d, k) == Date(d.year, d.month, d.day + k)
    decreases k
  {
    if k > 0 {
      AddDaysWithinMonth(NextDay(d), k - 1);
    }
  }

  /**
   * Go's `t.AddDate(years, months, days)`. Shifting the first of a month by
   * whole months lands on the first of the shifted month, and a zero shift
   * changes nothing.
   */
  function AddDate(t: CalendarDate, years: int, months: int, days: int): (r: CalendarDate)
    ensures days == 0 && t.day == 1 ==> r.day == 1 && MonthIndex(r) == MonthIndex(t) + 12 * years + months
    ensures years == 0 && months == 0 && days == 0 ==> r == t
  {
    var r := Normalize(t.year + years, t.month + months, t.day + days);
    if years == 0 && months == 0 && days == 0 then
      assert (t.month - 1) / 12 == 0 && (t.month - 1) % 12 + 1 == t.month;
      MonthIndexInjective(r, t);
      r
    else r
  }

  /** A valid date's month index determines its year and month. */
  lemma MonthIndexInjective(a: CalendarDate, b: CalendarDate)
    requires MonthIndex(a) == MonthIndex(b)
    ensures a.year == b.year && a.month == b.month
  {
    assert a.year * 12 <= MonthIndex(a) < a.year * 12 + 12;
    assert b.year * 12 <= MonthIndex(b) < b.year * 12 + 12;
  }

  /**
   * For a first-of-month date, `AddDate(0, 1, -1)` is the last calendar day
   * of that month: the 29th of February in a leap year, the 28th otherwise.
   */
  lemma EndOfMonth(p: CalendarDate)
    requires p.day == 1
    ensures AddDate(p, 0, 1, -1) == Date(p.year, p.month, DaysIn(p.year, p.month))
    ensures p.month == 2 ==> AddDate(p, 0, 1, -1).day == (if IsLeapYear(p.year) then 29 else 28)
  {
    var first := Date(p.year + p.month / 12, p.month % 12 + 1, 1);
    assert AddDate(p, 0, 1, -1) == AddDays(first, -1) == AddDays(PrevDay(first), 0);
  }

  /**
   * Against the last day of a month, the day-level comparison of any date is
   * the comparison of the months the two dates fall in.
   */
  lemma LessEqMonthEnd(a: CalendarDate, p: CalendarDate)
    requires p.day == DaysIn(p.year, p.month)
    ensures LessEq(a, p) <==> MonthIndex(a) <= MonthIndex(p)
  {
  }

  /** Against the first day of a month, likewise. */
  lemma MonthStartLessEq(p: CalendarDate, a: CalendarDate)
    requires p.day == 1
    ensures LessEq(p, a) <==> MonthIndex(p) <= MonthIndex(a)
  {
  }
}
