/** Calendar dates as the repayment schedule steps through them. A date is a
    proleptic Gregorian (year, month, day) with months numbered 1..12; two
    dates are compared, as JavaScript compares `Date` objects, by the instant
    they denote, here the whole number of days since 0001-01-01
    (`DayNumber`). */
module Calendar {

  datatype Date = Date(year: int, month: int, day: int)

  predicate IsLeapYear(y: int) {
    y % 4 == 0 && (y % 100 != 0 || y % 400 == 0)
  }

  function DaysInMonth(y: int, m: int): (n: int)
    requires 1 <= m <= 12
    ensures 28 <= n <= 31
    ensures n == 29 <==> m == 2 && IsLeapYear(y)
  {
    if m == 2 then (if IsLeapYear(y) then 29 else 28)
    else if m == 4 || m == 6 || m == 9 || m == 11 then 30
    else 31
  }

  predicate ValidDate(d: Date) {
    d.year >= 1 && 1 <= d.month <= 12 && 1 <= d.day <= DaysInMonth(d.year, d.month)
  }

  /** A date that exists in the calendar. */
  type CalendarDate = d: Date | ValidDate(d) witness Date(1, 1, 1)

  /** Days of year `y` that lie before the first of month `m` (m == 13: the whole year). */
  function DaysBeforeMonth(y: int, m: int): int
    requires 1 <= m <= 13
  {
    if m == 1 then 0 else DaysBeforeMonth(y, m - 1) + DaysInMonth(y, m - 1)
  }

  /** Days from 0001-01-01 to the first of January of year `y`. */
  function DaysBeforeYear(y: int): int
    requires y >= 1
  {
    if y == 1 then 0 else DaysBeforeYear(y - 1) + DaysBeforeMonth(y - 1, 13)
  }

  /** Whole days from 0001-01-01 to `d`: the instant a date denotes. */
  function DayNumber(d: CalendarDate): int
  {
    DaysBeforeYear(d.year) + DaysBeforeMonth(d.year, d.month) + d.day - 1
  }

  /** Months elapsed since January of year 0, so that consecutive calendar
      months have consecutive indices. */
  function MonthIndex(d: Date): int {
    d.year * 12 + d.month - 1
  }

  lemma MonthLengthsAddUp(y: int, m: int)
    requires 1 <= m <= 12
    ensures DaysBeforeMonth(y, m + 1) == DaysBeforeMonth(y, m) + DaysInMonth(y, m)
  {
  }

  /** The day after `d`: `setDate(getDate() + 1)`. */
  function NextDay(d: CalendarDate): (r: CalendarDate)
    ensures DayNumber(r) == DayNumber(d) + 1
  {
    if d.day < DaysInMonth(d.year, d.month) then
      Date(d.year, d.month, d.day + 1)
    else if d.month < 12 then
      MonthLengthsAddUp(d.year, d.month);
      Date(d.year, d.month + 1, 1)
    else
      MonthLengthsAddUp(d.year, 12);
      Date(d.year + 1, 1, 1)
  }

  /** The date `n` days after `d`: `setDate(getDate() + n)`. */
  function AddDays(d: CalendarDate, n: nat): (r: CalendarDate)
    ensures DayNumber(r) == DayNumber(d) + n
    decreases n
  {
    if n == 0 then d else AddDays(NextDay(d), n - 1)
  }

  /** The same day of the next month: `setMonth(getMonth() + 1)`, for days
      that exist in every month. */
  function AddMonth(d: CalendarDate): (r: CalendarDate)
    requires d.day <= 28
    ensures r.day == d.day
    ensures MonthIndex(r) == MonthIndex(d) + 1
    ensures DayNumber(r) == DayNumber(d) + DaysInMonth(d.year, d.month)
  {
    MonthLengthsAddUp(d.year, d.month);
    if d.month < 12 then
      Date(d.year, d.month + 1, d.day)
    else
      Date(d.year + 1, 1, d.day)
  }

  /** First day of the month of `d`. */
  function MonthStart(d: CalendarDate): (r: CalendarDate)
    ensures MonthIndex(r) == MonthIndex(d)
    ensures DayNumber(r) == DayNumber(d) - d.day + 1
  {
    Date(d.year, d.month, 1)
  }

  /** A later month starts no earlier than the end of an earlier one. */
  lemma {:induction false} LaterMonthStartsLater(a: CalendarDate, b: CalendarDate)
    requires a.day == 1 && b.day == 1
    requires MonthIndex(a) < MonthIndex(b)
    ensures DayNumber(a) + DaysInMonth(a.year, a.month) <= DayNumber(b)
    decreases MonthIndex(b) - MonthIndex(a)
  {
    var next := AddMonth(a);
    if MonthIndex(next) < MonthIndex(b) {
      LaterMonthStartsLater(next, b);
    } else {
      assert next.year == b.year && next.month == b.month;
    }
  }

  /** A date not after another lies in the same month or an earlier one. */
  lemma MonthIndexMonotone(a: CalendarDate, b: CalendarDate)
    ensures DayNumber(a) <= DayNumber(b) ==> MonthIndex(a) <= MonthIndex(b)
  {
    if MonthIndex(b) < MonthIndex(a) {
      LaterMonthStartsLater(MonthStart(b), MonthStart(a));
    }
  }

  /** For a start date whose day exists in every month, comparing instants is
      comparing (month, day) lexicographically. */
  lemma MonthOrder(c: CalendarDate, e: CalendarDate)
    requires c.day <= 28
    ensures DayNumber(c) <= DayNumber(e) <==>
              MonthIndex(c) < MonthIndex(e) || (MonthIndex(c) == MonthIndex(e) && c.day <= e.day)
  {
    var c0, e0 := MonthStart(c), MonthStart(e);
    if MonthIndex(c) < MonthIndex(e) {
      LaterMonthStartsLater(c0, e0);
    } else if MonthIndex(e) < MonthIndex(c) {
      LaterMonthStartsLater(e0, c0);
    } else {
      assert c.year == e.year && c.month == e.month;
    }
  }
}
