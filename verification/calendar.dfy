/** Calendar dates and the month arithmetic that `java.util.Calendar` performs
    for the summary builders: first day of a month, last day of the previous
    month, and the backward walk over month ends that their loops produce. */
module Calendar {

  /** A calendar day; months are numbered 1..12. */
  datatype Date = Date(year: int, month: int, day: int)

  predicate IsLeapYear(y: int)
  {
    (y % 4 == 0 && y % 100 != 0) || y % 400 == 0
  }

  function DaysInMonth(y: int, m: int): (n: int)
    requires 1 <= m <= 12
    ensures 28 <= n <= 31
  {
    if m == 2 then (if IsLeapYear(y) then 29 else 28)
    else if m == 4 || m == 6 || m == 9 || m == 11 then 30
    else 31
  }

  predicate ValidDate(d: Date)
  {
    1 <= d.month <= 12 && 1 <= d.day <= DaysInMonth(d.year, d.month)
  }

  /** `a.compareTo(b) < 0` for two dates at the same time of day. */
  predicate Before(a: Date, b: Date)
  {
    a.year < b.year
    || (a.year == b.year && a.month < b.month)
    || (a.year == b.year && a.month == b.month && a.day < b.day)
  }

  lemma BeforeTransitive(a: Date, b: Date, c: Date)
    requires Before(a, b) && Before(b, c)
    ensures Before(a, c)
  {
  }

  /** Months counted from year 0: consecutive months have consecutive indices. */
  function MonthIndex(d: Date): int
  {
    d.year * 12 + (d.month - 1)
  }

  /** The last day of the month with index `k`. */
  function LastDayOfMonthIndex(k: int): (d: Date)
    ensures ValidDate(d) && MonthIndex(d) == k
    ensures d.day == DaysInMonth(d.year, d.month)
  {
    Date(k / 12, k % 12 + 1, DaysInMonth(k / 12, k % 12 + 1))
  }

  /** `calendar.set(DAY_OF_MONTH, getActualMinimum(DAY_OF_MONTH))`. */
  function FirstOfMonth(d: Date): (r: Date)
    ensures r.year == d.year && r.month == d.month && r.day == 1
  {
    Date(d.year, d.month, 1)
  }

  /** `calendar.add(MONTH, -1)` followed by setting the day to the month's
      actual maximum. */
  function LastOfPreviousMonth(d: Date): (r: Date)
    ensures ValidDate(r) && MonthIndex(r) == MonthIndex(d) - 1
    ensures r.day == DaysInMonth(r.year, r.month)
  {
    LastDayOfMonthIndex(MonthIndex(d) - 1)
  }

  /** The day after `d`, for the tiling of consecutive billing periods. */
  function NextDay(d: Date): Date
    requires ValidDate(d)
  {
    if d.day < DaysInMonth(d.year, d.month) then Date(d.year, d.month, d.day + 1)
    else if d.month < 12 then Date(d.year, d.month + 1, 1)
    else Date(d.year + 1, 1, 1)
  }

  /** Closed form of the builders' month walk: the end date of the `i`-th
      iteration when the first iteration ends on `end`. */
  function MonthEndAt(end: Date, i: nat): Date
  {
    if i == 0 then end else LastDayOfMonthIndex(MonthIndex(end) - i)
  }

  /** The first day of the `i`-th iteration's month. */
  function MonthStartAt(end: Date, i: nat): Date
  {
    FirstOfMonth(MonthEndAt(end, i))
  }

  /** One step of the builders' calendar walk lands on the next month end of
      the closed form. */
  lemma MonthWalkStep(end: Date, i: nat)
    ensures LastOfPreviousMonth(FirstOfMonth(MonthEndAt(end, i))) == MonthEndAt(end, i + 1)
  {
    var k := MonthIndex(end) - i;
    assert MonthIndex(FirstOfMonth(MonthEndAt(end, i))) == k;
  }

  lemma BeforeByMonthIndex(a: Date, b: Date)
    requires 1 <= a.month <= 12 && 1 <= b.month <= 12
    requires MonthIndex(a) < MonthIndex(b)
    ensures Before(a, b)
  {
  }

  /** The walk moves strictly backward in time: a later iteration's month
      end comes before an earlier one's. */
  lemma MonthEndsDescend(end: Date, i: nat, j: nat)
    requires 1 <= end.month <= 12
    requires i < j
    ensures Before(MonthEndAt(end, j), MonthEndAt(end, i))
  {
    BeforeByMonthIndex(MonthEndAt(end, j), MonthEndAt(end, i));
  }
}
