/**
 Proleptic Gregorian calendar dates, as pandas' `Timestamp` sees them: the
 1-based day of the year (`.dt.dayofyear`) and the first day of a month built
 by `pd.to_datetime(dict(year=…, month=…, day=1))`.
 */
module Calendar {
  import opened Missing

  datatype CalendarDate = CalendarDate(year: int, month: int, day: int)

  predicate IsLeapYear(y: int) {
    y % 4 == 0 && (y % 100 != 0 || y % 400 == 0)
  }

  function DaysInMonth(y: int, m: int): (r: int)
    requires 1 <= m <= 12
    ensures 28 <= r <= 31
    ensures r == 29 <==> m == 2 && IsLeapYear(y)
  {
    if m == 2 then (if IsLeapYear(y) then 29 else 28)
    else if m == 4 || m == 6 || m == 9 || m == 11 then 30
    else 31
  }

  predicate ValidDate(d: CalendarDate) {
    1 <= d.month <= 12 && 1 <= d.day <= DaysInMonth(d.year, d.month)
  }

  /** A date that exists in the calendar. */
  type Date = d: CalendarDate | ValidDate(d) witness CalendarDate(1970, 1, 1)

  /** Number of days of year `y` that lie in the months before month `m`. */
  function DaysBefore(y: int, m: int): (r: nat)
    requires 1 <= m <= 13
    decreases m
  {
    if m == 1 then 0 else DaysBefore(y, m - 1) + DaysInMonth(y, m - 1)
  }

  /** Reference table of the same count: cumulative month lengths of a common
      year, plus the leap day for the months after February. */
  function CumulativeDays(y: int, m: int): int
    requires 1 <= m <= 13
  {
    [0, 31, 59, 90, 120, 151, 181, 212, 243, 273, 304, 334, 365][m - 1]
    + (if IsLeapYear(y) && m > 2 then 1 else 0)
  }

  lemma {:induction false} DaysBeforeMatchesTable(y: int, m: int)
    requires 1 <= m <= 13
    ensures DaysBefore(y, m) == CumulativeDays(y, m)
    decreases m
  {
    if m > 1 {
      DaysBeforeMatchesTable(y, m - 1);
    }
  }

  /** pandas' `dayofyear`: 1 on 1 January, 365 or 366 on 31 December. */
  function DayOfYear(d: Date): (r: int)
    ensures r == CumulativeDays(d.year, d.month) + d.day
    ensures 1 <= r <= 366
    ensures r == 366 ==> IsLeapYear(d.year)
    ensures d.month == 1 ==> r == d.day
  {
    DaysBeforeMatchesTable(d.year, d.month);
    DaysBeforeMatchesTable(d.year, d.month + 1);
    DaysBefore(d.year, d.month) + d.day
  }

  /** Strict chronological order of calendar dates. */
  predicate Precedes(a: CalendarDate, b: CalendarDate) {
    a.year < b.year
    || (a.year == b.year && a.month < b.month)
    || (a.year == b.year && a.month == b.month && a.day < b.day)
  }

  /** pandas' nanosecond timestamps run from 1677-09-21 00:12:43 to
      2262-04-11 23:47:16, so midnight of a date is representable exactly when
      the date lies after 21 September 1677 and no later than 11 April 2262. */
  predicate MidnightRepresentable(d: CalendarDate) {
    Precedes(CalendarDate(1677, 9, 21), d) && !Precedes(CalendarDate(2262, 4, 11), d)
  }

  /** The same bound for the first day of a month: October 1677 through April 2262. */
  predicate InTimestampRange(year: int, month: int) {
    (year > 1677 || (year == 1677 && month >= 10))
    && (year < 2262 || (year == 2262 && month <= 4))
  }

  /** `pd.to_datetime(dict(year=[year], month=[month], day=[1]))` for the months
      1..12 the month picker offers: day 1 of that month, or `None` where pandas
      raises because the date lies outside its timestamp range. Every month
      outside 1..12 is an error here as well; pandas itself assembles the
      number `year * 10000 + month * 100 + 1` and parses it as a date, so some
      such months (112 in 2024) become a valid date of another year. */
  function FirstOfMonth(year: int, month: int): (r: Option<Date>)
    ensures r.Some? <==> 1 <= month <= 12 && MidnightRepresentable(CalendarDate(year, month, 1))
    ensures r.Some? <==> 1 <= month <= 12 && InTimestampRange(year, month)
    ensures r.Some? ==> r.value.year == year && r.value.month == month && r.value.day == 1
  {
    if 1 <= month <= 12 && InTimestampRange(year, month) then Some(CalendarDate(year, month, 1))
    else None
  }

  /** The day of year of the first of month `m`: 1 for January, never more
      than 336 (1 December of a leap year). */
  lemma FirstOfMonthDayOfYear(y: int, m: int)
    requires 1 <= m <= 12
    ensures DayOfYear(CalendarDate(y, m, 1)) == CumulativeDays(y, m) + 1
    ensures m == 1 ==> DayOfYear(CalendarDate(y, m, 1)) == 1
    ensures DayOfYear(CalendarDate(y, m, 1)) <= 336
  {
    DaysBeforeMatchesTable(y, m);
  }

  /** Later months start later in the year. */
  lemma FirstOfMonthIncreasing(y: int, m1: int, m2: int)
    requires 1 <= m1 < m2 <= 12
    ensures DayOfYear(CalendarDate(y, m1, 1)) < DayOfYear(CalendarDate(y, m2, 1))
  {
    DaysBeforeMatchesTable(y, m1);
    DaysBeforeMatchesTable(y, m2);
  }
}
