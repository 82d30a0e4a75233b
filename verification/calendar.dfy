/**
 * Proleptic Gregorian calendar over integer timestamps (seconds since
 * 1970-01-01T00:00:00 UTC). This is the part of Python's `datetime` that the
 * aggregator relies on: the year and the month of a save time, and the instant
 * at which a calendar day begins.
 */
module Calendar {
  const SecondsPerDay: int := 86400
  const EpochYear: int := 1970

  type Month = m: int | 1 <= m <= 12 witness 1

  datatype Date = Date(year: int, month: Month, day: int)

  predicate IsLeapYear(y: int) {
    y % 4 == 0 && (y % 100 != 0 || y % 400 == 0)
  }

  function DaysInYear(y: int): (n: int)
    ensures n == 365 || n == 366
  {
    if IsLeapYear(y) then 366 else 365
  }

  function DaysInMonth(y: int, m: Month): (n: int)
    ensures 28 <= n <= 31
  {
    if m == 2 then (if IsLeapYear(y) then 29 else 28)
    else if m == 4 || m == 6 || m == 9 || m == 11 then 30
    else 31
  }

  /** Days from the first of January of year `y` to the first day of month `m`. */
  function DaysBeforeMonth(y: int, m: Month): (n: int)
    ensures m == 12 ==> n + DaysInMonth(y, m) == DaysInYear(y)
    ensures 0 <= n
  {
    [0, 31, 59, 90, 120, 151, 181, 212, 243, 273, 304, 334][m - 1]
      + (if m > 2 && IsLeapYear(y) then 1 else 0)
  }

  lemma DaysBeforeNextMonth(y: int, m: Month)
    requires m < 12
    ensures DaysBeforeMonth(y, m + 1) == DaysBeforeMonth(y, m) + DaysInMonth(y, m)
  {
  }

  /** Days from 1970-01-01 to the first of January of year `y` (negative before 1970). */
  function DaysBeforeYear(y: int): int
    decreases if y < EpochYear then EpochYear - y else y - EpochYear
  {
    if y == EpochYear then 0
    else if y > EpochYear then DaysBeforeYear(y - 1) + DaysInYear(y - 1)
    else DaysBeforeYear(y + 1) - DaysInYear(y)
  }

  lemma {:induction false} DaysBeforeNextYear(y: int)
    ensures DaysBeforeYear(y + 1) == DaysBeforeYear(y) + DaysInYear(y)
  {
    // Both directions are immediate from one unfolding of the definition.
    if y + 1 > EpochYear {
      assert DaysBeforeYear(y + 1) == DaysBeforeYear(y) + DaysInYear(y);
    } else {
      assert DaysBeforeYear(y) == DaysBeforeYear(y + 1) - DaysInYear(y);
    }
  }

  /** The day number (days since 1970-01-01) of a calendar date. */
  function DayNumber(d: Date): int {
    DaysBeforeYear(d.year) + DaysBeforeMonth(d.year, d.month) + d.day - 1
  }

  /** Walks the months of year `y` from month `m` until `rest` days fit in one. */
  function MonthWalk(y: int, m: Month, rest: int): (d: Date)
    requires 0 <= rest < DaysInYear(y) - DaysBeforeMonth(y, m)
    ensures d.year == y && m <= d.month
    ensures 1 <= d.day <= DaysInMonth(y, d.month)
    ensures DaysBeforeMonth(y, d.month) + d.day - 1 == DaysBeforeMonth(y, m) + rest
    decreases 12 - m
  {
    if rest < DaysInMonth(y, m) then Date(y, m, rest + 1)
    else
      DaysBeforeNextMonth(y, m);
      MonthWalk(y, m + 1, rest - DaysInMonth(y, m))
  }

  /** Walks whole years from year `y` until day offset `offset` falls inside one. */
  function YearWalk(y: int, offset: int): (d: Date)
    ensures 1 <= d.day <= DaysInMonth(d.year, d.month)
    ensures DayNumber(d) == DaysBeforeYear(y) + offset
    decreases (if offset < 0 then 1 else 0), (if offset < 0 then -offset else offset)
  {
    if offset < 0 then
      DaysBeforeNextYear(y - 1);
      YearWalk(y - 1, offset + DaysInYear(y - 1))
    else if offset < DaysInYear(y) then
      MonthWalk(y, 1, offset)
    else
      DaysBeforeNextYear(y);
      YearWalk(y + 1, offset - DaysInYear(y))
  }

  /** The calendar date on which the instant `t` falls (UTC). */
  function DateOf(t: int): (d: Date)
    ensures 1 <= d.day <= DaysInMonth(d.year, d.month)
    ensures DayNumber(d) * SecondsPerDay <= t < (DayNumber(d) + 1) * SecondsPerDay
  {
    YearWalk(EpochYear, t / SecondsPerDay)
  }

  /** The instant at which date `d` begins: what parsing a bare `YYYY-MM-DD` yields. */
  function Midnight(d: Date): (t: int)
    ensures t % SecondsPerDay == 0
  {
    DayNumber(d) * SecondsPerDay
  }

  /** Midnight of a valid date falls on that date: `DateOf` inverts `Midnight`. */
  lemma MidnightRoundTrip(d: Date)
    requires 1 <= d.day <= DaysInMonth(d.year, d.month)
    ensures DateOf(Midnight(d)) == d
  {
    var e := DateOf(Midnight(d));
    assert DayNumber(e) == DayNumber(d);
    DayNumberInjective(d, e);
  }

  /** Two valid dates with the same day number are the same date. */
  lemma DayNumberInjective(d: Date, e: Date)
    requires 1 <= d.day <= DaysInMonth(d.year, d.month)
    requires 1 <= e.day <= DaysInMonth(e.year, e.month)
    requires DayNumber(d) == DayNumber(e)
    ensures d == e
  {
    DayNumberWithinYear(d);
    DayNumberWithinYear(e);
    if d.year < e.year {
      DaysBeforeYearMonotone(d.year + 1, e.year);
      DaysBeforeNextYear(d.year);
    } else if e.year < d.year {
      DaysBeforeYearMonotone(e.year + 1, d.year);
      DaysBeforeNextYear(e.year);
    }
    assert d.year == e.year;
    if d.month < e.month {
      DaysBeforeMonthMonotone(d.year, d.month + 1, e.month);
    } else if e.month < d.month {
      DaysBeforeMonthMonotone(d.year, e.month + 1, d.month);
    }
  }

  lemma DayNumberWithinYear(d: Date)
    requires 1 <= d.day <= DaysInMonth(d.year, d.month)
    ensures DaysBeforeYear(d.year) <= DayNumber(d) < DaysBeforeYear(d.year) + DaysInYear(d.year)
  {
    if d.month < 12 {
      DaysBeforeMonthMonotone(d.year, d.month + 1, 12);
    }
  }

  lemma {:induction false} DaysBeforeYearMonotone(a: int, b: int)
    requires a <= b
    ensures DaysBeforeYear(a) <= DaysBeforeYear(b)
    decreases b - a
  {
    if a < b {
      DaysBeforeNextYear(a);
      DaysBeforeYearMonotone(a + 1, b);
    }
  }

  lemma {:induction false} DaysBeforeMonthMonotone(y: int, a: Month, b: Month)
    requires a <= b
    ensures DaysBeforeMonth(y, a) + (if a < b then DaysInMonth(y, a) else 0) <= DaysBeforeMonth(y, b)
    decreases b - a
  {
    if a < b {
      DaysBeforeNextMonth(y, a);
      DaysBeforeMonthMonotone(y, a + 1, b);
    }
  }
}
