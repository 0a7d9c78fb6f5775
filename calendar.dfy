/**
 * Proleptic Gregorian calendar arithmetic and the nanosecond timeline a
 * pandas `Timestamp` lives on.  Day numbers follow Python's
 * `date.toordinal()`, shifted so that 1970-01-01 is day 0.
 */
module Calendar {

  /** Nanoseconds in one calendar day. */
  const NsPerDay: int := 86_400_000_000_000

  /** The earliest (`Timestamp.min`) and latest (`Timestamp.max`) instants, in ns since the epoch. */
  const MinNs: int := -9_223_372_036_854_775_807
  const MaxNs: int := 9_223_372_036_854_775_807

  /** An instant a nanosecond-resolution `Timestamp` can hold. */
  type Instant = ns: int | MinNs <= ns <= MaxNs

  predicate InRange(ns: int) { MinNs <= ns <= MaxNs }

  predicate Leap(y: int) {
    y % 4 == 0 && (y % 100 != 0 || y % 400 == 0)
  }

  function DaysInMonth(y: int, m: int): (n: int)
    requires 1 <= m <= 12
    ensures 28 <= n <= 31
    ensures m == 2 ==> (n == 29 <==> Leap(y))
  {
    if m == 2 then (if Leap(y) then 29 else 28)
    else if m == 4 || m == 6 || m == 9 || m == 11 then 30
    else 31
  }

  predicate ValidDate(y: int, m: int, d: int) {
    1 <= m <= 12 && 1 <= d <= DaysInMonth(y, m)
  }

  /** Days in the months of year `y` before month `m`. */
  function DaysBeforeMonth(y: int, m: int): int
    requires 1 <= m <= 12
  {
    [0, 31, 59, 90, 120, 151, 181, 212, 243, 273, 304, 334][m - 1]
      + (if m > 2 && Leap(y) then 1 else 0)
  }

  /** Days in all the years before year `y` (year 1 starts at day 0). */
  function DaysBeforeYear(y: int): int {
    var z := y - 1;
    z * 365 + z / 4 - z / 100 + z / 400
  }

  /** Python's `date(y, m, d).toordinal()`. */
  function Ordinal(y: int, m: int, d: int): int
    requires 1 <= m <= 12
  {
    DaysBeforeYear(y) + DaysBeforeMonth(y, m) + d
  }

  /** Days from 1970-01-01 to the given date. */
  function EpochDay(y: int, m: int, d: int): int
    requires 1 <= m <= 12
  {
    Ordinal(y, m, d) - 719163
  }

  /** The calendar date that follows a valid date. */
  function Successor(y: int, m: int, d: int): (r: (int, int, int))
    requires ValidDate(y, m, d)
    ensures ValidDate(r.0, r.1, r.2)
  {
    if d < DaysInMonth(y, m) then (y, m, d + 1)
    else if m < 12 then (y, m + 1, 1)
    else (y + 1, 1, 1)
  }

  lemma EpochIsDayZero()
    ensures EpochDay(1970, 1, 1) == 0
  {
  }

  /** A year is 366 days when it is a leap year and 365 otherwise. */
  lemma YearLength(y: int)
    ensures DaysBeforeYear(y + 1) == DaysBeforeYear(y) + (if Leap(y) then 366 else 365)
  {
    var z := y - 1;
    assert (z + 1) / 4 - z / 4 == (if y % 4 == 0 then 1 else 0);
    assert (z + 1) / 100 - z / 100 == (if y % 100 == 0 then 1 else 0);
    assert (z + 1) / 400 - z / 400 == (if y % 400 == 0 then 1 else 0);
    assert y % 400 == 0 ==> y % 100 == 0 && y % 4 == 0;
    assert y % 100 == 0 ==> y % 4 == 0;
  }

  /** Consecutive calendar dates get consecutive day numbers. */
  lemma SuccessorIsNextDay(y: int, m: int, d: int)
    requires ValidDate(y, m, d)
    ensures var s := Successor(y, m, d); EpochDay(s.0, s.1, s.2) == EpochDay(y, m, d) + 1
  {
    if d == DaysInMonth(y, m) && m == 12 {
      YearLength(y);
    }
  }

  /** `Timedelta.days` of the difference `a - b` between two instants: rounded towards minus infinity. */
  function DayDiff(a: int, b: int): (days: int)
    ensures days * NsPerDay <= a - b < (days + 1) * NsPerDay
  {
    (a - b) / NsPerDay
  }

  /** Between two midnights the day difference is exactly the difference of the day numbers. */
  lemma MidnightDayDiff(d1: int, d2: int)
    ensures DayDiff(d1 * NsPerDay, d2 * NsPerDay) == d1 - d2
  {
    assert d1 * NsPerDay - d2 * NsPerDay == (d1 - d2) * NsPerDay;
  }
}
