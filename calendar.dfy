/**
 * UTC civil date-times. A timestamp is a calendar date plus the milliseconds
 * elapsed since midnight; `Millis` turns it into milliseconds since
 * 1970-01-01T00:00:00Z, which is what JavaScript's `Date.getTime()` compares.
 * `AddDays` and `AddMonths1` follow the day-overflow normalisation of
 * `Date.setDate(getDate() + n)` and `Date.setMonth(getMonth() + 1)`.
 */
module Calendar {

  const MsPerDay: int := 86400000

  /** Gregorian leap-year rule (proleptic, as JavaScript dates are). */
  predicate IsLeapYear(y: int) {
    y % 4 == 0 && (y % 100 != 0 || y % 400 == 0)
  }

  function DaysInYear(y: int): (n: int)
    ensures n == 365 || n == 366
  {
    if IsLeapYear(y) then 366 else 365
  }

  function DaysInMonth(y: int, m: int): (n: int)
    requires 1 <= m <= 12
    ensures 28 <= n <= 31
    ensures m != 2 ==> n >= 30
  {
    if m == 2 then (if IsLeapYear(y) then 29 else 28)
    else if m == 4 || m == 6 || m == 9 || m == 11 then 30
    else 31
  }

  datatype DateTime = DateTime(year: int, month: int, day: int, ms: int)

  predicate ValidDateTime(d: DateTime) {
    && 1 <= d.month <= 12
    && 1 <= d.day <= DaysInMonth(d.year, d.month)
    && 0 <= d.ms < MsPerDay
  }

  /** An existing UTC instant, written as its civil date and time of day. */
  type Instant = d: DateTime | ValidDateTime(d) witness DateTime(1970, 1, 1, 0)

  /** Days from 1970-01-01 to January 1st of year `y`. */
  function DaysBeforeYear(y: int): int
    decreases if y >= 1970 then y - 1970 else 1970 - y
  {
    if y == 1970 then 0
    else if y > 1970 then DaysBeforeYear(y - 1) + DaysInYear(y - 1)
    else DaysBeforeYear(y + 1) - DaysInYear(y)
  }

  /** Days from January 1st to the first day of month `m` of year `y` (`m == 13` is the next January). */
  function DaysBeforeMonth(y: int, m: int): int
    requires 1 <= m <= 13
  {
    if m == 1 then 0 else DaysBeforeMonth(y, m - 1) + DaysInMonth(y, m - 1)
  }

  /** Day number since 1970-01-01 of day `d` of month `m`, where `d` may run past the month's end. */
  function DayNumber(y: int, m: int, d: int): int
    requires 1 <= m <= 12
  {
    DaysBeforeYear(y) + DaysBeforeMonth(y, m) + d - 1
  }

  /** Milliseconds since the Unix epoch. */
  function Millis(t: Instant): int {
    DayNumber(t.year, t.month, t.day) * MsPerDay + t.ms
  }

  /** `a <= b` on JavaScript dates. */
  predicate NotAfter(a: Instant, b: Instant) {
    Millis(a) <= Millis(b)
  }

  /** `a > b` on JavaScript dates. */
  predicate After(a: Instant, b: Instant) {
    Millis(a) > Millis(b)
  }

  /** The month following `(y, m)`, carrying December into the next year. */
  function NextMonth(y: int, m: int): (r: (int, int))
    requires 1 <= m <= 12
    ensures 1 <= r.1 <= 12
    ensures m < 12 ==> r == (y, m + 1)
    ensures m == 12 ==> r == (y + 1, 1)
  {
    if m == 12 then (y + 1, 1) else (y, m + 1)
  }

  lemma DaysBeforeYearStep(y: int)
    ensures DaysBeforeYear(y + 1) == DaysBeforeYear(y) + DaysInYear(y)
  {
  }

  lemma DaysBeforeMonthWholeYear(y: int)
    ensures DaysBeforeMonth(y, 13) == DaysInYear(y)
  {
    var feb := DaysInMonth(y, 2);
    assert DaysBeforeMonth(y, 2) == 31;
    assert DaysBeforeMonth(y, 3) == 31 + feb;
    assert DaysBeforeMonth(y, 4) == 62 + feb;
    assert DaysBeforeMonth(y, 5) == 92 + feb;
    assert DaysBeforeMonth(y, 6) == 123 + feb;
    assert DaysBeforeMonth(y, 7) == 153 + feb;
    assert DaysBeforeMonth(y, 8) == 184 + feb;
    assert DaysBeforeMonth(y, 9) == 215 + feb;
    assert DaysBeforeMonth(y, 10) == 245 + feb;
    assert DaysBeforeMonth(y, 11) == 276 + feb;
    assert DaysBeforeMonth(y, 12) == 306 + feb;
    assert DaysBeforeMonth(y, 13) == 337 + feb;
  }

  /** Running past the end of a month by `k` days is day `k` of the next month. */
  lemma NextMonthDayNumber(y: int, m: int, d: int)
    requires 1 <= m <= 12
    ensures DayNumber(NextMonth(y, m).0, NextMonth(y, m).1, d) == DayNumber(y, m, d + DaysInMonth(y, m))
  {
    if m == 12 {
      DaysBeforeYearStep(y);
      DaysBeforeMonthWholeYear(y);
    }
  }

  /**
   * The date JavaScript builds from year `y`, month `m` and a day-of-month
   * `d >= 1` that may exceed the month's length: the excess days roll over
   * into the following months.
   */
  function Normalize(y: int, m: int, d: int, ms: int): (r: Instant)
    requires 1 <= m <= 12 && d >= 1 && 0 <= ms < MsPerDay
    ensures DayNumber(r.year, r.month, r.day) == DayNumber(y, m, d)
    ensures r.ms == ms
    ensures d <= DaysInMonth(y, m) ==> r == DateTime(y, m, d, ms)
    decreases d
  {
    if d <= DaysInMonth(y, m) then DateTime(y, m, d, ms)
    else
      var (y', m') := NextMonth(y, m);
      NextMonthDayNumber(y, m, d - DaysInMonth(y, m));
      Normalize(y', m', d - DaysInMonth(y, m), ms)
  }

  /** `setDate(getDate() + n)` in UTC: `n` whole calendar days later. */
  function AddDays(t: Instant, n: nat): (r: Instant)
    ensures Millis(r) == Millis(t) + n * MsPerDay
    ensures r.ms == t.ms
  {
    Normalize(t.year, t.month, t.day + n, t.ms)
  }

  /** `setMonth(getMonth() + 1)` in UTC: same day of the next month, overflow rolled forward. */
  function AddMonths1(t: Instant): (r: Instant)
    ensures Millis(r) == Millis(t) + DaysInMonth(t.year, t.month) * MsPerDay
    ensures r.ms == t.ms
  {
    var (y, m) := NextMonth(t.year, t.month);
    NextMonthDayNumber(t.year, t.month, t.day);
    Normalize(y, m, t.day, t.ms)
  }

  /** When the next month has the day, the date keeps its day of month. */
  lemma AddMonths1KeepsDay(t: Instant)
    requires t.day <= DaysInMonth(NextMonth(t.year, t.month).0, NextMonth(t.year, t.month).1)
    ensures AddMonths1(t) == DateTime(NextMonth(t.year, t.month).0, NextMonth(t.year, t.month).1, t.day, t.ms)
  {
  }

  /** When it does not (Jan 31 -> "Feb 31"), the excess days land in the month after it. */
  lemma {:induction false} AddMonths1RollsOver(t: Instant)
    requires t.day > DaysInMonth(NextMonth(t.year, t.month).0, NextMonth(t.year, t.month).1)
    ensures var (y, m) := NextMonth(t.year, t.month);
            var (y2, m2) := NextMonth(y, m);
            AddMonths1(t) == DateTime(y2, m2, t.day - DaysInMonth(y, m), t.ms)
  {
    var (y, m) := NextMonth(t.year, t.month);
    var (y2, m2) := NextMonth(y, m);
    assert t.day <= 31;
    assert m == 2 || DaysInMonth(y, m) == 30;
    assert DaysInMonth(y2, m2) == 31;
    assert t.day - DaysInMonth(y, m) <= DaysInMonth(y2, m2);
  }

  /** 2025-01-31 plus one month is 2025-03-03, as in JavaScript. */
  lemma JanuaryThirtyFirstPlusOneMonth()
    ensures AddMonths1(DateTime(2025, 1, 31, 0)) == DateTime(2025, 3, 3, 0)
  {
    AddMonths1RollsOver(DateTime(2025, 1, 31, 0));
  }

  /** 2024 is a leap year: 2024-01-31 plus one month is 2024-03-02. */
  lemma LeapJanuaryThirtyFirstPlusOneMonth()
    ensures AddMonths1(DateTime(2024, 1, 31, 0)) == DateTime(2024, 3, 2, 0)
  {
    AddMonths1RollsOver(DateTime(2024, 1, 31, 0));
  }
}
