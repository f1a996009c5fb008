/**
 The budget windows of apps/api/captureos/services/spend.py: proleptic Gregorian dates with
 Python's own day numbering, and the instant at which each kind of window starts.
 */
module Calendar {
  import opened Wrappers

  datatype DateTime = DateTime(year: int, month: int, day: int, micros: int)

  const DAY := 86_400_000_000

  predicate Leap(y: int) {
    y % 4 == 0 && (y % 100 != 0 || y % 400 == 0)
  }

  function DaysInMonth(y: int, m: int): int {
    if m == 2 then (if Leap(y) then 29 else 28)
    else if m == 4 || m == 6 || m == 9 || m == 11 then 30
    else 31
  }

  predicate Valid(t: DateTime) {
    && 1 <= t.year
    && 1 <= t.month <= 12
    && 1 <= t.day <= DaysInMonth(t.year, t.month)
    && 0 <= t.micros < DAY
  }

  type Moment = t: DateTime | Valid(t) witness DateTime(1, 1, 1, 0)

  function DaysBeforeYear(y: int): int {
    var p := y - 1;
    365 * p + p / 4 - p / 100 + p / 400
  }

  function DaysBeforeMonth(y: int, m: int): int
    requires 1 <= m <= 12
  {
    if m == 1 then 0 else DaysBeforeMonth(y, m - 1) + DaysInMonth(y, m - 1)
  }

  // date.toordinal(): day 1 is 0001-01-01, a Monday.
  function Ordinal(y: int, m: int, d: int): int
    requires 1 <= m <= 12
  {
    DaysBeforeYear(y) + DaysBeforeMonth(y, m) + d
  }

  function Instant(t: Moment): int {
    Ordinal(t.year, t.month, t.day) * DAY + t.micros
  }

  function Weekday(t: Moment): int {
    (Ordinal(t.year, t.month, t.day) + 6) % 7
  }

  // Any stored interval other than the first five is totalled over all time.
  datatype Interval = PerAuthorization | Daily | Weekly | Monthly | Yearly | AllTime

  function WindowStart(iv: Interval, now: Moment): Option<int> {
    match iv
    case Daily => Some(Ordinal(now.year, now.month, now.day) * DAY)
    case Weekly => Some((Ordinal(now.year, now.month, now.day) - Weekday(now)) * DAY)
    case Monthly => Some(Ordinal(now.year, now.month, 1) * DAY)
    case Yearly => Some(Ordinal(now.year, 1, 1) * DAY)
    case _ => None
  }

  predicate SinceStart(start: Option<int>, t: Moment) {
    start.Some? ==> Instant(t) >= start.value
  }

  // What a window is meant to be, without mentioning its start.
  predicate SamePeriod(iv: Interval, a: Moment, b: Moment) {
    match iv
    case Daily => a.year == b.year && a.month == b.month && a.day == b.day
    case Weekly =>
      (Ordinal(a.year, a.month, a.day) - 1) / 7 == (Ordinal(b.year, b.month, b.day) - 1) / 7
    case Monthly => a.year == b.year && a.month == b.month
    case Yearly => a.year == b.year
    case _ => true
  }

  // The days before each month of a common year, from Python's table.
  lemma MonthTable(y: int, m: int)
    requires 1 <= m <= 12
    ensures DaysBeforeMonth(y, m) ==
      [0, 31, 59, 90, 120, 151, 181, 212, 243, 273, 304, 334][m - 1] + if m > 2 && Leap(y) then 1 else 0
  {
    if m > 1 {
      MonthTable(y, m - 1);
    }
  }

  lemma LeapDays(y: int)
    ensures y / 4 - (y - 1) / 4 == if y % 4 == 0 then 1 else 0
    ensures y / 100 - (y - 1) / 100 == if y % 100 == 0 then 1 else 0
    ensures y / 400 - (y - 1) / 400 == if y % 400 == 0 then 1 else 0
  {
  }

  lemma CenturiesAreFourths(y: int)
    requires y % 100 == 0
    ensures y % 4 == 0
  {
    assert y == 4 * (25 * (y / 100));
  }

  lemma EveryFourthCentury(y: int)
    requires y % 400 == 0
    ensures y % 100 == 0
  {
    assert y == 100 * (4 * (y / 400));
  }

  lemma LeapStep(y: int)
    ensures y / 4 - y / 100 + y / 400 == (y - 1) / 4 - (y - 1) / 100 + (y - 1) / 400 + if Leap(y) then 1 else 0
  {
    LeapDays(y);
    if y % 100 == 0 {
      CenturiesAreFourths(y);
    }
    if y % 400 == 0 {
      EveryFourthCentury(y);
    }
  }

  lemma YearStep(y: int)
    requires 1 <= y
    ensures DaysBeforeYear(y + 1) == DaysBeforeYear(y) + DaysBeforeMonth(y, 12) + 31
  {
    MonthTable(y, 12);
    LeapStep(y);
  }

  function NextDay(t: Moment): Moment {
    if t.day < DaysInMonth(t.year, t.month) then t.(day := t.day + 1)
    else if t.month < 12 then DateTime(t.year, t.month + 1, 1, t.micros)
    else DateTime(t.year + 1, 1, 1, t.micros)
  }

  lemma NextOrdinal(t: Moment)
    ensures Ordinal(NextDay(t).year, NextDay(t).month, NextDay(t).day) == Ordinal(t.year, t.month, t.day) + 1
  {
    if t.day == DaysInMonth(t.year, t.month) && t.month == 12 {
      YearStep(t.year);
    }
  }

  // Days are numbered without gaps, 86400 seconds apart.
  lemma DaysNumbered(t: Moment)
    ensures Instant(NextDay(t)) == Instant(t) + 86_400_000_000
  {
    NextOrdinal(t);
  }

  lemma SevenDays(n: int, next: int)
    requires next == n + 1
    ensures (next + 6) % 7 == if (n + 6) % 7 == 6 then 0 else (n + 6) % 7 + 1
  {
  }

  // So are the days of the week.
  lemma WeekdaysFollow(t: Moment)
    ensures Weekday(NextDay(t)) == if Weekday(t) == 6 then 0 else Weekday(t) + 1
  {
    var next := NextDay(t);
    NextOrdinal(t);
    SevenDays(Ordinal(t.year, t.month, t.day), Ordinal(next.year, next.month, next.day));
  }

  lemma FirstOfYear(y: int)
    ensures Ordinal(y, 1, 1) == DaysBeforeYear(y) + 1
  {
  }

  // The numbers start with 1 on the first day of all.
  lemma DayOne()
    ensures Ordinal(1, 1, 1) == 1
  {
  }

  // It was a Monday, and so was the first day of 2024.
  lemma KnownMonday(t: Moment)
    requires t.month == t.day == 1 && (t.year == 1 || t.year == 2024)
    ensures Weekday(t) == 0
  {
    FirstOfYear(t.year);
  }

  lemma SameWeek(n: int, next: int)
    requires next == n + 1
    ensures (n - 1) / 7 == (next - 1) / 7 <==> (next + 6) % 7 != 0
  {
  }

  // A week ends where a Monday begins, and only there.
  lemma WeeksStartOnMonday(t: Moment)
    ensures SamePeriod(Weekly, t, NextDay(t)) <==> Weekday(NextDay(t)) != 0
  {
    var next := NextDay(t);
    NextOrdinal(t);
    SameWeek(Ordinal(t.year, t.month, t.day), Ordinal(next.year, next.month, next.day));
  }

  // The first day of a month comes after every day of every earlier month.
  lemma {:induction false} MonthsAscend(y: int, m: int, z: int, n: int)
    requires 1 <= y && 1 <= m <= 12 && 1 <= n <= 12
    requires y < z || (y == z && m < n)
    ensures Ordinal(y, m, DaysInMonth(y, m)) < Ordinal(z, n, 1)
    decreases z, n
  {
    if n > 1 {
      if y < z || m < n - 1 {
        MonthsAscend(y, m, z, n - 1);
      }
    } else {
      YearStep(z - 1);
      if y < z - 1 || m < 12 {
        MonthsAscend(y, m, z - 1, 12);
      }
    }
  }

  lemma {:induction false} DatesAscend(a: Moment, b: Moment)
    requires a.year < b.year || (a.year == b.year && (a.month < b.month || (a.month == b.month && a.day < b.day)))
    ensures Ordinal(a.year, a.month, a.day) < Ordinal(b.year, b.month, b.day)
  {
    if a.year != b.year || a.month != b.month {
      MonthsAscend(a.year, a.month, b.year, b.month);
    }
  }

  // The comparison `created_at >= window_start` selects exactly the earlier moments of the same
  // day, ISO week, month or year.
  lemma WindowSelectsPeriod(iv: Interval, a: Moment, b: Moment)
    requires Instant(a) <= Instant(b)
    ensures SinceStart(WindowStart(iv, b), a) <==> SamePeriod(iv, a, b)
  {
    var x, y := Ordinal(a.year, a.month, a.day), Ordinal(b.year, b.month, b.day);
    assert x <= y;
    if (a.year, a.month, a.day) != (b.year, b.month, b.day) {
      if x < y && (b.year < a.year ||
        (b.year == a.year && (b.month < a.month || (b.month == a.month && b.day < a.day)))) {
        DatesAscend(b, a);
      }
      if x == y {
        if b.year < a.year || (b.year == a.year && (b.month < a.month || (b.month == a.month && b.day < a.day))) {
          DatesAscend(b, a);
        } else {
          DatesAscend(a, b);
        }
      }
    }
    match iv
    case Monthly =>
      if a.year != b.year || a.month != b.month {
        MonthsAscend(a.year, a.month, b.year, b.month);
      }
    case Yearly =>
      if a.year != b.year {
        MonthsAscend(a.year, a.month, b.year, 1);
      } else if b.month > 1 {
        MonthsAscend(a.year, 1, b.year, b.month);
      }
      if a.month > 1 {
        MonthsAscend(a.year, 1, a.year, a.month);
      }
    case _ =>
  }

  lemma WindowOpensBefore(iv: Interval, t: Moment)
    ensures SinceStart(WindowStart(iv, t), t)
  {
    WindowSelectsPeriod(iv, t, t);
  }
}
