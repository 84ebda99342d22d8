/**
 * UTC calendar days as integers: day 0 is 1970-01-01, a Thursday.
 * Weekdays follow Python's `date.weekday()`: Monday is 0, Sunday is 6.
 */
module Calendar {
  /** Weekday of a day number; Dafny's `%` is Euclidean, so this holds before 1970 too. */
  function Weekday(day: int): (w: int)
    ensures 0 <= w < 7
    ensures (day - w) % 7 == 4
  {
    (day + 3) % 7
  }

  /** The most recent Monday on or before `day` (`_current_week_start`). */
  function WeekStart(day: int): (monday: int)
    ensures Weekday(monday) == 0
    ensures monday <= day <= monday + 6
  {
    day - Weekday(day)
  }

  /** 1970-01-05 was the first Monday after the epoch. */
  lemma FirstMonday()
    ensures Weekday(0) == 3 && Weekday(4) == 0 && WeekStart(0) == -3 && WeekStart(10) == 4
  {
  }

  /** Consecutive days have consecutive weekdays, wrapping from Sunday to Monday. */
  lemma NextWeekday(day: int)
    ensures Weekday(day + 1) == (Weekday(day) + 1) % 7
  {
  }

  /** Two Mondays less than a week apart are the same day. */
  lemma MondaysAWeekApart(a: int, b: int)
    requires Weekday(a) == 0 && Weekday(b) == 0
    requires a <= b < a + 7
    ensures a == b
  {
    assert (a + 3) % 7 == 0 && (b + 3) % 7 == 0;
    var qa := (a + 3) / 7;
    var qb := (b + 3) / 7;
    assert a + 3 == 7 * qa && b + 3 == 7 * qb;
    assert 0 <= 7 * (qb - qa) < 7;
  }

  /** Every day of a week has that week's Monday as its week start. */
  lemma SameWeek(day: int, other: int)
    requires WeekStart(day) <= other <= WeekStart(day) + 6
    ensures WeekStart(other) == WeekStart(day)
  {
    var m, n := WeekStart(day), WeekStart(other);
    if m <= n {
      MondaysAWeekApart(m, n);
    } else {
      MondaysAWeekApart(n, m);
    }
  }

  /** The week start of a Monday is that Monday, so the snapshot key is stable all week. */
  lemma WeekStartIdempotent(day: int)
    ensures WeekStart(WeekStart(day)) == WeekStart(day)
  {
    SameWeek(day, WeekStart(day));
  }
}
