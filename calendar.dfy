/**
 * Calendar arithmetic behind the download statistics: the source asks
 * date-fns whether a timestamp `isToday` and whether it `isSameWeek` as now
 * with `weekStartsOn: 1`. Instants are milliseconds since the epoch measured
 * in local time, so a calendar day is a whole multiple of a day's length.
 */
module Calendar {

  const MS_PER_DAY: int := 86400000

  /**
   * The day an instant falls on; day 0 is 1970-01-01, a Thursday. The divisor
   * is written as the literal value of `MS_PER_DAY` so that the solver sees a
   * division by a number.
   */
  function DayNumber(t: int): int {
    t / 86400000
  }

  /** Position of the instant's day in a Monday-start week (Monday is 0). */
  function Weekday(t: int): (r: int)
    ensures 0 <= r < 7
  {
    (DayNumber(t) + 3) % 7
  }

  /** Index of the Monday-start week an instant falls in. */
  function WeekNumber(t: int): int {
    (DayNumber(t) + 3) / 7
  }

  /** The day number of the Monday that starts the instant's week. */
  function WeekStartDay(t: int): int {
    DayNumber(t) - Weekday(t)
  }

  /** `isToday(t)`, with the current instant `now`. */
  predicate SameDay(t: int, now: int) {
    DayNumber(t) == DayNumber(now)
  }

  /** `isSameWeek(t, now, { weekStartsOn: 1 })`. */
  predicate SameWeekMondayStart(t: int, now: int) {
    WeekNumber(t) == WeekNumber(now)
  }

  /** The Monday that starts a week is a Monday. */
  lemma WeekStartIsMonday(t: int)
    ensures (WeekStartDay(t) + 3) % 7 == 0
    ensures WeekStartDay(t) <= DayNumber(t) < WeekStartDay(t) + 7
  {
  }

  /** Same day means: within the day-long window that starts at midnight of now's day. */
  lemma SameDayIffWithinDay(t: int, now: int)
    ensures SameDay(t, now) <==>
      DayNumber(now) * MS_PER_DAY <= t < DayNumber(now) * MS_PER_DAY + MS_PER_DAY
  {
    var d := DayNumber(now);
    assert d * MS_PER_DAY <= now < d * MS_PER_DAY + MS_PER_DAY;
    if d * MS_PER_DAY <= t < d * MS_PER_DAY + MS_PER_DAY {
      DayFromBounds(t, d);
    }
  }

  /** Same week means: the day of `t` is one of the seven days from now's Monday on. */
  lemma SameWeekIffWithinMondayWindow(t: int, now: int)
    ensures SameWeekMondayStart(t, now) <==>
      WeekStartDay(now) <= DayNumber(t) < WeekStartDay(now) + 7
  {
    var w := WeekStartDay(now);
    var x := DayNumber(t) + 3;
    assert (w + 3) == WeekNumber(now) * 7;
    if w <= DayNumber(t) < w + 7 {
      WeekFromBounds(x, WeekNumber(now));
    }
  }

  /** Under a Monday-start week, a timestamp of today is also one of this week. */
  lemma SameDayImpliesSameWeek(t: int, now: int)
    requires SameDay(t, now)
    ensures SameWeekMondayStart(t, now)
  {
  }

  /** A timestamp seven or more days before now's day is neither today nor this week. */
  lemma StaleIsNeitherDayNorWeek(t: int, now: int)
    requires t <= now - 7 * MS_PER_DAY
    ensures !SameDay(t, now) && !SameWeekMondayStart(t, now)
  {
    assert DayNumber(t) <= DayNumber(now) - 7 by {
      DayNumberMonotone(t, now - 7 * MS_PER_DAY);
      assert DayNumber(now - 7 * MS_PER_DAY) == DayNumber(now) - 7;
    }
    SameWeekIffWithinMondayWindow(t, now);
  }

  lemma DayNumberMonotone(a: int, b: int)
    requires a <= b
    ensures DayNumber(a) <= DayNumber(b)
  {
  }

  /** An instant in the day-long window starting at day q's midnight falls on day q. */
  lemma DayFromBounds(x: int, q: int)
    requires q * MS_PER_DAY <= x < q * MS_PER_DAY + MS_PER_DAY
    ensures x / MS_PER_DAY == q
  {
  }

  /** A count in [7q, 7q + 7) has quotient q by 7. */
  lemma WeekFromBounds(x: int, q: int)
    requires q * 7 <= x < q * 7 + 7
    ensures x / 7 == q
  {
  }
}
