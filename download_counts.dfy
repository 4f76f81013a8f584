/**
 * The per-timestamp counting step that both stats scans share: a timestamp
 * adds one to `today` when it falls on now's day and one to `thisWeek` when it
 * falls in now's Monday-start week; a timestamp that does not parse adds
 * nothing and the scan goes on.
 */
module DownloadCounts {
  import opened Types
  import opened Calendar

  const Zero := StatsData(0, 0)

  function Plus(a: StatsData, b: StatsData): StatsData {
    StatsData(a.today + b.today, a.thisWeek + b.thisWeek)
  }

  /** What one stored timestamp adds to the counters. */
  function Contribution(t: Timestamp, now: int): (r: StatsData)
    ensures r.today <= r.thisWeek <= 1
    ensures r.today == 1 <==> t.Iso? && SameDay(t.millis, now)
    ensures r.thisWeek == 1 <==> t.Iso? && SameWeekMondayStart(t.millis, now)
  {
    match t
    case Iso(ms) =>
      if SameDay(ms, now) then SameDayImpliesSameWeek(ms, now); StatsData(1, 1)
      else StatsData(0, if SameWeekMondayStart(ms, now) then 1 else 0)
    case Garbled(_) => Zero
  }

  /**
   * The body of the per-timestamp callback: parse, then bump each counter
   * whose window the instant falls in; a parse failure is logged and leaves
   * both counters alone.
   */
  method CountTimestamp(t: Timestamp, now: int, today: nat, thisWeek: nat)
    returns (today': nat, thisWeek': nat)
    ensures today' == today + Contribution(t, now).today
    ensures thisWeek' == thisWeek + Contribution(t, now).thisWeek
  {
    today', thisWeek' := today, thisWeek;
    match t {
      case Iso(ms) =>
        if SameDay(ms, now) {
          today' := today' + 1;
        }
        if SameWeekMondayStart(ms, now) {
          thisWeek' := thisWeek' + 1;
        }
      case Garbled(_) =>
    }
  }

  /** The counters after visiting `stamps` in order, starting from zero. */
  function Tally(stamps: seq<Timestamp>, now: int): StatsData {
    if stamps == [] then Zero
    else Plus(Tally(stamps[..|stamps| - 1], now), Contribution(stamps[|stamps| - 1], now))
  }

  /**
   * The inner `forEach` over one list of timestamps, run from the counters
   * as they stand: it adds the list's tally to them.
   */
  method CountTimestamps(stamps: seq<Timestamp>, now: int, today: nat, thisWeek: nat)
    returns (today': nat, thisWeek': nat)
    ensures today' == today + Tally(stamps, now).today
    ensures thisWeek' == thisWeek + Tally(stamps, now).thisWeek
  {
    today', thisWeek' := today, thisWeek;
    var j := 0;
    while j < |stamps|
      invariant 0 <= j <= |stamps|
      invariant today' == today + Tally(stamps[..j], now).today
      invariant thisWeek' == thisWeek + Tally(stamps[..j], now).thisWeek
    {
      today', thisWeek' := CountTimestamp(stamps[j], now, today', thisWeek');
      TallySnoc(stamps, j, now);
      j := j + 1;
    }
    assert stamps[..j] == stamps;
  }

  /** Visiting one more timestamp adds its contribution. */
  lemma TallySnoc(stamps: seq<Timestamp>, j: nat, now: int)
    requires j < |stamps|
    ensures Tally(stamps[..j + 1], now) == Plus(Tally(stamps[..j], now), Contribution(stamps[j], now))
  {
    assert stamps[..j + 1][..j] == stamps[..j];
  }

  /** Both counts are at most the number of timestamps, and today never exceeds this week. */
  lemma {:induction false} TallyBounds(stamps: seq<Timestamp>, now: int)
    ensures Tally(stamps, now).today <= Tally(stamps, now).thisWeek <= |stamps|
  {
    if stamps != [] {
      TallyBounds(stamps[..|stamps| - 1], now);
    }
  }

  /** Counting two runs of timestamps one after the other adds their counts. */
  lemma {:induction false} TallyConcat(s: seq<Timestamp>, t: seq<Timestamp>, now: int)
    ensures Tally(s + t, now) == Plus(Tally(s, now), Tally(t, now))
  {
    if t == [] {
      assert s + t == s;
    } else {
      var n := |t| - 1;
      var u := s + t;
      assert u[..|u| - 1] == s + t[..n];
      assert u[|u| - 1] == t[n];
      TallyConcat(s, t[..n], now);
      calc {
        Tally(u, now);
        Plus(Tally(s + t[..n], now), Contribution(t[n], now));
        Plus(Plus(Tally(s, now), Tally(t[..n], now)), Contribution(t[n], now));
        Plus(Tally(s, now), Plus(Tally(t[..n], now), Contribution(t[n], now)));
      }
    }
  }

  /** A timestamp that does not parse is skipped: the rest is counted as if it were not there. */
  lemma GarbledSkipped(s: seq<Timestamp>, text: string, t: seq<Timestamp>, now: int)
    ensures Tally(s + [Garbled(text)] + t, now) == Tally(s + t, now)
  {
    TallyConcat(s + [Garbled(text)], t, now);
    TallyConcat(s, t, now);
  }

  /** A download seven or more days before now counts neither today nor this week. */
  lemma StaleContributesNothing(ms: int, now: int)
    requires ms <= now - 7 * MS_PER_DAY
    ensures Contribution(Iso(ms), now) == Zero
  {
    StaleIsNeitherDayNorWeek(ms, now);
  }

  /** Adding a download can only raise the counts. */
  lemma {:induction false} TallyMonotone(s: seq<Timestamp>, t: Timestamp, now: int)
    ensures Tally(s, now).today <= Tally(s + [t], now).today
    ensures Tally(s, now).thisWeek <= Tally(s + [t], now).thisWeek
  {
    assert (s + [t])[..|s|] == s;
  }
}
