/**
 * `DateTime` values as tick counts, the `.Date` comparison against
 * `DateTime.Today`, and the civil date a clock reading yields for
 * `ToString("yyyyMMdd")`.
 */
module Dates {
  import opened Text

  /** A `DateTime`, as its count of 100-nanosecond ticks since 0001-01-01. */
  type DateTime = nat

  const TicksPerDay: nat := 864_000_000_000

  /** `t.Date`, as a day number. */
  function DayOf(t: DateTime): nat
  {
    t / TicksPerDay
  }

  /**
   * `t.Date <= DateTime.Today`, with today given as a day number: the time of
   * day is discarded, so every instant up to the end of today counts.
   */
  predicate OnOrBeforeDay(t: DateTime, today: nat)
  {
    DayOf(t) <= today
  }

  lemma OnOrBeforeDayByTicks(t: DateTime, today: nat)
    ensures OnOrBeforeDay(t, today) <==> t < (today + 1) * TicksPerDay
  {
    var d := t / TicksPerDay;
    assert d * TicksPerDay <= t < (d + 1) * TicksPerDay;
    if d <= today {
      assert (d + 1) * TicksPerDay <= (today + 1) * TicksPerDay;
    } else {
      assert (today + 1) * TicksPerDay <= d * TicksPerDay;
    }
  }

  /** A calendar date as `DateTime.Now` can report it (years 1 to 9999). */
  datatype CivilDate = CivilDate(year: int, month: int, day: int)

  type ClockDate = d: CivilDate | 1 <= d.year <= 9999 && 1 <= d.month <= 12 && 1 <= d.day <= 31
    witness CivilDate(1, 1, 1)

  /** `ToString("yyyyMMdd")`. */
  function FormatYyyyMmDd(d: ClockDate): (s: string)
    ensures |s| == 8
  {
    PadDigits(d.year, 4) + PadDigits(d.month, 2) + PadDigits(d.day, 2)
  }

  /** The eight characters give back the year, month and day. */
  lemma FormatYyyyMmDdParses(d: ClockDate)
    ensures var s := FormatYyyyMmDd(d);
            AllDigits(s) && ParseDigits(s[..4]) == d.year && ParseDigits(s[4..6]) == d.month && ParseDigits(s[6..]) == d.day
  {
    var s := FormatYyyyMmDd(d);
    assert s[..4] == PadDigits(d.year, 4);
    assert s[4..6] == PadDigits(d.month, 2);
    assert s[6..] == PadDigits(d.day, 2);
    assert Pow10(4) == 10000 && Pow10(2) == 100;
    ParsePadDigits(d.year, 4);
    ParsePadDigits(d.month, 2);
    ParsePadDigits(d.day, 2);
  }

  lemma FormatYyyyMmDdInjective(d1: ClockDate, d2: ClockDate)
    ensures FormatYyyyMmDd(d1) == FormatYyyyMmDd(d2) <==> d1 == d2
  {
    FormatYyyyMmDdParses(d1);
    FormatYyyyMmDdParses(d2);
  }
}
