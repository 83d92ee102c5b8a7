/** Which business day a moment belongs to, for a branch at a constant offset from UTC.
    Moments and offsets are in microseconds, days are day numbers. */
module BusinessDay {

  const HOUR: int := 3_600_000_000
  const DAY: int := 24 * HOUR

  /** Local time, stepped back by the cutoff, then the date. */
  function BusinessDate(moment: int, offset: int, cutoffHour: int): int
  {
    (moment + offset - cutoffHour * HOUR) / DAY
  }

  /** The UTC window [start, end) of one business day: local midnight plus the cutoff, and
      24 hours on. */
  function Bounds(day: int, offset: int, cutoffHour: int): (int, int)
  {
    var start := day * DAY + cutoffHour * HOUR;
    (start - offset, start + DAY - offset)
  }

  /** A moment's business day is the day whose window holds it, and no other. */
  lemma DateIsTheWindowHolding(moment: int, day: int, offset: int, cutoffHour: int)
    ensures BusinessDate(moment, offset, cutoffHour) == day <==>
            Bounds(day, offset, cutoffHour).0 <= moment < Bounds(day, offset, cutoffHour).1
  {
    var t := moment + offset - cutoffHour * HOUR;
    assert t == t / DAY * DAY + t % DAY;
  }

  /** What the clock on the wall shows decides: from the cutoff hour on, a moment belongs to its own
      calendar date, and before it to the date before. */
  lemma SmallHoursBelongToTheDayBefore(moment: int, offset: int, cutoffHour: int)
    requires 0 <= cutoffHour <= 24
    ensures var date, clock := (moment + offset) / DAY, (moment + offset) % DAY;
      BusinessDate(moment, offset, cutoffHour) == if clock >= cutoffHour * HOUR then date else date - 1
  {
    var date, clock := (moment + offset) / DAY, (moment + offset) % DAY;
    DateIsTheWindowHolding(moment, if clock >= cutoffHour * HOUR then date else date - 1, offset, cutoffHour);
  }

  /** Consecutive windows abut, and later moments never get an earlier day. */
  lemma DaysPartitionTime(day: int, one: int, two: int, offset: int, cutoffHour: int)
    ensures Bounds(day, offset, cutoffHour).1 == Bounds(day + 1, offset, cutoffHour).0
    ensures Bounds(day, offset, cutoffHour).1 - Bounds(day, offset, cutoffHour).0 == DAY
    ensures one <= two ==> BusinessDate(one, offset, cutoffHour) <= BusinessDate(two, offset, cutoffHour)
  {
    DateIsTheWindowHolding(one, BusinessDate(one, offset, cutoffHour), offset, cutoffHour);
    DateIsTheWindowHolding(two, BusinessDate(two, offset, cutoffHour), offset, cutoffHour);
  }
}
