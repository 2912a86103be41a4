/** Instants, calendar days and clock times as integers.

    An instant is a whole number of seconds since a midnight-aligned local
    epoch, so the fixed-width strings "%Y-%m-%d %H:%M:%S" and "%Y-%m-%d" the
    application stores compare exactly as these integers do. */
module Clock {

  const SecondsPerMinute: int := 60
  const MinutesPerDay: int := 1440
  const SecondsPerDay: int := 86400

  /** The calendar day (days since the epoch) on which instant `t` falls. */
  function DayOf(t: int): int
  {
    t / SecondsPerDay
  }

  /** The instant at `minute` minutes past midnight of `day`. */
  function At(day: int, minute: int): int
  {
    day * SecondsPerDay + minute * SecondsPerMinute
  }

  /** A time of day as entered in the hour and minute boxes; `strptime`
      with "%H:%M" accepts exactly these. */
  predicate ValidClock(hour: int, minute: int)
  {
    0 <= hour < 24 && 0 <= minute < 60
  }

  /** Minutes past midnight of a valid clock time. */
  function MinuteOfDay(hour: int, minute: int): (m: int)
    requires ValidClock(hour, minute)
    ensures 0 <= m < MinutesPerDay
    ensures m / 60 == hour && m % 60 == minute
  {
    hour * 60 + minute
  }

  /** The "%H:%M" rendering of an instant, as minutes past midnight. */
  function ClockOf(t: int): (m: int)
    ensures 0 <= m < MinutesPerDay
    ensures At(DayOf(t), m) <= t < At(DayOf(t), m) + SecondsPerMinute
  {
    (t % SecondsPerDay) / SecondsPerMinute
  }

  /** `int(seconds / 60)` in Python: whole minutes, truncated toward zero. */
  function WholeMinutes(seconds: int): (m: int)
    ensures 0 <= seconds ==> 0 <= m && SecondsPerMinute * m <= seconds < SecondsPerMinute * m + SecondsPerMinute
    ensures seconds < 0 ==> m <= 0 && SecondsPerMinute * m - SecondsPerMinute < seconds <= SecondsPerMinute * m
  {
    if seconds >= 0 then seconds / SecondsPerMinute else -((-seconds) / SecondsPerMinute)
  }

  /** Start and end of a manually entered record: both clock times are read
      on `day`, and an end strictly earlier than the start is moved to the
      following day (the overnight rule). */
  function ManualSpan(day: int, startMinute: int, endMinute: int): (span: (int, int))
    requires 0 <= startMinute < MinutesPerDay && 0 <= endMinute < MinutesPerDay
    ensures DayOf(span.0) == day
    ensures span.0 <= span.1 < span.0 + SecondsPerDay
    ensures DayOf(span.1) == if endMinute < startMinute then day + 1 else day
    ensures ClockOf(span.0) == startMinute && ClockOf(span.1) == endMinute
  {
    ClockOfAt(day, startMinute);
    ClockOfAt(day, endMinute);
    ClockOfAt(day + 1, endMinute);
    var start := At(day, startMinute);
    var end := At(day, endMinute);
    if end < start then (start, end + SecondsPerDay) else (start, end)
  }

  /** Duration in minutes of a manually entered record. */
  function ManualDuration(day: int, startMinute: int, endMinute: int): int
    requires 0 <= startMinute < MinutesPerDay && 0 <= endMinute < MinutesPerDay
  {
    var span := ManualSpan(day, startMinute, endMinute);
    WholeMinutes(span.1 - span.0)
  }

  /** Reading back the clock of an instant built from a day and a clock. */
  lemma ClockOfAt(day: int, minute: int)
    requires 0 <= minute < MinutesPerDay
    ensures DayOf(At(day, minute)) == day
    ensures ClockOf(At(day, minute)) == minute
  {
  }

  /** The overnight rule: the duration is the clock difference modulo one day,
      lies in [0, 1439], and is 0 exactly when both clocks are equal. */
  lemma ManualDurationIsClockDifference(day: int, startMinute: int, endMinute: int)
    requires 0 <= startMinute < MinutesPerDay && 0 <= endMinute < MinutesPerDay
    ensures ManualDuration(day, startMinute, endMinute) == (endMinute - startMinute) % MinutesPerDay
    ensures 0 <= ManualDuration(day, startMinute, endMinute) < MinutesPerDay
    ensures ManualDuration(day, startMinute, endMinute) == 0 <==> startMinute == endMinute
  {
    var span := ManualSpan(day, startMinute, endMinute);
    if endMinute < startMinute {
      assert span.1 - span.0 == SecondsPerMinute * (endMinute - startMinute + MinutesPerDay);
    } else {
      assert span.1 - span.0 == SecondsPerMinute * (endMinute - startMinute);
    }
  }

  /** Going to bed at 23:00 and waking at 06:00 ends on the next day after 420 minutes. */
  lemma OvernightExample(day: int)
    ensures ManualSpan(day, 23 * 60, 6 * 60).1 == At(day + 1, 6 * 60)
    ensures ManualDuration(day, 23 * 60, 6 * 60) == 420
  {
  }
}
