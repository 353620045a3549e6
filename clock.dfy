/** Local calendar arithmetic on `Date` time values. The local zone is an
    explicit, fixed offset in milliseconds (local wall clock = UTC + zone). */
module Clock {
  const MinuteMs: int := 60000
  const HourMs: int := 3600000
  const DayMs: int := 86400000

  /** The local day number of a time value: equal day numbers are exactly the
      time values that `toDateString()` renders alike. */
  function LocalDay(t: int, zone: int): int {
    (t + zone) / DayMs
  }

  /** The local minute of the day, 0 (00:00) to 1439 (23:59). */
  function LocalMinute(t: int, zone: int): (m: nat)
    ensures m < 1440
  {
    ((t + zone) % DayMs) / MinuteMs
  }

  /** `new Date(year, month, day, hour, minute)` for the local day `day`; hours
      and minutes out of range roll over into the neighbouring days. */
  function LocalTime(day: int, hour: int, minute: int, zone: int): int {
    day * DayMs + hour * HourMs + minute * MinuteMs - zone
  }

  /** A clock time within the day lands on that day, at that minute. */
  lemma LocalTimeOnDay(day: int, hour: int, minute: int, zone: int)
    requires 0 <= hour * 60 + minute < 1440
    ensures LocalDay(LocalTime(day, hour, minute, zone), zone) == day
    ensures LocalMinute(LocalTime(day, hour, minute, zone), zone) == hour * 60 + minute
  {
    var m := hour * 60 + minute;
    var t := LocalTime(day, hour, minute, zone);
    assert t + zone == day * DayMs + m * MinuteMs;
    assert 0 <= m * MinuteMs < DayMs;
    assert (t + zone) / DayMs == day;
    assert (t + zone) % DayMs == m * MinuteMs;
  }
}
