/** Timestamps of the schedule grid. A time is a whole number of minutes since
    the epoch, so the date library's minute comparison becomes `==`; days are
    fixed 24-hour blocks (no time zones, no daylight-saving shifts). */
module Clock {

  /** One selectable instant, in minutes. */
  type Time = int

  const MinutesPerHour: int := 60
  const MinutesPerDay: int := 24 * MinutesPerHour

  /** The first minute of the day that contains `t`. */
  function StartOfDay(t: Time): (r: Time)
    ensures r <= t < r + MinutesPerDay
    ensures r % MinutesPerDay == 0
  {
    (t / MinutesPerDay) * MinutesPerDay
  }

  /** `t` moved forward by `n` whole days. */
  function AddDays(t: Time, n: int): Time
  {
    t + n * MinutesPerDay
  }

  /** `t` moved forward by `n` whole hours. */
  function AddHours(t: Time, n: int): Time
  {
    t + n * MinutesPerHour
  }
}
