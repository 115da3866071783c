/**
 * Instants are integer milliseconds on the local clock (the time-zone offset is
 * already applied), so a calendar day is a block of 86,400,000 of them.
 */
module Dates {

  const MsPerDay: int := 86400000

  /** The calendar day an instant falls on (Dafny's `/` floors for a positive divisor). */
  function Day(t: int): int {
    t / MsPerDay
  }

  /**
   * `d.setHours(0, 0, 0, 0)`: the midnight that starts the day of `t`. It is the last
   * multiple of a day not after `t`.
   */
  function StartOfDay(t: int): (r: int)
    ensures r <= t < r + MsPerDay
    ensures r % MsPerDay == 0
    ensures r == Day(t) * MsPerDay
  {
    t - t % MsPerDay
  }
}
