/** Time as the model sees it: instants are integer seconds, calendar dates are day numbers. */
module Time {
  const MINUTE := 60
  const DAY := 86400

  /** The calendar date (day number) of instant `now`: the day that contains it. */
  function DateOf(now: int): (d: int)
    ensures d * DAY <= now < (d + 1) * DAY
  {
    now / DAY
  }
}
