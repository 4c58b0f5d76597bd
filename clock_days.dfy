/** The generator's day count as written: elapsed clock time between the
    last shift's timestamp and the day's, divided by 24 hours and floored.
    Across a switch to daylight saving time a calendar day lasts 23 hours,
    and the count of one calendar day comes out as 0. */
module ClockDays {
  import opened ScheduleTypes
  import opened ScheduleRules

  /** Milliseconds in 24 hours, the divisor of the day count. */
  const MsPerDay: int := 1000 * 60 * 60 * 24

  /** Milliseconds in one hour. */
  const MsPerHour: int := 1000 * 60 * 60

  /** Whole 24-hour periods in `elapsedMs`, rounded down. */
  function ElapsedDays(elapsedMs: int): (r: int)
    ensures r * MsPerDay <= elapsedMs < (r + 1) * MsPerDay
  {
    elapsedMs / MsPerDay
  }

  /** The availability test as written: the day count comes from the clock
      time `elapsedMs` between the last shift's timestamp and the day's. */
  function IsAvailableByClock(last: LastShifts, w: Worker, elapsedMs: int, isSunday: bool): bool {
    if w.id !in last then true
    else
      var lastShift := last[w.id];
      var daysSinceLastShift := ElapsedDays(elapsedMs);
      if lastShift.shift == Night && isSunday && daysSinceLastShift == 1 then false
      else if lastShift.shift == Night && !isSunday && daysSinceLastShift == 1 then false
      else true
  }

  /** Days of 24 and of 25 hours are counted right: the clock test then
      agrees with the calendar test on the day after a shift. */
  lemma LongDaysCounted(last: LastShifts, w: Worker, date: Date, hours: int, isSunday: bool)
    requires w.id in last && last[w.id].date == date - 1
    requires hours == 24 || hours == 25
    ensures IsAvailableByClock(last, w, hours * MsPerHour, isSunday) == IsAvailable(last, w, date, isSunday)
  {
    assert ElapsedDays(hours * MsPerHour) == 1;
  }

  /** A day of 23 hours is counted as 0: the worker of a night shift on the
      day the clocks go forward (its local midnight and the next are 23 hours
      apart) passes the clock test on
      the next day, which the calendar test refuses. */
  lemma ShortDayLetsNightWorkerThrough(w: Worker, date: Date, isSunday: bool)
    ensures var last := map[w.id := LastShift(date - 1, Night)];
            IsAvailableByClock(last, w, 23 * MsPerHour, isSunday) && !IsAvailable(last, w, date, isSunday)
  {
    assert ElapsedDays(23 * MsPerHour) == 0;
  }
}
