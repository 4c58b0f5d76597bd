/** The rules of the 30-day shift generator as functions: which workers are
    available on a day, which real entries a day gets, which leave entries
    are derived from them, how the last-shift record evolves, and the whole
    window as the concatenation of its day batches. The imperative generator
    in module Generator is proved to compute exactly these. */
module ScheduleRules {
  import opened ScheduleTypes

  /** The outcome of the generator's random sort, per day: the order in which
      the list of available workers comes back. */
  type Shuffle = (Date, seq<Worker>) -> seq<Worker>

  /** The sort only ever rearranges its input. */
  ghost predicate IsShuffle(shuffle: Shuffle) {
    forall date, ws :: multiset(shuffle(date, ws)) == multiset(ws)
  }

  /** What the generator's indexing needs of the sort: it returns as many
      workers as it is given. Every rearrangement does. */
  ghost predicate KeepsLength(shuffle: Shuffle) {
    forall date, ws :: |shuffle(date, ws)| == |ws|
  }

  /** Number of days of one schedule window. */
  const Days: nat := 30

  // ---------------------------------------------------------------- availability

  /** The availability test applied to each worker, with the code's separate
      Sunday and non-Sunday branches (see DayProperties.RestRule). */
  function IsAvailable(last: LastShifts, w: Worker, date: Date, isSunday: bool): bool {
    if w.id !in last then true
    else
      var lastShift := last[w.id];
      var daysSinceLastShift := date - lastShift.date;
      if lastShift.shift == Night && isSunday && daysSinceLastShift == 1 then false
      else if lastShift.shift == Night && !isSunday && daysSinceLastShift == 1 then false
      else true
  }

  /** The workers, in order, that pass the availability test. */
  function AvailableWorkers(workers: seq<Worker>, last: LastShifts, date: Date, isSunday: bool): seq<Worker> {
    if workers == [] then []
    else
      var w := workers[|workers| - 1];
      var rest := AvailableWorkers(workers[..|workers| - 1], last, date, isSunday);
      if IsAvailable(last, w, date, isSunday) then rest + [w] else rest
  }

  // ---------------------------------------------------------------- real assignments

  /** The shift of position k of the shuffled list on a Sunday. */
  function SundayShift(k: nat): Shift {
    if k == 0 then Morning else if k == 1 then Evening else Night
  }

  /** The shift of position k of the shuffled list on any other day. */
  function WeekdayShift(k: nat): Shift {
    if k == 0 then Evening else if k == 1 then Night else Morning
  }

  /** The real entries of a day on which `available` are the available workers
      and `shuffled` is their shuffled order. As in the generator, the branch
      is chosen on the number of available workers and the positions taken
      are bounded by the length of the shuffled list. */
  function RealEntries(available: seq<Worker>, shuffled: seq<Worker>, date: Date): seq<Entry> {
    var n := |available|;
    if n == 0 then []
    else if DayNameOf(date) == Sunday then
      seq(Min(3, |shuffled|), k requires 0 <= k < Min(3, |shuffled|) => EntryFor(shuffled[k], date, SundayShift(k)))
    else if n < 2 then
      seq(n, k requires 0 <= k < n => EntryFor(available[k], date, Morning))
    else
      seq(|shuffled|, k requires 0 <= k < |shuffled| => EntryFor(shuffled[k], date, WeekdayShift(k)))
  }

  // ---------------------------------------------------------------- leave entries

  /** A leave entry on `date` for the worker of entry `e`. */
  function LeaveEntry(e: Entry, date: Date): Entry {
    Entry(e.workerId, e.workerName, date, DayNameOf(date), Leave)
  }

  /** The leave entries for night entry `e` of day `date`: the next two days
      after a Saturday or Sunday night, the next day otherwise. */
  function NightLeave(e: Entry, date: Date): seq<Entry> {
    var name := DayNameOf(date);
    if name == Saturday || name == Sunday then seq(2, i requires 0 <= i < 2 => LeaveEntry(e, date + 1 + i))
    else [LeaveEntry(e, date + 1)]
  }

  /** The first leave pass: for each night entry in order, its leave entries. */
  function NightLeaves(entries: seq<Entry>, date: Date): seq<Entry> {
    if entries == [] then []
    else
      var e := entries[|entries| - 1];
      NightLeaves(entries[..|entries| - 1], date) + (if e.shift == Night then NightLeave(e, date) else [])
  }

  /** The Sunday leave pass: a leave entry on the previous day for each
      morning or evening entry, in order. */
  function DayBeforeLeaves(entries: seq<Entry>, date: Date): seq<Entry> {
    if entries == [] then []
    else
      var e := entries[|entries| - 1];
      DayBeforeLeaves(entries[..|entries| - 1], date)
        + (if e.shift == Morning || e.shift == Evening then [LeaveEntry(e, date - 1)] else [])
  }

  /** The entries of a day after both leave passes. The Sunday pass runs over
      the list as the night pass left it. */
  function WithLeave(entries: seq<Entry>, date: Date): seq<Entry> {
    var afterNights := entries + NightLeaves(entries, date);
    if DayNameOf(date) == Sunday then afterNights + DayBeforeLeaves(afterNights, date) else afterNights
  }

  // ---------------------------------------------------------------- last-shift record

  /** The last-shift record after recording each of `entries` in order. */
  function Record(last: LastShifts, entries: seq<Entry>): LastShifts {
    if entries == [] then last
    else
      var e := entries[|entries| - 1];
      Record(last, entries[..|entries| - 1])[e.workerId := LastShift(e.date, e.shift)]
  }

  // ---------------------------------------------------------------- one day

  /** The available workers of day `date`. */
  function Available(workers: seq<Worker>, last: LastShifts, date: Date): seq<Worker> {
    AvailableWorkers(workers, last, date, DayNameOf(date) == Sunday)
  }

  /** The shuffled order of the available workers of day `date`. */
  function Shuffled(workers: seq<Worker>, last: LastShifts, date: Date, shuffle: Shuffle): seq<Worker> {
    shuffle(date, Available(workers, last, date))
  }

  /** The real entries of day `date`. */
  function Real(workers: seq<Worker>, last: LastShifts, date: Date, shuffle: Shuffle): seq<Entry> {
    var available := Available(workers, last, date);
    RealEntries(available, shuffle(date, available), date)
  }

  /** The batch of entries day `date` contributes: nothing when nobody is
      available, only the real entries when a non-Sunday has a single available
      worker, and otherwise the real entries followed by their leave entries. */
  function DayEntries(workers: seq<Worker>, last: LastShifts, date: Date, shuffle: Shuffle): seq<Entry> {
    var available := Available(workers, last, date);
    if |available| == 0 then []
    else if DayNameOf(date) != Sunday && |available| < 2 then Real(workers, last, date, shuffle)
    else WithLeave(Real(workers, last, date, shuffle), date)
  }

  /** The last-shift record after day `date`: only real entries are recorded. */
  function DayLastShifts(workers: seq<Worker>, last: LastShifts, date: Date, shuffle: Shuffle): LastShifts {
    Record(last, Real(workers, last, date, shuffle))
  }

  // ---------------------------------------------------------------- the window

  /** The last-shift record before day `i` of the window starting at `start`. */
  function LastShiftsBefore(workers: seq<Worker>, start: Date, i: nat, shuffle: Shuffle): LastShifts {
    if i == 0 then map[]
    else DayLastShifts(workers, LastShiftsBefore(workers, start, i - 1, shuffle), start + (i - 1), shuffle)
  }

  /** The batch of day `i` of the window. */
  function Batch(workers: seq<Worker>, start: Date, i: nat, shuffle: Shuffle): seq<Entry> {
    DayEntries(workers, LastShiftsBefore(workers, start, i, shuffle), start + i, shuffle)
  }

  /** The batches of days 0 .. i-1, concatenated in day order. */
  function ScheduleUpTo(workers: seq<Worker>, start: Date, i: nat, shuffle: Shuffle): seq<Entry> {
    if i == 0 then []
    else ScheduleUpTo(workers, start, i - 1, shuffle) + Batch(workers, start, i - 1, shuffle)
  }

  /** The schedule of the window of `Days` days starting at `start`. */
  function MonthlySchedule(workers: seq<Worker>, start: Date, shuffle: Shuffle): seq<Entry> {
    ScheduleUpTo(workers, start, Days, shuffle)
  }

  /** One more day extends the schedule by that day's batch. */
  lemma ScheduleStep(workers: seq<Worker>, start: Date, i: nat, shuffle: Shuffle)
    ensures ScheduleUpTo(workers, start, i + 1, shuffle)
         == ScheduleUpTo(workers, start, i, shuffle) + Batch(workers, start, i, shuffle)
  {
  }

  /** One more day advances the record by that day. */
  lemma RecordStep(workers: seq<Worker>, start: Date, i: nat, shuffle: Shuffle)
    ensures LastShiftsBefore(workers, start, i + 1, shuffle)
         == DayLastShifts(workers, LastShiftsBefore(workers, start, i, shuffle), start + i, shuffle)
  {
  }
}
