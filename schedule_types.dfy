/** The value types of the shift scheduler: workers, shift kinds, calendar
    days and schedule entries. */
module ScheduleTypes {

  type WorkerId = string

  /** A registered worker: a unique id and a display name. */
  datatype Worker = Worker(id: WorkerId, name: string)

  /** The four kinds of shift; `Leave` is derived, the other three are real. */
  datatype Shift = Morning | Evening | Night | Leave

  datatype DayName = Sunday | Monday | Tuesday | Wednesday | Thursday | Friday | Saturday

  /** A calendar day without time of day, counted in days from Sunday
      4 January 1970 (negative before it). */
  type Date = int

  /** The weekday names in order, starting on the weekday of date 0. */
  const WeekDays: seq<DayName> := [Sunday, Monday, Tuesday, Wednesday, Thursday, Friday, Saturday]

  /** The weekday name of a date (what the generator obtains through the
      locale's long weekday name), counted off by whole weeks from the week
      of date 0. */
  function DayNameOf(date: Date): DayName
    decreases if date < 0 then 7 - date else date
  {
    if date < 0 then DayNameOf(date + 7)
    else if date < 7 then WeekDays[date]
    else DayNameOf(date - 7)
  }

  /** The weekday name of a date is fixed by its remainder modulo 7. */
  lemma {:induction false} DayNameByRemainder(date: Date)
    ensures DayNameOf(date) == WeekDays[date % 7]
    ensures DayNameOf(date) == Sunday <==> date % 7 == 0
    ensures DayNameOf(date) == Saturday <==> date % 7 == 6
    decreases if date < 0 then 7 - date else date
  {
    if date < 0 {
      DayNameByRemainder(date + 7);
      assert (date + 7) % 7 == date % 7;
    } else if date >= 7 {
      DayNameByRemainder(date - 7);
      assert (date - 7) % 7 == date % 7;
    }
  }

  /** One row of a schedule. `workerName` is a snapshot of the name at
      generation time; `day` is the weekday name of `date`. */
  datatype Entry = Entry(workerId: WorkerId, workerName: string, date: Date, day: DayName, shift: Shift)

  /** The generator's record of a worker's most recent real shift. */
  datatype LastShift = LastShift(date: Date, shift: Shift)

  type LastShifts = map<WorkerId, LastShift>

  /** The entry assigning worker `w` to `shift` on `date`. */
  function EntryFor(w: Worker, date: Date, shift: Shift): Entry {
    Entry(w.id, w.name, date, DayNameOf(date), shift)
  }

  /** The worker an entry is about. */
  function WorkerOf(e: Entry): Worker {
    Worker(e.workerId, e.workerName)
  }

  /** No two positions of `ws` hold the same worker id. */
  predicate UniqueIds(ws: seq<Worker>) {
    forall i, j :: 0 <= i < j < |ws| ==> ws[i].id != ws[j].id
  }

  function Min(a: int, b: int): int {
    if a <= b then a else b
  }
}
