/** Concrete windows, with the sort outcome that leaves every list as it
    is, that exhibit behaviour the generator's rules imply. */
module Scenarios {
  import opened ScheduleTypes
  import opened ScheduleRules

  /** The sort outcome that leaves every list as it is. */
  function KeepOrder(date: Date, ws: seq<Worker>): seq<Worker> {
    ws
  }

  const Ana := Worker("a", "Ana")
  const Ben := Worker("b", "Ben")
  const Eva := Worker("e", "Eva")

  /** The real entries of the first day of a window starting on Sunday
      date 0 with three fresh workers. */
  lemma SundayStartReal()
    ensures Available([Ana, Ben, Eva], map[], 0) == [Ana, Ben, Eva]
    ensures Real([Ana, Ben, Eva], map[], 0, KeepOrder)
         == [EntryFor(Ana, 0, Morning), EntryFor(Ben, 0, Evening), EntryFor(Eva, 0, Night)]
  {
    var ws := [Ana, Ben, Eva];
    assert ws[..2] == [Ana, Ben] && [Ana, Ben][..1] == [Ana] && [Ana][..0] == [];
    assert DayNameOf(0) == Sunday;
    assert AvailableWorkers([Ana], map[], 0, true) == [Ana];
    assert AvailableWorkers([Ana, Ben], map[], 0, true) == [Ana, Ben];
    assert AvailableWorkers(ws, map[], 0, true) == ws;
  }

  /** The night pass of that day: two days of leave for the night worker. */
  lemma SundayStartNightLeaves(reals: seq<Entry>)
    requires reals == [EntryFor(Ana, 0, Morning), EntryFor(Ben, 0, Evening), EntryFor(Eva, 0, Night)]
    ensures NightLeaves(reals, 0) == [LeaveEntry(reals[2], 1), LeaveEntry(reals[2], 2)]
  {
    assert DayNameOf(0) == Sunday;
    assert reals[..2][..1][..0] == [] && reals[..2][..1] == [reals[0]] && reals[..2] == [reals[0], reals[1]];
    assert NightLeaves(reals[..2][..1], 0) == [];
    assert NightLeaves(reals[..2], 0) == [];
    assert NightLeave(reals[2], 0) == [LeaveEntry(reals[2], 1), LeaveEntry(reals[2], 2)];
  }

  /** The Sunday pass of that day: leave on the Saturday before for the
      morning and the evening worker. */
  lemma SundayStartDayBefore(reals: seq<Entry>, passed: seq<Entry>)
    requires reals == [EntryFor(Ana, 0, Morning), EntryFor(Ben, 0, Evening), EntryFor(Eva, 0, Night)]
    requires passed == reals + [LeaveEntry(reals[2], 1), LeaveEntry(reals[2], 2)]
    ensures DayBeforeLeaves(passed, 0) == [LeaveEntry(reals[0], -1), LeaveEntry(reals[1], -1)]
  {
    assert reals[..2][..1][..0] == [] && reals[..2][..1] == [reals[0]] && reals[..2] == [reals[0], reals[1]];
    assert DayBeforeLeaves(reals[..2][..1], 0) == [LeaveEntry(reals[0], -1)];
    assert DayBeforeLeaves(reals[..2], 0) == [LeaveEntry(reals[0], -1), LeaveEntry(reals[1], -1)];
    assert passed[..4] == reals + [passed[3]] && passed[..4][..3] == reals;
    assert DayBeforeLeaves(passed[..4], 0) == DayBeforeLeaves(reals, 0);
  }

  /** A window starting on a Sunday: its first batch gives the Sunday
      morning and evening workers a leave entry dated the Saturday before the
      window, and the night worker leave on Monday and Tuesday. */
  lemma SundayStartLeaveBefore()
    ensures Batch([Ana, Ben, Eva], 0, 0, KeepOrder)
         == [EntryFor(Ana, 0, Morning), EntryFor(Ben, 0, Evening), EntryFor(Eva, 0, Night),
             LeaveEntry(EntryFor(Eva, 0, Night), 1), LeaveEntry(EntryFor(Eva, 0, Night), 2),
             LeaveEntry(EntryFor(Ana, 0, Morning), -1), LeaveEntry(EntryFor(Ben, 0, Evening), -1)]
  {
    var reals := [EntryFor(Ana, 0, Morning), EntryFor(Ben, 0, Evening), EntryFor(Eva, 0, Night)];
    SundayStartReal();
    SundayStartNightLeaves(reals);
    SundayStartDayBefore(reals, reals + NightLeaves(reals, 0));
  }

  /** Day 0 of a window starting on Saturday date 6 with two fresh
      workers: evening for the first, night for the second, who gets leave
      on Sunday and Monday. */
  lemma SaturdayStartDay0()
    ensures Real([Ana, Ben], map[], 6, KeepOrder) == [EntryFor(Ana, 6, Evening), EntryFor(Ben, 6, Night)]
    ensures DayLastShifts([Ana, Ben], map[], 6, KeepOrder)
         == map[Ana.id := LastShift(6, Evening), Ben.id := LastShift(6, Night)]
    ensures DayEntries([Ana, Ben], map[], 6, KeepOrder)
         == [EntryFor(Ana, 6, Evening), EntryFor(Ben, 6, Night),
             LeaveEntry(EntryFor(Ben, 6, Night), 7), LeaveEntry(EntryFor(Ben, 6, Night), 8)]
  {
    var ws := [Ana, Ben];
    assert ws[..1] == [Ana] && [Ana][..0] == [];
    assert DayNameOf(6) == Saturday;
    assert AvailableWorkers([Ana], map[], 6, false) == [Ana];
    assert AvailableWorkers(ws, map[], 6, false) == ws;
    var reals := [EntryFor(Ana, 6, Evening), EntryFor(Ben, 6, Night)];
    assert Real(ws, map[], 6, KeepOrder) == reals;
    assert reals[..1] == [reals[0]] && reals[..1][..0] == [];
    assert Record(map[], reals[..1]) == map[Ana.id := LastShift(6, Evening)];
    assert NightLeaves(reals[..1], 6) == [];
    assert NightLeave(reals[1], 6) == [LeaveEntry(reals[1], 7), LeaveEntry(reals[1], 8)];
    assert NightLeaves(reals, 6) == [LeaveEntry(reals[1], 7), LeaveEntry(reals[1], 8)];
  }

  /** Day 1, the Sunday: the night worker of Saturday rests, so the other
      worker alone gets the morning. */
  lemma SaturdayStartDay1(last: LastShifts)
    requires last == map[Ana.id := LastShift(6, Evening), Ben.id := LastShift(6, Night)]
    ensures Available([Ana, Ben], last, 7) == [Ana]
    ensures DayLastShifts([Ana, Ben], last, 7, KeepOrder)
         == map[Ana.id := LastShift(7, Morning), Ben.id := LastShift(6, Night)]
  {
    var ws := [Ana, Ben];
    assert ws[..1] == [Ana] && [Ana][..0] == [];
    assert DayNameOf(7) == Sunday;
    assert AvailableWorkers([Ana], last, 7, true) == [Ana];
    assert !IsAvailable(last, Ben, 7, true);
    var reals := [EntryFor(Ana, 7, Morning)];
    assert Real(ws, last, 7, KeepOrder) == reals;
    assert reals[..0] == [];
    assert Ana.id != Ben.id;
    assert Record(last, reals) == last[Ana.id := LastShift(7, Morning)];
  }

  /** Day 2, the Monday: two days after the night shift its worker is
      available again and gets the night, although the leave of day 0 is
      dated this Monday. */
  lemma SaturdayStartDay2(last: LastShifts)
    requires last == map[Ana.id := LastShift(7, Morning), Ben.id := LastShift(6, Night)]
    ensures EntryFor(Ben, 8, Night) in DayEntries([Ana, Ben], last, 8, KeepOrder)
  {
    var ws := [Ana, Ben];
    assert ws[..1] == [Ana] && [Ana][..0] == [];
    assert DayNameOf(8) == Monday;
    assert AvailableWorkers([Ana], last, 8, false) == [Ana];
    assert IsAvailable(last, Ben, 8, false);
    assert AvailableWorkers(ws, last, 8, false) == ws;
    var reals := [EntryFor(Ana, 8, Evening), EntryFor(Ben, 8, Night)];
    assert Real(ws, last, 8, KeepOrder) == reals;
    assert reals[1] in WithLeave(reals, 8);
  }

  /** Leave entries do not make a worker unavailable: in a window starting
      on a Saturday with two workers, the Saturday night worker has a leave
      entry and a night entry both dated the Monday. */
  lemma LeaveDoesNotBlock()
    ensures LeaveEntry(EntryFor(Ben, 6, Night), 8) in Batch([Ana, Ben], 6, 0, KeepOrder)
    ensures EntryFor(Ben, 8, Night) in Batch([Ana, Ben], 6, 2, KeepOrder)
  {
    var ws := [Ana, Ben];
    SaturdayStartDay0();
    assert LeaveEntry(EntryFor(Ben, 6, Night), 8) == Batch(ws, 6, 0, KeepOrder)[3];
    assert LastShiftsBefore(ws, 6, 1, KeepOrder) == DayLastShifts(ws, map[], 6, KeepOrder);
    SaturdayStartDay1(LastShiftsBefore(ws, 6, 1, KeepOrder));
    assert LastShiftsBefore(ws, 6, 2, KeepOrder) == DayLastShifts(ws, LastShiftsBefore(ws, 6, 1, KeepOrder), 7, KeepOrder);
    SaturdayStartDay2(LastShiftsBefore(ws, 6, 2, KeepOrder));
  }
}
