/** The generator itself, step by step as the application runs it: a loop over
    the 30 days that threads the last-shift record through the days, a day
    procedure that pushes entries and updates the record, and the leave pass
    that appends to the day's entries. Each method is proved to compute the
    corresponding function of module ScheduleRules. */
module Generator {
  import opened ScheduleTypes
  import opened ScheduleRules

  class ScheduleGenerator {
    /** The workers to schedule, in registration order. */
    const workers: seq<Worker>

    constructor (workers: seq<Worker>)
      ensures this.workers == workers
    {
      this.workers := workers;
    }

    /** Generates the 30 days starting at `startDate`; `shuffle` stands for the
        outcomes of the random sort. */
    method GenerateMonthlySchedule(startDate: Date, shuffle: Shuffle) returns (schedule: seq<Entry>)
      requires KeepsLength(shuffle)
      ensures schedule == MonthlySchedule(workers, startDate, shuffle)
    {
      schedule := [];
      var workerLastShifts: LastShifts := map[];
      for i := 0 to Days
        invariant schedule == ScheduleUpTo(workers, startDate, i, shuffle)
        invariant workerLastShifts == LastShiftsBefore(workers, startDate, i, shuffle)
      {
        ScheduleStep(workers, startDate, i, shuffle);
        RecordStep(workers, startDate, i, shuffle);
        var daySchedule;
        daySchedule, workerLastShifts := GenerateDaySchedule(startDate + i, DayNameOf(startDate + i), workerLastShifts, shuffle);
        schedule := schedule + daySchedule;
      }
    }

    /** One day: the entries it contributes and the last-shift record after it.
        The record is the caller's map, updated in place in the application. */
    method GenerateDaySchedule(date: Date, dayName: DayName, workerLastShifts: LastShifts, shuffle: Shuffle)
      returns (entries: seq<Entry>, lastShifts: LastShifts)
      requires dayName == DayNameOf(date)
      requires KeepsLength(shuffle)
      ensures entries == DayEntries(workers, workerLastShifts, date, shuffle)
      ensures lastShifts == DayLastShifts(workers, workerLastShifts, date, shuffle)
    {
      entries := [];
      lastShifts := workerLastShifts;
      var isSunday := dayName == Sunday;

      var availableWorkers := AvailableWorkers(workers, workerLastShifts, date, isSunday);
      if |availableWorkers| == 0 {
        return;
      }

      if isSunday {
        var shuffledWorkers := shuffle(date, availableWorkers);
        entries, lastShifts := AssignSunday(date, dayName, workerLastShifts, shuffledWorkers);
        assert entries == RealEntries(availableWorkers, shuffledWorkers, date);
      } else {
        if |availableWorkers| < 2 {
          for k := 0 to |availableWorkers|
            invariant entries == seq(k, j requires 0 <= j < k => EntryFor(availableWorkers[j], date, Morning))
            invariant lastShifts == Record(workerLastShifts, entries)
          {
            var worker := availableWorkers[k];
            ghost var before := entries;
            entries := entries + [Entry(worker.id, worker.name, date, dayName, Morning)];
            lastShifts := lastShifts[worker.id := LastShift(date, Morning)];
            assert entries[..k] == before;
          }
          return;
        }

        var shuffledWorkers := shuffle(date, availableWorkers);
        entries, lastShifts := AssignWeekday(date, dayName, workerLastShifts, shuffledWorkers);
      }

      entries := ApplyLeaveRules(entries, date, dayName);
    }

    /** Sunday: morning for the first shuffled worker, evening for the
        second and night for the third when there are that many. */
    method AssignSunday(date: Date, dayName: DayName, workerLastShifts: LastShifts, shuffledWorkers: seq<Worker>)
      returns (entries: seq<Entry>, lastShifts: LastShifts)
      requires dayName == DayNameOf(date)
      requires |shuffledWorkers| >= 1
      ensures entries == seq(Min(3, |shuffledWorkers|), k requires 0 <= k < Min(3, |shuffledWorkers|) =>
                               EntryFor(shuffledWorkers[k], date, SundayShift(k)))
      ensures lastShifts == Record(workerLastShifts, entries)
    {
      var morningWorker := shuffledWorkers[0];
      entries := [Entry(morningWorker.id, morningWorker.name, date, dayName, Morning)];
      lastShifts := workerLastShifts[morningWorker.id := LastShift(date, Morning)];
      assert entries[..0] == [];
      assert lastShifts == Record(workerLastShifts, entries);

      if |shuffledWorkers| > 1 {
        var eveningWorker := shuffledWorkers[1];
        entries := entries + [Entry(eveningWorker.id, eveningWorker.name, date, dayName, Evening)];
        lastShifts := lastShifts[eveningWorker.id := LastShift(date, Evening)];
        assert entries[..1] == [entries[0]];
        assert lastShifts == Record(workerLastShifts, entries);
      }

      if |shuffledWorkers| > 2 {
        var nightWorker := shuffledWorkers[2];
        entries := entries + [Entry(nightWorker.id, nightWorker.name, date, dayName, Night)];
        lastShifts := lastShifts[nightWorker.id := LastShift(date, Night)];
        assert entries[..2] == [entries[0], entries[1]];
        assert lastShifts == Record(workerLastShifts, entries);
      }
    }

    /** Any other day with at least two available workers: evening for the
        first shuffled worker, night for the second, morning for the rest. */
    method AssignWeekday(date: Date, dayName: DayName, workerLastShifts: LastShifts, shuffledWorkers: seq<Worker>)
      returns (entries: seq<Entry>, lastShifts: LastShifts)
      requires dayName == DayNameOf(date)
      requires |shuffledWorkers| >= 2
      ensures entries == seq(|shuffledWorkers|, k requires 0 <= k < |shuffledWorkers| =>
                               EntryFor(shuffledWorkers[k], date, WeekdayShift(k)))
      ensures lastShifts == Record(workerLastShifts, entries)
    {
      var eveningWorker := shuffledWorkers[0];
      entries := [Entry(eveningWorker.id, eveningWorker.name, date, dayName, Evening)];
      lastShifts := workerLastShifts[eveningWorker.id := LastShift(date, Evening)];
      assert entries[..0] == [];
      assert lastShifts == Record(workerLastShifts, entries);

      var nightWorker := shuffledWorkers[1];
      entries := entries + [Entry(nightWorker.id, nightWorker.name, date, dayName, Night)];
      lastShifts := lastShifts[nightWorker.id := LastShift(date, Night)];
      assert entries[..1] == [entries[0]];
      assert lastShifts == Record(workerLastShifts, entries);

      for k := 2 to |shuffledWorkers|
        invariant entries == seq(k, j requires 0 <= j < k => EntryFor(shuffledWorkers[j], date, WeekdayShift(j)))
        invariant lastShifts == Record(workerLastShifts, entries)
      {
        var worker := shuffledWorkers[k];
        ghost var before := entries;
        entries := entries + [Entry(worker.id, worker.name, date, dayName, Morning)];
        lastShifts := lastShifts[worker.id := LastShift(date, Morning)];
        assert entries[..k] == before;
      }
    }

    /** Appends the leave entries of day `currentDate` to `entries`, the day's
        real entries: first for each night entry, then, on a Sunday, for each
        morning or evening entry of the list as it now stands. Neither pass
        visits what it appends itself. */
    method ApplyLeaveRules(entries: seq<Entry>, currentDate: Date, dayName: DayName) returns (result: seq<Entry>)
      requires dayName == DayNameOf(currentDate)
      ensures result == WithLeave(entries, currentDate)
    {
      var isSunday := dayName == Sunday;
      result := NightLeavePass(entries, currentDate, dayName);
      if isSunday {
        result := SundayLeavePass(result, currentDate);
      }
    }

    /** The first pass of ApplyLeaveRules: a walk over `entries` that appends
        the leave of each night entry. */
    method NightLeavePass(entries: seq<Entry>, currentDate: Date, dayName: DayName) returns (result: seq<Entry>)
      requires dayName == DayNameOf(currentDate)
      ensures result == entries + NightLeaves(entries, currentDate)
    {
      result := entries;
      for k := 0 to |entries|
        invariant result == entries + NightLeaves(entries[..k], currentDate)
      {
        var entry := entries[k];
        assert entries[..k + 1][..k] == entries[..k];
        if entry.shift == Night {
          result := AppendNightLeave(result, entry, currentDate, dayName);
        }
      }
      assert entries[..|entries|] == entries;
    }

    /** The Sunday pass of ApplyLeaveRules: a walk over the list as the night
        pass left it that appends a leave entry on the previous day for each
        morning or evening entry. */
    method SundayLeavePass(passed: seq<Entry>, currentDate: Date) returns (result: seq<Entry>)
      ensures result == passed + DayBeforeLeaves(passed, currentDate)
    {
      result := passed;
      for k := 0 to |passed|
        invariant result == passed + DayBeforeLeaves(passed[..k], currentDate)
      {
        var entry := passed[k];
        assert passed[..k + 1][..k] == passed[..k];
        if entry.shift == Morning || entry.shift == Evening {
          var previousDay := currentDate - 1;
          result := result + [Entry(entry.workerId, entry.workerName, previousDay, DayNameOf(previousDay), Leave)];
        }
      }
      assert passed[..|passed|] == passed;
    }

    /** The body of the night pass for one night entry: leave on the next two
        days after a Saturday or Sunday night, on the next day otherwise. */
    method AppendNightLeave(result: seq<Entry>, entry: Entry, currentDate: Date, dayName: DayName)
      returns (extended: seq<Entry>)
      requires dayName == DayNameOf(currentDate)
      ensures extended == result + NightLeave(entry, currentDate)
    {
      extended := result;
      if dayName == Saturday || dayName == Sunday {
        for i := 1 to 3
          invariant extended == result + seq(i - 1, j requires 0 <= j < i - 1 => LeaveEntry(entry, currentDate + 1 + j))
        {
          var leaveDate := currentDate + i;
          ghost var done := extended;
          extended := extended + [Entry(entry.workerId, entry.workerName, leaveDate, DayNameOf(leaveDate), Leave)];
          assert extended == done + [LeaveEntry(entry, currentDate + 1 + (i - 1))];
        }
      } else {
        var nextDay := currentDate + 1;
        extended := extended + [Entry(entry.workerId, entry.workerName, nextDay, DayNameOf(nextDay), Leave)];
      }
    }
  }
}
