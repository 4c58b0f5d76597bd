/** Properties of the whole window: how the day batches make up the
    schedule, the range of its dates, the rest rule across consecutive days,
    and that every day is staffed. */
module MonthProperties {
  import opened ScheduleTypes
  import opened ScheduleRules
  import opened DayProperties

  /** A prefix stays a prefix when the longer list is extended. */
  lemma PrefixOfAppend(a: seq<Entry>, b: seq<Entry>, c: seq<Entry>, d: seq<Entry>)
    requires a <= b
    requires d == b + c
    ensures a <= d
  {
    assert d[..|b|] == b;
  }

  /** What a concatenation holds. */
  lemma MembersOfAppend(b: seq<Entry>, c: seq<Entry>, d: seq<Entry>)
    requires d == b + c
    ensures forall e :: e in d <==> e in b || e in c
  {
  }

  /** What a prefix holds the longer list holds. */
  lemma MembersOfPrefix(a: seq<Entry>, b: seq<Entry>)
    requires a <= b
    ensures forall e :: e in a ==> e in b
  {
    assert b == a + b[|a|..];
  }

  /** The schedule only grows: the entries up to day i are a prefix of the
      entries up to any later day. */
  lemma {:induction false} AppendOnly(workers: seq<Worker>, start: Date, i: nat, j: nat, shuffle: Shuffle)
    requires i <= j
    ensures ScheduleUpTo(workers, start, i, shuffle) <= ScheduleUpTo(workers, start, j, shuffle)
    decreases j - i
  {
    if i == j {
      assert ScheduleUpTo(workers, start, i, shuffle) == ScheduleUpTo(workers, start, j, shuffle);
    } else {
      AppendOnly(workers, start, i, j - 1, shuffle);
      PrefixOfAppend(ScheduleUpTo(workers, start, i, shuffle), ScheduleUpTo(workers, start, j - 1, shuffle),
                     Batch(workers, start, j - 1, shuffle), ScheduleUpTo(workers, start, j, shuffle));
    }
  }

  /** Every entry up to day i comes from the batch of a day before i. */
  lemma {:induction false} ScheduleFromBatches(workers: seq<Worker>, start: Date, i: nat, shuffle: Shuffle)
    ensures forall e :: e in ScheduleUpTo(workers, start, i, shuffle) ==>
              exists j :: 0 <= j < i && e in Batch(workers, start, j, shuffle)
  {
    if i > 0 {
      ScheduleFromBatches(workers, start, i - 1, shuffle);
      MembersOfAppend(ScheduleUpTo(workers, start, i - 1, shuffle), Batch(workers, start, i - 1, shuffle),
                      ScheduleUpTo(workers, start, i, shuffle));
    }
  }

  /** The batch of day j is in the schedule of every later day. */
  lemma BatchInSchedule(workers: seq<Worker>, start: Date, j: nat, i: nat, shuffle: Shuffle)
    requires j < i
    ensures forall e :: e in Batch(workers, start, j, shuffle) ==> e in ScheduleUpTo(workers, start, i, shuffle)
  {
    ScheduleStep(workers, start, j, shuffle);
    MembersOfAppend(ScheduleUpTo(workers, start, j, shuffle), Batch(workers, start, j, shuffle),
                    ScheduleUpTo(workers, start, j + 1, shuffle));
    AppendOnly(workers, start, j + 1, i, shuffle);
    MembersOfPrefix(ScheduleUpTo(workers, start, j + 1, shuffle), ScheduleUpTo(workers, start, i, shuffle));
  }

  /** The schedule up to day i holds exactly the entries of the batches of
      the days before i. */
  lemma ScheduleMembers(workers: seq<Worker>, start: Date, i: nat, shuffle: Shuffle)
    ensures forall e :: e in ScheduleUpTo(workers, start, i, shuffle) <==>
              exists j :: 0 <= j < i && e in Batch(workers, start, j, shuffle)
  {
    ScheduleFromBatches(workers, start, i, shuffle);
    forall j | 0 <= j < i
      ensures forall e :: e in Batch(workers, start, j, shuffle) ==> e in ScheduleUpTo(workers, start, i, shuffle)
    {
      BatchInSchedule(workers, start, j, i, shuffle);
    }
  }

  /** No workers, no entries. */
  lemma {:induction false} NoWorkersNoSchedule(start: Date, i: nat, shuffle: Shuffle)
    ensures ScheduleUpTo([], start, i, shuffle) == []
  {
    if i > 0 {
      NoWorkersNoSchedule(start, i - 1, shuffle);
      EmptyDay([], LastShiftsBefore([], start, i - 1, shuffle), start + (i - 1), shuffle);
      ScheduleStep([], start, i - 1, shuffle);
    }
  }

  /** Dates of the batch of day j, for a day j before day i. */
  lemma BatchDateRange(workers: seq<Worker>, start: Date, j: nat, i: nat, shuffle: Shuffle)
    requires j < i
    ensures forall e :: e in Batch(workers, start, j, shuffle) ==>
              && start - 1 <= e.date <= start + i + 1
              && e.day == DayNameOf(e.date)
              && (e.date == start - 1 ==> DayNameOf(start) == Sunday)
  {
    DayDateRange(workers, LastShiftsBefore(workers, start, j, shuffle), start + j, shuffle);
    if j == 0 {
      assert start + j == start;
    }
  }

  /** Dates up to day i: from the day before the window, which only a window
      starting on a Sunday reaches, to the day after day i. */
  lemma ScheduleDateRange(workers: seq<Worker>, start: Date, i: nat, shuffle: Shuffle)
    ensures forall e :: e in ScheduleUpTo(workers, start, i, shuffle) ==>
              && start - 1 <= e.date <= start + i + 1
              && e.day == DayNameOf(e.date)
              && (e.date == start - 1 ==> DayNameOf(start) == Sunday)
  {
    ScheduleFromBatches(workers, start, i, shuffle);
    forall e | e in ScheduleUpTo(workers, start, i, shuffle)
      ensures start - 1 <= e.date <= start + i + 1 && e.day == DayNameOf(e.date)
      ensures e.date == start - 1 ==> DayNameOf(start) == Sunday
    {
      var j :| 0 <= j < i && e in Batch(workers, start, j, shuffle);
      BatchDateRange(workers, start, j, i, shuffle);
    }
  }

  /** The whole window: every entry is dated between the day before the
      start, reached only when the start is a Sunday, and 31 days after the
      start, and carries the weekday name of its date. */
  lemma MonthDateRange(workers: seq<Worker>, start: Date, shuffle: Shuffle)
    ensures forall e :: e in MonthlySchedule(workers, start, shuffle) ==>
              && start - 1 <= e.date <= start + 31
              && e.day == DayNameOf(e.date)
              && (e.date == start - 1 ==> DayNameOf(start) == Sunday)
  {
    ScheduleDateRange(workers, start, Days, shuffle);
  }

  /** The record before day i holds only dates before day i. */
  lemma {:induction false} RecordDatesBefore(workers: seq<Worker>, start: Date, i: nat, shuffle: Shuffle)
    ensures forall id :: id in LastShiftsBefore(workers, start, i, shuffle) ==>
              LastShiftsBefore(workers, start, i, shuffle)[id].date < start + i
  {
    if i > 0 {
      RecordDatesBefore(workers, start, i - 1, shuffle);
      DayRecordDates(workers, LastShiftsBefore(workers, start, i - 1, shuffle), start + (i - 1), shuffle);
    }
  }

  /** The rest rule across the window: the worker of a night shift of day i
      gets no real shift on day i + 1. */
  lemma RestAfterNight(workers: seq<Worker>, start: Date, i: nat, shuffle: Shuffle)
    requires IsShuffle(shuffle)
    requires UniqueIds(workers)
    ensures forall e, f :: e in Batch(workers, start, i, shuffle) && e.shift == Night &&
                           f in Batch(workers, start, i + 1, shuffle) && f.shift != Leave ==>
              f.workerId != e.workerId
  {
    RecordStep(workers, start, i, shuffle);
    RestAcrossDays(workers, LastShiftsBefore(workers, start, i, shuffle), start + i,
                   LastShiftsBefore(workers, start, i + 1, shuffle), start + (i + 1), shuffle);
  }

  /** With at least one worker and distinct ids somebody is available on
      every day of the window. */
  lemma DayStaffed(workers: seq<Worker>, start: Date, i: nat, shuffle: Shuffle)
    requires IsShuffle(shuffle)
    requires UniqueIds(workers)
    requires |workers| >= 1
    ensures |Available(workers, LastShiftsBefore(workers, start, i, shuffle), start + i)| >= 1
  {
    if i == 0 {
      AvailableMembers(workers, map[], start, DayNameOf(start) == Sunday);
      assert workers[0] in Available(workers, map[], start + i);
    } else {
      RecordDatesBefore(workers, start, i - 1, shuffle);
      NextDayStaffed(workers, LastShiftsBefore(workers, start, i - 1, shuffle), start + (i - 1),
                     LastShiftsBefore(workers, start, i, shuffle), start + i, shuffle);
    }
  }

  /** Every day of the window is staffed: with at least one worker and
      distinct ids, each of the 30 batches holds a real entry dated that day. */
  lemma EveryDayStaffed(workers: seq<Worker>, start: Date, shuffle: Shuffle)
    requires IsShuffle(shuffle)
    requires UniqueIds(workers)
    requires |workers| >= 1
    ensures forall i :: 0 <= i < Days ==> Staffed(Batch(workers, start, i, shuffle), start + i)
  {
    forall i | 0 <= i < Days
      ensures Staffed(Batch(workers, start, i, shuffle), start + i)
    {
      DayStaffed(workers, start, i, shuffle);
      StaffedDay(workers, LastShiftsBefore(workers, start, i, shuffle), start + i, shuffle);
    }
  }
}
