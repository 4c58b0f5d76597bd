# Verified model of the 30-day shift generator

This project models `ScheduleGenerator`, the shift generator of a browser-based
workforce scheduling tool, and proves properties about it. Given the registered
workers and a start date, the generator walks 30 days. For each day it:

- filters out the workers who must rest after a night shift;
- hands out morning, evening and night shifts from a shuffled list of the
  available workers. Sundays and other days have separate rules;
- appends derived "leave" entries that point at nearby days.

A per-worker record of the last real shift is threaded through the days.

The model has seven modules, one per file:

- `ScheduleTypes` (`schedule_types.dfy`): workers, shifts, weekday names,
  schedule entries and the last-shift record. A calendar day is an integer,
  with day 0 = Sunday 4 January 1970.
- `ScheduleRules` (`schedule_rules.dfy`): the rules as functions. These are
  the availability test, the real entries of a day, the two leave passes, the
  record update, one day's batch, and the window as the concatenation of its
  batches.
- `Generator` (`generator.dfy`): class `ScheduleGenerator`, written
  imperatively as the source is. It has the 30-day loop, the day procedure
  with its Sunday, single-worker and weekday branches, and the leave pass.
  Each method is proved to compute the matching function of `ScheduleRules`.
- `DayProperties` (`day_properties.dfy`): what one day does, for every
  outcome of the random sort.
- `MonthProperties` (`month_properties.dfy`): what the whole window does.
- `Scenarios` (`scenarios.dfy`): two concrete windows worked out in full.
- `ClockDays` (`clock_days.dfy`): the day count as the code computes it, from
  clock time (see Findings).

The random sort is a `Shuffle` function value from (day, list) to list.

- Properties are proved for every shuffle that rearranges its input
  (`IsShuffle`, equal multisets). One run makes one sort per day, so a run is
  always covered by some such function.
- The methods only need the shuffle to keep lengths (`KeepsLength`), which is
  just what the code's indexing needs.

On a window that starts on a Sunday, the Sunday pass of day 0
(src/utils/scheduleGenerator.ts:220-234) produces leave entries dated the day
before the window, so entry dates range from start − 1 to start + 31
(`MonthProperties.MonthDateRange`, `Scenarios.SundayStartLeaveBefore`).

## Model

| member | source | states |
|---|---|---|
| Generator.ScheduleGenerator.constructor | src/utils/scheduleGenerator.ts:6-8 | the generator keeps the given worker list |
| Generator.ScheduleGenerator.GenerateMonthlySchedule | src/utils/scheduleGenerator.ts:10-25 | the 30-day loop returns exactly `MonthlySchedule`, the day batches of days 0..29 in order, with the record threaded through the days |
| Generator.ScheduleGenerator.GenerateDaySchedule | src/utils/scheduleGenerator.ts:27-156 | one day returns exactly `DayEntries` and leaves the record at `DayLastShifts`, over the empty-day, Sunday, single-worker and weekday branches |
| Generator.ScheduleGenerator.AssignSunday | src/utils/scheduleGenerator.ts:58-95 | morning, evening and night go to shuffled positions 0, 1 and 2 as far as they exist; the record is updated for exactly those entries in order |
| Generator.ScheduleGenerator.AssignWeekday | src/utils/scheduleGenerator.ts:113-149 | position 0 gets evening, position 1 night, every later position morning; each assignment is recorded in order |
| Generator.ScheduleGenerator.ApplyLeaveRules | src/utils/scheduleGenerator.ts:158-237 | the result is `WithLeave`: the night pass, then on Sunday the previous-day pass over the list as the night pass left it |
| Generator.ScheduleGenerator.NightLeavePass | src/utils/scheduleGenerator.ts:167-217 | appends, in entry order, the leave of each night entry and nothing for the others; appended entries are not visited |
| Generator.ScheduleGenerator.SundayLeavePass | src/utils/scheduleGenerator.ts:219-236 | appends a leave entry dated the day before for each morning or evening entry of the list, in order |
| Generator.ScheduleGenerator.AppendNightLeave | src/utils/scheduleGenerator.ts:169-215 | after a Saturday or Sunday night, leave on the next two days; otherwise leave on the next day |
| ScheduleTypes.DayNameByRemainder | src/utils/scheduleGenerator.ts:16-18 | the weekday name is fixed by the day number modulo 7; Sunday and Saturday are remainders 0 and 6 |
| DayProperties.RestRule | src/utils/scheduleGenerator.ts:36-51 | a worker is unavailable exactly when their last real shift is a night shift dated the day before, on Sundays and other days alike |
| DayProperties.AvailableWorkersCount | src/utils/scheduleGenerator.ts:36-51 | the filter keeps each available worker as often as it occurs and drops every other worker |
| DayProperties.AvailableMembers | src/utils/scheduleGenerator.ts:36-51 | a worker is in the filtered list if and only if they are registered and pass the availability test |
| DayProperties.AvailableLength | src/utils/scheduleGenerator.ts:36 | the filter never lengthens the list |
| DayProperties.AvailableKeepsUniqueIds | src/utils/scheduleGenerator.ts:36-51 | filtering keeps worker ids distinct |
| DayProperties.ShuffledUniqueIds | src/utils/scheduleGenerator.ts:59 | with distinct ids, the shuffled available workers have distinct ids for every rearranging sort |
| DayProperties.EmptyDay | src/utils/scheduleGenerator.ts:53-55 | nobody is available exactly when every worker rests after a night shift; then the batch is empty and the record unchanged |
| DayProperties.RealShape | src/utils/scheduleGenerator.ts:58-149 | every real entry is dated the day, carries its weekday name, is not leave, and is about an available worker |
| DayProperties.SundayRule | src/utils/scheduleGenerator.ts:58-95 | a Sunday has min(3, n) real entries, for shuffled positions 0..2 with morning, evening and night, all about available workers |
| DayProperties.SundayExtrasUnassigned | src/utils/scheduleGenerator.ts:58-95 | with distinct ids, Sunday workers past shuffled position 2 get no entry of any kind that day |
| DayProperties.WeekdayRule | src/utils/scheduleGenerator.ts:113-149 | another day with n ≥ 2 available has exactly one evening (position 0) and one night (position 1), the rest morning, and every available worker gets exactly one real entry |
| DayProperties.SingleWorkerWeekday | src/utils/scheduleGenerator.ts:98-111 | with one available worker on another day, that worker gets morning, the record gains only that, and the early return gives what the leave pass would have given |
| DayProperties.AtMostOneNight | src/utils/scheduleGenerator.ts:85-95 | a day has at most one night entry, and none with fewer than two available workers |
| DayProperties.DayBeforeOfAppend | src/utils/scheduleGenerator.ts:219-236 | leave entries appended by the night pass add nothing to the Sunday pass |
| DayProperties.NightLeaveMembers | src/utils/scheduleGenerator.ts:169-215 | the leave entries of one night entry are those on its leave dates, with its worker's id and name |
| DayProperties.NightLeavesMembers | src/utils/scheduleGenerator.ts:167-217 | the night pass yields, for each night entry, one leave entry on each of its leave dates, and nothing else |
| DayProperties.DayBeforeMembers | src/utils/scheduleGenerator.ts:219-236 | the Sunday pass yields a leave entry on the day before for each morning or evening entry, and nothing else |
| DayProperties.DerivedLeavesMembers | src/utils/scheduleGenerator.ts:164-237 | an entry is derived if and only if it is a leave entry for the worker of some entry on one of that entry's leave dates (`LeaveDates`); all derived entries are leave |
| DayProperties.LeavesOfByPass | src/utils/scheduleGenerator.ts:168-236 | the reference leave list of one entry is what the night pass gives it followed by what the Sunday pass gives it |
| DayProperties.DerivedLeavesStep | src/utils/scheduleGenerator.ts:168-236 | one more entry adds, up to order, exactly its own reference leave list to the two passes |
| DayProperties.DerivedLeavesCount | src/utils/scheduleGenerator.ts:164-237 | up to order, the two passes give exactly the reference list `AllLeaves`: one leave entry per leave date of each entry, as many times as the entry occurs, so no extra copies and the same count |
| DayProperties.WithLeaveSplit | src/utils/scheduleGenerator.ts:219-236 | after both passes a day is its entries followed by the derived leave entries |
| DayProperties.DayIsWithLeave | src/utils/scheduleGenerator.ts:98-111 | every day, early return included, is its real entries followed by the leave rule applied to them |
| DayProperties.RealNotLeave | src/utils/scheduleGenerator.ts:58-149 | no real entry is a leave entry |
| DayProperties.LeaveRule | src/utils/scheduleGenerator.ts:152-237 | a day is its real entries, none of them leave, followed by leave entries that, up to order, are exactly one leave entry for each leave date of each real entry (membership and multiset equality with `AllLeaves`) |
| DayProperties.DerivedLeavesIds | src/utils/scheduleGenerator.ts:176-232 | derived leave entries mention only workers of the entries they come from |
| DayProperties.DayIdsAreRealIds | src/utils/scheduleGenerator.ts:152-237 | every non-leave entry of a day is a real entry, and the day mentions exactly the workers of its real entries |
| DayProperties.DerivedLeavesDates | src/utils/scheduleGenerator.ts:172-228 | leave dates lie from the day before to two days after but are never the day itself; the day before only on Sunday, two days after only on Saturday or Sunday |
| DayProperties.DayDateRange | src/utils/scheduleGenerator.ts:58-236 | every entry of a day is dated from the day before to two days after and carries its weekday name; exactly the real entries are dated the day itself |
| DayProperties.RealDates | src/utils/scheduleGenerator.ts:58-149 | real entries are dated the day and carry its weekday name |
| DayProperties.RecordKeys | src/utils/scheduleGenerator.ts:70-148 | recording entries adds exactly their worker ids to the record |
| DayProperties.RecordKeepsOthers | src/utils/scheduleGenerator.ts:70-148 | recording entries keeps the record of every worker they do not mention |
| DayProperties.RecordLastWins | src/utils/scheduleGenerator.ts:70-148 | a worker's record is the date and shift of their last recorded entry |
| DayProperties.RealUniqueIds | src/utils/scheduleGenerator.ts:58-149 | with distinct ids, no worker gets two real entries on a day |
| DayProperties.DayRecord | src/utils/scheduleGenerator.ts:70-148 | after a day, each real entry's worker has that day and shift, every other worker keeps their record, and leave entries play no part |
| DayProperties.RecordDates | src/utils/scheduleGenerator.ts:70-148 | recording one day's entries leaves each worker either their old record or a shift of that day |
| DayProperties.DayRecordDates | src/utils/scheduleGenerator.ts:70-148 | a record dated before the day is dated no later than the day after it |
| DayProperties.NightRecord | src/utils/scheduleGenerator.ts:94-136 | the record says "night on this day" for exactly the workers of the day's night entries, set at line 94 on Sunday and line 136 on other days |
| DayProperties.RestAcrossDays | src/utils/scheduleGenerator.ts:36-51 | the worker of a night entry gets no real entry on the following day |
| DayProperties.NextDayStaffed | src/utils/scheduleGenerator.ts:36-51 | with at least one worker and distinct ids, somebody is available on the following day |
| DayProperties.StaffedDay | src/utils/scheduleGenerator.ts:53-149 | a day with somebody available has a real entry dated that day |
| MonthProperties.AppendOnly | src/utils/scheduleGenerator.ts:15-22 | the schedule up to a day is a prefix of the schedule up to any later day |
| MonthProperties.ScheduleFromBatches | src/utils/scheduleGenerator.ts:15-22 | every entry of the schedule comes from the batch of an earlier day |
| MonthProperties.BatchInSchedule | src/utils/scheduleGenerator.ts:15-22 | every entry of a day's batch is in the schedule of every later day |
| MonthProperties.ScheduleMembers | src/utils/scheduleGenerator.ts:15-22 | the schedule holds exactly the entries of the batches of the earlier days |
| MonthProperties.NoWorkersNoSchedule | src/utils/scheduleGenerator.ts:53-55 | with no workers the schedule is empty |
| MonthProperties.BatchDateRange | src/utils/scheduleGenerator.ts:15-22 | entries of the batch of a day j before day i are dated from start − 1 to start + i + 1 and carry their weekday name; start − 1 only on a Sunday start |
| MonthProperties.ScheduleDateRange | src/utils/scheduleGenerator.ts:15-22 | entries up to day i are dated from start − 1 to start + i + 1 and carry their weekday name; start − 1 only on a Sunday start |
| MonthProperties.MonthDateRange | src/utils/scheduleGenerator.ts:168-236 | every entry of the window is dated from start − 1 to start + 31 and carries its weekday name; start − 1 only when the start is a Sunday |
| MonthProperties.RecordDatesBefore | src/utils/scheduleGenerator.ts:12-20 | the record before day i holds only dates before day i |
| MonthProperties.RestAfterNight | src/utils/scheduleGenerator.ts:36-51 | across the window, a night worker of day i gets no real shift on day i + 1 |
| MonthProperties.DayStaffed | src/utils/scheduleGenerator.ts:36-55 | with at least one worker and distinct ids, somebody is available on every day of the window |
| MonthProperties.EveryDayStaffed | src/utils/scheduleGenerator.ts:15-22 | with at least one worker and distinct ids, each of the 30 batches has a real entry dated its day |
| Scenarios.SundayStartReal | src/utils/scheduleGenerator.ts:58-95 | three fresh workers on a Sunday are all available and get morning, evening and night in shuffled order |
| Scenarios.SundayStartNightLeaves | src/utils/scheduleGenerator.ts:186-200 | that Sunday's night worker gets leave on Monday and Tuesday |
| Scenarios.SundayStartDayBefore | src/utils/scheduleGenerator.ts:219-236 | that Sunday's morning and evening workers get leave on the Saturday before |
| Scenarios.SundayStartLeaveBefore | src/utils/scheduleGenerator.ts:220-234 | the first batch of a Sunday-start window holds the three real entries, the night worker's two leave entries and two leave entries dated the day before the window |
| Scenarios.SaturdayStartDay0 | src/utils/scheduleGenerator.ts:113-136 | two fresh workers on a Saturday get evening and night, and the whole batch is those two entries followed by the night worker's leave on Sunday and on Monday |
| Scenarios.SaturdayStartDay1 | src/utils/scheduleGenerator.ts:45-47 | on the Sunday after, the Saturday night worker is unavailable and the other worker alone gets the morning |
| Scenarios.SaturdayStartDay2 | src/utils/scheduleGenerator.ts:36-51 | on the Monday, two days after the night, that worker is available again and gets the night |
| Scenarios.LeaveDoesNotBlock | src/utils/scheduleGenerator.ts:36-51 | a leave entry does not make a worker unavailable: the Saturday night worker has both leave and a night shift dated the Monday |
| ClockDays.ElapsedDays | src/utils/scheduleGenerator.ts:40-42 | the day count is the number of whole 24-hour periods in the elapsed time, rounded down |
| ClockDays.LongDaysCounted | src/utils/scheduleGenerator.ts:40-47 | across days of 24 or 25 hours, the clock-based test agrees with the calendar test |
| ClockDays.ShortDayLetsNightWorkerThrough | src/utils/scheduleGenerator.ts:40-47 | across a 23-hour day, such as the one the clocks go forward on, the night worker of that day passes the clock-based test, which the calendar test refuses |

## Left out

- Calendar and locale: `Date` objects, `setDate` and `toLocaleDateString` are modelled as integer day numbers with weekday names counted from a Sunday. Time zones and time of day are not modelled, except for the day count in `ClockDays`.
- Randomness: `Math.random` and the comparator-based `sort` become the input `Shuffle`, so no probability distribution is modelled.
- Mutation by reference: the `entries` array and the `workerLastShifts` map that the source changes in place become values that the methods take in and hand back. Each is local to one run, so no aliasing is lost.
- Generator.ScheduleGenerator.GenerateMonthlySchedule: requires only that the sort keeps lengths (`KeepsLength`), weaker than a rearrangement. The properties in `DayProperties` and `MonthProperties` assume a rearrangement (`IsShuffle`).
- Generator.ScheduleGenerator.ApplyLeaveRules: drops the `workerLastShifts` parameter, which the source passes but never reads or changes.
- Generator.ScheduleGenerator.AssignSunday, AssignWeekday, NightLeavePass, SundayLeavePass and AppendNightLeave are parts of `generateDaySchedule` and `applyLeaveRules` split out as methods. The statements are the source's own, except that AppendNightLeave merges the separate but identical Saturday and Sunday branches (src/utils/scheduleGenerator.ts:171-200) into one condition.
- DayProperties.SundayExtrasUnassigned, RealUniqueIds, DayRecord, NightRecord, RestAcrossDays, NextDayStaffed and the month lemmas built on them assume distinct worker ids, which the worker form aims at but the generator does not check.
- The React page, the schedule view, the worker form and the PDF export are not part of this model. They only call the generator or display its output.

## Findings

| source | as written | input that shows it | evidently intended | confidence | as-written member | corrected member |
|---|---|---|---|---|---|---|
| src/utils/scheduleGenerator.ts:40-47 | the days since the last shift are elapsed milliseconds divided by 24 hours, rounded down | a night shift on the day the clocks go forward: its local midnight and the next are 23 hours apart (with the default start at local midnight, kept by `setDate`), the count is 0, and the rest test lets the night worker through | a worker rests on the calendar day after a night shift | medium: depends on the host time zone observing daylight saving; not executed | ClockDays.ShortDayLetsNightWorkerThrough | DayProperties.RestRule |
