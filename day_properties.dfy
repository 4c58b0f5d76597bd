/** What one day of the generator does, stated against the rules of module
    ScheduleRules: who is available, how the shifts are handed out on Sundays
    and on other days, which leave entries are derived, and how the last-shift
    record changes. These hold for every outcome of the random sort. */
module DayProperties {
  import opened ScheduleTypes
  import opened ScheduleRules

  /** The workers the entries are about, in order. */
  function Assignees(es: seq<Entry>): seq<Worker> {
    seq(|es|, k requires 0 <= k < |es| => WorkerOf(es[k]))
  }

  /** The worker ids the entries mention. */
  function Ids(es: seq<Entry>): set<WorkerId> {
    set e | e in es :: e.workerId
  }

  /** Reference statement of the leave rule: the dates on which real entry `e`
      of day `date` gives its worker leave. */
  function LeaveDates(e: Entry, date: Date): seq<Date> {
    var name := DayNameOf(date);
    if e.shift == Night then
      (if name == Saturday || name == Sunday then [date + 1, date + 2] else [date + 1])
    else if name == Sunday && (e.shift == Morning || e.shift == Evening) then [date - 1]
    else []
  }

  // ---------------------------------------------------------------- availability

  /** A worker is unavailable exactly when their last real shift is a night
      shift dated the day before, on Sundays and on other days alike. */
  lemma RestRule(last: LastShifts, w: Worker, date: Date, isSunday: bool)
    ensures IsAvailable(last, w, date, isSunday) <==> !(w.id in last && last[w.id] == LastShift(date - 1, Night))
  {
  }

  /** The filter keeps every available worker as often as it occurs and drops
      every other. */
  lemma {:induction false} AvailableWorkersCount(workers: seq<Worker>, last: LastShifts, date: Date, isSunday: bool)
    ensures forall w :: multiset(AvailableWorkers(workers, last, date, isSunday))[w]
                     == if IsAvailable(last, w, date, isSunday) then multiset(workers)[w] else 0
  {
    if workers != [] {
      var init := workers[..|workers| - 1];
      assert workers == init + [workers[|workers| - 1]];
      AvailableWorkersCount(init, last, date, isSunday);
    }
  }

  /** Membership form of AvailableWorkersCount. */
  lemma AvailableMembers(workers: seq<Worker>, last: LastShifts, date: Date, isSunday: bool)
    ensures forall w :: w in AvailableWorkers(workers, last, date, isSunday) <==> w in workers && IsAvailable(last, w, date, isSunday)
  {
    AvailableWorkersCount(workers, last, date, isSunday);
    forall w ensures w in AvailableWorkers(workers, last, date, isSunday) <==> w in workers && IsAvailable(last, w, date, isSunday) {
      assert w in AvailableWorkers(workers, last, date, isSunday) <==> w in multiset(AvailableWorkers(workers, last, date, isSunday));
      assert w in workers <==> w in multiset(workers);
    }
  }

  /** The filter never lengthens the list. */
  lemma AvailableLength(workers: seq<Worker>, last: LastShifts, date: Date, isSunday: bool)
    ensures |AvailableWorkers(workers, last, date, isSunday)| <= |workers|
  {
    AvailableWorkersCount(workers, last, date, isSunday);
    assert multiset(AvailableWorkers(workers, last, date, isSunday)) <= multiset(workers);
  }

  /** Filtering keeps worker ids distinct. */
  lemma {:induction false} AvailableKeepsUniqueIds(workers: seq<Worker>, last: LastShifts, date: Date, isSunday: bool)
    requires UniqueIds(workers)
    ensures UniqueIds(AvailableWorkers(workers, last, date, isSunday))
  {
    if workers != [] {
      var init := workers[..|workers| - 1];
      var w := workers[|workers| - 1];
      AvailableKeepsUniqueIds(init, last, date, isSunday);
      AvailableMembers(init, last, date, isSunday);
      var rest := AvailableWorkers(init, last, date, isSunday);
      if IsAvailable(last, w, date, isSunday) {
        forall i, j | 0 <= i < j < |rest + [w]| ensures (rest + [w])[i].id != (rest + [w])[j].id {
          if j == |rest| {
            assert rest[i] in init;
            var p :| 0 <= p < |init| && init[p] == rest[i];
            assert workers[p] == rest[i] && workers[|workers| - 1] == w;
          }
        }
      }
    }
  }

  /** With distinct ids no worker occurs twice. */
  lemma {:induction false} UniqueIdsAtMostOnce(s: seq<Worker>, x: Worker)
    requires UniqueIds(s)
    ensures multiset(s)[x] <= 1
  {
    if s != [] {
      var init := s[..|s| - 1];
      assert s == init + [s[|s| - 1]];
      assert UniqueIds(init);
      UniqueIdsAtMostOnce(init, x);
      if x == s[|s| - 1] {
        assert forall p :: 0 <= p < |init| ==> init[p].id != x.id;
        assert x !in init;
      }
    }
  }

  /** A worker at two positions occurs at least twice. */
  lemma TwiceAtLeastTwo(s: seq<Worker>, i: nat, j: nat)
    requires i < j < |s| && s[i] == s[j]
    ensures multiset(s)[s[i]] >= 2
  {
    assert s == s[..i] + [s[i]] + s[i + 1..j] + [s[j]] + s[j + 1..];
  }

  /** Rearranging keeps worker ids distinct. */
  lemma PermutationKeepsUniqueIds(a: seq<Worker>, b: seq<Worker>)
    requires multiset(a) == multiset(b)
    requires UniqueIds(a)
    ensures UniqueIds(b)
  {
    forall i, j | 0 <= i < j < |b| ensures b[i].id != b[j].id {
      if b[i] == b[j] {
        TwiceAtLeastTwo(b, i, j);
        UniqueIdsAtMostOnce(a, b[i]);
      } else {
        assert b[i] in multiset(a) && b[j] in multiset(a);
        var p :| 0 <= p < |a| && a[p] == b[i];
        var q :| 0 <= q < |a| && a[q] == b[j];
        assert p != q;
      }
    }
  }

  /** With distinct worker ids, the shuffled available workers of a day have
      distinct ids. */
  lemma ShuffledUniqueIds(workers: seq<Worker>, last: LastShifts, date: Date, shuffle: Shuffle)
    requires IsShuffle(shuffle)
    requires UniqueIds(workers)
    ensures UniqueIds(Shuffled(workers, last, date, shuffle))
  {
    var available := Available(workers, last, date);
    AvailableKeepsUniqueIds(workers, last, date, DayNameOf(date) == Sunday);
    assert multiset(shuffle(date, available)) == multiset(available);
    PermutationKeepsUniqueIds(available, shuffle(date, available));
  }

  /** If nobody is available the day is empty and the record unchanged; nobody
      is available exactly when every worker is resting after a night shift. */
  lemma EmptyDay(workers: seq<Worker>, last: LastShifts, date: Date, shuffle: Shuffle)
    ensures |Available(workers, last, date)| == 0
        <==> forall w :: w in workers ==> w.id in last && last[w.id] == LastShift(date - 1, Night)
    ensures |Available(workers, last, date)| == 0 ==>
              DayEntries(workers, last, date, shuffle) == [] && DayLastShifts(workers, last, date, shuffle) == last
  {
    var isSunday := DayNameOf(date) == Sunday;
    AvailableMembers(workers, last, date, isSunday);
    if |Available(workers, last, date)| != 0 {
      var w := Available(workers, last, date)[0];
      assert w in Available(workers, last, date);
    }
  }

  // ---------------------------------------------------------------- real assignments

  /** Every real entry of a day is dated that day, carries its weekday name,
      is not a leave entry, and is about an available worker. */
  lemma RealShape(workers: seq<Worker>, last: LastShifts, date: Date, shuffle: Shuffle)
    requires IsShuffle(shuffle)
    ensures forall e :: e in Real(workers, last, date, shuffle) ==>
              e.date == date && e.day == DayNameOf(date) && e.shift != Leave &&
              WorkerOf(e) in Available(workers, last, date)
  {
    var available := Available(workers, last, date);
    var shuffled := shuffle(date, available);
    assert multiset(shuffled) == multiset(available);
    forall e | e in Real(workers, last, date, shuffle)
      ensures e.date == date && e.day == DayNameOf(date) && e.shift != Leave && WorkerOf(e) in available
    {
      var k :| 0 <= k < |Real(workers, last, date, shuffle)| && Real(workers, last, date, shuffle)[k] == e;
      if DayNameOf(date) != Sunday && |available| < 2 {
        assert WorkerOf(e) == available[k];
      } else {
        assert WorkerOf(e) == shuffled[k];
        assert shuffled[k] in multiset(available);
      }
    }
  }

  /** Sunday: the first shuffled worker gets morning, the second evening if
      there is one, the third night if there is one; so min(3, n) real entries,
      all for available workers. */
  lemma SundayRule(workers: seq<Worker>, last: LastShifts, date: Date, shuffle: Shuffle)
    requires IsShuffle(shuffle)
    requires DayNameOf(date) == Sunday
    ensures var reals := Real(workers, last, date, shuffle);
            var shuffled := Shuffled(workers, last, date, shuffle);
            && |reals| == Min(3, |Available(workers, last, date)|)
            && (forall k :: 0 <= k < |reals| ==> reals[k] == EntryFor(shuffled[k], date, SundayShift(k)))
            && Assignees(reals) == shuffled[..|reals|]
            && multiset(Assignees(reals)) <= multiset(Available(workers, last, date))
  {
    var available := Available(workers, last, date);
    var shuffled := shuffle(date, available);
    var reals := Real(workers, last, date, shuffle);
    assert |multiset(shuffled)| == |multiset(available)|;
    assert Assignees(reals) == shuffled[..|reals|];
    assert shuffled == shuffled[..|reals|] + shuffled[|reals|..];
    assert multiset(shuffled[..|reals|]) <= multiset(shuffled);
  }

  /** Sunday, with distinct worker ids: available workers past the third
      shuffled position get no entry of any kind that day. */
  lemma SundayExtrasUnassigned(workers: seq<Worker>, last: LastShifts, date: Date, shuffle: Shuffle)
    requires IsShuffle(shuffle)
    requires UniqueIds(workers)
    requires DayNameOf(date) == Sunday
    ensures var shuffled := Shuffled(workers, last, date, shuffle);
            forall k :: 3 <= k < |shuffled| ==> shuffled[k].id !in Ids(DayEntries(workers, last, date, shuffle))
  {
    var shuffled := Shuffled(workers, last, date, shuffle);
    var reals := Real(workers, last, date, shuffle);
    var day := DayEntries(workers, last, date, shuffle);
    SundayRule(workers, last, date, shuffle);
    ShuffledUniqueIds(workers, last, date, shuffle);
    DayIdsAreRealIds(workers, last, date, shuffle);
    forall k | 3 <= k < |shuffled| ensures shuffled[k].id !in Ids(day) {
      forall e | e in reals ensures e.workerId != shuffled[k].id {
        var j :| 0 <= j < |reals| && reals[j] == e;
        assert e.workerId == shuffled[j].id;
      }
    }
  }

  /** Any other day with at least two available workers: the first shuffled
      worker gets evening, the second night, every other one morning; so
      exactly one evening and one night entry, and every available worker gets
      exactly one real entry. */
  lemma WeekdayRule(workers: seq<Worker>, last: LastShifts, date: Date, shuffle: Shuffle)
    requires IsShuffle(shuffle)
    requires DayNameOf(date) != Sunday
    requires |Available(workers, last, date)| >= 2
    ensures var reals := Real(workers, last, date, shuffle);
            var shuffled := Shuffled(workers, last, date, shuffle);
            && |reals| == |Available(workers, last, date)|
            && (forall k :: 0 <= k < |reals| ==> reals[k] == EntryFor(shuffled[k], date, WeekdayShift(k)))
            && (forall k :: 0 <= k < |reals| ==> (reals[k].shift == Evening <==> k == 0))
            && (forall k :: 0 <= k < |reals| ==> (reals[k].shift == Night <==> k == 1))
            && (forall k :: 0 <= k < |reals| ==> reals[k].shift != Leave)
            && multiset(Assignees(reals)) == multiset(Available(workers, last, date))
  {
    var available := Available(workers, last, date);
    var shuffled := shuffle(date, available);
    var reals := Real(workers, last, date, shuffle);
    assert |multiset(shuffled)| == |multiset(available)|;
    assert Assignees(reals) == shuffled;
  }

  /** Any other day with exactly one available worker: that worker gets
      morning and the day has no leave entries, which is also what the leave
      pass would have produced, so the early return loses nothing. */
  lemma SingleWorkerWeekday(workers: seq<Worker>, last: LastShifts, date: Date, shuffle: Shuffle)
    requires DayNameOf(date) != Sunday
    requires |Available(workers, last, date)| == 1
    ensures var w := Available(workers, last, date)[0];
            && DayEntries(workers, last, date, shuffle) == [EntryFor(w, date, Morning)]
            && DayLastShifts(workers, last, date, shuffle) == last[w.id := LastShift(date, Morning)]
            && WithLeave(Real(workers, last, date, shuffle), date) == DayEntries(workers, last, date, shuffle)
  {
    var w := Available(workers, last, date)[0];
    var reals := Real(workers, last, date, shuffle);
    assert reals == [EntryFor(w, date, Morning)];
    assert reals[..0] == [];
    assert Record(last, reals) == Record(last, reals[..0])[w.id := LastShift(date, Morning)];
    assert NightLeaves(reals, date) == NightLeaves(reals[..0], date);
  }

  /** A day has at most one night entry, and none with fewer than two
      available workers. */
  lemma AtMostOneNight(workers: seq<Worker>, last: LastShifts, date: Date, shuffle: Shuffle)
    requires IsShuffle(shuffle)
    ensures var reals := Real(workers, last, date, shuffle);
            && (forall k, j :: 0 <= k < |reals| && 0 <= j < |reals| && reals[k].shift == Night && reals[j].shift == Night ==> k == j)
            && (|Available(workers, last, date)| < 2 ==> forall k :: 0 <= k < |reals| ==> reals[k].shift != Night)
  {
    if DayNameOf(date) == Sunday {
      SundayRule(workers, last, date, shuffle);
    } else if |Available(workers, last, date)| >= 2 {
      WeekdayRule(workers, last, date, shuffle);
    }
  }

  // ---------------------------------------------------------------- leave entries

  /** The leave entries the two passes append to a day's real entries `es`. */
  function DerivedLeaves(es: seq<Entry>, date: Date): seq<Entry> {
    NightLeaves(es, date) + (if DayNameOf(date) == Sunday then DayBeforeLeaves(es, date) else [])
  }

  /** Leave entries in a list do not feed the Sunday pass. */
  lemma {:induction false} DayBeforeOfAppend(es: seq<Entry>, ls: seq<Entry>, date: Date)
    requires forall e :: e in ls ==> e.shift == Leave
    ensures DayBeforeLeaves(es + ls, date) == DayBeforeLeaves(es, date)
  {
    if ls != [] {
      var init := ls[..|ls| - 1];
      assert (es + ls)[..|es + ls| - 1] == es + init;
      assert (es + ls)[|es + ls| - 1] == ls[|ls| - 1];
      assert ls[|ls| - 1] in ls;
      assert forall e :: e in init ==> e in ls;
      DayBeforeOfAppend(es, init, date);
      assert DayBeforeLeaves(es + ls, date) == DayBeforeLeaves(es + init, date);
    } else {
      assert es + ls == es;
    }
  }

  /** Reference list of the leave entries of entry `e` of day `date`: one on
      each of its leave dates. */
  function LeavesOf(e: Entry, date: Date): seq<Entry> {
    var ds := LeaveDates(e, date);
    seq(|ds|, i requires 0 <= i < |ds| => LeaveEntry(e, ds[i]))
  }

  /** Reference list of the leave entries of `es`, entry by entry. */
  function AllLeaves(es: seq<Entry>, date: Date): seq<Entry> {
    if es == [] then []
    else AllLeaves(es[..|es| - 1], date) + LeavesOf(es[|es| - 1], date)
  }

  /** The leave of one entry is what the night pass gives it followed by what
      the Sunday pass gives it. */
  lemma LeavesOfByPass(x: Entry, date: Date)
    ensures LeavesOf(x, date)
         == (if x.shift == Night then NightLeave(x, date) else [])
            + (if DayNameOf(date) == Sunday && (x.shift == Morning || x.shift == Evening)
               then [LeaveEntry(x, date - 1)] else [])
  {
  }

  /** Regrouping two appended pairs keeps the multiset. */
  lemma RegroupMultiset(a: seq<Entry>, b: seq<Entry>, c: seq<Entry>, d: seq<Entry>)
    ensures multiset(a + b + (c + d)) == multiset(a + c) + multiset(b + d)
  {
  }

  /** One more entry adds its own leave to the two passes, up to order. */
  lemma DerivedLeavesStep(es: seq<Entry>, date: Date)
    requires es != []
    ensures multiset(DerivedLeaves(es, date))
         == multiset(DerivedLeaves(es[..|es| - 1], date)) + multiset(LeavesOf(es[|es| - 1], date))
  {
    var init := es[..|es| - 1];
    var x := es[|es| - 1];
    LeavesOfByPass(x, date);
    var nx := if x.shift == Night then NightLeave(x, date) else [];
    var bx := if x.shift == Morning || x.shift == Evening then [LeaveEntry(x, date - 1)] else [];
    var a, c := NightLeaves(init, date), DayBeforeLeaves(init, date);
    assert NightLeaves(es, date) == a + nx;
    if DayNameOf(date) == Sunday {
      assert DayBeforeLeaves(es, date) == c + bx;
      assert LeavesOf(x, date) == nx + bx;
      assert DerivedLeaves(es, date) == a + nx + (c + bx);
      assert DerivedLeaves(init, date) == a + c;
      RegroupMultiset(a, nx, c, bx);
    } else {
      assert LeavesOf(x, date) == nx;
      assert DerivedLeaves(es, date) == a + nx + [];
      assert DerivedLeaves(init, date) == a + [];
      RegroupMultiset(a, nx, [], []);
    }
  }

  /** The two passes give, up to order, exactly the reference list: one leave
      entry for each leave date of each entry, as often as the entry occurs. */
  lemma {:induction false} DerivedLeavesCount(es: seq<Entry>, date: Date)
    ensures multiset(DerivedLeaves(es, date)) == multiset(AllLeaves(es, date))
    ensures |DerivedLeaves(es, date)| == |AllLeaves(es, date)|
  {
    if es != [] {
      DerivedLeavesCount(es[..|es| - 1], date);
      DerivedLeavesStep(es, date);
    }
    assert |multiset(DerivedLeaves(es, date))| == |multiset(AllLeaves(es, date))|;
  }

  /** The leave entries for one night entry are those of LeaveDates. */
  lemma NightLeaveMembers(x: Entry, date: Date)
    requires x.shift == Night
    ensures forall e :: e in NightLeave(x, date) <==> exists d :: d in LeaveDates(x, date) && e == LeaveEntry(x, d)
  {
    var name := DayNameOf(date);
    if name == Saturday || name == Sunday {
      assert NightLeave(x, date) == [LeaveEntry(x, date + 1), LeaveEntry(x, date + 2)];
      assert LeaveDates(x, date) == [date + 1, date + 2];
    } else {
      assert LeaveDates(x, date) == [date + 1];
    }
  }

  /** The night pass gives, for each night entry, a leave entry on each of
      its leave dates, and nothing else. */
  lemma {:induction false} NightLeavesMembers(es: seq<Entry>, date: Date)
    ensures forall e :: e in NightLeaves(es, date) <==>
              exists k, d :: 0 <= k < |es| && es[k].shift == Night && d in LeaveDates(es[k], date) && e == LeaveEntry(es[k], d)
  {
    if es != [] {
      var init := es[..|es| - 1];
      var x := es[|es| - 1];
      NightLeavesMembers(init, date);
      assert forall k :: 0 <= k < |init| ==> init[k] == es[k];
      if x.shift == Night {
        NightLeaveMembers(x, date);
      }
      forall e | e in NightLeaves(es, date)
        ensures exists k, d :: 0 <= k < |es| && es[k].shift == Night && d in LeaveDates(es[k], date) && e == LeaveEntry(es[k], d)
      {
        if e !in NightLeaves(init, date) {
          var d :| d in LeaveDates(x, date) && e == LeaveEntry(x, d);
          assert es[|es| - 1] == x;
        }
      }
      forall e, k, d | 0 <= k < |es| && es[k].shift == Night && d in LeaveDates(es[k], date) && e == LeaveEntry(es[k], d)
        ensures e in NightLeaves(es, date)
      {
        if k < |init| {
          assert init[k] == es[k];
        }
      }
    }
  }

  /** The Sunday pass gives a leave entry on the previous day for each
      morning or evening entry, and nothing else. */
  lemma {:induction false} DayBeforeMembers(es: seq<Entry>, date: Date)
    ensures forall e :: e in DayBeforeLeaves(es, date) <==>
              exists k :: 0 <= k < |es| && (es[k].shift == Morning || es[k].shift == Evening) && e == LeaveEntry(es[k], date - 1)
  {
    if es != [] {
      var init := es[..|es| - 1];
      DayBeforeMembers(init, date);
      assert forall k :: 0 <= k < |init| ==> init[k] == es[k];
      forall e | e in DayBeforeLeaves(es, date)
        ensures exists k :: 0 <= k < |es| && (es[k].shift == Morning || es[k].shift == Evening) && e == LeaveEntry(es[k], date - 1)
      {
        if e !in DayBeforeLeaves(init, date) {
          assert es[|es| - 1].shift == Morning || es[|es| - 1].shift == Evening;
          assert e == LeaveEntry(es[|es| - 1], date - 1);
        }
      }
      forall e, k | 0 <= k < |es| && (es[k].shift == Morning || es[k].shift == Evening) && e == LeaveEntry(es[k], date - 1)
        ensures e in DayBeforeLeaves(es, date)
      {
        if k < |init| {
          assert init[k] == es[k];
        }
      }
    }
  }

  /** The leave rule on any list of entries: the derived entries are exactly,
      for each entry, one leave entry for its worker on each of its leave
      dates; all of them are leave entries. */
  lemma DerivedLeavesMembers(es: seq<Entry>, date: Date)
    ensures forall e :: e in DerivedLeaves(es, date) <==>
              exists k, d :: 0 <= k < |es| && d in LeaveDates(es[k], date) && e == LeaveEntry(es[k], d)
    ensures forall e :: e in DerivedLeaves(es, date) ==> e.shift == Leave
  {
    var sunday := DayNameOf(date) == Sunday;
    NightLeavesMembers(es, date);
    DayBeforeMembers(es, date);
    forall e ensures e in DerivedLeaves(es, date) <==>
        exists k, d :: 0 <= k < |es| && d in LeaveDates(es[k], date) && e == LeaveEntry(es[k], d)
    {
      if e in DerivedLeaves(es, date) && e !in NightLeaves(es, date) {
        assert sunday && e in DayBeforeLeaves(es, date);
        var k :| 0 <= k < |es| && (es[k].shift == Morning || es[k].shift == Evening) && e == LeaveEntry(es[k], date - 1);
        assert date - 1 in LeaveDates(es[k], date);
      }
      if exists k, d :: 0 <= k < |es| && d in LeaveDates(es[k], date) && e == LeaveEntry(es[k], d) {
        var k, d :| 0 <= k < |es| && d in LeaveDates(es[k], date) && e == LeaveEntry(es[k], d);
        if es[k].shift != Night {
          assert sunday && d == date - 1;
          assert e in DayBeforeLeaves(es, date);
        }
      }
    }
  }

  /** The Sunday pass over the list the night pass left sees the real
      entries only: a day is its real entries followed by the derived leave
      entries. */
  lemma WithLeaveSplit(es: seq<Entry>, date: Date)
    ensures WithLeave(es, date) == es + DerivedLeaves(es, date)
  {
    DerivedLeavesMembers(es, date);
    assert forall e :: e in NightLeaves(es, date) ==> e in DerivedLeaves(es, date);
    DayBeforeOfAppend(es, NightLeaves(es, date), date);
  }

  /** Every day, early returns included, is its real entries followed by the
      leave rule applied to them. */
  lemma DayIsWithLeave(workers: seq<Worker>, last: LastShifts, date: Date, shuffle: Shuffle)
    ensures DayEntries(workers, last, date, shuffle) == WithLeave(Real(workers, last, date, shuffle), date)
  {
    if DayNameOf(date) != Sunday && |Available(workers, last, date)| == 1 {
      SingleWorkerWeekday(workers, last, date, shuffle);
    }
  }

  /** No real entry is a leave entry. */
  lemma RealNotLeave(workers: seq<Worker>, last: LastShifts, date: Date, shuffle: Shuffle)
    ensures forall e :: e in Real(workers, last, date, shuffle) ==> e.shift != Leave
  {
  }

  /** The leave rule: a day's entries are its real entries, none of them a
      leave entry, followed by leave entries that are exactly, for each real
      entry, one leave entry for its worker on each of its leave dates. */
  lemma LeaveRule(workers: seq<Worker>, last: LastShifts, date: Date, shuffle: Shuffle)
    ensures var reals := Real(workers, last, date, shuffle);
            && DayEntries(workers, last, date, shuffle) == reals + DerivedLeaves(reals, date)
            && (forall e :: e in reals ==> e.shift != Leave)
            && (forall e :: e in DerivedLeaves(reals, date) ==> e.shift == Leave)
            && (forall e :: e in DerivedLeaves(reals, date) <==>
                  exists k, d :: 0 <= k < |reals| && d in LeaveDates(reals[k], date) && e == LeaveEntry(reals[k], d))
            && multiset(DerivedLeaves(reals, date)) == multiset(AllLeaves(reals, date))
  {
    var reals := Real(workers, last, date, shuffle);
    DayIsWithLeave(workers, last, date, shuffle);
    WithLeaveSplit(reals, date);
    DerivedLeavesMembers(reals, date);
    DerivedLeavesCount(reals, date);
    RealNotLeave(workers, last, date, shuffle);
  }

  /** Derived leave entries are about workers of the entries they come from. */
  lemma DerivedLeavesIds(es: seq<Entry>, date: Date)
    ensures Ids(es + DerivedLeaves(es, date)) == Ids(es)
  {
    DerivedLeavesMembers(es, date);
    forall id | id in Ids(es + DerivedLeaves(es, date)) ensures id in Ids(es) {
      var e :| e in es + DerivedLeaves(es, date) && e.workerId == id;
      if e !in es {
        var k, d :| 0 <= k < |es| && d in LeaveDates(es[k], date) && e == LeaveEntry(es[k], d);
        assert es[k] in es;
      }
    }
  }

  /** Each non-leave entry of a day is one of its real entries, and every
      entry of a day is about a worker that has a real entry that day. */
  lemma DayIdsAreRealIds(workers: seq<Worker>, last: LastShifts, date: Date, shuffle: Shuffle)
    ensures forall e :: e in DayEntries(workers, last, date, shuffle) && e.shift != Leave ==>
              e in Real(workers, last, date, shuffle)
    ensures Ids(DayEntries(workers, last, date, shuffle)) == Ids(Real(workers, last, date, shuffle))
  {
    var reals := Real(workers, last, date, shuffle);
    LeaveRule(workers, last, date, shuffle);
    DerivedLeavesIds(reals, date);
  }

  /** Dates of derived leave entries, for entries of day `date`: between the
      day before and two days after, never the day itself; the day before
      only on a Sunday and two days after only on a Saturday or Sunday. */
  lemma DerivedLeavesDates(es: seq<Entry>, date: Date)
    ensures forall e :: e in DerivedLeaves(es, date) ==>
              && date - 1 <= e.date <= date + 2 && e.date != date
              && e.day == DayNameOf(e.date)
              && (e.date == date - 1 ==> DayNameOf(date) == Sunday)
              && (e.date == date + 2 ==> DayNameOf(date) in {Saturday, Sunday})
  {
    DerivedLeavesMembers(es, date);
    forall e | e in DerivedLeaves(es, date)
      ensures date - 1 <= e.date <= date + 2 && e.date != date && e.day == DayNameOf(e.date)
      ensures e.date == date - 1 ==> DayNameOf(date) == Sunday
      ensures e.date == date + 2 ==> DayNameOf(date) in {Saturday, Sunday}
    {
      var k, d :| 0 <= k < |es| && d in LeaveDates(es[k], date) && e == LeaveEntry(es[k], d);
    }
  }

  /** Every entry of a day is dated between the day before and two days
      after and carries the weekday name of its date; exactly the non-leave
      entries are dated the day itself; the day before occurs only on a
      Sunday and two days after only on a Saturday or Sunday. */
  lemma DayDateRange(workers: seq<Worker>, last: LastShifts, date: Date, shuffle: Shuffle)
    ensures forall e :: e in DayEntries(workers, last, date, shuffle) ==>
              && date - 1 <= e.date <= date + 2
              && e.day == DayNameOf(e.date)
              && (e.shift != Leave <==> e.date == date)
              && (e.date == date - 1 ==> DayNameOf(date) == Sunday)
              && (e.date == date + 2 ==> DayNameOf(date) in {Saturday, Sunday})
  {
    var reals := Real(workers, last, date, shuffle);
    LeaveRule(workers, last, date, shuffle);
    DerivedLeavesDates(reals, date);
    RealDates(workers, last, date, shuffle);
  }

  /** Real entries are dated the day itself and carry its weekday name. */
  lemma RealDates(workers: seq<Worker>, last: LastShifts, date: Date, shuffle: Shuffle)
    ensures forall e :: e in Real(workers, last, date, shuffle) ==> e.date == date && e.day == DayNameOf(date)
  {
  }

  // ---------------------------------------------------------------- last-shift record

  /** Recording a list of entries adds exactly their worker ids. */
  lemma {:induction false} RecordKeys(last: LastShifts, es: seq<Entry>)
    ensures Record(last, es).Keys == last.Keys + Ids(es)
  {
    if es != [] {
      var init := es[..|es| - 1];
      RecordKeys(last, init);
      assert es == init + [es[|es| - 1]];
      assert Ids(es) == Ids(init) + {es[|es| - 1].workerId};
    }
  }

  /** Recording a list of entries keeps the record of every worker they do
      not mention. */
  lemma {:induction false} RecordKeepsOthers(last: LastShifts, es: seq<Entry>, id: WorkerId)
    requires id in last && id !in Ids(es)
    ensures id in Record(last, es) && Record(last, es)[id] == last[id]
  {
    if es != [] {
      var init := es[..|es| - 1];
      assert es[|es| - 1] in es;
      assert Ids(init) <= Ids(es) by {
        forall e | e in init ensures e in es {
        }
      }
      RecordKeepsOthers(last, init, id);
    }
  }

  /** After recording a list of entries, a worker's record is the date and
      shift of their last entry in the list. */
  lemma {:induction false} RecordLastWins(last: LastShifts, es: seq<Entry>, k: nat)
    requires k < |es|
    requires forall j :: k < j < |es| ==> es[j].workerId != es[k].workerId
    ensures es[k].workerId in Record(last, es)
    ensures Record(last, es)[es[k].workerId] == LastShift(es[k].date, es[k].shift)
  {
    if k < |es| - 1 {
      var init := es[..|es| - 1];
      assert init[k] == es[k];
      RecordLastWins(last, init, k);
    }
  }

  /** With distinct worker ids, no worker gets two real entries on a day. */
  lemma RealUniqueIds(workers: seq<Worker>, last: LastShifts, date: Date, shuffle: Shuffle)
    requires IsShuffle(shuffle)
    requires UniqueIds(workers)
    ensures var reals := Real(workers, last, date, shuffle);
            forall k, j :: 0 <= k < j < |reals| ==> reals[k].workerId != reals[j].workerId
  {
    var available := Available(workers, last, date);
    var shuffled := shuffle(date, available);
    var reals := Real(workers, last, date, shuffle);
    ShuffledUniqueIds(workers, last, date, shuffle);
    assert |multiset(shuffled)| == |multiset(available)|;
    if DayNameOf(date) == Sunday || |available| >= 2 {
      forall k, j | 0 <= k < j < |reals| ensures reals[k].workerId != reals[j].workerId {
        assert reals[k].workerId == shuffled[k].id && reals[j].workerId == shuffled[j].id;
      }
    }
  }

  /** With distinct worker ids, the record after a day holds each real
      entry's date and shift for its worker, keeps every other worker's
      record, and gains exactly the ids of the day's real entries. Leave
      entries play no part. */
  lemma DayRecord(workers: seq<Worker>, last: LastShifts, date: Date, shuffle: Shuffle)
    requires IsShuffle(shuffle)
    requires UniqueIds(workers)
    ensures var reals := Real(workers, last, date, shuffle);
            var after := DayLastShifts(workers, last, date, shuffle);
            && after.Keys == last.Keys + Ids(reals)
            && (forall id :: id in last && id !in Ids(reals) ==> after[id] == last[id])
            && (forall e :: e in reals ==> after[e.workerId] == LastShift(date, e.shift))
  {
    var reals := Real(workers, last, date, shuffle);
    RecordKeys(last, reals);
    RealDates(workers, last, date, shuffle);
    RealUniqueIds(workers, last, date, shuffle);
    forall id | id in last && id !in Ids(reals) ensures id in Record(last, reals) && Record(last, reals)[id] == last[id] {
      RecordKeepsOthers(last, reals, id);
    }
    forall e | e in reals ensures e.workerId in Record(last, reals) && Record(last, reals)[e.workerId] == LastShift(date, e.shift) {
      var k :| 0 <= k < |reals| && reals[k] == e;
      RecordLastWins(last, reals, k);
    }
  }

  /** Recording entries of one date leaves each worker either the record it
      had or a shift of that date. */
  lemma {:induction false} RecordDates(last: LastShifts, es: seq<Entry>, date: Date)
    requires forall e :: e in es ==> e.date == date
    ensures forall id :: id in Record(last, es) ==>
              (id in last && Record(last, es)[id] == last[id]) || Record(last, es)[id].date == date
  {
    if es != [] {
      var init := es[..|es| - 1];
      assert forall e :: e in init ==> e in es;
      RecordDates(last, init, date);
      assert es[|es| - 1] in es;
    }
  }

  /** If the record holds only dates before a day, it holds none after it. */
  lemma DayRecordDates(workers: seq<Worker>, last: LastShifts, date: Date, shuffle: Shuffle)
    requires forall id :: id in last ==> last[id].date < date
    ensures forall id :: id in DayLastShifts(workers, last, date, shuffle) ==>
              DayLastShifts(workers, last, date, shuffle)[id].date <= date
  {
    RealDates(workers, last, date, shuffle);
    RecordDates(last, Real(workers, last, date, shuffle), date);
  }

  /** With distinct ids and a record dated before the day, the record after
      the day says "night shift on this day" for exactly the workers of the
      day's night entries. */
  lemma NightRecord(workers: seq<Worker>, last: LastShifts, date: Date, shuffle: Shuffle)
    requires IsShuffle(shuffle)
    requires UniqueIds(workers)
    requires forall id :: id in last ==> last[id].date < date
    ensures var after := DayLastShifts(workers, last, date, shuffle);
            forall id :: (id in after && after[id] == LastShift(date, Night)) <==>
              exists e :: e in Real(workers, last, date, shuffle) && e.workerId == id && e.shift == Night
  {
    var reals := Real(workers, last, date, shuffle);
    var after := DayLastShifts(workers, last, date, shuffle);
    DayRecord(workers, last, date, shuffle);
    forall id | id in after && after[id] == LastShift(date, Night)
      ensures exists e :: e in reals && e.workerId == id && e.shift == Night
    {
      assert id in Ids(reals);
      var e :| e in reals && e.workerId == id;
      assert after[id] == LastShift(date, e.shift);
    }
  }

  /** The rest rule from one day to the next: the worker of a night entry of
      a day gets no real entry on the following day. */
  lemma RestAcrossDays(workers: seq<Worker>, last: LastShifts, date: Date, after: LastShifts, next: Date, shuffle: Shuffle)
    requires IsShuffle(shuffle)
    requires UniqueIds(workers)
    requires after == DayLastShifts(workers, last, date, shuffle)
    requires next == date + 1
    ensures forall e, f :: e in DayEntries(workers, last, date, shuffle) && e.shift == Night &&
                           f in DayEntries(workers, after, next, shuffle) && f.shift != Leave ==>
              f.workerId != e.workerId
  {
    DayIdsAreRealIds(workers, last, date, shuffle);
    DayIdsAreRealIds(workers, after, next, shuffle);
    DayRecord(workers, last, date, shuffle);
    RealShape(workers, after, next, shuffle);
    AvailableMembers(workers, after, next, DayNameOf(next) == Sunday);
    forall e, f | e in DayEntries(workers, last, date, shuffle) && e.shift == Night &&
                  f in DayEntries(workers, after, next, shuffle) && f.shift != Leave
      ensures f.workerId != e.workerId
    {
      RestRule(after, WorkerOf(f), next, DayNameOf(next) == Sunday);
    }
  }

  /** With at least one worker, distinct ids and a record dated before the
      day, somebody is available on the following day: only the worker of
      the day's single night entry rests, and a lone worker gets no night
      entry. */
  lemma NextDayStaffed(workers: seq<Worker>, last: LastShifts, date: Date, after: LastShifts, next: Date, shuffle: Shuffle)
    requires IsShuffle(shuffle)
    requires UniqueIds(workers)
    requires |workers| >= 1
    requires forall id :: id in last ==> last[id].date < date
    requires after == DayLastShifts(workers, last, date, shuffle)
    requires next == date + 1
    ensures |Available(workers, after, next)| >= 1
  {
    var reals := Real(workers, last, date, shuffle);
    var isSunday := DayNameOf(next) == Sunday;
    NightRecord(workers, last, date, shuffle);
    AtMostOneNight(workers, last, date, shuffle);
    AvailableLength(workers, last, date, DayNameOf(date) == Sunday);
    AvailableMembers(workers, after, next, isSunday);
    var w := workers[0];
    RestRule(after, w, next, isSunday);
    if !IsAvailable(after, w, next, isSunday) {
      var e0 :| e0 in reals && e0.workerId == w.id && e0.shift == Night;
      var k0 :| 0 <= k0 < |reals| && reals[k0] == e0;
      assert |workers| >= 2;
      var w1 := workers[1];
      RestRule(after, w1, next, isSunday);
      assert IsAvailable(after, w1, next, isSunday);
      w := w1;
    }
    assert w in Available(workers, after, next);
  }

  /** Somebody works a real shift on `date` in `es`. */
  predicate Staffed(es: seq<Entry>, date: Date) {
    exists e :: e in es && e.shift != Leave && e.date == date
  }

  /** A day with somebody available has a real entry dated that day. */
  lemma StaffedDay(workers: seq<Worker>, last: LastShifts, date: Date, shuffle: Shuffle)
    requires IsShuffle(shuffle)
    requires |Available(workers, last, date)| >= 1
    ensures Staffed(DayEntries(workers, last, date, shuffle), date)
  {
    var available := Available(workers, last, date);
    var reals := Real(workers, last, date, shuffle);
    assert |multiset(shuffle(date, available))| == |multiset(available)|;
    LeaveRule(workers, last, date, shuffle);
    RealDates(workers, last, date, shuffle);
    assert reals[0] in DayEntries(workers, last, date, shuffle);
  }
}
