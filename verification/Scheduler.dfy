/** The scheduler loop of proc.c: which process it dispatches, when it lets the CPU idle, in which
    order processes of one level run, and how often it promotes. */
module Scheduler {
  import opened Sequences
  import opened ProcSpec
  import opened ProcScan
  import opened ProcRuns

  // What one iteration reads from the tick counter: to test for promotion, to set the next
  // promotion, and to stamp the process it starts. The counter may move between the three.
  datatype Reading = Reading(test: nat, again: nat, start: nat)

  predicate Fires(t: Table, r: Reading) { t.promoteAt == r.test }

  // The table an iteration looks for a process in.
  function Look(t: Table, r: Reading): (u: Table)
    requires Ok(t)
    ensures Ok(u)
  { if Fires(t, r) then Promoted(t, r.again) else t }

  predicate Empty(t: Table, l: nat)
    requires Ok(t) && l <= MAX
  { t.lists[l] == [] }

  // Every ready queue below level i is empty.
  predicate EmptyBelow(t: Table, i: nat)
    requires Ok(t) && i <= MAX + 1
  { forall l :: 0 <= l < i ==> Empty(t, l) }

  // ---- the scan ----

  // The scan of one CPU while it holds ptable.lock. skipped records that promotion has fired, since
  // the index was last 0, at a level above 0 whose queue was not empty.
  datatype Scan = Scan(t: Table, i: nat, idle: bool, skipped: bool)

  predicate Skips(t: Table, i: nat, r: Reading)
    requires Ok(t) && i <= MAX
  { Fires(t, r) && i >= 1 && !Empty(t, i) }

  // One iteration of the for loop. If it starts a process, back is the table when that process
  // switches back; the index then goes back to 0, except at the last level, where the loop ends.
  function Iterate(s: Scan, r: Reading, back: Table): Scan
    requires Ok(s.t) && s.i <= MAX && Ok(back)
  {
    var u := Look(s.t, r);
    if !Empty(u, s.i) then Scan(back, if s.i != MAX then 0 else MAX + 1, false, false)
    else s.(t := u, i := s.i + 1, skipped := s.skipped || Skips(s.t, s.i, r))
  }

  predicate IsScan(ss: seq<Scan>, rs: seq<Reading>, backs: seq<Table>) {
    && |ss| == |rs| + 1 == |backs| + 1
    && Ok(ss[0].t) && ss[0].i == 0 && ss[0].idle && !ss[0].skipped
    && forall k :: 0 <= k < |rs| ==>
       Ok(backs[k]) && Ok(ss[k].t) && ss[k].i <= MAX && ss[k + 1] == Iterate(ss[k], rs[k], backs[k])
  }

  // The levels passed are empty exactly when no promotion was skipped over.
  predicate ScanInv(s: Scan) {
    && Ok(s.t) && s.i <= MAX + 1
    && (s.idle || s.i <= MAX ==> (EmptyBelow(s.t, s.i) <==> !s.skipped))
  }

  // The queues of u are those of t after a promotion.
  predicate Shifted(t: Table, u: Table)
    requires Ok(t) && Ok(u)
  {
    && u.lists[0] == t.lists[0] + t.lists[1] && u.lists[MAX] == []
    && forall l :: 1 <= l < MAX ==> u.lists[l] == t.lists[l + 1]
  }

  lemma PromotedShifted(t: Table, ticks: nat)
    requires Ok(t)
    ensures Shifted(t, Promoted(t, ticks)) == true
  {
    MergeLists(RaisedOn(RaisedOn(t, SLEEP), RUNNING), 0);
  }

  // Promotion brings the queues of levels 1 to i down below level i.
  lemma ShiftBelow(t: Table, u: Table, i: nat)
    requires Ok(t) && Ok(u) && 1 <= i <= MAX && Shifted(t, u)
    ensures EmptyBelow(u, i) <==> EmptyBelow(t, i) && Empty(t, i)
  {
    if EmptyBelow(u, i) {
      assert Empty(u, 0);
      forall l | 0 <= l <= i ensures Empty(t, l) {
        if l >= 2 { assert Empty(u, l - 1); }
      }
    }
    if EmptyBelow(t, i) && Empty(t, i) {
      assert Empty(t, 0) && Empty(t, 1);
      forall l | 0 <= l < i ensures Empty(u, l) {
        if l >= 1 { assert Empty(t, l + 1); }
      }
    }
  }

  // Below level i, looking leaves the queues empty unless something was there or promotion brings
  // the queue of level i itself down.
  lemma LookBelow(t: Table, r: Reading, i: nat)
    requires Ok(t) && i <= MAX
    ensures EmptyBelow(Look(t, r), i) <==> EmptyBelow(t, i) && !Skips(t, i, r)
  {
    if Fires(t, r) && i >= 1 {
      PromotedShifted(t, r.again);
      ShiftBelow(t, Promoted(t, r.again), i);
    }
  }

  lemma IterateInv(s: Scan, r: Reading, back: Table)
    requires ScanInv(s) && s.i <= MAX && Ok(back)
    ensures ScanInv(Iterate(s, r, back))
    ensures EmptyBelow(Look(s.t, r), s.i) <==> !(s.skipped || Skips(s.t, s.i, r))
  {
    LookBelow(s.t, r, s.i);
    var u := Look(s.t, r);
    if Empty(u, s.i) {
      assert EmptyBelow(u, s.i + 1) <==> EmptyBelow(u, s.i);
    }
  }

  lemma {:induction false} ScanRuns(ss: seq<Scan>, rs: seq<Reading>, backs: seq<Table>, k: nat)
    requires IsScan(ss, rs, backs) && k <= |rs|
    ensures ScanInv(ss[k])
  {
    if k > 0 {
      ScanRuns(ss, rs, backs, k - 1);
      IterateInv(ss[k - 1], rs[k - 1], backs[k - 1]);
    }
  }

  // In every scan, however often the index is reset and whatever the processes do meanwhile: the
  // process dispatched next is the head of the lowest non-empty queue, and a CPU that reaches the
  // end of an idle scan has found every queue empty, if and only if no promotion has fired, since
  // the index was last 0, at a level above 0 with a non-empty queue.
  lemma DispatchOrderIff(ss: seq<Scan>, rs: seq<Reading>, backs: seq<Table>, k: nat)
    requires IsScan(ss, rs, backs) && k <= |rs|
    ensures k < |rs| && !Empty(Look(ss[k].t, rs[k]), ss[k].i) ==>
              (EmptyBelow(Look(ss[k].t, rs[k]), ss[k].i) <==> !(ss[k].skipped || Skips(ss[k].t, ss[k].i, rs[k])))
    ensures ss[k].idle && ss[k].i == MAX + 1 ==> Ok(ss[k].t) && (EmptyBelow(ss[k].t, MAX + 1) <==> !ss[k].skipped)
  {
    ScanRuns(ss, rs, backs, k);
    if k < |rs| { IterateInv(ss[k], rs[k], backs[k]); }
  }

  // ---- one sweep, from level 0 to the next dispatch ----

  // The table at the dispatch and its level, or NULL if every level was passed.
  function Sweep(t: Table, rs: seq<Reading>, i: nat): (r: (Table, int))
    requires Ok(t) && |rs| == MAX + 1 && i <= MAX + 1
    ensures Ok(r.0) && (r.1 == NULL || (i <= r.1 <= MAX && !Empty(r.0, r.1)))
    decreases MAX + 1 - i
  {
    if i > MAX then (t, NULL)
    else
      var u := Look(t, rs[i]);
      if !Empty(u, i) then (u, i) else Sweep(u, rs, i + 1)
  }

  // What is right about a sweep: it ends at the lowest non-empty queue, or finds all queues empty.
  predicate InOrder(r: (Table, int))
    requires Ok(r.0) && NULL <= r.1 <= MAX
  { if r.1 == NULL then EmptyBelow(r.0, MAX + 1) else EmptyBelow(r.0, r.1) }

  // The promotion time after a reading.
  function TimerAfter(at: nat, r: Reading): nat {
    if at == r.test then (r.again + TICKS_TO_PROMOTE) % TWO32 else at
  }

  // With the promotion time at when the scan comes to level i: reading k meets it.
  predicate Due(at: nat, rs: seq<Reading>, i: nat, k: nat)
    requires i <= k < |rs|
    decreases k - i
  { if k == i then at == rs[i].test else Due(TimerAfter(at, rs[i]), rs, i + 1, k) }

  // And how many readings before k meet it.
  function Fired(at: nat, rs: seq<Reading>, i: nat, k: nat): nat
    requires i <= k <= |rs|
    decreases k - i
  {
    if k == i then 0
    else (if at == rs[i].test then 1 else 0) + Fired(TimerAfter(at, rs[i]), rs, i + 1, k)
  }

  predicate Lowest(t: Table, l: nat)
    requires Ok(t)
  { l <= MAX && !Empty(t, l) && EmptyBelow(t, l) }

  // Promotion falls due at level k, where earlier ones of the same sweep have brought the lowest
  // non-empty queue.
  predicate MisfiresAt(t: Table, rs: seq<Reading>, i: nat, k: nat)
    requires Ok(t) && |rs| == MAX + 1 && i <= k <= MAX
  { 1 <= k && Due(t.promoteAt, rs, i, k) && Lowest(t, k + Fired(t.promoteAt, rs, i, k)) }

  predicate MisfiresFrom(t: Table, rs: seq<Reading>, i: nat)
    requires Ok(t) && |rs| == MAX + 1
  { exists k :: i <= k <= MAX && MisfiresAt(t, rs, i, k) }

  // The condition under which a sweep goes wrong, on the readings and the table it starts from.
  predicate Misfires(t: Table, rs: seq<Reading>)
    requires Ok(t) && |rs| == MAX + 1
  { MisfiresFrom(t, rs, 0) }

  // What has been passed over stays passed over.
  lemma {:induction false} SweepStays(t: Table, rs: seq<Reading>, i: nat)
    requires Ok(t) && |rs| == MAX + 1 && i <= MAX + 1 && !EmptyBelow(t, i)
    ensures !InOrder(Sweep(t, rs, i))
    decreases MAX + 1 - i
  {
    if i <= MAX {
      LookBelow(t, rs[i], i);
      var u := Look(t, rs[i]);
      if Empty(u, i) { SweepStays(u, rs, i + 1); }
    }
  }

  // A promotion brings the lowest non-empty queue down by one.
  lemma ShiftLowest(t: Table, u: Table, l: nat)
    requires Ok(t) && Ok(u) && Shifted(t, u) && 1 <= l
    ensures Lowest(u, l) <==> Lowest(t, l + 1)
  {
    if l < MAX {
      ShiftBelow(t, u, l);
      assert EmptyBelow(t, l + 1) <==> EmptyBelow(t, l) && Empty(t, l);
    }
  }

  // A misfire beyond level i, seen from the table that the scan looks at there.
  lemma MisfireNext(t: Table, rs: seq<Reading>, i: nat, k: nat)
    requires Ok(t) && |rs| == MAX + 1 && i < k <= MAX
    ensures MisfiresAt(t, rs, i, k) <==> MisfiresAt(Look(t, rs[i]), rs, i + 1, k)
  {
    var u := Look(t, rs[i]);
    assert u.promoteAt == TimerAfter(t.promoteAt, rs[i]);
    if Fires(t, rs[i]) {
      PromotedShifted(t, rs[i].again);
      ShiftLowest(t, u, k + Fired(u.promoteAt, rs, i + 1, k));
    }
  }

  lemma MisfiresNext(t: Table, rs: seq<Reading>, i: nat)
    requires Ok(t) && |rs| == MAX + 1 && i <= MAX
    ensures MisfiresFrom(t, rs, i) <==> MisfiresAt(t, rs, i, i) || MisfiresFrom(Look(t, rs[i]), rs, i + 1)
  {
    var u := Look(t, rs[i]);
    if MisfiresFrom(t, rs, i) {
      var k :| i <= k <= MAX && MisfiresAt(t, rs, i, k);
      if k > i { MisfireNext(t, rs, i, k); }
    }
    if MisfiresFrom(u, rs, i + 1) {
      var k :| i + 1 <= k <= MAX && MisfiresAt(u, rs, i + 1, k);
      MisfireNext(t, rs, i, k);
    }
  }

  // Nothing misfires beyond the level of the lowest non-empty queue.
  lemma FoundInTime(t: Table, rs: seq<Reading>, i: nat, j: nat)
    requires Ok(t) && |rs| == MAX + 1 && i < j <= MAX + 1 && Lowest(t, i)
    ensures !MisfiresFrom(t, rs, j)
  {
    forall k | j <= k <= MAX ensures !MisfiresAt(t, rs, j, k) {
      assert !Lowest(t, k + Fired(t.promoteAt, rs, j, k));
    }
  }

  lemma {:induction false} SweepFrom(t: Table, rs: seq<Reading>, i: nat)
    requires Ok(t) && |rs| == MAX + 1 && i <= MAX + 1 && EmptyBelow(t, i)
    ensures InOrder(Sweep(t, rs, i)) <==> !MisfiresFrom(t, rs, i)
    decreases MAX + 1 - i
  {
    if i <= MAX {
      var u := Look(t, rs[i]);
      MisfiresNext(t, rs, i);
      if Skips(t, i, rs[i]) {
        SkipsOver(t, rs, i);
      } else {
        NotSkipped(t, rs, i, u);
        if Empty(u, i) { SweepFrom(u, rs, i + 1); }
      }
    }
  }

  lemma NotSkipped(t: Table, rs: seq<Reading>, i: nat, u: Table)
    requires Ok(t) && |rs| == MAX + 1 && i <= MAX && EmptyBelow(t, i) && u == Look(t, rs[i]) && !Skips(t, i, rs[i])
    ensures Ok(u) && !MisfiresAt(t, rs, i, i)
    ensures Empty(u, i) ==> EmptyBelow(u, i + 1) == true && Sweep(t, rs, i) == Sweep(u, rs, i + 1)
    ensures !Empty(u, i) ==> InOrder(Sweep(t, rs, i)) == true && !MisfiresFrom(u, rs, i + 1)
  {
    LookBelow(t, rs[i], i);
    if !Empty(u, i) { FoundInTime(u, rs, i, i + 1); }
  }

  lemma SkipsOver(t: Table, rs: seq<Reading>, i: nat)
    requires Ok(t) && |rs| == MAX + 1 && i <= MAX && EmptyBelow(t, i) && Skips(t, i, rs[i])
    ensures MisfiresAt(t, rs, i, i) && !InOrder(Sweep(t, rs, i))
  {
    LookBelow(t, rs[i], i);
    var u := Look(t, rs[i]);
    if Empty(u, i) { SweepStays(u, rs, i + 1); }
  }

  // A sweep dispatches from the lowest non-empty queue, and idles only if all are empty, unless
  // promotion falls due above level 0 just as it reaches the first process, wherever earlier
  // promotions of the sweep have moved it.
  lemma SweepInOrderIff(t: Table, rs: seq<Reading>)
    requires Ok(t) && |rs| == MAX + 1
    ensures InOrder(Sweep(t, rs, 0)) <==> !Misfires(t, rs)
  {
    SweepFrom(t, rs, 0);
  }

  // The sweep is shorter than the time between promotions: once set in the sweep, the promotion
  // time is not reached in it.
  predicate Short(rs: seq<Reading>) {
    forall j, k :: 0 <= j < k < |rs| ==> rs[k].test != (rs[j].again + TICKS_TO_PROMOTE) % TWO32
  }

  // It can go wrong: one process is ready, on level 1, promotion falls due when the scan gets there,
  // and the CPU idles.
  lemma IdlesWithWork() returns (t: Table, rs: seq<Reading>)
    ensures Ok(t) && |rs| == MAX + 1 && Short(rs) && |t.procs| > 0
    ensures t.procs[0].state.Runnable? && Sweep(t, rs, 0).1 == NULL && !InOrder(Sweep(t, rs, 0))
  {
    t := LoneProcess();
    rs := [Reading(1099, 1099, 1099), Reading(1100, 1100, 1100), Reading(1101, 1101, 1101),
           Reading(1101, 1101, 1101), Reading(1101, 1101, 1101), Reading(1101, 1101, 1101)];
    FirstMisfires(t, rs);
    SweepInOrderIff(t, rs);
    IdlesAfterShift(t, rs);
  }

  lemma FirstMisfires(t: Table, rs: seq<Reading>)
    requires Ok(t) && |rs| == MAX + 1 && !Fires(t, rs[0]) && Fires(t, rs[1]) && Empty(t, 0) && !Empty(t, 1)
    ensures Misfires(t, rs)
  {
    assert Lowest(t, 1);
    assert MisfiresAt(t, rs, 0, 1);
  }

  lemma LoneProcess() returns (t: Table)
    ensures Ok(t) && t.promoteAt == TICKS_TO_PROMOTE && |t.procs| == 1 && t.procs[0].state.Runnable?
    ensures Empty(t, 0) && !Empty(t, 1) && forall l :: 2 <= l <= MAX ==> Empty(t, l)
  {
    var lists: Lists := [[], [0], [], [], [], [], [], [], [], [], []];
    t := Table([Proc(Runnable, 1, NULL, 0, false, 1, DEFAULT_BUDGET, 0)], lists, 2, TICKS_TO_PROMOTE);
    assert lists[1] == [0] && On(lists, 1, 0);
  }

  lemma IdlesAfterShift(t: Table, rs: seq<Reading>)
    requires Ok(t) && |rs| == MAX + 1 && Short(rs) && !Fires(t, rs[0]) && Fires(t, rs[1])
    requires Empty(t, 0) && forall l :: 2 <= l <= MAX ==> Empty(t, l)
    ensures Sweep(t, rs, 0).1 == NULL
  {
    var u := Promoted(t, rs[1].again);
    PromotedShifted(t, rs[1].again);
    ShiftEmpty(t, u);
    assert Empty(u, 1);
    IdleFrom(u, rs, 2);
    assert Sweep(t, rs, 1) == Sweep(u, rs, 2);
  }

  lemma ShiftEmpty(t: Table, u: Table)
    requires Ok(t) && Ok(u) && Shifted(t, u) && forall l :: 2 <= l <= MAX ==> Empty(t, l)
    ensures forall l :: 1 <= l <= MAX ==> Empty(u, l)
  {
    forall l | 1 <= l <= MAX ensures Empty(u, l) { if l < MAX { assert Empty(t, l + 1); } }
  }

  // With no promotion ahead and all levels from i on empty, a sweep ends idle.
  lemma {:induction false} IdleFrom(t: Table, rs: seq<Reading>, i: nat)
    requires Ok(t) && |rs| == MAX + 1 && i <= MAX + 1
    requires forall k :: i <= k <= MAX ==> !Fires(t, rs[k]) && Empty(t, k)
    ensures Sweep(t, rs, i) == (t, NULL)
    decreases MAX + 1 - i
  {
    if i <= MAX { IdleFrom(t, rs, i + 1); }
  }

  // ---- promotion happens at most once in 1100 ticks ----

  // Only promotion sets the promotion time.
  lemma {:induction false} WakeAllTimer(t: Table, xs: seq<nat>, chan: int)
    requires Ok(t) && forall i :: 0 <= i < |xs| ==> xs[i] < |t.procs|
    ensures WakeAll(t, xs, chan).promoteAt == t.promoteAt
    decreases |xs|
  {
    if xs != [] {
      if t.procs[xs[0]].chan == chan {
        TransitOk(t, xs[0], t.procs[xs[0]].(state := Runnable), false);
        WakeAllTimer(Woken(t, xs[0]), xs[1..], chan);
      } else {
        WakeAllTimer(t, xs[1..], chan);
      }
    }
  }

  lemma {:induction false} AdoptListsTimer(t: Table, ls: seq<nat>, p: int, init: int)
    requires Ok(t) && forall i :: 0 <= i < |ls| ==> ls[i] < NLISTS
    ensures AdoptLists(t, ls, p, init).promoteAt == t.promoteAt
    decreases |ls|
  {
    if ls != [] {
      var procs := AdoptIn(t.procs, t.lists[ls[0]], p, init);
      AdoptKeeps(t.procs, t.lists[ls[0]], p, init);
      ParentsKeepPartition(t.procs, procs, t.lists);
      AdoptListsTimer(t.(procs := procs), ls[1..], p, init);
    }
  }

  lemma {:induction false} AdoptZombiesTimer(t: Table, xs: seq<nat>, p: int, init: int)
    requires Ok(t) && forall i :: 0 <= i < |xs| ==> xs[i] < |t.procs|
    ensures AdoptZombies(t, xs, p, init).promoteAt == t.promoteAt
    decreases |xs|
  {
    if xs != [] {
      if t.procs[xs[0]].parent == p {
        var u := Touch(t, xs[0], t.procs[xs[0]].(parent := init));
        TouchPartition(t.procs, t.lists, xs[0], u.procs[xs[0]]);
        WakeAllTimer(u, u.lists[SLEEP], ChanOf(init));
        AdoptZombiesTimer(Wakeup1(u, ChanOf(init)), xs[1..], p, init);
      } else {
        AdoptZombiesTimer(t, xs[1..], p, init);
      }
    }
  }

  lemma ExitTimer(t: Table, p: nat, init: int)
    requires Ok(t) && p < |t.procs|
    ensures Exited(t, p, init).promoteAt == t.promoteAt
  {
    var t1 := Wakeup1(t, ChanOf(t.procs[p].parent));
    WakeAllTimer(t, t.lists[SLEEP], ChanOf(t.procs[p].parent));
    AdoptListsOk(t1, ADOPT_LISTS, p, init);
    AdoptListsTimer(t1, ADOPT_LISTS, p, init);
    var t2 := AdoptLists(t1, ADOPT_LISTS, p, init);
    AdoptZombiesTimer(t2, t2.lists[ZOMBIE], p, init);
  }

  lemma OnlyPromotionSetsTimer(m: Machine, ev: Event)
    requires Enabled(m, ev) && !ev.Promote?
    ensures Do(m, ev).t.promoteAt == m.t.promoteAt
  {
    match ev
    case Wakeup(chan) => WakeAllTimer(m.t, m.t.lists[SLEEP], chan);
    case Exit(c) => ExitTimer(m.t, Self(m, c), m.init);
    case _ =>
  }

  // Time since boot in ticks is unbounded; the kernel's counter holds it modulo 2^32.
  function Counter(time: nat): nat { time % TWO32 }

  // times[i] is when event i sets the next promotion, and due[i] when, just before, it tested for one.
  predicate Clocked(ms: seq<Machine>, evs: seq<Event>, due: seq<nat>, times: seq<nat>) {
    && IsRun(ms, evs) && |due| == |times| == |evs|
    && (forall i :: 0 <= i < |evs| ==> due[i] <= times[i])
    && (forall i, j :: 0 <= i < j < |evs| ==> times[i] <= due[j])
    && (forall i :: 0 <= i < |evs| && evs[i].Promote? ==>
          ms[i].t.promoteAt == Counter(due[i]) && evs[i].ticks == Counter(times[i]))
  }

  lemma LaterByPeriod(from: nat, test: nat)
    requires from <= test && Counter(test) == Counter(from + TICKS_TO_PROMOTE)
    ensures test >= from + TICKS_TO_PROMOTE
  {}

  // Promotion at time sets the timer for 1100 ticks later.
  lemma TimerSet(m: Machine, ticks: nat, time: nat)
    requires Enabled(m, Promote(ticks)) && ticks == Counter(time)
    ensures Do(m, Promote(ticks)).t.promoteAt == Counter(time + TICKS_TO_PROMOTE)
  {
    CounterAdds(time);
  }

  lemma CounterAdds(time: nat)
    ensures (Counter(time) + TICKS_TO_PROMOTE) % TWO32 == Counter(time + TICKS_TO_PROMOTE)
  {}

  // The first promotion after that of event i comes at least 1100 ticks later.
  lemma {:induction false} TimerSince(ms: seq<Machine>, evs: seq<Event>, due: seq<nat>, times: seq<nat>, i: nat, j: nat)
    requires Clocked(ms, evs, due, times) && i < j <= |evs| && evs[i].Promote?
    requires forall k :: i < k < j ==> !evs[k].Promote?
    ensures ms[j].t.promoteAt == Counter(times[i] + TICKS_TO_PROMOTE)
  {
    if j == i + 1 {
      TimerSet(ms[i], evs[i].ticks, times[i]);
    } else {
      TimerSince(ms, evs, due, times, i, j - 1);
      OnlyPromotionSetsTimer(ms[j - 1], evs[j - 1]);
    }
  }

  // In every run, two promotions are at least 1100 ticks apart.
  lemma {:induction false} PromotionWindow(ms: seq<Machine>, evs: seq<Event>, due: seq<nat>, times: seq<nat>, i: nat,
      j: nat)
    requires Clocked(ms, evs, due, times) && i < j < |evs| && evs[i].Promote? && evs[j].Promote?
    ensures due[j] >= due[i] + TICKS_TO_PROMOTE
    decreases j - i
  {
    if k :| i < k < j && evs[k].Promote? {
      PromotionWindow(ms, evs, due, times, i, k);
    } else {
      TimerSince(ms, evs, due, times, i, j);
      LaterByPeriod(times[i], due[j]);
    }
  }

  // ---- each level is first in, first out ----

  // x stands before y on list s.
  predicate Before(s: seq<nat>, x: nat, y: nat) { exists i, j :: 0 <= i < j < |s| && s[i] == x && s[j] == y }

  predicate Ahead(t: Table, x: nat, y: nat) {
    Ok(t) && exists l :: 0 <= l <= MAX && Before(t.lists[l], x, y)
  }

  lemma BeforeConcat(a: seq<nat>, b: seq<nat>, x: nat, y: nat)
    requires Before(a, x, y) || Before(b, x, y)
    ensures Before(a + b, x, y)
  {
    if Before(a, x, y) {
      var i, j :| 0 <= i < j < |a| && a[i] == x && a[j] == y;
      assert (a + b)[i] == x && (a + b)[j] == y;
    } else {
      var i, j :| 0 <= i < j < |b| && b[i] == x && b[j] == y;
      assert (a + b)[|a| + i] == x && (a + b)[|a| + j] == y;
    }
  }

  lemma {:induction false} BeforeWithout(s: seq<nat>, p: nat, x: nat, y: nat)
    requires Before(s, x, y) && p != x && p != y
    ensures Before(Without(s, p), x, y)
  {
    var i, j :| 0 <= i < j < |s| && s[i] == x && s[j] == y;
    if s[0] == p {
      assert s[1..][i - 1] == x && s[1..][j - 1] == y;
    } else if i > 0 {
      assert s[1..][i - 1] == x && s[1..][j - 1] == y;
      BeforeWithout(s[1..], p, x, y);
      BeforeConcat([s[0]], Without(s[1..], p), x, y);
    } else {
      assert s[1..][j - 1] == y;
      InWithout(s[1..], p, y);
      var w := Without(s[1..], p);
      var k :| 0 <= k < |w| && w[k] == y;
      assert ([s[0]] + w)[0] == x && ([s[0]] + w)[k + 1] == y;
    }
  }

  lemma {:induction false} InWithout(s: seq<nat>, p: nat, y: nat)
    requires y in s && y != p
    ensures y in Without(s, p)
  {
    if s[0] != p && s[0] != y { InWithout(s[1..], p, y); }
  }

  // Moving another process keeps the order of x and y.
  lemma TransitAhead(t: Table, p: nat, q: Proc, front: bool, x: nat, y: nat)
    requires Ahead(t, x, y) && p < |t.procs| && q.priority <= MAX && p != x && p != y
    ensures Ahead(Transit(t, p, q, front), x, y)
  {
    var l :| 0 <= l <= MAX && Before(t.lists[l], x, y);
    TransitOk(t, p, q, front);
    var r := Remove(t.lists, ListOf(t.procs[p]), p);
    if l == ListOf(t.procs[p]) { BeforeWithout(t.lists[l], p, x, y); }
    BeforeConcat([p], r[l], x, y);
    BeforeConcat(r[l], [p], x, y);
    assert Before(Transit(t, p, q, front).lists[l], x, y);
  }

  // Ordered processes are Runnable, so what moves a process in another state moves neither.
  lemma AheadRunnable(t: Table, x: nat, y: nat)
    requires Ahead(t, x, y)
    ensures x < |t.procs| && y < |t.procs| && t.procs[x].state.Runnable? && t.procs[y].state.Runnable?
  {
    var l :| 0 <= l <= MAX && Before(t.lists[l], x, y);
    assert On(t.lists, l, x) && On(t.lists, l, y);
  }

  lemma {:induction false} WakeAllAhead(t: Table, xs: seq<nat>, chan: int, x: nat, y: nat)
    requires Ahead(t, x, y) && (forall i :: 0 <= i < |xs| ==> xs[i] < |t.procs|) && x !in xs && y !in xs
    ensures Ahead(WakeAll(t, xs, chan), x, y)
    decreases |xs|
  {
    if xs != [] {
      if t.procs[xs[0]].chan == chan {
        TransitOk(t, xs[0], t.procs[xs[0]].(state := Runnable), false);
        TransitAhead(t, xs[0], t.procs[xs[0]].(state := Runnable), false, x, y);
        WakeAllAhead(Woken(t, xs[0]), xs[1..], chan, x, y);
      } else {
        WakeAllAhead(t, xs[1..], chan, x, y);
      }
    }
  }

  lemma WakeupAhead(t: Table, chan: int, x: nat, y: nat)
    requires Ahead(t, x, y)
    ensures Ahead(Wakeup1(t, chan), x, y)
  {
    AheadRunnable(t, x, y);
    assert !On(t.lists, SLEEP, x) && !On(t.lists, SLEEP, y);
    WakeAllAhead(t, t.lists[SLEEP], chan, x, y);
  }

  lemma {:induction false} AdoptZombiesAhead(t: Table, xs: seq<nat>, p: int, init: int, x: nat, y: nat)
    requires Ahead(t, x, y) && forall i :: 0 <= i < |xs| ==> xs[i] < |t.procs|
    ensures Ahead(AdoptZombies(t, xs, p, init), x, y)
    decreases |xs|
  {
    if xs != [] {
      if t.procs[xs[0]].parent == p {
        var u := Touch(t, xs[0], t.procs[xs[0]].(parent := init));
        TouchPartition(t.procs, t.lists, xs[0], u.procs[xs[0]]);
        assert Ahead(u, x, y);
        WakeupAhead(u, ChanOf(init), x, y);
        AdoptZombiesAhead(Wakeup1(u, ChanOf(init)), xs[1..], p, init, x, y);
      } else {
        AdoptZombiesAhead(t, xs[1..], p, init, x, y);
      }
    }
  }

  lemma ExitAhead(t: Table, p: nat, init: int, x: nat, y: nat)
    requires Ahead(t, x, y) && p < |t.procs| && t.procs[p].state.Running?
    ensures Ahead(Exited(t, p, init), x, y)
  {
    AheadRunnable(t, x, y);
    var t1 := Wakeup1(t, ChanOf(t.procs[p].parent));
    WakeupAhead(t, ChanOf(t.procs[p].parent), x, y);
    AdoptListsOk(t1, ADOPT_LISTS, p, init);
    var t2 := AdoptLists(t1, ADOPT_LISTS, p, init);
    assert Ahead(t2, x, y);
    AdoptZombiesAhead(t2, t2.lists[ZOMBIE], p, init, x, y);
    var u := Orphaned(t, p, init);
    TransitAhead(u, p, u.procs[p].(state := Zombie), true, x, y);
  }

  lemma PromoteAhead(t: Table, ticks: nat, x: nat, y: nat)
    requires Ahead(t, x, y)
    ensures Ahead(Promoted(t, ticks), x, y)
  {
    PromotedShifted(t, ticks);
    ShiftAhead(t, Promoted(t, ticks), x, y);
  }

  lemma ShiftAhead(t: Table, u: Table, x: nat, y: nat)
    requires Ahead(t, x, y) && Ok(u) && Shifted(t, u)
    ensures Ahead(u, x, y)
  {
    var l :| 0 <= l <= MAX && Before(t.lists[l], x, y);
    if l <= 1 {
      BeforeConcat(t.lists[0], t.lists[1], x, y);
      assert Before(u.lists[0], x, y);
    } else {
      assert u.lists[l - 1] == t.lists[l];
    }
  }

  // The process a setpriority() call moves, if any.
  predicate Reprioritises(t: Table, ev: Event, x: nat) {
    Ok(t) && ev.SetPriority? && ev.pid >= 0 && FindInLists(t, PRIO_LISTS, ev.pid) == x
  }

  predicate Starts(m: Machine, ev: Event, x: nat)
    requires Enabled(m, ev)
  { ev.Dispatch? && m.t.lists[ev.level][0] == x }

  lemma KillAhead(t: Table, pid: nat, x: nat, y: nat)
    requires Ahead(t, x, y)
    ensures Ahead(Killed(t, pid).1, x, y)
  {
    AheadRunnable(t, x, y);
    var s := FindPid(t.procs, t.lists[SLEEP], pid);
    if s != NULL {
      assert On(t.lists, SLEEP, s);
      TransitAhead(t, s, t.procs[s].(state := Runnable, killed := true), false, x, y);
    }
  }

  lemma SetPriorityAhead(t: Table, pid: int, priority: int, x: nat, y: nat)
    requires Ahead(t, x, y) && !Reprioritises(t, SetPriority(pid, priority), x) &&
             !Reprioritises(t, SetPriority(pid, priority), y)
    ensures Ahead(Prioritised(t, pid, priority).1, x, y)
  {
    if 0 <= pid <= 32767 && 0 <= priority <= MAX {
      var p := FindInLists(t, PRIO_LISTS, pid);
      if p != NULL && t.procs[p].priority != priority {
        TransitAhead(t, p, t.procs[p].(priority := priority, budget := DEFAULT_BUDGET), false, x, y);
      }
    }
  }

  lemma DispatchAhead(m: Machine, c: nat, level: nat, ticks: nat, x: nat, y: nat)
    requires Enabled(m, Dispatch(c, level, ticks)) && Ahead(m.t, x, y)
    ensures !Starts(m, Dispatch(c, level, ticks), y)
    ensures Starts(m, Dispatch(c, level, ticks), x) || Ahead(Do(m, Dispatch(c, level, ticks)).t, x, y)
  {
    var p := m.t.lists[level][0];
    assert On(m.t.lists, level, p);
    var l :| 0 <= l <= MAX && Before(m.t.lists[l], x, y);
    var i, j :| 0 <= i < j < |m.t.lists[l]| && m.t.lists[l][i] == x && m.t.lists[l][j] == y;
    assert On(m.t.lists, l, y);
    assert p != y;
    if p != x { TransitAhead(m.t, p, m.t.procs[p].(state := Running, ticksIn := ticks), true, x, y); }
  }

  // A step that moves one process that is not Runnable keeps x ahead of y.
  lemma MoveAhead(m: Machine, ev: Event, x: nat, y: nat)
    requires Inv(m) && Enabled(m, ev) && Ahead(m.t, x, y)
    requires ev.Alloc? || ev.GiveBack? || ev.ForkDone? || ev.Yield? || ev.Sleep? || ev.Wait?
    ensures Ahead(Do(m, ev).t, x, y) == true
  {
    AheadRunnable(m.t, x, y);
    var t := m.t;
    match ev
    case Alloc(c) =>
      var p := t.lists[FREE][0];
      assert On(t.lists, FREE, p);
      TransitAhead(t, p, t.procs[p].(state := Embryo, pid := t.nextpid), true, x, y);
    case GiveBack(c) => TransitAhead(t, Slot(m, c), t.procs[Slot(m, c)].(state := Unused), true, x, y);
    case ForkDone(c) => TransitAhead(t, Slot(m, c), t.procs[Slot(m, c)].(state := Runnable), false, x, y);
    case Yield(c, ticks) => TransitAhead(t, Self(m, c), Charged(t.procs[Self(m, c)], ticks).(state := Runnable), false,
        x, y);
    case Sleep(c, chan, ticks) => TransitAhead(t, Self(m, c),
        Charged(t.procs[Self(m, c)], ticks).(state := Sleeping, chan := chan), true, x, y);
    case Wait(c) =>
      WaitRefinesScan(t, Self(m, c));
      var p := WaitPass(t, Self(m, c)).child;
      TransitAhead(t, p, FreedSlot(t.procs[p]), true, x, y);
  }

  // One step keeps x ahead of y, or dispatches x.
  lemma StepAhead(m: Machine, ev: Event, x: nat, y: nat)
    requires Inv(m) && Enabled(m, ev) && Ahead(m.t, x, y)
    requires !Reprioritises(m.t, ev, x) && !Reprioritises(m.t, ev, y)
    ensures (!Starts(m, ev, y) && (Starts(m, ev, x) || Ahead(Do(m, ev).t, x, y))) == true
  {
    match ev
    case Prepare(c) => StepInv(m, ev);
    case SetParent(c) => StepInv(m, ev);
    case Wakeup(chan) => WakeupAhead(m.t, chan, x, y);
    case Exit(c) => ExitAhead(m.t, Self(m, c), m.init, x, y);
    case Kill(pid) => KillAhead(m.t, pid, x, y);
    case SetPriority(pid, priority) => SetPriorityAhead(m.t, pid, priority, x, y);
    case Dispatch(c, level, ticks) => DispatchAhead(m, c, level, ticks, x, y);
    case Promote(ticks) => PromoteAhead(m.t, ticks, x, y);
    case _ => MoveAhead(m, ev, x, y);
  }

  // In every run, x ahead of y on a ready queue is dispatched before y is, whatever else happens,
  // unless setpriority() moves one of the two.
  lemma {:induction false} FifoRuns(ms: seq<Machine>, evs: seq<Event>, i: nat, j: nat, x: nat, y: nat)
    requires IsRun(ms, evs) && Booted(ms[0]) && i <= j < |evs| && Ahead(ms[i].t, x, y)
    requires forall k :: i <= k <= j ==> !Reprioritises(ms[k].t, evs[k], x) && !Reprioritises(ms[k].t, evs[k], y)
    ensures Starts(ms[j], evs[j], y) ==> exists k :: i <= k < j && Starts(ms[k], evs[k], x)
    decreases j - i
  {
    InvRuns(ms, evs, i);
    StepAhead(ms[i], evs[i], x, y);
    if i < j && !Starts(ms[i], evs[i], x) {
      FifoRuns(ms, evs, i + 1, j, x, y);
    }
  }

  // ---- budgets ----

  // A charge costs a priority level exactly when the slice equals the budget modulo 2^32 and there is
  // a level to lose; the budget is then full again, and otherwise what the slice leaves modulo 2^32.
  lemma DemotedIff(p: Proc, ticks: nat)
    requires p.budget < TWO32
    ensures var elapsed, q := (ticks - p.ticksIn) % TWO32, Charged(p, ticks);
            && (q.priority == p.priority + 1 <==> elapsed == p.budget && p.priority != MAX)
            && (q.priority == p.priority <==> elapsed != p.budget || p.priority == MAX)
            && (elapsed == p.budget ==> q.budget == DEFAULT_BUDGET)
            && (elapsed != p.budget ==>
               0 < q.budget < TWO32 && (q.budget + elapsed == p.budget || q.budget + elapsed == p.budget + TWO32))
  {
    var d := ticks - p.ticksIn;
    var elapsed := d % TWO32;
    assert d == TWO32 * (d / TWO32) + elapsed;
    WrapOnce(p.budget - elapsed, -(d / TWO32));
  }

  // A charge leaves the budget between 1 and 300 exactly when the slice was no longer than what was
  // left, or so long that the unsigned subtraction wraps into the range again.
  lemma BudgetInRangeIff(p: Proc, ticks: nat)
    requires 1 <= p.budget <= DEFAULT_BUDGET
    ensures var elapsed := (ticks - p.ticksIn) % TWO32;
            1 <= Charged(p, ticks).budget <= DEFAULT_BUDGET <==>
            elapsed <= p.budget || elapsed - p.budget >= TWO32 - DEFAULT_BUDGET
  {
    var d := ticks - p.ticksIn;
    var elapsed := d % TWO32;
    assert d == TWO32 * (d / TWO32) + elapsed;
    var b := p.budget - elapsed;
    WrapOnce(b, -(d / TWO32));
  }

  // A slice of two ticks on a budget of one leaves a budget of 2^32 - 1.
  lemma BudgetWraps(p: Proc)
    requires p.budget == 1
    ensures Charged(p, p.ticksIn + 2).budget == TWO32 - 1
  {
    WrapOnce(-1, 0);
  }

  lemma WrapOnce(b: int, k: int)
    requires -TWO32 < b < TWO32
    ensures (b + TWO32 * k) % TWO32 == if b >= 0 then b else b + TWO32
  {
    var r := if b >= 0 then b else b + TWO32;
    assert (b + TWO32 * k - r) % TWO32 == 0;
  }
}
