/** Whole runs of the process table: any number of CPUs and processes take the critical sections
    of proc.c in any order. */
module ProcRuns {
  import opened Sequences
  import opened ProcSpec
  import opened ProcScan

  datatype Machine = Machine(
    t: Table,
    cur: seq<int>,     // per CPU, the process it runs, or NULL while in the scheduler
    np: seq<int>,      // per process, the slot its fork() has allocated and not yet handed over, or NULL
    init: nat)         // initproc

  datatype Event =
    | Alloc(c: nat)                              // allocproc takes a slot
    | Prepare(c: nat)                            // allocproc sets priority and budget, without the lock
    | SetParent(c: nat)                          // fork sets the child's parent, without the lock
    | GiveBack(c: nat)                           // a failure path of allocproc or fork
    | ForkDone(c: nat)
    | Yield(c: nat, ticks: nat)
    | Sleep(c: nat, chan: int, ticks: nat)
    | Wakeup(chan: int)
    | Exit(c: nat)
    | Wait(c: nat)                               // a pass of wait that reaps a child
    | Kill(victim: nat)
    | SetPriority(pid: int, priority: int)
    | Dispatch(c: nat, level: nat, ticks: nat)
    | Promote(ticks: nat)

  predicate OnCpu(m: Machine, c: nat) { c < |m.cur| && 0 <= m.cur[c] < |m.t.procs| == |m.np| }

  function Self(m: Machine, c: nat): nat
    requires OnCpu(m, c)
  { m.cur[c] }

  predicate Forking(m: Machine, c: nat) {
    OnCpu(m, c) && 0 <= m.np[Self(m, c)] < |m.t.procs|
  }

  function Slot(m: Machine, c: nat): nat
    requires Forking(m, c)
  { m.np[Self(m, c)] }

  predicate Enabled(m: Machine, ev: Event) {
    && Ok(m.t)
    && match ev
       case Alloc(c) => OnCpu(m, c) && m.np[Self(m, c)] == NULL && m.t.lists[FREE] != []
       case Prepare(c) => Forking(m, c)
       case SetParent(c) => Forking(m, c)
       case GiveBack(c) => Forking(m, c) && m.t.procs[Slot(m, c)].parent == NULL  // before SetParent
       case ForkDone(c) => Forking(m, c)
       case Yield(c, _) => OnCpu(m, c)
       case Sleep(c, _, _) => OnCpu(m, c)
       case Wakeup(_) => true
       case Exit(c) => OnCpu(m, c) && Self(m, c) != m.init && m.np[Self(m, c)] == NULL
       case Wait(c) => OnCpu(m, c) && WaitPass(m.t, Self(m, c)).Reap?
       case Kill(_) => true
       case SetPriority(_, _) => true
       case Dispatch(c, level, _) => c < |m.cur| && m.cur[c] == NULL && level <= MAX && m.t.lists[level] != []
       case Promote(_) => true
  }

  // Process p can be taken off list l, on which it is in state st.
  predicate Removable(t: Table, l: nat, p: int, st: ProcState) {
    l < |t.lists| && 0 <= p < |t.procs| && On(t.lists, l, p) && t.procs[p].state == st
  }

  // The checks of wakeup1 as it walks the sleep list xs.
  predicate WakeChecks(t: Table, xs: seq<nat>, chan: int)
    requires Ok(t) && forall i :: 0 <= i < |xs| ==> xs[i] < |t.procs|
    decreases |xs|
  {
    if xs == [] then true
    else if t.procs[xs[0]].chan == chan then
      && Removable(t, SLEEP, xs[0], Sleeping)
      && (TransitOk(t, xs[0], t.procs[xs[0]].(state := Runnable), false); WakeChecks(Woken(t, xs[0]), xs[1..], chan))
    else WakeChecks(t, xs[1..], chan)
  }

  // The checks of the wakeups in exit's walk over the zombie list xs.
  predicate ZombieChecks(t: Table, xs: seq<nat>, p: int, init: int)
    requires Ok(t) && forall i :: 0 <= i < |xs| ==> xs[i] < |t.procs|
    decreases |xs|
  {
    if xs == [] then true
    else if t.procs[xs[0]].parent == p then
      TouchPartition(t.procs, t.lists, xs[0], t.procs[xs[0]].(parent := init));
      var u := Touch(t, xs[0], t.procs[xs[0]].(parent := init));
      WakeChecks(u, u.lists[SLEEP], ChanOf(init)) && ZombieChecks(Wakeup1(u, ChanOf(init)), xs[1..], p, init)
    else ZombieChecks(t, xs[1..], p, init)
  }

  // The checks of exit: those of its wakeups, and its own removal when they are done.
  predicate ExitChecks(t: Table, p: nat, init: int)
    requires Ok(t) && p < |t.procs|
  {
    && WakeChecks(t, t.lists[SLEEP], ChanOf(t.procs[p].parent))
    && Removable(Orphaned(t, p, init), RUNNING, p, Running)
    && var t1 := Wakeup1(t, ChanOf(t.procs[p].parent));
       var t2 := AdoptLists(t1, ADOPT_LISTS, p, init);
       AdoptListsOk(t1, ADOPT_LISTS, p, init);
       ZombieChecks(t2, t2.lists[ZOMBIE], p, init)
  }

  // The checks of kill, which takes a sleeper off its list.
  predicate KillChecks(t: Table, pid: nat)
    requires Ok(t)
  {
    var p := FindPid(t.procs, t.lists[SLEEP], pid);
    p != NULL ==> Removable(t, SLEEP, p, Sleeping)
  }

  // The checks of setpriority, which takes a process off the ready queue it is found on, whatever
  // its priority field says.
  predicate PriorityChecks(t: Table, pid: int, priority: int)
    requires Ok(t)
  {
    0 <= pid <= 32767 && 0 <= priority <= MAX ==>
      forall l, p :: 0 <= l <= MAX && 0 <= p < |t.procs| && On(t.lists, l, p) && t.procs[p].pid == pid ==>
        Removable(t, t.procs[p].priority, p, Runnable) && l == t.procs[p].priority
  }

  // The list-removal and assertstate checks the source makes on the way; it panics if one fails.
  predicate ChecksPass(m: Machine, ev: Event)
    requires Enabled(m, ev)
  {
    match ev
    case Alloc(c) => Removable(m.t, FREE, m.t.lists[FREE][0], Unused)
    case GiveBack(c) => Removable(m.t, EMBRYO, Slot(m, c), Embryo)
    case ForkDone(c) => Removable(m.t, EMBRYO, Slot(m, c), Embryo)
    case Yield(c, _) => Removable(m.t, RUNNING, Self(m, c), Running)
    case Sleep(c, _, _) => Removable(m.t, RUNNING, Self(m, c), Running)
    case Wakeup(chan) => WakeChecks(m.t, m.t.lists[SLEEP], chan)
    case Exit(c) => ExitChecks(m.t, Self(m, c), m.init)
    case Wait(c) => Removable(m.t, ZOMBIE, WaitPass(m.t, Self(m, c)).child, Zombie)
    case Kill(pid) => KillChecks(m.t, pid)
    case SetPriority(pid, priority) => PriorityChecks(m.t, pid, priority)
    case Dispatch(_, level, _) =>
      Removable(m.t, level, m.t.lists[level][0], Runnable) && m.t.procs[m.t.lists[level][0]].priority == level
    case Prepare(_) => true      // these three make no check
    case SetParent(_) => true
    case Promote(_) => true
  }

  function Do(m: Machine, ev: Event): Machine
    requires Enabled(m, ev)
  {
    match ev
    case Alloc(c) => m.(t := Allocated(m.t), np := m.np[Self(m, c) := m.t.lists[FREE][0]])
    case Prepare(c) =>
      m.(t := Touch(m.t, Slot(m, c), m.t.procs[Slot(m, c)].(priority := DEFAULT_PRIORITY, budget := DEFAULT_BUDGET)))
    case SetParent(c) => m.(t := Touch(m.t, Slot(m, c), m.t.procs[Slot(m, c)].(parent := Self(m, c))))
    case GiveBack(c) => m.(t := Unallocated(m.t, Slot(m, c)), np := m.np[Self(m, c) := NULL])
    case ForkDone(c) => m.(t := MadeReady(m.t, Slot(m, c)), np := m.np[Self(m, c) := NULL])
    case Yield(c, ticks) => m.(t := Yielded(m.t, Self(m, c), ticks), cur := m.cur[c := NULL])
    case Sleep(c, chan, ticks) => m.(t := Slept(m.t, Self(m, c), chan, ticks), cur := m.cur[c := NULL])
    case Wakeup(chan) => m.(t := Wakeup1(m.t, chan))
    case Exit(c) => m.(t := Exited(m.t, Self(m, c), m.init), cur := m.cur[c := NULL])
    case Wait(c) => m.(t := Reaped(m.t, WaitPass(m.t, Self(m, c)).child))
    case Kill(pid) => m.(t := Killed(m.t, pid).1)
    case SetPriority(pid, priority) => m.(t := Prioritised(m.t, pid, priority).1)
    case Dispatch(c, level, ticks) =>
      m.(t := Dispatched(m.t, m.t.lists[level][0], ticks), cur := m.cur[c := m.t.lists[level][0]])
    case Promote(ticks) => m.(t := Promoted(m.t, ticks))
  }

  // ---- the invariant ----

  // A CPU runs a process that is Running, no process runs on two CPUs, and every Running process
  // runs on some CPU.
  predicate CpusOk(procs: seq<Proc>, cur: seq<int>) {
    && (forall c :: 0 <= c < |cur| ==> cur[c] == NULL || (0 <= cur[c] < |procs| && procs[cur[c]].state.Running?))
    && (forall c, d :: 0 <= c < d < |cur| && cur[c] != NULL ==> cur[c] != cur[d])
    && (forall p :: 0 <= p < |procs| && procs[p].state.Running? ==> p in cur)
  }

  // The slot of an unfinished fork is an Embryo, and belongs to one fork.
  predicate ForksOk(procs: seq<Proc>, np: seq<int>) {
    && |np| == |procs|
    && (forall p :: 0 <= p < |np| ==>
       np[p] == NULL ||
       (0 <= np[p] < |procs| && procs[np[p]].state.Embryo? && Live(procs[p]) && !procs[p].state.Embryo?))
    && (forall p, q :: 0 <= p < q < |np| && np[p] != NULL ==> np[p] != np[q])
  }

  predicate Rest(procs: seq<Proc>, nextpid: nat, cur: seq<int>, np: seq<int>) {
    CpusOk(procs, cur) && ForksOk(procs, np) && FreeHaveNoParent(procs) && PidsOk(procs, nextpid)
  }

  predicate Inv(m: Machine) {
    Ok(m.t) && m.init < |m.t.procs| && m.t.nextpid > 0 && Rest(m.t.procs, m.t.nextpid, m.cur, m.np)
  }

  // A change that matters to none of this: waking a sleeper, another priority, parent or flag.
  predicate SameRole(a: Proc, b: Proc) {
    && a.pid == b.pid && a.state.Running? == b.state.Running? && a.state.Embryo? == b.state.Embryo?
    && a.state.Unused? == b.state.Unused? && a.state.Zombie? == b.state.Zombie?
    && (a.state.Unused? ==> a.parent == b.parent)
  }

  lemma RestSameRoles(procs: seq<Proc>, procs': seq<Proc>, nextpid: nat, cur: seq<int>, np: seq<int>)
    requires Rest(procs, nextpid, cur, np) && |procs'| == |procs|
    requires forall x :: 0 <= x < |procs| ==> SameRole(procs[x], procs'[x])
    ensures Rest(procs', nextpid, cur, np)
  {}

  lemma RestAlloc(procs: seq<Proc>, nextpid: nat, cur: seq<int>, np: seq<int>, p: nat, x: nat)
    requires Rest(procs, nextpid, cur, np) && p < |procs| && x < |procs|
    requires procs[p].state.Running? && np[p] == NULL && procs[x].state.Unused? && nextpid > 0
    ensures Rest(procs[x := procs[x].(state := Embryo, pid := nextpid)], nextpid + 1, cur, np[p := x])
  {}

  // The slot of p's fork leaves the Embryo state.
  lemma RestHandOver(procs: seq<Proc>, nextpid: nat, cur: seq<int>, np: seq<int>, p: nat, s: ProcState)
    requires Rest(procs, nextpid, cur, np) && p < |procs| && 0 <= np[p] < |procs|
    requires s.Runnable? || (s.Unused? && procs[np[p]].parent == NULL)
    ensures Rest(procs[np[p] := procs[np[p]].(state := s)], nextpid, cur, np[p := NULL])
  {}

  // The process on CPU c stops running.
  lemma RestStops(procs: seq<Proc>, nextpid: nat, cur: seq<int>, np: seq<int>, c: nat, q: Proc)
    requires Rest(procs, nextpid, cur, np) && c < |cur| && 0 <= cur[c] < |procs|
    requires q.pid == procs[cur[c]].pid && (q.state.Runnable? || q.state.Sleeping? ||
             (q.state.Zombie? && np[cur[c]] == NULL))
    ensures Rest(procs[cur[c] := q], nextpid, cur[c := NULL], np)
  {
    var cur', procs' := cur[c := NULL], procs[cur[c] := q];
    forall p | 0 <= p < |procs'| && procs'[p].state.Running? ensures p in cur' {
      assert p in cur;
      var d :| 0 <= d < |cur| && cur[d] == p;
      assert cur'[d] == p;
    }
  }

  lemma RestStarts(procs: seq<Proc>, nextpid: nat, cur: seq<int>, np: seq<int>, c: nat, p: nat, q: Proc)
    requires Rest(procs, nextpid, cur, np) && c < |cur| && cur[c] == NULL && p < |procs|
    requires procs[p].state.Runnable? && q.state.Running? && q.pid == procs[p].pid
    ensures Rest(procs[p := q], nextpid, cur[c := p], np)
  {
    var cur', procs' := cur[c := p], procs[p := q];
    forall x | 0 <= x < |procs'| && procs'[x].state.Running? ensures x in cur' {
      if x == p {
        assert cur'[c] == p;
      } else {
        assert x in cur;
        var d :| 0 <= d < |cur| && cur[d] == x;
        assert cur'[d] == x;
      }
    }
  }

  lemma RestReaps(procs: seq<Proc>, nextpid: nat, cur: seq<int>, np: seq<int>, x: nat)
    requires Rest(procs, nextpid, cur, np) && x < |procs| && procs[x].state.Zombie?
    ensures Rest(procs[x := FreedSlot(procs[x])], nextpid, cur, np)
  {}

  // ---- every step keeps the invariant, and none panics ----

  lemma {:induction false} WakeChecksPass(t: Table, xs: seq<nat>, chan: int)
    requires Ok(t) && Distinct(xs) && forall i :: 0 <= i < |xs| ==> xs[i] < |t.procs| && t.procs[xs[i]].state.Sleeping?
    ensures WakeChecks(t, xs, chan)
    decreases |xs|
  {
    if xs != [] {
      assert Distinct(xs[1..]);
      if t.procs[xs[0]].chan == chan {
        assert On(t.lists, SLEEP, xs[0]);
        TransitOk(t, xs[0], t.procs[xs[0]].(state := Runnable), false);
        WakeChecksPass(Woken(t, xs[0]), xs[1..], chan);
      } else {
        WakeChecksPass(t, xs[1..], chan);
      }
    }
  }

  lemma WakeupChecksPass(t: Table, chan: int)
    requires Ok(t)
    ensures WakeChecks(t, t.lists[SLEEP], chan)
  {
    forall i | 0 <= i < |t.lists[SLEEP]| ensures t.procs[t.lists[SLEEP][i]].state.Sleeping? {
      assert On(t.lists, SLEEP, t.lists[SLEEP][i]);
    }
    WakeChecksPass(t, t.lists[SLEEP], chan);
  }

  lemma {:induction false} ZombieChecksPass(t: Table, xs: seq<nat>, p: int, init: int)
    requires Ok(t) && forall i :: 0 <= i < |xs| ==> xs[i] < |t.procs|
    ensures ZombieChecks(t, xs, p, init)
    decreases |xs|
  {
    if xs != [] {
      if t.procs[xs[0]].parent == p {
        var q := t.procs[xs[0]].(parent := init);
        TouchPartition(t.procs, t.lists, xs[0], q);
        WakeupChecksPass(Touch(t, xs[0], q), ChanOf(init));
        ZombieChecksPass(Wakeup1(Touch(t, xs[0], q), ChanOf(init)), xs[1..], p, init);
      } else {
        ZombieChecksPass(t, xs[1..], p, init);
      }
    }
  }

  lemma ExitChecksPass(t: Table, p: nat, init: int)
    requires Ok(t) && p < |t.procs| && FreeHaveNoParent(t.procs) && t.procs[p].state.Running?
    ensures ExitChecks(t, p, init)
  {
    var t1 := Wakeup1(t, ChanOf(t.procs[p].parent));
    WakeupChecksPass(t, ChanOf(t.procs[p].parent));
    AdoptListsOk(t1, ADOPT_LISTS, p, init);
    var t2 := AdoptLists(t1, ADOPT_LISTS, p, init);
    ZombieChecksPass(t2, t2.lists[ZOMBIE], p, init);
    StillRunning(t, p, init);
    assert On(Orphaned(t, p, init).lists, RUNNING, p);
  }

  lemma ExitRole(procs: seq<Proc>, p: nat, init: int, x: nat)
    requires p < |procs| && x < |procs| && FreeHaveNoParent(procs)
    ensures var e := ExitEffect(procs, p, init)[x];
            if x == p then e.state.Zombie? && e.pid == procs[p].pid else SameRole(procs[x], e)
  {}

  lemma ExitInv(m: Machine, c: nat)
    requires Inv(m) && Enabled(m, Exit(c))
    ensures Inv(Do(m, Exit(c)))
  {
    var p, t := Self(m, c), m.t;
    ExitRefinesScan(t, p, m.init);
    ExitNextpid(t, p, m.init);
    var e := ExitEffect(t.procs, p, m.init);
    var mid := e[p := t.procs[p]];
    forall x | 0 <= x < |mid| ensures SameRole(t.procs[x], mid[x]) {
      ExitRole(t.procs, p, m.init, x);
    }
    ExitRole(t.procs, p, m.init, p);
    RestSameRoles(t.procs, mid, t.nextpid, m.cur, m.np);
    RestStops(mid, t.nextpid, m.cur, m.np, c, e[p]);
    assert mid[p := e[p]] == e;
  }

  lemma ExitNextpid(t: Table, p: nat, init: int)
    requires Ok(t) && p < |t.procs|
    ensures Exited(t, p, init).nextpid == t.nextpid
  {
    var t1 := Wakeup1(t, ChanOf(t.procs[p].parent));
    WakeupRefinesScan(t, ChanOf(t.procs[p].parent));
    AdoptListsOk(t1, ADOPT_LISTS, p, init);
    AdoptListsProc(t1, ADOPT_LISTS, p, init, p);
    var t2 := AdoptLists(t1, ADOPT_LISTS, p, init);
    AdoptZombiesNextpid(t2, t2.lists[ZOMBIE], p, init);
  }

  lemma {:induction false} AdoptZombiesNextpid(t: Table, xs: seq<nat>, p: int, init: int)
    requires Ok(t) && forall i :: 0 <= i < |xs| ==> xs[i] < |t.procs|
    ensures AdoptZombies(t, xs, p, init).nextpid == t.nextpid
    decreases |xs|
  {
    if xs != [] {
      if t.procs[xs[0]].parent == p {
        var c := t.procs[xs[0]].(parent := init);
        TouchPartition(t.procs, t.lists, xs[0], c);
        WakeupRefinesScan(Touch(t, xs[0], c), ChanOf(init));
        AdoptZombiesNextpid(Wakeup1(Touch(t, xs[0], c), ChanOf(init)), xs[1..], p, init);
      } else {
        AdoptZombiesNextpid(t, xs[1..], p, init);
      }
    }
  }

  lemma QuietInv(m: Machine, u: Table)
    requires Inv(m) && Ok(u) && |u.procs| == |m.t.procs| && u.nextpid == m.t.nextpid
    requires forall x :: 0 <= x < |u.procs| ==> SameRole(m.t.procs[x], u.procs[x])
    ensures Inv(m.(t := u))
  {
    RestSameRoles(m.t.procs, u.procs, u.nextpid, m.cur, m.np);
  }

  lemma WakeupInv(m: Machine, chan: int)
    requires Inv(m)
    ensures Inv(m.(t := Wakeup1(m.t, chan)))
  {
    WakeupRefinesScan(m.t, chan);
    QuietInv(m, Wakeup1(m.t, chan));
  }

  lemma KilledRoles(t: Table, pid: nat)
    requires Ok(t)
    ensures var u := Killed(t, pid).1;
            u.nextpid == t.nextpid && forall x :: 0 <= x < |t.procs| ==> SameRole(t.procs[x], u.procs[x])
  {
    var s := FindPid(t.procs, t.lists[SLEEP], pid);
    if s != NULL {
      assert On(t.lists, SLEEP, s);
    }
  }

  lemma KillChecksPass(t: Table, pid: nat)
    requires Ok(t)
    ensures KillChecks(t, pid)
  {
    var s := FindPid(t.procs, t.lists[SLEEP], pid);
    if s != NULL { assert On(t.lists, SLEEP, s); }
  }

  lemma KillInv(m: Machine, pid: nat)
    requires Inv(m)
    ensures Inv(m.(t := Killed(m.t, pid).1))
  {
    KilledRoles(m.t, pid);
    QuietInv(m, Killed(m.t, pid).1);
  }

  lemma PrioritisedRoles(t: Table, pid: int, priority: int)
    requires Ok(t)
    ensures var u := Prioritised(t, pid, priority).1;
            u.nextpid == t.nextpid && forall x :: 0 <= x < |t.procs| ==> SameRole(t.procs[x], u.procs[x])
  {
    if 0 <= pid <= 32767 && 0 <= priority <= MAX {
      var p := FindInLists(t, PRIO_LISTS, pid);
    }
  }

  lemma SetPriorityInv(m: Machine, pid: int, priority: int)
    requires Inv(m)
    ensures Inv(m.(t := Prioritised(m.t, pid, priority).1))
  {
    PrioritisedRoles(m.t, pid, priority);
    QuietInv(m, Prioritised(m.t, pid, priority).1);
  }

  lemma PromoteInv(m: Machine, ticks: nat)
    requires Inv(m)
    ensures Inv(m.(t := Promoted(m.t, ticks)))
  {
    PromotionShifts(m.t, ticks);
    QuietInv(m, Promoted(m.t, ticks));
  }

  // fork's own writes to its slot.
  lemma SlotInv(m: Machine, c: nat, q: Proc)
    requires Inv(m) && Forking(m, c) && q.state.Embryo? && q.pid == m.t.procs[Slot(m, c)].pid && q.priority <= MAX
    ensures Inv(m.(t := Touch(m.t, Slot(m, c), q)))
  {
    TouchPartition(m.t.procs, m.t.lists, Slot(m, c), q);
    QuietInv(m, Touch(m.t, Slot(m, c), q));
  }

  lemma AllocInv(m: Machine, c: nat)
    requires Inv(m) && Enabled(m, Alloc(c))
    ensures Inv(Do(m, Alloc(c)))
  {
    var t, x := m.t, m.t.lists[FREE][0];
    assert On(t.lists, FREE, x);
    TransitOk(t, x, t.procs[x].(state := Embryo, pid := t.nextpid), true);
    RestAlloc(t.procs, t.nextpid, m.cur, m.np, Self(m, c), x);
  }

  lemma HandOverInv(m: Machine, c: nat)
    requires Inv(m) && Forking(m, c)
    ensures Inv(Do(m, ForkDone(c)))
    ensures Enabled(m, GiveBack(c)) ==> Inv(Do(m, GiveBack(c)))
  {
    var t, x := m.t, Slot(m, c);
    assert On(t.lists, EMBRYO, x);
    TransitOk(t, x, t.procs[x].(state := Runnable), false);
    RestHandOver(t.procs, t.nextpid, m.cur, m.np, Self(m, c), Runnable);
    TransitOk(t, x, t.procs[x].(state := Unused), true);
    if t.procs[x].parent == NULL { RestHandOver(t.procs, t.nextpid, m.cur, m.np, Self(m, c), Unused); }
  }

  lemma StopInv(m: Machine, c: nat, q: Proc, front: bool)
    requires Inv(m) && OnCpu(m, c) && q.pid == m.t.procs[Self(m, c)].pid && (q.state.Runnable? || q.state.Sleeping?) &&
             q.priority <= MAX
    ensures Inv(m.(t := Transit(m.t, Self(m, c), q, front), cur := m.cur[c := NULL]))
  {
    assert On(m.t.lists, RUNNING, Self(m, c));
    TransitOk(m.t, Self(m, c), q, front);
    RestStops(m.t.procs, m.t.nextpid, m.cur, m.np, c, q);
  }

  lemma WaitInv(m: Machine, c: nat)
    requires Inv(m) && Enabled(m, Wait(c))
    ensures Inv(Do(m, Wait(c)))
  {
    var t := m.t;
    WaitRefinesScan(t, Self(m, c));
    var x := WaitPass(t, Self(m, c)).child;
    TransitOk(t, x, FreedSlot(t.procs[x]), true);
    RestReaps(t.procs, t.nextpid, m.cur, m.np, x);
  }

  lemma DispatchInv(m: Machine, c: nat, level: nat, ticks: nat)
    requires Inv(m) && Enabled(m, Dispatch(c, level, ticks))
    ensures Inv(Do(m, Dispatch(c, level, ticks)))
  {
    var t, x := m.t, m.t.lists[level][0];
    assert On(t.lists, level, x);
    var q := t.procs[x].(state := Running, ticksIn := ticks);
    TransitOk(t, x, q, true);
    RestStarts(t.procs, t.nextpid, m.cur, m.np, c, x, q);
  }

  lemma StepKeeps(m: Machine, ev: Event)
    requires Inv(m) && Enabled(m, ev)
    ensures Inv(Do(m, ev)) == true
  {
    match ev
    case Alloc(c) => AllocInv(m, c);
    case Prepare(c) => SlotInv(m, c, m.t.procs[Slot(m, c)].(priority := DEFAULT_PRIORITY, budget := DEFAULT_BUDGET));
    case SetParent(c) => SlotInv(m, c, m.t.procs[Slot(m, c)].(parent := Self(m, c)));
    case GiveBack(c) => HandOverInv(m, c);
    case ForkDone(c) => HandOverInv(m, c);
    case Yield(c, ticks) => StopInv(m, c, Charged(m.t.procs[Self(m, c)], ticks).(state := Runnable), false);
    case Sleep(c, chan, ticks) =>
      StopInv(m, c, Charged(m.t.procs[Self(m, c)], ticks).(state := Sleeping, chan := chan), true);
    case Wakeup(chan) => WakeupInv(m, chan);
    case Exit(c) => ExitInv(m, c);
    case Wait(c) => WaitInv(m, c);
    case Kill(pid) => KillInv(m, pid);
    case SetPriority(pid, priority) => SetPriorityInv(m, pid, priority);
    case Dispatch(c, level, ticks) => DispatchInv(m, c, level, ticks);
    case Promote(ticks) => PromoteInv(m, ticks);
  }

  // A process in state st is on the list of that state.
  lemma Listed(t: Table, l: nat, p: int, st: ProcState)
    requires Ok(t) && 0 <= p < |t.procs| && t.procs[p].state == st && l == ListOf(t.procs[p])
    ensures Removable(t, l, p, st)
  {}

  lemma ReapChecksPass(t: Table, p: nat)
    requires Ok(t) && p < |t.procs| && WaitPass(t, p).Reap?
    ensures Removable(t, ZOMBIE, WaitPass(t, p).child, Zombie)
  {
    assert On(t.lists, ZOMBIE, WaitPass(t, p).child);
  }

  lemma FirstRemovable(t: Table, l: nat)
    requires Ok(t) && l < NLISTS && t.lists[l] != []
    ensures l == FREE ==> Removable(t, l, t.lists[l][0], Unused)
    ensures l <= MAX ==> Removable(t, l, t.lists[l][0], Runnable) && t.procs[t.lists[l][0]].priority == l
  {
    assert On(t.lists, l, t.lists[l][0]);
  }

  lemma StepChecks(m: Machine, ev: Event)
    requires Inv(m) && Enabled(m, ev)
    ensures ChecksPass(m, ev) == true
  {
    match ev
    case Alloc(c) => FirstRemovable(m.t, FREE);
    case Prepare(c) =>
    case SetParent(c) =>
    case GiveBack(c) => Listed(m.t, EMBRYO, Slot(m, c), Embryo);
    case ForkDone(c) => Listed(m.t, EMBRYO, Slot(m, c), Embryo);
    case Yield(c, ticks) => Listed(m.t, RUNNING, Self(m, c), Running);
    case Sleep(c, chan, ticks) => Listed(m.t, RUNNING, Self(m, c), Running);
    case Wakeup(chan) => WakeupChecksPass(m.t, chan);
    case Exit(c) => ExitChecksPass(m.t, Self(m, c), m.init);
    case Wait(c) => ReapChecksPass(m.t, Self(m, c));
    case Kill(pid) => KillChecksPass(m.t, pid);
    case SetPriority(pid, priority) =>
    case Dispatch(c, level, ticks) => FirstRemovable(m.t, level);
    case Promote(ticks) =>
  }

  lemma StepInv(m: Machine, ev: Event)
    requires Inv(m) && Enabled(m, ev)
    ensures Inv(Do(m, ev)) == true
    ensures ChecksPass(m, ev) == true
  {
    StepKeeps(m, ev);
    StepChecks(m, ev);
  }

  // ---- runs ----

  // userinit has run and no CPU has entered its scheduler yet.
  predicate Booted(m: Machine) {
    && BootedTable(m.t, m.init) && |m.np| == |m.t.procs|
    && (forall c :: 0 <= c < |m.cur| ==> m.cur[c] == NULL)
    && (forall p :: 0 <= p < |m.np| ==> m.np[p] == NULL)
  }

  // ms[i + 1] follows from ms[i] by event evs[i].
  predicate IsRun(ms: seq<Machine>, evs: seq<Event>) {
    |ms| == |evs| + 1 && forall i :: 0 <= i < |evs| ==> Enabled(ms[i], evs[i]) && ms[i + 1] == Do(ms[i], evs[i])
  }

  lemma {:induction false} InvRuns(ms: seq<Machine>, evs: seq<Event>, i: nat)
    requires IsRun(ms, evs) && Booted(ms[0]) && i <= |evs|
    ensures Inv(ms[i]) == true
  {
    if i > 0 {
      InvRuns(ms, evs, i - 1);
      StepInv(ms[i - 1], evs[i - 1]);
    }
  }

  // In every run, whenever ptable.lock is free: every process is on exactly one list, that of its
  // state, and a Runnable one on the queue of its priority; CPUs and forks refer to processes in
  // the right state; and the next critical section meets no failing check.
  lemma PartitionRuns(ms: seq<Machine>, evs: seq<Event>, i: nat)
    requires IsRun(ms, evs) && Booted(ms[0]) && i <= |evs|
    ensures Partition(ms[i].t.procs, ms[i].t.lists)
    ensures CpusOk(ms[i].t.procs, ms[i].cur) && ForksOk(ms[i].t.procs, ms[i].np)
    ensures FreeHaveNoParent(ms[i].t.procs) && PidsOk(ms[i].t.procs, ms[i].t.nextpid)
    ensures forall ev :: Enabled(ms[i], ev) ==> ChecksPass(ms[i], ev)
  {
    InvRuns(ms, evs, i);
    forall ev | Enabled(ms[i], ev) ensures ChecksPass(ms[i], ev) { StepInv(ms[i], ev); }
  }
}
