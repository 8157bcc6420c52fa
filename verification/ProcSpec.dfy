/** The process table of proc.c: process states, the eleven state lists, and what each critical
    section under ptable.lock does to them. */
module ProcSpec {
  import opened Sequences

  const MAX := 5                    // lowest priority level
  const DEFAULT_PRIORITY := 0
  const DEFAULT_BUDGET := 300
  const TICKS_TO_PROMOTE := 1100
  const TWO32 := 0x1_0000_0000
  const NULL := -1

  datatype ProcState = Unused | Embryo | Sleeping | Runnable | Running | Zombie

  // The fields of struct proc that scheduling works with; budget and ticks are 32-bit unsigned.
  datatype Proc = Proc(state: ProcState, pid: nat, parent: int, chan: int, killed: bool,
                       priority: nat, budget: nat, ticksIn: nat)

  // Lists 0 to MAX are the ready queues.
  const FREE := 6
  const EMBRYO := 7
  const SLEEP := 8
  const RUNNING := 9
  const ZOMBIE := 10
  const NLISTS := 11

  // The list a process belongs on.
  function ListOf(p: Proc): nat {
    match p.state
    case Unused => FREE
    case Embryo => EMBRYO
    case Sleeping => SLEEP
    case Runnable => p.priority
    case Running => RUNNING
    case Zombie => ZOMBIE
  }

  type Lists = seq<seq<nat>>

  predicate On(lists: Lists, l: nat, p: nat)
    requires l < |lists|
  { p in lists[l] }

  predicate ListsOk(n: nat, lists: Lists) {
    && |lists| == NLISTS
    && (forall l :: 0 <= l < NLISTS ==> Distinct(lists[l]))
    && (forall l, i :: 0 <= l < NLISTS && 0 <= i < |lists[l]| ==> lists[l][i] < n)
  }

  // Every process is on exactly one list, once, and it is the list of its state (and priority).
  predicate Partition(procs: seq<Proc>, lists: Lists) {
    && ListsOk(|procs|, lists)
    && (forall p :: 0 <= p < |procs| ==> procs[p].priority <= MAX)
    && (forall p, l :: 0 <= p < |procs| && 0 <= l < NLISTS ==> (On(lists, l, p) <==> l == ListOf(procs[p])))
  }

  function Remove(lists: Lists, l: nat, p: nat): Lists
    requires l < |lists|
  { lists[l := Without(lists[l], p)] }

  function Push(lists: Lists, l: nat, p: nat): Lists
    requires l < |lists|
  { lists[l := [p] + lists[l]] }

  function Append(lists: Lists, l: nat, p: nat): Lists
    requires l < |lists|
  { lists[l := lists[l] + [p]] }

  // Take p off its list, change it to q, and put it on the list of q, in front or at the end.
  function Moved(lists: Lists, p: nat, from: nat, to: nat, front: bool): Lists
    requires from < |lists| && to < |lists|
  {
    if front then Push(Remove(lists, from, p), to, p) else Append(Remove(lists, from, p), to, p)
  }

  lemma RemoveOk(n: nat, lists: Lists, l: nat, p: nat)
    requires ListsOk(n, lists) && l < NLISTS
    ensures var ls := Remove(lists, l, p);
            && ListsOk(n, ls)
            && forall x, k :: 0 <= x < n && 0 <= k < NLISTS ==>
               (On(ls, k, x) <==> On(lists, k, x) && (k != l || x != p))
  {
    WithoutFacts(lists[l], p);
    var w := Without(lists[l], p);
    forall i | 0 <= i < |w| ensures w[i] < n { assert w[i] in w; }
  }

  lemma AddOk(n: nat, lists: Lists, l: nat, p: nat, front: bool)
    requires ListsOk(n, lists) && l < NLISTS && p < n && !On(lists, l, p)
    ensures var ls := if front then Push(lists, l, p) else Append(lists, l, p);
            && ListsOk(n, ls)
            && forall x, k :: 0 <= x < n && 0 <= k < NLISTS ==>
               (On(ls, k, x) <==> On(lists, k, x) || (k == l && x == p))
  {}

  lemma MovedOk(n: nat, lists: Lists, p: nat, from: nat, to: nat, front: bool)
    requires ListsOk(n, lists) && from < NLISTS && to < NLISTS && p < n
    requires forall l :: 0 <= l < NLISTS && l != from ==> !On(lists, l, p)
    ensures var ls := Moved(lists, p, from, to, front);
            && ListsOk(n, ls)
            && forall x, l :: 0 <= x < n && 0 <= l < NLISTS ==>
                 (On(ls, l, x) <==> if x == p then l == to else On(lists, l, x))
  {
    var r, ls := Remove(lists, from, p), Moved(lists, p, from, to, front);
    RemoveOk(n, lists, from, p);
    AddOk(n, r, to, p, front);
    forall x, l | 0 <= x < n && 0 <= l < NLISTS
      ensures On(ls, l, x) <==> if x == p then l == to else On(lists, l, x)
    {
      assert On(ls, l, x) <==> On(r, l, x) || (l == to && x == p);
    }
  }

  // A single transition keeps the partition, whatever it makes of the process.
  lemma MovePartition(procs: seq<Proc>, lists: Lists, p: nat, q: Proc, front: bool)
    requires Partition(procs, lists) && p < |procs| && q.priority <= MAX
    ensures Partition(procs[p := q], Moved(lists, p, ListOf(procs[p]), ListOf(q), front))
  {
    MovedOk(|procs|, lists, p, ListOf(procs[p]), ListOf(q), front);
  }

  // A change that leaves a process on its list keeps the partition.
  lemma TouchPartition(procs: seq<Proc>, lists: Lists, p: nat, q: Proc)
    requires Partition(procs, lists) && p < |procs| && q.priority <= MAX && ListOf(q) == ListOf(procs[p])
    ensures Partition(procs[p := q], lists)
  {}

  // ---- the table and its transitions ----

  datatype Table = Table(procs: seq<Proc>, lists: Lists, nextpid: nat, promoteAt: nat)

  predicate Ok(t: Table) { Partition(t.procs, t.lists) == true }   // one goal for the verifier, not one per conjunct

  // What userinit leaves: one Runnable process, init, on the first ready queue; every other slot free.
  predicate BootedTable(t: Table, init: nat) {
    && Ok(t) && init < |t.procs| && t.nextpid == 2 && t.promoteAt == TICKS_TO_PROMOTE
    && forall x :: 0 <= x < |t.procs| ==>
         if x == init then t.procs[x].state.Runnable? && t.procs[x].priority == 0 && t.procs[x].pid == 1
         else t.procs[x].state.Unused? && t.procs[x].parent == NULL && t.procs[x].pid == 0
  }

  // Move process p, as q, to the list of q.
  function Transit(t: Table, p: nat, q: Proc, front: bool): Table
    requires Ok(t) && p < |t.procs| && q.priority <= MAX
  {
    t.(procs := t.procs[p := q], lists := Moved(t.lists, p, ListOf(t.procs[p]), ListOf(q), front))
  }

  // Change process p without moving it.
  function Touch(t: Table, p: nat, q: Proc): Table
    requires p < |t.procs|
  { t.(procs := t.procs[p := q]) }

  lemma TransitOk(t: Table, p: nat, q: Proc, front: bool)
    requires Ok(t) && p < |t.procs| && q.priority <= MAX
    ensures Ok(Transit(t, p, q, front))
  {
    MovePartition(t.procs, t.lists, p, q, front);
  }

  // The channel wait() sleeps on: the address of a process.
  function ChanOf(p: int): int { p + 1 }

  // allocproc's critical section, on a free list that is not empty.
  function Allocated(t: Table): Table
    requires Ok(t) && t.lists[FREE] != []
  {
    var p := t.lists[FREE][0];
    Transit(t, p, t.procs[p].(state := Embryo, pid := t.nextpid), true).(nextpid := t.nextpid + 1)
  }

  // The failure paths of allocproc and fork give the slot back.
  function Unallocated(t: Table, p: nat): Table
    requires Ok(t) && p < |t.procs|
  { Transit(t, p, t.procs[p].(state := Unused), true) }

  // The end of fork (and of userinit).
  function MadeReady(t: Table, p: nat): Table
    requires Ok(t) && p < |t.procs|
  { Transit(t, p, t.procs[p].(state := Runnable), false) }

  // The scheduler takes p off its ready queue.
  function Dispatched(t: Table, p: nat, ticks: nat): Table
    requires Ok(t) && p < |t.procs|
  { Transit(t, p, t.procs[p].(state := Running, ticksIn := ticks), true) }

  // Budget accounting of yield and sleep, in 32-bit unsigned arithmetic; an exhausted budget costs
  // one priority level, unless the process is at the lowest.
  function Charged(p: Proc, ticks: nat): Proc {
    var b := (p.budget - (ticks - p.ticksIn)) % TWO32;
    if b == 0 then p.(priority := if p.priority != MAX then p.priority + 1 else p.priority, budget := DEFAULT_BUDGET)
    else p.(budget := b)
  }

  function Yielded(t: Table, p: nat, ticks: nat): Table
    requires Ok(t) && p < |t.procs|
  { Transit(t, p, Charged(t.procs[p], ticks).(state := Runnable), false) }

  function Slept(t: Table, p: nat, chan: int, ticks: nat): Table
    requires Ok(t) && p < |t.procs|
  { Transit(t, p, Charged(t.procs[p], ticks).(state := Sleeping, chan := chan), true) }

  function Woken(t: Table, p: nat): Table
    requires Ok(t) && p < |t.procs|
  { Transit(t, p, t.procs[p].(state := Runnable), false) }

  // wakeup1: walk the sleep list xs and move every process sleeping on chan.
  function WakeAll(t: Table, xs: seq<nat>, chan: int): (r: Table)
    requires Ok(t) && forall i :: 0 <= i < |xs| ==> xs[i] < |t.procs|
    ensures Ok(r) && |r.procs| == |t.procs|
    decreases |xs|
  {
    if xs == [] then t
    else if t.procs[xs[0]].chan == chan then
      TransitOk(t, xs[0], t.procs[xs[0]].(state := Runnable), false);
      WakeAll(Woken(t, xs[0]), xs[1..], chan)
    else WakeAll(t, xs[1..], chan)
  }

  function Wakeup1(t: Table, chan: int): (r: Table)
    requires Ok(t)
    ensures Ok(r) && |r.procs| == |t.procs|
  { WakeAll(t, t.lists[SLEEP], chan) }

  // wait() frees the zombie child c.
  function Reaped(t: Table, c: nat): Table
    requires Ok(t) && c < |t.procs|
  { Transit(t, c, t.procs[c].(state := Unused, pid := 0, parent := NULL, killed := false), true) }

  // adoptzombiechildren: children of p on list xs become children of init.
  function AdoptIn(procs: seq<Proc>, xs: seq<nat>, p: int, init: int): (r: seq<Proc>)
    requires forall i :: 0 <= i < |xs| ==> xs[i] < |procs|
    ensures |r| == |procs|
    decreases |xs|
  {
    if xs == [] then procs
    else
      var c := procs[xs[0]];
      AdoptIn(if c.parent == p then procs[xs[0] := c.(parent := init)] else procs, xs[1..], p, init)
  }

  // The lists exit() walks, in order, before the zombie list.
  const ADOPT_LISTS: seq<nat> := [EMBRYO, 0, 1, 2, 3, 4, 5, SLEEP, RUNNING]

  function AdoptLists(t: Table, ls: seq<nat>, p: int, init: int): (r: Table)
    requires Ok(t) && forall i :: 0 <= i < |ls| ==> ls[i] < NLISTS
    ensures |r.procs| == |t.procs| && r.lists == t.lists
    decreases |ls|
  {
    if ls == [] then t
    else
      var procs := AdoptIn(t.procs, t.lists[ls[0]], p, init);
      AdoptKeeps(t.procs, t.lists[ls[0]], p, init);
      ParentsKeepPartition(t.procs, procs, t.lists);
      AdoptLists(t.(procs := procs), ls[1..], p, init)
  }

  // Only parents change.
  predicate SameButParents(a: seq<Proc>, b: seq<Proc>) {
    |a| == |b| && forall i :: 0 <= i < |a| ==> a[i] == b[i].(parent := a[i].parent)
  }

  lemma {:induction false} AdoptKeeps(procs: seq<Proc>, xs: seq<nat>, p: int, init: int)
    requires forall i :: 0 <= i < |xs| ==> xs[i] < |procs|
    ensures SameButParents(AdoptIn(procs, xs, p, init), procs)
    decreases |xs|
  {
    if xs != [] {
      var c := procs[xs[0]];
      AdoptKeeps(if c.parent == p then procs[xs[0] := c.(parent := init)] else procs, xs[1..], p, init);
    }
  }

  lemma ParentsKeepPartition(a: seq<Proc>, b: seq<Proc>, lists: Lists)
    requires Partition(a, lists) && SameButParents(b, a)
    ensures Partition(b, lists)
  {
    forall i | 0 <= i < |a| ensures ListOf(b[i]) == ListOf(a[i]) && b[i].priority == a[i].priority {}
  }

  // The walk over the zombie list xs in exit(): adopt, and wake init for each child.
  function AdoptZombies(t: Table, xs: seq<nat>, p: int, init: int): (r: Table)
    requires Ok(t) && forall i :: 0 <= i < |xs| ==> xs[i] < |t.procs|
    ensures Ok(r) && |r.procs| == |t.procs|
    decreases |xs|
  {
    if xs == [] then t
    else if t.procs[xs[0]].parent == p then
      TouchPartition(t.procs, t.lists, xs[0], t.procs[xs[0]].(parent := init));
      AdoptZombies(Wakeup1(Touch(t, xs[0], t.procs[xs[0]].(parent := init)), ChanOf(init)), xs[1..], p, init)
    else AdoptZombies(t, xs[1..], p, init)
  }

  lemma {:induction false} AdoptListsOk(t: Table, ls: seq<nat>, p: int, init: int)
    requires Ok(t) && forall i :: 0 <= i < |ls| ==> ls[i] < NLISTS
    ensures Ok(AdoptLists(t, ls, p, init))
    decreases |ls|
  {
    if ls != [] {
      var procs := AdoptIn(t.procs, t.lists[ls[0]], p, init);
      AdoptKeeps(t.procs, t.lists[ls[0]], p, init);
      ParentsKeepPartition(t.procs, procs, t.lists);
      AdoptListsOk(t.(procs := procs), ls[1..], p, init);
    }
  }

  // exit()'s work for others: wake the parent, hand the children to init.
  function Orphaned(t: Table, p: nat, init: int): (r: Table)
    requires Ok(t) && p < |t.procs|
    ensures Ok(r) && |r.procs| == |t.procs|
  {
    var t1 := Wakeup1(t, ChanOf(t.procs[p].parent));
    var t2 := AdoptLists(t1, ADOPT_LISTS, p, init);
    AdoptListsOk(t1, ADOPT_LISTS, p, init);
    AdoptZombies(t2, t2.lists[ZOMBIE], p, init)
  }

  // exit()'s critical section for process p, up to the call of sched.
  function Exited(t: Table, p: nat, init: int): (r: Table)
    requires Ok(t) && p < |t.procs|
    ensures Ok(r) && |r.procs| == |t.procs|
  {
    var u := Orphaned(t, p, init);
    TransitOk(u, p, u.procs[p].(state := Zombie), true);
    Transit(u, p, u.procs[p].(state := Zombie), true)
  }

  // The first process on list xs with the given pid, or NULL.
  function FindPid(procs: seq<Proc>, xs: seq<nat>, pid: nat): (r: int)
    requires forall i :: 0 <= i < |xs| ==> xs[i] < |procs|
    ensures r == NULL ==> forall i :: 0 <= i < |xs| ==> procs[xs[i]].pid != pid
    ensures r != NULL ==> r in xs && 0 <= r < |procs| && procs[r].pid == pid
  {
    if xs == [] then NULL
    else if procs[xs[0]].pid == pid then xs[0]
    else FindPid(procs, xs[1..], pid)
  }

  function FindInLists(t: Table, ls: seq<nat>, pid: nat): (r: int)
    requires Ok(t) && forall i :: 0 <= i < |ls| ==> ls[i] < NLISTS
    ensures r == NULL ==> forall i, p :: 0 <= i < |ls| && 0 <= p < |t.procs| && On(t.lists, ls[i], p) ==>
            t.procs[p].pid != pid
    ensures r != NULL ==>
            0 <= r < |t.procs| && t.procs[r].pid == pid &&
            exists i :: 0 <= i < |ls| && On(t.lists, ls[i], r)
    decreases |ls|
  {
    if ls == [] then NULL
    else
      var r := FindPid(t.procs, t.lists[ls[0]], pid);
      if r != NULL then assert On(t.lists, ls[0], r); r
      else
        var r' := FindInLists(t, ls[1..], pid);
        assert r' != NULL ==> exists i :: 0 <= i < |ls| && On(t.lists, ls[i], r') by {
          if r' != NULL { var i :| 0 <= i < |ls[1..]| && On(t.lists, ls[1..][i], r'); assert ls[i + 1] == ls[1..][i]; }
        }
        r'
  }

  const KILL_LISTS: seq<nat> := [EMBRYO, 0, 1, 2, 3, 4, 5, RUNNING]

  // kill(): the sleep list first, then the other lists of live processes.
  function Killed(t: Table, pid: nat): (r: (int, Table))
    requires Ok(t)
    ensures Ok(r.1) && |r.1.procs| == |t.procs|
  {
    var p := FindPid(t.procs, t.lists[SLEEP], pid);
    if p != NULL then
      TransitOk(t, p, t.procs[p].(state := Runnable, killed := true), false);
      (0, Transit(t, p, t.procs[p].(state := Runnable, killed := true), false))
    else
      var p := FindInLists(t, KILL_LISTS, pid);
      if p != NULL then
        TouchPartition(t.procs, t.lists, p, t.procs[p].(killed := true));
        (0, Touch(t, p, t.procs[p].(killed := true)))
      else (-1, t)
  }

  // A running or sleeping process is changed in place, a ready one moves to the end of its new queue.
  function GivePriority(t: Table, p: nat, priority: nat): (r: Table)
    requires Ok(t) && p < |t.procs| && priority <= MAX
    ensures Ok(r)
    ensures r.procs == t.procs[p := t.procs[p].(priority := priority, budget := DEFAULT_BUDGET)] &&
            r.nextpid == t.nextpid
  {
    var q := t.procs[p].(priority := priority, budget := DEFAULT_BUDGET);
    if t.procs[p].state.Runnable? then
      TransitOk(t, p, q, false);
      Transit(t, p, q, false)
    else
      TouchPartition(t.procs, t.lists, p, q);
      Touch(t, p, q)
  }

  // The lists setpriority() searches, in order.
  const PRIO_LISTS: seq<nat> := [RUNNING, SLEEP, 0, 1, 2, 3, 4, 5]

  function Prioritised(t: Table, pid: int, priority: int): (r: (int, Table))
    requires Ok(t)
    ensures Ok(r.1) && |r.1.procs| == |t.procs|
  {
    if pid < 0 || pid > 32767 then (-2, t)
    else if priority < 0 || priority > MAX then (-3, t)
    else
      var p := FindInLists(t, PRIO_LISTS, pid);
      if p == NULL then (-4, t)
      else if t.procs[p].priority == priority then (-5, t)
      else (0, GivePriority(t, p, priority))
  }

  // ---- promotion ----

  function Raise(p: Proc): Proc {
    if p.priority != DEFAULT_PRIORITY then p.(priority := p.priority - 1) else p
  }

  // promotiononotherlists: raise every process on list xs.
  function RaiseIn(procs: seq<Proc>, xs: seq<nat>): (r: seq<Proc>)
    requires forall i :: 0 <= i < |xs| ==> xs[i] < |procs|
    ensures |r| == |procs|
    decreases |xs|
  {
    if xs == [] then procs else RaiseIn(procs[xs[0] := Raise(procs[xs[0]])], xs[1..])
  }

  // Set the priority of every process on list xs.
  function LevelIn(procs: seq<Proc>, xs: seq<nat>, level: nat): (r: seq<Proc>)
    requires forall i :: 0 <= i < |xs| ==> xs[i] < |procs|
    ensures |r| == |procs|
    decreases |xs|
  {
    if xs == [] then procs else LevelIn(procs[xs[0] := procs[xs[0]].(priority := level)], xs[1..], level)
  }

  // promotiononreadylists(j): queue j + 1 goes behind queue j.
  function Merged(t: Table, j: nat): Table
    requires Ok(t) && j < MAX
  {
    t.(procs := LevelIn(t.procs, t.lists[j + 1], j),
       lists := t.lists[j := t.lists[j] + t.lists[j + 1]][j + 1 := []])
  }

  lemma {:induction false} RaiseInFacts(procs: seq<Proc>, xs: seq<nat>, p: nat)
    requires Distinct(xs) && (forall i :: 0 <= i < |xs| ==> xs[i] < |procs|) && p < |procs|
    ensures RaiseIn(procs, xs)[p] == if p in xs then Raise(procs[p]) else procs[p]
    decreases |xs|
  {
    if xs != [] {
      assert xs[0] !in xs[1..];
      RaiseInFacts(procs[xs[0] := Raise(procs[xs[0]])], xs[1..], p);
    }
  }

  lemma {:induction false} LevelInFacts(procs: seq<Proc>, xs: seq<nat>, level: nat, p: nat)
    requires (forall i :: 0 <= i < |xs| ==> xs[i] < |procs|) && p < |procs|
    ensures LevelIn(procs, xs, level)[p] == if p in xs then procs[p].(priority := level) else procs[p]
    decreases |xs|
  {
    if xs != [] {
      LevelInFacts(procs[xs[0] := procs[xs[0]].(priority := level)], xs[1..], level, p);
    }
  }

  // Raising processes that are not on a ready queue moves nobody.
  lemma RaiseInOk(t: Table, l: nat)
    requires Ok(t) && MAX < l < NLISTS
    ensures Ok(t.(procs := RaiseIn(t.procs, t.lists[l])))
  {
    var procs := RaiseIn(t.procs, t.lists[l]);
    forall p | 0 <= p < |procs| ensures ListOf(procs[p]) == ListOf(t.procs[p]) && procs[p].priority <= MAX {
      RaiseInFacts(t.procs, t.lists[l], p);
      assert On(t.lists, l, p) <==> l == ListOf(t.procs[p]);
    }
  }

  lemma MergedProc(t: Table, j: nat, p: nat)
    requires Ok(t) && j < MAX && p < |t.procs|
    ensures Merged(t, j).procs[p] == if ListOf(t.procs[p]) == j + 1 then t.procs[p].(priority := j) else t.procs[p]
  {
    LevelInFacts(t.procs, t.lists[j + 1], j, p);
    assert On(t.lists, j + 1, p) <==> j + 1 == ListOf(t.procs[p]);
  }

  lemma MergedOn(t: Table, j: nat, p: nat, l: nat)
    requires Ok(t) && j < MAX && p < |t.procs| && l < NLISTS
    ensures On(Merged(t, j).lists, l, p) <==> l == ListOf(Merged(t, j).procs[p])
  {
    MergedProc(t, j, p);
    assert On(t.lists, l, p) <==> l == ListOf(t.procs[p]);
    assert On(t.lists, j + 1, p) <==> j + 1 == ListOf(t.procs[p]);
    assert On(t.lists, j, p) <==> j == ListOf(t.procs[p]);
  }

  lemma MergedOk(t: Table, j: nat)
    requires Ok(t) && j < MAX
    ensures Ok(Merged(t, j))
  {
    var r := Merged(t, j);
    var a, b := t.lists[j], t.lists[j + 1];
    assert Distinct(a + b) by {
      forall i, k | 0 <= i < |a| && 0 <= k < |b| ensures a[i] != b[k] {
        assert On(t.lists, j, a[i]) && On(t.lists, j + 1, b[k]);
      }
    }
    forall p | 0 <= p < |t.procs| ensures r.procs[p].priority <= MAX { MergedProc(t, j, p); }
    forall p, l | 0 <= p < |t.procs| && 0 <= l < NLISTS ensures On(r.lists, l, p) <==> l == ListOf(r.procs[p]) {
      MergedOn(t, j, p, l);
    }
  }

  // Merge the ready queues from level j on.
  function MergeFrom(t: Table, j: nat): (r: Table)
    requires Ok(t) && j <= MAX
    ensures Ok(r) && |r.procs| == |t.procs|
    decreases MAX - j
  {
    if j == MAX then t else MergedOk(t, j); MergeFrom(Merged(t, j), j + 1)
  }

  // The processes on list l, which is not a ready queue, are raised.
  function RaisedOn(t: Table, l: nat): (r: Table)
    requires Ok(t) && MAX < l < NLISTS
    ensures Ok(r) && |r.procs| == |t.procs|
  {
    RaiseInOk(t, l);
    t.(procs := RaiseIn(t.procs, t.lists[l]))
  }

  // The promotion the scheduler does when its time has come.
  function Promoted(t: Table, ticks: nat): (r: Table)
    requires Ok(t)
    ensures Ok(r) && |r.procs| == |t.procs|
  {
    MergeFrom(RaisedOn(RaisedOn(t, SLEEP), RUNNING), 0).(promoteAt := (ticks + TICKS_TO_PROMOTE) % TWO32)
  }

  // From level j on, every queue moves up one level, behind what is on level j already.
  lemma {:induction false} MergeLists(t: Table, j: nat)
    requires Ok(t) && j < MAX
    ensures var r := MergeFrom(t, j);
            && |r.lists| == NLISTS && r.nextpid == t.nextpid
            && r.lists[j] == t.lists[j] + t.lists[j + 1]
            && (forall l :: j < l < MAX ==> r.lists[l] == t.lists[l + 1])
            && r.lists[MAX] == []
            && (forall l :: (0 <= l < j || MAX < l < NLISTS) ==> r.lists[l] == t.lists[l])
    decreases MAX - j
  {
    MergedOk(t, j);
    if j + 1 < MAX { MergeLists(Merged(t, j), j + 1); }
  }

  lemma {:induction false} MergeProcs(t: Table, j: nat, p: nat)
    requires Ok(t) && j < MAX && p < |t.procs|
    ensures MergeFrom(t, j).procs[p] == if j < ListOf(t.procs[p]) <= MAX then Raise(t.procs[p]) else t.procs[p]
    decreases MAX - j
  {
    MergedOk(t, j);
    LevelInFacts(t.procs, t.lists[j + 1], j, p);
    assert On(t.lists, j + 1, p) <==> j + 1 == ListOf(t.procs[p]);
    if j + 1 < MAX { MergeProcs(Merged(t, j), j + 1, p); }
  }

  // Promotion shifts every ready queue up one level, the second behind the first, keeping order and
  // losing nobody; it raises by one the priority of every ready, sleeping or running process that is
  // not at the top, and touches nothing else.
  lemma PromotionShifts(t: Table, ticks: nat)
    requires Ok(t)
    ensures var r := Promoted(t, ticks);
            && r.lists == [t.lists[0] + t.lists[1], t.lists[2], t.lists[3], t.lists[4], t.lists[5],
               []] + t.lists[FREE..]
            && |r.procs| == |t.procs| && r.nextpid == t.nextpid && r.promoteAt == (ticks + TICKS_TO_PROMOTE) % TWO32
            && forall p :: 0 <= p < |t.procs| ==>
                 r.procs[p] == if t.procs[p].state in {Runnable, Sleeping, Running} then Raise(t.procs[p])
                     else t.procs[p]
  {
    PromotedLists(t, ticks);
    forall p | 0 <= p < |t.procs|
      ensures Promoted(t, ticks).procs[p] == if t.procs[p].state in {Runnable, Sleeping,
              Running} then Raise(t.procs[p]) else t.procs[p]
    {
      PromotedProc(t, ticks, p);
    }
  }

  lemma PromotedLists(t: Table, ticks: nat)
    requires Ok(t)
    ensures var r := Promoted(t, ticks);
            && r.lists == [t.lists[0] + t.lists[1], t.lists[2], t.lists[3], t.lists[4], t.lists[5],
               []] + t.lists[FREE..]
            && r.nextpid == t.nextpid
  {
    MergeLists(RaisedOn(RaisedOn(t, SLEEP), RUNNING), 0);
  }

  lemma PromotedProc(t: Table, ticks: nat, p: nat)
    requires Ok(t) && p < |t.procs|
    ensures Promoted(t, ticks).procs[p] == if t.procs[p].state in {Runnable, Sleeping, Running} then Raise(t.procs[p])
            else t.procs[p]
  {
    var t1 := RaisedOn(t, SLEEP);
    RaiseInFacts(t.procs, t.lists[SLEEP], p);
    RaiseInFacts(t1.procs, t.lists[RUNNING], p);
    assert On(t.lists, SLEEP, p) <==> SLEEP == ListOf(t.procs[p]);
    assert On(t1.lists, RUNNING, p) <==> RUNNING == ListOf(t1.procs[p]);
    MergeProcs(RaisedOn(t1, RUNNING), 0, p);
  }
}
