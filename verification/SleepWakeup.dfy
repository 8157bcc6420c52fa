/** sleep() and wakeup() of proc.c over the spin locks of spinlock.c, for any number of processes,
    locks, channels and conditions, one lock or table access per step.

    A condition has a channel and a lock. Callers keep to the rule the source states: they hold the
    condition's lock when they test or change it, call sleep() holding nothing else, and having made
    it true owe a wakeup() on its channel, before or after they let go of the lock. A process may also
    call sleep() with no lock, having tested the condition without one. */
module SleepWakeup {
  const PT := 0                // ptable.lock
  const NONE := -1

  datatype Config = Config(chan: seq<nat>, lock: seq<nat>)    // by condition

  datatype Pc =
    | Run                      // the caller's own code
    | WantPt(k: nat, lk: bool) // sleep(), with a lock if lk: about to acquire ptable.lock
    | HasBoth(k: nat)          // about to release the caller's lock
    | Going(k: nat, lk: bool)  // about to become SLEEPING and call sched()
    | Asleep(k: nat, lk: bool) // SLEEPING
    | Woken(k: nat, lk: bool)  // RUNNABLE inside sched()
    | Back(k: nat, lk: bool)   // sched() has returned, with ptable.lock held
    | WantLk(k: nat)           // about to acquire the caller's lock again
    | Waking(c: nat, i: nat, had: bool)   // wakeup1(): slots below i seen; had: entered with ptable.lock

  datatype State = State(pc: seq<Pc>, owner: seq<int>, cond: seq<bool>, debts: seq<set<nat>>)

  datatype Event =
    | Acquire(p: nat, l: nat)
    | Release(p: nat, l: nat)
    | Change(p: nat, k: nat, v: bool)
    | StartSleep(p: nat, k: nat)
    | StartSleepNull(p: nat, k: nat)      // sleep() with no lock
    | AcquirePt(p: nat)
    | ReleaseLk(p: nat)
    | GoToSleep(p: nat)
    | Resume(p: nat)
    | LeavePt(p: nat)
    | Reacquire(p: nat)
    | StartWakeup(p: nat, c: nat)
    | WakeSlot(p: nat)
    | EndWakeup(p: nat)
    | Kill(p: nat, q: nat)                // kill() makes a sleeping process RUNNABLE

  predicate Shaped(g: Config, s: State) {
    && |g.chan| == |g.lock| == |s.cond| && |s.debts| == |s.pc|
    && PT < |s.owner| && forall k :: 0 <= k < |g.lock| ==> g.lock[k] < |s.owner|
  }

  predicate Holds(s: State, p: nat, l: nat) { l < |s.owner| && s.owner[l] == p }

  // p holds lock l and no other.
  predicate HoldsOnly(s: State, p: nat, l: nat) { forall m :: 0 <= m < |s.owner| ==> (s.owner[m] == p <==> m == l) }

  predicate HoldsNothing(s: State, p: nat) { forall m :: 0 <= m < |s.owner| ==> s.owner[m] != p }

  predicate HoldsBoth(s: State, p: nat, l: nat)
      { forall m :: 0 <= m < |s.owner| ==> (s.owner[m] == p <==> m == PT || m == l) }

  predicate Free(s: State, l: nat) { l < |s.owner| && s.owner[l] == NONE }

  // p sleeps on channel c.
  predicate SleepsOn(g: Config, s: State, p: nat, c: nat) {
    p < |s.pc| && s.pc[p].Asleep? && s.pc[p].k < |g.chan| && g.chan[s.pc[p].k] == c
  }

  // No process in a slot below n sleeps on channel c.
  predicate NobodySleepsOn(g: Config, s: State, n: nat, c: nat) { forall j :: 0 <= j < n ==> !SleepsOn(g, s, j, c) }

  predicate Enabled(g: Config, s: State, ev: Event) {
    && Shaped(g, s) && ev.p < |s.pc|
    && match ev
       case Acquire(p, l) => s.pc[p].Run? && Free(s, l)
       case Release(p, l) => s.pc[p].Run? && Holds(s, p, l)
       case Change(p, k, _) => s.pc[p].Run? && k < |g.lock| && Holds(s, p, g.lock[k])
       case StartSleep(p, k) => s.pc[p].Run? && k < |g.lock| && HoldsOnly(s, p, g.lock[k]) && !s.cond[k]
       case StartSleepNull(p, k) => s.pc[p].Run? && k < |g.lock| && HoldsNothing(s, p) && !s.cond[k]
       case AcquirePt(p) => s.pc[p].WantPt? && Free(s, PT)
       case ReleaseLk(p) => s.pc[p].HasBoth? && s.pc[p].k < |g.lock|
       case GoToSleep(p) => s.pc[p].Going?
       case Resume(p) => s.pc[p].Woken? && Free(s, PT)
       case LeavePt(p) => s.pc[p].Back? && s.pc[p].k < |g.lock|
       case Reacquire(p) => s.pc[p].WantLk? && s.pc[p].k < |g.lock| && Free(s, g.lock[s.pc[p].k])
       case StartWakeup(p, _) => s.pc[p].Run? && (Free(s, PT) || Holds(s, p, PT))
       case WakeSlot(p) => s.pc[p].Waking? && s.pc[p].i < |s.pc|
       case EndWakeup(p) => s.pc[p].Waking? && s.pc[p].i == |s.pc|
       case Kill(p, q) => s.pc[p].Run? && Holds(s, p, PT) && q < |s.pc| && s.pc[q].Asleep?
  }

  function Goto(s: State, p: nat, pc: Pc): State
    requires p < |s.pc|
  { s.(pc := s.pc[p := pc]) }

  function Give(s: State, l: nat, o: int): State
    requires l < |s.owner|
  { s.(owner := s.owner[l := o]) }

  function Step(g: Config, s: State, ev: Event): State
    requires Enabled(g, s, ev)
  {
    match ev
    case Acquire(p, l) => Give(s, l, p)
    case Release(p, l) => Give(s, l, NONE)
    case Change(p, k, v) =>
      s.(cond := s.cond[k := v], debts := if v then s.debts[p := s.debts[p] + {g.chan[k]}] else s.debts)
    case StartSleep(p, k) => Goto(s, p, if g.lock[k] == PT then Going(k, true) else WantPt(k, true))
    case StartSleepNull(p, k) => Goto(s, p, WantPt(k, false))
    case AcquirePt(p) =>
      var WantPt(k, lk) := s.pc[p];
      Give(Goto(s, p, if lk then HasBoth(k) else Going(k, false)), PT, p)
    case ReleaseLk(p) => Give(Goto(s, p, Going(s.pc[p].k, true)), g.lock[s.pc[p].k], NONE)
    case GoToSleep(p) => Give(Goto(s, p, Asleep(s.pc[p].k, s.pc[p].lk)), PT, NONE)
    case Resume(p) => Give(Goto(s, p, Back(s.pc[p].k, s.pc[p].lk)), PT, p)
    case LeavePt(p) =>
      var Back(k, lk) := s.pc[p];
      if !lk then Give(Goto(s, p, Run), PT, NONE)
      else if g.lock[k] == PT then Goto(s, p, Run)
      else Give(Goto(s, p, WantLk(k)), PT, NONE)
    case Reacquire(p) => Give(Goto(s, p, Run), g.lock[s.pc[p].k], p)
    case StartWakeup(p, c) => Give(Goto(s, p, Waking(c, 0, Holds(s, p, PT))), PT, p)
    case WakeSlot(p) =>
      var Waking(c, i, had) := s.pc[p];
      var s1 := if SleepsOn(g, s, i, c) then Goto(s, i, Woken(s.pc[i].k, s.pc[i].lk)) else s;
      Goto(s1, p, Waking(c, i + 1, had))
    case EndWakeup(p) =>
      var s1 := Goto(s, p, Run).(debts := s.debts[p := s.debts[p] - {s.pc[p].c}]);
      if s.pc[p].had then s1 else Give(s1, PT, NONE)
    case Kill(p, q) => Goto(s, q, Woken(s.pc[q].k, s.pc[q].lk))
  }

  // ---- the invariant ----

  // What p holds at each point.
  predicate LocksOk(g: Config, s: State, p: nat)
    requires Shaped(g, s) && p < |s.pc|
  {
    match s.pc[p]
    case Run => true
    case WantPt(k, lk) => k < |g.lock| && if lk then g.lock[k] != PT && HoldsOnly(s, p, g.lock[k])
        else HoldsNothing(s, p)
    case HasBoth(k) =>
      k < |g.lock| && g.lock[k] != PT && HoldsBoth(s, p, g.lock[k])
    case Going(k, _) => k < |g.lock| && HoldsOnly(s, p, PT)
    case Asleep(k, _) => k < |g.lock| && HoldsNothing(s, p)
    case Woken(k, _) => k < |g.lock| && HoldsNothing(s, p)
    case Back(k, _) => k < |g.lock| && HoldsOnly(s, p, PT)
    case WantLk(k) => k < |g.lock| && g.lock[k] != PT && HoldsNothing(s, p)
    case Waking(_, i, _) => i <= |s.pc| && Holds(s, p, PT)
  }

  // A process that has tested its condition and still holds its lock is right about it.
  predicate TestHolds(g: Config, s: State, p: nat)
    requires Shaped(g, s) && p < |s.pc|
  {
    match s.pc[p]
    case WantPt(k, lk) => k < |g.lock| && (lk ==> !s.cond[k])
    case HasBoth(k) => k < |g.lock| && !s.cond[k]
    case _ => true
  }

  // A scan of wakeup1 has left nobody asleep behind it.
  predicate ScanClean(g: Config, s: State, p: nat)
    requires p < |s.pc|
  {
    s.pc[p].Waking? ==> NobodySleepsOn(g, s, s.pc[p].i, s.pc[p].c)
  }

  // q owes a wakeup on channel c, and if it is at it, has not passed slot p yet.
  predicate Owes(s: State, q: nat, c: nat, p: nat) {
    && q < |s.debts| && c in s.debts[q]
    && q < |s.pc| && (s.pc[q].Waking? && s.pc[q].c == c ==> s.pc[q].i <= p)
  }

  predicate SomeoneOwes(s: State, c: nat, p: nat) { exists q :: 0 <= q < |s.pc| && Owes(s, q, c, p) }

  // Asleep, or about to be with the lock already released.
  predicate Waits(s: State, p: nat, k: nat, lk: bool)
    requires p < |s.pc|
  { s.pc[p] == Asleep(k, lk) || s.pc[p] == Going(k, lk) }

  predicate NotLost(g: Config, s: State, p: nat, lk: bool)
    requires p < |s.pc|
  {
    forall k :: 0 <= k < |g.chan| && k < |s.cond| && Waits(s, p, k, lk) && s.cond[k] ==> SomeoneOwes(s, g.chan[k], p)
  }

  predicate Inv(g: Config, s: State) {
    && Shaped(g, s)
    && (forall p :: 0 <= p < |s.pc| ==> LocksOk(g, s, p))
    && (forall p :: 0 <= p < |s.pc| ==> TestHolds(g, s, p))
    && (forall p :: 0 <= p < |s.pc| ==> ScanClean(g, s, p))
    && (forall p :: 0 <= p < |s.pc| ==> NotLost(g, s, p, true))
  }

  lemma LocksStepSelf(g: Config, s: State, ev: Event)
    requires Inv(g, s) && Enabled(g, s, ev)
    ensures LocksOk(g, Step(g, s, ev), ev.p) == true
  {
    assert LocksOk(g, s, ev.p);
  }

  // What another process holds does not change, except that kill() or wakeup1() may find it asleep.
  lemma LocksStepOther(g: Config, s: State, ev: Event, x: nat)
    requires Inv(g, s) && Enabled(g, s, ev) && x < |s.pc| && x != ev.p
    ensures LocksOk(g, Step(g, s, ev), x) == true
  {
    assert LocksOk(g, s, x);
    var s' := Step(g, s, ev);
    forall m | 0 <= m < |s.owner| ensures s'.owner[m] == x <==> s.owner[m] == x {
      OwnerChange(g, s, ev, m);
    }
    OtherPc(g, s, ev, x);
    SameHolds(g, s, s', x);
  }

  // Where another process can be after the step.
  lemma OtherPc(g: Config, s: State, ev: Event, x: nat)
    requires Enabled(g, s, ev) && x < |s.pc| && x != ev.p
    ensures var s' := Step(g, s, ev);
            && |s'.pc| == |s.pc| && |s'.owner| == |s.owner| && |s'.cond| == |s.cond| && |s'.debts| == |s.debts|
            && (s'.pc[x] == s.pc[x] || (s.pc[x].Asleep? && s'.pc[x] == Woken(s.pc[x].k, s.pc[x].lk)))
  {}

  lemma SameHolds(g: Config, s: State, s': State, x: nat)
    requires Shaped(g, s) && Shaped(g, s') && x < |s.pc| == |s'.pc| && |s'.owner| == |s.owner| && LocksOk(g, s, x)
    requires forall m :: 0 <= m < |s.owner| ==> (s'.owner[m] == x <==> s.owner[m] == x)
    requires s'.pc[x] == s.pc[x] || (s.pc[x].Asleep? && s'.pc[x] == Woken(s.pc[x].k, s.pc[x].lk))
    ensures LocksOk(g, s', x) == true
  {}

  // A lock changes hands only between nobody and the process that takes the step.
  lemma OwnerChange(g: Config, s: State, ev: Event, m: nat)
    requires Inv(g, s) && Enabled(g, s, ev) && m < |s.owner|
    ensures var s' := Step(g, s, ev);
            && |s'.owner| == |s.owner| && |s'.pc| == |s.pc|
            && (s'.owner[m] == s.owner[m] || (s.owner[m] in {ev.p, NONE} && s'.owner[m] in {ev.p, NONE}))
  {
    assert LocksOk(g, s, ev.p);
  }

  lemma TestStep(g: Config, s: State, ev: Event, x: nat)
    requires Inv(g, s) && Enabled(g, s, ev) && x < |s.pc|
    ensures TestHolds(g, Step(g, s, ev), x) == true
  {
    assert LocksOk(g, s, x) && TestHolds(g, s, x) && LocksOk(g, s, ev.p);
  }

  lemma ScanStep(g: Config, s: State, ev: Event, x: nat)
    requires Inv(g, s) && Enabled(g, s, ev) && x < |s.pc|
    ensures ScanClean(g, Step(g, s, ev), x) == true
  {
    assert LocksOk(g, s, x) && ScanClean(g, s, x) && LocksOk(g, s, ev.p);
    var s' := Step(g, s, ev);
    if s'.pc[x].Waking? {
      forall j | 0 <= j < s'.pc[x].i ensures !SleepsOn(g, s', j, s'.pc[x].c) {
        assert s.pc[x].Waking? && j < s.pc[x].i ==> !SleepsOn(g, s, j, s.pc[x].c);
      }
    }
  }

  // A debt outlives every step except the end of the wakeup that pays it, which leaves nobody asleep.
  lemma DebtStays(g: Config, s: State, ev: Event, q: nat, x: nat, k: nat, lk: bool)
    requires Inv(g, s) && Enabled(g, s, ev) && q < |s.pc| && x < |s.pc| && k < |g.chan|
    requires Waits(s, x, k, lk) && Waits(Step(g, s, ev), x, k, lk) && Owes(s, q, g.chan[k], x)
    ensures Owes(Step(g, s, ev), q, g.chan[k], x) == true
  {
    assert LocksOk(g, s, x) && LocksOk(g, s, ev.p);
  }

  // A process that waits with its condition true has waited before.
  lemma WaitedBefore(g: Config, s: State, ev: Event, x: nat, k: nat, lk: bool)
    requires Inv(g, s) && Enabled(g, s, ev) && x < |s.pc| && k < |g.chan|
    requires lk || s.pc[x].Going? || s.pc[x].Asleep?
    requires Waits(Step(g, s, ev), x, k, lk) && Step(g, s, ev).cond[k] && !(ev.Change? && ev.k == k)
    ensures s.cond[k] && Waits(s, x, k, lk)
  {
    assert LocksOk(g, s, x) && TestHolds(g, s, x);
  }

  lemma NotLostStep(g: Config, s: State, ev: Event, x: nat, lk: bool)
    requires Inv(g, s) && Enabled(g, s, ev) && x < |s.pc| && NotLost(g, s, x, lk)
    requires lk || s.pc[x].Going? || s.pc[x].Asleep?
    ensures NotLost(g, Step(g, s, ev), x, lk) == true
  {
    var s' := Step(g, s, ev);
    forall k | 0 <= k < |g.chan| && k < |s'.cond| && Waits(s', x, k, lk) && s'.cond[k]
      ensures SomeoneOwes(s', g.chan[k], x) {
      if ev.Change? && ev.k == k {
        assert Owes(s', ev.p, g.chan[k], x);
      } else {
        WaitedBefore(g, s, ev, x, k, lk);
        var q :| 0 <= q < |s.pc| && Owes(s, q, g.chan[k], x);
        DebtStays(g, s, ev, q, x, k, lk);
      }
    }
  }

  lemma StepInv(g: Config, s: State, ev: Event)
    requires Inv(g, s) && Enabled(g, s, ev)
    ensures Inv(g, Step(g, s, ev)) == true
  {
    forall x | 0 <= x < |s.pc| ensures LocksOk(g, Step(g, s, ev), x) {
      if x == ev.p { LocksStepSelf(g, s, ev); } else { LocksStepOther(g, s, ev, x); }
    }
    forall x | 0 <= x < |s.pc| ensures TestHolds(g, Step(g, s, ev), x) { TestStep(g, s, ev, x); }
    forall x | 0 <= x < |s.pc| ensures ScanClean(g, Step(g, s, ev), x) { ScanStep(g, s, ev, x); }
    forall x | 0 <= x < |s.pc| ensures NotLost(g, Step(g, s, ev), x, true) { NotLostStep(g, s, ev, x, true); }
  }

  // ---- runs ----

  predicate Init(g: Config, s: State) {
    && Shaped(g, s)
    && (forall l :: 0 <= l < |s.owner| ==> s.owner[l] == NONE)
    && (forall p :: 0 <= p < |s.pc| ==> s.pc[p] == Run && s.debts[p] == {})
  }

  predicate IsRun(g: Config, ss: seq<State>, evs: seq<Event>) {
    && |ss| == |evs| + 1 && Init(g, ss[0])
    && forall i :: 0 <= i < |evs| ==> Enabled(g, ss[i], evs[i]) && ss[i + 1] == Step(g, ss[i], evs[i])
  }

  lemma {:induction false} InvRuns(g: Config, ss: seq<State>, evs: seq<Event>, i: nat)
    requires IsRun(g, ss, evs) && i <= |evs|
    ensures Inv(g, ss[i]) == true
  {
    if i > 0 {
      InvRuns(g, ss, evs, i - 1);
      StepInv(g, ss[i - 1], evs[i - 1]);
    }
  }

  // In every interleaving, whatever others do without locks, a process that went to sleep with a lock
  // and is asleep while its condition holds has a wakeup coming: some process owes one on its channel
  // and has not yet scanned past it.
  lemma NoLostWakeup(g: Config, ss: seq<State>, evs: seq<Event>, i: nat, p: nat, k: nat)
    requires IsRun(g, ss, evs) && i <= |evs|
    requires p < |ss[i].pc| && ss[i].pc[p] == Asleep(k, true) && k < |ss[i].cond| && ss[i].cond[k]
    ensures k < |g.chan| && SomeoneOwes(ss[i], g.chan[k], p)
  {
    InvRuns(g, ss, evs, i);
    assert NotLost(g, ss[i], p, true);
  }

  // When all wakeups owed have been done, nobody who had a lock sleeps on a condition that holds.
  lemma AllPaidAllAwake(g: Config, ss: seq<State>, evs: seq<Event>, i: nat)
    requires IsRun(g, ss, evs) && i <= |evs|
    requires forall q :: 0 <= q < |ss[i].debts| ==> ss[i].debts[q] == {}
    ensures forall p :: 0 <= p < |ss[i].pc| && ss[i].pc[p].Asleep? && ss[i].pc[p].lk && ss[i].pc[p].k < |ss[i].cond| ==>
              !ss[i].cond[ss[i].pc[p].k]
  {
    forall p | 0 <= p < |ss[i].pc| && ss[i].pc[p].Asleep? && ss[i].pc[p].lk && ss[i].pc[p].k < |ss[i].cond| &&
      ss[i].cond[ss[i].pc[p].k]
      ensures false
    {
      NoLostWakeup(g, ss, evs, i, p, ss[i].pc[p].k);
    }
  }

  // A finished wakeup() leaves nobody asleep on its channel, with a lock or without.
  lemma WakeupWakesAll(g: Config, ss: seq<State>, evs: seq<Event>, i: nat)
    requires IsRun(g, ss, evs) && i < |evs| && evs[i].EndWakeup?
    ensures NobodySleepsOn(g, ss[i + 1], |ss[i].pc|, ss[i].pc[evs[i].p].c)
  {
    InvRuns(g, ss, evs, i);
    var s, s', c := ss[i], ss[i + 1], ss[i].pc[evs[i].p].c;
    assert ScanClean(g, s, evs[i].p);
    forall j | 0 <= j < |s.pc| ensures !SleepsOn(g, s', j, c) { assert !SleepsOn(g, s, j, c); }
  }

  // sched() is entered with ptable.lock held and nothing else, and sleep() returns with the lock it
  // was called with, if any, and nothing else: the lock-count panics of sched() are out of reach.
  lemma SchedLocks(g: Config, ss: seq<State>, evs: seq<Event>, i: nat)
    requires IsRun(g, ss, evs) && i < |evs|
    ensures evs[i].GoToSleep? ==> HoldsOnly(ss[i], evs[i].p, PT)
    ensures evs[i].Reacquire? ==> HoldsOnly(ss[i + 1], evs[i].p, g.lock[ss[i].pc[evs[i].p].k])
    ensures evs[i].LeavePt? && ss[i].pc[evs[i].p].lk && ss[i + 1].pc[evs[i].p].Run? ==>
            HoldsOnly(ss[i + 1], evs[i].p, PT)
    ensures evs[i].LeavePt? && !ss[i].pc[evs[i].p].lk ==>
            ss[i + 1].pc[evs[i].p].Run? && HoldsNothing(ss[i + 1], evs[i].p)
  {
    InvRuns(g, ss, evs, i);
    assert LocksOk(g, ss[i], evs[i].p);
    assert ss[i + 1] == Step(g, ss[i], evs[i]);
  }

  // ---- sleeping without a lock ----

  // p is about to sleep, or asleep, while its condition holds and nobody owes it a wakeup.
  predicate Lost(g: Config, s: State, p: nat, k: nat) {
    k < |g.chan| && k < |s.cond| && s.cond[k] && !SomeoneOwes(s, g.chan[k], p)
  }

  // The condition is changed, or another on the same channel comes true.
  predicate Stirs(g: Config, ev: Event, k: nat) {
    ev.Change? && (ev.k == k || (ev.v && ev.k < |g.chan| && k < |g.chan| && g.chan[ev.k] == g.chan[k]))
  }

  // Nobody owes a wakeup on channel c at all.
  predicate NoDebt(s: State, c: nat) { forall q :: 0 <= q < |s.debts| ==> c !in s.debts[q] }

  // From state m, where p takes ptable.lock, to state i, p is going to sleep or asleep without a lock.
  predicate NullSleep(g: Config, ss: seq<State>, evs: seq<Event>, m: nat, i: nat, p: nat, k: nat) {
    && IsRun(g, ss, evs) && m < i <= |evs| && evs[m] == AcquirePt(p) && p < |ss[m].pc| &&
       ss[m].pc[p] == WantPt(k, false)
    && forall j :: m < j <= i ==> p < |ss[j].pc| && Waits(ss[j], p, k, false)
  }

  // A stir ends it: the condition is false, or whoever changed it owes a wakeup.
  lemma StirFinds(g: Config, s: State, ev: Event, p: nat, k: nat)
    requires Inv(g, s) && Enabled(g, s, ev) && Stirs(g, ev, k) && p < |s.pc| && k < |g.chan|
    ensures !Lost(g, Step(g, s, ev), p, k)
  {
    var s' := Step(g, s, ev);
    if s'.cond[k] { assert Owes(s', ev.p, g.chan[k], p); }
  }

  // Nothing else does.
  lemma NoStirKeeps(g: Config, s: State, ev: Event, k: nat)
    requires Shaped(g, s) && Enabled(g, s, ev) && !Stirs(g, ev, k) && k < |g.chan| && s.cond[k] && NoDebt(s, g.chan[k])
    ensures Step(g, s, ev).cond[k] && NoDebt(Step(g, s, ev), g.chan[k])
  {}

  lemma FoundStays(g: Config, s: State, ev: Event, p: nat, k: nat)
    requires Inv(g, s) && Enabled(g, s, ev) && p < |s.pc| && Waits(s, p, k, false) && !Lost(g, s, p, k)
    requires Waits(Step(g, s, ev), p, k, false) && k < |g.chan|
    ensures !Lost(g, Step(g, s, ev), p, k)
  {
    assert NotLost(g, s, p, false);
    NotLostStep(g, s, ev, p, false);
  }

  lemma NullNext(g: Config, s: State, ev: Event, p: nat, k: nat)
    requires Inv(g, s) && Enabled(g, s, ev) && p < |s.pc| && k < |g.chan|
    requires Waits(s, p, k, false) && Waits(Step(g, s, ev), p, k, false) && (Lost(g, s, p, k) ==> NoDebt(s, g.chan[k]))
    ensures Lost(g, Step(g, s, ev), p, k) <==> Lost(g, s, p, k) && !Stirs(g, ev, k)
    ensures Lost(g, Step(g, s, ev), p, k) ==> NoDebt(Step(g, s, ev), g.chan[k])
  {
    if Stirs(g, ev, k) {
      StirFinds(g, s, ev, p, k);
    } else if Lost(g, s, p, k) {
      NoStirKeeps(g, s, ev, k);
    } else {
      FoundStays(g, s, ev, p, k);
    }
  }

  // Nothing from event m to event i stirs the condition.
  predicate Still(g: Config, evs: seq<Event>, m: nat, i: nat, k: nat)
    requires i <= |evs|
  { forall j :: m < j < i ==> !Stirs(g, evs[j], k) }

  // A process that sleeps without a lock is lost if and only if, when it took ptable.lock, its
  // condition had come true since it tested it and every wakeup for that was over; and then until the
  // condition is changed again, or another on its channel comes true.
  lemma {:induction false} NullLostIff(g: Config, ss: seq<State>, evs: seq<Event>, m: nat, i: nat, p: nat, k: nat)
    requires NullSleep(g, ss, evs, m, i, p, k)
    ensures k < |g.chan| && k < |ss[m].cond|
    ensures Lost(g, ss[i], p, k) <==> ss[m].cond[k] && NoDebt(ss[m], g.chan[k]) && Still(g, evs, m, i, k)
    ensures Lost(g, ss[i], p, k) ==> NoDebt(ss[i], g.chan[k])
    decreases i
  {
    InvRuns(g, ss, evs, i - 1);
    assert LocksOk(g, ss[i - 1], p) && Enabled(g, ss[i - 1], evs[i - 1]) && ss[i] == Step(g, ss[i - 1], evs[i - 1]);
    if i == m + 1 {
      NullTakes(g, ss[m], p, k);
    } else {
      NullLostIff(g, ss, evs, m, i - 1, p, k);
      assert Waits(ss[i - 1], p, k, false) && Waits(ss[i], p, k, false);
      NullNext(g, ss[i - 1], evs[i - 1], p, k);
    }
  }

  // Taking ptable.lock changes neither conditions nor debts.
  lemma NullTakes(g: Config, s: State, p: nat, k: nat)
    requires Inv(g, s) && Enabled(g, s, AcquirePt(p)) && s.pc[p] == WantPt(k, false) && k < |g.chan|
    ensures Lost(g, Step(g, s, AcquirePt(p)), p, k) <==> s.cond[k] && NoDebt(s, g.chan[k])
    ensures NoDebt(Step(g, s, AcquirePt(p)), g.chan[k]) <==> NoDebt(s, g.chan[k])
  {
    var t := Step(g, s, AcquirePt(p));
    if s.cond[k] && !NoDebt(s, g.chan[k]) {
      var q :| 0 <= q < |s.debts| && g.chan[k] in s.debts[q];
      assert LocksOk(g, s, q);
      assert Owes(t, q, g.chan[k], p);
    }
  }

  // Two processes, one channel; process 0 owes nothing.
  function Two(a: Pc, b: Pc, pt: int, lk: int, cond: bool, debt: set<nat>): State {
    State([a, b], [pt, lk], [cond], [{}, debt])
  }

  predicate Follows(g: Config, s: State, ev: Event, s': State) { Enabled(g, s, ev) && s' == Step(g, s, ev) }

  lemma SetOne<T>(a: T, b: T, c: T)
    ensures [a, b][0 := c] == [c, b] && [a, b][1 := c] == [a, c]
  {}

  // A run may go on.
  lemma Extend(g: Config, ss: seq<State>, evs: seq<Event>, ev: Event, s': State)
      returns (ss': seq<State>, evs': seq<Event>)
    requires IsRun(g, ss, evs) && Follows(g, ss[|evs|], ev, s')
    ensures IsRun(g, ss', evs') && ss'[|evs'|] == s'
  {
    ss', evs' := ss + [s'], evs + [ev];
  }

  // Process 0 finds the condition false; process 1 makes it true.
  lemma NullLockFirst(g: Config) returns (ss: seq<State>, evs: seq<Event>)
    requires g == Config([0], [1])
    ensures IsRun(g, ss, evs) && ss[|evs|] == Two(WantPt(0, false), Run, NONE, 1, true, {0})
  {
    ss, evs := [Two(Run, Run, NONE, NONE, false, {})], [];
    SetOne(Run, Run, WantPt(0, false));
    ss, evs := Extend(g, ss, evs, StartSleepNull(0, 0), Two(WantPt(0, false), Run, NONE, NONE, false, {}));
    SetOne(NONE, NONE, 1);
    ss, evs := Extend(g, ss, evs, Acquire(1, 1), Two(WantPt(0, false), Run, NONE, 1, false, {}));
    assert [false][0 := true] == [true] && {} + {0} == {0};
    SetOne({}, {}, {0});
    ss, evs := Extend(g, ss, evs, Change(1, 0, true), Two(WantPt(0, false), Run, NONE, 1, true, {0}));
  }

  // Process 1's wakeup finds nobody asleep.
  lemma NullLockThen(g: Config) returns (ss: seq<State>, evs: seq<Event>)
    requires g == Config([0], [1])
    ensures IsRun(g, ss, evs) && ss[|evs|] == Two(WantPt(0, false), Waking(0, 2, false), 1, 1, true, {0})
  {
    ss, evs := NullLockFirst(g);
    SetOne(NONE, 1, 1);
    SetOne(WantPt(0, false), Run, Waking(0, 0, false));
    ss, evs := Extend(g, ss, evs, StartWakeup(1, 0), Two(WantPt(0, false), Waking(0, 0, false), 1, 1, true, {0}));
    SetOne(WantPt(0, false), Waking(0, 0, false), Waking(0, 1, false));
    ss, evs := Extend(g, ss, evs, WakeSlot(1), Two(WantPt(0, false), Waking(0, 1, false), 1, 1, true, {0}));
    SetOne(WantPt(0, false), Waking(0, 1, false), Waking(0, 2, false));
    ss, evs := Extend(g, ss, evs, WakeSlot(1), Two(WantPt(0, false), Waking(0, 2, false), 1, 1, true, {0}));
  }

  // Without a lock the guarantee is gone: the wakeup falls between the test and the sleep. Process 0
  // ends asleep while its condition holds and nobody owes a wakeup.
  lemma NullLockLosesWakeup() returns (g: Config, ss: seq<State>, evs: seq<Event>)
    ensures IsRun(g, ss, evs) && |g.chan| == 1
    ensures ss[|evs|] == Two(Asleep(0, false), Run, NONE, 1, true, {})
  {
    g := Config([0], [1]);
    ss, evs := NullLockThen(g);
    SetOne(WantPt(0, false), Waking(0, 2, false), Run);
    SetOne(1, 1, NONE);
    assert {0} - {0} == {};
    SetOne({}, {0}, {});
    ss, evs := Extend(g, ss, evs, EndWakeup(1), Two(WantPt(0, false), Run, NONE, 1, true, {}));
    SetOne(WantPt(0, false), Run, Going(0, false));
    SetOne(NONE, 1, 0);
    ss, evs := Extend(g, ss, evs, AcquirePt(0), Two(Going(0, false), Run, 0, 1, true, {}));
    SetOne(Going(0, false), Run, Asleep(0, false));
    SetOne(0, 1, NONE);
    ss, evs := Extend(g, ss, evs, GoToSleep(0), Two(Asleep(0, false), Run, NONE, 1, true, {}));
  }
}
