/** The array-scanning versions of wakeup1, exit, wait and kill that proc.c keeps beside the
    list-based ones, and the proof that both have the same effect on the processes. */
module ProcScan {
  import opened Sequences
  import opened ProcSpec

  // ---- wakeup1 ----

  function WakeIf(q: Proc, chan: int): Proc {
    if q.state.Sleeping? && q.chan == chan then q.(state := Runnable) else q
  }

  function WakeEvery(procs: seq<Proc>, chan: int): (r: seq<Proc>)
    ensures |r| == |procs| && forall x :: 0 <= x < |procs| ==> r[x] == WakeIf(procs[x], chan)
  { seq(|procs|, x requires 0 <= x < |procs| => WakeIf(procs[x], chan)) }

  // The scan over the process array.
  method ScanWakeup1(procs: seq<Proc>, chan: int) returns (r: seq<Proc>)
    ensures r == WakeEvery(procs, chan)
  {
    r := procs;
    for p := 0 to |procs|
      invariant |r| == |procs|
      invariant forall x :: 0 <= x < p ==> r[x] == WakeIf(procs[x], chan)
      invariant forall x :: p <= x < |procs| ==> r[x] == procs[x]
    {
      if r[p].state == Sleeping && r[p].chan == chan {
        r := r[p := r[p].(state := Runnable)];
      }
    }
  }

  lemma {:induction false} WakeAllProc(t: Table, xs: seq<nat>, chan: int, p: nat)
    requires Ok(t) && Distinct(xs) && (forall i :: 0 <= i < |xs| ==> xs[i] < |t.procs|) && p < |t.procs|
    ensures WakeAll(t, xs, chan).procs[p] == if p in xs && t.procs[p].chan == chan then t.procs[p].(state := Runnable)
            else t.procs[p]
    decreases |xs|
  {
    if xs != [] {
      assert xs[0] !in xs[1..];
      if t.procs[xs[0]].chan == chan {
        TransitOk(t, xs[0], t.procs[xs[0]].(state := Runnable), false);
        WakeAllProc(Woken(t, xs[0]), xs[1..], chan, p);
      } else {
        WakeAllProc(t, xs[1..], chan, p);
      }
    }
  }

  // The list walk wakes exactly the processes the scan wakes.
  lemma WakeupRefinesScan(t: Table, chan: int)
    requires Ok(t)
    ensures Wakeup1(t, chan).procs == WakeEvery(t.procs, chan)
    ensures Wakeup1(t, chan).nextpid == t.nextpid
  {
    WakeAllNextpid(t, t.lists[SLEEP], chan);
    forall p | 0 <= p < |t.procs| ensures Wakeup1(t, chan).procs[p] == WakeIf(t.procs[p], chan) {
      WakeAllProc(t, t.lists[SLEEP], chan, p);
      assert On(t.lists, SLEEP, p) <==> SLEEP == ListOf(t.procs[p]);
    }
  }

  lemma {:induction false} WakeAllNextpid(t: Table, xs: seq<nat>, chan: int)
    requires Ok(t) && forall i :: 0 <= i < |xs| ==> xs[i] < |t.procs|
    ensures WakeAll(t, xs, chan).nextpid == t.nextpid
    decreases |xs|
  {
    if xs != [] {
      if t.procs[xs[0]].chan == chan {
        TransitOk(t, xs[0], t.procs[xs[0]].(state := Runnable), false);
        WakeAllNextpid(Woken(t, xs[0]), xs[1..], chan);
      } else {
        WakeAllNextpid(t, xs[1..], chan);
      }
    }
  }

  // ---- exit ----

  predicate ZombieChild(procs: seq<Proc>, p: int, x: nat)
    requires x < |procs|
  { procs[x].state.Zombie? && procs[x].parent == p }

  function AdoptIf(q: Proc, p: int, init: int): Proc {
    if q.parent == p then q.(parent := init) else q
  }

  predicate AnyZombieChild(procs: seq<Proc>, p: int) {
    exists x :: 0 <= x < |procs| && ZombieChild(procs, p, x)
  }

  // What exit() of process p makes of process x: the parent of p is woken, its children become
  // init's, init is woken if one of them is a zombie, and p is a zombie.
  function ExitOne(procs: seq<Proc>, p: nat, init: int, x: nat): Proc
    requires p < |procs| && x < |procs|
  {
    var a := WakeIf(procs[x], ChanOf(procs[p].parent));
    var b := AdoptIf(if AnyZombieChild(procs, p) then WakeIf(a, ChanOf(init)) else a, p, init);
    if x == p then b.(state := Zombie) else b
  }

  function ExitEffect(procs: seq<Proc>, p: nat, init: int): (r: seq<Proc>)
    requires p < |procs|
    ensures |r| == |procs| && forall x :: 0 <= x < |procs| ==> r[x] == ExitOne(procs, p, init, x)
  { seq(|procs|, x requires 0 <= x < |procs| => ExitOne(procs, p, init, x)) }

  // The scan over the process array.
  method ScanExit(procs: seq<Proc>, proc: nat, init: int) returns (r: seq<Proc>)
    requires proc < |procs|
    ensures r == ExitEffect(procs, proc, init)
  {
    r := ScanWakeup1(procs, ChanOf(procs[proc].parent));
    ghost var a := r;
    ghost var woke := false;
    assert forall x :: 0 <= x < |a| ==> ZombieChild(a, proc, x) == ZombieChild(procs, proc, x);
    for p := 0 to |procs|
      invariant |r| == |procs|
      invariant woke <==> exists x :: 0 <= x < p && ZombieChild(procs, proc, x)
      invariant forall x :: 0 <= x < |r| ==>
                  var q := if woke then WakeIf(a[x], ChanOf(init)) else a[x];
                  r[x] == if x < p then AdoptIf(q, proc, init) else q
    {
      if r[p].parent == proc {
        r := r[p := r[p].(parent := init)];
        if r[p].state == Zombie {
          assert ZombieChild(procs, proc, p);
          r := ScanWakeup1(r, ChanOf(init));
          woke := true;
        }
      }
    }
    r := r[proc := r[proc].(state := Zombie)];
  }

  lemma {:induction false} AdoptInProc(procs: seq<Proc>, xs: seq<nat>, p: int, init: int, x: nat)
    requires (forall i :: 0 <= i < |xs| ==> xs[i] < |procs|) && x < |procs|
    ensures AdoptIn(procs, xs, p, init)[x] == if x in xs then AdoptIf(procs[x], p, init) else procs[x]
    decreases |xs|
  {
    if xs != [] {
      var c := procs[xs[0]];
      AdoptInProc(if c.parent == p then procs[xs[0] := c.(parent := init)] else procs, xs[1..], p, init, x);
    }
  }

  lemma {:induction false} AdoptListsProc(t: Table, ls: seq<nat>, p: int, init: int, x: nat)
    requires Ok(t) && (forall i :: 0 <= i < |ls| ==> ls[i] < NLISTS) && x < |t.procs|
    ensures AdoptLists(t, ls, p, init).procs[x] == if ListOf(t.procs[x]) in ls then AdoptIf(t.procs[x], p, init)
            else t.procs[x]
    ensures AdoptLists(t, ls, p, init).nextpid == t.nextpid
    decreases |ls|
  {
    if ls != [] {
      var procs := AdoptIn(t.procs, t.lists[ls[0]], p, init);
      AdoptKeeps(t.procs, t.lists[ls[0]], p, init);
      ParentsKeepPartition(t.procs, procs, t.lists);
      AdoptInProc(t.procs, t.lists[ls[0]], p, init, x);
      assert On(t.lists, ls[0], x) <==> ls[0] == ListOf(t.procs[x]);
      AdoptListsProc(t.(procs := procs), ls[1..], p, init, x);
    }
  }

  predicate AnyChild(procs: seq<Proc>, xs: seq<nat>, p: int)
    requires forall i :: 0 <= i < |xs| ==> xs[i] < |procs|
  { exists i :: 0 <= i < |xs| && procs[xs[i]].parent == p }

  // The walk over zombies xs: they are adopted, and init is woken if one of them was a child.
  lemma {:induction false} AdoptZombiesProc(t: Table, xs: seq<nat>, p: int, init: int, x: nat)
    requires Ok(t) && Distinct(xs) && x < |t.procs|
    requires forall i :: 0 <= i < |xs| ==> xs[i] < |t.procs| && t.procs[xs[i]].state.Zombie?
    ensures AdoptZombies(t, xs, p, init).procs[x] ==
            var q := if x in xs then AdoptIf(t.procs[x], p, init) else t.procs[x];
            if AnyChild(t.procs, xs, p) then WakeIf(q, ChanOf(init)) else q
    decreases |xs|
  {
    if xs != [] {
      var rest := xs[1..];
      assert xs[0] !in rest && xs == [xs[0]] + rest;
      if t.procs[xs[0]].parent == p {
        var c := t.procs[xs[0]].(parent := init);
        TouchPartition(t.procs, t.lists, xs[0], c);
        var u := Touch(t, xs[0], c);
        var v := Wakeup1(u, ChanOf(init));
        WakeupRefinesScan(u, ChanOf(init));
        AdoptZombiesProc(v, rest, p, init, x);
        assert AnyChild(t.procs, xs, p);
      } else {
        AdoptZombiesProc(t, rest, p, init, x);
        AnyChildTail(t.procs, xs, p);
      }
    }
  }

  lemma AnyChildTail(procs: seq<Proc>, xs: seq<nat>, p: int)
    requires xs != [] && (forall i :: 0 <= i < |xs| ==> xs[i] < |procs|) && procs[xs[0]].parent != p
    ensures AnyChild(procs, xs, p) <==> AnyChild(procs, xs[1..], p)
  {
    if AnyChild(procs, xs, p) {
      var i :| 0 <= i < |xs| && procs[xs[i]].parent == p;
      assert xs[1..][i - 1] == xs[i];
    }
  }

  // Slots that are not in use have no parent.
  predicate FreeHaveNoParent(procs: seq<Proc>) {
    forall x :: 0 <= x < |procs| && procs[x].state.Unused? ==> procs[x].parent == NULL
  }

  // exit() on the lists has the effect of the scan.
  lemma ExitRefinesScan(t: Table, p: nat, init: int)
    requires Ok(t) && p < |t.procs| && FreeHaveNoParent(t.procs)
    ensures Exited(t, p, init).procs == ExitEffect(t.procs, p, init)
  {
    forall x | 0 <= x < |t.procs| ensures Exited(t, p, init).procs[x] == ExitEffect(t.procs, p, init)[x] {
      ExitProc(t, p, init, x);
    }
  }

  lemma ExitProc(t: Table, p: nat, init: int, x: nat)
    requires Ok(t) && p < |t.procs| && FreeHaveNoParent(t.procs) && x < |t.procs|
    ensures Exited(t, p, init).procs[x] == ExitEffect(t.procs, p, init)[x]
  {
    var t1 := Wakeup1(t, ChanOf(t.procs[p].parent));
    WakeupRefinesScan(t, ChanOf(t.procs[p].parent));
    assert forall y :: 0 <= y < |t.procs| ==> ZombieChild(t1.procs, p, y) == ZombieChild(t.procs, p, y);
    ExitAdopts(t1, p, init, x);
  }

  // The adopting part of exit().
  lemma ExitAdopts(t: Table, p: nat, init: int, x: nat)
    requires Ok(t) && x < |t.procs| && FreeHaveNoParent(t.procs)
    ensures var t2 := AdoptLists(t, ADOPT_LISTS, p, init);
            && Ok(t2)
            && AdoptZombies(t2, t2.lists[ZOMBIE], p, init).procs[x] ==
               AdoptIf(if AnyZombieChild(t.procs, p) then WakeIf(t.procs[x], ChanOf(init)) else t.procs[x], p, init)
  {
    var t2 := AdoptLists(t, ADOPT_LISTS, p, init);
    AdoptListsOk(t, ADOPT_LISTS, p, init);
    AdoptListsProc(t, ADOPT_LISTS, p, init, x);
    ZombiesListed(t, t2, p, init);
    AdoptZombiesProc(t2, t2.lists[ZOMBIE], p, init, x);
    assert On(t2.lists, ZOMBIE, x) <==> ZOMBIE == ListOf(t2.procs[x]);
    if t.procs[x].state.Zombie? {
      assert x in t2.lists[ZOMBIE];
    } else if t.procs[x].state.Unused? {
      assert t.procs[x].parent == NULL;
    } else {
      assert ListOf(t.procs[x]) in ADOPT_LISTS;
    }
  }

  // The zombie list has a child of p exactly when some process is a zombie child of p.
  lemma ZombiesListed(t1: Table, t2: Table, p: nat, init: int)
    requires Ok(t1) && Ok(t2) && t2 == AdoptLists(t1, ADOPT_LISTS, p, init)
    ensures forall i :: 0 <= i < |t2.lists[ZOMBIE]| ==> t2.procs[t2.lists[ZOMBIE][i]].state.Zombie?
    ensures AnyChild(t2.procs, t2.lists[ZOMBIE], p) <==> AnyZombieChild(t1.procs, p)
  {
    var zs := t2.lists[ZOMBIE];
    forall i | 0 <= i < |zs| ensures t2.procs[zs[i]].state.Zombie? {
      assert On(t2.lists, ZOMBIE, zs[i]);
    }
    forall x | 0 <= x < |t1.procs| && ListOf(t1.procs[x]) == ZOMBIE ensures t2.procs[x] == t1.procs[x] {
      AdoptListsProc(t1, ADOPT_LISTS, p, init, x);
    }
    if AnyChild(t2.procs, zs, p) {
      var i :| 0 <= i < |zs| && t2.procs[zs[i]].parent == p;
      assert On(t1.lists, ZOMBIE, zs[i]);
      assert ZombieChild(t1.procs, p, zs[i]);
    }
    if x :| 0 <= x < |t1.procs| && ZombieChild(t1.procs, p, x) {
      assert On(t2.lists, ZOMBIE, x);
      var i :| 0 <= i < |zs| && zs[i] == x;
      assert t2.procs[zs[i]].parent == p;
    }
  }

  // ---- wait ----

  // One pass of wait(): it reaps a child, fails, or sleeps.
  datatype WaitResult = Reap(child: nat) | Fail | Block

  predicate HasChild(procs: seq<Proc>, p: int) {
    exists x :: 0 <= x < |procs| && procs[x].parent == p
  }

  // What a pass of wait() by p may do: reap any zombie child; with none, fail if there is no child
  // at all or p has been killed, and sleep otherwise.
  predicate WaitAllowed(procs: seq<Proc>, p: nat, w: WaitResult)
    requires p < |procs|
  {
    match w
    case Reap(c) => c < |procs| && ZombieChild(procs, p, c)
    case Fail => (forall x :: 0 <= x < |procs| ==> !ZombieChild(procs, p, x)) &&
        (!HasChild(procs, p) || procs[p].killed)
    case Block => (forall x :: 0 <= x < |procs| ==> !ZombieChild(procs, p, x)) && HasChild(procs, p) && !procs[p].killed
  }

  function FreedSlot(q: Proc): Proc { q.(state := Unused, pid := 0, parent := NULL, killed := false) }

  // The scan over the process array.
  method ScanWait(procs: seq<Proc>, proc: nat) returns (w: WaitResult, r: seq<Proc>)
    requires proc < |procs|
    ensures WaitAllowed(procs, proc, w)
    ensures r == if w.Reap? then procs[w.child := FreedSlot(procs[w.child])] else procs
  {
    var havekids := false;
    r := procs;
    for p := 0 to |procs|
      invariant r == procs
      invariant havekids <==> exists x :: 0 <= x < p && procs[x].parent == proc
      invariant forall x :: 0 <= x < p ==> !ZombieChild(procs, proc, x)
    {
      if r[p].parent != proc { continue; }
      havekids := true;
      if r[p].state == Zombie {
        r := r[p := FreedSlot(r[p])];
        return Reap(p), r;
      }
    }
    if !havekids || procs[proc].killed { return Fail, r; }
    return Block, r;
  }

  // The first process on list xs with parent p, or NULL (checkforchildren, and the zombie walk).
  function FirstChild(procs: seq<Proc>, xs: seq<nat>, p: int): (r: int)
    requires forall i :: 0 <= i < |xs| ==> xs[i] < |procs|
    ensures r == NULL ==> forall i :: 0 <= i < |xs| ==> procs[xs[i]].parent != p
    ensures r != NULL ==> r in xs && 0 <= r < |procs| && procs[r].parent == p
  {
    if xs == [] then NULL
    else if procs[xs[0]].parent == p then xs[0]
    else FirstChild(procs, xs[1..], p)
  }

  const KID_LISTS: seq<nat> := [EMBRYO, RUNNING, SLEEP, 0, 1, 2, 3, 4, 5]

  predicate HasKids(t: Table, ls: seq<nat>, p: int)
    requires Ok(t) && forall i :: 0 <= i < |ls| ==> ls[i] < NLISTS
    decreases |ls|
  {
    ls != [] && (FirstChild(t.procs, t.lists[ls[0]], p) != NULL || HasKids(t, ls[1..], p))
  }

  // A child on one of the lists is found, and what is found is a child.
  lemma {:induction false} HasKidsFinds(t: Table, ls: seq<nat>, p: int, x: nat)
    requires Ok(t) && (forall i :: 0 <= i < |ls| ==> ls[i] < NLISTS)
    requires x < |t.procs| && t.procs[x].parent == p && ListOf(t.procs[x]) in ls
    ensures HasKids(t, ls, p)
    decreases |ls|
  {
    assert On(t.lists, ls[0], x) <==> ls[0] == ListOf(t.procs[x]);
    if ls[0] != ListOf(t.procs[x]) { HasKidsFinds(t, ls[1..], p, x); }
  }

  lemma {:induction false} HasKidsSound(t: Table, ls: seq<nat>, p: int)
    requires Ok(t) && (forall i :: 0 <= i < |ls| ==> ls[i] < NLISTS) && HasKids(t, ls, p)
    ensures HasChild(t.procs, p)
    decreases |ls|
  {
    var c := FirstChild(t.procs, t.lists[ls[0]], p);
    if c == NULL { HasKidsSound(t, ls[1..], p); } else { assert t.procs[c].parent == p; }
  }

  // The list-based pass of wait().
  function WaitPass(t: Table, p: nat): WaitResult
    requires Ok(t) && p < |t.procs|
  {
    var z := FirstChild(t.procs, t.lists[ZOMBIE], p);
    if z != NULL then Reap(z)
    else if !HasKids(t, KID_LISTS, p) || t.procs[p].killed then Fail
    else Block
  }

  // wait() on the lists does what the scan may do: it reaps, fails and sleeps in the same cases,
  // and differs at most in which zombie child it reaps.
  lemma WaitRefinesScan(t: Table, p: nat)
    requires Ok(t) && p < |t.procs| && FreeHaveNoParent(t.procs)
    ensures WaitAllowed(t.procs, p, WaitPass(t, p))
    ensures forall w :: WaitAllowed(t.procs, p, w) ==>
            w.Reap? == WaitPass(t, p).Reap? && (!w.Reap? ==> w == WaitPass(t, p))
  {
    var z := FirstChild(t.procs, t.lists[ZOMBIE], p);
    forall x | 0 <= x < |t.procs| ensures On(t.lists, ZOMBIE, x) <==> t.procs[x].state.Zombie? {
      assert On(t.lists, ZOMBIE, x) <==> ZOMBIE == ListOf(t.procs[x]);
    }
    if z != NULL {
      assert On(t.lists, ZOMBIE, z);
      assert ZombieChild(t.procs, p, z);
    } else {
      forall x | 0 <= x < |t.procs| ensures !ZombieChild(t.procs, p, x) {
        if t.procs[x].state.Zombie? { assert On(t.lists, ZOMBIE, x); }
      }
      KidsAreChildren(t, p);
    }
  }

  lemma KidList(q: Proc)
    requires Live(q) && q.priority <= MAX
    ensures ListOf(q) in KID_LISTS
  {
    var k := match q.state case Runnable => 3 + q.priority case Running => 1 case Sleeping => 2 case _ => 0;
    assert KID_LISTS[k] == ListOf(q);
  }

  lemma KidsAreChildren(t: Table, p: nat)
    requires Ok(t) && p < |t.procs| && FreeHaveNoParent(t.procs)
    requires forall x :: 0 <= x < |t.procs| ==> !ZombieChild(t.procs, p, x)
    ensures HasKids(t, KID_LISTS, p) <==> HasChild(t.procs, p)
  {
    if x :| 0 <= x < |t.procs| && t.procs[x].parent == p {
      assert !ZombieChild(t.procs, p, x);
      KidList(t.procs[x]);
      HasKidsFinds(t, KID_LISTS, p, x);
    }
    if HasKids(t, KID_LISTS, p) { HasKidsSound(t, KID_LISTS, p); }
  }

  // ---- kill ----

  // No pid is in use twice; slots in use have one.
  predicate PidsOk(procs: seq<Proc>, nextpid: nat) {
    && (forall x :: 0 <= x < |procs| ==> procs[x].pid < nextpid && (!procs[x].state.Unused? ==> procs[x].pid > 0))
    && (forall x, y :: 0 <= x < y < |procs| && procs[x].pid == procs[y].pid ==> procs[x].pid == 0)
  }

  function KillOne(q: Proc): Proc {
    q.(killed := true, state := if q.state.Sleeping? then Runnable else q.state)
  }

  // The scan from slot i on: the first slot with the pid, whatever its state.
  function KillScan(procs: seq<Proc>, pid: nat, i: nat): (int, seq<Proc>)
    requires i <= |procs|
    decreases |procs| - i
  {
    if i == |procs| then (-1, procs)
    else if procs[i].pid == pid then (0, procs[i := KillOne(procs[i])])
    else KillScan(procs, pid, i + 1)
  }

  predicate Live(q: Proc) { !q.state.Unused? && !q.state.Zombie? }

  lemma {:induction false} KillScanAt(procs: seq<Proc>, pid: nat, i: nat, p: nat)
    requires i <= p < |procs| && procs[p].pid == pid && forall x :: i <= x < p ==> procs[x].pid != pid
    ensures KillScan(procs, pid, i) == (0, procs[p := KillOne(procs[p])])
    decreases p - i
  {
    if i < p { KillScanAt(procs, pid, i + 1, p); }
  }

  lemma {:induction false} KillScanNone(procs: seq<Proc>, pid: nat, i: nat)
    requires i <= |procs| && forall x :: i <= x < |procs| ==> procs[x].pid != pid
    ensures KillScan(procs, pid, i) == (-1, procs)
    decreases |procs| - i
  {
    if i < |procs| { KillScanNone(procs, pid, i + 1); }
  }

  method ScanKill(procs: seq<Proc>, pid: nat) returns (rc: int, r: seq<Proc>)
    ensures (rc, r) == KillScan(procs, pid, 0)
  {
    r := procs;
    for p := 0 to |procs|
      invariant r == procs && forall x :: 0 <= x < p ==> procs[x].pid != pid
    {
      if r[p].pid == pid {
        KillScanAt(procs, pid, 0, p);
        r := r[p := r[p].(killed := true)];
        if r[p].state == Sleeping { r := r[p := r[p].(state := Runnable)]; }
        assert r == procs[p := KillOne(procs[p])];
        return 0, r;
      }
    }
    rc := -1;
    KillScanNone(procs, pid, 0);
  }

  // kill() on the lists agrees with the scan exactly when the pid is not that of a zombie or of a
  // slot out of use (which keep their pid, or have pid 0).
  lemma KillRefinesScanIff(t: Table, pid: nat)
    requires Ok(t) && PidsOk(t.procs, t.nextpid)
    ensures (Killed(t, pid).0 == KillScan(t.procs, pid, 0).0 && Killed(t, pid).1.procs == KillScan(t.procs, pid, 0).1)
            <==> forall x :: 0 <= x < |t.procs| && t.procs[x].pid == pid ==> Live(t.procs[x])
  {
    var s := FindPid(t.procs, t.lists[SLEEP], pid);
    var o := FindInLists(t, KILL_LISTS, pid);
    if x :| 0 <= x < |t.procs| && t.procs[x].pid == pid && Live(t.procs[x]) {
      FoundLive(t, pid, x);
    } else {
      NotFoundDead(t, pid);
      if x :| 0 <= x < |t.procs| && t.procs[x].pid == pid {
        ScanFinds(t.procs, pid, x);
      } else {
        KillScanNone(t.procs, pid, 0);
      }
    }
  }

  // A live process is found on its list, and nothing else has its pid.
  lemma FoundLive(t: Table, pid: nat, x: nat)
    requires Ok(t) && PidsOk(t.procs, t.nextpid) && x < |t.procs| && t.procs[x].pid == pid && Live(t.procs[x])
    ensures Killed(t, pid).0 == 0 && Killed(t, pid).1.procs == t.procs[x := KillOne(t.procs[x])]
    ensures KillScan(t.procs, pid, 0) == (0, t.procs[x := KillOne(t.procs[x])])
    ensures forall y :: 0 <= y < |t.procs| && t.procs[y].pid == pid ==> y == x
  {
    assert On(t.lists, ListOf(t.procs[x]), x);
    KillScanAt(t.procs, pid, 0, x);
    var s := FindPid(t.procs, t.lists[SLEEP], pid);
    if t.procs[x].state.Sleeping? {
      assert s == x;
    } else {
      assert s == NULL by { if s != NULL { assert s == x; assert On(t.lists, SLEEP, s); } }
      var k := match t.procs[x].state case Runnable => 1 + t.procs[x].priority case Running => 7 case _ => 0;
      assert KILL_LISTS[k] == ListOf(t.procs[x]);
      assert On(t.lists, KILL_LISTS[k], x);
      assert FindInLists(t, KILL_LISTS, pid) == x;
    }
  }

  lemma NotFoundDead(t: Table, pid: nat)
    requires Ok(t) && forall x :: 0 <= x < |t.procs| && t.procs[x].pid == pid ==> !Live(t.procs[x])
    ensures Killed(t, pid) == (-1, t)
  {
    var s := FindPid(t.procs, t.lists[SLEEP], pid);
    assert s == NULL by { if s != NULL { assert On(t.lists, SLEEP, s); } }
    assert FindInLists(t, KILL_LISTS, pid) == NULL;
  }

  lemma ScanFinds(procs: seq<Proc>, pid: nat, x: nat)
    requires x < |procs| && procs[x].pid == pid
    ensures KillScan(procs, pid, 0).0 == 0
  {
    var p := x;
    while exists y :: 0 <= y < p && procs[y].pid == pid
      invariant 0 <= p < |procs| && procs[p].pid == pid
      decreases p
    {
      var y :| 0 <= y < p && procs[y].pid == pid;
      p := y;
    }
    KillScanAt(procs, pid, 0, p);
  }

  // exit does not stop its process before the end.
  lemma StillRunning(t: Table, p: nat, init: int)
    requires Ok(t) && p < |t.procs| && t.procs[p].state.Running?
    ensures Orphaned(t, p, init).procs[p].state.Running?
  {
    var t1 := Wakeup1(t, ChanOf(t.procs[p].parent));
    WakeupRefinesScan(t, ChanOf(t.procs[p].parent));
    var t2 := AdoptLists(t1, ADOPT_LISTS, p, init);
    AdoptListsOk(t1, ADOPT_LISTS, p, init);
    AdoptListsProc(t1, ADOPT_LISTS, p, init, p);
    ZombiesListed(t1, t2, p, init);
    AdoptZombiesProc(t2, t2.lists[ZOMBIE], p, init, p);
  }

  // In every table as userinit leaves it, kill(0) on the array finds a free slot and succeeds, and on the
  // lists finds nothing.
  lemma KillDiffers(t: Table, init: nat)
    requires BootedTable(t, init) && |t.procs| > 1
    ensures KillScan(t.procs, 0, 0).0 == 0 && Killed(t, 0).0 == -1
  {
    var x := if init == 0 then 1 else 0;
    assert t.procs[x].pid == 0;
    KillScanFinds(t.procs, 0, 0, x);
    KilledNone(t, init);
  }

  lemma {:induction false} KillScanFinds(procs: seq<Proc>, pid: nat, i: nat, x: nat)
    requires i <= x < |procs| && procs[x].pid == pid
    ensures KillScan(procs, pid, i).0 == 0
    decreases |procs| - i
  {
    if procs[i].pid != pid { KillScanFinds(procs, pid, i + 1, x); }
  }

  lemma KilledNone(t: Table, init: nat)
    requires BootedTable(t, init)
    ensures Killed(t, 0).0 == -1
  {
    var p := FindPid(t.procs, t.lists[SLEEP], 0);
    if p != NULL { assert On(t.lists, SLEEP, p); }
  }
}
