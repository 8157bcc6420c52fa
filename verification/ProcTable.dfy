/** Singly linked lists threaded through the processes' `next` fields. */
module ProcLinks {
  import opened Sequences
  import opened ProcSpec

  function First(s: seq<nat>): int { if s == [] then NULL else s[0] }

  // What follows position i of s.
  function After(s: seq<nat>, i: nat): int
    requires i < |s|
  { if i + 1 < |s| then s[i + 1] else NULL }

  // From head h the links run through s and end.
  predicate Chain(next: seq<int>, h: int, s: seq<nat>) {
    && h == First(s)
    && forall i :: 0 <= i < |s| ==> s[i] < |next| && next[s[i]] == After(s, i)
  }

  ghost predicate Disjoint(lists: Lists) {
    forall l, k, p: nat :: 0 <= l < |lists| && 0 <= k < |lists| && On(lists, l, p) && On(lists, k, p) ==> l == k
  }

  // All lists are linked, without repetitions, and share no process.
  ghost predicate Linked(next: seq<int>, head: seq<int>, lists: Lists) {
    && |head| == |lists| == NLISTS && ListsOk(|next|, lists) && Disjoint(lists)
    && forall l :: 0 <= l < NLISTS ==> Chain(next, head[l], lists[l])
  }

  predicate Nowhere(lists: Lists, p: nat) {
    forall l :: 0 <= l < |lists| ==> !On(lists, l, p)
  }

  // Changing the link of a process that is not on a list does not change the list.
  lemma ChainKept(next: seq<int>, h: int, s: seq<nat>, p: nat, v: int)
    requires Chain(next, h, s) && p < |next| && p !in s
    ensures Chain(next[p := v], h, s)
  {}

  lemma LinkedPush(next: seq<int>, head: seq<int>, lists: Lists, l: nat, p: nat)
    requires Linked(next, head, lists) && l < NLISTS && p < |next| && Nowhere(lists, p)
    ensures Linked(next[p := head[l]], head[l := p], Push(lists, l, p))
  {
    var next', head', ls := next[p := head[l]], head[l := p], Push(lists, l, p);
    AddOk(|next|, lists, l, p, true);
    forall k | 0 <= k < NLISTS ensures Chain(next', head'[k], ls[k]) {
      assert !On(lists, k, p);
      ChainKept(next, head[k], lists[k], p, head[l]);
      if k == l { ChainPush(next', head[l], lists[l], p); }
    }
    DisjointAdd(|next|, lists, l, p, true);
  }

  lemma DisjointAdd(n: nat, lists: Lists, l: nat, p: nat, front: bool)
    requires ListsOk(n, lists) && Disjoint(lists) && l < NLISTS && Nowhere(lists, p)
    ensures Disjoint(if front then Push(lists, l, p) else Append(lists, l, p))
  {
    var ls := if front then Push(lists, l, p) else Append(lists, l, p);
    forall j, k, x: nat | 0 <= j < |ls| && 0 <= k < |ls| && On(ls, j, x) && On(ls, k, x) ensures j == k {
      assert x == p || (On(lists, j, x) && On(lists, k, x));
      assert !On(lists, j, p) && !On(lists, k, p);
    }
  }

  lemma ChainPush(next: seq<int>, h: int, s: seq<nat>, p: nat)
    requires Chain(next, h, s) && p < |next| && next[p] == h
    ensures Chain(next, p, [p] + s)
  {
    var t := [p] + s;
    forall i | 0 <= i < |t| ensures t[i] < |next| && next[t[i]] == After(t, i) {
      if i > 0 { assert t[i] == s[i - 1]; }
    }
  }

  // Take position k out of the list at l.
  lemma LinkedRemove(next: seq<int>, head: seq<int>, lists: Lists, l: nat, k: nat)
    requires Linked(next, head, lists) && l < NLISTS && k < |lists[l]|
    ensures var s := lists[l];
            var p := s[k];
            var head' := if k == 0 then head[l := next[p]] else head;
            var next' := (if k == 0 then next else next[s[k - 1] := next[p]])[p := NULL];
            Linked(next', head', Remove(lists, l, p)) && Nowhere(Remove(lists, l, p), p)
  {
    var s, p := lists[l], lists[l][k];
    WithoutAt(s, k);
    WithoutFacts(s, p);
    RemoveOk(|next|, lists, l, p);
    var ls := Remove(lists, l, p);
    var next1 := if k == 0 then next else next[s[k - 1] := next[p]];
    var head' := if k == 0 then head[l := next[p]] else head;
    DisjointRemove(lists, l, p);
    forall j | 0 <= j < NLISTS ensures Chain(next1[p := NULL], head'[j], ls[j]) && !On(ls, j, p) {
      if j == l {
        ChainCut(next, head[l], s, k);
        ChainKept(next1, head'[l], ls[l], p, NULL);
      } else {
        assert On(lists, l, p) && !On(lists, j, p);
        if k > 0 { assert On(lists, l, s[k - 1]) && !On(lists, j, s[k - 1]); ChainKept(next, head[j], lists[j],
            s[k - 1], next[p]); }
        ChainKept(next1, head[j], lists[j], p, NULL);
      }
    }
  }

  lemma DisjointRemove(lists: Lists, l: nat, p: nat)
    requires Disjoint(lists) && l < |lists| && Distinct(lists[l])
    ensures Disjoint(Remove(lists, l, p))
  {
    var ls := Remove(lists, l, p);
    WithoutFacts(lists[l], p);
    forall j, k, x: nat | 0 <= j < |ls| && 0 <= k < |ls| && On(ls, j, x) && On(ls, k, x) ensures j == k {
      assert On(lists, j, x) && On(lists, k, x);
    }
  }

  lemma ChainCut(next: seq<int>, h: int, s: seq<nat>, k: nat)
    requires Chain(next, h, s) && Distinct(s) && k < |s|
    ensures Chain(if k == 0 then next else next[s[k - 1] := next[s[k]]], if k == 0 then next[s[k]]
            else h, s[..k] + s[k + 1..])
  {
    var t := s[..k] + s[k + 1..];
    var next' := if k == 0 then next else next[s[k - 1] := next[s[k]]];
    forall i | 0 <= i < |t| ensures t[i] < |next'| && next'[t[i]] == After(t, i) {
      assert t[i] == if i < k then s[i] else s[i + 1];
      assert next[s[k]] == After(s, k);
    }
  }

  // Put p behind the last element of the list at l.
  lemma LinkedAppend(next: seq<int>, head: seq<int>, lists: Lists, l: nat, p: nat)
    requires Linked(next, head, lists) && l < NLISTS && p < |next| && Nowhere(lists, p)
    ensures var s := lists[l];
            var head' := if s == [] then head[l := p] else head;
            var next' := (if s == [] then next else next[s[|s| - 1] := p])[p := NULL];
            Linked(next', head', Append(lists, l, p))
  {
    var s := lists[l];
    var ls := Append(lists, l, p);
    AddOk(|next|, lists, l, p, false);
    var next1 := if s == [] then next else next[s[|s| - 1] := p];
    var next', head' := next1[p := NULL], if s == [] then head[l := p] else head;
    forall j | 0 <= j < NLISTS ensures Chain(next', head'[j], ls[j]) {
      if j == l {
        ChainAppend(next, head[l], s, p);
      } else {
        assert !On(lists, j, p);
        if s != [] { assert On(lists, l, s[|s| - 1]) &&
            !On(lists, j, s[|s| - 1]); ChainKept(next, head[j], lists[j], s[|s| - 1], p); }
        ChainKept(next1, head[j], lists[j], p, NULL);
      }
    }
    DisjointAdd(|next|, lists, l, p, false);
  }

  lemma ChainAppend(next: seq<int>, h: int, s: seq<nat>, p: nat)
    requires Chain(next, h, s) && Distinct(s) && p < |next| && p !in s
    ensures var next1 := if s == [] then next else next[s[|s| - 1] := p];
            Chain(next1[p := NULL], if s == [] then p else h, s + [p])
  {
    var t := s + [p];
    var next1 := if s == [] then next else next[s[|s| - 1] := p];
    forall i | 0 <= i < |t| ensures t[i] < |next| && next1[p := NULL][t[i]] == After(t, i) {
      if i < |s| { assert t[i] == s[i]; }
    }
  }

  // Queue j + 1 goes behind queue j.
  function MergedLists(lists: Lists, j: nat): Lists
    requires j + 1 < |lists|
  { lists[j := lists[j] + lists[j + 1]][j + 1 := []] }

  lemma LinkedMerge(next: seq<int>, head: seq<int>, lists: Lists, j: nat)
    requires Linked(next, head, lists) && j + 1 < NLISTS
    ensures var a := lists[j];
            var next' := if a == [] then next else next[a[|a| - 1] := head[j + 1]];
            var head' := (if a == [] then head[j := head[j + 1]] else head)[j + 1 := NULL];
            Linked(next', head', MergedLists(lists, j))
  {
    var a, b, ls := lists[j], lists[j + 1], MergedLists(lists, j);
    var next' := if a == [] then next else next[a[|a| - 1] := head[j + 1]];
    var head' := (if a == [] then head[j := head[j + 1]] else head)[j + 1 := NULL];
    forall l | 0 <= l < NLISTS ensures Chain(next', head'[l], ls[l]) {
      assert Chain(next, head[l], lists[l]) && Chain(next, head[j], a) && Chain(next, head[j + 1], b);
      if l == j {
        MergeDistinct(lists, j);
        ChainMerge(next, head[j], a, head[j + 1], b);
      } else if l != j + 1 && a != [] {
        assert On(lists, j, a[|a| - 1]) && !On(lists, l, a[|a| - 1]);
        ChainKept(next, head[l], lists[l], a[|a| - 1], head[j + 1]);
      }
    }
    MergeDistinct(lists, j);
    MergeDisjoint(lists, j);
  }

  lemma MergeDistinct(lists: Lists, j: nat)
    requires |lists| == NLISTS && Disjoint(lists) && j + 1 < NLISTS && Distinct(lists[j]) && Distinct(lists[j + 1])
    ensures Distinct(lists[j] + lists[j + 1])
  {
    var a, b := lists[j], lists[j + 1];
    forall i, k | 0 <= i < |a| && 0 <= k < |b| ensures a[i] != b[k] {
      assert On(lists, j, a[i]) && On(lists, j + 1, b[k]);
    }
  }

  lemma MergeDisjoint(lists: Lists, j: nat)
    requires |lists| == NLISTS && Disjoint(lists) && j + 1 < NLISTS
    ensures Disjoint(MergedLists(lists, j))
  {
    var ls := MergedLists(lists, j);
    forall l, k, x: nat | 0 <= l < |ls| && 0 <= k < |ls| && On(ls, l, x) && On(ls, k, x) ensures l == k {
      assert On(lists, l, x) || (l == j && On(lists, j + 1, x));
      assert On(lists, k, x) || (k == j && On(lists, j + 1, x));
    }
  }

  lemma ChainMerge(next: seq<int>, h: int, a: seq<nat>, g: int, b: seq<nat>)
    requires Chain(next, h, a) && Chain(next, g, b) && Distinct(a + b)
    ensures Chain(if a == [] then next else next[a[|a| - 1] := g], if a == [] then g else h, a + b)
  {
    var t := a + b;
    assert a == [] ==> t == b;
    var next' := if a == [] then next else next[a[|a| - 1] := g];
    forall i | 0 <= i < |t| ensures t[i] < |next'| && next'[t[i]] == After(t, i) {
      if i < |a| {
        assert t[i] == a[i] && next[a[i]] == After(a, i);
        if i + 1 < |a| { assert t[i] != t[|a| - 1] && t[i + 1] == a[i + 1]; }
      } else {
        assert t[i] == b[i - |a|] && next[b[i - |a|]] == After(b, i - |a|);
        if a != [] { assert t[|a| - 1] != t[i]; }
        if i + 1 < |t| { assert t[i + 1] == b[i + 1 - |a|]; }
      }
    }
  }
}

/** The process table as proc.c has it: the processes' fields, their `next` links and the list heads,
    with each critical section a method. */
module ProcTable {
  import opened Sequences
  import opened ProcSpec
  import opened ProcScan
  import opened ProcLinks
  import Scheduler

  class ProcTable {
    var procs: seq<Proc>
    var next: seq<int>
    var head: seq<int>         // pLists, by list number
    var nextpid: nat
    var promoteAt: nat
    var initproc: nat
    ghost var lists: Lists

    ghost function View(): Table
      reads this
    { Table(procs, lists, nextpid, promoteAt) }

    ghost predicate Links()
      reads this
    { (|procs| == |next| && Linked(next, head, lists)) == true }

    ghost predicate Sound()
      reads this
    { (Links() && Ok(View())) == true }   // one goal for the verifier, not one per conjunct

    // userinit: all slots on the free list, then the first process is taken, made Runnable and put
    // on the first ready queue. The kernel has NPROC slots; the memory they lie in starts out zero.
    constructor (slots: nat)
      requires slots > 0
      ensures Sound() && |procs| == slots && BootedTable(View(), initproc)
    {
      var zero := Proc(Unused, 0, NULL, 0, false, 0, 0, 0);
      procs := seq(slots, _ => zero);
      next := seq(slots, _ => NULL);
      head := seq(NLISTS, _ => NULL);
      lists := seq(NLISTS, _ => []);
      nextpid, promoteAt, initproc := 1, 0, 0;
      new;
      InitFree();
      StartInit();
    }

    // The first process.
    method StartInit()
      requires Sound() && lists[FREE] != [] && nextpid == 1
      requires forall x :: 0 <= x < |procs| ==> procs[x] == Proc(Unused, 0, NULL, 0, false, 0, 0, 0)
      modifies this
      ensures Sound() && |procs| == old(|procs|) && BootedTable(View(), initproc)
    {
      var ok, p := AllocProc();
      var q := procs[p].(budget := DEFAULT_BUDGET, priority := DEFAULT_PRIORITY);
      TouchPartition(procs, lists, p, q);
      procs := procs[p := q];
      initproc := p;
      promoteAt := TICKS_TO_PROMOTE;
      ok := RelistReady(p, EMBRYO, 0, Embryo, procs[p].(state := Runnable));
    }

    // userinit's loop: every slot goes to the front of the free list.
    method InitFree()
      requires Links() && forall l :: 0 <= l < NLISTS ==> lists[l] == []
      requires forall x :: 0 <= x < |procs| ==> procs[x] == Proc(Unused, 0, NULL, 0, false, 0, 0, 0)
      modifies this`next, this`head, this`lists
      ensures Sound() && (|procs| > 0 ==> lists[FREE] != [])
    {
      var p := 0;
      while p < |procs|
        invariant 0 <= p <= |procs| && Links()
        invariant forall l :: 0 <= l < NLISTS && l != FREE ==> lists[l] == []
        invariant |lists[FREE]| == p && forall i :: 0 <= i < p ==> lists[FREE][i] == p - 1 - i
      {
        assert Nowhere(lists, p) by {
          forall l | 0 <= l < NLISTS ensures !On(lists, l, p) {}
        }
        AddToFrontOfList(FREE, p);
        p := p + 1;
      }
      AllFree(procs, lists);
    }

    // ---- list helpers ----

    method AddToFrontOfList(l: nat, p: nat)
      requires Links() && l < NLISTS && p < |procs| && Nowhere(lists, p)
      modifies this`next, this`head, this`lists
      ensures Links() && lists == Push(old(lists), l, p)
    {
      LinkedPush(next, head, lists, l, p);
      next := next[p := head[l]];
      head := head[l := p];
      lists := Push(lists, l, p);
    }

    method RemoveFromFront(l: nat) returns (rc: int)
      requires Links() && l < NLISTS
      modifies this`next, this`head, this`lists
      ensures Links()
      ensures old(lists[l]) == [] ==> rc == -1 && lists == old(lists)
      ensures old(lists[l]) != [] ==>
              rc == 0 && lists == Remove(old(lists), l, old(lists[l][0])) && Nowhere(lists, old(lists[l][0]))
    {
      if head[l] == NULL { return -1; }
      LinkedRemove(next, head, lists, l, 0);
      var p := head[l];
      head := head[l := next[p]];
      next := next[p := NULL];
      lists := Remove(lists, l, p);
      return 0;
    }

    method RemoveFromList(l: nat, p: nat) returns (rc: int)
      requires Links() && l < NLISTS && p < |procs|
      modifies this`next, this`head, this`lists
      ensures Links()
      ensures p in old(lists[l]) ==> rc == 0 && lists == Remove(old(lists), l, p) && Nowhere(lists, p)
      ensures p !in old(lists[l]) ==> rc == -1 && lists == old(lists)
    {
      if head[l] == NULL { return -1; }
      ghost var s := lists[l];
      var current := head[l];
      if current == p {
        LinkedRemove(next, head, lists, l, 0);
        head := head[l := next[current]];
        next := next[p := NULL];
        lists := Remove(lists, l, p);
        return 0;
      }
      assert Chain(next, head[l], s) && next[current] == After(s, 0);
      var previous := current;
      current := next[current];
      ghost var k := 1;
      while current != NULL
        invariant next == old(next) && head == old(head) && lists == old(lists)
        invariant 1 <= k <= |s| && previous == s[k - 1] && current == (if k < |s| then s[k] else NULL)
        invariant forall i :: 0 <= i < k ==> s[i] != p
        decreases |s| - k
      {
        assert Chain(next, head[l], s) && next[current] == After(s, k);
        if current == p {
          LinkedRemove(next, head, lists, l, k);
          next := next[previous := next[p]];
          next := next[p := NULL];
          lists := Remove(lists, l, p);
          return 0;
        }
        previous := current;
        current := next[current];
        k := k + 1;
      }
      return -1;
    }

    method AddToReadyPriorityList(l: nat, p: nat)
      requires Links() && l <= MAX && p < |procs| && Nowhere(lists, p)
      modifies this`next, this`head, this`lists
      ensures Links() && lists == Append(old(lists), l, p)
    {
      LinkedAppend(next, head, lists, l, p);
      ghost var s := lists[l];
      lists := Append(lists, l, p);
      if head[l] == NULL {
        next := next[p := NULL];
        head := head[l := p];
        return;
      }
      var current := head[l];
      ghost var k := 0;
      while next[current] != NULL
        invariant next == old(next) && head == old(head) && lists == Append(old(lists), l, p)
        invariant 0 <= k < |s| && current == s[k]
        decreases |s| - k
      {
        assert Chain(next, head[l], s) && next[current] == After(s, k);
        current := next[current];
        k := k + 1;
      }
      assert Chain(next, head[l], s) && next[current] == After(s, k) && k == |s| - 1;
      next := next[current := p];
      next := next[p := NULL];
    }

    // ---- critical sections; ok is false where the source panics ----

    // Take p, the first process of list l, off it; it must be in state `expected`.
    method Unfront(p: nat, l: nat, expected: ProcState) returns (ok: bool)
      requires Links() && l < NLISTS && p < |procs| && lists[l] != [] && lists[l][0] == p && procs[p].state == expected
      modifies this`next, this`head, this`lists
      ensures ok && Links() && lists == Remove(old(lists), l, p) && Nowhere(lists, p)
    {
      var rc := RemoveFromFront(l);
      ok := rc >= 0 && procs[p].state == expected;
    }

    // allocproc, up to the release of the lock.
    method AllocProc() returns (ok: bool, p: int)
      requires Sound()
      modifies this
      ensures ok && Sound() && initproc == old(initproc)
      ensures if old(lists[FREE]) == [] then p == NULL && View() == old(View())
              else p == old(lists[FREE][0]) && View() == Allocated(old(View()))
    {
      p := head[FREE];
      if p == NULL { return true, p; }
      OnList(next, head, lists, procs, FREE, 0);
      ok := Unfront(p, FREE, Unused);
      if ok {
        EnlistFront(p, procs[p].(state := Embryo, pid := nextpid), EMBRYO, old(View()));
        nextpid := nextpid + 1;
      }
    }

    // Take p off list `from`, on which it must be in state `expected`.
    method Unlist(p: nat, from: nat, expected: ProcState) returns (ok: bool)
      requires Sound() && p < |procs| && procs[p].state == expected && from == ListOf(procs[p])
      modifies this`next, this`head, this`lists
      ensures ok && Links() && lists == Remove(old(lists), from, p) && Nowhere(lists, p)
    {
      assert On(lists, from, p);
      var rc := RemoveFromList(from, p);
      ok := rc >= 0 && procs[p].state == expected;
    }

    // p has been taken off its list in table t.
    ghost predicate Taken(t: Table, p: nat)
      reads this
    {
      && Ok(t) && p < |t.procs| && Links() && procs == t.procs && nextpid == t.nextpid && promoteAt == t.promoteAt
      && lists == Remove(t.lists, ListOf(t.procs[p]), p) && Nowhere(lists, p)
    }

    // Make p, which has been taken off its list, q, and put it at the front of list `to`.
    method EnlistFront(p: nat, q: Proc, to: nat, ghost t: Table)
      requires Taken(t, p) && q.priority <= MAX && to == ListOf(q)
      modifies this`procs, this`next, this`head, this`lists
      ensures Sound() && View() == Transit(t, p, q, true)
    {
      TransitOk(t, p, q, true);
      procs := procs[p := q];
      AddToFrontOfList(to, p);
    }

    // Move p from list `from` to the front of list `to`.
    method RelistFront(p: nat, from: nat, to: nat, expected: ProcState, q: Proc) returns (ok: bool)
      requires Sound() && p < |procs| && procs[p].state == expected && from == ListOf(procs[p])
      requires q.priority <= MAX && to == ListOf(q)
      modifies this`procs, this`next, this`head, this`lists
      ensures ok && Sound() && View() == Transit(old(View()), p, q, true)
    {
      ok := Unlist(p, from, expected);
      if ok { EnlistFront(p, q, to, old(View())); }
    }

    // Move p from list `from` to the end of ready queue `to`.
    method RelistReady(p: nat, from: nat, to: nat, expected: ProcState, q: Proc) returns (ok: bool)
      requires Sound() && p < |procs| && procs[p].state == expected && from == ListOf(procs[p])
      requires q.priority <= MAX && to == ListOf(q) <= MAX
      modifies this`procs, this`next, this`head, this`lists
      ensures ok && Sound() && View() == Transit(old(View()), p, q, false)
    {
      TransitOk(View(), p, q, false);
      ok := Unlist(p, from, expected);
      if !ok { return; }
      procs := procs[p := q];
      AddToReadyPriorityList(to, p);
      assert View() == Transit(old(View()), p, q, false);
    }

    // The failure paths of allocproc and fork.
    method GiveBack(np: nat) returns (ok: bool)
      requires Sound() && np < |procs| && procs[np].state == Embryo
      modifies this`procs, this`next, this`head, this`lists
      ensures ok && Sound() && View() == Unallocated(old(View()), np)
    {
      ok := RelistFront(np, EMBRYO, FREE, Embryo, procs[np].(state := Unused));
    }

    // The end of fork.
    method ForkDone(np: nat) returns (ok: bool)
      requires Sound() && np < |procs| && procs[np].state == Embryo
      modifies this`procs, this`next, this`head, this`lists
      ensures ok && Sound() && View() == MadeReady(old(View()), np)
    {
      ok := RelistReady(np, EMBRYO, procs[np].priority, Embryo, procs[np].(state := Runnable));
    }

    // The scheduler's switch to p, the first process of ready queue i.
    method Dispatch(i: nat, ticks: nat) returns (ok: bool)
      requires Sound() && i <= MAX && lists[i] != []
      modifies this`procs, this`next, this`head, this`lists
      ensures ok && Sound() && View() == Dispatched(old(View()), old(lists[i][0]), ticks)
    {
      var p: nat := head[i];
      OnList(next, head, lists, procs, i, 0);
      ok := Unfront(p, procs[p].priority, Runnable);
      if ok { EnlistFront(p, procs[p].(state := Running, ticksIn := ticks), RUNNING, old(View())); }
    }

    // Budget accounting: unsigned 32-bit, so "<= 0" means exactly zero.
    method Charge(p: Proc, ticks: nat) returns (q: Proc)
      ensures q == Charged(p, ticks)
    {
      q := p.(budget := (p.budget - (ticks - p.ticksIn)) % ProcSpec.TWO32);
      if q.budget <= 0 {
        if q.priority != MAX {
          q := q.(priority := q.priority + 1, budget := DEFAULT_BUDGET);
        } else {
          q := q.(budget := DEFAULT_BUDGET);
        }
      }
    }

    method Yield(p: nat, ticks: nat) returns (ok: bool)
      requires Sound() && p < |procs| && procs[p].state == Running
      modifies this`procs, this`next, this`head, this`lists
      ensures ok && Sound() && View() == Yielded(old(View()), p, ticks)
    {
      var q := Charge(procs[p].(state := Runnable), ticks);
      assert q == Charged(procs[p], ticks).(state := Runnable);
      ok := RelistReady(p, RUNNING, q.priority, Running, q);
    }

    method Sleep(p: nat, chan: int, ticks: nat) returns (ok: bool)
      requires Sound() && p < |procs| && procs[p].state == Running
      modifies this`procs, this`next, this`head, this`lists
      ensures ok && Sound() && View() == Slept(old(View()), p, chan, ticks)
    {
      var q := Charge(procs[p].(chan := chan), ticks);
      assert q.(state := Sleeping) == Charged(procs[p], ticks).(state := Sleeping, chan := chan);
      ok := RelistFront(p, RUNNING, SLEEP, Running, q.(state := Sleeping));
    }

    // The body of wakeup1's loop for p, with `kept` before it and `rest` behind it on the sleep list.
    method WakeOne(p: nat, chan: int, ghost kept: seq<nat>, ghost rest: seq<nat>)
        returns (ok: bool, temp: int, ghost kept': seq<nat>)
      requires Sound() && lists[SLEEP] == kept + ([p] + rest)
      modifies this`procs, this`next, this`head, this`lists
      ensures ok && Sound() && temp == First(rest) && p < old(|procs|)
      ensures lists[SLEEP] == kept' + rest
      ensures View() == if old(procs)[p].chan == chan then Woken(old(View()), p) else old(View())
    {
      Middle(kept, p, rest);
      OnList(next, head, lists, procs, SLEEP, |kept|);
      temp := next[p];
      if procs[p].chan == chan {
        kept' := kept;
        ok := RelistReady(p, SLEEP, procs[p].priority, Sleeping, procs[p].(state := Runnable));
      } else {
        kept' := kept + [p];
        ok := true;
      }
    }

    // wakeup1 has come to p, with `kept` passed over and `rest` still ahead, on its way to `goal`.
    ghost predicate Waking(kept: seq<nat>, rest: seq<nat>, p: int, chan: int, goal: Table)
      reads this
    {
      (&& Sound() && lists[SLEEP] == kept + rest && p == First(rest)
       && (forall j :: 0 <= j < |rest| ==> rest[j] < |procs|)
       && WakeAll(View(), rest, chan) == goal) == true
    }

    method WakeNext(p: nat, chan: int, ghost kept: seq<nat>, ghost rest: seq<nat>, ghost goal: Table)
        returns (ok: bool, temp: int, ghost kept': seq<nat>)
      requires rest != [] && Waking(kept, rest, p, chan, goal)
      modifies this`procs, this`next, this`head, this`lists
      ensures ok && Waking(kept', rest[1..], temp, chan, goal)
    {
      ghost var tail: seq<nat> := rest[1..];
      assert rest == [p] + tail;
      WakeAllStep(View(), p, tail, chan);
      ok, temp, kept' := WakeOne(p, chan, kept, tail);
    }

    // wakeup1: walk the sleep list, remembering the next process before the current one moves.
    method Wakeup1(chan: int) returns (ok: bool)
      requires Sound()
      modifies this`procs, this`next, this`head, this`lists
      ensures ok && Sound() && View() == ProcSpec.Wakeup1(old(View()), chan)
    {
      ghost var rest: seq<nat> := lists[SLEEP];
      ghost var kept: seq<nat> := [];
      ghost var goal := ProcSpec.Wakeup1(View(), chan);
      var p := head[SLEEP];
      ok := true;
      assert kept + rest == rest;
      while p != NULL
        invariant ok && Waking(kept, rest, p, chan, goal)
        decreases |rest|
      {
        ok, p, kept := WakeNext(p, chan, kept, rest, goal);
        rest := rest[1..];
      }
    }

    // ---- walks over a list ----

    // The first process on list l with the given pid, or NULL.
    method FindOnList(l: nat, pid: nat) returns (p: int)
      requires Sound() && l < NLISTS
      ensures p == FindPid(procs, lists[l], pid)
    {
      p := head[l];
      ghost var rest: seq<nat> := lists[l];
      ghost var k := 0;
      while p != NULL
        invariant 0 <= k <= |lists[l]| && rest == lists[l][k..] && p == First(rest)
        invariant FindPid(procs, rest, pid) == FindPid(procs, lists[l], pid)
        decreases |rest|
      {
        OnList(next, head, lists, procs, l, k);
        if procs[p].pid == pid { return; }
        p := next[p];
        rest, k := rest[1..], k + 1;
      }
    }

    // The first process on list l whose parent is given, or NULL.
    method ChildOnList(l: nat, parent: int) returns (p: int)
      requires Sound() && l < NLISTS
      ensures p == FirstChild(procs, lists[l], parent)
    {
      p := head[l];
      ghost var rest: seq<nat> := lists[l];
      ghost var k := 0;
      while p != NULL
        invariant 0 <= k <= |lists[l]| && rest == lists[l][k..] && p == First(rest)
        invariant FirstChild(procs, rest, parent) == FirstChild(procs, lists[l], parent)
        decreases |rest|
      {
        OnList(next, head, lists, procs, l, k);
        if procs[p].parent == parent { return; }
        p := next[p];
        rest, k := rest[1..], k + 1;
      }
    }

    // The first process with the given pid on the lists ls, in order, or NULL.
    method FindOnLists(ls: seq<nat>, pid: nat) returns (p: int)
      requires Sound() && forall i :: 0 <= i < |ls| ==> ls[i] < NLISTS
      ensures p == FindInLists(View(), ls, pid)
    {
      var i := 0;
      p := NULL;
      assert ls[0..] == ls;
      while i < |ls|
        invariant 0 <= i <= |ls| && p == NULL
        invariant FindInLists(View(), ls[i..], pid) == FindInLists(View(), ls, pid)
      {
        p := FindOnList(ls[i], pid);
        assert ls[i..][1..] == ls[i + 1..];
        if p != NULL { return; }
        i := i + 1;
      }
    }

    // adoptzombiechildren on list l.
    method AdoptOnList(l: nat, parent: int)
      requires Sound() && l < NLISTS
      modifies this`procs
      ensures procs == AdoptIn(old(procs), lists[l], parent, initproc) && Sound()
    {
      var current := head[l];
      ghost var rest: seq<nat> := lists[l];
      ghost var k := 0;
      while current != NULL
        invariant 0 <= k <= |lists[l]| && rest == lists[l][k..] && current == First(rest)
        invariant |procs| == old(|procs|) && SameButParents(procs, old(procs))
        invariant AdoptIn(procs, rest, parent, initproc) == AdoptIn(old(procs), lists[l], parent, initproc)
        decreases |rest|
      {
        assert lists[l][k] < |procs| && rest[0] == lists[l][k];
        OnList(next, head, lists, old(procs), l, k);
        if procs[current].parent == parent {
          procs := procs[current := procs[current].(parent := initproc)];
        }
        current := next[current];
        rest, k := rest[1..], k + 1;
      }
      ParentsKeepPartition(old(procs), procs, lists);
    }

    // ---- exit, wait, kill, setpriority ----

    // exit's adoption over the lists ls, in order.
    method AdoptAll(ls: seq<nat>, parent: int)
      requires Sound() && forall i :: 0 <= i < |ls| ==> ls[i] < NLISTS
      modifies this`procs
      ensures Sound() && View() == AdoptLists(old(View()), ls, parent, initproc)
      decreases |ls|
    {
      if ls == [] { return; }
      AdoptOnList(ls[0], parent);
      AdoptAll(ls[1..], parent);
    }

    // exit has come to zombie p, with `rest` still ahead on the zombie list, on its way to `goal`.
    ghost predicate Adopting(k: nat, rest: seq<nat>, p: int, parent: int, goal: Table)
      reads this
    {
      (&& Sound() && k <= |lists[ZOMBIE]| && rest == lists[ZOMBIE][k..] && p == First(rest)
       && AdoptZombies(View(), rest, parent, initproc) == goal) == true
    }

    // Adopt zombie p if it is a child, and wake init.
    method AdoptNext(p: nat, parent: int, ghost k: nat, ghost rest: seq<nat>, ghost goal: Table)
        returns (ok: bool, q: int)
      requires rest != [] && Adopting(k, rest, p, parent, goal)
      modifies this`procs, this`next, this`head, this`lists
      ensures ok && Adopting(k + 1, rest[1..], q, parent, goal)
    {
      OnList(next, head, lists, procs, ZOMBIE, k);
      assert rest == [p] + rest[1..] && rest[1..] == lists[ZOMBIE][k + 1..];
      AdoptZombiesStep(View(), p, rest[1..], parent, initproc);
      ok := true;
      if procs[p].parent == parent {
        ok := HandToInit(p);
        OnList(next, head, lists, procs, ZOMBIE, k);
      }
      q := next[p];
    }

    // init becomes the parent of p, and is woken.
    method HandToInit(p: nat) returns (ok: bool)
      requires Sound() && p < |procs|
      modifies this`procs, this`next, this`head, this`lists
      ensures ok && Sound() && lists[ZOMBIE] == old(lists[ZOMBIE]) && |procs| == old(|procs|)
      ensures var u := Touch(old(View()), p, old(procs)[p].(parent := initproc));
              Ok(u) && View() == ProcSpec.Wakeup1(u, ChanOf(initproc))
    {
      TouchPartition(procs, lists, p, procs[p].(parent := initproc));
      procs := procs[p := procs[p].(parent := initproc)];
      ZombiesStay(View(), ChanOf(initproc));
      ok := Wakeup1(ChanOf(initproc));
    }

    // exit's walk over the zombie list.
    method AdoptZombieChildren(parent: int) returns (ok: bool)
      requires Sound()
      modifies this`procs, this`next, this`head, this`lists
      ensures ok && Sound() && View() == AdoptZombies(old(View()), old(lists[ZOMBIE]), parent, initproc)
    {
      ghost var rest: seq<nat> := lists[ZOMBIE];
      ghost var goal := AdoptZombies(View(), rest, parent, initproc);
      ghost var k := 0;
      ok := true;
      var p := head[ZOMBIE];
      while p != NULL
        invariant ok && Adopting(k, rest, p, parent, goal)
        decreases |rest|
      {
        ok, p := AdoptNext(p, parent, k, rest, goal);
        rest, k := rest[1..], k + 1;
      }
    }

    // exit's work for others.
    method Orphan(p: nat) returns (ok: bool)
      requires Sound() && p < |procs|
      modifies this`procs, this`next, this`head, this`lists
      ensures ok && Sound() && View() == Orphaned(old(View()), p, initproc)
    {
      ok := Wakeup1(ChanOf(procs[p].parent));
      if !ok { return; }
      AdoptAll(ADOPT_LISTS, p);
      ok := AdoptZombieChildren(p);
    }

    // exit of process p, from taking the lock to the call of sched.
    method Exit(p: nat) returns (ok: bool)
      requires Sound() && p < |procs| && procs[p].state == Running
      modifies this`procs, this`next, this`head, this`lists
      ensures ok == (p != initproc)
      ensures !ok ==> View() == old(View())
      ensures ok ==> Sound() && View() == Exited(old(View()), p, initproc)
    {
      if p == initproc { return false; }
      StillRunning(View(), p, initproc);
      ok := Orphan(p);
      if !ok { return; }
      ok := RelistFront(p, RUNNING, ZOMBIE, Running, procs[p].(state := Zombie));
    }

    // checkforchildren on the lists of processes that have not exited.
    method HaveKids(p: int) returns (havekids: bool)
      requires Sound()
      ensures havekids == HasKids(View(), KID_LISTS, p)
    {
      havekids := false;
      var i := 0;
      assert KID_LISTS[0..] == KID_LISTS;
      while i < |KID_LISTS|
        invariant 0 <= i <= |KID_LISTS|
        invariant HasKids(View(), KID_LISTS, p) <==> havekids || HasKids(View(), KID_LISTS[i..], p)
      {
        assert KID_LISTS[i..][1..] == KID_LISTS[i + 1..];
        var c := ChildOnList(KID_LISTS[i], p);
        if c != NULL { havekids := true; }
        i := i + 1;
      }
    }

    // One pass of wait by process p; where the source sleeps, it returns.
    method Wait(p: nat) returns (ok: bool, w: WaitResult)
      requires Sound() && p < |procs|
      modifies this`procs, this`next, this`head, this`lists
      ensures ok && Sound() && w == WaitPass(old(View()), p)
      ensures View() == if w.Reap? then Reaped(old(View()), w.child) else old(View())
    {
      var havekids := HaveKids(p);
      var z := ChildOnList(ZOMBIE, p);
      if z != NULL {
        ok := ReapZombie(z);
        return ok, Reap(z);
      }
      if !havekids || procs[p].killed { return true, Fail; }
      return true, Block;
    }

    method ReapZombie(z: nat) returns (ok: bool)
      requires Sound() && z < |procs| && On(lists, ZOMBIE, z)
      modifies this`procs, this`next, this`head, this`lists
      ensures ok && Sound() && View() == Reaped(old(View()), z)
    {
      assert ListOf(procs[z]) == ZOMBIE;
      ok := RelistFront(z, ZOMBIE, FREE, Zombie, FreedSlot(procs[z]));
    }

    method Kill(pid: nat) returns (ok: bool, rc: int)
      requires Sound()
      modifies this`procs, this`next, this`head, this`lists
      ensures ok && Sound() && rc == Killed(old(View()), pid).0 && View() == Killed(old(View()), pid).1
    {
      var p := FindOnList(SLEEP, pid);
      if p != NULL {
        ok := KillSleeper(p);
        return ok, 0;
      }
      p := FindOnLists(KILL_LISTS, pid);
      if p != NULL {
        MarkKilled(p);
        return true, 0;
      }
      return true, -1;
    }

    method KillSleeper(p: nat) returns (ok: bool)
      requires Sound() && p < |procs| && On(lists, SLEEP, p)
      modifies this`procs, this`next, this`head, this`lists
      ensures ok && Sound() && View() == Transit(old(View()), p, old(procs)[p].(state := Runnable, killed := true),
              false)
    {
      assert ListOf(procs[p]) == SLEEP;
      ok := RelistReady(p, SLEEP, procs[p].priority, Sleeping, procs[p].(state := Runnable, killed := true));
    }

    method MarkKilled(p: nat)
      requires Sound() && p < |procs|
      modifies this`procs
      ensures Sound() && View() == Touch(old(View()), p, old(procs)[p].(killed := true))
    {
      TouchPartition(procs, lists, p, procs[p].(killed := true));
      procs := procs[p := procs[p].(killed := true)];
    }

    method SetPriority(pid: int, priority: int) returns (ok: bool, rc: int)
      requires Sound()
      modifies this`procs, this`next, this`head, this`lists
      ensures ok && Sound() && rc == Prioritised(old(View()), pid, priority).0 &&
              View() == Prioritised(old(View()), pid, priority).1
    {
      if pid < 0 || pid > 32767 { return true, -2; }
      if priority < 0 || priority > MAX { return true, -3; }
      var p := FindOnLists(PRIO_LISTS, pid);
      if p == NULL { return true, -4; }
      if procs[p].priority == priority { return true, -5; }
      ok := ChangePriority(p, priority);
      rc := 0;
    }

    method ChangePriority(p: nat, priority: nat) returns (ok: bool)
      requires Sound() && p < |procs| && priority <= MAX
      modifies this`procs, this`next, this`head, this`lists
      ensures ok && Sound() && View() == GivePriority(old(View()), p, priority)
    {
      var q := procs[p].(priority := priority, budget := DEFAULT_BUDGET);
      if procs[p].state == Runnable {
        ok := RelistReady(p, procs[p].priority, priority, Runnable, q);
      } else {
        TouchPartition(procs, lists, p, q);
        procs := procs[p := q];
        ok := true;
      }
    }

    // ---- promotion ----

    // promotiononotherlists on list l.
    method RaiseOnList(l: nat)
      requires Sound() && MAX < l < NLISTS
      modifies this`procs
      ensures Sound() && View() == RaisedOn(old(View()), l)
    {
      RaiseInOk(View(), l);
      RaiseFrom(head[l], lists[l]);
    }

    // Raise every process from p on.
    method RaiseFrom(p: int, ghost rest: seq<nat>)
      requires |next| == |procs| && Chain(next, p, rest)
      modifies this`procs
      ensures |procs| == old(|procs|) && (forall i :: 0 <= i < |rest| ==> rest[i] < |procs|) &&
              procs == RaiseIn(old(procs), rest)
    {
      var current := p;
      ghost var todo: seq<nat> := rest;
      ghost var k := 0;
      while current != NULL
        invariant 0 <= k <= |rest| && todo == rest[k..] && current == First(todo) && |procs| == |next|
        invariant RaiseIn(procs, todo) == RaiseIn(old(procs), rest)
        decreases |todo|
      {
        assert todo[0] == rest[k] && next[current] == After(rest, k);
        ghost var raised := procs[current := Raise(procs[current])];
        if procs[current].priority != DEFAULT_PRIORITY {
          procs := procs[current := procs[current].(priority := procs[current].priority - 1)];
        }
        assert procs == raised;
        current := next[current];
        todo, k := todo[1..], k + 1;
      }
    }

    // Give every process from p on the given priority.
    method LevelFrom(p: int, level: nat, ghost rest: seq<nat>)
      requires |next| == |procs| && Chain(next, p, rest)
      modifies this`procs
      ensures |procs| == old(|procs|) && (forall i :: 0 <= i < |rest| ==> rest[i] < |procs|) &&
              procs == LevelIn(old(procs), rest, level)
    {
      var p2 := p;
      ghost var todo: seq<nat> := rest;
      ghost var k := 0;
      while p2 != NULL
        invariant 0 <= k <= |rest| && todo == rest[k..] && p2 == First(todo) && |procs| == |next|
        invariant LevelIn(procs, todo, level) == LevelIn(old(procs), rest, level)
        decreases |todo|
      {
        assert todo[0] == rest[k] && next[p2] == After(rest, k);
        procs := procs[p2 := procs[p2].(priority := level)];
        p2 := next[p2];
        todo, k := todo[1..], k + 1;
      }
    }

    // The last process on a list that is not empty.
    method LastOnList(l: nat) returns (p1: nat)
      requires Sound() && l < NLISTS && lists[l] != []
      ensures p1 == lists[l][|lists[l]| - 1]
    {
      p1 := head[l];
      ghost var k := 0;
      OnList(next, head, lists, procs, l, 0);
      while next[p1] != NULL
        invariant 0 <= k < |lists[l]| && p1 == lists[l][k] < |next| && next[p1] == After(lists[l], k)
        decreases |lists[l]| - k
      {
        p1 := next[p1];
        k := k + 1;
        OnList(next, head, lists, procs, l, k);
      }
    }

    // promotiononreadylists.
    method PromoteReady(j: nat)
      requires Sound() && j < MAX
      modifies this`procs, this`next, this`head, this`lists
      ensures Sound() && View() == Merged(old(View()), j)
    {
      MergedOk(View(), j);
      LinkedMerge(next, head, lists, j);
      ghost var b := lists[j + 1];
      var p2 := head[j + 1];
      assert Chain(next, p2, b);
      if head[j] == NULL {
        head := head[j := head[j + 1]];
        LevelFrom(p2, j, b);
      } else {
        var p1 := LastOnList(j);
        assert On(lists, j, p1) && !On(lists, j + 1, p1);
        ChainKept(next, p2, b, p1, p2);
        next := next[p1 := head[j + 1]];
        LevelFrom(p2, j, b);
      }
      head := head[j + 1 := NULL];
      lists := MergedLists(lists, j);
    }

    method PromoteQueues()
      requires Sound()
      modifies this`procs, this`next, this`head, this`lists
      ensures Sound() && View() == MergeFrom(old(View()), 0)
    {
      var j := 0;
      while j < MAX
        invariant 0 <= j <= MAX && Sound() && MergeFrom(View(), j) == MergeFrom(old(View()), 0)
      {
        MergedOk(View(), j);
        PromoteReady(j);
        j := j + 1;
      }
    }

    method RaiseAll()
      requires Sound()
      modifies this`procs, this`next, this`head, this`lists
      ensures Sound() && View() == MergeFrom(RaisedOn(RaisedOn(old(View()), SLEEP), RUNNING), 0)
    {
      RaiseOnList(SLEEP);
      RaiseOnList(RUNNING);
      PromoteQueues();
    }

    // The scheduler's promotion.
    method Promote(ticks: nat)
      requires Sound()
      modifies this`procs, this`next, this`head, this`lists, this`promoteAt
      ensures Sound() && View() == Promoted(old(View()), ticks)
    {
      RaiseAll();
      promoteAt := (ticks + TICKS_TO_PROMOTE) % ProcSpec.TWO32;
    }

    // One iteration of the scheduler's loop up to the test for a process on level i.
    method LookAt(i: nat, r: Scheduler.Reading) returns (p: int)
      requires Sound() && i <= MAX
      modifies this`procs, this`next, this`head, this`lists, this`promoteAt
      ensures Sound() && View() == Scheduler.Look(old(View()), r)
      ensures p == NULL <==> lists[i] == []
    {
      if promoteAt == r.test { Promote(r.again); }
      p := head[i];
      assert Chain(next, head[i], lists[i]);
    }

    // The scheduler's loop from level 0 until it starts a process, or to the end.
    method Schedule(rs: seq<Scheduler.Reading>) returns (ok: bool, level: int)
      requires Sound() && |rs| == MAX + 1
      modifies this`procs, this`next, this`head, this`lists, this`promoteAt
      ensures ok && Sound()
      ensures var (u, l) := Scheduler.Sweep(old(View()), rs, 0);
              level == l && View() == if l == NULL then u else Dispatched(u, u.lists[l][0], rs[l].start)
    {
      ok, level := true, NULL;
      var i := 0;
      while i < MAX + 1
        invariant i <= MAX + 1 && ok && Sound()
        invariant Scheduler.Sweep(View(), rs, i) == Scheduler.Sweep(old(View()), rs, 0)
        modifies this`procs, this`next, this`head, this`lists, this`promoteAt
      {
        var p := LookAt(i, rs[i]);
        if p != NULL {
          ok := Dispatch(i, rs[i].start);
          return ok, i;
        }
        i := i + 1;
      }
    }
  }

  lemma AllFree(procs: seq<Proc>, lists: Lists)
    requires ListsOk(|procs|, lists) && forall l :: 0 <= l < NLISTS && l != FREE ==> lists[l] == []
    requires forall x :: 0 <= x < |procs| ==> procs[x].state.Unused? && procs[x].priority == 0
    requires |lists[FREE]| == |procs| && forall i :: 0 <= i < |procs| ==> lists[FREE][i] == |procs| - 1 - i
    ensures Partition(procs, lists)
  {
    forall x, l | 0 <= x < |procs| && 0 <= l < NLISTS ensures On(lists, l, x) <==> l == ListOf(procs[x]) {
      assert lists[FREE][|procs| - 1 - x] == x;
    }
  }

  // Waking sleepers leaves the zombie list alone.
  lemma ZombiesStay(t: Table, chan: int)
    requires Ok(t)
    ensures ProcSpec.Wakeup1(t, chan).lists[ZOMBIE] == t.lists[ZOMBIE]
  {
    forall i | 0 <= i < |t.lists[SLEEP]| ensures t.procs[t.lists[SLEEP][i]].state.Sleeping? {
      assert On(t.lists, SLEEP, t.lists[SLEEP][i]);
    }
    WakeAllZombies(t, t.lists[SLEEP], chan);
  }

  lemma {:induction false} WakeAllZombies(t: Table, xs: seq<nat>, chan: int)
    requires Ok(t) && Distinct(xs) && forall i :: 0 <= i < |xs| ==> xs[i] < |t.procs| && t.procs[xs[i]].state.Sleeping?
    ensures WakeAll(t, xs, chan).lists[ZOMBIE] == t.lists[ZOMBIE]
    decreases |xs|
  {
    if xs != [] {
      assert xs == [xs[0]] + xs[1..];
      WakeAllStep(t, xs[0], xs[1..], chan);
      WakeAllZombies(if t.procs[xs[0]].chan == chan then Woken(t, xs[0]) else t, xs[1..], chan);
    }
  }

  lemma WakeAllStep(t: Table, p: nat, rest: seq<nat>, chan: int)
    requires Ok(t) && p < |t.procs| && forall i :: 0 <= i < |rest| ==> rest[i] < |t.procs|
    ensures var u := if t.procs[p].chan == chan then Woken(t, p) else t;
            Ok(u) && |u.procs| == |t.procs| && WakeAll(t, [p] + rest, chan) == WakeAll(u, rest, chan)
  {
    TransitOk(t, p, t.procs[p].(state := Runnable), false);
    assert ([p] + rest)[1..] == rest;
  }

  lemma AdoptZombiesStep(t: Table, z: nat, rest: seq<nat>, p: int, init: int)
    requires Ok(t) && z < |t.procs| && forall i :: 0 <= i < |rest| ==> rest[i] < |t.procs|
    ensures var u := Touch(t, z, t.procs[z].(parent := init));
            if t.procs[z].parent == p then
              Ok(u) && AdoptZombies(t, [z] + rest, p, init) ==
                  AdoptZombies(ProcSpec.Wakeup1(u, ChanOf(init)), rest, p, init)
            else AdoptZombies(t, [z] + rest, p, init) == AdoptZombies(t, rest, p, init)
  {
    TouchPartition(t.procs, t.lists, z, t.procs[z].(parent := init));
    assert ([z] + rest)[1..] == rest;
  }

  // p in the middle of a list.
  lemma Middle(kept: seq<nat>, p: nat, rest: seq<nat>)
    requires Distinct(kept + ([p] + rest))
    ensures var s := kept + ([p] + rest);
            && s[|kept|] == p && After(s, |kept|) == First(rest)
            && Without(s, p) == kept + rest && (kept + [p]) + rest == s
  {
    var s := kept + ([p] + rest);
    assert s[|kept|] == p;
    WithoutAt(s, |kept|);
    assert s[..|kept|] == kept && s[|kept| + 1..] == rest;
  }

  // What is known of the process at position i of list l.
  lemma OnList(next: seq<int>, head: seq<int>, lists: Lists, procs: seq<Proc>, l: nat, i: nat)
    requires Linked(next, head, lists) && Partition(procs, lists) && |next| == |procs| && l < NLISTS && i < |lists[l]|
    ensures var p := lists[l][i];
            p < |procs| && next[p] == After(lists[l], i) && ListOf(procs[p]) == l && procs[p].priority <= MAX
  {
    assert Chain(next, head[l], lists[l]) && On(lists, l, lists[l][i]);
  }
}
