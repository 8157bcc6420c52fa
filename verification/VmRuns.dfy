/** The memory of processes: growproc, fork and exit (proc.c) over vm.c. A page that growproc reported and
    never mapped is a gap below the size of its process; what becomes of one in every run. */
module VmRuns {
  import opened Words
  import opened Sequences
  import opened VmSpec
  import opened Vm

  // Memory, and the size of every process by its page directory.
  datatype Snap = Snap(mem: Mem, free: seq<nat>, dirs: set<nat>, owner: map<nat, Use>, sizes: map<nat, nat>)

  predicate SnapOk(s: Snap) {
    && Owned(s.mem, s.free, s.dirs, s.owner) && s.sizes.Keys == s.dirs
    && forall d :: d in s.sizes ==> s.sizes[d] < KERNBASE
  }

  // Page v is below the size of d and is not there.
  predicate Gap(s: Snap, d: nat, v: nat) {
    && d in s.dirs && d in s.sizes && v < PageUp(s.sizes[d]) && v < USERPAGES
    && IsTable(s.mem, d) && Pte(s.mem, d, v) == Absent
  }

  datatype ForkResult = Child(c: nat) | Failed | Panicked
  datatype Call = Create(d: nat) | Growproc(d: nat, n: int, rc: int) | Fork(d: nat, r: ForkResult) | Exit(d: nat)

  predicate Panics(call: Call) { call.Fork? && call.r.Panicked? }

  // sz + n, as the unsigned it is in C.
  function NewSize(sz: nat, n: int): nat { (sz + n) % Words.TWO32 }

  // What a space of n pages takes: directory, pages and tables.
  function SpaceCost(n: nat): nat { 1 + n + (n + NPT - 1) / NPT }

  // growproc that grows: the new pages are there, but for the last if memory ran out at the table for it.
  predicate Grows(s: Snap, d: nat, size: nat, rc: int, t: Snap)
    requires d in s.sizes && IsTable(s.mem, d)
  {
    var o, n, f := PageUp(s.sizes[d]), PageUp(size), |s.free|;
    if size >= KERNBASE then rc == -1 && t == s
    else
      && n <= USERPAGES && s.sizes[d] <= size && rc == (if Suffices(s.mem, d, o, n, f) then 0 else -1)
      && if rc == -1 then t.sizes == s.sizes && SameMaps(s.mem, t.mem, s.dirs, d, 0, 0) else
         && t.sizes == s.sizes[d := size]
         && var lost := Strands(s.mem, d, o, n, f);
            && (lost ==> o < n) && |t.free| == (if lost then 0 else f - Cost(s.mem, d, o, n))
            && Grown(s.mem, s.owner, t.mem, t.owner, s.dirs, d, o, if lost then n - 1 else n)
  }

  // growproc that shrinks: to nothing at all it fails, with the pages gone and the size as it was.
  predicate Shrinks(s: Snap, d: nat, size: nat, rc: int, t: Snap)
    requires d in s.sizes
  {
    var size' := if size >= s.sizes[d] then s.sizes[d] else size;
    && rc == (if size' == 0 then -1 else 0) && t.sizes == (if rc == 0 then s.sizes[d := size'] else s.sizes)
    && if size >= s.sizes[d] then SameMaps(s.mem, t.mem, s.dirs, d, 0, 0)
       else Unmapped(s.mem, s.owner, t.mem, t.owner, s.dirs, d, PageUp(size), PageUp(s.sizes[d]))
  }

  predicate Resizes(s: Snap, d: nat, n: int, rc: int, t: Snap)
    requires d in s.sizes && IsTable(s.mem, d)
  {
    && t.dirs == s.dirs
    && if n > 0 then Grows(s, d, NewSize(s.sizes[d], n), rc, t)
       else if n < 0 then Shrinks(s, d, NewSize(s.sizes[d], n), rc, t)
       else t == s && rc == 0
  }

  // fork: exactly if the pages are all there and memory lasts; at a gap that memory lasts to, a panic.
  predicate Forks(s: Snap, d: nat, r: ForkResult, t: Snap)
    requires d in s.sizes && IsTable(s.mem, d) && PageUp(s.sizes[d]) <= USERPAGES
  {
    var n, f := PageUp(s.sizes[d]), |s.free|;
    var g := FirstGap(s.mem, d, 0, n);
    && (r.Child? <==> g == n && SpaceCost(n) <= f) && (r.Panicked? <==> g < n && SpaceCost(g) <= f)
    && match r
       case Child(c) =>
         && c !in s.dirs && t.dirs == s.dirs + {c} && t.sizes == s.sizes[c := s.sizes[d]]
         && SameMaps(s.mem, t.mem, s.dirs, c, 0, 0) && Mapped(t.mem, c, n)
       case Failed => t.dirs == s.dirs && t.sizes == s.sizes && SameMaps(s.mem, t.mem, s.dirs, d, 0, 0)
       case Panicked => true
  }

  predicate Step(s: Snap, call: Call, t: Snap) {
    && SnapOk(s) && (Panics(call) || SnapOk(t))
    && match call
       case Create(d) =>
         && d !in s.dirs && t.dirs == s.dirs + {d} && t.sizes == s.sizes[d := 0]
         && SameMaps(s.mem, t.mem, s.dirs, d, 0, 0) && Empty(t.mem, d)
       case Growproc(d, n, rc) => d in s.dirs && IsTable(s.mem, d) && Resizes(s, d, n, rc, t)
       case Fork(d, r) => d in s.dirs && IsTable(s.mem, d) && PageUp(s.sizes[d]) <= USERPAGES && Forks(s, d, r, t)
       case Exit(d) =>
         && d in s.dirs && t.dirs == s.dirs - {d} && t.sizes == s.sizes - {d}
         && SameMaps(s.mem, t.mem, t.dirs, d, 0, 0) && SpaceFreed(s.mem, s.owner, t.mem, t.owner, d)
  }

  predicate StepAt(ss: seq<Snap>, calls: seq<Call>, i: nat)
    requires i < |calls| < |ss|
  { Step(ss[i], calls[i], ss[i + 1]) }

  // A panic can only be the last thing that happens.
  predicate IsRun(ss: seq<Snap>, calls: seq<Call>) {
    && |ss| == |calls| + 1
    && (forall i :: 0 <= i < |calls| ==> StepAt(ss, calls, i))
    && (forall i :: 0 <= i < |calls| - 1 ==> !Panics(calls[i]))
  }

  // ---- what becomes of a gap ----

  // The size of d falls to or below page v, or d goes.
  predicate Closes(s: Snap, call: Call, d: nat, v: nat) {
    call == Exit(d) ||
    (call.Growproc? && call.d == d && call.n < 0 && d in s.sizes && 0 < NewSize(s.sizes[d], call.n) < s.sizes[d] &&
     PageUp(NewSize(s.sizes[d], call.n)) <= v)
  }

  // Growth of the process, whatever other processes do, and all that memory comes to in between leave a gap.
  lemma GapStep(s: Snap, call: Call, t: Snap, d: nat, v: nat)
    requires Step(s, call, t) && !Panics(call) && Gap(s, d, v)
    ensures Gap(t, d, v) <==> !Closes(s, call, d, v)
  {
    match call
    case Create(c) => assert SameMap(s.mem, t.mem, d, c, 0, 0);
    case Growproc(c, n, rc) => GapResized(s, c, n, rc, t, d, v);
    case Fork(c, r) =>
      match r {
        case Child(e) => assert SameMap(s.mem, t.mem, d, e, 0, 0);
        case Failed => assert SameMap(s.mem, t.mem, d, c, 0, 0);
        case Panicked =>
      }
    case Exit(c) => if c != d { assert SameMap(s.mem, t.mem, d, c, 0, 0); }
  }

  lemma GapResized(s: Snap, c: nat, n: int, rc: int, t: Snap, d: nat, v: nat)
    requires c in s.sizes && IsTable(s.mem, c) && Resizes(s, c, n, rc, t) && Gap(s, d, v)
    ensures Gap(t, d, v) <==> !Closes(s, Growproc(c, n, rc), d, v)
  {
    var sz, sz' := s.sizes[c], NewSize(s.sizes[c], n);
    if n > 0 && rc == 0 {
      var o, hi := PageUp(sz), PageUp(sz');
      PageUpMore(sz, sz');
      assert SameMap(s.mem, t.mem, d, c, o, if o < hi && Strands(s.mem, c, o, hi, |s.free|) then hi - 1 else hi);
    } else if n < 0 && sz' < sz {
      assert SameMap(s.mem, t.mem, d, c, PageUp(sz'), PageUp(sz));
      PageUpMore(sz', sz);
    } else if n != 0 {
      assert SameMap(s.mem, t.mem, d, c, 0, 0);
    }
  }

  lemma PageUpMore(a: nat, b: nat)
    requires a <= b
    ensures PageUp(a) <= PageUp(b)
  {}

  // A fork of d that meets a gap at or below page v fails, and panics exactly if memory lasts to the gap.
  predicate MeetsGap(s: Snap, d: nat, r: ForkResult, v: nat) {
    && d in s.sizes && PageUp(s.sizes[d]) <= USERPAGES && IsTable(s.mem, d)
    && var g := FirstGap(s.mem, d, 0, PageUp(s.sizes[d]));
       g <= v && !r.Child? && (r.Panicked? <==> SpaceCost(g) <= |s.free|)
  }

  lemma ForkMeetsGap(s: Snap, d: nat, r: ForkResult, t: Snap, v: nat)
    requires Step(s, Fork(d, r), t) && Gap(s, d, v)
    ensures MeetsGap(s, d, r, v) == true
  {
    PageUpMore(s.sizes[d], KERNBASE);
    GapFirst(s.mem, d, 0, PageUp(s.sizes[d]));
  }

  // In every run a gap stays until its process shrinks to or below it, or goes. As long as it is there,
  // and however much memory is free again, fork does not succeed, and panics if memory lasts to the gap.
  lemma {:induction false} GapRuns(ss: seq<Snap>, calls: seq<Call>, i: nat, j: nat, d: nat, v: nat)
    requires IsRun(ss, calls) && i <= j < |ss| && Gap(ss[i], d, v)
    requires forall k :: i <= k < j ==> !Closes(ss[k], calls[k], d, v) && !Panics(calls[k])
    ensures Gap(ss[j], d, v) == true
    ensures j < |calls| && calls[j].Fork? && calls[j].d == d ==> MeetsGap(ss[j], d, calls[j].r, v) == true
    decreases j
  {
    if i < j {
      GapRuns(ss, calls, i, j - 1, d, v);
      assert StepAt(ss, calls, j - 1);
      GapStep(ss[j - 1], calls[j - 1], ss[j], d, v);
    }
    if j < |calls| && calls[j].Fork? && calls[j].d == d {
      assert StepAt(ss, calls, j);
      ForkMeetsGap(ss[j], d, calls[j].r, ss[j + 1], v);
    }
  }

  // ---- the calls ----

  // Memory of pages pages, all free, and no process.
  predicate Booted(s: Snap, pages: nat) { SnapOk(s) && s.dirs == {} && |s.mem| == |s.free| == pages }

  predicate NoPanic(calls: seq<Call>) { forall i :: 0 <= i < |calls| ==> !Panics(calls[i]) }

  lemma RunNext(ss: seq<Snap>, calls: seq<Call>, call: Call, t: Snap)
    requires IsRun(ss, calls) && NoPanic(calls) && Step(ss[|calls|], call, t)
    ensures IsRun(ss + [t], calls + [call]) == true && (!Panics(call) ==> NoPanic(calls + [call]))
  {
    var ss', calls' := ss + [t], calls + [call];
    forall i | 0 <= i < |calls'| ensures StepAt(ss', calls', i) {
      if i < |calls| { assert StepAt(ss, calls, i); }
    }
  }

  // Looking for a gap where the mapping is the same.
  lemma {:induction false} SameGap(mem: Mem, mem': Mem, d: nat, c: nat, v: nat, n: nat)
    requires SameMap(mem, mem', d, c, 0, 0) && v <= n <= USERPAGES
    ensures FirstGap(mem', d, v, n) == FirstGap(mem, d, v, n)
    decreases n - v
  {
    if v < n { SameGap(mem, mem', d, c, v + 1, n); }
  }

  lemma SameSelf(s: Snap, d: nat)
    requires SnapOk(s) && d in s.dirs
    ensures SameMaps(s.mem, s.mem, s.dirs, d, 0, 0) == true && IsTable(s.mem, d)
  {
    forall c | c in s.dirs ensures SameMap(s.mem, s.mem, c, d, 0, 0) { assert SpaceOk(s.mem, s.owner, c); }
  }

  lemma CreateStep(s: Snap, d: nat, t: Snap)
    requires SnapOk(s) && Owned(t.mem, t.free, t.dirs, t.owner)
    requires d !in s.dirs && t.dirs == s.dirs + {d} && t.sizes == s.sizes[d := 0]
    requires SameMaps(s.mem, t.mem, s.dirs, d, 0, 0) && Empty(t.mem, d)
    ensures SnapOk(t) == true && Step(s, Create(d), t) == true
  {}

  // Between fork's setupkvm, which made c, and its copyuvm: what copying takes.
  lemma CopyCosts(mem: Mem, mem1: Mem, d: nat, c: nat, n: nat, f: nat)
    requires SameMap(mem, mem1, d, c, 0, 0) && Empty(mem1, c) && n <= USERPAGES
    ensures FirstGap(mem1, d, 0, n) == FirstGap(mem, d, 0, n)
    ensures Cost(mem1, c, 0, n) <= f <==> SpaceCost(n) <= f + 1
    ensures Cost(mem1, c, 0, FirstGap(mem, d, 0, n)) <= f <==> SpaceCost(FirstGap(mem, d, 0, n)) <= f + 1
  {
    SameGap(mem, mem1, d, c, 0, n);
    EmptyCost(mem1, c, n);
    EmptyCost(mem1, c, FirstGap(mem, d, 0, n));
  }

  lemma ForkChild(s: Snap, d: nat, c: nat, mem1: Mem, t: Snap)
    requires d in s.sizes && c !in s.dirs && t.dirs == s.dirs + {c} && t.sizes == s.sizes[c := s.sizes[d]]
    requires Mapped(t.mem, c, PageUp(s.sizes[d])) == true
    requires SameMaps(s.mem, mem1, s.dirs, c, 0, 0) && SameMaps(mem1, t.mem, t.dirs, c, 0, PageUp(s.sizes[d]))
    requires IsTable(s.mem, d) && PageUp(s.sizes[d]) <= USERPAGES
    requires FirstGap(s.mem, d, 0, PageUp(s.sizes[d])) == PageUp(s.sizes[d])
    requires SpaceCost(PageUp(s.sizes[d])) <= |s.free|
    ensures Forks(s, d, Child(c), t) == true
  {
    forall x | x in s.dirs ensures SameMap(s.mem, t.mem, x, c, 0, 0) {
      assert SameMap(s.mem, mem1, x, c, 0, 0) && SameMap(mem1, t.mem, x, c, 0, PageUp(s.sizes[d]));
    }
  }

  lemma ForkNoSpace(s: Snap, d: nat)
    requires SnapOk(s) && d in s.dirs && s.free == []
    ensures IsTable(s.mem, d) && PageUp(s.sizes[d]) <= USERPAGES && Forks(s, d, Failed, s) == true
  {
    SameSelf(s, d);
    PageUpMore(s.sizes[d], KERNBASE);
  }

  lemma ForkPanicked(s: Snap, d: nat, t: Snap)
    requires d in s.sizes && IsTable(s.mem, d) && PageUp(s.sizes[d]) <= USERPAGES
    requires FirstGap(s.mem, d, 0, PageUp(s.sizes[d])) < PageUp(s.sizes[d])
    requires SpaceCost(FirstGap(s.mem, d, 0, PageUp(s.sizes[d]))) <= |s.free|
    ensures Forks(s, d, Panicked, t) == true
  {}

  lemma PutBack(dirs: set<nat>, c: nat)
    requires c !in dirs
    ensures dirs + {c} - {c} == dirs
  {}

  lemma ForkFailed(s: Snap, d: nat, c: nat, mem1: Mem, t: Snap)
    requires d in s.sizes && c !in s.dirs && t.dirs == s.dirs && t.sizes == s.sizes
    requires SameMaps(s.mem, mem1, s.dirs, c, 0, 0) && SameMaps(mem1, t.mem, t.dirs, c, 0, 0)
    requires IsTable(s.mem, d) && PageUp(s.sizes[d]) <= USERPAGES
    requires SpaceCost(FirstGap(s.mem, d, 0, PageUp(s.sizes[d]))) > |s.free|
    ensures Forks(s, d, Failed, t) == true
  {
    forall x | x in s.dirs ensures SameMap(s.mem, t.mem, x, d, 0, 0) {
      assert SameMap(s.mem, mem1, x, c, 0, 0) && SameMap(mem1, t.mem, x, c, 0, 0);
    }
  }

  lemma StillOk(s: Snap, t: Snap)
    requires SnapOk(s) && Owned(t.mem, t.free, t.dirs, t.owner) && t.dirs == s.dirs && t.sizes == s.sizes
    ensures SnapOk(t) == true
  {}

  lemma ResizedOk(s: Snap, d: nat, size: nat, t: Snap)
    requires SnapOk(s) && Owned(t.mem, t.free, t.dirs, t.owner)
    requires size < KERNBASE && t.dirs == s.dirs + {d} && t.sizes == s.sizes[d := size]
    ensures SnapOk(t) == true
  {}

  lemma GrowDone(s: Snap, d: nat, size: nat, rc: int, lost: set<nat>, t: Snap)
    requires d in s.sizes && IsTable(s.mem, d) && s.sizes[d] <= size && t.dirs == s.dirs && (rc == 0 || rc == -1)
    requires t.sizes == if rc == 0 then s.sizes[d := size] else s.sizes
    requires size >= KERNBASE ==> rc == -1 && t == s
    requires size < KERNBASE ==>
               var o, n, f := PageUp(s.sizes[d]), PageUp(size), |s.free|;
               && o <= n <= USERPAGES && (rc == 0 <==> Suffices(s.mem, d, o, n, f))
               && (lost == {} <==> !Strands(s.mem, d, o, n, f))
               && (rc == 0 ==> var m := if lost == {} then n else n - 1;
                               m >= 0 && Grown(s.mem, s.owner, t.mem, t.owner, t.dirs, d, o, m))
               && (rc == 0 ==> |t.free| == if lost == {} then f - Cost(s.mem, d, o, n) else 0)
               && (rc == -1 ==> AsBefore(s.mem, s.owner, t.mem, t.dirs, d))
    ensures Grows(s, d, size, rc, t) == true
  {}

  class Spaces {
    const m: Memory
    var sizes: map<nat, nat>           // proc->sz, by page directory
    ghost var past: seq<Snap>          // the states so far,
    ghost var calls: seq<Call>         // and the calls between them

    ghost function Now(): Snap
      reads this, m
    { Snap(m.mem, m.free, m.dirs, m.owner, sizes) }

    ghost predicate Valid()
      reads this, m
    { SnapOk(Now()) == true && IsRun(past, calls) == true && NoPanic(calls) && past[|calls|] == Now() }

    constructor (pages: nat)
      ensures Valid() && fresh(m) && calls == [] && Booted(Now(), pages)
    {
      m := new Memory(pages);
      sizes := map[];
      new;
      past, calls := [Now()], [];
    }

    ghost method Note(call: Call)
      requires IsRun(past, calls) == true && NoPanic(calls) && Step(past[|calls|], call, Now()) == true
      modifies this`past, this`calls
      ensures past == old(past) + [Now()] && calls == old(calls) + [call] && IsRun(past, calls) == true
      ensures !Panics(call) ==> NoPanic(calls)
    {
      RunNext(past, calls, call, Now());
      past, calls := past + [Now()], calls + [call];
    }

    // setupkvm, for a process of size 0. NOPAGE if memory is out.
    method Create() returns (d: int)
      requires Valid()
      modifies this, m
      ensures Valid() && (d == NOPAGE <==> old(m.free) == [])
      ensures d == NOPAGE ==> past == old(past) && calls == old(calls) && Now() == old(Now())
      ensures d != NOPAGE ==> d >= 0 && past == old(past) + [Now()] && calls == old(calls) + [Call.Create(d)]
      ensures d != NOPAGE ==> m.free == old(m.free)[1..] && Step(old(Now()), Call.Create(d), Now()) == true
    {
      d := m.NewSpace();
      if d != NOPAGE {
        sizes := sizes[d := 0];
        CreateStep(old(Now()), d, Now());
        Note(Call.Create(d));
      }
    }

    // growproc: n bytes more, or fewer.
    method Growproc(d: nat, n: int) returns (rc: int)
      requires Valid() && d in sizes && -(Words.TWO32 / 2) <= n < Words.TWO32 / 2
      requires n > 0 ==> Under(m.mem, d, PageUp(sizes[d])) == true
      modifies this, m
      ensures Valid() && past == old(past) + [Now()] && calls == old(calls) + [Call.Growproc(d, n, rc)]
      ensures IsTable(old(m.mem), d) && Resizes(old(Now()), d, n, rc, Now()) == true
    {
      rc := 0;
      ghost var s := Now();
      assert SpaceOk(m.mem, m.owner, d);
      if n > 0 {
        rc := Grow(d, NewSize(sizes[d], n));
      } else if n < 0 {
        rc := Shrink(d, NewSize(sizes[d], n));
      }
      Note(Call.Growproc(d, n, rc));
    }

    method Grow(d: nat, size: nat) returns (rc: int)
      requires SnapOk(Now()) && d in sizes && Under(m.mem, d, PageUp(sizes[d])) && sizes[d] <= size
      modifies this`sizes, m
      ensures SnapOk(Now()) == true && m.dirs == old(m.dirs) && IsTable(old(m.mem), d)
      ensures Grows(old(Now()), d, size, rc, Now()) == true
    {
      PageUpMore(sizes[d], size);
      if size < KERNBASE { PageUpMore(size, KERNBASE); }
      var ok, sz;
      ghost var lost;
      ok, sz, lost := m.AllocUvm(d, sizes[d], size);
      rc := if ok then 0 else -1;
      if ok {
        sizes := sizes[d := sz];
        ResizedOk(old(Now()), d, size, Now());
      } else {
        StillOk(old(Now()), Now());
      }
      GrowDone(old(Now()), d, size, rc, lost, Now());
    }

    method Shrink(d: nat, size: nat) returns (rc: int)
      requires SnapOk(Now()) && d in sizes
      modifies this`sizes, m
      ensures SnapOk(Now()) == true && m.dirs == old(m.dirs)
      ensures Shrinks(old(Now()), d, size, rc, Now()) == true
    {
      SameSelf(Now(), d);
      var sz := m.DeallocUvm(d, sizes[d], size);
      if sz == 0 { return -1; }
      sizes := sizes[d := sz];
      rc := 0;
    }

    // fork, as far as memory goes.
    method Fork(d: nat) returns (r: ForkResult)
      requires Valid() && d in sizes
      modifies this, m
      ensures IsRun(past, calls) == true && (!r.Panicked? ==> Valid())
      ensures past == old(past) + [Now()] && calls == old(calls) + [Call.Fork(d, r)]
      ensures Step(old(Now()), Call.Fork(d, r), Now()) == true
    {
      r := Copy(d);
      Note(Call.Fork(d, r));
    }

    method Copy(d: nat) returns (r: ForkResult)
      requires SnapOk(Now()) && d in sizes
      modifies this`sizes, m
      ensures IsTable(old(m.mem), d) && PageUp(old(sizes[d])) <= USERPAGES && Forks(old(Now()), d, r, Now()) == true
      ensures !r.Panicked? ==> SnapOk(Now()) == true
    {
      SameSelf(Now(), d);
      var c := m.NewSpace();
      if c == NOPAGE {
        ForkNoSpace(Now(), d);
        return Failed;
      }
      ghost var mem1, n := m.mem, PageUp(sizes[d]);
      PageUpMore(sizes[d], KERNBASE);
      assert SameMap(old(m.mem), mem1, d, c, 0, 0);
      CopyCosts(old(m.mem), mem1, d, c, n, |m.free|);
      var res;
      ghost var lost;
      res, lost := m.CopyUvm(d, c, sizes[d]);
      r := Panicked;
      if res == Copied {
        sizes := sizes[c := sizes[d]];
        ResizedOk(old(Now()), c, old(sizes[d]), Now());
        ForkChild(old(Now()), d, c, mem1, Now());
        r := Child(c);
      } else if res == OutOfMemory {
        PutBack(old(m.dirs), c);
        StillOk(old(Now()), Now());
        ForkFailed(old(Now()), d, c, mem1, Now());
        r := Failed;
      } else {
        ForkPanicked(old(Now()), d, Now());
      }
    }

    // freevm of a process that is gone.
    method Exit(d: nat)
      requires Valid() && d in sizes
      modifies this, m
      ensures Valid() && past == old(past) + [Now()] && calls == old(calls) + [Call.Exit(d)]
      ensures Step(old(Now()), Call.Exit(d), Now()) == true
    {
      m.FreeVm(d);
      sizes := sizes - {d};
      Note(Call.Exit(d));
    }
  }

  // ---- how a gap comes about ----

  lemma GrowStep(s: Snap, d: nat, n: int, rc: int, t: Snap)
    requires d in s.sizes && IsTable(s.mem, d) && s.sizes[d] < KERNBASE && 0 < n < Words.TWO32 / 2
    requires Resizes(s, d, n, rc, t)
    ensures t.dirs == s.dirs && Grows(s, d, s.sizes[d] + n, rc, t) == true
  {
    assert NewSize(s.sizes[d], n) == s.sizes[d] + n;
  }

  lemma ShrinkStep(s: Snap, d: nat, n: int, rc: int, t: Snap)
    requires d in s.sizes && IsTable(s.mem, d) && s.sizes[d] < KERNBASE && n < 0 <= s.sizes[d] + n
    requires Resizes(s, d, n, rc, t)
    ensures t.dirs == s.dirs && Shrinks(s, d, s.sizes[d] + n, rc, t) == true
  {
    assert NewSize(s.sizes[d], n) == s.sizes[d] + n;
  }

  // growproc reports success where memory ran out between the last page and the table for it.
  lemma StarvedGap(s: Snap, d: nat, size: nat, t: Snap)
    requires d in s.sizes && d in s.dirs && Under(s.mem, d, PageUp(s.sizes[d])) && PageUp(size) <= USERPAGES
    requires Grows(s, d, size, 0, t) && t.dirs == s.dirs
    requires Strands(s.mem, d, PageUp(s.sizes[d]), PageUp(size), |s.free|)
    ensures t.sizes == s.sizes[d := size] && t.free == [] && PageUp(size) > 0 && Gap(t, d, PageUp(size) - 1)
  {
    GrownUnder(s.mem, s.owner, t.mem, t.owner, s.dirs, d, PageUp(s.sizes[d]), PageUp(size) - 1);
  }

  // growproc to nothing frees every page, fails, and leaves the size: all of it is gaps.
  lemma ShrinkToNothing(s: Snap, d: nat, n: int, rc: int, t: Snap)
    requires Step(s, Growproc(d, n, rc), t) && n < 0 && s.sizes[d] + n == 0
    ensures rc == -1 && t.sizes == s.sizes && forall v :: 0 <= v < PageUp(s.sizes[d]) ==> Gap(t, d, v)
  {
    PageUpMore(s.sizes[d], KERNBASE);
    assert PageUp(0) == 0;
    forall v | 0 <= v < PageUp(s.sizes[d]) ensures Gap(t, d, v) { assert !Skipped(s.mem, d, 0, v); }
  }

  lemma EmptyStarves(s: Snap, d: nat)
    requires SnapOk(s) && d in s.dirs && s.sizes[d] == 0 && Empty(s.mem, d) && |s.free| == 1
    ensures PageUp(0) == 0 && PageUp(PGSIZE) == 1 && NewSize(0, PGSIZE) == PGSIZE && Under(s.mem, d, 0)
    ensures Strands(s.mem, d, 0, 1, 1) && Suffices(s.mem, d, 0, 1, 1)
  {
    assert Needs(s.mem, d, 0, 0) && Cost(s.mem, d, 0, 0) == 0 && Cost(s.mem, d, 0, 1) == 2;
  }

  // A process of size 0 grows by a page when one is left, and gets none.
  method LoseFirst(k: Spaces, d: nat)
    requires k.Valid() && d in k.sizes && k.sizes[d] == 0 && Empty(k.m.mem, d) && |k.m.free| == 1
    modifies k, k.m
    ensures k.Valid() && Gap(k.Now(), d, 0) && k.m.dirs == old(k.m.dirs) && k.sizes == old(k.sizes)[d := PGSIZE]
    ensures k.past == old(k.past) + [k.Now()] && k.calls == old(k.calls) + [Growproc(d, PGSIZE, 0)]
  {
    ghost var s := k.Now();
    EmptyStarves(s, d);
    var rc := k.Growproc(d, PGSIZE);
    GrowStep(s, d, PGSIZE, rc, k.Now());
    StarvedGap(s, d, PGSIZE, k.Now());
  }

  // In a machine of two pages: a process is told that it has a page, and has none.
  method GrowthLosesPage() returns (k: Spaces, d: nat)
    ensures fresh(k) && k.Valid() && Booted(k.past[0], 2) && k.calls == [Create(d), Growproc(d, PGSIZE, 0)]
    ensures Gap(k.Now(), d, 0)
  {
    k := new Spaces(2);
    d := k.Create();
    LoseFirst(k, d);
  }

  // Another process goes, so that fork finds memory, and panics.
  method ForkAfter(k: Spaces, e: nat, d: nat)
    requires k.Valid() && e in k.sizes && d != e && Gap(k.Now(), d, 0)
    modifies k, k.m
    ensures IsRun(k.past, k.calls) && k.past[0] == old(k.past)[0]
    ensures k.calls == old(k.calls) + [Exit(e), Fork(d, Panicked)]
  {
    ghost var s := k.Now();
    k.Exit(e);
    ghost var s1 := k.Now();
    GapStep(s, Exit(e), s1, d, 0);
    SpaceGivesBack(s, e, s1);
    var r := k.Fork(d);
    ForkMeetsGap(s1, d, r, k.Now(), 0);
  }

  method TwoProcesses() returns (k: Spaces, e: nat, d: nat)
    ensures fresh(k) && fresh(k.m) && k.Valid() && Booted(k.past[0], 3) && k.calls == [Create(e), Create(d)]
    ensures e in k.sizes && d in k.sizes && d != e && k.sizes[d] == 0 && Empty(k.m.mem, d) && |k.m.free| == 1
  {
    k := new Spaces(3);
    e := k.Create();
    d := k.Create();
  }

  // It happens in a machine of three pages.
  method ForkPanics() returns (k: Spaces, e: nat, d: nat)
    ensures fresh(k) && IsRun(k.past, k.calls) && Booted(k.past[0], 3)
    ensures k.calls == [Create(e), Create(d), Growproc(d, PGSIZE, 0), Exit(e), Fork(d, Panicked)]
  {
    k, e, d := TwoProcesses();
    LoseFirst(k, d);
    ForkAfter(k, e, d);
  }

  lemma SpaceGivesBack(s: Snap, e: nat, t: Snap)
    requires Step(s, Exit(e), t)
    ensures |t.free| >= 1
  {
    assert SpaceOk(s.mem, s.owner, e);
    assert Belongs(s.owner[e], e, e);
    assert t.owner[e] == Free && e in t.free;
  }

  // ---- how deallocuvm comes to leave a page behind ----

  // One page has become free.
  lemma OneMoreFree(mem: Mem, free: seq<nat>, owner: map<nat, Use>, mem': Mem, free': seq<nat>, owner': map<nat, Use>,
      pa: nat)
    requires FreeOk(mem, free, owner) && FreeOk(mem', free', owner') && pa in owner && owner[pa] != Free
    requires owner'.Keys == owner.Keys && forall p :: p in owner ==> owner'[p] == if p == pa then Free else owner[p]
    ensures |free'| == |free| + 1
  {
    DistinctFits([pa] + free, free');
    DistinctFits(free', [pa] + free);
  }

  // d has no table for page v, and gets none where no page becomes one.
  lemma StillUntabled(s: Snap, t: Snap, d: nat, v: nat)
    requires SnapOk(s) && SnapOk(t) && d in s.dirs && d in t.dirs && v < USERPAGES
    requires forall p :: p in t.owner && t.owner[p].TableOf? ==> p in s.owner && s.owner[p] == t.owner[p]
    requires IsTable(s.mem, d) && !HasTable(s.mem, d, v)
    ensures IsTable(t.mem, d) && !HasTable(t.mem, d, v)
  {
    assert SpaceOk(s.mem, s.owner, d) && SpaceOk(t.mem, t.owner, d);
    assert EntryOk(s.mem, s.owner, d, v / NPT) && EntryOk(t.mem, t.owner, d, v / NPT);
  }

  // e has n pages, and gives back the last.
  lemma GiveBack(s: Snap, e: nat, n: nat, t: Snap)
    requires SnapOk(s) && SnapOk(t) && e in s.dirs && t.dirs == s.dirs && 2 <= n && Mapped(s.mem, e, n)
    requires Unmapped(s.mem, s.owner, t.mem, t.owner, s.dirs, e, n - 1, n)
    ensures Mapped(t.mem, e, n - 1) && |t.free| == |s.free| + 1
  {
    ShrunkShape(s.mem, s.free, s.owner, t.mem, t.owner, s.dirs, e, n - 1, n, n);
    var pa := LastPage(s.mem, s.free, s.dirs, s.owner, e, n);
    OneMoreFree(s.mem, s.free, s.owner, t.mem, t.free, t.owner, pa);
  }

  lemma LastPage(mem: Mem, free: seq<nat>, dirs: set<nat>, owner: map<nat, Use>, e: nat, n: nat) returns (pa: nat)
    requires Owned(mem, free, dirs, owner) && e in dirs && 1 <= n && Mapped(mem, e, n)
    ensures pa in owner && owner[pa] != Free
    ensures forall p :: p in owner ==> (Gone(mem, owner[p], e, n - 1, n) <==> p == pa)
  {
    assert SpaceOk(mem, owner, e) && UserOk(mem, owner, e, n - 1);
    pa := Pte(mem, e, n - 1).pa;
    assert !Skipped(mem, e, n - 1, n - 1);
    forall p | p in owner ensures Gone(mem, owner[p], e, n - 1, n) <==> p == pa {
      if Gone(mem, owner[p], e, n - 1, n) { assert Pte(mem, e, n - 1).pa == p; }
    }
  }

  // d has 1024 pages and a size of 1024 + i; e has n more to give, and nothing is free.
  predicate Starving(s: Snap, d: nat, e: nat, i: nat, n: nat) {
    && d in s.dirs && e in s.dirs && d != e && d in s.sizes && e in s.sizes
    && s.sizes[d] == (NPT + i) * PGSIZE && s.sizes[e] == n * PGSIZE
    && Under(s.mem, d, NPT) && !HasTable(s.mem, d, NPT) && !HasTable(s.mem, d, 2 * NPT) && Mapped(s.mem, e, n)
  }

  lemma WholePages(n: nat)
    ensures PageUp(n * PGSIZE) == n
  {}

  // e gives back a page.
  lemma EShrinks(s: Snap, d: nat, e: nat, i: nat, n: nat, rc: int, t: Snap)
    requires SnapOk(s) && Starving(s, d, e, i, n) && 2 <= n && SnapOk(t)
    requires IsTable(s.mem, e) && Resizes(s, e, -PGSIZE, rc, t) == true
    ensures Starving(t, d, e, i, n - 1) == true && |t.free| == |s.free| + 1
  {
    ShrinkStep(s, e, -PGSIZE, rc, t);
    WholePages(n);
    WholePages(n - 1);
    GiveBack(s, e, n, t);
    assert SameMap(s.mem, t.mem, d, e, n - 1, n);
    StillUntabled(s, t, d, NPT);
    StillUntabled(s, t, d, 2 * NPT);
  }

  // d grows by a page, and memory runs out at the table for it.
  lemma DStarves(s: Snap, d: nat, e: nat, i: nat, n: nat, rc: int, t: Snap)
    requires Starving(s, d, e, i, n) == true && i < NPT && |s.free| == 1 && t.dirs == s.dirs
    requires d in s.sizes && IsTable(s.mem, d) && s.sizes[d] < KERNBASE && Resizes(s, d, PGSIZE, rc, t) == true
    ensures rc == 0 && Starving(t, d, e, i + 1, n) == true && t.free == []
  {
    GrowStep(s, d, PGSIZE, rc, t);
    var o := NPT + i;
    WholePages(o);
    WholePages(o + 1);
    assert o / NPT == 1;
    assert Needs(s.mem, d, o, o) && Cost(s.mem, d, o, o) == 0 && Cost(s.mem, d, o, o + 1) == 2;
    assert Strands(s.mem, d, o, o + 1, 1) && Suffices(s.mem, d, o, o + 1, 1);
    assert SameMap(s.mem, t.mem, d, d, o, o) && SameMap(s.mem, t.mem, e, d, o, o);
    assert HasTable(t.mem, d, o) == HasTable(s.mem, d, o) == HasTable(s.mem, d, NPT);
    assert HasTable(t.mem, d, NPT) == HasTable(t.mem, d, o);
  }

  // With two free pages it has its page.
  lemma DGrows(s: Snap, d: nat, e: nat, n: nat, rc: int, t: Snap)
    requires Starving(s, d, e, NPT, n) == true && |s.free| == 2 && t.dirs == s.dirs
    requires d in s.sizes && IsTable(s.mem, d) && s.sizes[d] < KERNBASE && Resizes(s, d, PGSIZE, rc, t) == true
    ensures rc == 0 && d in t.sizes && t.sizes[d] == (2 * NPT + 1) * PGSIZE
    ensures IsTable(t.mem, d) && Pte(t.mem, d, 2 * NPT).Present? && !HasTable(t.mem, d, NPT)
  {
    var o := 2 * NPT;
    GrowStep(s, d, PGSIZE, rc, t);
    WholePages(o);
    WholePages(o + 1);
    assert Needs(s.mem, d, o, o) && Cost(s.mem, d, o, o) == 0 && Cost(s.mem, d, o, o + 1) == 2;
    NoStrand(s.mem, d, o, o + 1, 2);
    assert FreshPage(t.mem, s.owner, d, o);
  }

  // From page 1025, for which there is no table, deallocuvm goes on at page 2049.
  lemma DSkips(s: Snap, d: nat, rc: int, t: Snap)
    requires d in s.sizes && s.sizes[d] == (2 * NPT + 1) * PGSIZE && IsTable(s.mem, d)
    requires Pte(s.mem, d, 2 * NPT).Present? && !HasTable(s.mem, d, NPT)
    requires Resizes(s, d, -NPT * PGSIZE, rc, t) == true
    ensures rc == 0 && d in t.sizes && t.sizes[d] == (NPT + 1) * PGSIZE
    ensures IsTable(t.mem, d) && Pte(t.mem, d, 2 * NPT).Present?
  {
    ShrinkStep(s, d, -NPT * PGSIZE, rc, t);
    WholePages(NPT + 1);
    WholePages(2 * NPT + 1);
    assert LacksTable(s.mem, d, 1);
    assert Skipped(s.mem, d, NPT + 1, 2 * NPT);
  }

  lemma NoneAbove(s: Snap, d: nat, e: nat, i: nat, n: nat)
    requires Starving(s, d, e, i, n) && i <= NPT
    ensures d in s.sizes && d in s.dirs && IsTable(s.mem, d) && Under(s.mem, d, PageUp(s.sizes[d])) == true
  {
    WholePages(NPT + i);
  }

  method EGives(k: Spaces, ghost d: nat, e: nat, ghost i: nat, ghost n: nat)
    requires k.Valid() && Starving(k.Now(), d, e, i, n) == true && 2 <= n
    modifies k, k.m
    ensures k.Valid() && Starving(k.Now(), d, e, i, n - 1) == true && |k.m.free| == |old(k.m.free)| + 1
    ensures k.past[0] == old(k.past)[0]
  {
    ghost var s := k.Now();
    var rc := k.Growproc(e, -PGSIZE);
    EShrinks(s, d, e, i, n, rc, k.Now());
  }

  method DLoses(k: Spaces, d: nat, ghost e: nat, ghost i: nat, ghost n: nat)
    requires k.Valid() && Starving(k.Now(), d, e, i, n) == true && i < NPT && |k.m.free| == 1
    modifies k, k.m
    ensures k.Valid() && Starving(k.Now(), d, e, i + 1, n) == true && k.m.free == []
    ensures k.past[0] == old(k.past)[0]
  {
    ghost var s := k.Now();
    NoneAbove(s, d, e, i, n);
    var rc := k.Growproc(d, PGSIZE);
    DStarves(s, d, e, i, n, rc, k.Now());
  }

  // 1024 times.
  method Starve(k: Spaces, d: nat, e: nat)
    requires k.Valid() && Starving(k.Now(), d, e, 0, NPT + 3) && k.m.free == []
    modifies k, k.m
    ensures k.Valid() && Starving(k.Now(), d, e, NPT, 3) == true && k.m.free == []
    ensures k.past[0] == old(k.past)[0]
  {
    for i := 0 to NPT
      invariant k.Valid() && Starving(k.Now(), d, e, i, NPT + 3 - i) == true && k.m.free == []
      invariant k.past[0] == old(k.past)[0]
    {
      EGives(k, d, e, i, NPT + 3 - i);
      DLoses(k, d, e, i, NPT + 2 - i);
    }
  }

  // A process of n pages where there is memory for it.
  method Process(k: Spaces, n: nat, ghost pages: nat) returns (d: nat)
    requires k.Valid() && 0 < n < USERPAGES && |k.m.free| == SpaceCost(n) + pages
    modifies k, k.m
    ensures k.Valid() && d in k.sizes && k.sizes == old(k.sizes)[d := n * PGSIZE] && |k.m.free| == pages
    ensures k.m.dirs == old(k.m.dirs) + {d} && d !in old(k.m.dirs) && k.past[0] == old(k.past)[0]
    ensures SameMaps(old(k.m.mem), k.m.mem, old(k.m.dirs), d, 0, 0) == true
    ensures Mapped(k.m.mem, d, n) == true
    ensures IsTable(k.m.mem, d)
    ensures forall v :: n <= v < USERPAGES && v / NPT > (n - 1) / NPT ==> !HasTable(k.m.mem, d, v)
  {
    d := k.Create();
    ghost var s := k.Now();
    WholePages(n);
    var rc := k.Growproc(d, n * PGSIZE);
    FirstGrowth(s, d, n, rc, k.Now());
  }

  lemma FirstGrowth(s: Snap, d: nat, n: nat, rc: int, t: Snap)
    requires d in s.dirs && d in s.sizes && s.sizes[d] == 0 && Empty(s.mem, d) && 0 < n < USERPAGES
    requires |s.free| >= n + (n + NPT - 1) / NPT && t.dirs == s.dirs
    requires Resizes(s, d, n * PGSIZE, rc, t) == true
    ensures rc == 0 && t.sizes == s.sizes[d := n * PGSIZE] && |t.free| == |s.free| - (n + (n + NPT - 1) / NPT)
    ensures SameMaps(s.mem, t.mem, s.dirs, d, 0, n) == true && Mapped(t.mem, d, n) == true
    ensures forall v :: n <= v < USERPAGES && v / NPT > (n - 1) / NPT ==> !HasTable(t.mem, d, v)
  {
    GrowStep(s, d, n * PGSIZE, rc, t);
    WholePages(n);
    EmptyCost(s.mem, d, n);
    NoStrand(s.mem, d, 0, n, |s.free|);
    GrownShape(s.mem, s.owner, t.mem, t.owner, s.dirs, d, 0, n);
  }

  // deallocuvm leaves a page behind. A process of 1024 pages is starved 1024 times, so that it has no table
  // for the next 1024 pages, then gets page 2048, and shrinks to 1025 pages: page 2048 is still there.
  method DeallocSkips() returns (k: Spaces, d: nat)
    ensures fresh(k) && k.Valid() && Booted(k.past[0], 2 * NPT + 8) && d in k.sizes && d in k.m.dirs
    ensures k.sizes[d] == (NPT + 1) * PGSIZE && IsTable(k.m.mem, d) && Pte(k.m.mem, d, 2 * NPT).Present?
  {
    var e;
    k, d, e := FullPair();
    Starve(k, d, e);
    EGives(k, d, e, NPT, 3);
    EGives(k, d, e, NPT, 2);
    Regain(k, d, e);
  }

  // Two processes of 1024 and 1027 pages, and no page free.
  method FullPair() returns (k: Spaces, d: nat, e: nat)
    ensures fresh(k) && fresh(k.m) && k.Valid() && Booted(k.past[0], 2 * NPT + 8)
    ensures Starving(k.Now(), d, e, 0, NPT + 3) == true && k.m.free == []
  {
    k := new Spaces(2 * NPT + 8);
    e := Process(k, NPT + 3, SpaceCost(NPT));
    ghost var s := k.Now();
    d := Process(k, NPT, 0);
    assert SameMap(s.mem, k.m.mem, e, d, 0, 0);
  }

  method Regain(k: Spaces, d: nat, ghost e: nat)
    requires k.Valid() && Starving(k.Now(), d, e, NPT, 1) == true && |k.m.free| == 2
    modifies k, k.m
    ensures k.Valid() && k.past[0] == old(k.past)[0] && d in k.sizes && k.sizes[d] == (NPT + 1) * PGSIZE
    ensures IsTable(k.m.mem, d) && Pte(k.m.mem, d, 2 * NPT).Present?
  {
    ghost var s := k.Now();
    NoneAbove(s, d, e, NPT, 1);
    var rc := k.Growproc(d, PGSIZE);
    ghost var s1 := k.Now();
    DGrows(s, d, e, 1, rc, s1);
    rc := k.Growproc(d, -NPT * PGSIZE);
    DSkips(s1, d, rc, k.Now());
  }
}
