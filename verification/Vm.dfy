/** Page tables and the page allocator: vm.c and kalloc.c. Pages and virtual pages go by number; a
    page directory or table is a page of 1024 entries. */
module VmSpec {
  import opened Words
  import opened Sequences

  const NPT := 1024
  const PGSIZE := 4096
  const KERNBASE := 0x8000_0000
  const USERPAGES := 0x8_0000        // virtual pages below KERNBASE

  datatype Entry = Absent | Present(pa: nat, flags: nat)
  datatype Page = Bytes(b: seq<byte>) | Table(e: seq<Entry>)
  type Mem = seq<Page>

  function PageUp(size: nat): nat { (size + PGSIZE - 1) / PGSIZE }

  function EmptyTable(): Page { Table(seq(NPT, _ => Absent)) }
  function ZeroPage(): Page { Bytes(seq(PGSIZE, _ => 0)) }
  function JunkPage(): Page { Bytes(seq(PGSIZE, _ => 1)) }

  predicate IsTable(mem: Mem, p: nat) { p < |mem| && mem[p].Table? && |mem[p].e| == NPT }

  // Directory entry i of directory d.
  function Pde(mem: Mem, d: nat, i: nat): Entry
    requires IsTable(mem, d) && i < NPT
  { mem[d].e[i] }

  // There is a table for virtual page v.
  predicate HasTable(mem: Mem, d: nat, v: nat)
    requires IsTable(mem, d) && v < USERPAGES
  { Pde(mem, d, v / NPT).Present? && IsTable(mem, Pde(mem, d, v / NPT).pa) }

  // The entry of virtual page v.
  function Pte(mem: Mem, d: nat, v: nat): Entry
    requires IsTable(mem, d) && v < USERPAGES
  { if HasTable(mem, d, v) then mem[Pde(mem, d, v / NPT).pa].e[v % NPT] else Absent }

  // ---- what every page is used for ----

  datatype Use = Free | Dir | TableOf(d: nat, i: nat) | UserPage(d: nat, v: nat)

  predicate FreeOk(mem: Mem, free: seq<nat>, owner: map<nat, Use>) {
    && Distinct(free)
    && (forall k :: 0 <= k < |free| ==> free[k] < |mem| && free[k] in owner && owner[free[k]] == Free)
    && (forall p :: p in owner && owner[p] == Free ==> p in free)
  }

  predicate EntryOk(mem: Mem, owner: map<nat, Use>, d: nat, i: nat)
    requires IsTable(mem, d) && i < NPT
  {
    Pde(mem, d, i).Present? ==>
      var p := Pde(mem, d, i).pa; IsTable(mem, p) && p in owner && owner[p] == TableOf(d, i)
  }

  predicate UserOk(mem: Mem, owner: map<nat, Use>, d: nat, v: nat)
    requires IsTable(mem, d) && v < USERPAGES
  {
    Pte(mem, d, v).Present? ==>
      var p := Pte(mem, d, v).pa; p < |mem| && p in owner && owner[p] == UserPage(d, v)
  }

  // One address space: its directory, tables and user pages are its own.
  predicate SpaceOk(mem: Mem, owner: map<nat, Use>, d: nat) {
    && IsTable(mem, d) && d in owner && owner[d] == Dir
    && (forall i :: 0 <= i < NPT ==> EntryOk(mem, owner, d, i))
    && (forall v :: 0 <= v < USERPAGES ==> UserOk(mem, owner, d, v))
  }

  // No page is forgotten: what owner says a page is, it is.
  predicate NoneLost(mem: Mem, owner: map<nat, Use>, dirs: set<nat>)
    requires forall d :: d in dirs ==> IsTable(mem, d)
  {
    forall p :: p in owner ==>
      match owner[p]
      case Free => true
      case Dir => p in dirs
      case TableOf(d, i) => d in dirs && i < NPT && Pde(mem, d, i).Present? && Pde(mem, d, i).pa == p
      case UserPage(d, v) => d in dirs && v < USERPAGES && Pte(mem, d, v).Present? && Pte(mem, d, v).pa == p
  }

  // owner says what each page of memory is used for, and so no page is used twice.
  predicate Owned(mem: Mem, free: seq<nat>, dirs: set<nat>, owner: map<nat, Use>) {
    && FreeOk(mem, free, owner)
    && (forall d :: d in dirs ==> SpaceOk(mem, owner, d))
    && NoneLost(mem, owner, dirs)
  }

  // No two address spaces share a page, nor does one map a page twice, nor is a mapped page free or
  // used as a table.
  lemma NoSharing(mem: Mem, free: seq<nat>, dirs: set<nat>, owner: map<nat, Use>, c: nat, v: nat, d: nat, w: nat)
    requires Owned(mem, free, dirs, owner) && c in dirs && d in dirs && v < USERPAGES && w < USERPAGES
    requires IsTable(mem, c) && IsTable(mem, d) && Pte(mem, c, v).Present?
    ensures Pte(mem, d, w).Present? && Pte(mem, d, w).pa == Pte(mem, c, v).pa ==> c == d && v == w
    ensures Pte(mem, c, v).pa !in free && Pte(mem, c, v).pa !in dirs
    ensures forall i :: 0 <= i < NPT && Pde(mem, d, i).Present? ==> Pde(mem, d, i).pa != Pte(mem, c, v).pa
  {
    assert SpaceOk(mem, owner, c) && SpaceOk(mem, owner, d) && UserOk(mem, owner, c, v) && UserOk(mem, owner, d, w);
    forall i | 0 <= i < NPT && Pde(mem, d, i).Present?
      ensures Pde(mem, d, i).pa != Pte(mem, c, v).pa { assert EntryOk(mem, owner, d, i); }
    forall x | x in dirs ensures x != Pte(mem, c, v).pa { assert SpaceOk(mem, owner, x); }
  }

  // User memory is the virtual pages below n and no others.
  predicate Shape(mem: Mem, d: nat, n: nat)
    requires IsTable(mem, d)
  { n <= USERPAGES && forall v :: 0 <= v < USERPAGES ==> (Pte(mem, d, v).Present? <==> v < n) }

  // mem' has the same directories and tables: all look-ups give the same.
  predicate SameTables(mem: Mem, mem': Mem, owner: map<nat, Use>) {
    |mem'| == |mem| && forall p :: p in owner && p < |mem| && (owner[p] == Dir || owner[p].TableOf?) ==>
        mem'[p] == mem[p]
  }

  lemma SameLookups(mem: Mem, mem': Mem, owner: map<nat, Use>, d: nat)
    requires SpaceOk(mem, owner, d) && SameTables(mem, mem', owner)
    ensures IsTable(mem', d) && (forall i :: 0 <= i < NPT ==> Pde(mem', d, i) == Pde(mem, d, i))
    ensures forall v :: 0 <= v < USERPAGES ==>
            Pte(mem', d, v) == Pte(mem, d, v) && HasTable(mem', d, v) == HasTable(mem, d, v)
  {
    forall v | 0 <= v < USERPAGES ensures Pte(mem', d, v) == Pte(mem, d, v) &&
      HasTable(mem', d, v) == HasTable(mem, d, v) {
      assert EntryOk(mem, owner, d, v / NPT);
    }
  }

  lemma SpaceKept(mem: Mem, mem': Mem, owner: map<nat, Use>, owner': map<nat, Use>, d: nat)
    requires SpaceOk(mem, owner, d) && SameTables(mem, mem', owner)
    requires forall p :: p in owner && owner[p] != Free ==> p in owner' && owner'[p] == owner[p]
    ensures SpaceOk(mem', owner', d)
  {
    SameLookups(mem, mem', owner, d);
    forall i | 0 <= i < NPT ensures EntryOk(mem', owner', d, i) { assert EntryOk(mem, owner, d, i); }
    forall v | 0 <= v < USERPAGES ensures UserOk(mem', owner', d, v) { assert UserOk(mem, owner, d, v); }
  }

  lemma NoneLostKept(mem: Mem, mem': Mem, owner: map<nat, Use>, owner': map<nat, Use>, dirs: set<nat>)
    requires (forall d :: d in dirs ==> IsTable(mem, d) && SpaceOk(mem, owner, d)) && NoneLost(mem, owner, dirs) &&
             SameTables(mem, mem', owner)
    requires forall p :: p in owner' ==> owner'[p] == Free || (p in owner && owner'[p] == owner[p])
    ensures forall d :: d in dirs ==> IsTable(mem', d)
    ensures NoneLost(mem', owner', dirs)
  {
    forall d | d in dirs
      ensures IsTable(mem', d) && (forall i :: 0 <= i < NPT ==> Pde(mem', d, i) == Pde(mem, d, i))
              && (forall v :: 0 <= v < USERPAGES ==> Pte(mem', d, v) == Pte(mem, d, v))
    {
      SameLookups(mem, mem', owner, d);
    }
  }

  // ---- the page allocator ----

  // kalloc takes the first free page; it is then in nobody's hands but the caller's.
  lemma Pop(mem: Mem, free: seq<nat>, dirs: set<nat>, owner: map<nat, Use>)
    requires Owned(mem, free, dirs, owner) && free != []
    ensures Owned(mem, free[1..], dirs, owner - {free[0]}) && free[0] in owner && free[0] < |mem| &&
            owner[free[0]] == Free
  {
    var owner' := owner - {free[0]};
    assert Distinct(free[1..]);
    forall p | p in owner' && owner'[p] == Free ensures p in free[1..] {
      var k :| 0 <= k < |free| && free[k] == p;
      assert free[1..][k - 1] == p;
    }
    forall d | d in dirs ensures SpaceOk(mem, owner', d) { SpaceKept(mem, mem, owner, owner', d); }
    NoneLostKept(mem, mem, owner, owner', dirs);
  }

  // A page in the caller's hands can be written; nobody else is affected.
  lemma Scribble(mem: Mem, free: seq<nat>, dirs: set<nat>, owner: map<nat, Use>, p: nat, x: Page)
    requires Owned(mem, free, dirs, owner) && p < |mem| && p !in owner
    ensures Owned(mem[p := x], free, dirs, owner)
    ensures forall d :: d in dirs ==> IsTable(mem[p := x], d)
    ensures forall d, v :: d in dirs && 0 <= v < USERPAGES ==> Pte(mem[p := x], d, v) == Pte(mem, d, v)
  {
    var mem' := mem[p := x];
    forall d | d in dirs ensures SpaceOk(mem', owner, d) &&
      (forall v :: 0 <= v < USERPAGES ==> Pte(mem', d, v) == Pte(mem, d, v)) {
      SpaceKept(mem, mem', owner, owner, d);
      SameLookups(mem, mem', owner, d);
    }
    NoneLostKept(mem, mem', owner, owner, dirs);
  }

  // kfree puts it in front of the list.
  lemma Push(mem: Mem, free: seq<nat>, dirs: set<nat>, owner: map<nat, Use>, p: nat)
    requires Owned(mem, free, dirs, owner) && p < |mem| && p !in owner
    ensures Owned(mem, [p] + free, dirs, owner[p := Free])
  {
    var owner' := owner[p := Free];
    forall d | d in dirs ensures SpaceOk(mem, owner', d) { SpaceKept(mem, mem, owner, owner', d); }
    NoneLostKept(mem, mem, owner, owner', dirs);
  }

  // A page in hand becomes an empty directory.
  lemma AddDir(mem: Mem, free: seq<nat>, dirs: set<nat>, owner: map<nat, Use>, d: nat)
    requires Owned(mem, free, dirs, owner) && d < |mem| && d !in owner
    ensures d !in dirs && Owned(mem[d := EmptyTable()], free, dirs + {d}, owner[d := Dir]) == true
    ensures IsTable(mem[d := EmptyTable()], d) && Shape(mem[d := EmptyTable()], d, 0)
  {
    var mem', owner' := mem[d := EmptyTable()], owner[d := Dir];
    Scribble(mem, free, dirs, owner, d, EmptyTable());
    forall c | c in dirs ensures c != d && SpaceOk(mem', owner', c) {
      assert SpaceOk(mem, owner, c) && SpaceOk(mem', owner, c);
      SpaceKept(mem', mem', owner, owner', c);
    }
    assert SpaceOk(mem', owner', d);
  }

  // ---- entries ----

  // Directory entry i of d made to point to the empty table p.
  function WithPde(mem: Mem, d: nat, i: nat, x: Entry): Mem
    requires IsTable(mem, d) && i < NPT
  { mem[d := Table(mem[d].e[i := x])] }

  lemma PdeLookups(mem: Mem, free: seq<nat>, dirs: set<nat>, owner: map<nat, Use>, d: nat, i: nat, p: nat, flags: nat,
      c: nat)
    requires Owned(mem, free, dirs, owner) && d in dirs && i < NPT && p < |mem| && p !in owner && mem[p] == EmptyTable()
    requires IsTable(mem, d) && Pde(mem, d, i) == Absent && c in dirs && IsTable(mem, c)
    ensures var mem' := WithPde(mem, d, i, Present(p, flags));
            && IsTable(mem', c) && IsTable(mem', p)
            && (forall j :: 0 <= j < NPT ==> Pde(mem', c, j) == if c == d && j == i then Present(p, flags)
               else Pde(mem, c, j))
            && (forall j :: 0 <= j < NPT && Pde(mem, c, j).Present? ==>
               IsTable(mem, Pde(mem, c, j).pa) && mem'[Pde(mem, c, j).pa] == mem[Pde(mem, c, j).pa])
            && (forall v :: 0 <= v < USERPAGES ==> Pte(mem', c, v) == Pte(mem, c, v))
            && (forall v :: 0 <= v < USERPAGES ==>
               HasTable(mem', c, v) == (HasTable(mem, c, v) || (c == d && v / NPT == i)))
  {
    var mem' := WithPde(mem, d, i, Present(p, flags));
    assert SpaceOk(mem, owner, c) && SpaceOk(mem, owner, d);
    forall j | 0 <= j < NPT && Pde(mem, c, j).Present?
      ensures IsTable(mem, Pde(mem, c, j).pa) && mem'[Pde(mem, c, j).pa] == mem[Pde(mem, c, j).pa]
    {
      assert EntryOk(mem, owner, c, j);
    }
    forall v | 0 <= v < USERPAGES
      ensures Pte(mem', c, v) == Pte(mem, c, v) &&
              HasTable(mem', c, v) == (HasTable(mem, c, v) || (c == d && v / NPT == i))
    {
      assert EntryOk(mem, owner, c, v / NPT);
    }
  }

  lemma SetPde(mem: Mem, free: seq<nat>, dirs: set<nat>, owner: map<nat, Use>, d: nat, i: nat, p: nat, flags: nat)
    requires Owned(mem, free, dirs, owner) && d in dirs && i < NPT && p < |mem| && p !in owner && mem[p] == EmptyTable()
    requires IsTable(mem, d) && Pde(mem, d, i) == Absent
    ensures Owned(WithPde(mem, d, i, Present(p, flags)), free, dirs, owner[p := TableOf(d, i)]) == true
  {
    var mem', owner' := WithPde(mem, d, i, Present(p, flags)), owner[p := TableOf(d, i)];
    forall c | c in dirs ensures SpaceOk(mem', owner', c) {
      assert SpaceOk(mem, owner, c);
      PdeLookups(mem, free, dirs, owner, d, i, p, flags, c);
      forall j | 0 <= j < NPT ensures EntryOk(mem', owner', c, j) { assert EntryOk(mem, owner, c, j); }
      forall v | 0 <= v < USERPAGES ensures UserOk(mem', owner', c, v) { assert UserOk(mem, owner, c, v); }
    }
    forall q | q in owner'
      ensures match owner'[q]
              case Free => true
              case Dir => q in dirs
              case TableOf(c, j) => c in dirs && j < NPT && Pde(mem', c, j).Present? && Pde(mem', c, j).pa == q
              case UserPage(c, v) => c in dirs && v < USERPAGES && Pte(mem', c, v).Present? && Pte(mem', c, v).pa == q
    {
      if q != p {
        match owner[q]
        case TableOf(c, j) => assert SpaceOk(mem, owner, c); PdeLookups(mem, free, dirs, owner, d, i, p, flags, c);
        case UserPage(c, v) => assert SpaceOk(mem, owner, c); PdeLookups(mem, free, dirs, owner, d, i, p, flags, c);
        case _ =>
      }
    }
  }

  // The entry of virtual page v of d made x; its table exists.
  function WithPte(mem: Mem, d: nat, v: nat, x: Entry): Mem
    requires IsTable(mem, d) && v < USERPAGES && HasTable(mem, d, v)
  {
    var t := Pde(mem, d, v / NPT).pa;
    mem[t := Table(mem[t].e[v % NPT := x])]
  }

  lemma PteLookups(mem: Mem, free: seq<nat>, dirs: set<nat>, owner: map<nat, Use>, d: nat, v: nat, x: Entry, c: nat)
    requires Owned(mem, free, dirs, owner) && d in dirs && IsTable(mem, d) && v < USERPAGES && HasTable(mem, d, v)
    requires c in dirs && IsTable(mem, c)
    ensures var mem' := WithPte(mem, d, v, x);
            && IsTable(mem', c)
            && (forall j :: 0 <= j < NPT ==> Pde(mem', c, j) == Pde(mem, c, j))
            && (forall j :: 0 <= j < NPT && Pde(mem, c, j).Present? ==> IsTable(mem', Pde(mem, c, j).pa))
            && (forall w :: 0 <= w < USERPAGES ==> Pte(mem', c, w) == if c == d && w == v then x else Pte(mem, c, w))
            && (forall w :: 0 <= w < USERPAGES ==> HasTable(mem', c, w) == HasTable(mem, c, w))
  {
    var mem' := WithPte(mem, d, v, x);
    var t := Pde(mem, d, v / NPT).pa;
    assert SpaceOk(mem, owner, c) && SpaceOk(mem, owner, d);
    assert EntryOk(mem, owner, d, v / NPT);
    forall j | 0 <= j < NPT && Pde(mem, c, j).Present?
      ensures IsTable(mem', Pde(mem, c, j).pa) { assert EntryOk(mem, owner, c, j); }
    forall w | 0 <= w < USERPAGES
      ensures Pte(mem', c, w) == (if c == d && w == v then x else Pte(mem, c, w)) &&
              HasTable(mem', c, w) == HasTable(mem, c, w)
    {
      assert EntryOk(mem, owner, c, w / NPT);
      if c == d && w / NPT == v / NPT && w % NPT == v % NPT { SameVpn(v, w); }
    }
  }

  lemma SameVpn(v: nat, w: nat)
    requires v / NPT == w / NPT && v % NPT == w % NPT
    ensures v == w
  {}

  // Page v of d becomes page p, which the caller holds, in place of nothing.
  lemma SetPte(mem: Mem, free: seq<nat>, dirs: set<nat>, owner: map<nat, Use>, d: nat, v: nat, p: nat, flags: nat)
    requires Owned(mem, free, dirs, owner) && d in dirs && IsTable(mem, d) && v < USERPAGES && HasTable(mem, d, v)
    requires Pte(mem, d, v) == Absent && p < |mem| && p !in owner
    ensures Owned(WithPte(mem, d, v, Present(p, flags)), free, dirs, owner[p := UserPage(d, v)]) == true
  {
    var mem', owner' := WithPte(mem, d, v, Present(p, flags)), owner[p := UserPage(d, v)];
    PteOwned(mem, free, dirs, owner, d, v, Present(p, flags), owner');
  }

  // Page v of d is unmapped and in the caller's hands.
  lemma ClearPte(mem: Mem, free: seq<nat>, dirs: set<nat>, owner: map<nat, Use>, d: nat, v: nat)
    requires Owned(mem, free, dirs, owner) && d in dirs && IsTable(mem, d) && v < USERPAGES && HasTable(mem, d, v)
    requires Pte(mem, d, v).Present?
    ensures var p := Pte(mem, d, v).pa;
            && p < |mem| && p in owner && owner[p] == UserPage(d, v)
            && Owned(WithPte(mem, d, v, Absent), free, dirs, owner - {p}) == true
  {
    assert SpaceOk(mem, owner, d);
    assert UserOk(mem, owner, d, v);
    var p := Pte(mem, d, v).pa;
    PteOwned(mem, free, dirs, owner, d, v, Absent, owner - {p});
  }

  // After a change of one entry: what is owned, if owner' follows it.
  lemma PteOwned(mem: Mem, free: seq<nat>, dirs: set<nat>, owner: map<nat, Use>, d: nat, v: nat, x: Entry,
      owner': map<nat, Use>)
    requires Owned(mem, free, dirs, owner) && d in dirs && IsTable(mem, d) && v < USERPAGES && HasTable(mem, d, v)
    requires forall p :: p in owner && owner[p] != UserPage(d, v) ==> p in owner' && owner'[p] == owner[p]
    requires forall p :: p in owner' && owner'[p] != UserPage(d, v) ==> p in owner && owner'[p] == owner[p]
    requires forall p :: p in owner' && owner'[p] == UserPage(d, v) ==> x.Present? && x.pa == p
    requires x.Present? ==> x.pa < |mem| && x.pa in owner' && owner'[x.pa] == UserPage(d, v)
    ensures Owned(WithPte(mem, d, v, x), free, dirs, owner') == true
  {
    var mem' := WithPte(mem, d, v, x);
    forall c | c in dirs ensures SpaceOk(mem', owner', c) {
      assert SpaceOk(mem, owner, c);
      PteLookups(mem, free, dirs, owner, d, v, x, c);
      forall j | 0 <= j < NPT ensures EntryOk(mem', owner', c, j) { assert EntryOk(mem, owner, c, j); }
      forall w | 0 <= w < USERPAGES ensures UserOk(mem', owner', c, w) { assert UserOk(mem, owner, c, w); }
    }
    forall q | q in owner'
      ensures match owner'[q]
              case Free => true
              case Dir => q in dirs
              case TableOf(c, j) => c in dirs && j < NPT && Pde(mem', c, j).Present? && Pde(mem', c, j).pa == q
              case UserPage(c, w) => c in dirs && w < USERPAGES && Pte(mem', c, w).Present? && Pte(mem', c, w).pa == q
    {
      match owner'[q]
      case TableOf(c, j) => assert SpaceOk(mem, owner, c); PteLookups(mem, free, dirs, owner, d, v, x, c);
      case UserPage(c, w) =>
        if owner'[q] == UserPage(d, v) { PteLookups(mem, free, dirs, owner, d, v, x, d); }
        else { assert SpaceOk(mem, owner, c); PteLookups(mem, free, dirs, owner, d, v, x, c); }
      case _ =>
    }
  }
}

module Vm {
  import opened Words
  import opened Sequences
  import opened VmSpec

  const NOPAGE := -1
  const PTE_WU := 6            // PTE_W | PTE_U; PTE_P is Present

  datatype MapResult = Done | NoMem | Remap
  datatype CopyResult = Copied | OutOfMemory | PageMissing      // the last is a panic

  // Directory c maps what it did, except perhaps pages lo to hi of d.
  predicate SameMap(mem: Mem, mem': Mem, c: nat, d: nat, lo: nat, hi: nat) {
    && IsTable(mem, c) && IsTable(mem', c)
    && forall w :: 0 <= w < USERPAGES && !(c == d && lo <= w < hi) ==> Pte(mem', c, w) == Pte(mem, c, w)
  }

  predicate SameMaps(mem: Mem, mem': Mem, dirs: set<nat>, d: nat, lo: nat, hi: nat) {
    forall c :: c in dirs ==> SameMap(mem, mem', c, d, lo, hi)
  }

  // User pages hold what they did.
  predicate SameData(mem: Mem, mem': Mem, owner: map<nat, Use>) {
    |mem'| == |mem| && forall p :: p in owner && owner[p].UserPage? && p < |mem| ==> mem'[p] == mem[p]
  }

  predicate IsUser(owner: map<nat, Use>, p: nat) { p in owner && owner[p].UserPage? }

  // The same pages are the same user pages, and no page is lost.
  predicate SameUsers(owner: map<nat, Use>, owner': map<nat, Use>) {
    && owner'.Keys == owner.Keys
    && (forall p :: p in owner ==> (IsUser(owner', p) <==> IsUser(owner, p)))
    && (forall p :: p in owner && IsUser(owner, p) ==> owner'[p] == owner[p])
  }

  // Directory d has got a table for directory entry i, and nothing else has changed.
  predicate TableAdded(mem: Mem, owner: map<nat, Use>, mem': Mem, owner': map<nat, Use>, dirs: set<nat>, d: nat,
      i: nat) {
    && SameMaps(mem, mem', dirs, d, 0, 0) && SameData(mem, mem', owner) && SameUsers(owner, owner')
    && IsTable(mem, d) && IsTable(mem', d)
    && (forall w :: 0 <= w < USERPAGES ==> HasTable(mem', d, w) == (HasTable(mem, d, w) || w / NPT == i))
  }

  function NewTable(mem: Mem, d: nat, i: nat, t: nat): Mem
    requires IsTable(mem, d) && i < NPT && t < |mem| && t != d
  { WithPde(mem[t := EmptyTable()], d, i, Present(t, 7)) }

  // A new directory changes no other.
  lemma NewDirMaps(mem: Mem, free: seq<nat>, dirs: set<nat>, owner: map<nat, Use>, d: nat)
    requires Owned(mem, free, dirs, owner) && d < |mem| && d !in owner
    ensures SameMaps(mem, mem[d := EmptyTable()], dirs, d, 0, 0) == true
    ensures Empty(mem[d := EmptyTable()], d)
  {
    Scribble(mem, free, dirs, owner, d, EmptyTable());
    forall c | c in dirs ensures SameMap(mem, mem[d := EmptyTable()], c, d, 0, 0) { assert SpaceOk(mem, owner, c); }
  }

  lemma AddTable(mem: Mem, free: seq<nat>, dirs: set<nat>, owner: map<nat, Use>, d: nat, i: nat, t: nat)
    requires Owned(mem, free, dirs, owner) && d in dirs && IsTable(mem, d) && i < NPT && Pde(mem, d, i) == Absent
    requires t < |mem| && t !in owner
    ensures t != d && Owned(NewTable(mem, d, i, t), free, dirs, owner[t := TableOf(d, i)]) == true
    ensures NewTableViews(mem, NewTable(mem, d, i, t), dirs, d, i) == true
  {
    assert SpaceOk(mem, owner, d);
    Scribble(mem, free, dirs, owner, t, EmptyTable());
    var mem1 := mem[t := EmptyTable()];
    assert SpaceOk(mem1, owner, d);
    SetPde(mem1, free, dirs, owner, d, i, t, 7);
    forall c | c in dirs ensures SameMap(mem, NewTable(mem, d, i, t), c, d, 0, 0) {
      assert SpaceOk(mem, owner, c) && SpaceOk(mem1, owner, c);
      PdeLookups(mem1, free, dirs, owner, d, i, t, 7, c);
    }
    PdeLookups(mem1, free, dirs, owner, d, i, t, 7, d);
    forall w | 0 <= w < USERPAGES ensures HasTable(mem1, d, w) == HasTable(mem, d, w) {
      assert EntryOk(mem, owner, d, w / NPT);
    }
  }

  lemma TableTaken(mem: Mem, owner: map<nat, Use>, dirs: set<nat>, d: nat, i: nat, t: nat)
    requires IsTable(mem, d) && i < NPT && t < |mem| && t != d && t in owner && owner[t] == Free && d in owner &&
             owner[d] == Dir
    requires NewTableViews(mem, NewTable(mem, d, i, t), dirs, d, i)
    ensures TableAdded(mem, owner, NewTable(mem, d, i, t), (owner - {t})[t := TableOf(d, i)], dirs, d, i) == true
  {
    var owner' := (owner - {t})[t := TableOf(d, i)];
    assert owner'.Keys == owner.Keys;
  }

  predicate NewTableViews(mem: Mem, mem': Mem, dirs: set<nat>, d: nat, i: nat) {
    && SameMaps(mem, mem', dirs, d, 0, 0) && IsTable(mem, d) && IsTable(mem', d)
    && (forall w :: 0 <= w < USERPAGES ==> HasTable(mem', d, w) == (HasTable(mem, d, w) || w / NPT == i))
  }

  class Memory {
    var mem: Mem
    var free: seq<nat>                 // kmem.freelist
    ghost var dirs: set<nat>           // the page directories
    ghost var owner: map<nat, Use>     // what each page is used for, except those a caller holds

    ghost predicate Ok()
      reads this
    { Owned(mem, free, dirs, owner) == true }

    method Kalloc() returns (p: int)
      requires Ok()
      modifies this`free, this`owner
      ensures Ok() && (p == NOPAGE <==> old(free) == [])
      ensures p == NOPAGE ==> free == old(free) && owner == old(owner)
      ensures p != NOPAGE ==>
              0 <= p < |mem| && free == old(free)[1..] && p in old(owner) && old(owner)[p] == Free &&
              owner == old(owner) - {p}
    {
      if free == [] { return NOPAGE; }
      Pop(mem, free, dirs, owner);
      p := free[0];
      free := free[1..];
      owner := owner - {p};
    }

    method Kfree(p: nat)
      requires Ok() && p < |mem| && p !in owner
      modifies this`mem, this`free, this`owner
      ensures Ok() && mem == old(mem)[p := JunkPage()] && free == [p] + old(free) && owner == old(owner)[p := Free]
    {
      Scribble(mem, free, dirs, owner, p, JunkPage());
      mem := mem[p := JunkPage()];
      Push(mem, free, dirs, owner, p);
      free := [p] + free;
      owner := owner[p := Free];
    }

    // Memory of the given number of pages, as kinit1 and kinit2 leave it: all free.
    constructor (pages: nat)
      ensures Ok() && |mem| == pages && dirs == {} && forall p :: p in owner <==> 0 <= p < pages
      ensures |free| == pages
    {
      mem := seq(pages, _ => JunkPage());
      free, dirs, owner := [], {}, map[];
      new;
      FreeRange(0, pages);
    }

    // freerange: free the pages from lo to hi.
    method FreeRange(lo: nat, hi: nat)
      requires Ok() && lo <= hi <= |mem| && forall p :: lo <= p < hi ==> p !in owner
      modifies this`mem, this`free, this`owner
      ensures Ok() && |mem| == |old(mem)| && forall p :: p in owner <==> p in old(owner) || lo <= p < hi
      ensures forall p :: p in owner ==> owner[p] == if lo <= p < hi then Free else old(owner)[p]
      ensures |free| == |old(free)| + (hi - lo)
    {
      for p := lo to hi
        invariant Ok() && |mem| == |old(mem)| && forall q :: q in owner <==> q in old(owner) || lo <= q < p
        invariant forall q :: q in owner ==> owner[q] == if lo <= q < p then Free else old(owner)[q]
        invariant |free| == |old(free)| + (p - lo)
        modifies this`mem, this`free, this`owner
      {
        Kfree(p);
      }
    }

    // A new address space with an empty user half.
    method NewSpace() returns (d: int)
      requires Ok()
      modifies this
      ensures Ok() && (d == NOPAGE <==> old(free) == []) && owner.Keys == old(owner).Keys
      ensures d == NOPAGE ==> mem == old(mem) && free == old(free) && dirs == old(dirs) && owner == old(owner)
      ensures d != NOPAGE ==> d !in old(dirs) && d >= 0 && dirs == old(dirs) + {d} && Empty(mem, d)
      ensures d != NOPAGE ==> free == old(free)[1..] && SameMaps(old(mem), mem, old(dirs), d, 0, 0) == true
    {
      d := Kalloc();
      if d == NOPAGE { return; }
      AddDir(mem, free, dirs, owner, d);
      NewDirMaps(mem, free, dirs, owner, d);
      mem := mem[d := EmptyTable()];
      dirs, owner := dirs + {d}, owner[d := Dir];
      assert old(owner).Keys - {d} + {d} == old(owner).Keys;
    }

    // The table with the entry of virtual page v, made if alloc and there is none.
    method WalkPgdir(d: nat, v: nat, alloc: bool) returns (t: int)
      requires Ok() && d in dirs && v < USERPAGES
      modifies this`mem, this`free, this`owner
      ensures Ok() && IsTable(mem, d) && IsTable(old(mem), d)
      ensures t != NOPAGE <==> HasTable(mem, d, v)
      ensures t != NOPAGE ==> t == Pde(mem, d, v / NPT).pa
      ensures HasTable(old(mem), d, v) || !alloc || old(free) == [] ==>
              mem == old(mem) && free == old(free) && owner == old(owner)
      ensures !HasTable(old(mem), d, v) && alloc && old(free) != [] ==>
                free == old(free)[1..] && TableAdded(old(mem), old(owner), mem, owner, dirs, d, v / NPT) == true
      ensures |mem| == |old(mem)| && forall p :: 0 <= p < |mem| && p !in old(owner) ==> mem[p] == old(mem)[p]
    {
      assert SpaceOk(mem, owner, d);
      assert EntryOk(mem, owner, d, v / NPT);
      var e := mem[d].e[v / NPT];
      if e.Present? { return e.pa; }
      if !alloc { return NOPAGE; }
      t := Kalloc();
      if t == NOPAGE { return; }
      AddTable(mem, free, dirs, owner, d, v / NPT, t);
      TableTaken(mem, old(owner), dirs, d, v / NPT, t);
      mem := mem[t := EmptyTable()];
      mem := mem[d := Table(mem[d].e[v / NPT := Present(t, 7)])];
      owner := owner[t := TableOf(d, v / NPT)];
    }

    // walkpgdir without making a table.
    method LookUp(d: nat, v: nat) returns (t: int)
      requires Ok() && d in dirs && v < USERPAGES
      modifies this`mem, this`free, this`owner
      ensures mem == old(mem) && free == old(free) && owner == old(owner)
      ensures IsTable(mem, d) && (t == NOPAGE <==> !HasTable(mem, d, v))
      ensures t != NOPAGE ==> t == Pde(mem, d, v / NPT).pa
    {
      t := WalkPgdir(d, v, false);
    }

    // mappages for one page: page p, which the caller holds, becomes virtual page v of d. Mapping a page
    // that is mapped already is a panic.
    method MapPage(d: nat, v: nat, p: nat, flags: nat) returns (r: MapResult)
      requires Ok() && d in dirs && v < USERPAGES && p < |mem| && p !in owner
      modifies this`mem, this`free, this`owner
      ensures Ok() && IsTable(old(mem), d)
      ensures r == NoMem <==> !HasTable(old(mem), d, v) && old(free) == []
      ensures r == Remap <==> Pte(old(mem), d, v).Present?
      ensures r != Done ==> mem == old(mem) && free == old(free) && owner == old(owner)
      ensures r == Done ==> PageMapped(old(mem), old(owner), mem, owner, dirs, d, v, p, flags) == true
      ensures r == Done ==> free == if HasTable(old(mem), d, v) then old(free) else old(free)[1..]
    {
      assert SpaceOk(mem, owner, d);
      var t := WalkPgdir(d, v, true);
      if t == NOPAGE { return NoMem; }
      if mem[t].e[v % NPT].Present? {
        assert Pte(mem, d, v).Present?;
        assert SameMap(old(mem), mem, d, d, 0, 0);
        return Remap;
      }
      PutPage(old(mem), old(owner), mem, free, dirs, owner, d, v, p, flags);
      SetPte(mem, free, dirs, owner, d, v, p, flags);
      mem := mem[t := Table(mem[t].e[v % NPT := Present(p, flags)])];
      owner := owner[p := UserPage(d, v)];
      r := Done;
    }

    // Unmap virtual page v of d, whose table is t, and free the page.
    method UnmapPage(d: nat, v: nat, t: nat)
      requires Ok() && d in dirs && v < USERPAGES && IsTable(mem, d) && HasTable(mem, d, v)
      requires t == Pde(mem, d, v / NPT).pa && Pte(mem, d, v).Present?
      modifies this`mem, this`free, this`owner
      ensures Ok() && PageUnmapped(old(mem), old(owner), mem, owner, dirs, d, v) == true
    {
      var pa := mem[t].e[v % NPT].pa;
      ClearPte(mem, free, dirs, owner, d, v);
      DropPage(mem, free, dirs, owner, d, v);
      mem := mem[t := Table(mem[t].e[v % NPT := Absent])];
      owner := owner - {pa};
      Kfree(pa);
    }

    // A zeroed page in hand, for page v of d.
    method ZeroedPage(d: nat, ghost v: nat, ghost o: nat, ghost mem0: Mem, ghost owner0: map<nat, Use>) returns (p: nat)
      requires Ok() && d in dirs && Grown(mem0, owner0, mem, owner, dirs, d, o, v) && free != []
      modifies this`mem, this`free, this`owner
      ensures Ok() && p == old(free)[0] && p < |mem| && p !in owner && mem[p] == ZeroPage() && free == old(free)[1..]
      ensures owner.Keys == old(owner).Keys - {p} && p in old(owner)
      ensures Grown(mem0, owner0, mem, owner, dirs, d, o, v) == true
      ensures IsTable(mem, d) && IsTable(old(mem), d)
      ensures forall w :: 0 <= w < USERPAGES ==>
              Pte(mem, d, w) == Pte(old(mem), d, w) && HasTable(mem, d, w) == HasTable(old(mem), d, w)
    {
      ghost var free1, owner1 := free, owner;
      p := Kalloc();
      GrownZeroed(mem0, owner0, mem, free1, owner1, dirs, d, o, v, p);
      ZeroedViews(mem, free1, owner1, dirs, d, p);
      Scribble(mem, free, dirs, owner, p, ZeroPage());
      mem := mem[p := ZeroPage()];
    }

    // One round of allocuvm's loop: a zeroed page for virtual page v. If there is none left for a table
    // the page is lost, since the caller does not look.
    method AllocOne(d: nat, v: nat, ghost o: nat, ghost mem0: Mem, ghost owner0: map<nat, Use>)
        returns (r: MapResult, ghost m: nat, ghost p: nat)
      requires Ok() && d in dirs && v < USERPAGES && Grown(mem0, owner0, mem, owner, dirs, d, o, v) && free != []
      requires IsTable(mem, d) && Pte(mem, d, v) == Absent
      modifies this`mem, this`free, this`owner
      ensures Ok() && r != Remap && (r == NoMem <==> !Tabled(mem0, d, o, v, v) && |old(free)| == 1)
      ensures m == (if r == Done then v + 1 else v) && Grown(mem0, owner0, mem, owner, dirs, d, o, m) == true
      ensures r == Done ==> owner.Keys == old(owner).Keys
      ensures r == Done ==> |free| == |old(free)| - if Tabled(mem0, d, o, v, v) then 1 else 2
      ensures r == NoMem ==> free == [] && p in old(owner) && owner.Keys == old(owner).Keys - {p}
    {
      ghost var tabled, keys := Tabled(mem0, d, o, v, v), owner.Keys;
      assert HasTable(mem, d, v) == tabled;
      var q := ZeroedPage(d, v, o, mem0, owner0);
      p := q;
      assert keys - {p} + {p} == keys;
      ghost var mem1, free1, owner1 := mem, free, owner;
      r := MapPage(d, v, q, PTE_WU);
      m := if r == Done then v + 1 else v;
      if r == Done { GrownNext(mem0, owner0, mem1, free1, owner1, mem, owner, dirs, d, o, v, p); }
    }

    // allocuvm, mapping pages from o on with f pages free at first, has come to v; pages up to m are
    // mapped, and each has cost what Cost says.
    ghost predicate Allocating(mem0: Mem, f0: nat, owner0: map<nat, Use>, d: nat, o: nat, v: nat, m: nat,
        lost: set<nat>)
      reads this
    {
      && o <= m <= v <= USERPAGES && owner.Keys == owner0.Keys - lost && Grown(mem0, owner0, mem, owner, dirs, d, o, m)
      && if lost == {} then m == v && f0 == |free| + Cost(mem0, d, o, v)
         else m == v - 1 && free == [] && Needs(mem0, d, o, m) && f0 == 1 + Cost(mem0, d, o, m)
    }

    lemma AllocatingStart(d: nat, o: nat)
      requires Ok() && d in dirs && o <= USERPAGES
      ensures Allocating(mem, |free|, owner, d, o, o, o, {}) == true
    {
      GrownNone(mem, free, dirs, owner, d, o);
      assert owner.Keys - {} == owner.Keys;
    }

    // One round.
    method AllocNext(d: nat, v: nat, ghost o: nat, ghost m: nat, ghost lost: set<nat>, ghost mem0: Mem, ghost f0: nat,
        ghost owner0: map<nat, Use>)
      returns (v': nat, ghost m': nat, ghost lost': set<nat>)
      requires Ok() && d in dirs && v < USERPAGES && free != []
      requires Under(mem0, d, o) == true
      requires Allocating(mem0, f0, owner0, d, o, v, m, lost) == true
      modifies this`mem, this`free, this`owner
      ensures Ok() && v' == v + 1 && Allocating(mem0, f0, owner0, d, o, v', m', lost') == true
    {
      GrownUnder(mem0, owner0, mem, owner, dirs, d, o, m);
      NeedsIs(mem0, d, o, v);
      v', lost' := v + 1, lost;
      var r;
      ghost var p;
      r, m', p := AllocOne(d, v, o, mem0, owner0);
      if r == NoMem { lost' := {p}; }
    }

    // kalloc has failed: back to oldsz.
    method GiveUp(d: nat, oldsz: nat, newsz: nat, ghost v: nat, ghost m: nat, ghost lost: set<nat>, ghost mem0: Mem,
        ghost free0: seq<nat>, ghost owner0: map<nat, Use>)
      requires Ok() && d in dirs && oldsz < newsz < KERNBASE && free == [] && v < PageUp(newsz)
      requires Under(mem0, d, PageUp(oldsz)) == true
      requires Owned(mem0, free0, dirs, owner0) == true
      requires Allocating(mem0, |free0|, owner0, d, PageUp(oldsz), v, m, lost) == true
      modifies this`mem, this`free, this`owner
      ensures Ok() && AsBefore(mem0, owner0, mem, dirs, d) == true
      ensures owner.Keys == owner0.Keys - lost && IsTable(mem0, d)
      ensures lost == {} <==> !Strands(mem0, d, PageUp(oldsz), PageUp(newsz), |free0|)
      ensures !Suffices(mem0, d, PageUp(oldsz), PageUp(newsz), |free0|)
    {
      ghost var mem1, owner1, o, n := mem, owner, PageUp(oldsz), PageUp(newsz);
      GrownUnder(mem0, owner0, mem, owner, dirs, d, o, m);
      RanOut(mem0, d, o, v, n, |free0|, lost != {});
      var _ := DeallocUvm(d, newsz, oldsz);
      GivenUp(mem0, free0, owner0, mem1, owner1, mem, owner, dirs, d, o, m, n);
    }

    // The loop of allocuvm.
    method AllocLoop(d: nat, oldsz: nat, newsz: nat, ghost mem0: Mem, ghost free0: seq<nat>,
        ghost owner0: map<nat, Use>)
      returns (ok: bool, ghost m: nat, ghost lost: set<nat>)
      requires Ok() && d in dirs && oldsz <= newsz < KERNBASE
      requires Under(mem0, d, PageUp(oldsz)) == true
      requires Owned(mem0, free0, dirs, owner0) == true
      requires Allocating(mem0, |free0|, owner0, d, PageUp(oldsz), PageUp(oldsz), PageUp(oldsz), {}) == true
      modifies this`mem, this`free, this`owner
      ensures Ok() && IsTable(mem0, d)
      ensures ok ==> Allocating(mem0, |free0|, owner0, d, PageUp(oldsz), PageUp(newsz), m, lost) == true
      ensures !ok ==> AsBefore(mem0, owner0, mem, dirs, d) == true && owner.Keys == owner0.Keys - lost
      ensures !ok ==> (lost == {} <==> !Strands(mem0, d, PageUp(oldsz), PageUp(newsz), |free0|))
      ensures !ok ==> !Suffices(mem0, d, PageUp(oldsz), PageUp(newsz), |free0|)
    {
      lost := {};
      var v: nat := PageUp(oldsz);
      m := v;
      while v * PGSIZE < newsz
        invariant Ok() && PageUp(oldsz) <= v <= PageUp(newsz)
        invariant Allocating(mem0, |free0|, owner0, d, PageUp(oldsz), v, m, lost) == true
        modifies this`mem, this`free, this`owner
      {
        PageUpAbove(v, newsz);
        if free == [] {
          GiveUp(d, oldsz, newsz, v, m, lost, mem0, free0, owner0);
          return false, m, lost;
        }
        v, m, lost := AllocNext(d, v, PageUp(oldsz), m, lost, mem0, |free0|, owner0);
      }
      ok := true;
    }

    // allocuvm where it has something to do.
    method AllocPages(d: nat, oldsz: nat, newsz: nat) returns (ok: bool, ghost lost: set<nat>)
      requires Ok() && d in dirs && Under(mem, d, PageUp(oldsz)) && oldsz <= newsz < KERNBASE
      modifies this`mem, this`free, this`owner
      ensures Ok() && owner.Keys == old(owner).Keys - lost
      ensures ok <==> Suffices(old(mem), d, PageUp(oldsz), PageUp(newsz), |old(free)|)
      ensures lost == {} <==> !Strands(old(mem), d, PageUp(oldsz), PageUp(newsz), |old(free)|)
      ensures ok ==> var m := if lost == {} then PageUp(newsz) else PageUp(newsz) - 1;
                     m >= 0 && Grown(old(mem), old(owner), mem, owner, dirs, d, PageUp(oldsz), m) == true
      ensures ok ==> |free| == if lost == {} then |old(free)| - Cost(old(mem), d, PageUp(oldsz), PageUp(newsz)) else 0
      ensures !ok ==> AsBefore(old(mem), old(owner), mem, dirs, d) == true
    {
      ghost var m;
      AllocatingStart(d, PageUp(oldsz));
      ok, m, lost := AllocLoop(d, oldsz, newsz, mem, free, owner);
      if ok { GotThrough(old(mem), d, PageUp(oldsz), PageUp(newsz), |old(free)|, lost != {}); }
    }

    // allocuvm: grow user memory from oldsz to newsz bytes. ok is false where the source returns 0. lost
    // holds the page, if any, that no longer belongs to anything: memory has run out between a page and
    // the table for it, and nobody looks. If that was the last page, the caller is told that all is well.
    method AllocUvm(d: nat, oldsz: nat, newsz: nat) returns (ok: bool, size: nat, ghost lost: set<nat>)
      requires Ok() && d in dirs && Under(mem, d, PageUp(oldsz))
      modifies this`mem, this`free, this`owner
      ensures Ok() && owner.Keys == old(owner).Keys - lost
      ensures newsz >= KERNBASE ==> !ok
      ensures newsz < oldsz && newsz < KERNBASE ==> ok && size == oldsz
      ensures newsz >= KERNBASE || newsz < oldsz ==>
              mem == old(mem) && free == old(free) && owner == old(owner) && lost == {}
      ensures oldsz <= newsz < KERNBASE ==>
                var o, n, f := PageUp(oldsz), PageUp(newsz), |old(free)|;
                && (ok <==> Suffices(old(mem), d, o, n, f))
                && (lost == {} <==> !Strands(old(mem), d, o, n, f))
                && (ok ==> size == newsz && var m := if lost == {} then n else n - 1;
                           m >= 0 && Grown(old(mem), old(owner), mem, owner, dirs, d, o, m) == true)
                && (ok ==> |free| == if lost == {} then f - Cost(old(mem), d, o, n) else 0)
                && (!ok ==> AsBefore(old(mem), old(owner), mem, dirs, d) == true)
    {
      lost := {};
      if newsz >= KERNBASE { return false, 0, lost; }
      if newsz < oldsz { return true, oldsz, lost; }
      ok, lost := AllocPages(d, oldsz, newsz);
      size := if ok then newsz else 0;
    }

    // One round of deallocuvm's loop. Where there is no table it goes on 4 MB further up.
    method DeallocOne(d: nat, v: nat, ghost lo: nat, ghost mem0: Mem, ghost owner0: map<nat, Use>) returns (v': nat)
      requires Ok() && d in dirs && lo <= v < USERPAGES
      requires Unmapped(mem0, owner0, mem, owner, dirs, d, lo, v) == true
      requires WalkOk(mem0, d, lo, v) == true
      modifies this`mem, this`free, this`owner
      ensures Ok() && v < v' && Unmapped(mem0, owner0, mem, owner, dirs, d, lo, v') == true
      ensures WalkOk(mem0, d, lo, v') == true
      ensures v' == v + 1 || NoneUnmapped(mem0, d, lo, v, v') == true
    {
      var t := LookUp(d, v);
      if t == NOPAGE {
        v' := v + (NPT - 1);
        v' := v' + 1;
        DeallocJump(mem0, owner0, mem, free, owner, dirs, d, lo, v, v');
      } else {
        v' := DeallocAt(d, v, t, lo, mem0, owner0);
      }
    }

    // Where there is a table, t.
    method DeallocAt(d: nat, v: nat, t: nat, ghost lo: nat, ghost mem0: Mem, ghost owner0: map<nat, Use>)
        returns (v': nat)
      requires Ok() && d in dirs && lo <= v < USERPAGES && IsTable(mem, d) && HasTable(mem, d, v) &&
               t == Pde(mem, d, v / NPT).pa
      requires Unmapped(mem0, owner0, mem, owner, dirs, d, lo, v) == true
      requires WalkOk(mem0, d, lo, v) == true
      modifies this`mem, this`free, this`owner
      ensures Ok() && v' == v + 1 && Unmapped(mem0, owner0, mem, owner, dirs, d, lo, v') == true
      ensures WalkOk(mem0, d, lo, v') == true
    {
      v' := v + 1;
      DeallocHere(mem0, owner0, mem, owner, dirs, d, lo, v, v');
      if mem[t].e[v % NPT].Present? {
        ghost var mem1, free1, owner1 := mem, free, owner;
        UnmapPage(d, v, t);
        UnmappedNext(mem0, owner0, mem1, free1, owner1, mem, owner, dirs, d, lo, v, v');
      } else {
        UnmappedAbsent(mem0, owner0, mem, free, owner, dirs, d, lo, v, v');
      }
    }

    // deallocuvm: free user memory from newsz up to oldsz, all but the pages that its step of 4 MB over
    // a missing table jumps over.
    method DeallocUvm(d: nat, oldsz: nat, newsz: nat) returns (size: nat)
      requires Ok() && d in dirs && oldsz <= KERNBASE
      modifies this`mem, this`free, this`owner
      ensures Ok() && size == (if newsz >= oldsz then oldsz else newsz)
      ensures newsz >= oldsz ==> mem == old(mem) && free == old(free) && owner == old(owner)
      ensures newsz < oldsz ==>
              Unmapped(old(mem), old(owner), mem, owner, dirs, d, PageUp(newsz), PageUp(oldsz)) == true
    {
      if newsz >= oldsz { return oldsz; }
      var v := PageUp(newsz);
      UnmappedNone(mem, free, dirs, owner, d, v);
      ghost var w := v;
      while v * PGSIZE < oldsz
        invariant Ok() && PageUp(newsz) <= w <= v &&
                  (v <= PageUp(oldsz) || (w <= PageUp(oldsz) && NoneUnmapped(old(mem), d, PageUp(newsz), w, v)))
        invariant Unmapped(old(mem), old(owner), mem, owner, dirs, d, PageUp(newsz), v) == true
        invariant WalkOk(old(mem), d, PageUp(newsz), v) == true
        decreases oldsz - v * PGSIZE
        modifies this`mem, this`free, this`owner
      {
        PageUpAbove(v, oldsz);
        w := v;
        v := DeallocOne(d, v, PageUp(newsz), old(mem), old(owner));
      }
      UnmappedUpTo(old(mem), old(free), old(owner), mem, owner, dirs, d, PageUp(newsz), w, v, PageUp(oldsz));
      size := newsz;
    }

    // The table of entry i of a directory that is out of use.
    method FreeTable(d: nat, i: nat, ghost e: seq<Entry>, ghost mem0: Mem, ghost owner0: map<nat, Use>)
        returns (i': nat)
      requires Ok() && |e| == NPT && i < NPT && Detached(mem, owner, d, e, i) == true
      requires SomeFreed(mem0, owner0, mem, owner, e, i) == true
      modifies this`mem, this`free, this`owner
      ensures Ok() && i' == i + 1 && Detached(mem, owner, d, e, i') == true
      ensures SomeFreed(mem0, owner0, mem, owner, e, i') == true
    {
      SomeFreedNext(mem0, owner0, mem, owner, d, e, i);
      if mem[d].e[i].Present? { Kfree(mem[d].e[i].pa); }
      i' := i + 1;
    }

    // All its tables, and the directory.
    method FreeTables(d: nat, ghost e: seq<Entry>)
      requires Ok() && |e| == NPT && Detached(mem, owner, d, e, 0) == true
      modifies this`mem, this`free, this`owner
      ensures Ok() && TablesFreed(old(mem), old(owner), mem, owner, d, e) == true
    {
      var i: nat := 0;
      while i < NPT
        invariant i <= NPT && Ok() && Detached(mem, owner, d, e, i) == true
        invariant SomeFreed(old(mem), old(owner), mem, owner, e, i) == true
        modifies this`mem, this`free, this`owner
      {
        i := FreeTable(d, i, e, old(mem), old(owner));
      }
      TablesFreedLast(old(mem), old(owner), mem, owner, d, e);
      Kfree(d);
    }

    // The tables and the directory of an address space without user pages.
    method FreeSpace(d: nat)
      requires Ok() && d in dirs && IsTable(mem, d) && forall v :: 0 <= v < USERPAGES ==> Pte(mem, d, v) == Absent
      modifies this
      ensures Ok() && dirs == old(dirs) - {d} && TablesGone(old(mem), old(owner), mem, owner, d) == true
    {
      OwnTables(mem, free, dirs, owner, d);
      Detach(mem, free, dirs, owner, d);
      ghost var e := mem[d].e;
      dirs := dirs - {d};
      owner := OwnerWithout(owner, d);
      FreeTables(d, e);
    }

    // freevm: every page of the address space, once.
    method FreeVm(d: nat)
      requires Ok() && d in dirs
      modifies this
      ensures Ok() && dirs == old(dirs) - {d} && SpaceFreed(old(mem), old(owner), mem, owner, d) == true
      ensures SameMaps(old(mem), mem, dirs, d, 0, 0) == true
    {
      var _ := DeallocUvm(d, KERNBASE, 0);
      ghost var mem1, free1, owner1 := mem, free, owner;
      UnmappedWhole(old(mem), old(owner), mem, owner, dirs, d);
      FreeSpace(d);
      FreedWhole(old(mem), old(free), old(owner), old(dirs), mem1, owner1, mem, owner, d);
      FreedMaps(old(mem), old(owner), old(dirs), mem1, free1, owner1, mem, owner, d);
    }

    // A page in hand with the content of page v of d, and the flags that go with it. None if memory is
    // out.
    method CopyPage(d: nat, c: nat, v: nat, ghost mem0: Mem, ghost owner0: map<nat, Use>) returns (p: int, flags: nat)
      requires Ok() && d in dirs && c in dirs && c != d && v < USERPAGES && IsTable(mem0, d) && Pte(mem0, d, v).Present?
      requires Copying(mem0, owner0, mem, owner, dirs, d, c, v) == true
      modifies this`mem, this`free, this`owner
      ensures Ok() && Copying(mem0, owner0, mem, owner, dirs, d, c, v) == true
      ensures p == NOPAGE ==> owner.Keys == old(owner).Keys
      ensures p != NOPAGE ==> 0 <= p < |mem| && p !in owner && p in old(owner) && owner.Keys == old(owner).Keys - {p}
      ensures p != NOPAGE ==> HoldsCopy(mem, owner, d, v, p, flags) == true
      ensures p == NOPAGE <==> old(free) == []
      ensures p != NOPAGE ==> free == old(free)[1..]
      ensures SameTabled(old(mem), mem, c) == true
    {
      flags := 0;
      CopySource(mem0, owner0, mem, free, owner, dirs, d, c, v);
      var t := LookUp(d, v);
      var e := mem[t].e[v % NPT];
      ghost var free1, owner1 := free, owner;
      p := Kalloc();
      if p == NOPAGE { return; }
      CopyHeld(mem0, owner0, mem, free1, owner1, dirs, d, c, v, p, mem[e.pa]);
      HeldTabled(mem, free1, owner1, dirs, c, p, mem[e.pa]);
      Scribble(mem, free, dirs, owner, p, mem[e.pa]);
      mem := mem[p := mem[e.pa]];
      flags := e.flags;
    }

    // The copy of page v, in hand, becomes page v of c, if there is memory for a table.
    method MapCopy(d: nat, c: nat, v: nat, p: nat, flags: nat, ghost mem0: Mem, ghost owner0: map<nat, Use>)
        returns (ok: bool, v': nat)
      requires Ok() && d in dirs && c in dirs && c != d && v < USERPAGES && Mapped(mem0, c, 0) == true
      requires Copying(mem0, owner0, mem, owner, dirs, d, c, v) == true
      requires HoldsCopy(mem, owner, d, v, p, flags) == true
      modifies this`mem, this`free, this`owner
      ensures Ok() && v' == v + 1 && (!ok ==> mem == old(mem) && owner == old(owner))
      ensures ok ==> owner.Keys == old(owner).Keys + {p}
      ensures ok ==> Copying(mem0, owner0, mem, owner, dirs, d, c, v') == true
      ensures IsTable(old(mem), c) && (ok <==> HasTable(old(mem), c, v) || old(free) != [])
      ensures ok ==> TabledAt(old(mem), mem, c, v) == true
      ensures ok ==> free == if HasTable(old(mem), c, v) then old(free) else old(free)[1..]
    {
      CopyShape(mem0, owner0, mem, owner, dirs, d, c, v);
      ghost var mem1, free1, owner1 := mem, free, owner;
      var r := MapPage(c, v, p, flags);
      ok, v' := r == Done, v + 1;
      if ok { CopyNext(mem0, owner0, mem1, free1, owner1, mem, owner, dirs, d, c, v, p, flags); }
    }

    // One round of copyuvm's loop. If there is no memory for a table the page is lost.
    method CopyOne(d: nat, c: nat, v: nat, ghost mem0: Mem, ghost f0: nat, ghost owner0: map<nat, Use>)
        returns (ok: bool, v': nat, ghost lost: set<nat>)
      requires Ok() && d in dirs && c in dirs && c != d && v < USERPAGES && IsTable(mem0, d) && Pte(mem0, d, v).Present?
      requires Mapped(mem0, c, 0) == true
      requires Budget(mem0, f0, mem, |free|, c, v) == true
      requires Copying(mem0, owner0, mem, owner, dirs, d, c, v) == true
      modifies this`mem, this`free, this`owner
      ensures Ok() && owner.Keys == old(owner).Keys - lost && v' == v + 1
      ensures ok ==> lost == {} && Copying(mem0, owner0, mem, owner, dirs, d, c, v') == true
      ensures !ok ==> Copying(mem0, owner0, mem, owner, dirs, d, c, v) == true
      ensures ok ==> Budget(mem0, f0, mem, |free|, c, v') == true
      ensures !ok ==> Exhausted(mem0, f0, c, v, lost) == true
    {
      v', lost := v + 1, {};
      NeedsIs(mem0, c, 0, v);
      var p, flags := CopyPage(d, c, v, mem0, owner0);
      if p == NOPAGE { return false, v', lost; }
      ghost var mem1 := mem;
      ok, v' := MapCopy(d, c, v, p, flags, mem0, owner0);
      if ok { BudgetNext(mem0, f0, old(mem), |old(free)|, mem1, mem, |free|, c, v); } else { lost := {p}; }
      KeysBack(old(owner).Keys, p);
    }

    // copyuvm: c, fresh from setupkvm, becomes a copy of the first size bytes of d: exactly if all those
    // pages are there and memory lasts. It panics at the first that is not there, if memory has lasted
    // so far. If memory runs out between a page and the table for it, that page is lost.
    method CopyUvm(d: nat, c: nat, size: nat) returns (r: CopyResult, ghost lost: set<nat>)
      requires Ok() && d in dirs && c in dirs && c != d && size < KERNBASE && Mapped(mem, c, 0)
      modifies this
      ensures IsTable(old(mem), d) && IsTable(old(mem), c)
      ensures var n, f := PageUp(size), |old(free)|;
              var gap := FirstGap(old(mem), d, 0, n);
              && (r == Copied <==> gap == n && Cost(old(mem), c, 0, n) <= f)
              && (r == PageMissing <==> gap < n && Cost(old(mem), c, 0, gap) <= f)
              && (lost == {} <==> !Strands(old(mem), c, 0, gap, f))
      ensures r != PageMissing ==> Ok() && owner.Keys == old(owner).Keys - lost
      ensures r == Copied ==> dirs == old(dirs) && lost == {} && Mapped(mem, c, PageUp(size)) == true
      ensures r == Copied ==> Copying(old(mem), old(owner), mem, owner, dirs, d, c, PageUp(size)) == true
      ensures r == OutOfMemory ==> dirs == old(dirs) - {c} && c in owner && owner[c] == Free
      ensures r == OutOfMemory ==> UsersKept(old(mem), old(owner), mem, owner) == true
      ensures r == OutOfMemory ==> SameMaps(old(mem), mem, dirs, c, 0, 0) == true
    {
      lost := {};
      var v: nat := 0;
      CopyStart(mem, free, owner, dirs, d, c);
      ghost var gap := FirstGap(mem, d, 0, PageUp(size));
      GapFirst(mem, d, 0, PageUp(size));
      while v * PGSIZE < size
        invariant Ok() && v <= gap && dirs == old(dirs) && owner.Keys == old(owner).Keys && lost == {}
        invariant Copying(old(mem), old(owner), mem, owner, dirs, d, c, v) == true
        invariant Budget(old(mem), |old(free)|, mem, |free|, c, v) == true
        decreases PageUp(size) - v
        modifies this
      {
        PageUpAbove(v, size);
        r, v, lost := CopyRound(d, c, v, gap, old(mem), old(free), old(owner));
        if r != Copied { return; }
      }
      PageUpAt(v, size);
      CopyShape(old(mem), old(owner), mem, owner, dirs, d, c, v);
      NotExhausted(old(mem), |old(free)|, mem, |free|, c, v);
      r := Copied;
    }

    // One turn of copyuvm's loop, with what it does before it gives up.
    method CopyRound(d: nat, c: nat, v: nat, ghost gap: nat, ghost mem0: Mem, ghost free0: seq<nat>,
        ghost owner0: map<nat, Use>)
        returns (r: CopyResult, v': nat, ghost lost: set<nat>)
      requires Ok() && d in dirs && c in dirs && c != d && Mapped(mem0, c, 0) == true
      requires Owned(mem0, free0, dirs, owner0) == true
      requires v <= gap <= USERPAGES && v < USERPAGES && IsTable(mem0, d) && (v < gap <==> Pte(mem0, d, v).Present?)
      requires Copying(mem0, owner0, mem, owner, dirs, d, c, v) == true
      requires Budget(mem0, |free0|, mem, |free|, c, v) == true
      modifies this
      ensures IsTable(mem0, c) && v' == v + 1 && (r != PageMissing ==> Ok() && owner.Keys == old(owner).Keys - lost)
      ensures r == Copied ==> v < gap && lost == {} && dirs == old(dirs)
      ensures r == Copied ==> Copying(mem0, owner0, mem, owner, dirs, d, c, v') == true
      ensures r == Copied ==> Budget(mem0, |free0|, mem, |free|, c, v') == true
      ensures r == PageMissing ==>
              v == gap && lost == {} && Cost(mem0, c, 0, gap) <= |free0| && !Strands(mem0, c, 0, gap, |free0|)
      ensures r == OutOfMemory ==>
              v < gap && Cost(mem0, c, 0, gap) > |free0| && (lost == {} <==> !Strands(mem0, c, 0, gap, |free0|))
      ensures r == OutOfMemory ==> dirs == old(dirs) - {c} && c in owner && owner[c] == Free
      ensures r == OutOfMemory ==> UsersKept(mem0, owner0, mem, owner) == true
      ensures r == OutOfMemory ==> SameMaps(mem0, mem, dirs, c, 0, 0) == true
    {
      r, v', lost := Copied, v + 1, {};
      var there := IsThere(d, v);
      CopyLooks(mem0, owner0, mem, owner, dirs, d, c, v);
      if !there {
        NotExhausted(mem0, |free0|, mem, |free|, c, v);
        return PageMissing, v', lost;
      }
      var ok;
      ok, v', lost := CopyOne(d, c, v, mem0, |free0|, owner0);
      if !ok {
        CopyFailed(mem0, |free0|, c, v, gap, lost);
        UndoCopy(d, c, v, mem0, free0, owner0);
        r := OutOfMemory;
      }
    }

    // Whether virtual page v is there: copyuvm's two tests.
    method IsThere(d: nat, v: nat) returns (there: bool)
      requires Ok() && d in dirs && v < USERPAGES
      ensures IsTable(mem, d) && (there <==> Pte(mem, d, v).Present?)
    {
      assert SpaceOk(mem, owner, d);
      assert EntryOk(mem, owner, d, v / NPT);
      var e := mem[d].e[v / NPT];
      there := e.Present? && mem[e.pa].e[v % NPT].Present?;
    }

    // copyuvm gives up.
    method UndoCopy(d: nat, c: nat, ghost v: nat, ghost mem0: Mem, ghost free0: seq<nat>, ghost owner0: map<nat, Use>)
      requires Ok() && d in dirs && c in dirs && c != d && Mapped(mem0, c, 0) == true
      requires Owned(mem0, free0, dirs, owner0) == true
      requires Copying(mem0, owner0, mem, owner, dirs, d, c, v) == true
      modifies this
      ensures Ok() && dirs == old(dirs) - {c} && owner.Keys == old(owner).Keys && c in owner && owner[c] == Free
      ensures UsersKept(mem0, owner0, mem, owner) == true
      ensures SameMaps(mem0, mem, dirs, c, 0, 0) == true
    {
      ghost var mem1, owner1, dirs1 := mem, owner, dirs;
      assert SpaceOk(mem, owner, c);
      FreeVm(c);
      CopyUnmapped(mem0, owner0, mem1, owner1, mem, dirs1, d, c, v);
      assert Belongs(owner1[c], c, c);
      CopyUndone(mem0, free0, owner0, mem1, owner1, mem, owner, dirs1, d, c, v);
    }
  }

  lemma KeysBack(keys: set<nat>, p: nat)
    requires p in keys
    ensures keys - {p} + {p} == keys && keys - {} == keys
  {}

  // Page w of c holds what page w of d does, with the same flags, in a page that was nobody's.
  predicate CopiedPage(mem: Mem, owner0: map<nat, Use>, d: nat, c: nat, w: nat)
    requires IsTable(mem, d) && IsTable(mem, c) && w < USERPAGES
  {
    var e, f := Pte(mem, d, w), Pte(mem, c, w);
    && e.Present? && f.Present? && f.flags == e.flags && e.pa < |mem| && f.pa < |mem| && mem[f.pa] == mem[e.pa]
    && !IsUser(owner0, f.pa)
  }

  // The first v pages of d have been copied to c; all else is as it was.
  predicate Copying(mem0: Mem, owner0: map<nat, Use>, mem: Mem, owner: map<nat, Use>, dirs: set<nat>, d: nat, c: nat,
      v: nat) {
    && v <= USERPAGES && |mem| == |mem0| && SameMaps(mem0, mem, dirs, c, 0, v) && IsTable(mem, d) && IsTable(mem, c)
    && (forall w :: 0 <= w < v ==> CopiedPage(mem, owner0, d, c, w)) && SameData(mem0, mem, owner0)
    && (forall p :: p in owner0 && IsUser(owner0, p) ==> p in owner && owner[p] == owner0[p])
  }

  lemma CopyStart(mem: Mem, free: seq<nat>, owner: map<nat, Use>, dirs: set<nat>, d: nat, c: nat)
    requires Owned(mem, free, dirs, owner) && d in dirs && c in dirs
    ensures Copying(mem, owner, mem, owner, dirs, d, c, 0) == true
  {
    forall x | x in dirs ensures SameMap(mem, mem, x, c, 0, 0) { assert SpaceOk(mem, owner, x); }
    assert SpaceOk(mem, owner, d) && SpaceOk(mem, owner, c);
  }

  lemma CopySource(mem0: Mem, owner0: map<nat, Use>, mem: Mem, free: seq<nat>, owner: map<nat, Use>, dirs: set<nat>,
      d: nat, c: nat, v: nat)
    requires Owned(mem, free, dirs, owner) && d in dirs && c != d && v < USERPAGES && IsTable(mem0, d) &&
             Pte(mem0, d, v).Present?
    requires Copying(mem0, owner0, mem, owner, dirs, d, c, v)
    ensures HasTable(mem, d, v) && Pte(mem, d, v).Present? && Pte(mem, d, v).pa < |mem|
    ensures Pte(mem, d, v).pa in owner && owner[Pte(mem, d, v).pa] == UserPage(d, v)
  {
    assert SameMap(mem0, mem, d, c, 0, v);
    assert SpaceOk(mem, owner, d) && UserOk(mem, owner, d, v);
  }

  // Page v of d is there exactly if it was at first.
  lemma CopyLooks(mem0: Mem, owner0: map<nat, Use>, mem: Mem, owner: map<nat, Use>, dirs: set<nat>, d: nat, c: nat,
      v: nat)
    requires d in dirs && c != d && v < USERPAGES && Copying(mem0, owner0, mem, owner, dirs, d, c, v)
    ensures IsTable(mem0, d) && IsTable(mem, d) && Pte(mem, d, v) == Pte(mem0, d, v)
  {
    assert SameMap(mem0, mem, d, c, 0, v);
  }

  lemma CopyShape(mem0: Mem, owner0: map<nat, Use>, mem: Mem, owner: map<nat, Use>, dirs: set<nat>, d: nat, c: nat,
      v: nat)
    requires c in dirs && Mapped(mem0, c, 0) && Copying(mem0, owner0, mem, owner, dirs, d, c, v)
    ensures Mapped(mem, c, v)
  {
    assert SameMap(mem0, mem, c, c, 0, v);
    forall w | 0 <= w < v ensures Pte(mem, c, w).Present? { assert CopiedPage(mem, owner0, d, c, w); }
  }

  // c has the same tables.
  predicate SameTabled(mem: Mem, mem': Mem, c: nat) {
    && IsTable(mem, c) && IsTable(mem', c)
    && forall w :: 0 <= w < USERPAGES ==> HasTable(mem', c, w) == HasTable(mem, c, w)
  }

  lemma HeldTabled(mem: Mem, free: seq<nat>, owner: map<nat, Use>, dirs: set<nat>, c: nat, p: nat, x: Page)
    requires Owned(mem, free, dirs, owner) && c in dirs && p < |mem| && p in owner && owner[p] == Free
    ensures SameTabled(mem, mem[p := x], c) == true
  {
    assert SpaceOk(mem, owner, c);
    SameLookups(mem, mem[p := x], owner, c);
  }

  // copyuvm has made tables for pages 0 to v of c, and paid for them.
  predicate Budget(mem0: Mem, f0: nat, mem: Mem, f: nat, c: nat, v: nat) {
    && IsTable(mem0, c) && IsTable(mem, c) && v <= USERPAGES && f0 == f + Cost(mem0, c, 0, v)
    && (forall w :: v <= w < USERPAGES ==> HasTable(mem, c, w) == Tabled(mem0, c, 0, v, w))
  }

  // There is no page for v, or no table for it, and then the page is lost.
  predicate Exhausted(mem0: Mem, f0: nat, c: nat, v: nat, lost: set<nat>) {
    && IsTable(mem0, c) && v < USERPAGES
    && if lost == {} then f0 == Cost(mem0, c, 0, v) else Needs(mem0, c, 0, v) && f0 == 1 + Cost(mem0, c, 0, v)
  }

  // One more page of c.
  lemma BudgetNext(mem0: Mem, f0: nat, mem: Mem, f: nat, mem1: Mem, mem': Mem, f': nat, c: nat, v: nat)
    requires Budget(mem0, f0, mem, f, c, v) && v < USERPAGES && SameTabled(mem, mem1, c) && TabledAt(mem1, mem', c, v)
    requires f == f' + if HasTable(mem, c, v) then 1 else 2
    ensures Budget(mem0, f0, mem', f', c, v + 1) == true
  {
    NeedsIs(mem0, c, 0, v);
  }

  // While memory lasts nothing is lost.
  lemma NotExhausted(mem0: Mem, f0: nat, mem: Mem, f: nat, c: nat, v: nat)
    requires Budget(mem0, f0, mem, f, c, v)
    ensures Cost(mem0, c, 0, v) <= f0 && !Strands(mem0, c, 0, v, f0)
  {
    NoStrand(mem0, c, 0, v, f0);
  }

  lemma CopyFailed(mem0: Mem, f0: nat, c: nat, v: nat, gap: nat, lost: set<nat>)
    requires Exhausted(mem0, f0, c, v, lost) && v < gap <= USERPAGES
    ensures Cost(mem0, c, 0, gap) > f0 && (lost == {} <==> !Strands(mem0, c, 0, gap, f0))
  {
    if lost == {} { OutAt(mem0, c, 0, v, gap, f0); } else { StrandAt(mem0, c, 0, v, gap, f0); }
  }

  // c has a table for page v too.
  predicate TabledAt(mem: Mem, mem': Mem, c: nat, v: nat) {
    && IsTable(mem, c) && IsTable(mem', c)
    && forall w :: 0 <= w < USERPAGES ==> HasTable(mem', c, w) == (HasTable(mem, c, w) || w / NPT == v / NPT)
  }

  // Every user page is still where it was, with what it held.
  predicate UsersKept(mem: Mem, owner: map<nat, Use>, mem': Mem, owner': map<nat, Use>) {
    |mem'| == |mem| && forall p :: p in owner && IsUser(owner, p) && p < |mem| ==>
        p in owner' && owner'[p] == owner[p] && mem'[p] == mem[p]
  }

  // c, which had no user pages, has been filled up to page v and freed.
  lemma CopyUndone(mem0: Mem, free0: seq<nat>, owner0: map<nat, Use>, mem1: Mem, owner1: map<nat, Use>, mem: Mem,
      owner: map<nat, Use>,
                   dirs: set<nat>, d: nat, c: nat, v: nat)
    requires Owned(mem0, free0, dirs, owner0) && c in dirs && Mapped(mem0, c, 0)
    requires Copying(mem0, owner0, mem1, owner1, dirs, d, c, v) && SpaceFreed(mem1, owner1, mem, owner, c)
    ensures UsersKept(mem0, owner0, mem, owner) == true
  {
    forall p | p in owner0 && IsUser(owner0, p) && p < |mem0|
      ensures p in owner && owner[p] == owner0[p] && mem[p] == mem0[p] {
      assert p in owner1 && owner1[p] == owner0[p];
      assert owner0[p].d != c;
    }
  }

  lemma CopyUnmapped(mem0: Mem, owner0: map<nat, Use>, mem1: Mem, owner1: map<nat, Use>, mem: Mem, dirs: set<nat>,
      d: nat, c: nat, v: nat)
    requires Copying(mem0, owner0, mem1, owner1, dirs, d, c, v) && SameMaps(mem1, mem, dirs - {c}, c, 0, 0)
    ensures SameMaps(mem0, mem, dirs - {c}, c, 0, 0) == true
  {
    forall x | x in dirs - {c} ensures SameMap(mem0, mem, x, c, 0, 0) {
      assert SameMap(mem0, mem1, x, c, 0, v) && SameMap(mem1, mem, x, c, 0, 0);
    }
  }

  // A free page has been taken and written.
  lemma CopyHeld(mem0: Mem, owner0: map<nat, Use>, mem: Mem, free: seq<nat>, owner: map<nat, Use>, dirs: set<nat>,
      d: nat, c: nat, v: nat, p: nat, x: Page)
    requires Owned(mem, free, dirs, owner) && d in dirs && c in dirs && Copying(mem0, owner0, mem, owner, dirs, d, c, v)
    requires p < |mem| && p in owner && owner[p] == Free
    ensures Copying(mem0, owner0, mem[p := x], owner - {p}, dirs, d, c, v) == true
    ensures IsTable(mem[p := x], d) && forall w :: 0 <= w < USERPAGES ==> Pte(mem[p := x], d, w) == Pte(mem, d, w)
  {
    var mem1 := mem[p := x];
    forall y | y in dirs ensures SameMap(mem0, mem1, y, c, 0, v) {
      assert SpaceOk(mem, owner, y) && SameMap(mem0, mem, y, c, 0, v);
      SameLookups(mem, mem1, owner, y);
    }
    assert SpaceOk(mem, owner, d) && SpaceOk(mem, owner, c);
    SameLookups(mem, mem1, owner, d);
    SameLookups(mem, mem1, owner, c);
    forall w | 0 <= w < v ensures CopiedPage(mem1, owner0, d, c, w) {
      assert CopiedPage(mem, owner0, d, c, w) && UserOk(mem, owner, d, w) && UserOk(mem, owner, c, w);
    }
  }

  // p, in hand, has the content of page v of d, which has these flags.
  predicate HoldsCopy(mem: Mem, owner: map<nat, Use>, d: nat, v: nat, p: nat, flags: nat) {
    && v < USERPAGES && IsTable(mem, d) && p < |mem| && p !in owner && Pte(mem, d, v).Present? &&
       Pte(mem, d, v).pa < |mem|
    && flags == Pte(mem, d, v).flags && mem[p] == mem[Pte(mem, d, v).pa]
  }

  lemma CopyNext(mem0: Mem, owner0: map<nat, Use>, mem: Mem, free: seq<nat>, owner: map<nat, Use>, mem': Mem,
      owner': map<nat, Use>,
                 dirs: set<nat>, d: nat, c: nat, v: nat, p: nat, flags: nat)
    requires Owned(mem, free, dirs, owner) == true
    requires d in dirs && c in dirs && c != d && Copying(mem0, owner0, mem, owner, dirs, d, c, v) == true
    requires HoldsCopy(mem, owner, d, v, p, flags) == true
    requires PageMapped(mem, owner, mem', owner', dirs, c, v, p, flags) == true
    ensures Copying(mem0, owner0, mem', owner', dirs, d, c, v + 1) == true
  {
    forall y | y in dirs ensures SameMap(mem0, mem', y, c, 0, v + 1) {
      assert SameMap(mem0, mem, y, c, 0, v) && SameMap(mem, mem', y, c, v, v + 1);
    }
    assert SpaceOk(mem, owner, d) && SpaceOk(mem, owner, c) && SameMap(mem, mem', d, c, v, v + 1) &&
        SameMap(mem, mem', c, c, v, v + 1);
    forall w | 0 <= w < v + 1 ensures CopiedPage(mem', owner0, d, c, w) {
      assert UserOk(mem, owner, d, w);
      if w < v { assert CopiedPage(mem, owner0, d, c, w) && UserOk(mem, owner, c, w); }
    }
    forall q | q in owner0 && IsUser(owner0, q)
      ensures q in owner' && owner'[q] == owner0[q] && (q < |mem| ==> mem'[q] == mem0[q]) {
      assert q in owner && IsUser(owner, q);
    }
  }

  lemma SomeFreedNext(mem0: Mem, owner0: map<nat, Use>, mem: Mem, owner: map<nat, Use>, d: nat, e: seq<Entry>, i: nat)
    requires |e| == NPT && i < NPT && Detached(mem, owner, d, e, i) && SomeFreed(mem0, owner0, mem, owner, e, i)
    ensures mem[d] == Table(e)
    ensures !e[i].Present? ==>
            Detached(mem, owner, d, e, i + 1) == true && SomeFreed(mem0, owner0, mem, owner, e, i + 1) == true
    ensures e[i].Present? ==> e[i].pa < |mem| && e[i].pa !in owner
    ensures e[i].Present? ==> Detached(mem[e[i].pa := JunkPage()], owner[e[i].pa := Free], d, e, i + 1) == true
    ensures e[i].Present? ==>
            SomeFreed(mem0, owner0, mem[e[i].pa := JunkPage()], owner[e[i].pa := Free], e, i + 1) == true
  {
    forall p ensures TableBelow(e, i + 1, p) <==> TableBelow(e, i, p) || (e[i].Present? && e[i].pa == p) {}
  }

  lemma TablesFreedLast(mem0: Mem, owner0: map<nat, Use>, mem: Mem, owner: map<nat, Use>, d: nat, e: seq<Entry>)
    requires |e| == NPT && Detached(mem, owner, d, e, NPT) && SomeFreed(mem0, owner0, mem, owner, e, NPT)
    ensures TablesFreed(mem0, owner0, mem[d := JunkPage()], owner[d := Free], d, e) == true
  {}

  // The tables of d, and d, are free.
  ghost predicate TablesGone(mem: Mem, owner: map<nat, Use>, mem': Mem, owner': map<nat, Use>, d: nat) {
    && IsTable(mem, d) && d in owner && owner[d] == Dir && TablesOf(owner, d, mem[d].e)
    && TablesFreed(mem, OwnerWithout(owner, d), mem', owner', d, mem[d].e)
  }

  lemma UnmappedWhole(mem0: Mem, owner0: map<nat, Use>, mem: Mem, owner: map<nat, Use>, dirs: set<nat>, d: nat)
    requires Unmapped(mem0, owner0, mem, owner, dirs, d, PageUp(0), PageUp(KERNBASE)) == true
    ensures Unmapped(mem0, owner0, mem, owner, dirs, d, 0, USERPAGES) == true
    ensures IsTable(mem, d) && forall v :: 0 <= v < USERPAGES ==> Pte(mem, d, v) == Absent
  {
    assert PageUp(0) == 0 && PageUp(KERNBASE) == USERPAGES;
    forall v | 0 <= v < USERPAGES ensures Pte(mem, d, v) == Absent { assert !Skipped(mem0, d, 0, v); }
  }

  // Page p belongs to the address space of d.
  predicate Belongs(u: Use, p: nat, d: nat) {
    match u
    case Free => false
    case Dir => p == d
    case TableOf(c, _) => c == d
    case UserPage(c, _) => c == d
  }

  function OwnerWithout(owner: map<nat, Use>, d: nat): map<nat, Use> {
    map p | p in owner && !Belongs(owner[p], p, d) :: owner[p]
  }

  // The pages of the address space are free, and nothing else has changed.
  predicate SpaceFreed(mem: Mem, owner: map<nat, Use>, mem': Mem, owner': map<nat, Use>, d: nat) {
    && |mem'| == |mem| && owner'.Keys == owner.Keys
    && (forall p :: p in owner ==> owner'[p] == if Belongs(owner[p], p, d) then Free else owner[p])
    && (forall p :: p in owner && owner[p].UserPage? && !Belongs(owner[p], p, d) && p < |mem| ==> mem'[p] == mem[p])
  }

  // The directory d, with entries e, and its tables from entry i on are in hand.
  predicate Detached(mem: Mem, owner: map<nat, Use>, d: nat, e: seq<Entry>, i: nat)
    requires |e| == NPT
  {
    && d < |mem| && mem[d] == Table(e) && d !in owner
    && (forall j :: i <= j < NPT && e[j].Present? ==> e[j].pa < |mem| && e[j].pa !in owner && e[j].pa != d)
    && (forall j, k :: 0 <= j < k < NPT && e[j].Present? && e[k].Present? ==> e[j].pa != e[k].pa)
  }

  predicate TableBelow(e: seq<Entry>, i: nat, p: nat)
    requires i <= |e|
  { exists j :: 0 <= j < i && e[j].Present? && e[j].pa == p }

  // The tables of the entries below i have been freed.
  ghost predicate SomeFreed(mem: Mem, owner: map<nat, Use>, mem': Mem, owner': map<nat, Use>, e: seq<Entry>, i: nat)
    requires i <= |e|
  {
    && |mem'| == |mem|
    && (forall p :: p in owner ==> p in owner' && owner'[p] == owner[p] && (p < |mem| ==> mem'[p] == mem[p]))
    && (forall p :: p in owner' <==> p in owner || TableBelow(e, i, p))
    && (forall p :: p in owner' && p !in owner ==> owner'[p] == Free)
  }

  ghost predicate TablesFreed(mem: Mem, owner: map<nat, Use>, mem': Mem, owner': map<nat, Use>, d: nat, e: seq<Entry>)
    requires |e| == NPT
  {
    && |mem'| == |mem|
    && (forall p :: p in owner ==> p in owner' && owner'[p] == owner[p] && (p < |mem| ==> mem'[p] == mem[p]))
    && (forall p :: p in owner' <==> p in owner || p == d || TableBelow(e, NPT, p))
    && (forall p :: p in owner' && p !in owner ==> owner'[p] == Free)
  }

  // e are the entries of d: its tables, and no other pages.
  ghost predicate TablesOf(owner: map<nat, Use>, d: nat, e: seq<Entry>)
    requires |e| == NPT
  {
    && (forall p :: p in owner && owner[p].TableOf? && owner[p].d == d ==> TableBelow(e, NPT, p))
    && (forall j :: 0 <= j < NPT && e[j].Present? ==> e[j].pa in owner && owner[e[j].pa] == TableOf(d, j))
  }

  lemma OwnTables(mem: Mem, free: seq<nat>, dirs: set<nat>, owner: map<nat, Use>, d: nat)
    requires Owned(mem, free, dirs, owner) && d in dirs
    ensures IsTable(mem, d) && d in owner && owner[d] == Dir && TablesOf(owner, d, mem[d].e) == true
    ensures forall j :: 0 <= j < NPT && mem[d].e[j].Present? ==> mem[d].e[j].pa < |mem|
  {
    assert SpaceOk(mem, owner, d);
    var e := mem[d].e;
    forall j | 0 <= j < NPT && e[j].Present?
      ensures e[j].pa < |mem| && e[j].pa in owner && owner[e[j].pa] == TableOf(d, j) {
      assert EntryOk(mem, owner, d, j) && Pde(mem, d, j) == e[j];
    }
    forall p | p in owner && owner[p].TableOf? && owner[p].d == d ensures TableBelow(e, NPT, p) {
      assert Pde(mem, d, owner[p].i) == e[owner[p].i];
    }
  }

  // Without user pages, an address space can be taken out as a whole.
  lemma Detach(mem: Mem, free: seq<nat>, dirs: set<nat>, owner: map<nat, Use>, d: nat)
    requires Owned(mem, free, dirs, owner) && d in dirs && IsTable(mem, d) && forall v :: 0 <= v < USERPAGES ==>
             Pte(mem, d, v) == Absent
    ensures Owned(mem, free, dirs - {d}, OwnerWithout(owner, d)) == true
    ensures Detached(mem, OwnerWithout(owner, d), d, mem[d].e, 0) == true
  {
    var owner', dirs' := OwnerWithout(owner, d), dirs - {d};
    assert SpaceOk(mem, owner, d);
    forall c | c in dirs' ensures SpaceOk(mem, owner', c) {
      assert SpaceOk(mem, owner, c);
      forall i | 0 <= i < NPT ensures EntryOk(mem, owner', c, i) { assert EntryOk(mem, owner, c, i); }
      forall v | 0 <= v < USERPAGES ensures UserOk(mem, owner', c, v) { assert UserOk(mem, owner, c, v); }
    }
    OwnTables(mem, free, dirs, owner, d);
  }

  lemma FreedWhole(mem0: Mem, free0: seq<nat>, owner0: map<nat, Use>, dirs: set<nat>, mem1: Mem, owner1: map<nat, Use>,
      mem: Mem, owner: map<nat, Use>, d: nat)
    requires Owned(mem0, free0, dirs, owner0) == true
    requires Unmapped(mem0, owner0, mem1, owner1, dirs, d, 0, USERPAGES) == true
    requires TablesGone(mem1, owner1, mem, owner, d) == true
    ensures SpaceFreed(mem0, owner0, mem, owner, d) == true
  {
    var e := mem1[d].e;
    forall p | p in owner0 ensures p in owner && owner[p] == (if Belongs(owner0[p], p, d) then Free else owner0[p]) {
      assert owner1[p] == if Gone(mem0, owner0[p], d, 0, USERPAGES) then Free else owner0[p];
      if p in OwnerWithout(owner1, d) { assert owner[p] == owner1[p]; }
    }
    forall p | p in owner ensures p in owner0 {
      if p !in OwnerWithout(owner1, d) && p != d {
        var j :| 0 <= j < NPT && e[j].Present? && e[j].pa == p;
      }
    }
    assert owner.Keys == owner0.Keys;
  }

  // The other address spaces map what they did.
  lemma FreedMaps(mem0: Mem, owner0: map<nat, Use>, dirs: set<nat>, mem1: Mem, free1: seq<nat>, owner1: map<nat, Use>,
      mem: Mem, owner: map<nat, Use>, d: nat)
    requires Owned(mem1, free1, dirs, owner1) == true
    requires Unmapped(mem0, owner0, mem1, owner1, dirs, d, 0, USERPAGES) == true
    requires TablesGone(mem1, owner1, mem, owner, d) == true
    ensures SameMaps(mem0, mem, dirs - {d}, d, 0, 0) == true
  {
    forall c | c in dirs - {d} ensures SameMap(mem0, mem, c, d, 0, 0) {
      assert SameMap(mem0, mem1, c, d, 0, USERPAGES);
      assert SpaceOk(mem1, owner1, c);
      OthersKept(mem1, owner1, mem, owner, d, c);
    }
  }

  lemma OthersKept(mem: Mem, owner: map<nat, Use>, mem': Mem, owner': map<nat, Use>, d: nat, c: nat)
    requires SpaceOk(mem, owner, c) && c != d && TablesGone(mem, owner, mem', owner', d)
    ensures IsTable(mem', c) && forall v :: 0 <= v < USERPAGES ==> Pte(mem', c, v) == Pte(mem, c, v)
  {
    assert c in OwnerWithout(owner, d);
    forall v | 0 <= v < USERPAGES ensures Pte(mem', c, v) == Pte(mem, c, v) {
      assert EntryOk(mem, owner, c, v / NPT);
      if Pde(mem, c, v / NPT).Present? { assert Pde(mem, c, v / NPT).pa in OwnerWithout(owner, d); }
    }
  }

  lemma PageUpAbove(v: nat, size: nat)
    requires v * PGSIZE < size
    ensures v < PageUp(size)
  {}

  lemma PageUpAt(v: nat, size: nat)
    requires v <= PageUp(size) && v * PGSIZE >= size
    ensures v == PageUp(size)
  {}

  // A space of o pages that has grown to m pages,
  lemma GrownShape(mem0: Mem, owner0: map<nat, Use>, mem: Mem, owner: map<nat, Use>, dirs: set<nat>, d: nat, o: nat,
      m: nat)
    requires Mapped(mem0, d, o) && d in dirs && Grown(mem0, owner0, mem, owner, dirs, d, o, m)
    ensures Mapped(mem, d, m)
  {
    assert SameMap(mem0, mem, d, d, o, m);
    forall v | 0 <= v < USERPAGES ensures Pte(mem, d, v).Present? <==> v < m {
      if o <= v < m { assert FreshPage(mem, owner0, d, v); }
    }
  }

  // and one that has shrunk, are contiguous again.
  lemma ShrunkShape(mem0: Mem, free0: seq<nat>, owner0: map<nat, Use>, mem: Mem, owner: map<nat, Use>, dirs: set<nat>,
      d: nat, lo: nat, hi: nat, n: nat)
    requires Owned(mem0, free0, dirs, owner0) && Mapped(mem0, d, n) && d in dirs && n <= hi &&
             Unmapped(mem0, owner0, mem, owner, dirs, d, lo, hi)
    ensures Mapped(mem, d, if n < lo then n else lo)
  {
    assert SameMap(mem0, mem, d, d, lo, hi);
    forall v | lo <= v < n ensures !Skipped(mem0, d, lo, v) {
      assert Pte(mem0, d, lo).Present?;
      LacksIs(mem0, d, lo);
    }
  }

  // Without contiguity: nothing above.
  lemma GrownUnder(mem0: Mem, owner0: map<nat, Use>, mem: Mem, owner: map<nat, Use>, dirs: set<nat>, d: nat, o: nat,
      m: nat)
    requires Under(mem0, d, o) && d in dirs && Grown(mem0, owner0, mem, owner, dirs, d, o, m)
    ensures Under(mem, d, m)
  {
    assert SameMap(mem0, mem, d, d, o, m);
  }

  // Every address space maps what it did, and user pages hold what they did.
  predicate AsBefore(mem0: Mem, owner0: map<nat, Use>, mem: Mem, dirs: set<nat>, d: nat) {
    SameMaps(mem0, mem, dirs, d, 0, 0) && SameData(mem0, mem, owner0)
  }

  // A page that was mapped from o on has a table at o, so that nothing is jumped over.
  lemma FreshNotSkipped(mem0: Mem, owner0: map<nat, Use>, mem: Mem, owner: map<nat, Use>, dirs: set<nat>, d: nat,
      o: nat, m: nat, w: nat)
    requires Grown(mem0, owner0, mem, owner, dirs, d, o, m) && o <= w < m
    ensures !Skipped(mem, d, o, w)
  {
    assert FreshPage(mem, owner0, d, o);
    LacksIs(mem, d, o);
  }

  // Growing given up: everything is as it was.
  lemma GivenUp(mem0: Mem, free0: seq<nat>, owner0: map<nat, Use>, mem1: Mem, owner1: map<nat, Use>, mem: Mem,
      owner: map<nat, Use>, dirs: set<nat>, d: nat, o: nat, m: nat, n: nat)
    requires Owned(mem0, free0, dirs, owner0) && d in dirs && Under(mem0, d, o) && o <= m <= n
    requires Grown(mem0, owner0, mem1, owner1, dirs, d, o, m) && Unmapped(mem1, owner1, mem, owner, dirs, d, o, n)
    ensures AsBefore(mem0, owner0, mem, dirs, d) == true && owner.Keys == owner1.Keys
  {
    GrownUnder(mem0, owner0, mem1, owner1, dirs, d, o, m);
    forall w | o <= w < n && w < USERPAGES ensures Pte(mem, d, w) == Absent {
      if w < m { FreshNotSkipped(mem0, owner0, mem1, owner1, dirs, d, o, m, w); }
    }
    forall c | c in dirs ensures SameMap(mem0, mem, c, d, 0, 0) {
      assert SameMap(mem0, mem1, c, d, o, m) && SameMap(mem1, mem, c, d, o, n);
    }
    forall p | p in owner0 && owner0[p].UserPage? && p < |mem0| ensures mem[p] == mem0[p] {
      assert IsUser(owner0, p);
      assert owner1[p] == owner0[p] && !Gone(mem1, owner0[p], d, o, n);
    }
  }

  // Growing from page o on, d has got fresh zeroed pages up to m; what was there is as it was.
  predicate Grown(mem: Mem, owner: map<nat, Use>, mem': Mem, owner': map<nat, Use>, dirs: set<nat>, d: nat, o: nat,
      m: nat) {
    && o <= m <= USERPAGES && |mem'| == |mem| && IsTable(mem, d) && IsTable(mem', d) &&
       SameMaps(mem, mem', dirs, d, o, m)
    && (forall w :: o <= w < m ==> FreshPage(mem', owner, d, w))
    && SameData(mem, mem', owner)
    && (forall p :: p in owner && IsUser(owner, p) ==> p in owner' && owner'[p] == owner[p])
    && (forall w :: m <= w < USERPAGES ==> HasTable(mem', d, w) == Tabled(mem, d, o, m, w))
    && (forall w :: 0 <= w < o && w / NPT < o / NPT ==> HasTable(mem', d, w) == HasTable(mem, d, w))
  }

  // Virtual page w of d is a zeroed, writable page that was nobody's user page.
  predicate FreshPage(mem: Mem, owner0: map<nat, Use>, d: nat, w: nat)
    requires IsTable(mem, d) && w < USERPAGES
  {
    var e := Pte(mem, d, w);
    e.Present? && e.flags == PTE_WU && e.pa < |mem| && mem[e.pa] == ZeroPage() && !IsUser(owner0, e.pa)
  }

  // There is a table for page w, once pages o to m have been mapped.
  predicate Tabled(mem: Mem, d: nat, o: nat, m: nat, w: nat)
    requires IsTable(mem, d) && w < USERPAGES
  { HasTable(mem, d, w) || (o < m && w / NPT == (m - 1) / NPT) }

  // ---- what memory it takes ----

  // Mapping pages from o on needs a table for page w first.
  predicate Needs(mem: Mem, d: nat, o: nat, w: nat)
    requires IsTable(mem, d) && w < USERPAGES
  { !HasTable(mem, d, w) && (w == o || w % NPT == 0) }

  // What mapping pages o to n takes: the pages, and the tables that are missing.
  function Cost(mem: Mem, d: nat, o: nat, n: nat): nat
    requires IsTable(mem, d) && n <= USERPAGES
  {
    if n <= o then 0 else Cost(mem, d, o, n - 1) + if Needs(mem, d, o, n - 1) then 2 else 1
  }

  // With f pages free, memory runs out between some page and the table for it.
  predicate Strands(mem: Mem, d: nat, o: nat, n: nat, f: nat)
    requires IsTable(mem, d) && n <= USERPAGES
  { exists w :: o <= w < n && Needs(mem, d, o, w) && f == Cost(mem, d, o, w) + 1 }

  // With f pages free, allocuvm gets a page for each of o to n; for the last it may lack the table.
  predicate Suffices(mem: Mem, d: nat, o: nat, n: nat, f: nat)
    requires IsTable(mem, d) && n <= USERPAGES
  {
    Cost(mem, d, o, n) <= f || (o < n && Needs(mem, d, o, n - 1) && Cost(mem, d, o, n) == f + 1)
  }

  lemma NeedsIs(mem: Mem, d: nat, o: nat, v: nat)
    requires IsTable(mem, d) && o <= v < USERPAGES
    ensures Needs(mem, d, o, v) <==> !Tabled(mem, d, o, v, v)
  {}

  lemma {:induction false} CostGrows(mem: Mem, d: nat, o: nat, w: nat, n: nat)
    requires IsTable(mem, d) && o <= w < n <= USERPAGES
    ensures Cost(mem, d, o, w) + (if Needs(mem, d, o, w) then 2 else 1) + (n - w - 1) <= Cost(mem, d, o, n)
  {
    if w + 1 < n { CostGrows(mem, d, o, w, n - 1); }
  }

  lemma NoStrand(mem: Mem, d: nat, o: nat, n: nat, f: nat)
    requires IsTable(mem, d) && n <= USERPAGES && Cost(mem, d, o, n) <= f
    ensures !Strands(mem, d, o, n, f)
  {
    forall w | o <= w < n && Needs(mem, d, o, w) ensures f != Cost(mem, d, o, w) + 1 { CostGrows(mem, d, o, w, n); }
  }

  // Memory is out when the turn of page v comes.
  lemma OutAt(mem: Mem, d: nat, o: nat, v: nat, n: nat, f: nat)
    requires IsTable(mem, d) && o <= v < n <= USERPAGES && f == Cost(mem, d, o, v)
    ensures Cost(mem, d, o, n) > f && !Strands(mem, d, o, n, f) && !Suffices(mem, d, o, n, f)
  {
    CostGrows(mem, d, o, v, n);
    forall w | o <= w < n && Needs(mem, d, o, w) ensures f != Cost(mem, d, o, w) + 1 {
      if w < v { CostGrows(mem, d, o, w, v); } else if v < w { CostGrows(mem, d, o, v, w); }
    }
    if v < n - 1 { CostGrows(mem, d, o, v, n - 1); }
  }

  // There is a page for v and no table.
  lemma StrandAt(mem: Mem, d: nat, o: nat, v: nat, n: nat, f: nat)
    requires IsTable(mem, d) && o <= v < n <= USERPAGES && Needs(mem, d, o, v) && f == 1 + Cost(mem, d, o, v)
    ensures Cost(mem, d, o, n) > f && Strands(mem, d, o, n, f) && (Suffices(mem, d, o, n, f) <==> v == n - 1)
  {
    CostGrows(mem, d, o, v, n);
  }

  // allocuvm finds the free list empty at v: before it, everything was mapped, or the last page lost.
  lemma RanOut(mem: Mem, d: nat, o: nat, v: nat, n: nat, f: nat, stranded: bool)
    requires IsTable(mem, d) && o <= v < n <= USERPAGES
    requires if stranded then o < v && Needs(mem, d, o, v - 1) && f == 1 + Cost(mem, d, o, v - 1)
             else f == Cost(mem, d, o, v)
    ensures !Suffices(mem, d, o, n, f) && (Strands(mem, d, o, n, f) <==> stranded)
  {
    if stranded { StrandAt(mem, d, o, v - 1, n, f); } else { OutAt(mem, d, o, v, n, f); }
  }

  // allocuvm gets to the end.
  lemma GotThrough(mem: Mem, d: nat, o: nat, n: nat, f: nat, stranded: bool)
    requires IsTable(mem, d) && o <= n <= USERPAGES
    requires if stranded then o < n && Needs(mem, d, o, n - 1) && f == 1 + Cost(mem, d, o, n - 1)
             else Cost(mem, d, o, n) <= f
    ensures Suffices(mem, d, o, n, f) && (Strands(mem, d, o, n, f) <==> stranded)
  {
    if stranded { StrandAt(mem, d, o, n - 1, n, f); } else { NoStrand(mem, d, o, n, f); }
  }

  // The directory entries for pages o to n that have no table.
  function Untabled(mem: Mem, d: nat, o: nat, n: nat): set<nat>
    requires IsTable(mem, d) && n <= USERPAGES
  { set i | o / NPT <= i < (n + NPT - 1) / NPT && i < USERPAGES / NPT && o < n && LacksTable(mem, d, i) }

  lemma UntabledNext(mem: Mem, d: nat, o: nat, n: nat)
    requires IsTable(mem, d) && o < n <= USERPAGES
    ensures Needs(mem, d, o, n - 1) ==> (n - 1) / NPT !in Untabled(mem, d, o, n - 1)
    ensures Untabled(mem, d, o, n) ==
            Untabled(mem, d, o, n - 1) + if Needs(mem, d, o, n - 1) then {(n - 1) / NPT} else {}
  {
    LacksIs(mem, d, n - 1);
    var i := (n - 1) / NPT;
    assert (n + NPT - 1) / NPT == i + 1;
    if n - 1 == o || (n - 1) % NPT == 0 {
      assert Untabled(mem, d, o, n) == Untabled(mem, d, o, n - 1) + if LacksTable(mem, d, i) then {i} else {};
    } else {
      assert (n - 1 + NPT - 1) / NPT == i + 1;
      assert Untabled(mem, d, o, n) == Untabled(mem, d, o, n - 1);
    }
  }

  // So it takes the pages, and a table for every directory entry that has none.
  lemma {:induction false} CostIs(mem: Mem, d: nat, o: nat, n: nat)
    requires IsTable(mem, d) && o <= n <= USERPAGES
    ensures Cost(mem, d, o, n) == (n - o) + |Untabled(mem, d, o, n)|
  {
    if o == n {
      assert Untabled(mem, d, o, n) == {};
    } else {
      CostIs(mem, d, o, n - 1);
      UntabledNext(mem, d, o, n);
    }
  }

  // A space without tables takes one for every 1024 pages begun.
  lemma {:induction false} EmptyCost(mem: Mem, d: nat, n: nat)
    requires IsTable(mem, d) && n <= USERPAGES && forall v :: 0 <= v < USERPAGES ==> !HasTable(mem, d, v)
    ensures Cost(mem, d, 0, n) == n + (n + NPT - 1) / NPT
  {
    if n > 0 { EmptyCost(mem, d, n - 1); }
  }

  // The first page from v on that is not there, or n.
  function FirstGap(mem: Mem, d: nat, v: nat, n: nat): (g: nat)
    requires IsTable(mem, d) && v <= n <= USERPAGES
    ensures v <= g <= n
    decreases n - v
  {
    if v == n || Pte(mem, d, v) == Absent then v else FirstGap(mem, d, v + 1, n)
  }

  lemma {:induction false} GapFirst(mem: Mem, d: nat, v: nat, n: nat)
    requires IsTable(mem, d) && v <= n <= USERPAGES
    ensures var g := FirstGap(mem, d, v, n);
            (g < n ==> Pte(mem, d, g) == Absent) && forall w :: v <= w < g ==> Pte(mem, d, w).Present?
    decreases n - v
  {
    if v < n && Pte(mem, d, v) != Absent { GapFirst(mem, d, v + 1, n); }
  }

  // ---- growing and shrinking ----

  lemma GrownNone(mem: Mem, free: seq<nat>, dirs: set<nat>, owner: map<nat, Use>, d: nat, o: nat)
    requires Owned(mem, free, dirs, owner) && d in dirs && o <= USERPAGES
    ensures Grown(mem, owner, mem, owner, dirs, d, o, o) == true
  {
    forall c | c in dirs ensures SameMap(mem, mem, c, d, o, o) { assert SpaceOk(mem, owner, c); }
    assert SpaceOk(mem, owner, d);
  }

  lemma ZeroedViews(mem: Mem, free: seq<nat>, owner: map<nat, Use>, dirs: set<nat>, d: nat, p: nat)
    requires Owned(mem, free, dirs, owner) && d in dirs && p < |mem| && p in owner && owner[p] == Free
    ensures var mem' := mem[p := ZeroPage()];
            IsTable(mem, d) && IsTable(mem', d) && forall w :: 0 <= w < USERPAGES ==>
                HasTable(mem', d, w) == HasTable(mem, d, w) && Pte(mem', d, w) == Pte(mem, d, w)
  {
    assert SpaceOk(mem, owner, d);
    SameLookups(mem, mem[p := ZeroPage()], owner, d);
  }

  lemma GrownZeroed(mem0: Mem, owner0: map<nat, Use>, mem: Mem, free: seq<nat>, owner: map<nat, Use>, dirs: set<nat>,
      d: nat, o: nat, v: nat, p: nat)
    requires Owned(mem, free, dirs, owner) && d in dirs && Grown(mem0, owner0, mem, owner, dirs, d, o, v)
    requires p < |mem| && p in owner && owner[p] == Free
    ensures Grown(mem0, owner0, mem[p := ZeroPage()], owner - {p}, dirs, d, o, v) == true
  {
    var mem1 := mem[p := ZeroPage()];
    forall c | c in dirs ensures SameMap(mem0, mem1, c, d, o, v) {
      assert SpaceOk(mem, owner, c) && SameMap(mem0, mem, c, d, o, v);
      SameLookups(mem, mem1, owner, c);
    }
    ZeroedViews(mem, free, owner, dirs, d, p);
    forall w | o <= w < v ensures FreshPage(mem1, owner0, d, w) { assert FreshPage(mem, owner0, d, w); }
  }

  // One more page, p, zeroed and held, has been mapped.
  lemma GrownNext(mem0: Mem, owner0: map<nat, Use>, mem: Mem, free: seq<nat>, owner: map<nat, Use>, mem': Mem,
      owner': map<nat, Use>,
                  dirs: set<nat>, d: nat, o: nat, v: nat, p: nat)
    requires Owned(mem, free, dirs, owner) && d in dirs && v < USERPAGES &&
             Grown(mem0, owner0, mem, owner, dirs, d, o, v)
    requires p < |mem| && p !in owner && mem[p] == ZeroPage() &&
             PageMapped(mem, owner, mem', owner', dirs, d, v, p, PTE_WU)
    ensures Grown(mem0, owner0, mem', owner', dirs, d, o, v + 1) == true
  {
    forall c | c in dirs ensures SameMap(mem0, mem', c, d, o, v + 1) {
      assert SameMap(mem0, mem, c, d, o, v) && SameMap(mem, mem', c, d, v, v + 1);
    }
    assert SpaceOk(mem, owner, d) && SameMap(mem, mem', d, d, v, v + 1);
    forall w | o <= w < v + 1 ensures FreshPage(mem', owner0, d, w) {
      if w < v { assert FreshPage(mem, owner0, d, w) && UserOk(mem, owner, d, w); }
    }
    forall q | q in owner0 && IsUser(owner0, q)
      ensures q in owner' && owner'[q] == owner0[q] && (q < |mem| ==> mem'[q] == mem0[q]) {
      assert q in owner && IsUser(owner, q);
    }
  }

  // User memory of d is its first n virtual pages.
  predicate Mapped(mem: Mem, d: nat, n: nat) { IsTable(mem, d) && Shape(mem, d, n) }

  // d has no user page from n on.
  predicate Under(mem: Mem, d: nat, n: nat) {
    IsTable(mem, d) && n <= USERPAGES && forall v :: n <= v < USERPAGES ==> Pte(mem, d, v) == Absent
  }

  // d has neither pages nor tables.
  predicate Empty(mem: Mem, d: nat) {
    Mapped(mem, d, 0) && forall v :: 0 <= v < USERPAGES ==> !HasTable(mem, d, v)
  }

  // ---- where the walk of deallocuvm goes ----

  // Directory entry i has no table.
  predicate LacksTable(mem: Mem, d: nat, i: nat)
    requires IsTable(mem, d) && i < USERPAGES / NPT
  { !HasTable(mem, d, i * NPT) }

  lemma LacksIs(mem: Mem, d: nat, v: nat)
    requires IsTable(mem, d) && v < USERPAGES
    ensures LacksTable(mem, d, v / NPT) <==> !HasTable(mem, d, v)
  {
    assert v / NPT * NPT / NPT == v / NPT;
  }

  // There is no table for the pages from that of lo up to that of v.
  predicate NoTables(mem: Mem, d: nat, lo: nat, v: nat)
    requires IsTable(mem, d)
  { forall i :: lo / NPT <= i < v / NPT && i < USERPAGES / NPT ==> LacksTable(mem, d, i) }

  // The walk from lo on jumps over page w: it comes to the first table from lo on at the place in it
  // that lo has in its own.
  predicate Skipped(mem: Mem, d: nat, lo: nat, w: nat) {
    && IsTable(mem, d) && w < USERPAGES
    && lo / NPT < w / NPT && w % NPT < lo % NPT && NoTables(mem, d, lo, w)
  }

  // How the walk from lo can come to v.
  predicate WalkOk(mem: Mem, d: nat, lo: nat, v: nat) {
    && IsTable(mem, d)
    && if NoTables(mem, d, lo, v)
       then v % NPT == lo % NPT || (v < USERPAGES && HasTable(mem, d, v) && v % NPT >= lo % NPT)
       else v % NPT == 0 || (v < USERPAGES && HasTable(mem, d, v))
  }

  lemma WalkNext(mem: Mem, d: nat, lo: nat, v: nat)
    requires WalkOk(mem, d, lo, v) && lo <= v < USERPAGES && HasTable(mem, d, v)
    ensures WalkOk(mem, d, lo, v + 1) == true && !Skipped(mem, d, lo, v)
  {
    LacksIs(mem, d, v);
    if (v + 1) % NPT != 0 {
      assert (v + 1) / NPT == v / NPT;
      assert v + 1 < USERPAGES && HasTable(mem, d, v + 1);
    } else {
      assert lo / NPT <= v / NPT < (v + 1) / NPT && !LacksTable(mem, d, v / NPT);
    }
  }

  // Pages v to v' that are not jumped over are not there.
  predicate NoneUnmapped(mem: Mem, d: nat, lo: nat, v: nat, v': nat) {
    IsTable(mem, d) && forall w :: v <= w < v' && w < USERPAGES && !Skipped(mem, d, lo, w) ==> Pte(mem, d, w) == Absent
  }

  lemma WalkJump(mem: Mem, d: nat, lo: nat, v: nat)
    requires WalkOk(mem, d, lo, v) && lo <= v < USERPAGES && !HasTable(mem, d, v)
    ensures WalkOk(mem, d, lo, v + NPT) == true && NoneUnmapped(mem, d, lo, v, v + NPT) == true
  {
    assert (v + NPT) / NPT == v / NPT + 1 && (v + NPT) % NPT == v % NPT;
    LacksIs(mem, d, v);
    assert NoTables(mem, d, lo, v) ==> NoTables(mem, d, lo, v + NPT);
    forall w | v <= w < v + NPT && w < USERPAGES && !Skipped(mem, d, lo, w) ensures Pte(mem, d, w) == Absent {
      if w / NPT != v / NPT { NextTable(v, w); }
    }
  }

  lemma NextTable(v: nat, w: nat)
    requires v <= w < v + NPT && w / NPT != v / NPT
    ensures w / NPT == v / NPT + 1 && w % NPT < v % NPT
  {}

  // Virtual page v of d is unmapped and its page free; nothing else has changed.
  predicate PageUnmapped(mem: Mem, owner: map<nat, Use>, mem': Mem, owner': map<nat, Use>, dirs: set<nat>, d: nat,
      v: nat) {
    && v < USERPAGES && |mem'| == |mem| && IsTable(mem, d) && IsTable(mem', d) && SameMaps(mem, mem', dirs, d, v, v + 1)
    && Pte(mem, d, v).Present? && Pte(mem', d, v) == Absent
    && Pte(mem, d, v).pa in owner && owner[Pte(mem, d, v).pa] == UserPage(d, v) &&
       owner' == owner[Pte(mem, d, v).pa := Free]
    && (forall p :: p in owner && owner[p].UserPage? && p < |mem| && p != Pte(mem, d, v).pa ==> mem'[p] == mem[p])
    && (forall w :: 0 <= w < USERPAGES ==> HasTable(mem', d, w) == HasTable(mem, d, w))
  }

  lemma DropPage(mem: Mem, free: seq<nat>, dirs: set<nat>, owner: map<nat, Use>, d: nat, v: nat)
    requires Owned(mem, free, dirs, owner) && d in dirs && v < USERPAGES && IsTable(mem, d) && HasTable(mem, d, v) &&
             Pte(mem, d, v).Present?
    ensures Pte(mem, d, v).pa < |mem|
    ensures PageUnmapped(mem, owner, WithPte(mem, d, v, Absent)[Pte(mem, d, v).pa := JunkPage()],
                         (owner - {Pte(mem, d, v).pa})[Pte(mem, d, v).pa := Free], dirs, d, v) == true
  {
    var pa := Pte(mem, d, v).pa;
    ClearPte(mem, free, dirs, owner, d, v);
    var mem1, owner1 := WithPte(mem, d, v, Absent), owner - {pa};
    var mem2 := mem1[pa := JunkPage()];
    assert SpaceOk(mem, owner, d) && EntryOk(mem, owner, d, v / NPT);
    forall c | c in dirs ensures SameMap(mem, mem2, c, d, v, v + 1) {
      assert SpaceOk(mem, owner, c) && SpaceOk(mem1, owner1, c);
      PteLookups(mem, free, dirs, owner, d, v, Absent, c);
      SameLookups(mem1, mem2, owner1, c);
    }
    assert SpaceOk(mem1, owner1, d);
    PteLookups(mem, free, dirs, owner, d, v, Absent, d);
    SameLookups(mem1, mem2, owner1, d);
    assert owner1[pa := Free] == owner[pa := Free];
  }

  // A user page that the walk from lo to hi unmaps.
  predicate Gone(mem: Mem, u: Use, d: nat, lo: nat, hi: nat) {
    u.UserPage? && u.d == d && lo <= u.v < hi && !Skipped(mem, d, lo, u.v)
  }

  // Pages lo to hi of d are not mapped, except those jumped over; every other mapping is as it was.
  predicate MapsCleared(mem: Mem, mem': Mem, dirs: set<nat>, d: nat, lo: nat, hi: nat) {
    && |mem'| == |mem| && IsTable(mem, d) && IsTable(mem', d) && SameMaps(mem, mem', dirs, d, lo, hi)
    && (forall w :: lo <= w < hi && w < USERPAGES ==> Pte(mem', d, w) == if Skipped(mem, d, lo, w) then Pte(mem, d, w)
       else Absent)
    && (forall w :: 0 <= w < USERPAGES ==> HasTable(mem', d, w) == HasTable(mem, d, w))
  }

  // Their pages are free; every other page is used for what it was, and holds what it did.
  predicate PagesFreed(mem: Mem, owner: map<nat, Use>, mem': Mem, owner': map<nat, Use>, d: nat, lo: nat, hi: nat) {
    && |mem'| == |mem| && owner'.Keys == owner.Keys
    && (forall p :: p in owner ==> owner'[p] == if Gone(mem, owner[p], d, lo, hi) then Free else owner[p])
    && (forall p :: p in owner && owner[p].UserPage? && p < |mem| && !Gone(mem, owner[p], d, lo, hi) ==>
       mem'[p] == mem[p])
  }

  // Pages lo to hi of d are unmapped and free, each once, except those jumped over; nothing else has
  // changed.
  predicate Unmapped(mem: Mem, owner: map<nat, Use>, mem': Mem, owner': map<nat, Use>, dirs: set<nat>, d: nat, lo: nat,
      hi: nat) {
    MapsCleared(mem, mem', dirs, d, lo, hi) && PagesFreed(mem, owner, mem', owner', d, lo, hi)
  }

  lemma UnmappedNone(mem: Mem, free: seq<nat>, dirs: set<nat>, owner: map<nat, Use>, d: nat, v: nat)
    requires Owned(mem, free, dirs, owner) && d in dirs
    ensures Unmapped(mem, owner, mem, owner, dirs, d, v, v) == true
    ensures WalkOk(mem, d, v, v) == true
  {
    forall c | c in dirs ensures SameMap(mem, mem, c, d, v, v) { assert SpaceOk(mem, owner, c); }
    assert SpaceOk(mem, owner, d);
  }

  lemma UnmappedNext(mem0: Mem, owner0: map<nat, Use>, mem: Mem, free: seq<nat>, owner: map<nat, Use>, mem': Mem,
      owner': map<nat, Use>, dirs: set<nat>, d: nat, lo: nat, v: nat, v': nat)
    requires Owned(mem, free, dirs, owner) == true
    requires d in dirs && lo <= v && v' == v + 1 && !Skipped(mem0, d, lo, v)
    requires Unmapped(mem0, owner0, mem, owner, dirs, d, lo, v) == true
    requires PageUnmapped(mem, owner, mem', owner', dirs, d, v) == true
    ensures Unmapped(mem0, owner0, mem', owner', dirs, d, lo, v') == true
  {
    MapsClearedNext(mem0, mem, owner, mem', owner', dirs, d, lo, v);
    PagesFreedNext(mem0, owner0, mem, owner, mem', owner', dirs, d, lo, v);
  }

  lemma MapsClearedNext(mem0: Mem, mem: Mem, owner: map<nat, Use>, mem': Mem, owner': map<nat, Use>, dirs: set<nat>,
      d: nat, lo: nat, v: nat)
    requires d in dirs && lo <= v && !Skipped(mem0, d, lo, v)
    requires MapsCleared(mem0, mem, dirs, d, lo, v) && PageUnmapped(mem, owner, mem', owner', dirs, d, v)
    ensures MapsCleared(mem0, mem', dirs, d, lo, v + 1) == true
  {
    forall c | c in dirs ensures SameMap(mem0, mem', c, d, lo, v + 1) {
      assert SameMap(mem0, mem, c, d, lo, v) && SameMap(mem, mem', c, d, v, v + 1);
    }
    assert SameMap(mem, mem', d, d, v, v + 1);
  }

  lemma PagesFreedNext(mem0: Mem, owner0: map<nat, Use>, mem: Mem, owner: map<nat, Use>, mem': Mem,
      owner': map<nat, Use>, dirs: set<nat>, d: nat, lo: nat, v: nat)
    requires lo <= v && !Skipped(mem0, d, lo, v)
    requires PagesFreed(mem0, owner0, mem, owner, d, lo, v) && PageUnmapped(mem, owner, mem', owner', dirs, d, v)
    requires forall p :: p in owner && owner[p] == UserPage(d, v) ==> p == Pte(mem, d, v).pa
    ensures PagesFreed(mem0, owner0, mem', owner', d, lo, v + 1) == true
  {
    forall p | p in owner0
      ensures Gone(mem0, owner0[p], d, lo, v + 1) <==> Gone(mem0, owner0[p], d, lo, v) || owner0[p] == UserPage(d, v)
    {}
    forall p | p in owner0 ensures owner'[p] == if Gone(mem0, owner0[p], d, lo, v + 1) then Free else owner0[p] {
      if owner0[p] == UserPage(d, v) { assert owner[p] == owner0[p]; }
    }
  }

  // Pages hi to hi' are absent already, or jumped over.
  lemma UnmappedMore(mem0: Mem, owner0: map<nat, Use>, mem: Mem, free: seq<nat>, owner: map<nat, Use>, dirs: set<nat>,
      d: nat, lo: nat, hi: nat, hi': nat)
    requires Unmapped(mem0, owner0, mem, owner, dirs, d, lo, hi) == true
    requires Owned(mem, free, dirs, owner) == true
    requires lo <= hi <= hi' && d in dirs && NoneUnmapped(mem0, d, lo, hi, hi')
    ensures Unmapped(mem0, owner0, mem, owner, dirs, d, lo, hi') == true
  {
    assert SameMap(mem0, mem, d, d, lo, hi);
    forall c | c in dirs ensures SameMap(mem0, mem, c, d, lo, hi') { assert SameMap(mem0, mem, c, d, lo, hi); }
    forall p | p in owner0 ensures Gone(mem0, owner0[p], d, lo, hi') == Gone(mem0, owner0[p], d, lo, hi) {
      assert owner0[p].UserPage? && owner0[p].d == d && owner0[p].v >= hi ==> owner[p] == owner0[p];
    }
  }

  // No table at v: the walk goes on at v' and unmaps nothing.
  lemma DeallocJump(mem0: Mem, owner0: map<nat, Use>, mem: Mem, free: seq<nat>, owner: map<nat, Use>, dirs: set<nat>,
      d: nat, lo: nat, v: nat, v': nat)
    requires Unmapped(mem0, owner0, mem, owner, dirs, d, lo, v) == true
    requires Owned(mem, free, dirs, owner) == true
    requires lo <= v < USERPAGES && d in dirs && WalkOk(mem0, d, lo, v) && IsTable(mem, d) && !HasTable(mem, d, v) &&
             v' == v + NPT
    ensures Unmapped(mem0, owner0, mem, owner, dirs, d, lo, v') == true
    ensures WalkOk(mem0, d, lo, v') == true && NoneUnmapped(mem0, d, lo, v, v') == true
  {
    WalkJump(mem0, d, lo, v);
    UnmappedMore(mem0, owner0, mem, free, owner, dirs, d, lo, v, v');
  }

  lemma DeallocHere(mem0: Mem, owner0: map<nat, Use>, mem: Mem, owner: map<nat, Use>, dirs: set<nat>, d: nat, lo: nat,
      v: nat, v': nat)
    requires Unmapped(mem0, owner0, mem, owner, dirs, d, lo, v) && WalkOk(mem0, d, lo, v)
    requires lo <= v < USERPAGES && IsTable(mem, d) && HasTable(mem, d, v) && v' == v + 1
    ensures WalkOk(mem0, d, lo, v') == true && !Skipped(mem0, d, lo, v)
  {
    WalkNext(mem0, d, lo, v);
  }

  lemma UnmappedAbsent(mem0: Mem, owner0: map<nat, Use>, mem: Mem, free: seq<nat>, owner: map<nat, Use>,
      dirs: set<nat>, d: nat, lo: nat, v: nat, v': nat)
    requires Unmapped(mem0, owner0, mem, owner, dirs, d, lo, v) == true
    requires Owned(mem, free, dirs, owner) == true
    requires lo <= v < USERPAGES && v' == v + 1 && d in dirs && IsTable(mem, d) && Pte(mem, d, v) == Absent
    ensures Unmapped(mem0, owner0, mem, owner, dirs, d, lo, v') == true
  {
    assert SameMap(mem0, mem, d, d, lo, v);
    UnmappedMore(mem0, owner0, mem, free, owner, dirs, d, lo, v, v');
  }

  // A walk that overshot has unmapped what it should have.
  lemma UnmappedUpTo(mem0: Mem, free0: seq<nat>, owner0: map<nat, Use>, mem: Mem, owner: map<nat, Use>, dirs: set<nat>,
      d: nat, lo: nat, w: nat, v: nat, hi: nat)
    requires Owned(mem0, free0, dirs, owner0) && d in dirs && Unmapped(mem0, owner0, mem, owner, dirs, d, lo, v)
    requires lo <= w <= v && lo <= hi <= v && (v == hi || (w <= hi && NoneUnmapped(mem0, d, lo, w, v)))
    ensures Unmapped(mem0, owner0, mem, owner, dirs, d, lo, hi) == true
  {
    if v != hi {
      forall c | c in dirs ensures SameMap(mem0, mem, c, d, lo, hi) { assert SameMap(mem0, mem, c, d, lo, v); }
      forall p | p in owner0 ensures Gone(mem0, owner0[p], d, lo, v) == Gone(mem0, owner0[p], d, lo, hi) {
        assert owner0[p].UserPage? && owner0[p].d == d ==> Pte(mem0, d, owner0[p].v).Present?;
      }
    }
  }

  // Virtual page v of d is page p, which was held, and nothing else has changed.
  predicate PageMapped(mem: Mem, owner: map<nat, Use>, mem': Mem, owner': map<nat, Use>, dirs: set<nat>, d: nat,
      v: nat, p: nat, flags: nat) {
    && v < USERPAGES && p < |mem| && SameMaps(mem, mem', dirs, d, v, v + 1) && IsTable(mem, d) && IsTable(mem', d)
    && Pte(mem', d, v) == Present(p, flags) && SameData(mem, mem', owner) && mem'[p] == mem[p]
    && owner'.Keys == owner.Keys + {p} && p in owner' && owner'[p] == UserPage(d, v) && SameUsers(owner, owner' - {p})
    && (forall w :: 0 <= w < USERPAGES ==> HasTable(mem', d, w) == (HasTable(mem, d, w) || w / NPT == v / NPT))
  }

  // From before the walk (mem0) to after the entry is written.
  lemma PutPage(mem0: Mem, owner0: map<nat, Use>, mem: Mem, free: seq<nat>, dirs: set<nat>, owner: map<nat, Use>,
      d: nat, v: nat, p: nat, flags: nat)
    requires Owned(mem, free, dirs, owner) && d in dirs && IsTable(mem, d) && v < USERPAGES && HasTable(mem, d, v) &&
             p < |mem| && p !in owner
    requires IsTable(mem0, d) && if HasTable(mem0, d, v) then mem == mem0 && owner == owner0
             else TableAdded(mem0, owner0, mem, owner, dirs, d, v / NPT) && mem[p] == mem0[p]
    requires |mem| == |mem0|
    ensures PageMapped(mem0, owner0, WithPte(mem, d, v, Present(p, flags)), owner[p := UserPage(d, v)], dirs, d, v, p,
            flags) == true
  {
    var x := Present(p, flags);
    var mem', owner' := WithPte(mem, d, v, x), owner[p := UserPage(d, v)];
    assert SpaceOk(mem, owner, d) && EntryOk(mem, owner, d, v / NPT);
    forall c | c in dirs ensures SameMap(mem0, mem', c, d, v, v + 1) {
      assert SpaceOk(mem, owner, c);
      PteLookups(mem, free, dirs, owner, d, v, x, c);
      if !HasTable(mem0, d, v) { assert SameMap(mem0, mem, c, d, 0, 0); }
    }
    PteLookups(mem, free, dirs, owner, d, v, x, d);
    assert owner' - {p} == owner;
    assert owner'.Keys == owner.Keys + {p};
  }
}
