/** The user heap allocator of umalloc.c: a circular free list in address order, with coalescing.
    Addresses count units of one header (8 bytes). */
module HeapSpec {
  const HEADER := 8
  const TWO32 := 0x1_0000_0000
  const NULL := 0
  const MINCORE := 4096

  // malloc's request in units, in 32-bit unsigned arithmetic.
  function Units(nbytes: nat): nat { (nbytes + HEADER - 1) % TWO32 / HEADER + 1 }

  // What sbrk() is asked for: an int, so 32 bits with a sign.
  function SbrkBytes(units: nat): int {
    var w := units * HEADER % TWO32;
    if w < TWO32 / 2 then w else w - TWO32
  }

  // The block malloc looks for holds the request exactly when the rounding does not wrap.
  lemma UnitsEnoughIff(nbytes: nat)
    requires nbytes < TWO32
    ensures (Units(nbytes) - 1) * HEADER >= nbytes <==> nbytes + HEADER - 1 < TWO32
  {}

  // sbrk() is asked for that much memory exactly below 2^28 units.
  lemma SbrkExactIff(units: nat)
    requires units <= TWO32 / HEADER
    ensures SbrkBytes(units) == units * HEADER <==> units < TWO32 / 2 / HEADER
  {}

  // From there on it is asked for something else: 2^28 units are 2^31 bytes, which as an int is negative,
  // and 2^29 are none at all.
  lemma SbrkWraps()
    ensures SbrkBytes(TWO32 / 2 / HEADER) == -(TWO32 / 2) && SbrkBytes(TWO32 / HEADER) == 0
  {}

  // ---- the free list ----

  // Strictly in address order, starting with the empty block base.
  predicate Ordered(ring: seq<int>) { forall i, j :: 0 <= i < j < |ring| ==> ring[i] < ring[j] }

  // The node after the i-th.
  function Succ(ring: seq<int>, i: nat): int
    requires i < |ring|
  { if i + 1 < |ring| then ring[i + 1] else ring[0] }

  predicate LinkAt(next: map<int, int>, ring: seq<int>, i: nat)
    requires i < |ring|
  { ring[i] in next && next[ring[i]] == Succ(ring, i) }

  predicate Linked(next: map<int, int>, ring: seq<int>) { forall i :: 0 <= i < |ring| ==> LinkAt(next, ring, i) }

  // ---- blocks and the memory they tile ----

  // Unit u belongs to block s.
  predicate In(blocks: map<int, nat>, s: int, u: int) { s in blocks && s <= u < s + blocks[s] }

  // own tells for each unit obtained from sbrk() the block it is in: blocks do not overlap and leave
  // nothing out.
  ghost predicate Tiles(blocks: map<int, nat>, own: map<int, int>) {
    && (forall u :: u in own ==> In(blocks, own[u], u))
    && (forall s :: s in blocks ==> blocks[s] >= 1)
    && (forall s, u :: In(blocks, s, u) ==> u in own && own[u] == s)
  }

  lemma Disjoint(blocks: map<int, nat>, own: map<int, int>, a: int, b: int)
    requires Tiles(blocks, own) && a in blocks && b in blocks && a < b
    ensures a + blocks[a] <= b
  {
    assert In(blocks, b, b);
    assert !In(blocks, a, b);
  }

  // Cut block p in two: n units are left, the rest is a block of its own.
  function CutBlocks(blocks: map<int, nat>, p: int, n: nat): map<int, nat>
    requires p in blocks && 1 <= n < blocks[p]
  { blocks[p := n][p + n := blocks[p] - n] }

  function CutOwn(own: map<int, int>, p: int, n: nat): map<int, int> {
    map u | u in own :: if own[u] == p && u >= p + n then p + n else own[u]
  }

  lemma Cut(blocks: map<int, nat>, own: map<int, int>, p: int, n: nat)
    requires Tiles(blocks, own) && p in blocks && 1 <= n < blocks[p]
    ensures p + n !in blocks && CutOwn(own, p, n).Keys == own.Keys
    ensures Tiles(CutBlocks(blocks, p, n), CutOwn(own, p, n))
  {
    assert In(blocks, p, p + n);
    assert !In(blocks, p + n, p + n);
    var b', o' := CutBlocks(blocks, p, n), CutOwn(own, p, n);
    assert o'.Keys == own.Keys;
    forall u | u in o' ensures In(b', o'[u], u) { assert In(blocks, own[u], u); }
    forall s, u | In(b', s, u) ensures u in o' && o'[u] == s {
      assert In(blocks, if s == p + n then p else s, u);
    }
  }

  // Join block b to block a, which ends where b begins.
  function JoinBlocks(blocks: map<int, nat>, a: int, b: int): map<int, nat>
    requires a in blocks && b in blocks
  { blocks[a := blocks[a] + blocks[b]] - {b} }

  function JoinOwn(own: map<int, int>, a: int, b: int): map<int, int> {
    map u | u in own :: if own[u] == b then a else own[u]
  }

  lemma Join(blocks: map<int, nat>, own: map<int, int>, a: int, b: int)
    requires Tiles(blocks, own) && a in blocks && b in blocks && a + blocks[a] == b
    ensures Tiles(JoinBlocks(blocks, a, b), JoinOwn(own, a, b))
    ensures JoinOwn(own, a, b).Keys == own.Keys
  {
    var b', o' := JoinBlocks(blocks, a, b), JoinOwn(own, a, b);
    assert o'.Keys == own.Keys;
    forall u | u in o' ensures In(b', o'[u], u) { assert In(blocks, own[u], u); }
    forall s, u | In(b', s, u) ensures u in o' && o'[u] == s {
      assert In(blocks, if s == a && u >= b then b else s, u);
    }
  }

  // Fresh memory [a, a + n) as one block.
  function GrowOwn(own: map<int, int>, a: int, n: nat): (r: map<int, int>)
    ensures forall u :: u in r <==> u in own || a <= u < a + n
    ensures forall u :: u in r ==> r[u] == if a <= u < a + n then a else own[u]
    decreases n
  { if n == 0 then own else GrowOwn(own, a, n - 1)[a + n - 1 := a] }

  lemma Grow(blocks: map<int, nat>, own: map<int, int>, a: int, n: nat)
    requires Tiles(blocks, own) && n >= 1 && forall u :: u in own ==> u < a
    ensures a !in blocks && Tiles(blocks[a := n], GrowOwn(own, a, n))
  {
    assert In(blocks, a, a) ==> a in own;
    var b', o' := blocks[a := n], GrowOwn(own, a, n);
    forall u | u in o' ensures In(b', o'[u], u) {
      if u < a { assert In(blocks, own[u], u); }
    }
    forall s, u | In(b', s, u) ensures u in o' && o'[u] == s {
      if s != a { assert In(blocks, s, u); }
    }
  }

  // ---- surgery on the free list ----

  function Insert(ring: seq<int>, k: nat, b: int): seq<int>
    requires k < |ring|
  { ring[..k + 1] + [b] + ring[k + 1..] }

  function Drop(ring: seq<int>, k: nat): seq<int>
    requires k < |ring|
  { ring[..k] + ring[k + 1..] }

  // k is where block b belongs: after the k-th node.
  predicate Place(ring: seq<int>, k: nat, b: int) {
    k < |ring| && ring[k] < b && (k + 1 < |ring| ==> b < ring[k + 1])
  }

  lemma InsertOrdered(ring: seq<int>, k: nat, b: int)
    requires Ordered(ring) && Place(ring, k, b)
    ensures Ordered(Insert(ring, k, b))
  {
    var r := Insert(ring, k, b);
    forall i, j | 0 <= i < j < |r| ensures r[i] < r[j] {
      if i == k + 1 {
        assert k + 1 == j - 1 || ring[k + 1] < ring[j - 1];
      } else if j == k + 1 {
        assert i == k || ring[i] < ring[k];
      }
    }
  }

  lemma InsertLinked(next: map<int, int>, ring: seq<int>, k: nat, b: int)
    requires Ordered(ring) && Linked(next, ring) && Place(ring, k, b)
    ensures Linked(next[b := Succ(ring, k)][ring[k] := b], Insert(ring, k, b))
  {
    var r, next' := Insert(ring, k, b), next[b := Succ(ring, k)][ring[k] := b];
    InsertOrdered(ring, k, b);
    assert r[k] == ring[k] && r[k + 1] == b;
    forall i | 0 <= i < |r| ensures LinkAt(next', r, i) {
      if i < k {
        assert r[i] == ring[i] && r[i + 1] == ring[i + 1] && r[i] < r[k] && r[i] < r[k + 1] && LinkAt(next, ring, i);
      } else if i > k + 1 {
        assert r[i] == ring[i - 1] && r[k + 1] < r[i] && LinkAt(next, ring, i - 1);
        if i + 1 < |r| { assert r[i + 1] == ring[i]; }
      } else if i == k + 1 && i + 1 < |r| {
        assert r[i + 1] == ring[k + 1];
      }
    }
  }

  lemma DropOrdered(ring: seq<int>, k: nat)
    requires Ordered(ring) && k < |ring|
    ensures Ordered(Drop(ring, k))
  {}

  lemma DropLinked(next: map<int, int>, ring: seq<int>, k: nat)
    requires Ordered(ring) && Linked(next, ring) && 1 <= k < |ring|
    ensures Linked(next[ring[k - 1] := Succ(ring, k)], Drop(ring, k))
  {
    var r, next' := Drop(ring, k), next[ring[k - 1] := Succ(ring, k)];
    assert r[k - 1] == ring[k - 1];
    forall i | 0 <= i < |r| ensures LinkAt(next', r, i) {
      if i < k - 1 {
        assert r[i] == ring[i] && r[i + 1] == ring[i + 1] && ring[i] < ring[k - 1] && LinkAt(next, ring, i);
      } else if i >= k {
        assert r[i] == ring[i + 1] && ring[k - 1] < ring[i + 1] && LinkAt(next, ring, i + 1);
        if i + 1 < |r| { assert r[i + 1] == ring[i + 2]; }
      } else if k < |r| {
        assert r[k] == ring[k + 1];
      }
    }
  }

  // ---- the heap ----

  // The blocks' sizes are in their headers; all lie above the list's anchor.
  predicate Sizes(size: map<int, int>, blocks: map<int, nat>, base: int) {
    && base in size && size[base] == 0
    && forall s :: s in blocks ==> s > base && s in size && size[s] == blocks[s]
  }

  // A free list over some of the blocks.
  ghost predicate ListOk(next: map<int, int>, size: map<int, int>, base: int, ring: seq<int>, blocks: map<int, nat>,
      own: map<int, int>) {
    && |ring| > 0 && ring[0] == base && Ordered(ring) && Linked(next, ring)
    && Sizes(size, blocks, base) && Tiles(blocks, own)
    && forall i :: 1 <= i < |ring| ==> ring[i] in blocks
  }

  // The i-th free block ends before the next begins.
  predicate Gap(ring: seq<int>, blocks: map<int, nat>, i: nat) {
    1 <= i && i + 1 < |ring| && ring[i] in blocks ==> ring[i] + blocks[ring[i]] < ring[i + 1]
  }

  // No two free blocks touch, except perhaps the a-th or b-th and the one after it.
  predicate ApartExcept(ring: seq<int>, blocks: map<int, nat>, a: int, b: int) {
    forall i :: 0 <= i < |ring| && i != a && i != b ==> Gap(ring, blocks, i)
  }

  // A live block goes on the list.
  lemma AddNode(next: map<int, int>, size: map<int, int>, base: int, ring: seq<int>, blocks: map<int, nat>,
      own: map<int, int>, k: nat, b: int)
    requires ListOk(next, size, base, ring, blocks, own) && ApartExcept(ring, blocks, -1, -1)
    requires Place(ring, k, b) && b in blocks
    ensures ListOk(next[b := Succ(ring, k)][ring[k] := b], size, base, Insert(ring, k, b), blocks, own)
    ensures ApartExcept(Insert(ring, k, b), blocks, k, k + 1)
  {
    InsertOrdered(ring, k, b);
    InsertLinked(next, ring, k, b);
    var r := Insert(ring, k, b);
    forall i | 0 <= i < |r| && i != k && i != k + 1 ensures Gap(r, blocks, i) {
      assert Gap(ring, blocks, if i < k then i else i - 1);
    }
  }

  lemma DropAt(ring: seq<int>, k: nat, j: nat)
    requires k < |ring| && j + 1 < |ring|
    ensures Drop(ring, k)[j] == if j < k then ring[j] else ring[j + 1]
  {}

  // Blocks on the list that touch become one: the list,
  lemma JoinNodes(next: map<int, int>, size: map<int, int>, base: int, ring: seq<int>, blocks: map<int, nat>,
      own: map<int, int>, i: nat)
    requires ListOk(next, size, base, ring, blocks, own) && 1 <= i && i + 1 < |ring|
    requires ring[i] + blocks[ring[i]] == ring[i + 1]
    ensures var a, b := ring[i], ring[i + 1];
            ListOk(next[a := Succ(ring, i + 1)], size[a := blocks[a] + blocks[b]], base, Drop(ring, i + 1),
                JoinBlocks(blocks, a, b), JoinOwn(own, a, b)) == true
    ensures JoinOwn(own, ring[i], ring[i + 1]).Keys == own.Keys
  {
    var a, b := ring[i], ring[i + 1];
    Join(blocks, own, a, b);
    DropOrdered(ring, i + 1);
    DropLinked(next, ring, i + 1);
    var r := Drop(ring, i + 1);
    DropAt(ring, i + 1, 0);
    forall j | 1 <= j < |r| ensures r[j] in JoinBlocks(blocks, a, b) {
      DropAt(ring, i + 1, j);
    }
  }

  // and the gaps.
  lemma JoinGaps(ring: seq<int>, blocks: map<int, nat>, i: nat, e: int)
    requires Ordered(ring) && 1 <= i && i + 1 < |ring| && e < i && ApartExcept(ring, blocks, i, e)
    requires (forall j :: 1 <= j < |ring| ==> ring[j] in blocks) && ring[i] + blocks[ring[i]] == ring[i + 1]
    ensures ApartExcept(Drop(ring, i + 1), JoinBlocks(blocks, ring[i], ring[i + 1]), e, e)
  {
    var r, blocks' := Drop(ring, i + 1), JoinBlocks(blocks, ring[i], ring[i + 1]);
    forall j | 0 <= j < |r| && j != e ensures Gap(r, blocks', j) {
      assert Gap(ring, blocks, if j < i then j else j + 1);
      DropAt(ring, i + 1, j);
      if j + 1 < |r| { DropAt(ring, i + 1, j + 1); }
    }
  }

  // Blocks that do not touch are apart.
  lemma NotTouching(next: map<int, int>, size: map<int, int>, base: int, ring: seq<int>, blocks: map<int, nat>,
      own: map<int, int>, i: nat, e: int)
    requires ListOk(next, size, base, ring, blocks, own) && ApartExcept(ring, blocks, i, e)
    requires 1 <= i && i + 1 < |ring| ==> ring[i] + blocks[ring[i]] != ring[i + 1]
    ensures ApartExcept(ring, blocks, e, e)
  {
    if 1 <= i && i + 1 < |ring| { Disjoint(blocks, own, ring[i], ring[i + 1]); }
    assert Gap(ring, blocks, i);
  }
}

module Heap {
  import opened HeapSpec

  // What free() makes of the links and sizes, with p the node before block b and q the one after.
  function FreedNext(next: map<int, int>, size: map<int, int>, p: int, q: int, b: int): map<int, int>
    requires b in size && p in size && q in next
  {
    var after := if b + size[b] == q then next[q] else q;
    if p + size[p] == b then next[b := after][p := after] else next[b := after][p := b]
  }

  function FreedSize(size: map<int, int>, p: int, q: int, b: int): map<int, int>
    requires b in size && p in size && q in size
  {
    var n := if b + size[b] == q then size[b] + size[q] else size[b];
    if p + size[p] == b then size[b := n][p := size[p] + n] else size[b := n]
  }

  // The blocks malloc has given out are those not on the free list.
  predicate IsLive(ring: seq<int>, blocks: map<int, nat>, s: int) { s in blocks && s !in ring }

  // Block b and no other has stopped being live.
  ghost predicate OnlyFreed(ring: seq<int>, blocks: map<int, nat>, ring': seq<int>, blocks': map<int, nat>, b: int) {
    && (forall s :: IsLive(ring', blocks', s) <==> IsLive(ring, blocks, s) && s != b)
    && (forall s :: IsLive(ring', blocks', s) ==> s in blocks && blocks'[s] == blocks[s])
  }

  // Some free block has n units.
  predicate HasFree(ring: seq<int>, blocks: map<int, nat>, n: nat) {
    exists i :: 1 <= i < |ring| && ring[i] in blocks && blocks[ring[i]] >= n
  }

  lemma InInsert(ring: seq<int>, k: nat, b: int)
    requires k < |ring|
    ensures forall s :: s in Insert(ring, k, b) <==> s in ring || s == b
  {
    var r := Insert(ring, k, b);
    assert r[k + 1] == b;
    forall s | s in ring ensures s in r {
      var i :| 0 <= i < |ring| && ring[i] == s;
      assert r[if i <= k then i else i + 1] == s;
    }
  }

  lemma InDrop(ring: seq<int>, k: nat)
    requires Ordered(ring) && k < |ring|
    ensures forall s :: s in Drop(ring, k) <==> s in ring && s != ring[k]
  {
    var r := Drop(ring, k);
    forall s | s in ring && s != ring[k] ensures s in r {
      var i :| 0 <= i < |ring| && ring[i] == s;
      assert r[if i < k then i else i - 1] == s;
    }
    forall s | s in r ensures s != ring[k] {
      var i :| 0 <= i < |r| && r[i] == s;
      DropAt(ring, k, i);
    }
  }

  // Joining the i-th and the next block of the list keeps every live block.
  lemma JoinLive(ring: seq<int>, blocks: map<int, nat>, i: nat)
    requires Ordered(ring) && 1 <= i && i + 1 < |ring| && ring[i] in blocks && ring[i + 1] in blocks
    ensures var r, bs := Drop(ring, i + 1), JoinBlocks(blocks, ring[i], ring[i + 1]);
            && (forall s :: IsLive(r, bs, s) <==> IsLive(ring, blocks, s))
            && (forall s :: IsLive(r, bs, s) ==> bs[s] == blocks[s])
            && ring[i] in r && r[i] == ring[i] && bs[ring[i]] == blocks[ring[i]] + blocks[ring[i + 1]]
  {
    InDrop(ring, i + 1);
    DropAt(ring, i + 1, i);
  }

  // After b has gone on the list behind the k-th node: join it with what follows if they touch.
  lemma FreeAfter(next: map<int, int>, size: map<int, int>, base: int, ring: seq<int>, blocks: map<int, nat>,
      own: map<int, int>, k: nat)
    returns (ring': seq<int>, blocks': map<int, nat>, own': map<int, int>)
    requires ListOk(next, size, base, ring, blocks, own) && k + 1 < |ring| && ApartExcept(ring, blocks, k, k + 1)
    ensures var b, q := ring[k + 1], Succ(ring, k + 1);
            && b in size && q in next && q in size
            && ListOk(next[b := if b + size[b] == q then next[q] else q],
               size[b := if b + size[b] == q then size[b] + size[q] else size[b]], base, ring', blocks', own') == true
            && own'.Keys == own.Keys && ApartExcept(ring', blocks', k, k)
            && k + 1 < |ring'| && ring'[k] == ring[k] && ring'[k + 1] == b && blocks'[b] >= blocks[b]
            && (forall s :: IsLive(ring', blocks', s) <==> IsLive(ring, blocks, s))
            && (forall s :: IsLive(ring', blocks', s) ==> blocks'[s] == blocks[s])
  {
    var b, q := ring[k + 1], Succ(ring, k + 1);
    assert LinkAt(next, ring, k + 1);
    assert k + 2 < |ring| ==> LinkAt(next, ring, k + 2);
    assert LinkAt(next, ring, 0);
    if b + size[b] == q {
      JoinNodes(next, size, base, ring, blocks, own, k + 1);
      JoinGaps(ring, blocks, k + 1, k);
      JoinLive(ring, blocks, k + 1);
      DropAt(ring, k + 2, k);
      ring', blocks', own' := Drop(ring, k + 2), JoinBlocks(blocks, b, q), JoinOwn(own, b, q);
    } else {
      NotTouching(next, size, base, ring, blocks, own, k + 1, k);
      ring', blocks', own' := ring, blocks, own;
      assert next[b := q] == next && size[b := size[b]] == size;
    }
  }

  // Then join it with what precedes if they touch.
  lemma FreeBefore(next: map<int, int>, size: map<int, int>, base: int, ring: seq<int>, blocks: map<int, nat>,
      own: map<int, int>, k: nat,
                   next': map<int, int>, size': map<int, int>)
    returns (ring': seq<int>, blocks': map<int, nat>, own': map<int, int>)
    requires ListOk(next, size, base, ring, blocks, own) && k + 1 < |ring| && ApartExcept(ring, blocks, k, k)
    requires ring[k] in size && ring[k + 1] in size && ring[k + 1] in next
    requires next' == if ring[k] + size[ring[k]] == ring[k + 1] then next[ring[k] := next[ring[k + 1]]] else next
    requires size' ==
             if ring[k] + size[ring[k]] == ring[k + 1] then size[ring[k] := size[ring[k]] + size[ring[k + 1]]] else size
    ensures ListOk(next', size', base, ring', blocks', own') == true
    ensures var p, b := ring[k], ring[k + 1];
            && own'.Keys == own.Keys && ApartExcept(ring', blocks', -1, -1)
            && p in ring' && HasFree(ring', blocks', blocks[b])
            && (forall s :: IsLive(ring', blocks', s) <==> IsLive(ring, blocks, s))
            && (forall s :: IsLive(ring', blocks', s) ==> blocks'[s] == blocks[s])
  {
    var p, b := ring[k], ring[k + 1];
    assert LinkAt(next, ring, k + 1);
    if p + size[p] == b {
      assert k >= 1;
      JoinNodes(next, size, base, ring, blocks, own, k);
      JoinGaps(ring, blocks, k, -1);
      JoinLive(ring, blocks, k);
      ring', blocks', own' := Drop(ring, k + 1), JoinBlocks(blocks, p, b), JoinOwn(own, p, b);
      assert blocks'[ring'[k]] >= blocks[b];
    } else {
      NotTouching(next, size, base, ring, blocks, own, k, -1);
      ring', blocks', own' := ring, blocks, own;
      assert blocks'[ring'[k + 1]] >= blocks[b];
    }
  }

  lemma FreedMaps(next: map<int, int>, size: map<int, int>, p: int, q: int, b: int)
    requires b in size && p in size && q in size && q in next && b != p && b != q && (b + size[b] == q ==> q != p)
    ensures var next1 := next[b := q][p := b];
            var next2 := next1[b := if b + size[b] == q then next1[q] else q];
            (if p + size[p] == b then next2[p := next2[b]] else next2) == FreedNext(next, size, p, q, b)
    ensures var size2 := size[b := if b + size[b] == q then size[b] + size[q] else size[b]];
            (if p + size[p] == b then size2[p := size2[p] + size2[b]] else size2) == FreedSize(size, p, q, b)
  {}

  // A block that goes on the list stops being live.
  lemma InsertLive(ring: seq<int>, blocks: map<int, nat>, k: nat, b: int)
    requires k < |ring|
    ensures forall s :: IsLive(Insert(ring, k, b), blocks, s) <==> IsLive(ring, blocks, s) && s != b
  {
    InInsert(ring, k, b);
  }

  lemma MoreFree(ring: seq<int>, blocks: map<int, nat>, n: nat, m: nat)
    requires HasFree(ring, blocks, n) && m <= n
    ensures HasFree(ring, blocks, m)
  {
    var i :| 1 <= i < |ring| && ring[i] in blocks && blocks[ring[i]] >= n;
  }

  // free(b), with the k-th node the one found before it.
  lemma FreeStep(next: map<int, int>, size: map<int, int>, base: int, ring: seq<int>, blocks: map<int, nat>,
      own: map<int, int>, k: nat, b: int)
    returns (ring': seq<int>, blocks': map<int, nat>, own': map<int, int>)
    requires ListOk(next, size, base, ring, blocks, own) && ApartExcept(ring, blocks, -1, -1) && Place(ring, k, b) &&
             IsLive(ring, blocks, b)
    ensures var p, q := ring[k], Succ(ring, k);
            && b in size && p in size && q in next && q in size && p in ring'
            && ListOk(FreedNext(next, size, p, q, b), FreedSize(size, p, q, b), base, ring', blocks', own') == true
    ensures ApartExcept(ring', blocks', -1, -1) && own'.Keys == own.Keys
    ensures OnlyFreed(ring, blocks, ring', blocks', b) && HasFree(ring', blocks', blocks[b])
  {
    var p, q := ring[k], Succ(ring, k);
    assert LinkAt(next, ring, 0) && (k + 1 < |ring| ==> LinkAt(next, ring, k + 1));
    AddNode(next, size, base, ring, blocks, own, k, b);
    InsertLive(ring, blocks, k, b);
    var r1, next1 := Insert(ring, k, b), next[b := q][p := b];
    assert r1[k] == p && r1[k + 1] == b && Succ(r1, k + 1) == q;
    var r2, blocks2, own2 := FreeAfter(next1, size, base, r1, blocks, own, k);
    var next2 := next1[b := if b + size[b] == q then next1[q] else q];
    var size2 := size[b := if b + size[b] == q then size[b] + size[q] else size[b]];
    FreedMaps(next, size, p, q, b);
    assert size2[p] == size[p] && LinkAt(next2, r2, k + 1);
    ring', blocks', own' := FreeBefore(next2, size2, base, r2, blocks2, own2, k, FreedNext(next, size, p, q, b),
        FreedSize(size, p, q, b));
    MoreFree(ring', blocks', blocks2[b], blocks[b]);
  }

  // malloc() hands out the whole of the k-th free block,
  lemma TakeWhole(next: map<int, int>, size: map<int, int>, base: int, ring: seq<int>, blocks: map<int, nat>,
      own: map<int, int>, k: nat)
    requires ListOk(next, size, base, ring, blocks, own) && ApartExcept(ring, blocks, -1, -1) && 1 <= k < |ring|
    ensures ListOk(next[ring[k - 1] := Succ(ring, k)], size, base, Drop(ring, k), blocks, own) == true
    ensures ApartExcept(Drop(ring, k), blocks, -1, -1) && ring[k - 1] in Drop(ring, k)
    ensures OnlyFreed(Drop(ring, k), blocks, ring, blocks, ring[k]) && IsLive(Drop(ring, k), blocks, ring[k])
  {
    DropOrdered(ring, k);
    DropLinked(next, ring, k);
    InDrop(ring, k);
    var r := Drop(ring, k);
    DropAt(ring, k, 0);
    forall j | 0 <= j < |r| ensures Gap(r, blocks, j) && (j >= 1 ==> r[j] in blocks) {
      DropAt(ring, k, j);
      assert Gap(ring, blocks, if j < k then j else j + 1);
      if j + 1 < |r| { DropAt(ring, k, j + 1); }
    }
  }

  // or the last n units of it.
  lemma TakePart(next: map<int, int>, size: map<int, int>, base: int, ring: seq<int>, blocks: map<int, nat>,
      own: map<int, int>, k: nat, n: nat)
    requires ListOk(next, size, base, ring, blocks, own) && ApartExcept(ring, blocks, -1, -1) && 1 <= k < |ring| &&
             1 <= n < blocks[ring[k]]
    ensures var p, rest := ring[k], blocks[ring[k]] - n;
            && ListOk(next, size[p := rest][p + rest := n], base, ring, CutBlocks(blocks, p, rest),
               CutOwn(own, p, rest)) == true
            && ApartExcept(ring, CutBlocks(blocks, p, rest), -1, -1) && CutOwn(own, p, rest).Keys == own.Keys
            && OnlyFreed(ring, CutBlocks(blocks, p, rest), ring, blocks, p + rest) &&
               IsLive(ring, CutBlocks(blocks, p, rest), p + rest)
            && p + rest !in blocks
  {
    var p, rest := ring[k], blocks[ring[k]] - n;
    Cut(blocks, own, p, rest);
    var bs := CutBlocks(blocks, p, rest);
    assert p + rest !in ring;
    forall j | 0 <= j < |ring| ensures Gap(ring, bs, j) { assert Gap(ring, blocks, j); }
  }

  // Fresh memory becomes a live block, about to be freed.
  lemma AddFresh(next: map<int, int>, size: map<int, int>, base: int, ring: seq<int>, blocks: map<int, nat>,
      own: map<int, int>, a: int, n: nat)
    requires ListOk(next, size, base, ring, blocks, own) && ApartExcept(ring, blocks, -1, -1) && n >= 1 && a > base &&
             forall u :: u in own ==> u < a
    ensures ListOk(next, size[a := n], base, ring, blocks[a := n], GrowOwn(own, a, n)) == true
    ensures ApartExcept(ring, blocks[a := n], -1, -1) && IsLive(ring, blocks[a := n], a)
    ensures OnlyFreed(ring, blocks[a := n], ring, blocks, a)
  {
    Grow(blocks, own, a, n);
    assert a !in ring;
    var bs := blocks[a := n];
    forall j | 0 <= j < |ring| ensures Gap(ring, bs, j) { assert Gap(ring, blocks, j); }
  }

  // Every block has its place on the list.
  lemma {:induction false} PlaceExists(ring: seq<int>, b: int, i: nat) returns (k: nat)
    requires Ordered(ring) && i < |ring| && ring[i] < b && b !in ring
    ensures Place(ring, k, b)
    decreases |ring| - i
  {
    if i + 1 < |ring| && ring[i + 1] < b { k := PlaceExists(ring, b, i + 1); } else { k := i; }
  }

  // Steps along the list from node i to node k.
  function Steps(n: nat, i: nat, k: nat): nat
    requires i < n && k < n
  { if i <= k then k - i else n - i + k }

  function NextIndex(n: nat, i: nat): nat
    requires i < n
  { if i + 1 < n then i + 1 else 0 }

  function PrevIndex(n: nat, i: nat): nat
    requires i < n
  { if i == 0 then n - 1 else i - 1 }

  // A search that began after node f and has come to node i has been past node t.
  predicate Passed(f: nat, i: nat, t: nat) { if i > f then f < t < i else t > f || t < i }

  // The nodes it has been past are too small.
  predicate Tested(size: map<int, int>, ring: seq<int>, f: nat, i: nat, n: int) {
    forall t :: 0 <= t < |ring| && Passed(f, i, t) ==> ring[t] in size && size[ring[t]] < n
  }

  // What morecore() asks for.
  function Ask(nu: nat): nat { if nu < MINCORE then MINCORE else nu }

  ghost predicate SameLive(ring: seq<int>, blocks: map<int, nat>, ring': seq<int>, blocks': map<int, nat>) {
    && (forall s :: IsLive(ring', blocks', s) <==> IsLive(ring, blocks, s))
    && (forall s :: IsLive(ring', blocks', s) ==> s in blocks && blocks'[s] == blocks[s])
  }

  ghost function IndexOf(ring: seq<int>, p: int): (i: nat)
    requires p in ring
    ensures i < |ring| && ring[i] == p
  { var i :| 0 <= i < |ring| && ring[i] == p; i }

  // A search that has been all the way round has found that no free block has n units.
  lemma NoneFits(next: map<int, int>, size: map<int, int>, base: int, ring: seq<int>, blocks: map<int, nat>,
      own: map<int, int>, f: nat, n: nat)
    requires ListOk(next, size, base, ring, blocks, own) && f < |ring| && Tested(size, ring, f, f, n) &&
             ring[f] in size && size[ring[f]] < n
    ensures !HasFree(ring, blocks, n)
  {
    forall i | 1 <= i < |ring| ensures blocks[ring[i]] < n { assert i == f || Passed(f, f, i); }
  }

  lemma Fits(ring: seq<int>, blocks: map<int, nat>, i: nat, n: nat)
    requires 1 <= i < |ring| && ring[i] in blocks && blocks[ring[i]] >= n
    ensures HasFree(ring, blocks, n)
  {}

  lemma TestedNext(size: map<int, int>, ring: seq<int>, f: nat, k: nat, n: int)
    requires f < |ring| && k < |ring|
    requires k != f ==> Tested(size, ring, f, k, n) && ring[k] in size && size[ring[k]] < n
    ensures Tested(size, ring, f, NextIndex(|ring|, k), n) && PrevIndex(|ring|, NextIndex(|ring|, k)) == k
  {
    forall t | 0 <= t < |ring| && Passed(f, NextIndex(|ring|, k), t) ensures k != f && (t == k || Passed(f, k, t)) {}
  }

  lemma LinkOf(next: map<int, int>, size: map<int, int>, base: int, ring: seq<int>, blocks: map<int, nat>,
      own: map<int, int>, k: nat)
    requires ListOk(next, size, base, ring, blocks, own) == true && k < |ring|
    ensures ring[k] in next && next[ring[k]] == ring[NextIndex(|ring|, k)] && ring[NextIndex(|ring|, k)] in size
  {
    assert LinkAt(next, ring, k);
  }

  datatype Grant = Refused | Granted(at: int)

  class Heap {
    const base: int
    var next: map<int, int>           // header field ptr
    var size: map<int, int>           // header field size
    var freep: int
    ghost var ring: seq<int>          // the free list, from base
    ghost var blocks: map<int, nat>   // all blocks with their sizes
    ghost var own: map<int, int>      // for each unit from sbrk(), the block it is in

    ghost predicate Ready()
      reads this
    {
      (&& base > NULL && freep in ring && freep != NULL
       && ListOk(next, size, base, ring, blocks, own) &&
          ApartExcept(ring, blocks, -1, -1)) == true   // one goal for the verifier
    }

    ghost predicate Valid()
      reads this
    { if freep == NULL then base > NULL && ring == [] && blocks == map[] && own == map[] else Ready() }

    constructor (base: int)
      requires base > NULL
      ensures Valid() && this.base == base && own == map[]
    {
      this.base := base;
      next, size, freep := map[], map[], NULL;
      ring, blocks, own := [], map[], map[];
    }

    // The search of free(): the node after which block b belongs.
    method FindPlace(b: int) returns (p: int, ghost k: nat)
      requires Ready() && IsLive(ring, blocks, b)
      ensures Place(ring, k, b) && p == ring[k]
    {
      p := freep;
      k := PlaceExists(ring, b, 0);
      ghost var i :| 0 <= i < |ring| && ring[i] == freep;
      assert LinkAt(next, ring, i);
      while !(b > p && b < next[p])
        invariant 0 <= i < |ring| && p == ring[i] && LinkAt(next, ring, i)
        decreases Steps(|ring|, i, k)
      {
        if p >= next[p] && (b > p || b < next[p]) { break; }
        assert i != k;
        p := next[p];
        i := NextIndex(|ring|, i);
        assert LinkAt(next, ring, i);
      }
      k := i;
    }

    method Free(b: int)
      requires Ready() && IsLive(ring, blocks, b)
      modifies this
      ensures Ready() && own.Keys == old(own.Keys)
      ensures OnlyFreed(old(ring), old(blocks), ring, blocks, b)
      ensures HasFree(ring, blocks, old(blocks)[b])
    {
      var p;
      ghost var k;
      p, k := FindPlace(b);
      assert LinkAt(next, ring, k);
      ghost var ring', blocks', own' := FreeStep(next, size, base, ring, blocks, own, k, b);
      var q := next[p];
      Relink(p, q, b);
      freep := p;
      ring, blocks, own := ring', blocks', own';
    }

    // Join block b with its neighbours p and q on the list where they touch.
    method Relink(p: int, q: int, b: int)
      requires b in size && p in size && q in next && q in size && b != p && b != q && (b + size[b] == q ==> p != q)
      modifies this`next, this`size
      ensures next == FreedNext(old(next), old(size), p, q, b) && size == FreedSize(old(size), p, q, b)
    {
      if b + size[b] == q {
        next := next[b := next[q]];
        size := size[b := size[b] + size[q]];
      } else {
        next := next[b := q];
      }
      if p + size[p] == b {
        size := size[p := size[p] + size[b]];
        next := next[p := next[b]];
      } else {
        next := next[p := b];
      }
    }

    // Get at least nu units from the system and put them on the free list.
    method Morecore(nu: nat, grant: Grant) returns (p: int)
      requires Ready() && nu >= 1 && (grant.Granted? ==> Fresh(grant.at))
      modifies this
      ensures Ready() && p == (if grant.Refused? then NULL else freep)
      ensures grant.Refused? ==> ring == old(ring) && blocks == old(blocks) && own == old(own) && freep == old(freep)
      ensures grant.Granted? ==> own.Keys == GrowOwn(old(own), grant.at, Ask(nu)).Keys && HasFree(ring, blocks, nu)
      ensures SameLive(old(ring), old(blocks), ring, blocks)
    {
      var n := if nu < MINCORE then MINCORE else nu;
      if grant.Refused? { return NULL; }
      AddFresh(next, size, base, ring, blocks, own, grant.at, n);
      size := size[grant.at := n];
      own := GrowOwn(own, grant.at, n);
      blocks := blocks[grant.at := n];
      Free(grant.at);
      MoreFree(ring, blocks, n, nu);
      p := freep;
    }

    // Memory from address a on is not the heap's yet.
    ghost predicate Fresh(a: int)
      reads this
    { a > base && forall u :: u in own ==> u < a }

    // Hand out nunits units of block p, the node after prevp.
    method Carve(prevp: int, p: int, nunits: nat, ghost k: nat) returns (b: int)
      requires Ready() && 1 <= k < |ring| && p == ring[k] && prevp == ring[k - 1] && 1 <= nunits <= size[p]
      modifies this
      ensures Ready() && own.Keys == old(own.Keys)
      ensures (OnlyFreed(ring, blocks, old(ring), old(blocks), b) && IsLive(ring, blocks, b) &&
              blocks[b] == nunits) == true
    {
      assert LinkAt(next, ring, k);
      if size[p] == nunits {
        TakeWhole(next, size, base, ring, blocks, own, k);
        next := next[prevp := next[p]];
        ring := Drop(ring, k);
        b := p;
      } else {
        TakePart(next, size, base, ring, blocks, own, k, nunits);
        var rest: nat := size[p] - nunits;
        size := size[p := rest];
        b := p + rest;
        size := size[b := nunits];
        blocks := CutBlocks(blocks, p, rest);
        own := CutOwn(own, p, rest);
      }
      freep := prevp;
    }

    // The list as malloc() first finds it: nothing but base.
    method Init()
      requires Valid()
      modifies this
      ensures Ready() && own == old(own) && blocks == old(blocks)
      ensures old(freep) != NULL ==> ring == old(ring)
      ensures old(freep) == NULL ==> ring == [base]
    {
      if freep == NULL {
        next, size, freep := next[base := base], size[base := 0], base;
        ring := [base];
      }
    }

    // A walk that began after freep, the f-th node, has come to p, the k-th, and found nothing before.
    ghost predicate Walking(prevp: int, p: int, k: nat, f: nat, nunits: nat)
      reads this
    {
      && f < |ring| && ring[f] == freep && k < |ring| && p == ring[k] && p in size
      && prevp == ring[PrevIndex(|ring|, k)] && Tested(size, ring, f, k, nunits)
    }

    // To the node after p, the k-th.
    method Advance(p: int, nunits: nat, ghost k: nat, ghost f: nat) returns (p': int, ghost k': nat)
      requires Ready() && f < |ring| && ring[f] == freep && k < |ring| && p == ring[k]
      requires k != f ==> Tested(size, ring, f, k, nunits) && p in size && size[p] < nunits
      ensures Walking(p, p', k', f, nunits) == true && k' == NextIndex(|ring|, k)
    {
      LinkOf(next, size, base, ring, blocks, own, k);
      TestedNext(size, ring, f, k, nunits);
      p' := next[p];
      k' := NextIndex(|ring|, k);
    }

    // The list as it was, or as one morecore() that was called for has left it.
    ghost predicate SoFar(ring0: seq<int>, blocks0: map<int, nat>, own0: map<int, int>, grant: Grant, nunits: nat,
        calls: nat)
      reads this
    {
      && (calls == 0 ==> ring == ring0 && blocks == blocks0 && own == own0)
      && (calls > 0 ==> calls == 1 && !HasFree(ring0, blocks0, nunits) && Supplied(ring0, blocks0, own0, grant, nunits))
    }

    // Back at freep, the f-th node, with nothing found: ask for more memory. That this happens at most
    // once is why there is no more than one grant.
    method AskMore(nunits: nat, grant: Grant, calls: nat, ghost f: nat, ghost ring0: seq<int>,
        ghost blocks0: map<int, nat>, ghost own0: map<int, int>)
      returns (p: int)
      requires Ready() && nunits >= 1 && SoFar(ring0, blocks0, own0, grant, nunits, calls) &&
               (calls == 0 && grant.Granted? ==> Fresh(grant.at))
      requires f < |ring| && Tested(size, ring, f, f, nunits) && ring[f] in size && size[ring[f]] < nunits
      modifies this
      ensures Ready() && calls == 0 && p == (if grant.Refused? then NULL else freep)
      ensures grant.Refused? ==> ring == ring0 && blocks == blocks0 && own == own0 && !HasFree(ring0, blocks0, nunits)
      ensures grant.Granted? ==> SoFar(ring0, blocks0, own0, grant, nunits, 1) == true
    {
      NoneFits(next, size, base, ring, blocks, own, f, nunits);
      p := Morecore(nunits, grant);
    }

    // One round of malloc()'s loop at a node p that is too small: on to the node after it, with more
    // memory if p is where the walk began. NULL if there is none to be had.
    method Round(p: int, nunits: nat, grant: Grant, calls: nat, ghost prevp: int, ghost k: nat, ghost f: nat,
                 ghost ring0: seq<int>, ghost blocks0: map<int, nat>, ghost own0: map<int, int>)
      returns (p1: int, p2: int, calls': nat, ghost k': nat, ghost f': nat)
      requires Ready() && nunits >= 1 && SoFar(ring0, blocks0, own0, grant, nunits, calls) &&
               (calls == 0 && grant.Granted? ==> Fresh(grant.at))
      requires Walking(prevp, p, k, f, nunits) && size[p] < nunits
      modifies this
      ensures Ready()
      ensures p2 == NULL ==>
              calls' == 1 && grant.Refused? && ring == ring0 && blocks == blocks0 && own == own0 &&
              !HasFree(ring0, blocks0, nunits)
      ensures p2 != NULL ==>
              (Walking(p1, p2, k', f', nunits) && SoFar(ring0, blocks0, own0, grant, nunits, calls')) == true
      ensures calls' == 0 ==> calls == 0 && own == old(own)
      ensures p2 != NULL ==>
              calls < calls' ||
              (calls == calls' && ring == old(ring) && f' == f && Steps(|ring|, k', f') < Steps(|ring|, k, f))
    {
      p1, calls', k', f' := p, calls, k, f;
      if p == freep {
        p1 := AskMore(nunits, grant, calls, f, ring0, blocks0, own0);
        calls' := calls + 1;
        if p1 == NULL { return NULL, NULL, calls', 0, 0; }
        f' := IndexOf(ring, freep);
        k' := f';
      }
      p2, k' := Advance(p1, nunits, k', f');
    }

    // malloc()'s walk along the list for a node of nunits units. k is the index of the node found.
    method Search(nunits: nat, grant: Grant) returns (prevp: int, p: int, calls: nat, ghost k: nat)
      requires Ready() && nunits >= 1 && (grant.Granted? ==> Fresh(grant.at))
      modifies this
      ensures Ready() && calls <= 1 && (calls == 0 <==> HasFree(old(ring), old(blocks), nunits))
      ensures p == NULL <==> calls == 1 && grant.Refused?
      ensures calls == 0 || p == NULL ==> ring == old(ring) && blocks == old(blocks) && own == old(own)
      ensures p != NULL ==> 1 <= k < |ring| && p == ring[k] && prevp == ring[k - 1] && p in size && nunits <= size[p]
      ensures p != NULL && calls == 1 ==> Supplied(old(ring), old(blocks), old(own), grant, nunits)
    {
      calls := 0;
      ghost var f: nat := IndexOf(ring, freep);
      prevp := freep;
      p, k := Advance(freep, nunits, f, f);
      while size[p] < nunits
        invariant Ready() && Walking(prevp, p, k, f, nunits) == true
        invariant SoFar(old(ring), old(blocks), old(own), grant, nunits, calls) == true
        decreases 1 - calls, Steps(|ring|, k, f)
        modifies this
      {
        prevp, p, calls, k, f := Round(p, nunits, grant, calls, prevp, k, f, old(ring), old(blocks), old(own));
        if p == NULL { return; }
      }
      Fits(ring, blocks, k, nunits);
    }

    // A block for nbytes bytes, or NULL. grant is what sbrk() answers if it is asked, which it can
    // only grant if it is asked for the memory the new block is said to have; calls is how often it
    // is asked.
    method Malloc(nbytes: nat, grant: Grant) returns (ap: int, calls: nat)
      requires Valid() && nbytes < TWO32
      requires grant.Granted? ==> Fresh(grant.at) && SbrkBytes(Ask(Units(nbytes))) == Ask(Units(nbytes)) * HEADER
      modifies this
      ensures Ready() && calls <= 1
      ensures calls == 0 <==> HasFree(old(ring), old(blocks), Units(nbytes))
      ensures ap == NULL <==> calls == 1 && grant.Refused?
      ensures ap == NULL ==> SameLive(old(ring), old(blocks), ring, blocks) && own.Keys == old(own).Keys
      ensures ap != NULL ==> OnlyFreed(ring, blocks, old(ring), old(blocks), ap - 1) && IsLive(ring, blocks, ap - 1)
      ensures ap != NULL ==> blocks[ap - 1] == Units(nbytes)
      ensures ap != NULL ==> ((blocks[ap - 1] - 1) * HEADER >= nbytes <==> nbytes + HEADER - 1 < TWO32)
      ensures ap != NULL ==>
              own.Keys == if calls == 0 then old(own).Keys else GrowOwn(old(own), grant.at, Ask(Units(nbytes))).Keys
    {
      UnitsEnoughIff(nbytes);
      Init();
      var prevp, p;
      ghost var k;
      prevp, p, calls, k := Search(Units(nbytes), grant);
      if p == NULL { return NULL, calls; }
      var b := Carve(prevp, p, Units(nbytes), k);
      ap := b + 1;
    }

    // The list after a morecore() that was granted.
    ghost predicate Supplied(ring1: seq<int>, blocks1: map<int, nat>, own1: map<int, int>, grant: Grant, nunits: nat)
      reads this
    {
      && grant.Granted? && HasFree(ring, blocks, nunits) && SameLive(ring1, blocks1, ring, blocks)
      && own.Keys == GrowOwn(own1, grant.at, Ask(nunits)).Keys
    }
  }

  // malloc of 2^32 - 1 bytes, on a new heap: the rounding wraps, and what comes back is a block of one
  // unit, which is all header.
  method MallocTooSmall(base: int) returns (h: Heap, ap: int)
    requires base > NULL
    ensures ap != NULL && h.Ready() && IsLive(h.ring, h.blocks, ap - 1) && h.blocks[ap - 1] == 1
  {
    h := new Heap(base);
    var calls;
    ap, calls := h.Malloc(TWO32 - 1, Granted(base + 1));
  }
}
