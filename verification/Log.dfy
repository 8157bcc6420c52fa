/** log.c over the buffer cache: the in-memory header, and the loops that move blocks between
    cache, log and home locations. A method stops early where the source would sleep for a buffer
    or panic; what reached the disk is then a prefix of what it would have written. */
module Log {
  import opened Words
  import opened Sequences
  import opened LogSpec
  import opened CacheSpec
  import opened BufferCache
  import LogProtocol

  // ---- which buffers bread can still hand out ----

  // No buffer is held.
  predicate Idle(bufs: seq<Buf>) { forall i :: 0 <= i < |bufs| ==> !bufs[i].busy }

  predicate AllClean(bufs: seq<Buf>) { forall i :: 0 <= i < |bufs| ==> !bufs[i].dirty }

  predicate SomeClean(bufs: seq<Buf>) { exists i :: 0 <= i < |bufs| && !bufs[i].dirty }

  // Nothing is held and bread of any block succeeds.
  predicate Quiet(bufs: seq<Buf>) { Idle(bufs) && SomeClean(bufs) }

  predicate CachedAt(bufs: seq<Buf>, bn: nat) { exists i :: 0 <= i < |bufs| && bufs[i].Holds(DISKDEV, bn) }

  predicate PinnedAt(bufs: seq<Buf>, bn: nat) {
    exists i :: 0 <= i < |bufs| && bufs[i].dirty && bufs[i].Holds(DISKDEV, bn)
  }

  // Bread of another block and then of this one both succeed.
  predicate BothReadable(bufs: seq<Buf>, second: nat) {
    Quiet(bufs) && (AllClean(bufs) || PinnedAt(bufs, second))
  }

  // Bread of this block cannot succeed.
  predicate Stuck(bufs: seq<Buf>, bn: nat) { !SomeClean(bufs) && !CachedAt(bufs, bn) }

  // The log area on disk has the contents c.
  predicate LogCurrent(g: Geometry, d: Disk, c: Disk)
    requires g.Fits(c)
  {
    |c| == |d| && forall b :: g.start <= b < g.start + g.size ==> c[b] == d[b]
  }

  predicate InTail(homes: seq<nat>, from: nat, bn: nat) { exists k :: from <= k < |homes| && homes[k] == bn }

  // The dirty buffers are those of homes[from..].
  predicate Pins(bufs: seq<Buf>, homes: seq<nat>, from: nat) {
    && (forall i :: 0 <= i < |bufs| && bufs[i].dirty ==> InTail(homes, from, bufs[i].blockno))
    && (forall k :: from <= k < |homes| ==> PinnedAt(bufs, homes[k]))
  }

  // Homes from `from` on are still to be installed: after write_log they are pinned, in recovery
  // nothing is.
  predicate ToInstall(bufs: seq<Buf>, homes: seq<nat>, from: nat) {
    AllClean(bufs) || Pins(bufs, homes, from)
  }

  predicate SameDirty(a: Buf, b: Buf) {
    a.dirty == b.dirty && (a.dirty ==> a.dev == b.dev && a.blockno == b.blockno)
  }

  // From a to b, buffers i and j were taken.
  predicate Took(a: seq<Buf>, b: seq<Buf>, i: nat, j: nat) {
    && |a| == |b|
    && (forall x :: 0 <= x < |a| && x != i && x != j ==> b[x] == a[x])
    && (forall x :: 0 <= x < |a| ==> SameDirty(a[x], b[x]))
  }

  // From a to b, block dst was written and is no longer pinned; no other pin changed.
  predicate Unpins(a: seq<Buf>, b: seq<Buf>, dst: nat) {
    && |a| == |b| && (Idle(a) ==> Idle(b))
    && forall x :: 0 <= x < |a| ==> UnpinsAt(a[x], b[x], dst)
  }

  predicate UnpinsAt(a: Buf, b: Buf, dst: nat) {
    (b.dirty <==> a.dirty && a.blockno != dst) && (b.dirty ==> a.dev == b.dev && a.blockno == b.blockno)
  }

  lemma UnpinsKeeps(a: seq<Buf>, b: seq<Buf>, dst: nat, bn: nat)
    requires Unpins(a, b, dst) && PinnedAt(a, bn) && bn != dst
    ensures PinnedAt(b, bn)
  {
    var i :| 0 <= i < |a| && a[i].dirty && a[i].Holds(DISKDEV, bn);
    assert UnpinsAt(a[i], b[i], dst);
  }

  lemma UnpinsClean(a: seq<Buf>, b: seq<Buf>, dst: nat)
    requires Unpins(a, b, dst)
    ensures SomeClean(a) ==> SomeClean(b)
    ensures AllClean(a) ==> AllClean(b)
  {
    forall i | 0 <= i < |a| && !a[i].dirty ensures !b[i].dirty { assert UnpinsAt(a[i], b[i], dst); }
    if SomeClean(a) {
      var i :| 0 <= i < |a| && !a[i].dirty;
      assert !b[i].dirty;
    }
  }

  // Writing a block that is not a home leaves the pins.
  lemma PinsLogged(a: seq<Buf>, b: seq<Buf>, homes: seq<nat>, dst: nat)
    requires Unpins(a, b, dst) && Pins(a, homes, 0) && dst !in homes
    ensures Pins(b, homes, 0) == true
    ensures Quiet(a) ==> Quiet(b) == true
  {
    UnpinsClean(a, b, dst);
    forall i | 0 <= i < |b| && b[i].dirty ensures InTail(homes, 0, b[i].blockno) { assert UnpinsAt(a[i], b[i], dst); }
    forall k | 0 <= k < |homes| ensures PinnedAt(b, homes[k]) { UnpinsKeeps(a, b, dst, homes[k]); }
  }

  // Installing the first of the homes leaves the pins of the others.
  lemma PinsInstalled(a: seq<Buf>, b: seq<Buf>, homes: seq<nat>, from: nat)
    requires from < |homes| && Unpins(a, b, homes[from]) && Pins(a, homes, from) && Distinct(homes)
    ensures Pins(b, homes, from + 1)
  {
    forall i | 0 <= i < |b| && b[i].dirty ensures InTail(homes, from + 1, b[i].blockno) {
      assert UnpinsAt(a[i], b[i], homes[from]);
      var k :| from <= k < |homes| && homes[k] == a[i].blockno;
      assert from + 1 <= k;
    }
    forall k | from + 1 <= k < |homes| ensures PinnedAt(b, homes[k]) { UnpinsKeeps(a, b, homes[from], homes[k]); }
  }

  lemma BeforeInstall(bufs: seq<Buf>, homes: seq<nat>, from: nat)
    requires from < |homes| && ToInstall(bufs, homes, from)
    ensures Quiet(bufs) ==> BothReadable(bufs, homes[from])
  {
    assert Pins(bufs, homes, from) ==> PinnedAt(bufs, homes[from]);
  }

  lemma AfterInstall(a: seq<Buf>, b: seq<Buf>, homes: seq<nat>, from: nat)
    requires from < |homes| && Unpins(a, b, homes[from]) && ToInstall(a, homes, from) && Distinct(homes)
    ensures ToInstall(b, homes, from + 1) == true
    ensures Quiet(a) ==> Quiet(b) == true
  {
    UnpinsClean(a, b, homes[from]);
    if Pins(a, homes, from) { PinsInstalled(a, b, homes, from); }
  }

  // log_write pins the block it records.
  lemma PinsAbsorb(a: seq<Buf>, b: seq<Buf>, homes: seq<nat>, i: nat)
    requires Pins(a, homes, 0) && i < |a| && b == a[i := a[i].(dirty := true)] && a[i].dev == DISKDEV
    ensures Pins(b, LogProtocol.Absorb(homes, a[i].blockno), 0) == true
  {
    var homes' := LogProtocol.Absorb(homes, a[i].blockno);
    assert a[i].blockno in homes';
    forall x | 0 <= x < |b| && b[x].dirty ensures InTail(homes', 0, b[x].blockno) {
      if x != i {
        var k :| 0 <= k < |homes| && homes[k] == a[x].blockno;
        assert homes'[k] == b[x].blockno;
      }
    }
    forall k | 0 <= k < |homes'| ensures PinnedAt(b, homes'[k]) {
      if homes'[k] == a[i].blockno {
        assert b[i].dirty && b[i].Holds(DISKDEV, homes'[k]);
      } else {
        assert PinnedAt(a, homes[k]);
        var x :| 0 <= x < |a| && a[x].dirty && a[x].Holds(DISKDEV, homes[k]);
        assert b[x].dirty && b[x].Holds(DISKDEV, homes'[k]);
      }
    }
  }

  // Of more buffers than pinned blocks, one is clean.
  lemma RoomLeft(bufs: seq<Buf>, homes: seq<nat>)
    requires Unique(bufs) && Pins(bufs, homes, 0) && Distinct(homes)
    requires forall i :: 0 <= i < |bufs| && bufs[i].dirty ==> bufs[i].dev == DISKDEV
    ensures |homes| < |bufs| ==> SomeClean(bufs)
  {
    if !SomeClean(bufs) {
      var held := seq(|bufs|, i requires 0 <= i < |bufs| => bufs[i].blockno);
      forall i | 0 <= i < |held| ensures held[i] in homes { assert bufs[i].dirty; }
      forall i, j | 0 <= i < j < |held| ensures held[i] != held[j] {
        assert bufs[i].dirty && bufs[j].dirty;
        assert !bufs[j].Holds(bufs[i].dev, bufs[i].blockno);
      }
      DistinctFits(held, homes);
    }
  }

  // With as many pinned blocks as buffers, nothing else is cached.
  lemma NoRoom(bufs: seq<Buf>, homes: seq<nat>, bn: nat)
    requires Pins(bufs, homes, 0) && Distinct(homes) && |homes| >= |bufs| && bn !in homes
    ensures !SomeClean(bufs) && !CachedAt(bufs, bn)
  {
    var at := seq(|homes|, k requires 0 <= k < |homes| => PinIndex(bufs, homes[k]));
    var slots := seq(|bufs|, i => i);
    if SomeClean(bufs) {
      var c :| 0 <= c < |bufs| && !bufs[c].dirty;
      forall k | 0 <= k < |at| ensures at[k] in Without(slots, c) {
        WithoutFacts(slots, c);
        assert slots[at[k]] == at[k];
      }
      WithoutFacts(slots, c);
      assert slots[c] == c;
      DistinctFits(at, Without(slots, c));
    }
  }

  // A buffer is left exactly if there are more buffers than pinned blocks.
  lemma RoomIff(bufs: seq<Buf>, homes: seq<nat>, bn: nat)
    requires Unique(bufs) && Pins(bufs, homes, 0) && Distinct(homes) && bn !in homes
    requires forall i :: 0 <= i < |bufs| && bufs[i].dirty ==> bufs[i].dev == DISKDEV
    ensures SomeClean(bufs) <==> |homes| < |bufs|
  {
    if |homes| < |bufs| { RoomLeft(bufs, homes); } else { NoRoom(bufs, homes, bn); }
  }

  // A home is pinned; with every buffer pinned, no other block is cached.
  lemma BeforeCopy(bufs: seq<Buf>, homes: seq<nat>, k: nat, bn: nat)
    requires Pins(bufs, homes, 0) && k < |homes| && bn !in homes
    ensures Quiet(bufs) ==> BothReadable(bufs, homes[k])
    ensures !SomeClean(bufs) ==> Stuck(bufs, bn)
  {
    assert PinnedAt(bufs, homes[k]);
  }

  // After buffer i was taken for block `first`, another can be taken for `second`.
  lemma SecondReadable(a: seq<Buf>, b: seq<Buf>, i: nat, first: nat, second: nat)
    requires |a| == |b| == NBUF && i < |a| && b == a[i := b[i]] && SameDirty(a[i], b[i]) && b[i].Holds(DISKDEV, first)
    requires first != second
    ensures Idle(a) && AllClean(a) ==> exists x :: 0 <= x < |b| && b[x].Recyclable()
    ensures PinnedAt(a, second) ==> CachedAt(b, second)
    ensures Idle(a) ==> forall x :: 0 <= x < |b| && b[x].Holds(DISKDEV, second) ==> !b[x].busy
  {
    if Idle(a) && AllClean(a) {
      var x := if i == 0 then 1 else 0;
      assert b[x].Recyclable();
    }
    if PinnedAt(a, second) {
      var x :| 0 <= x < |a| && a[x].dirty && a[x].Holds(DISKDEV, second);
      assert b[x].Holds(DISKDEV, second);
    }
  }

  // Buffers i and j were taken, j for block dst, which was then written; both were released.
  lemma CopyUnpins(a: seq<Buf>, m: seq<Buf>, b: seq<Buf>, i: nat, j: nat, dst: nat)
    requires Took(a, m, i, j) && i < |a| && j < |a| && |b| == |a| && Unique(m)
    requires m[j].Holds(DISKDEV, dst) && !b[j].dirty && !b[j].busy
    requires i != j ==> b[i] == m[i].(busy := false)
    requires forall x :: 0 <= x < |m| && x != i && x != j ==> b[x] == m[x]
    requires forall x :: 0 <= x < |m| && m[x].dirty ==> m[x].dev == DISKDEV
    ensures Unpins(a, b, dst)
  {
    forall x | 0 <= x < |a| ensures UnpinsAt(a[x], b[x], dst) {
      assert SameDirty(a[x], m[x]);
      if x < j { assert m[x].dirty ==> !m[j].Holds(m[x].dev, m[x].blockno); }
      if j < x { assert !m[x].Holds(m[j].dev, m[j].blockno); }
    }
  }

  ghost function PinIndex(bufs: seq<Buf>, bn: nat): (i: nat)
    requires PinnedAt(bufs, bn)
    ensures i < |bufs| && bufs[i].dirty && bufs[i].blockno == bn
  {
    var i :| 0 <= i < |bufs| && bufs[i].dirty && bufs[i].Holds(DISKDEV, bn);
    i
  }

  class Log {
    const bc: BufferCache
    var g: Geometry            // log.start, log.size
    var outstanding: int
    var committing: bool
    var n: int                 // log.lh.n
    var block: seq<nat>        // log.lh.block[LOGSIZE]

    constructor (bc: BufferCache, g: Geometry)
      ensures this.bc == bc && this.g == g && outstanding == 0 && !committing && n == 0 && |block| == LOGSIZE
    {
      this.bc := bc;
      this.g := g;
      outstanding, committing, n := 0, false, 0;
      block := seq(LOGSIZE, _ => 0);
    }

    // The blocks of the current transaction.
    function Homes(): seq<nat>
      requires n <= |block|
      reads this
    {
      if n <= 0 then [] else block[..n]
    }

    ghost predicate Valid()
      reads this, bc
    {
      && bc.Valid() && |block| == LOGSIZE && n <= LOGSIZE
      && g.Fits(bc.content)
      && LogSpec.Homes(g, |bc.content|, Homes())
      && LogCurrent(g, bc.disk, bc.content)
      && Pins(bc.bufs, Homes(), 0)
    }

    // Two breads in a row: both buffers are held, with the latest contents of their blocks. They
    // succeed when nothing is held and a buffer is left for each of them.
    method ReadPair(first: nat, second: nat) returns (ok: bool, i: nat, j: nat)
      requires bc.Valid() && first != second && first < |bc.content| && second < |bc.content|
      modifies bc`bufs, bc`disk, bc`writes
      ensures bc.disk == old(bc.disk) && bc.writes == old(bc.writes)
      ensures ok ==> bc.Valid() && i != j && i < NBUF && j < NBUF && Held(i, first) && Held(j, second)
      ensures ok ==> Took(old(bc.bufs), bc.bufs, i, j)
      ensures old(BothReadable(bc.bufs, second)) ==> ok
      ensures old(Stuck(bc.bufs, first)) ==> !ok
    {
      i, j, ok := 0, 0, false;
      var a := bc.Bread(DISKDEV, first);
      if !a.Read? { return; }
      SecondReadable(old(bc.bufs), bc.bufs, a.b, first, second);
      var b := bc.Bread(DISKDEV, second);
      if !b.Read? { return; }
      i, j, ok := a.b, b.b, true;
    }

    // Buffer i is held and has the latest content of block bn.
    ghost predicate Held(i: nat, bn: nat)
      reads bc
    {
      && i < |bc.bufs| && bn < |bc.content|
      && bc.bufs[i] == Buf(DISKDEV, bn, true, true, bc.bufs[i].dirty, bc.content[bn])
    }

    // memmove, bwrite the destination, brelse both.
    method CopyHeld(i: nat, src: nat, j: nat, dst: nat)
      requires bc.Valid() && i != j && i < NBUF && j < NBUF && src != dst && Held(i, src) && Held(j, dst)
      modifies bc
      ensures bc.Valid()
      ensures bc.content == old(bc.content)[dst := old(bc.content)[src]]
      ensures bc.disk == old(bc.disk)[dst := old(bc.content)[src]]
      ensures bc.writes == old(bc.writes) + [Write(dst, old(bc.content)[src])]
      ensures bc.bufs == old(bc.bufs)[i := old(bc.bufs[i]).(busy := false)][j := Buf(DISKDEV, dst, false, true, false,
              old(bc.content)[src])]
    {
      bc.Store(j, bc.bufs[i].data);
      var ok := bc.Bwrite(j);
      var _ := bc.Brelse(i);
      var _ := bc.Brelse(j);
    }

    // bread source and destination, copy the block, bwrite the destination, brelse both.
    method CopyBlock(src: nat, dst: nat, dstFirst: bool) returns (done: bool)
      requires bc.Valid() && src != dst && src < |bc.content| && dst < |bc.content|
      modifies bc
      ensures !done ==> bc.disk == old(bc.disk) && bc.writes == old(bc.writes)
      ensures done ==>
                && bc.Valid()
                && bc.content == old(bc.content)[dst := old(bc.content)[src]]
                && bc.disk == old(bc.disk)[dst := old(bc.content)[src]]
                && bc.writes == old(bc.writes) + [Write(dst, old(bc.content)[src])]
                && Unpins(old(bc.bufs), bc.bufs, dst)
      ensures var second := if dstFirst then src else dst;
              old(BothReadable(bc.bufs, second)) ==> done
      ensures old(Stuck(bc.bufs, if dstFirst then dst else src)) ==> !done
    {
      var i, j;
      if dstFirst {
        done, j, i := ReadPair(dst, src);
      } else {
        done, i, j := ReadPair(src, dst);
      }
      if done {
        ghost var taken := bc.bufs;
        CopyHeld(i, src, j, dst);
        CopyUnpins(old(bc.bufs), taken, bc.bufs, i, j, dst);
      }
    }

    // write_head: put count and entries into the header block and write it.
    method WriteHead() returns (done: bool)
      requires bc.Valid() && n <= |block| && Entries(Homes()) && g.start < |bc.content|
      modifies bc
      ensures !done ==> bc.disk == old(bc.disk) && bc.writes == old(bc.writes)
      ensures done ==>
                && bc.Valid()
                && var h := PutHeader(old(bc.content)[g.start], Homes());
                   && bc.content == old(bc.content)[g.start := h]
                   && bc.disk == old(bc.disk)[g.start := h]
                   && bc.writes == old(bc.writes) + [Write(g.start, h)]
      ensures done ==> Unpins(old(bc.bufs), bc.bufs, g.start)
      ensures old(Quiet(bc.bufs)) ==> done
    {
      var r := bc.Bread(DISKDEV, g.start);
      if !r.Read? { return false; }
      ghost var taken := bc.bufs;
      var hb := SetWord(bc.bufs[r.b].data, 0, |Homes()|);
      for i := 0 to |Homes()|
        invariant hb == PutEntries(SetWord(bc.bufs[r.b].data, 0, |Homes()|), Homes()[..i])
      {
        hb := SetWord(hb, 1 + i, Homes()[i]);
        assert Homes()[..i + 1][..i] == Homes()[..i];
      }
      assert Homes()[..|Homes()|] == Homes();
      done := PublishHeld(r.b, g.start, hb);
      CopyUnpins(old(bc.bufs), taken, bc.bufs, r.b, r.b, g.start);
    }

    // Overwrite a held buffer, bwrite and brelse it.
    method PublishHeld(i: nat, bn: nat, data: Block) returns (done: bool)
      requires bc.Valid() && i < NBUF && Held(i, bn)
      modifies bc
      ensures done && bc.Valid()
      ensures bc.content == old(bc.content)[bn := data]
      ensures bc.disk == old(bc.disk)[bn := data]
      ensures bc.writes == old(bc.writes) + [Write(bn, data)]
      ensures bc.bufs == old(bc.bufs)[i := Buf(DISKDEV, bn, false, true, false, data)]
    {
      bc.Store(i, data);
      done := bc.Bwrite(i);
      var _ := bc.Brelse(i);
    }

    // Since disk and write history were d0 and w0, exactly ws[..k] was written.
    ghost predicate Wrote(d0: Disk, w0: seq<Write>, ws: seq<Write>, k: nat)
      reads bc
    {
      InRange(d0, ws) && k <= |ws| && bc.writes == w0 + ws[..k] && bc.disk == Apply(d0, ws, k)
    }

    // The same, with everything in order to go on: the contents were c0 before.
    ghost predicate Issued(d0: Disk, c0: Disk, w0: seq<Write>, ws: seq<Write>, k: nat)
      reads bc
    {
      bc.Valid() && Wrote(d0, w0, ws, k) && |c0| == |d0| && bc.content == Apply(c0, ws, k)
    }

    // Copy a block when that is the k-th write.
    method CopyNext(src: nat, dst: nat, dstFirst: bool, ghost d0: Disk, ghost c0: Disk, ghost w0: seq<Write>,
        ghost ws: seq<Write>, ghost k: nat)
        returns (done: bool)
      requires Issued(d0, c0, w0, ws, k) && k < |ws|
      requires src != dst && src < |bc.content| && dst < |bc.content| && ws[k] == Write(dst, bc.content[src])
      modifies bc
      ensures done ==> Issued(d0, c0, w0, ws, k + 1) && bc.content == old(bc.content)[dst := ws[k].data]
      ensures !done ==> Wrote(d0, w0, ws, k)
      ensures done ==> Unpins(old(bc.bufs), bc.bufs, dst)
      ensures var second := if dstFirst then src else dst;
              old(BothReadable(bc.bufs, second)) ==> done
      ensures old(Stuck(bc.bufs, if dstFirst then dst else src)) ==> !done
    {
      done := CopyBlock(src, dst, dstFirst);
      assert (w0 + ws[..k]) + [ws[k]] == w0 + ws[..k + 1];
    }

    // write_head when that is the k-th write.
    method HeadNext(ghost d0: Disk, ghost c0: Disk, ghost w0: seq<Write>, ghost ws: seq<Write>, ghost k: nat)
        returns (done: bool, ghost k': nat)
      requires n <= |block| && Entries(Homes()) && Issued(d0, c0, w0, ws, k)
      requires g.start < |bc.content| && k < |ws| && ws[k] == Write(g.start, PutHeader(bc.content[g.start], Homes()))
      modifies bc
      ensures k' == if done then k + 1 else k
      ensures done ==> Issued(d0, c0, w0, ws, k') == true
      ensures !done ==> Wrote(d0, w0, ws, k') == true
      ensures done ==> Unpins(old(bc.bufs), bc.bufs, g.start)
      ensures old(Quiet(bc.bufs)) ==> done
    {
      done := WriteHead();
      k' := if done then k + 1 else k;
      assert (w0 + ws[..k]) + [ws[k]] == w0 + ws[..k + 1];
    }

    // The first |Homes()| writes copy the cached blocks to the log.
    ghost predicate LogsFirst(c0: Disk, ws: seq<Write>)
      reads this
    {
      && n <= |block| && g.Fits(c0) && LogSpec.Homes(g, |c0|, Homes()) && |Homes()| <= |ws|
      && LogsHomes(g, c0, Homes(), ws)
    }

    // The next |Homes()| writes from k0 on copy the log blocks of contents c home.
    ghost predicate InstallsNext(c: Disk, ws: seq<Write>, k0: nat)
      reads this
    {
      n <= |block| && InstallsFrom(g, Homes(), c, ws, k0)
    }

    // One turn of write_log's loop: block bn, the tail-th of the homes, goes to the log.
    method LogOne(tail: nat, bn: nat, ghost homes: seq<nat>, ghost d0: Disk, ghost c0: Disk, ghost w0: seq<Write>,
        ghost ws: seq<Write>)
        returns (done: bool, tail': nat)
      requires g.Fits(c0) && LogSpec.Homes(g, |c0|, homes) && LogsHomes(g, c0, homes, ws)
      requires tail < |homes| && bn == homes[tail] && Issued(d0, c0, w0, ws, tail) && Pins(bc.bufs, homes, 0)
      modifies bc
      ensures tail' == tail + 1
      ensures done ==> Issued(d0, c0, w0, ws, tail') == true && Pins(bc.bufs, homes, 0) == true
      ensures !done ==> Wrote(d0, w0, ws, tail) == true
      ensures old(Quiet(bc.bufs)) ==> done && Quiet(bc.bufs) == true
      ensures !old(SomeClean(bc.bufs)) ==> !done
    {
      tail' := tail + 1;
      ghost var before := bc.bufs;
      NextLogged(g, c0, homes, ws, tail);
      BeforeCopy(before, homes, tail, g.start + tail + 1);
      done := CopyNext(bn, g.start + tail + 1, true, d0, c0, w0, ws, tail);
      if done { PinsLogged(before, bc.bufs, homes, g.start + tail + 1); }
    }

    // write_log: copy each block of the transaction from the cache to the log.
    method WriteLog(ghost d0: Disk, ghost c0: Disk, ghost w0: seq<Write>, ghost ws: seq<Write>)
        returns (done: bool, ghost k: nat)
      requires Issued(d0, c0, w0, ws, 0) && LogsFirst(c0, ws) && Pins(bc.bufs, Homes(), 0)
      modifies bc
      ensures Wrote(d0, w0, ws, k) == true
      ensures done ==> k == |Homes()| && Issued(d0, c0, w0, ws, k) == true && Pins(bc.bufs, Homes(), 0) == true
      ensures old(Quiet(bc.bufs)) ==> done && Quiet(bc.bufs) == true
      ensures n > 0 && !old(SomeClean(bc.bufs)) ==> !done
    {
      var tail: nat := 0;
      k := 0;
      while tail < n
        invariant tail <= |Homes()| && k == tail
        invariant Issued(d0, c0, w0, ws, tail) == true
        invariant Pins(bc.bufs, Homes(), 0) == true
        invariant old(Quiet(bc.bufs)) ==> Quiet(bc.bufs) == true
        invariant !old(SomeClean(bc.bufs)) ==> tail == 0 && !SomeClean(bc.bufs)
      {
        done, tail := LogOne(tail, block[tail], Homes(), d0, c0, w0, ws);
        if !done { return; }
        k := tail;
      }
      done := true;
    }

    // One turn of install_trans's loop: log block tail goes home to block bn.
    method InstallOne(tail: nat, bn: nat, ghost homes: seq<nat>, ghost d0: Disk, ghost c0: Disk, ghost w0: seq<Write>,
        ghost ws: seq<Write>, ghost k: nat)
        returns (done: bool, tail': nat, ghost k': nat)
      requires g.Fits(bc.content) && LogSpec.Homes(g, |bc.content|, homes)
      requires tail < |homes| && bn == homes[tail] && Issued(d0, c0, w0, ws, k) && k < |ws|
      requires ws[k] == Write(bn, LogBlock(g, bc.content, tail)) && ToInstall(bc.bufs, homes, tail)
      modifies bc
      ensures tail' == tail + 1 && k' == k + 1
      ensures done ==> Issued(d0, c0, w0, ws, k') == true && ToInstall(bc.bufs, homes, tail') == true
      ensures done ==> bc.content == old(bc.content)[bn := ws[k].data]
      ensures !done ==> Wrote(d0, w0, ws, k) == true
      ensures old(Quiet(bc.bufs)) ==> done && Quiet(bc.bufs) == true
    {
      tail', k' := tail + 1, k + 1;
      ghost var before := bc.bufs;
      BeforeInstall(before, homes, tail);
      done := CopyNext(g.start + tail + 1, bn, false, d0, c0, w0, ws, k);
      if done { AfterInstall(before, bc.bufs, homes, tail); }
    }

    // install_trans: copy each block of the transaction from the log to its home location.
    method InstallTrans(ghost d0: Disk, ghost c0: Disk, ghost w0: seq<Write>, ghost ws: seq<Write>, ghost k0: nat)
        returns (done: bool, ghost k: nat)
      requires Issued(d0, c0, w0, ws, k0) && InstallsNext(bc.content, ws, k0)
      requires ToInstall(bc.bufs, Homes(), 0) == true
      modifies bc
      ensures Wrote(d0, w0, ws, k) == true
      ensures done ==>
              k == k0 + |Homes()| && Issued(d0, c0, w0, ws, k) == true &&
              bc.content[g.start] == old(bc.content)[g.start]
      ensures done ==> AllClean(bc.bufs)
      ensures old(Quiet(bc.bufs)) ==> done && Idle(bc.bufs)
    {
      k := k0;
      var tail: nat := 0;
      while tail < n
        invariant tail <= |Homes()| && k == k0 + tail
        invariant Issued(d0, c0, w0, ws, k) == true
        invariant |bc.content| == old(|bc.content|) && LogCurrent(g, bc.content, old(bc.content))
        invariant ToInstall(bc.bufs, Homes(), tail) == true
        invariant old(Quiet(bc.bufs)) ==> Quiet(bc.bufs) == true
      {
        assert Nth(ws, k0, tail) == Write(Homes()[tail], LogBlock(g, old(bc.content), tail));
        ghost var next;
        done, tail, next := InstallOne(tail, block[tail], Homes(), d0, c0, w0, ws, k);
        if !done { return; }
        k := next;
      }
      done := true;
    }

    // install_trans, then write_head with an empty header: the second half of commit, and all of
    // recovery after read_head.
    method InstallAndErase(ghost d0: Disk, ghost c0: Disk, ghost w0: seq<Write>, ghost ws: seq<Write>, ghost k0: nat)
        returns (done: bool, ghost k: nat)
      requires Issued(d0, c0, w0, ws, k0) == true
      requires InstallsNext(bc.content, ws, k0) == true
      requires k0 + |Homes()| + 1 == |ws| && ws[|ws| - 1] == Write(g.start, PutHeader(bc.content[g.start], []))
      requires ToInstall(bc.bufs, Homes(), 0) == true
      modifies this`n, bc
      ensures Wrote(d0, w0, ws, k) == true
      ensures done ==> k == |ws| && n == 0 && Issued(d0, c0, w0, ws, k) == true && AllClean(bc.bufs) == true
      ensures old(Quiet(bc.bufs)) ==> done
    {
      done, k := InstallTrans(d0, c0, w0, ws, k0);
      if !done { return; }
      n := 0;
      ghost var before := bc.bufs;
      assert !before[0].dirty;
      done, k := HeadNext(d0, c0, w0, ws, k);
      if done { UnpinsClean(before, bc.bufs, g.start); }
    }

    // write_log, then write_head: the first half of commit.
    method LogAndCommit(ghost d0: Disk, ghost c0: Disk, ghost w0: seq<Write>, ghost ws: seq<Write>)
        returns (done: bool, ghost k: nat)
      requires Issued(d0, c0, w0, ws, 0) == true
      requires LogsFirst(c0, ws) == true
      requires |Homes()| < |ws| && ws[|Homes()|] == Write(g.start, PutHeader(c0[g.start], Homes()))
      requires Pins(bc.bufs, Homes(), 0) == true
      modifies bc
      ensures Wrote(d0, w0, ws, k) == true
      ensures done ==> k == |Homes()| + 1 && Issued(d0, c0, w0, ws, k) == true && Pins(bc.bufs, Homes(), 0) == true
      ensures old(Quiet(bc.bufs)) ==> done && Quiet(bc.bufs) == true
      ensures n > 0 && !old(SomeClean(bc.bufs)) ==> !done
    {
      done, k := WriteLog(d0, c0, w0, ws);
      if !done { return; }
      NotYetLogged(g, c0, Homes(), ws, k, g.start);
      ghost var before := bc.bufs;
      done, k := HeadNext(d0, c0, w0, ws, k);
      if done {
        PinsLogged(before, bc.bufs, Homes(), g.start);
      }
    }

    // With an empty log and nothing pinned, all is in order again.
    lemma EmptyValid(d0: Disk, c0: Disk, w0: seq<Write>, ws: seq<Write>, k: nat)
      requires Issued(d0, c0, w0, ws, k) && n == 0 && |block| == LOGSIZE && AllClean(bc.bufs) && g.Fits(c0)
      requires LogCurrent(g, d0, c0)
      ensures Valid() == true
    {
      forall b | g.start <= b < g.start + g.size ensures bc.content[b] == bc.disk[b] { ApplySame(c0, d0, ws, k, b); }
    }

    // The first half of commit is done.
    lemma Halfway(d0: Disk, c0: Disk, w0: seq<Write>, h: Block, e: Block, ws: seq<Write>, k: nat)
      requires Issued(d0, c0, w0, ws, k) && LogsFirst(c0, ws) && IsCommit(g, c0, Homes(), h, e, ws)
      requires k == |Homes()| + 1 && e == PutHeader(h, []) && Pins(bc.bufs, Homes(), 0)
      ensures InstallsNext(bc.content, ws, k) == true
      ensures k + |Homes()| + 1 == |ws| && ws[|ws| - 1] == Write(g.start, PutHeader(bc.content[g.start], []))
      ensures ToInstall(bc.bufs, Homes(), 0) == true
    {
      CommitParts(g, c0, Homes(), h, e, ws, k, bc.content);
    }

    // Both halves of commit.
    method CommitTransaction(ghost d0: Disk, ghost c0: Disk, ghost w0: seq<Write>, ghost h: Block, ghost e: Block,
        ghost ws: seq<Write>)
        returns (done: bool, ghost k: nat)
      requires Issued(d0, c0, w0, ws, 0) == true
      requires LogsFirst(c0, ws) == true
      requires IsCommit(g, c0, Homes(), h, e, ws) == true
      requires h == PutHeader(c0[g.start], Homes()) && e == PutHeader(h, []) && Pins(bc.bufs, Homes(), 0) == true
      requires |block| == LOGSIZE && LogCurrent(g, d0, c0) == true
      modifies this`n, bc
      ensures Wrote(d0, w0, ws, k) == true
      ensures done ==> k == |ws| && n == 0 && Valid() == true && AllClean(bc.bufs) == true
      ensures done ==> InRange(c0, ws) && bc.content == Apply(c0, ws, k)
      ensures old(Quiet(bc.bufs)) ==> done
      ensures old(n) > 0 && !old(SomeClean(bc.bufs)) ==> !done
    {
      done, k := LogAndCommit(d0, c0, w0, ws);
      if !done { return; }
      Halfway(d0, c0, w0, h, e, ws, k);
      done, k := InstallAndErase(d0, c0, w0, ws, k);
      if done { EmptyValid(d0, c0, w0, ws, k); }
    }

    // A buffer is clean exactly if the transaction has fewer blocks than there are buffers.
    lemma HasRoom()
      requires Valid()
      ensures SomeClean(bc.bufs) <==> |Homes()| < NBUF
    {
      RoomIff(bc.bufs, Homes(), g.start);
    }

    // A commit is about to start.
    lemma Ready(h: Block, e: Block, ws: seq<Write>)
      requires Valid() && InRange(bc.content, ws) && IsCommit(g, bc.content, Homes(), h, e, ws)
      ensures Issued(bc.disk, bc.content, bc.writes, ws, 0) == true
      ensures LogsFirst(bc.content, ws) == true
      ensures SomeClean(bc.bufs) <==> |Homes()| < NBUF
    {
      HasRoom();
      assert ws[..0] == [];
    }

    // commit() of a transaction that has blocks.
    method CommitBlocks(ghost h: Block, ghost e: Block, ghost ws: seq<Write>) returns (done: bool, ghost k: nat)
      requires Valid() && n > 0 && InRange(bc.content, ws) && IsCommit(g, bc.content, Homes(), h, e, ws)
      requires h == PutHeader(bc.content[g.start], Homes()) && e == PutHeader(h, [])
      modifies this`n, bc
      ensures Wrote(old(bc.disk), old(bc.writes), ws, k) == true
      ensures done ==> k == |ws| && n == 0 && Valid() == true && AllClean(bc.bufs) == true
      ensures done ==> bc.content == Apply(old(bc.content), ws, |ws|)
      ensures old(Idle(bc.bufs)) ==> (done <==> |old(Homes())| < NBUF)
    {
      Ready(h, e, ws);
      done, k := CommitTransaction(bc.disk, bc.content, bc.writes, h, e, ws);
    }

    // commit(): the disk goes through ws, the writes of CommitWrites, in that order. When no buffer is
    // held it completes exactly if the transaction leaves a buffer to copy through.
    method Commit(ghost ws: seq<Write>) returns (done: bool, ghost k: nat)
      requires Valid() && ws == Writes()
      modifies this`n, bc
      ensures Wrote(old(bc.disk), old(bc.writes), ws, k) == true
      ensures done ==> k == |ws| && n <= 0 && Valid() == true && AllClean(bc.bufs) == true
      ensures done && old(n) >= 0 ==> n == 0
      ensures done ==> LogProtocol.SameHome(g, old(bc.content), bc.content) == true
      ensures old(Idle(bc.bufs)) ==> (done <==> |old(Homes())| < NBUF)
    {
      if n <= 0 {
        assert ws[..0] == [];
        return true, 0;
      }
      ghost var h := PutHeader(bc.content[g.start], Homes());
      IsCommitWrites(g, bc.content, Homes(), h, PutHeader(h, []), ws);
      CommitKeepsHome(g, bc.content, Homes(), h, PutHeader(h, []), ws);
      done, k := CommitBlocks(h, PutHeader(h, []), ws);
    }

    // What a commit is to write now.
    ghost function Writes(): seq<Write>
      requires Valid()
      reads this, bc
    { CommitWrites(g, bc.disk[g.start], Homes(), LogProtocol.Vals(bc.content, Homes())) }

    // Copy count and entries out of a header block.
    method Load(hb: Block)
      requires |block| == LOGSIZE && HeaderCount(hb) <= LOGSIZE
      modifies this`n, this`block
      ensures |block| == LOGSIZE && n == HeaderCount(hb) && Homes() == HeaderEntries(hb)
    {
      n := HeaderCount(hb);
      var i := 0;
      while i < n
        modifies this`block
        invariant 0 <= i && (i <= n || i == 0) && |block| == LOGSIZE
        invariant forall j :: 0 <= j < i ==> block[j] == HeaderEntry(hb, j)
      {
        block := block[i := HeaderEntry(hb, i)];
        i := i + 1;
      }
    }

    // read_head: the in-memory header becomes the one on disk.
    method ReadHead() returns (done: bool)
      requires bc.Valid() && |block| == LOGSIZE && g.start < |bc.content| && HeaderCount(bc.content[g.start]) <= LOGSIZE
      modifies this`n, this`block, bc`bufs, bc`next, bc`prev, bc`order, bc`disk, bc`writes
      ensures bc.disk == old(bc.disk) && bc.writes == old(bc.writes)
      ensures done ==>
                && bc.Valid() && |block| == LOGSIZE && n == HeaderCount(bc.content[g.start])
                && Homes() == HeaderEntries(bc.content[g.start])
      ensures old(AllClean(bc.bufs)) && done ==> AllClean(bc.bufs)
      ensures old(Quiet(bc.bufs)) ==> done && Idle(bc.bufs)
    {
      var r := bc.Bread(DISKDEV, g.start);
      if !r.Read? { return false; }
      Load(bc.bufs[r.b].data);
      var _ := bc.Brelse(r.b);
      done := true;
    }

    // recover_from_log(): the disk goes through the writes of RebootWrites, in that order.
    method Recover() returns (done: bool, ghost k: nat)
      requires bc.Valid() && |block| == LOGSIZE && bc.content == bc.disk && LogOk(g, bc.disk) && AllClean(bc.bufs)
      modifies this`n, this`block, bc
      ensures Wrote(old(bc.disk), old(bc.writes), RebootWrites(g, old(bc.disk)), k)
      ensures done ==>
                && k == |RebootWrites(g, old(bc.disk))| && bc.disk == LogSpec.Recover(g, old(bc.disk))
                && n == 0 && Valid() && bc.content == bc.disk
      ensures old(Idle(bc.bufs)) ==> done
    {
      ghost var d0, w0 := bc.disk, bc.writes;
      ghost var ws := RebootWrites(g, d0);
      k := 0;
      assert ws[..0] == [];
      assert !bc.bufs[0].dirty;
      done := ReadHead();
      if !done { return; }
      assert !bc.bufs[0].dirty;
      RebootParts(g, d0, Homes(), ws);
      done, k := InstallAndErase(d0, d0, w0, ws, 0);
    }

    // The log as LogProtocol has it: s agrees on everything but the log area of memory.
    ghost predicate Shows(s: LogProtocol.State)
      reads this, bc
    {
      && Valid() && n >= 0 && s.mode.Up? && s.disk == bc.disk && LogProtocol.SameHome(g, s.mem, bc.content)
      && s.homes == Homes() && s.outstanding == outstanding && s.committing == committing
    }

    // initlog after a crash: the protocol's recovery, up to its k-th block write, and then the machine
    // is up. It gets to the end if no buffer is held.
    method InitLog(ghost s: LogProtocol.State) returns (done: bool, ghost k: nat)
      requires LogProtocol.JustCrashed(g, s) && bc.Valid() && |block| == LOGSIZE
      requires bc.content == bc.disk == s.disk && AllClean(bc.bufs)
      modifies this`outstanding, this`committing, this`n, this`block, bc
      ensures k <= |RebootWrites(g, s.disk)| && bc.disk == LogProtocol.InRecovery(g, s, k).disk
      ensures done ==>
              k == |RebootWrites(g, s.disk)| &&
              Shows(LogProtocol.InRecovery(g, s, k).(mode := LogProtocol.Up, mem := bc.disk)) == true
      ensures old(Idle(bc.bufs)) ==> done
    {
      outstanding, committing := 0, false;
      done, k := Recover();
    }

    // One pass of begin_op by process p: the protocol's step where that is enabled. False means that
    // it is not, and p sleeps until a commit or the end of an operation.
    method BeginOp(ghost s: LogProtocol.State, ghost p: nat) returns (admitted: bool)
      requires Shows(s) && LogProtocol.Running(s, p) && s.procs[p].Idle?
      modifies this`outstanding
      ensures admitted <==> LogProtocol.Enabled(g, s, LogProtocol.Begin(p))
      ensures Shows(if admitted then LogProtocol.DoBegin(s, p) else s)
    {
      if committing { return false; }
      if n + (outstanding + 1) * MAXOPBLOCKS > LOGSIZE { return false; }
      outstanding := outstanding + 1;
      return true;
    }

    // end_op up to its commit; ok is false where it panics.
    method LeaveOp(ghost s: LogProtocol.State, ghost p: nat) returns (ok: bool, doCommit: bool)
      requires Shows(s) && LogProtocol.Running(s, p) && s.procs[p].InOp?
      modifies this`outstanding, this`committing
      ensures ok <==> LogProtocol.Enabled(g, s, LogProtocol.End(p))
      ensures ok ==> Shows(LogProtocol.DoEnd(g, s, p)) && (doCommit <==> LogProtocol.DoEnd(g, s, p).procs[p].Committer?)
      ensures ok ==> committing == (old(committing) || doCommit)
      ensures !ok ==> !doCommit
    {
      outstanding := outstanding - 1;
      if committing { return false, false; }
      ok, doCommit := true, false;
      if outstanding == 0 {
        doCommit := true;
        committing := true;
      }
    }

    // end_op of process p, with the commit if it is the last out, up to its k-th block write: to the
    // end unless it stops for a buffer.
    method EndOp(ghost s: LogProtocol.State, ghost p: nat) returns (ok: bool, done: bool, ghost k: nat)
      requires Shows(s) && LogProtocol.Running(s, p) && s.procs[p].InOp?
      modifies this`outstanding, this`committing, this`n, bc
      ensures ok <==> LogProtocol.Enabled(g, s, LogProtocol.End(p))
      ensures ok && s.outstanding != 1 ==> done && Shows(LogProtocol.DoEnd(g, s, p)) == true && bc.bufs == old(bc.bufs)
      ensures ok && s.outstanding == 1 ==> CommitDid(s, p, k, done) == true
      ensures ok && s.outstanding == 1 && old(Idle(bc.bufs)) ==> (done <==> |old(Homes())| < NBUF)
    {
      var doCommit;
      k, done := 0, true;
      ok, doCommit := LeaveOp(s, p);
      if doCommit { done, k := CommitLast(s, p); }
    }

    // The last end_op out of s has done k block writes, and is through if done.
    ghost predicate CommitDid(s: LogProtocol.State, p: nat, k: nat, done: bool)
      reads this, bc
    {
      && Committable(g, s, p) && k <= |LogProtocol.WritesOf(g, s)|
      && var t := LogProtocol.InCommit(g, s, p, k);
         bc.disk == t.disk && (done ==> k == |LogProtocol.WritesOf(g, s)| && Shows(LogProtocol.DoCommitDone(t, p)))
    }

    // commit() and, when it is through, the end of end_op.
    method CommitLast(ghost s: LogProtocol.State, ghost p: nat) returns (done: bool, ghost k: nat)
      requires LogProtocol.Running(s, p) && g.start < |s.disk| && s.outstanding == 1 &&
               Shows(LogProtocol.DoEnd(g, s, p)) && committing
      modifies this`committing, this`n, bc
      ensures CommitDid(s, p, k, done) == true
      ensures old(Idle(bc.bufs)) ==> (done <==> |old(Homes())| < NBUF)
    {
      ghost var d0, c0, w0, ws := bc.disk, bc.content, bc.writes, Writes();
      CommitReady(g, s, p, c0, ws);
      done, k := Commit(ws);
      if done { committing := false; }
      DidCommit(s, p, k, done, d0, c0, w0, ws);
    }

    lemma DidCommit(s: LogProtocol.State, p: nat, k: nat, done: bool, d0: Disk, c0: Disk, w0: seq<Write>,
        ws: seq<Write>)
      requires Committable(g, s, p) == true
      requires ws == LogProtocol.WritesOf(g, s) && d0 == s.disk
      requires Wrote(d0, w0, ws, k) == true
      requires s.outstanding == 1 && s.mode.Up? && LogProtocol.SameHome(g, s.mem, c0) == true
      requires done ==> Valid() == true
      requires done ==> n == 0 && !committing && outstanding == 0 && k == |ws|
      requires done ==> LogProtocol.SameHome(g, c0, bc.content) == true
      ensures CommitDid(s, p, k, done) == true
    {}

    // Enter a block in the header, absorbing a repeated one.
    method Record(bn: nat)
      requires 0 <= n < LOGSIZE == |block|
      modifies this`n, this`block
      ensures |block| == LOGSIZE && 0 < n <= LOGSIZE && Homes() == LogProtocol.Absorb(old(Homes()), bn)
    {
      var i := 0;
      while i < n
        invariant 0 <= i <= n
        invariant bn !in block[..i]
      {
        if block[i] == bn { break; }
        i := i + 1;
      }
      ghost var homes := Homes();
      block := block[i := bn];
      if i == n { n := n + 1; }
      assert Homes() == LogProtocol.Absorb(homes, bn);
    }

    // The body of log_write of a held buffer.
    method RecordAndPin(b: nat)
      requires Valid() && 0 <= n < LOGSIZE && n < g.size - 1
      requires b < NBUF && bc.bufs[b].busy && bc.bufs[b].valid && !g.InLog(bc.bufs[b].blockno)
      modifies this`n, this`block, bc`bufs, bc`content
      ensures Valid() == true && n >= 0
      ensures Homes() == LogProtocol.Absorb(old(Homes()), old(bc.bufs[b].blockno))
      ensures old(bc.bufs[b].blockno) < old(|bc.content|)
      ensures bc.content == old(bc.content)[old(bc.bufs[b].blockno) := old(bc.bufs[b].data)]
      ensures bc.bufs == old(bc.bufs)[b := old(bc.bufs[b]).(dirty := true)]
    {
      ghost var bn, data := bc.bufs[b].blockno, bc.bufs[b].data;
      assert bn < |bc.content| && bc.bufs[b].dev == DISKDEV;
      ghost var homes, c := LogProtocol.Absorb(Homes(), bn), bc.content[bn := data];
      ghost var bufs := bc.bufs[b := bc.bufs[b].(dirty := true)];
      HomesAbsorb(g, |bc.content|, Homes(), bn);
      CurrentElsewhere(g, bc.disk, bc.content, bn, data);
      PinsAbsorb(bc.bufs, bufs, Homes(), b);
      Record(bc.bufs[b].blockno);
      bc.Pin(b);
      AllInOrder(homes, bufs, c);
    }

    // What Valid says, part by part.
    lemma AllInOrder(homes: seq<nat>, bufs: seq<Buf>, c: Disk)
      requires bc.Valid() == true
      requires |block| == LOGSIZE && n <= LOGSIZE && homes == Homes() && bufs == bc.bufs && c == bc.content && g.Fits(c)
      requires LogSpec.Homes(g, |c|, homes) == true
      requires LogCurrent(g, bc.disk, c) == true
      requires Pins(bufs, homes, 0) == true
      ensures Valid() == true
    {}

    // log_write of a held buffer by process p: the protocol's two steps, or a panic where the first
    // is not enabled.
    method LogWrite(b: nat, ghost s: LogProtocol.State, ghost p: nat) returns (ok: bool)
      requires Shows(s) && b < NBUF && bc.bufs[b].busy && bc.bufs[b].valid && !g.InLog(bc.bufs[b].blockno)
      requires LogProtocol.Running(s, p) && s.procs[p].InOp?
      modifies this`n, this`block, bc`bufs, bc`content
      ensures ok <==> LogProtocol.Enabled(g, s, LogProtocol.Check(p, old(bc.bufs[b].blockno), old(bc.bufs[b].data)))
      ensures !ok ==> Shows(s) == true && bc.bufs == old(bc.bufs)
      ensures ok ==> old(bc.bufs[b].blockno) < |s.mem|
      ensures ok ==> Shows(Logged(s, p, old(bc.bufs[b].blockno), old(bc.bufs[b].data))) == true
      ensures ok ==> bc.bufs == old(bc.bufs)[b := old(bc.bufs[b]).(dirty := true)]
      ensures ok ==> old(bc.bufs[b].blockno) < |old(bc.content)|
      ensures ok ==> bc.content == old(bc.content)[old(bc.bufs[b].blockno) := old(bc.bufs[b].data)]
    {
      assert bc.bufs[b].blockno < |bc.content|;
      if n >= LOGSIZE || n >= g.size - 1 { return false; }
      if outstanding < 1 { return false; }
      RecordAndPin(b);
      return true;
    }
  }

  function Logged(s: LogProtocol.State, p: nat, bn: nat, v: Block): LogProtocol.State
    requires LogProtocol.Running(s, p) && s.procs[p].InOp? && bn < |s.mem|
  {
    LogProtocol.DoRecord(LogProtocol.DoCheck(s, p, bn, v), p)
  }

  predicate Committable(g: Geometry, s: LogProtocol.State, p: nat) {
    && LogProtocol.Running(s, p) && Entries(s.homes) && g.start < |s.disk|
    && (forall i :: 0 <= i < |s.homes| ==> s.homes[i] < |s.mem|)
    && InRange(s.disk, LogProtocol.WritesOf(g, s))
  }

  // The commit of the protocol writes what the commit of the log does.
  lemma CommitReady(g: Geometry, s: LogProtocol.State, p: nat, c: Disk, ws: seq<Write>)
    requires LogProtocol.Running(s, p) && g.Fits(s.disk) && |s.disk| == |c|
    requires LogProtocol.SameHome(g, s.mem, c) && LogSpec.Homes(g, |c|, s.homes)
    requires ws == CommitWrites(g, s.disk[g.start], s.homes, LogProtocol.Vals(c, s.homes))
    ensures Committable(g, s, p) == true && LogProtocol.WritesOf(g, s) == ws
  {
    SameVals(g, s.mem, c, s.homes);
    CommitInRange(g, s.disk, s.homes, LogProtocol.Vals(c, s.homes));
  }

  // A block outside the log does not matter to it.
  lemma CurrentElsewhere(g: Geometry, d: Disk, c: Disk, bn: nat, v: Block)
    requires g.Fits(c) && LogCurrent(g, d, c) && bn < |c| && !g.InLog(bn)
    ensures LogCurrent(g, d, c[bn := v]) == true
  {}

  lemma HomesAbsorb(g: Geometry, size: nat, homes: seq<nat>, bn: nat)
    requires LogSpec.Homes(g, size, homes) && |homes| < LOGSIZE && |homes| < g.size - 1
    requires bn < size < 0x8000_0000 && !g.InLog(bn)
    ensures LogSpec.Homes(g, size, LogProtocol.Absorb(homes, bn)) == true
  {}

  // Home blocks have the same contents in both.
  lemma SameVals(g: Geometry, c: Disk, d: Disk, homes: seq<nat>)
    requires LogProtocol.SameHome(g, c, d) && forall i :: 0 <= i < |homes| ==> homes[i] < |c| && !g.InLog(homes[i])
    ensures LogProtocol.Vals(c, homes) == LogProtocol.Vals(d, homes)
  {}

  // Read back what was logged, block by block.
  lemma RebootParts(g: Geometry, d: Disk, homes: seq<nat>, ws: seq<Write>)
    requires LogOk(g, d) && homes == HeaderEntries(d[g.start]) && ws == RebootWrites(g, d)
    ensures |ws| == |homes| + 1 && ws[|homes|] == Write(g.start, PutHeader(d[g.start], []))
    ensures forall i {:trigger Nth(ws, 0, i)} :: 0 <= i < |homes| ==>
            Nth(ws, 0, i) == Write(homes[i], LogBlock(g, d, i))
  {}

  lemma {:induction false} ApplySame(c: Disk, d: Disk, ws: seq<Write>, k: nat, b: nat)
    requires |c| == |d| && InRange(c, ws) && InRange(d, ws) && k <= |ws| && b < |c| && c[b] == d[b]
    ensures Apply(c, ws, k)[b] == Apply(d, ws, k)[b]
  {
    if k > 0 { ApplySame(c, d, ws, k - 1, b); }
  }

  // The i-th write from position base on.
  function Nth(ws: seq<Write>, base: nat, i: nat): Write
    requires base + i < |ws|
  { ws[base + i] }

  // The first writes of ws are those of write_log.
  ghost predicate LogsHomes(g: Geometry, c0: Disk, homes: seq<nat>, ws: seq<Write>)
  {
    && |homes| <= |ws| && (forall i :: 0 <= i < |homes| ==> homes[i] < |c0|)
    && forall i {:trigger Nth(ws, 0, i)} :: 0 <= i < |homes| ==> Nth(ws, 0, i) == Write(g.start + 1 + i, c0[homes[i]])
  }

  // write_log has not touched a block that is not a log block.
  lemma NotYetLogged(g: Geometry, c0: Disk, homes: seq<nat>, ws: seq<Write>, k: nat, b: nat)
    requires LogsHomes(g, c0, homes, ws) && k <= |homes| && InRange(c0, ws) && b < |c0|
    requires b <= g.start || g.start + |homes| < b
    ensures Apply(c0, ws, k)[b] == c0[b]
  {
    forall t | 0 <= t < k ensures ws[t].bn != b { assert Nth(ws, 0, t).bn == g.start + 1 + t; }
    ApplyBetween(c0, ws, 0, k, b);
  }

  // The next write of write_log copies the block as it is in the cache now.
  lemma NextLogged(g: Geometry, c0: Disk, homes: seq<nat>, ws: seq<Write>, k: nat)
    requires LogsHomes(g, c0, homes, ws) && k < |homes| && InRange(c0, ws) && LogSpec.Homes(g, |c0|, homes)
    ensures ws[k] == Write(g.start + k + 1, Apply(c0, ws, k)[homes[k]])
  {
    NotYetLogged(g, c0, homes, ws, k, homes[k]);
    assert Nth(ws, 0, k) == Write(g.start + 1 + k, c0[homes[k]]);
  }

  // ws is the sequence of writes of a commit of `homes` from contents c0, with header blocks h, e.
  ghost predicate IsCommit(g: Geometry, c0: Disk, homes: seq<nat>, h: Block, e: Block, ws: seq<Write>)
  {
    && LogsHomes(g, c0, homes, ws) && |ws| == 2 * |homes| + 2
    && ws[|homes|] == Write(g.start, h) && ws[|ws| - 1] == Write(g.start, e)
    && forall i {:trigger Nth(ws, |homes| + 1, i)} :: 0 <= i < |homes| ==>
       Nth(ws, |homes| + 1, i) == Write(homes[i], c0[homes[i]])
  }

  lemma IsCommitWrites(g: Geometry, c0: Disk, homes: seq<nat>, h: Block, e: Block, ws: seq<Write>)
    requires g.Fits(c0) && LogSpec.Homes(g, |c0|, homes) && homes != []
    requires ws == CommitWrites(g, c0[g.start], homes, LogProtocol.Vals(c0, homes))
    requires h == PutHeader(c0[g.start], homes) && e == PutHeader(h, [])
    ensures IsCommit(g, c0, homes, h, e, ws) == true && InRange(c0, ws) == true
  {
    var vals := LogProtocol.Vals(c0, homes);
    CommitInRange(g, c0, homes, vals);
    forall i | 0 <= i < |homes|
      ensures Nth(ws, 0, i) == Write(g.start + 1 + i, c0[homes[i]])
      ensures Nth(ws, |homes| + 1, i) == Write(homes[i], c0[homes[i]])
    {
      assert ws[i] == CommitWrite(g, h, e, homes, vals, i);
      assert ws[|homes| + 1 + i] == CommitWrite(g, h, e, homes, vals, |homes| + 1 + i);
    }
  }

  // A commit leaves the contents of every block outside the log.
  lemma CommitKeepsHome(g: Geometry, c0: Disk, homes: seq<nat>, h: Block, e: Block, ws: seq<Write>)
    requires g.Fits(c0) && IsCommit(g, c0, homes, h, e, ws) && InRange(c0, ws) && LogSpec.Homes(g, |c0|, homes)
    ensures LogProtocol.SameHome(g, c0, Apply(c0, ws, |ws|))
  {
    forall b | 0 <= b < |c0| && !g.InLog(b) ensures Apply(c0, ws, |ws|)[b] == c0[b] {
      forall t | 0 <= t < |ws| && ws[t].bn == b ensures ws[t].data == c0[b] {
        assert t < |homes| ==> Nth(ws, 0, t).bn == g.start + 1 + t;
        assert |homes| < t < |ws| - 1 ==> Nth(ws, |homes| + 1, t - |homes| - 1) == ws[t];
      }
      ApplyKeeps(c0, ws, |ws|, b);
    }
  }

  lemma {:induction false} ApplyKeeps(c: Disk, ws: seq<Write>, k: nat, b: nat)
    requires InRange(c, ws) && k <= |ws| && b < |c| && forall t :: 0 <= t < |ws| && ws[t].bn == b ==> ws[t].data == c[b]
    ensures Apply(c, ws, k)[b] == c[b]
  {
    if k > 0 { ApplyKeeps(c, ws, k - 1, b); }
  }

  // The writes of ws from k0 on copy the log blocks of contents c home.
  ghost predicate InstallsFrom(g: Geometry, homes: seq<nat>, c: Disk, ws: seq<Write>, k0: nat) {
    && g.Fits(c) && LogSpec.Homes(g, |c|, homes) && k0 + |homes| <= |ws|
    && forall i {:trigger Nth(ws, k0, i)} :: 0 <= i < |homes| ==> Nth(ws, k0, i) == Write(homes[i], LogBlock(g, c, i))
  }

  // After write_log and write_head, the header is h and the log holds the transaction's blocks.
  lemma CommitParts(g: Geometry, c0: Disk, homes: seq<nat>, h: Block, e: Block, ws: seq<Write>, k: nat, c: Disk)
    requires g.Fits(c0) && IsCommit(g, c0, homes, h, e, ws) && LogSpec.Homes(g, |c0|, homes) && InRange(c0, ws)
    requires k == |homes| + 1 && c == Apply(c0, ws, k) && e == PutHeader(h, [])
    ensures InstallsFrom(g, homes, c, ws, k) == true
    ensures k + |homes| + 1 == |ws| && ws[|ws| - 1] == Write(g.start, PutHeader(c[g.start], []))
  {
    forall i | 0 <= i < |homes| ensures LogBlock(g, c, i) == c0[homes[i]] {
      LogFilled(g, c0, homes, h, e, ws, i);
    }
  }

  lemma LogFilled(g: Geometry, c0: Disk, homes: seq<nat>, h: Block, e: Block, ws: seq<Write>, i: nat)
    requires g.Fits(c0) && IsCommit(g, c0, homes, h, e, ws) && |homes| <= g.size - 1 && InRange(c0, ws) && i < |homes|
    ensures Apply(c0, ws, |homes| + 1)[g.start + 1 + i] == c0[homes[i]]
  {
    assert Nth(ws, 0, i) == Write(g.start + 1 + i, c0[homes[i]]);
    forall t | i < t <= |homes| ensures ws[t].bn != g.start + 1 + i {
      if t < |homes| { assert Nth(ws, 0, t).bn == g.start + 1 + t; }
    }
    ApplyBetween(c0, ws, i + 1, |homes| + 1, g.start + 1 + i);
  }

  // ---- a transaction of as many blocks as there are buffers ----

  // Taking or releasing a buffer pins and unpins nothing.
  lemma PinsSame(a: seq<Buf>, b: seq<Buf>, homes: seq<nat>, i: nat)
    requires |a| == |b| && i < |a| && b == a[i := b[i]] && SameDirty(a[i], b[i]) && Pins(a, homes, 0)
    ensures Pins(b, homes, 0)
  {
    forall k | 0 <= k < |homes| ensures PinnedAt(b, homes[k]) {
      assert PinnedAt(a, homes[k]);
      var x :| 0 <= x < |a| && a[x].dirty && a[x].Holds(DISKDEV, homes[k]);
      assert b[x].dirty && b[x].Holds(DISKDEV, homes[k]);
    }
  }

  // Buffer b is held and no other.
  predicate OnlyHeld(bufs: seq<Buf>, b: nat) {
    b < |bufs| && forall i :: 0 <= i < |bufs| ==> (bufs[i].busy <==> i == b)
  }

  // bread while nothing is held.
  method Take(log: Log, bn: nat, ghost s: LogProtocol.State) returns (b: nat)
    requires log.Shows(s) && Quiet(log.bc.bufs) && bn < |log.bc.content|
    modifies log.bc`bufs, log.bc`disk, log.bc`writes
    ensures log.Shows(s) == true
    ensures b < NBUF == |log.bc.bufs| && OnlyHeld(log.bc.bufs, b) && log.bc.disk == old(log.bc.disk)
    ensures log.bc.bufs[b] == Buf(DISKDEV, bn, true, true, log.bc.bufs[b].dirty, log.bc.content[bn])
  {
    var r := log.bc.Bread(DISKDEV, bn);
    b := r.b;
    PinsSame(old(log.bc.bufs), log.bc.bufs, log.Homes(), b);
  }

  // brelse of the only buffer held.
  method Drop(log: Log, b: nat, ghost s: LogProtocol.State)
    requires log.Shows(s) && b < NBUF == |log.bc.bufs| && OnlyHeld(log.bc.bufs, b) && log.bc.bufs[b].valid
    requires log.bc.bufs[b].blockno < |log.bc.content| && log.bc.bufs[b].data == log.bc.content[log.bc.bufs[b].blockno]
    modifies log.bc`bufs, log.bc`next, log.bc`prev, log.bc`order
    ensures log.Shows(s) == true && Idle(log.bc.bufs)
  {
    ghost var held := log.bc.bufs;
    var _ := log.bc.Brelse(b);
    PinsSame(held, log.bc.bufs, log.Homes(), b);
  }

  // bread, log_write and brelse of block bn by process p.
  method WriteBlock(log: Log, bn: nat, ghost s: LogProtocol.State, ghost p: nat, ghost t: LogProtocol.State)
    requires log.Shows(s) && LogProtocol.Running(s, p) && s.procs[p].InOp? && !LogProtocol.TooBig(log.g, s) &&
             s.outstanding >= 1
    requires Quiet(log.bc.bufs) && bn < |log.bc.content| && !log.g.InLog(bn) && bn < |s.mem| && bn < |s.disk|
    requires t == Logged(s, p, bn, log.bc.content[bn])
    modifies log`n, log`block, log.bc
    ensures log.Shows(t) == true && Idle(log.bc.bufs) && |log.bc.content| == old(|log.bc.content|)
  {
    var b := Take(log, bn, s);
    var ok := log.LogWrite(b, s, p);
    Drop(log, b, t);
  }

  // How many of k blocks process p has written.
  function Share(k: nat, p: nat): nat {
    if k <= p * MAXOPBLOCKS then 0 else if k >= (p + 1) * MAXOPBLOCKS then MAXOPBLOCKS else k - p * MAXOPBLOCKS
  }

  // Three operations have put the first k blocks behind the log in the header, ten each.
  predicate Shared(s: LogProtocol.State, first: nat, k: nat) {
    && s.mode.Up? && s.outstanding == 3 && |s.procs| == 3 && !s.committing && s.homes == seq(k, i => first + i)
    && (forall p :: 0 <= p < 3 ==> s.procs[p].InOp? && s.procs[p].used == Share(k, p))
  }

  // So they have, in the run evs from s0 to s, and the log shows it.
  ghost predicate Filling(log: Log, s0: LogProtocol.State, evs: seq<LogProtocol.Event>, s: LogProtocol.State,
      first: nat, k: nat)
    reads log, log.bc
  {
    && log.Shows(s) && Idle(log.bc.bufs) && |s.mem| == |log.bc.content| && Shared(s, first, k)
    && LogProtocol.Leads(log.g, s0, evs, MAXOPBLOCKS, s)
  }

  lemma SharedNext(g: Geometry, s: LogProtocol.State, first: nat, k: nat, p: nat, v: Block, t: LogProtocol.State)
      returns (evs: seq<LogProtocol.Event>)
    requires Shared(s, first, k) && k < LOGSIZE < g.size && p == k / MAXOPBLOCKS && first == g.start + g.size
    requires first + k < |s.mem| && first + k < |s.disk| && t == Logged(s, p, first + k, v)
    ensures Shared(t, first, k + 1) == true && |t.mem| == |s.mem|
    ensures LogProtocol.Leads(g, s, evs, MAXOPBLOCKS, t) == true
  {
    assert first + k !in s.homes;
    var s1 := LogProtocol.DoCheck(s, p, first + k, v);
    var e0, e1 := LogProtocol.Check(p, first + k, v), LogProtocol.Record(p);
    LogProtocol.RunFrom(g, s1, e1, t, [], MAXOPBLOCKS);
    LogProtocol.RunFrom(g, s, e0, s1, [e1] + [], MAXOPBLOCKS);
    evs := [e0] + ([e1] + []);
  }

  method FillNext(log: Log, k: nat, ghost s0: LogProtocol.State, ghost evs: seq<LogProtocol.Event>,
      ghost s: LogProtocol.State, ghost first: nat)
    returns (ghost evs': seq<LogProtocol.Event>, ghost t: LogProtocol.State)
    requires Filling(log, s0, evs, s, first, k) && k < LOGSIZE < log.g.size && first == log.g.start + log.g.size
    requires first + LOGSIZE <= |log.bc.content|
    modifies log`n, log`block, log.bc
    ensures Filling(log, s0, evs', t, first, k + 1) == true && |log.bc.content| == old(|log.bc.content|)
  {
    ghost var p := k / MAXOPBLOCKS;
    log.HasRoom();
    t := Logged(s, p, first + k, log.bc.content[first + k]);
    ghost var more := SharedNext(log.g, s, first, k, p, log.bc.content[first + k], t);
    LogProtocol.LeadsOn(log.g, s0, evs, s, more, t, MAXOPBLOCKS);
    evs' := evs + more;
    WriteBlock(log, log.g.start + log.g.size + k, s, p, t);
  }

  // The log and the protocol at the start, with three processes.
  method Start(image: Disk, g: Geometry) returns (log: Log, ghost s: LogProtocol.State)
    requires Clean(g, image, image)
    ensures fresh(log) && fresh(log.bc) && log.g == g && |log.bc.content| == |image| == |s.mem|
    ensures log.Shows(s) == true && Idle(log.bc.bufs) && LogProtocol.Init(g, s) && s.disk == image
    ensures s.procs == [LogProtocol.Idle, LogProtocol.Idle, LogProtocol.Idle]
  {
    var bc := new BufferCache(image);
    log := new Log(bc, g);
    s := LogProtocol.State(image, image, [], 0, false, 0, image[g.start],
        [LogProtocol.Idle, LogProtocol.Idle, LogProtocol.Idle],
                           LogProtocol.Up, 0, image, [], 0, image, image);
    log.AllInOrder([], bc.bufs, image);
  }

  lemma ThreeBegin(g: Geometry, s: LogProtocol.State, s1: LogProtocol.State, s2: LogProtocol.State,
      t: LogProtocol.State, first: nat) returns (evs: seq<LogProtocol.Event>)
    requires s.homes == [] && s.outstanding == 0 && !s.committing && s.mode.Up? && g.start < |s.disk|
    requires s.procs == [LogProtocol.Idle, LogProtocol.Idle, LogProtocol.Idle] && s1 == LogProtocol.DoBegin(s, 0)
    requires s2 == LogProtocol.DoBegin(s1, 1) && t == LogProtocol.DoBegin(s2, 2)
    ensures LogProtocol.Leads(g, s, evs, MAXOPBLOCKS, t) == true && Shared(t, first, 0) == true
  {
    LogProtocol.RunFrom(g, s2, LogProtocol.Begin(2), t, [], MAXOPBLOCKS);
    LogProtocol.RunFrom(g, s1, LogProtocol.Begin(1), s2, [LogProtocol.Begin(2)] + [], MAXOPBLOCKS);
    evs := [LogProtocol.Begin(1)] + ([LogProtocol.Begin(2)] + []);
    LogProtocol.RunFrom(g, s, LogProtocol.Begin(0), s1, evs, MAXOPBLOCKS);
    evs := [LogProtocol.Begin(0)] + evs;
  }

  // Three operations begin.
  method BeginThree(log: Log, ghost s: LogProtocol.State, ghost first: nat)
      returns (ghost evs: seq<LogProtocol.Event>, ghost t: LogProtocol.State)
    requires log.Shows(s) == true
    requires Idle(log.bc.bufs) && s.homes == [] && s.outstanding == 0 && !s.committing && |s.mem| == |log.bc.content|
    requires s.procs == [LogProtocol.Idle, LogProtocol.Idle, LogProtocol.Idle] && log.g.start < |s.disk|
    modifies log`outstanding
    ensures Filling(log, s, evs, t, first, 0) == true
  {
    var ok := log.BeginOp(s, 0);
    ghost var s1 := LogProtocol.DoBegin(s, 0);
    ok := log.BeginOp(s1, 1);
    ghost var s2 := LogProtocol.DoBegin(s1, 1);
    ok := log.BeginOp(s2, 2);
    t := LogProtocol.DoBegin(s2, 2);
    evs := ThreeBegin(log.g, s, s1, s2, t, first);
  }

  // They write ten blocks each.
  method FillAll(log: Log, ghost s0: LogProtocol.State, ghost evs: seq<LogProtocol.Event>,
      ghost s: LogProtocol.State, ghost first: nat)
    returns (ghost evs': seq<LogProtocol.Event>, ghost t: LogProtocol.State)
    requires Filling(log, s0, evs, s, first, 0) == true
    requires LOGSIZE < log.g.size && first == log.g.start + log.g.size && first + LOGSIZE <= |log.bc.content|
    modifies log`n, log`block, log.bc
    ensures Filling(log, s0, evs', t, first, LOGSIZE) == true
  {
    evs', t := evs, s;
    for k := 0 to LOGSIZE
      invariant |log.bc.content| == old(|log.bc.content|) && Filling(log, s0, evs', t, first, k) == true
    {
      evs', t := FillNext(log, k, s0, evs', t, first);
    }
  }

  function AfterTwo(g: Geometry, s: LogProtocol.State): LogProtocol.State
    requires LogProtocol.Running(s, 0) && |s.procs| == 3 && g.start < |s.disk|
  { LogProtocol.DoEnd(g, LogProtocol.DoEnd(g, s, 0), 1) }

  lemma TwoEnd(g: Geometry, s0: LogProtocol.State, evs: seq<LogProtocol.Event>, s: LogProtocol.State, first: nat)
      returns (evs': seq<LogProtocol.Event>, t: LogProtocol.State)
    requires LogProtocol.Leads(g, s0, evs, MAXOPBLOCKS, s) == true
    requires Shared(s, first, LOGSIZE) && g.start < |s.disk|
    ensures LogProtocol.Leads(g, s0, evs', MAXOPBLOCKS, t) == true
    ensures t == AfterTwo(g, s) && LastOut(t) == true
  {
    var s1 := LogProtocol.DoEnd(g, s, 0);
    t := LogProtocol.DoEnd(g, s1, 1);
    LogProtocol.RunFrom(g, s1, LogProtocol.End(1), t, [], MAXOPBLOCKS);
    var more := [LogProtocol.End(1)] + [];
    LogProtocol.RunFrom(g, s, LogProtocol.End(0), s1, more, MAXOPBLOCKS);
    more := [LogProtocol.End(0)] + more;
    LogProtocol.LeadsOn(g, s0, evs, s, more, t, MAXOPBLOCKS);
    evs' := evs + more;
  }

  // The header is full, and process 2 is in the only operation left.
  predicate LastOut(t: LogProtocol.State) {
    && t.mode.Up? && !t.committing && t.outstanding == 1 && |t.procs| == 3 && t.procs[2].InOp?
    && |t.homes| == NBUF
  }

  // Over every clean disk with a log of more than LOGSIZE blocks, three operations fill the header without
  // using more than was reserved for them, and two of them end.
  method FullHeader(image: Disk, g: Geometry)
      returns (log: Log, ghost s: LogProtocol.State, ghost evs: seq<LogProtocol.Event>, ghost t: LogProtocol.State)
    requires Clean(g, image, image) && LOGSIZE < g.size && g.start + g.size + LOGSIZE <= |image|
    ensures fresh(log) && fresh(log.bc) && log.g == g && LogProtocol.Init(g, s) && s.disk == image
    ensures LogProtocol.Leads(g, s, evs, MAXOPBLOCKS, t) == true && LastOut(t)
    ensures log.Shows(t) == true && Idle(log.bc.bufs)
  {
    ghost var first := g.start + g.size;
    log, s := Start(image, g);
    evs, t := BeginThree(log, s, first);
    evs, t := FillAll(log, s, evs, t, first);
    EndTwo(log, t, first);
    evs, t := TwoEnd(g, s, evs, t, first);
  }

  // end_op of an operation that is not the last.
  method EndEarly(log: Log, ghost s: LogProtocol.State, ghost p: nat) returns (ghost t: LogProtocol.State)
    requires log.Shows(s) == true && Idle(log.bc.bufs) && LogProtocol.Running(s, p) && s.procs[p].InOp?
    requires s.outstanding > 1 && !s.committing && log.g.start < |s.disk|
    modifies log`outstanding, log`committing, log`n, log.bc
    ensures log.Shows(t) == true && Idle(log.bc.bufs) && t == LogProtocol.DoEnd(log.g, s, p)
  {
    ghost var k;
    var ok, done;
    ok, done, k := log.EndOp(s, p);
    t := LogProtocol.DoEnd(log.g, s, p);
  }

  method EndTwo(log: Log, ghost s: LogProtocol.State, ghost first: nat)
    requires log.Shows(s) == true && Idle(log.bc.bufs) && Shared(s, first, LOGSIZE) == true
    requires log.g.start < |s.disk| && LogProtocol.Running(s, 0) && |s.procs| == 3
    modifies log`outstanding, log`committing, log`n, log.bc
    ensures log.Shows(AfterTwo(log.g, s)) == true && Idle(log.bc.bufs)
  {
    ghost var s1 := EndEarly(log, s, 0);
    ghost var t := EndEarly(log, s1, 1);
  }

  // The commit of the last finds no buffer to copy through: as many blocks are pinned as there are buffers.
  method CommitWithoutRoom(image: Disk, g: Geometry)
      returns (log: Log, ghost s: LogProtocol.State, ghost evs: seq<LogProtocol.Event>, ghost t: LogProtocol.State,
        done: bool, ghost k: nat)
    requires Clean(g, image, image) && LOGSIZE < g.size && g.start + g.size + LOGSIZE <= |image|
    ensures fresh(log) && log.g == g && LogProtocol.Init(g, s) && s.disk == image
    ensures LogProtocol.Leads(g, s, evs, MAXOPBLOCKS, t) == true && LastOut(t)
    ensures log.CommitDid(t, 2, k, done) == true && !done
  {
    log, s, evs, t := FullHeader(image, g);
    done, k := EndLast(log, t);
  }

  method EndLast(log: Log, ghost t: LogProtocol.State) returns (done: bool, ghost k: nat)
    requires log.Shows(t) == true && Idle(log.bc.bufs) && LastOut(t)
    modifies log`outstanding, log`committing, log`n, log.bc
    ensures log.CommitDid(t, 2, k, done) == true && !done
  {
    var ok;
    ok, done, k := log.EndOp(t, 2);
  }
}
