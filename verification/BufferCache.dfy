/** The doubly linked recency list of bio.c, as `next`/`prev` links between buffer numbers with
    the list head as one more entry. */
module RecencyList {
  import opened Sequences

  // The buffer at position i of the list; both ends lead to the head h.
  function At(order: seq<nat>, h: nat, i: int): nat {
    if 0 <= i < |order| then order[i] else h
  }

  // The links run through `order` and back to the head in both directions.
  predicate Ring(next: seq<nat>, prev: seq<nat>, order: seq<nat>, h: nat) {
    && |next| == |prev| == h + 1
    && Distinct(order) && (forall i :: 0 <= i < |order| ==> order[i] < h)
    && (forall i :: -1 <= i < |order| ==> next[At(order, h, i)] == At(order, h, i + 1))
    && (forall i :: 0 <= i <= |order| ==> prev[At(order, h, i)] == At(order, h, i - 1))
  }

  // Take position k out of the list.
  lemma Unlink(next: seq<nat>, prev: seq<nat>, order: seq<nat>, h: nat, k: nat)
    requires Ring(next, prev, order, h) && k < |order|
    ensures next[order[k]] < |prev| && prev[order[k]] < |next|
    ensures Ring(next[prev[order[k]] := next[order[k]]], prev[next[order[k]] := prev[order[k]]],
                 order[..k] + order[k + 1..], h)
  {
    var b := order[k];
    var o := order[..k] + order[k + 1..];
    assert At(order, h, k) == b;
    var before, after := At(order, h, k - 1), At(order, h, k + 1);
    assert prev[b] == before && next[b] == after;
    var next', prev' := next[before := after], prev[after := before];
    forall i | -1 <= i < |o| ensures next'[At(o, h, i)] == At(o, h, i + 1) {
      var j := if i < k then i else i + 1;
      assert At(o, h, i) == At(order, h, j);
      assert next[At(order, h, j)] == At(order, h, j + 1);
    }
    forall i | 0 <= i <= |o| ensures prev'[At(o, h, i)] == At(o, h, i - 1) {
      var j := if i < k then i else i + 1;
      assert At(o, h, i) == At(order, h, j);
      assert prev[At(order, h, j)] == At(order, h, j - 1);
    }
  }

  // Put b, which is not in the list, at its front.
  lemma PushFront(next: seq<nat>, prev: seq<nat>, order: seq<nat>, h: nat, b: nat)
    requires Ring(next, prev, order, h) && b < h && b !in order
    ensures next[h] < |prev|
    ensures Ring(next[b := next[h]][h := b], prev[b := h][next[h] := b], [b] + order, h)
  {
    var first := next[h];
    assert At(order, h, -1) == h && first == At(order, h, 0);
    var next', prev', o := next[b := first][h := b], prev[b := h][first := b], [b] + order;
    forall i | -1 <= i < |o| ensures next'[At(o, h, i)] == At(o, h, i + 1) {
      if i >= 1 {
        assert At(o, h, i) == At(order, h, i - 1) && At(o, h, i + 1) == At(order, h, i);
      }
    }
    forall i | 0 <= i <= |o| ensures prev'[At(o, h, i)] == At(o, h, i - 1) {
      if i >= 1 {
        assert At(o, h, i) == At(order, h, i - 1);
        assert i >= 2 ==> At(o, h, i - 1) == At(order, h, i - 2) && prev[At(order, h, i - 1)] == At(order, h, i - 2);
      }
    }
  }
}

/** The buffer cache as bio.c has it: flags and data per buffer, recency links, and the disk below
    (the synchronous one of memide.c). A method is one stretch of code run without interference;
    where the source sleeps, it returns. */
module BufferCache {
  import opened Words
  import opened Sequences
  import opened LogSpec
  import opened CacheSpec
  import opened RecencyList

  const NBUF := 30             // MAXOPBLOCKS * 3

  // What bread comes back with.
  datatype Bread = Read(b: nat) | Wait(b: nat) | Panic

  class BufferCache {
    var bufs: seq<Buf>
    var next: seq<nat>         // entry NBUF is the list head
    var prev: seq<nat>
    var disk: Disk
    ghost var order: seq<nat>
    ghost var content: Disk    // the block map the cache stands for
    ghost var writes: seq<Write>

    ghost function View(): Cache
      reads this
    { Cache(bufs, order, disk) }

    ghost predicate Valid()
      reads this
    {
      && |bufs| == NBUF && Ring(next, prev, order, NBUF)
      && Refines(View(), content)
    }

    // binit
    constructor (image: Disk)
      ensures Valid() && Binit(View()) && disk == content == image && writes == []
    {
      bufs := seq(NBUF, _ => Buf(NODEV, 0, false, false, false, ZeroBlock()));
      next := seq(NBUF + 1, _ => NBUF);
      prev := seq(NBUF + 1, _ => NBUF);
      disk := image;
      content := image;
      writes := [];
      order := [];
      new;
      var b := 0;
      while b < NBUF
        invariant b <= NBUF && |bufs| == NBUF
        invariant forall i :: 0 <= i < NBUF ==> bufs[i] == Buf(NODEV, 0, false, false, false, ZeroBlock())
        invariant Ring(next, prev, order, NBUF)
        invariant |order| == b && forall i :: 0 <= i < b ==> order[i] == b - 1 - i
        invariant disk == content == image && writes == []
      {
        RecencyList.PushFront(next, prev, order, NBUF, b);
        var first := next[NBUF];
        next := next[b := first];
        prev := prev[b := NBUF];
        prev := prev[first := b];
        next := next[NBUF := b];
        order := [b] + order;
        b := b + 1;
      }
      BinitRefines(View());
    }

    // One pass of bget, up to where it returns, sleeps or panics.
    method Bget(dev: nat, bn: nat) returns (got: Got)
      requires Valid() && dev != NODEV
      modifies this`bufs
      ensures Valid() && BgetStep(old(View()), dev, bn, got, View())
    {
      // Is the block already cached?
      var b := next[NBUF];
      ghost var k := 0;
      assert At(order, NBUF, -1) == NBUF;
      while b != NBUF
        invariant 0 <= k <= |order| && b == At(order, NBUF, k)
        invariant forall i :: 0 <= i < k ==> !bufs[order[i]].Holds(dev, bn)
        invariant bufs == old(bufs)
        decreases |order| - k
      {
        if bufs[b].Holds(dev, bn) {
          if !bufs[b].busy {
            got := Hit(b);
            bufs := bufs[b := bufs[b].(busy := true)];
            RefinesHit(old(View()), content, dev, bn, b, View());
          } else {
            got := InUse(b);
          }
          return;
        }
        b := next[b];
        k := k + 1;
      }
      assert !Cached(View(), dev, bn) by {
        forall i | 0 <= i < |bufs| ensures !bufs[i].Holds(dev, bn) { assert i in order; }
      }
      // Not cached; recycle some non-busy and clean buffer.
      b := prev[NBUF];
      k := |order| - 1;
      assert At(order, NBUF, |order|) == NBUF;
      while b != NBUF
        invariant -1 <= k < |order| && b == At(order, NBUF, k)
        invariant forall i :: k < i < |order| ==> !bufs[order[i]].Recyclable()
        invariant bufs == old(bufs)
        decreases k + 1
      {
        if bufs[b].Recyclable() {
          got := Recycled(b);
          assert LastRecyclable(View(), b, k);
          bufs := bufs[b := Buf(dev, bn, true, false, false, bufs[b].data)];
          RefinesRecycled(old(View()), content, dev, bn, b, View());
          return;
        }
        b := prev[b];
        k := k - 1;
      }
      got := NoBuffers;
      forall i | 0 <= i < |bufs| ensures !bufs[i].Recyclable() { assert i in order; }
    }

    // iderw of the memory disk; false is a panic.
    method Iderw(b: nat) returns (ok: bool)
      requires b < |bufs|
      modifies this`bufs, this`disk, this`writes
      ensures ok <==> old(OnDisk(View(), b) && !(bufs[b].valid && !bufs[b].dirty))
      ensures !ok ==> View() == old(View()) && writes == old(writes)
      ensures ok && old(bufs[b].dirty) ==>
                View() == Flush(old(View()), b) && writes == old(writes + [Write(bufs[b].blockno, bufs[b].data)])
      ensures ok && !old(bufs[b].dirty) ==> View() == FillBuf(old(View()), b) && writes == old(writes)
    {
      if !bufs[b].busy { return false; }
      if bufs[b].valid && !bufs[b].dirty { return false; }
      if bufs[b].dev != DISKDEV { return false; }
      if bufs[b].blockno >= |disk| { return false; }
      var bn := bufs[b].blockno;
      if bufs[b].dirty {
        bufs := bufs[b := bufs[b].(dirty := false)];
        disk := disk[bn := bufs[b].data];
        writes := writes + [Write(bn, bufs[b].data)];
      } else {
        bufs := bufs[b := bufs[b].(data := disk[bn])];
      }
      bufs := bufs[b := bufs[b].(valid := true)];
      return true;
    }

    // bread: on success the caller holds a buffer with the block's latest content, and nothing
    // else has changed.
    method Bread(dev: nat, bn: nat) returns (r: Bread)
      requires Valid() && dev != NODEV
      modifies this`bufs, this`disk, this`writes
      ensures disk == old(disk) && writes == old(writes)
      ensures !r.Panic? ==> Valid()
      ensures r.Read? ==>
                && r.b < NBUF && !old(bufs[r.b].busy)
                && dev == DISKDEV && bn < |content|
                && bufs[r.b] == Buf(dev, bn, true, true, bufs[r.b].dirty, content[bn])
                && bufs[r.b].dirty == old(bufs[r.b].dirty)
                && (bufs[r.b].dirty ==> old(bufs[r.b]) == bufs[r.b].(busy := false))
                && bufs == old(bufs)[r.b := bufs[r.b]]
      ensures r.Wait? ==> r.b < NBUF && bufs == old(bufs) && bufs[r.b].Holds(dev, bn) && bufs[r.b].busy
      ensures r.Panic? ==>
                || dev != DISKDEV || bn >= |content|
                || forall i :: 0 <= i < NBUF ==> !old(bufs[i].Recyclable()) && !old(bufs[i].Holds(dev, bn))
    {
      var got := Bget(dev, bn);
      match got
      case InUse(b) => return Wait(b);
      case NoBuffers => return Panic;
      case Hit(b) =>
        RefinesHit(old(View()), content, dev, bn, b, View());
        return Read(b);
      case Recycled(b) =>
        ghost var s := View();
        var ok := Iderw(b);
        if !ok { return Panic; }
        RefinesFill(s, content, b, View());
        return Read(b);
    }

    // The holder overwrites the buffer's data.
    method Store(b: nat, data: Block)
      requires Valid() && b < NBUF && bufs[b].busy && bufs[b].valid
      modifies this`bufs
      ensures Valid() && bufs == old(bufs)[b := old(bufs[b]).(data := data)]
    {
      bufs := bufs[b := bufs[b].(data := data)];
      RefinesStore(old(View()), content, b, data, View());
    }

    // The flag update of log_write: pin the buffer; its data is the block's new content.
    method Pin(b: nat)
      requires Valid() && b < NBUF && bufs[b].busy && bufs[b].valid
      modifies this`bufs, this`content
      ensures Valid() && bufs == old(bufs)[b := old(bufs[b]).(dirty := true)]
      ensures old(bufs[b].blockno) < old(|content|)
      ensures content == old(content)[old(bufs[b].blockno) := old(bufs[b].data)]
    {
      bufs := bufs[b := bufs[b].(dirty := true)];
      RefinesPin(old(View()), content, b, View());
      content := Publish(content, old(View()), b);
    }

    // bwrite; false is a panic, which a buffer returned by bread never meets.
    method Bwrite(b: nat) returns (ok: bool)
      requires Valid() && b < NBUF
      modifies this`bufs, this`disk, this`writes, this`content
      ensures old(bufs[b].busy && bufs[b].valid) ==> ok
      ensures ok && old(bufs[b].valid) ==>
                && Valid()
                && old(bufs[b].blockno) < old(|content|)
                && bufs == old(bufs)[b := old(bufs[b]).(dirty := false)]
                && content == old(content)[old(bufs[b].blockno) := old(bufs[b].data)]
                && disk == old(disk)[old(bufs[b].blockno) := old(bufs[b].data)]
                && writes == old(writes + [Write(bufs[b].blockno, bufs[b].data)])
      ensures !ok ==> writes == old(writes) && disk == old(disk)
    {
      if !bufs[b].busy { return false; }
      bufs := bufs[b := bufs[b].(dirty := true)];
      ok := Iderw(b);
      if ok && old(bufs[b].valid) {
        assert View() == Flush(old(View()), b);
        RefinesFlush(old(View()), content, b, View());
        content := Publish(content, old(View()), b);
      }
    }

    // brelse; false is a panic, on a buffer that is not held. The holder has published its changes.
    method Brelse(b: nat) returns (ok: bool)
      requires Valid() && b < NBUF
      requires bufs[b].busy ==> bufs[b].valid && bufs[b].blockno < |content| && bufs[b].data == content[bufs[b].blockno]
      modifies this`bufs, this`next, this`prev, this`order
      ensures ok <==> old(bufs[b].busy)
      ensures Valid() && View() == if ok then Release(old(View()), b) else old(View())
    {
      if !bufs[b].busy { return false; }
      ok := true;
      ghost var s := View();
      assert b in order;
      ghost var k :| 0 <= k < |order| && order[k] == b;
      WithoutAt(order, k);
      WithoutFacts(order, b);
      RecencyList.Unlink(next, prev, order, NBUF, k);
      var after, before := next[b], prev[b];
      prev := prev[after := before];
      next := next[before := after];
      order := Without(order, b);
      RecencyList.PushFront(next, prev, order, NBUF, b);
      var first := next[NBUF];
      next := next[b := first];
      prev := prev[b := NBUF];
      prev := prev[first := b];
      next := next[NBUF := b];
      order := [b] + order;
      bufs := bufs[b := bufs[b].(busy := false)];
      RefinesRelease(s, content, b, View());
    }
  }
}
