/** The buffer cache (bio.c over the synchronous disk of memide.c) as a machine whose atomic
    steps any number of processes interleave, and the plain block map it stands for. */
module CacheSpec {
  import opened Words
  import opened Sequences
  import opened LogSpec

  const NODEV := 0xffff_ffff   // (uint)-1: a buffer never used
  const DISKDEV := 1

  datatype Buf = Buf(dev: nat, blockno: nat, busy: bool, valid: bool, dirty: bool, data: Block) {
    predicate Holds(d: nat, bn: nat) { dev == d && blockno == bn }
    predicate Recyclable() { !busy && !dirty }
  }

  // Buffers, their recency list (most recently released first) and the disk.
  datatype Cache = Cache(bufs: seq<Buf>, order: seq<nat>, disk: Disk)

  // What one pass of bget finds.
  datatype Got =
    | Hit(b: nat)          // cached and idle: taken
    | InUse(b: nat)        // cached and busy: the caller sleeps and tries again
    | Recycled(b: nat)     // not cached: an idle clean buffer is taken
    | NoBuffers            // panic

  datatype Event =
    | Bget(dev: nat, bn: nat, got: Got)
    | Fill(b: nat)                 // bread reads the disk into the buffer it holds
    | Store(b: nat, data: Block)   // the holder changes the buffer's data
    | LogWrite(b: nat)             // log_write pins the buffer
    | Bwrite(b: nat)
    | Brelse(b: nat)

  predicate Cached(s: Cache, dev: nat, bn: nat) {
    exists i :: 0 <= i < |s.bufs| && s.bufs[i].Holds(dev, bn)
  }

  // b is at position k of the recency list, and nothing behind it can be recycled.
  predicate LastRecyclable(s: Cache, b: nat, k: nat)
    requires forall i :: 0 <= i < |s.order| ==> s.order[i] < |s.bufs|
  {
    && k < |s.order| && s.order[k] == b && s.bufs[b].Recyclable()
    && forall i :: k < i < |s.order| ==> !s.bufs[s.order[i]].Recyclable()
  }

  predicate OrderOk(s: Cache) {
    && Distinct(s.order) && |s.order| == |s.bufs|
    && (forall i :: 0 <= i < |s.order| ==> s.order[i] < |s.bufs|)
    && (forall b :: 0 <= b < |s.bufs| ==> b in s.order)
  }

  predicate BgetStep(s: Cache, dev: nat, bn: nat, got: Got, t: Cache)
    requires OrderOk(s)
  {
    match got
    case Hit(b) =>
      && b < |s.bufs| && s.bufs[b].Holds(dev, bn) && !s.bufs[b].busy
      && t == s.(bufs := s.bufs[b := s.bufs[b].(busy := true)])
    case InUse(b) => b < |s.bufs| && s.bufs[b].Holds(dev, bn) && s.bufs[b].busy && t == s
    case Recycled(b) =>
      && !Cached(s, dev, bn) && b < |s.bufs|
      && (exists k: nat | k < |s.order| :: LastRecyclable(s, b, k))
      && t == s.(bufs := s.bufs[b := Buf(dev, bn, true, false, false, s.bufs[b].data)])
    case NoBuffers =>
      !Cached(s, dev, bn) && t == s && forall i :: 0 <= i < |s.bufs| ==> !s.bufs[i].Recyclable()
  }

  // iderw's tests: it panics unless the request is for a block of disk 1.
  predicate OnDisk(s: Cache, b: nat) {
    b < |s.bufs| && s.bufs[b].busy && s.bufs[b].dev == DISKDEV && s.bufs[b].blockno < |s.disk|
  }

  function FillBuf(s: Cache, b: nat): Cache
    requires OnDisk(s, b)
  { s.(bufs := s.bufs[b := s.bufs[b].(valid := true, data := s.disk[s.bufs[b].blockno])]) }

  function StoreBuf(s: Cache, b: nat, data: Block): Cache
    requires b < |s.bufs|
  { s.(bufs := s.bufs[b := s.bufs[b].(data := data)]) }

  function Pin(s: Cache, b: nat): Cache
    requires b < |s.bufs|
  { s.(bufs := s.bufs[b := s.bufs[b].(dirty := true)]) }

  function Flush(s: Cache, b: nat): Cache
    requires OnDisk(s, b)
  {
    s.(bufs := s.bufs[b := s.bufs[b].(dirty := false, valid := true)],
       disk := s.disk[s.bufs[b].blockno := s.bufs[b].data])
  }

  function Release(s: Cache, b: nat): Cache
    requires b < |s.bufs|
  { s.(bufs := s.bufs[b := s.bufs[b].(busy := false)], order := [b] + Without(s.order, b)) }

  predicate Step(s: Cache, ev: Event, t: Cache)
    requires OrderOk(s)
  {
    match ev
    case Bget(dev, bn, got) => BgetStep(s, dev, bn, got, t)
    case Fill(b) => OnDisk(s, b) && !s.bufs[b].valid && t == FillBuf(s, b)
    case Store(b, data) => b < |s.bufs| && s.bufs[b].busy && t == StoreBuf(s, b, data)
    case LogWrite(b) => b < |s.bufs| && s.bufs[b].busy && t == Pin(s, b)
    case Bwrite(b) => OnDisk(s, b) && t == Flush(s, b)
    case Brelse(b) => b < |s.bufs| && s.bufs[b].busy && t == Release(s, b)
  }

  // ---- the plain block map ----

  // log_write and bwrite publish the buffer's data as the block's content.
  function PlainStep(m: Disk, s: Cache, ev: Event): Disk {
    match ev
    case LogWrite(b) => Publish(m, s, b)
    case Bwrite(b) => Publish(m, s, b)
    case _ => m
  }

  function Publish(m: Disk, s: Cache, b: nat): Disk {
    if b < |s.bufs| && s.bufs[b].blockno < |m| then m[s.bufs[b].blockno := s.bufs[b].data] else m
  }

  // What bio.c asks of its callers: touch a buffer only after bread returned it, and publish
  // changes (log_write or bwrite) before releasing it.
  predicate Disciplined(m: Disk, s: Cache, ev: Event) {
    match ev
    case Bget(dev, _, _) => dev != NODEV
    case Store(b, _) => b < |s.bufs| && s.bufs[b].valid
    case LogWrite(b) => b < |s.bufs| && s.bufs[b].valid
    case Bwrite(b) => b < |s.bufs| && s.bufs[b].valid
    case Brelse(b) =>
      && b < |s.bufs| && s.bufs[b].valid
      && s.bufs[b].blockno < |m| && s.bufs[b].data == m[s.bufs[b].blockno]
    case Fill(_) => true
  }

  // ---- the cache refines the block map ----

  predicate Unique(bufs: seq<Buf>) {
    forall i, j :: 0 <= i < j < |bufs| && bufs[i].dev != NODEV ==> !bufs[j].Holds(bufs[i].dev, bufs[i].blockno)
  }

  predicate BufOk(m: Disk, b: Buf) {
    && (b.valid ==> b.dev == DISKDEV && b.blockno < |m|)
    && (b.dirty ==> b.valid)
    && (!b.busy && b.dev != NODEV ==> b.valid)
    && (b.valid && !b.busy ==> b.data == m[b.blockno])
  }

  predicate Pinned(s: Cache, bn: nat) {
    exists i :: 0 <= i < |s.bufs| && s.bufs[i].dirty && s.bufs[i].Holds(DISKDEV, bn)
  }

  // The block's content is on disk, or pinned in the cache.
  predicate Settled(s: Cache, m: Disk, bn: nat) {
    bn < |s.disk| == |m| && (s.disk[bn] == m[bn] || Pinned(s, bn))
  }

  // Each block is cached at most once; an idle buffer holds the block's content; a block that is
  // not pinned has its content on disk.
  predicate Refines(s: Cache, m: Disk) {
    && OrderOk(s) && |m| == |s.disk|
    && Unique(s.bufs)
    && (forall i :: 0 <= i < |s.bufs| ==> BufOk(m, s.bufs[i]))
    && (forall bn :: 0 <= bn < |m| ==> Settled(s, m, bn))
  }

  // A pin survives a change to another buffer, or one that keeps the buffer dirty.
  lemma PinKept(s: Cache, t: Cache, b: nat, bn: nat)
    requires b < |s.bufs| == |t.bufs| && t.bufs == s.bufs[b := t.bufs[b]] && Pinned(s, bn)
    requires s.bufs[b].dirty && s.bufs[b].Holds(DISKDEV, bn) ==> t.bufs[b].dirty && t.bufs[b].Holds(DISKDEV, bn)
    ensures Pinned(t, bn)
  {
    var i :| 0 <= i < |s.bufs| && s.bufs[i].dirty && s.bufs[i].Holds(DISKDEV, bn);
    assert t.bufs[i].dirty && t.bufs[i].Holds(DISKDEV, bn);
  }

  lemma PinsKept(s: Cache, t: Cache, b: nat)
    requires b < |s.bufs| == |t.bufs| && t.bufs == s.bufs[b := t.bufs[b]]
    requires s.bufs[b].dirty ==>
             t.bufs[b].dirty && t.bufs[b].dev == s.bufs[b].dev && t.bufs[b].blockno == s.bufs[b].blockno
    ensures forall bn :: Pinned(s, bn) ==> Pinned(t, bn)
    ensures t.disk == s.disk ==> forall m, bn :: Settled(s, m, bn) ==> Settled(t, m, bn)
  {
    forall bn | Pinned(s, bn) ensures Pinned(t, bn) { PinKept(s, t, b, bn); }
  }

  lemma RefinesHit(s: Cache, m: Disk, dev: nat, bn: nat, b: nat, t: Cache)
    requires Refines(s, m) && BgetStep(s, dev, bn, Hit(b), t) && dev != NODEV
    ensures Refines(t, m) && t.bufs[b].valid && dev == DISKDEV && bn < |m| && t.bufs[b].data == m[bn]
  {
    PinsKept(s, t, b);
  }

  // A recycled buffer is clean, so the block it held is on disk.
  lemma RefinesRecycled(s: Cache, m: Disk, dev: nat, bn: nat, b: nat, t: Cache)
    requires Refines(s, m) && BgetStep(s, dev, bn, Recycled(b), t) && dev != NODEV
    ensures Refines(t, m)
  {
    PinsKept(s, t, b);
    forall i, j | 0 <= i < j < |t.bufs| && t.bufs[i].dev != NODEV
      ensures !t.bufs[j].Holds(t.bufs[i].dev, t.bufs[i].blockno)
    {
      if i == b { assert !s.bufs[j].Holds(dev, bn); }
      if j == b { assert !s.bufs[i].Holds(dev, bn); }
    }
  }

  // A buffer being filled is the only one for its block and is not dirty, so the disk is current.
  lemma RefinesFill(s: Cache, m: Disk, b: nat, t: Cache)
    requires Refines(s, m) && Step(s, Fill(b), t)
    ensures Refines(t, m) && t.bufs[b].data == m[s.bufs[b].blockno]
  {
    PinsKept(s, t, b);
    assert Settled(s, m, s.bufs[b].blockno);
  }

  lemma RefinesStore(s: Cache, m: Disk, b: nat, data: Block, t: Cache)
    requires Refines(s, m) && Step(s, Store(b, data), t)
    ensures Refines(t, m)
  {
    PinsKept(s, t, b);
  }

  lemma RefinesPin(s: Cache, m: Disk, b: nat, t: Cache)
    requires Refines(s, m) && Step(s, LogWrite(b), t) && s.bufs[b].valid
    ensures Refines(t, Publish(m, s, b))
  {
    PinsKept(s, t, b);
    var bn, m' := s.bufs[b].blockno, Publish(m, s, b);
    PublishBufOk(s, m, b);
    forall c | 0 <= c < |m'| ensures Settled(t, m', c) {
      assert Settled(s, m, c);
      if c == bn { assert t.bufs[b].dirty && t.bufs[b].Holds(DISKDEV, bn); }
    }
  }

  // Publishing one buffer's data leaves the content of every other cached block alone.
  lemma PublishBufOk(s: Cache, m: Disk, b: nat)
    requires Refines(s, m) && b < |s.bufs| && s.bufs[b].busy && s.bufs[b].valid
    ensures forall i :: 0 <= i < |s.bufs| && i != b ==> BufOk(Publish(m, s, b), s.bufs[i])
  {
    forall i | 0 <= i < |s.bufs| && i != b ensures BufOk(Publish(m, s, b), s.bufs[i]) {
      assert BufOk(m, s.bufs[i]);
      if s.bufs[i].valid {
        assert s.bufs[i].blockno != s.bufs[b].blockno by {
          if i < b { assert !s.bufs[b].Holds(s.bufs[i].dev, s.bufs[i].blockno); }
          else { assert !s.bufs[i].Holds(s.bufs[b].dev, s.bufs[b].blockno); }
        }
      }
    }
  }

  lemma RefinesFlush(s: Cache, m: Disk, b: nat, t: Cache)
    requires Refines(s, m) && Step(s, Bwrite(b), t) && s.bufs[b].valid
    ensures Refines(t, Publish(m, s, b))
  {
    var bn, m' := s.bufs[b].blockno, Publish(m, s, b);
    PublishBufOk(s, m, b);
    forall c | 0 <= c < |m'| ensures Settled(t, m', c) {
      assert Settled(s, m, c);
      if c != bn && Pinned(s, c) { PinKept(s, t, b, c); }
    }
  }

  lemma OrderRelease(s: Cache, b: nat)
    requires OrderOk(s) && b < |s.bufs|
    ensures OrderOk(Release(s, b))
  {
    WithoutFacts(s.order, b);
    var o, w := Release(s, b).order, Without(s.order, b);
    assert o == [b] + w;
    forall i | 0 <= i < |o| ensures o[i] < |s.bufs| {
      if i > 0 { assert o[i] == w[i - 1] && w[i - 1] in w; }
    }
    forall x | 0 <= x < |s.bufs| ensures x in o {
      if x != b { assert x in w; }
    }
  }

  lemma RefinesRelease(s: Cache, m: Disk, b: nat, t: Cache)
    requires Refines(s, m) && Step(s, Brelse(b), t) && Disciplined(m, s, Brelse(b))
    ensures Refines(t, m)
  {
    OrderRelease(s, b);
    PinsKept(s, t, b);
  }

  lemma RefinesStep(s: Cache, m: Disk, ev: Event, t: Cache)
    requires Refines(s, m) && Step(s, ev, t) && Disciplined(m, s, ev)
    ensures Refines(t, PlainStep(m, s, ev)) == true
  {
    match ev
    case Bget(dev, bn, got) =>
      match got {
        case Hit(b) => RefinesHit(s, m, dev, bn, b, t);
        case Recycled(b) => RefinesRecycled(s, m, dev, bn, b, t);
        case InUse(_) =>
        case NoBuffers =>
      }
    case Fill(b) => RefinesFill(s, m, b, t);
    case Store(b, data) => RefinesStore(s, m, b, data, t);
    case LogWrite(b) => RefinesPin(s, m, b, t);
    case Bwrite(b) => RefinesFlush(s, m, b, t);
    case Brelse(b) => RefinesRelease(s, m, b, t);
  }

  // ---- runs ----

  // A run: states s[0], s[1], ... with event evs[i] from s[i] to s[i+1], and the block map beside it.
  predicate IsRun(ss: seq<Cache>, ms: seq<Disk>, evs: seq<Event>) {
    && |ss| == |ms| == |evs| + 1
    && forall i :: 0 <= i < |evs| ==>
         && OrderOk(ss[i]) && Step(ss[i], evs[i], ss[i + 1])
         && Disciplined(ms[i], ss[i], evs[i]) && ms[i + 1] == PlainStep(ms[i], ss[i], evs[i])
  }

  // After binit: all buffers unused, listed last buffer first.
  predicate Binit(s: Cache) {
    && (forall i :: 0 <= i < |s.bufs| ==>
       s.bufs[i].dev == NODEV && !s.bufs[i].busy && !s.bufs[i].valid && !s.bufs[i].dirty)
    && |s.order| == |s.bufs| && forall i :: 0 <= i < |s.order| ==> s.order[i] == |s.bufs| - 1 - i
  }

  lemma BinitRefines(s: Cache)
    requires Binit(s)
    ensures Refines(s, s.disk)
  {
    forall b | 0 <= b < |s.bufs| ensures b in s.order { assert s.order[|s.bufs| - 1 - b] == b; }
  }

  // In every run the cache refines the block map at every point.
  lemma {:induction false} CacheRuns(ss: seq<Cache>, ms: seq<Disk>, evs: seq<Event>, i: nat)
    requires IsRun(ss, ms, evs) && Binit(ss[0]) && ms[0] == ss[0].disk && i <= |evs|
    ensures Refines(ss[i], ms[i]) == true
  {
    if i == 0 {
      BinitRefines(ss[0]);
    } else {
      CacheRuns(ss, ms, evs, i - 1);
      RefinesStep(ss[i - 1], ms[i - 1], evs[i - 1], ss[i]);
    }
  }

  // A read returns the latest published content of its block: at once when bget hits, and when
  // the disk has been read when it recycles a buffer.
  lemma BreadLatest(ss: seq<Cache>, ms: seq<Disk>, evs: seq<Event>, i: nat, b: nat)
    requires IsRun(ss, ms, evs) && Binit(ss[0]) && ms[0] == ss[0].disk && i < |evs|
    requires evs[i] == Fill(b) || (evs[i].Bget? && evs[i].got == Hit(b))
    ensures b < |ss[i + 1].bufs|
    ensures var buf := ss[i + 1].bufs[b];
            buf.valid && buf.dev == DISKDEV && buf.blockno < |ms[i + 1]| && buf.data == ms[i + 1][buf.blockno]
  {
    CacheRuns(ss, ms, evs, i);
    if evs[i].Fill? {
      RefinesFill(ss[i], ms[i], b, ss[i + 1]);
    } else {
      RefinesHit(ss[i], ms[i], evs[i].dev, evs[i].bn, b, ss[i + 1]);
    }
  }

  // A logged block stays in the cache and does not reach its home location until bwrite is
  // called on it, however the run goes on.
  lemma {:induction false} PinnedRuns(ss: seq<Cache>, ms: seq<Disk>, evs: seq<Event>, i: nat, j: nat, bn: nat)
    requires IsRun(ss, ms, evs) && Binit(ss[0]) && ms[0] == ss[0].disk && i <= j <= |evs|
    requires Pinned(ss[i], bn) && bn < |ss[i].disk|
    requires forall k :: i <= k < j && evs[k].Bwrite? && evs[k].b < |ss[k].bufs| ==> ss[k].bufs[evs[k].b].blockno != bn
    ensures |ss[j].disk| == |ss[i].disk| && ss[j].disk[bn] == ss[i].disk[bn]
    ensures Pinned(ss[j], bn) == true
    decreases j
  {
    if i < j {
      PinnedRuns(ss, ms, evs, i, j - 1, bn);
      CacheRuns(ss, ms, evs, j - 1);
      PinnedStep(ss[j - 1], ms[j - 1], evs[j - 1], ss[j], bn);
    }
  }

  lemma PinnedStep(s: Cache, m: Disk, ev: Event, t: Cache, bn: nat)
    requires Refines(s, m) && Step(s, ev, t) && Pinned(s, bn) && bn < |s.disk|
    requires ev.Bwrite? ==> s.bufs[ev.b].blockno != bn
    ensures |t.disk| == |s.disk| && t.disk[bn] == s.disk[bn] && Pinned(t, bn)
  {
    match ev
    case Bget(dev, _, got) => if got.Hit? || got.Recycled? { PinKept(s, t, got.b, bn); }
    case Fill(b) => PinKept(s, t, b, bn);
    case Store(b, data) => PinKept(s, t, b, bn);
    case LogWrite(b) => PinKept(s, t, b, bn);
    case Bwrite(b) => PinKept(s, t, b, bn);
    case Brelse(b) => PinKept(s, t, b, bn);
  }

  // ---- recycling takes the least recently released buffer ----

  // When b was last released before event i; buffers never released count as released before the
  // run, buffer 0 first.
  function LastRelease(evs: seq<Event>, n: nat, i: nat, b: nat): int
    requires i <= |evs|
  {
    if i == 0 then b - n
    else if evs[i - 1] == Brelse(b) then i - 1
    else LastRelease(evs, n, i - 1, b)
  }

  lemma {:induction false} LastReleaseBefore(evs: seq<Event>, n: nat, i: nat, b: nat)
    requires i <= |evs| && b < n
    ensures LastRelease(evs, n, i, b) < i
  {
    if i > 0 { LastReleaseBefore(evs, n, i - 1, b); }
  }

  predicate ByRelease(order: seq<nat>, evs: seq<Event>, n: nat, i: nat)
    requires i <= |evs|
  {
    forall p, q :: 0 <= p < q < |order| ==> LastRelease(evs, n, i, order[p]) > LastRelease(evs, n, i, order[q])
  }

  // Moving the buffer just released to the front keeps the list sorted by release.
  lemma ByReleaseMove(order: seq<nat>, k: nat, order': seq<nat>, evs: seq<Event>, n: nat, i: nat)
    requires i < |evs| && k < |order| && evs[i] == Brelse(order[k])
    requires Distinct(order) && ByRelease(order, evs, n, i)
    requires forall p :: 0 <= p < |order| ==> order[p] < n
    requires order' == [order[k]] + (order[..k] + order[k + 1..])
    ensures ByRelease(order', evs, n, i + 1)
  {
    forall p, q | 0 <= p < q < |order'|
      ensures LastRelease(evs, n, i + 1, order'[p]) > LastRelease(evs, n, i + 1, order'[q])
    {
      var q' := if q - 1 < k then q - 1 else q;
      assert order'[q] == order[q'] != order[k];
      LastReleaseBefore(evs, n, i, order[q']);
      if p > 0 {
        var p' := if p - 1 < k then p - 1 else p;
        assert order'[p] == order[p'] != order[k];
      }
    }
  }

  lemma ByReleaseStep(s: Cache, evs: seq<Event>, i: nat, t: Cache)
    requires OrderOk(s) && i < |evs| && Step(s, evs[i], t) && ByRelease(s.order, evs, |s.bufs|, i)
    ensures |t.bufs| == |s.bufs|
    ensures ByRelease(t.order, evs, |s.bufs|, i + 1) == true
  {
    if evs[i].Brelse? {
      assert evs[i].b in s.order;
      var k :| 0 <= k < |s.order| && s.order[k] == evs[i].b;
      WithoutAt(s.order, k);
      ByReleaseMove(s.order, k, t.order, evs, |s.bufs|, i);
    } else {
      assert t.order == s.order;
    }
  }

  lemma {:induction false} ByReleaseRuns(ss: seq<Cache>, ms: seq<Disk>, evs: seq<Event>, i: nat)
    requires IsRun(ss, ms, evs) && Binit(ss[0]) && i <= |evs|
    ensures |ss[i].bufs| == |ss[0].bufs|
    ensures ByRelease(ss[i].order, evs, |ss[0].bufs|, i) == true
  {
    if i > 0 {
      ByReleaseRuns(ss, ms, evs, i - 1);
      ByReleaseStep(ss[i - 1], evs, i - 1, ss[i]);
    }
  }

  // In every run, the buffer bget recycles was released longer ago than any other idle clean one.
  lemma RecycleRuns(ss: seq<Cache>, ms: seq<Disk>, evs: seq<Event>, i: nat, c: nat)
    requires IsRun(ss, ms, evs) && Binit(ss[0]) && i < |evs| && evs[i].Bget? && evs[i].got.Recycled?
    requires c < |ss[i].bufs| && c != evs[i].got.b && ss[i].bufs[c].Recyclable()
    ensures LastRelease(evs, |ss[0].bufs|, i, evs[i].got.b) < LastRelease(evs, |ss[0].bufs|, i, c)
  {
    ByReleaseRuns(ss, ms, evs, i);
    RecyclesLast(ss[i], evs[i].dev, evs[i].bn, evs[i].got.b, ss[i + 1], evs, |ss[0].bufs|, i, c);
  }

  lemma RecyclesLast(s: Cache, dev: nat, bn: nat, b: nat, t: Cache, evs: seq<Event>, n: nat, i: nat, c: nat)
    requires OrderOk(s) && BgetStep(s, dev, bn, Recycled(b), t) && i <= |evs| && ByRelease(s.order, evs, n, i)
    requires c < |s.bufs| && c != b && s.bufs[c].Recyclable()
    ensures LastRelease(evs, n, i, b) < LastRelease(evs, n, i, c)
  {
    var k: nat :| k < |s.order| && LastRecyclable(s, b, k);
    assert c in s.order;
    var p :| 0 <= p < |s.order| && s.order[p] == c;
  }
}
