/** The block allocator and the inode layer of fs.c, as methods that update the disk and the inodes
    in place. The disk here is what bread() returns: the latest logged content of each block. What the
    methods log, and that writei and itrunc do it step by step as the jobs of FileSteps do, is part of
    their contracts. */
module FileSystem {
  import opened Words
  import opened FsSpec
  import opened FileSteps
  import LogSpec

  // Every block is in use.
  predicate Full(sb: Super, disk: Disk)
    requires Layout(sb, disk)
  { forall c :: 0 <= c < sb.size ==> c in Used(sb, disk) }

  // What readi and writei come to. A device is handed the call.
  datatype Outcome = Device | Ret(rc: int) | Panic

  lemma ChunkRead(disk: Disk, row: seq<nat>, size: nat, cur: nat, m: nat)
    requires RowIn(row, |disk|) && size <= MAXFILE * BSIZE && cur + m <= size && InBlock(cur, m) && m > 0
    ensures Content(disk, row, size)[cur..cur + m] == disk[row[FileSlot(cur / BSIZE)]][cur % BSIZE..cur % BSIZE + m]
  {
    var c, b := Content(disk, row, size)[cur..cur + m], disk[row[FileSlot(cur / BSIZE)]][cur % BSIZE..cur % BSIZE + m];
    forall o | 0 <= o < m ensures c[o] == b[o] { SameBlock(cur, m, cur + o); }
  }

  function EmptyInode(): Inode { Inode([0, 0, 0, 0], 0, [0, 0, 0, 0, 0, 0, 0, 0, 0, 0, 0]) }

  // The first n blocks are marked, and outside the bitmap everything is zero.
  ghost predicate Formatted(sb: Super, blocks: nat, disk: Disk, n: nat) {
    && Layout(sb, disk) && |disk| == blocks && (forall b :: b in Used(sb, disk) <==> 0 <= b < n)
    && forall c :: 0 <= c < blocks && !(sb.bmapstart <= c < sb.datastart) ==> disk[c] == ZeroBlock()
  }

  lemma {:induction false} ZeroBit(k: nat)
    ensures !Bit(0, k)
  {
    if k > 0 { ZeroBit(k - 1); }
  }

  lemma Blank(sb: Super, disk: Disk)
    requires Layout(sb, disk) && forall c :: 0 <= c < |disk| ==> disk[c] == ZeroBlock()
    ensures Formatted(sb, |disk|, disk, 0) == true
  {
    forall b | 0 <= b < sb.size ensures !Marked(sb, disk, b) {
      BitmapBlockIn(sb, disk, b);
      ZeroBit(b % BPB % 8);
    }
  }

  lemma FormattedNext(sb: Super, blocks: nat, disk: Disk, n: nat)
    requires Formatted(sb, blocks, disk, n) && n < sb.datastart &&
             Used(sb, SetMark(sb, disk, n, true)) == Used(sb, disk) + {n}
    ensures Formatted(sb, blocks, SetMark(sb, disk, n, true), n + 1) == true
  {
    BitmapBlockIn(sb, disk, n);
  }

  lemma FormattedFiles(sb: Super, blocks: nat, disk: Disk, xs: seq<Inode>)
    requires Formatted(sb, blocks, disk, sb.datastart)
    requires |xs| == sb.ninodes && forall i :: 0 <= i < |xs| ==> xs[i] == EmptyInode()
    ensures CoreOk(sb, disk, xs, map[]) == true && FilesOk(sb, disk, xs) == true
  {
    forall i | 0 <= i < |xs| ensures FileOk(sb, disk, xs, i) && Row(disk, xs[i]) == seq(SLOTS, _ => 0) {
      assert i / IPB < (sb.ninodes + IPB - 1) / IPB;
      assert disk[InodeBlock(sb, i)] == ZeroBlock();
      forall w | 0 <= w < IWORDS ensures DiskWord(sb, disk, i, w) == InodeWord(xs[i], w) {}
    }
  }

  // ---- a file system between calls ----

  // The files are quiet, and are what the disk says.
  lemma GoodQuiet(sb: Super, disk: Disk, xs: seq<Inode>, owner: map<nat, (nat, nat)>)
    requires CoreOk(sb, disk, xs, owner) && FilesOk(sb, disk, xs)
    ensures AllQuiet(sb, Fs(disk, xs, AllRows(disk, xs), owner), Contents(sb, disk, xs, owner)) == true
  {
    var f, files := Fs(disk, xs, AllRows(disk, xs), owner), Contents(sb, disk, xs, owner);
    forall i | 0 <= i < |xs| ensures Quiet(sb, f, files[i], i) {
      assert FileOk(sb, disk, xs, i) && f.rows[i] == Row(disk, xs[i]);
      CoreRowIn(sb, disk, xs, owner, i);
    }
  }

  lemma QuietGood(sb: Super, f: Fs, files: seq<seq<byte>>)
    requires AllQuiet(sb, f, files)
    ensures f.rows == AllRows(f.disk, f.inodes) && CoreOk(sb, f.disk, f.inodes, f.owner) == true
    ensures FilesOk(sb, f.disk, f.inodes) == true && Contents(sb, f.disk, f.inodes, f.owner) == files
  {
    forall i | 0 <= i < |f.rows| ensures f.rows[i] == Row(f.disk, f.inodes[i]) {
      assert Quiet(sb, f, files[i], i);
    }
    assert f.rows == AllRows(f.disk, f.inodes);
    forall i | 0 <= i < |files| ensures FileOk(sb, f.disk, f.inodes, i) { assert Quiet(sb, f, files[i], i); }
    var c := Contents(sb, f.disk, f.inodes, f.owner);
    forall i | 0 <= i < |files| ensures c[i] == files[i] {
      assert Quiet(sb, f, files[i], i) && FileOk(sb, f.disk, f.inodes, i);
    }
  }

  // ---- what bmap does, and logs ----

  // balloc of b: the bitmap, and the block itself.
  function AllocWrites(sb: Super, disk: Disk, b: nat): seq<Write>
    requires Layout(sb, disk) && b < sb.size
  {
    BitmapBlockIn(sb, disk, b);
    [LogSpec.Write(BitmapBlock(sb, b), SetMark(sb, disk, b, true)[BitmapBlock(sb, b)]), LogSpec.Write(b, ZeroBlock())]
  }

  function AllocDisk(sb: Super, disk: Disk, b: nat): (d: Disk)
    requires Layout(sb, disk) && b < sb.size
    ensures |d| == |disk|
  { SetMark(sb, disk, b, true)[b := ZeroBlock()] }

  // b becomes address k of inode i.
  function AddrTaken(sb: Super, f: Fs, i: nat, k: nat, b: nat): Fs
    requires Layout(sb, f.disk) && b < sb.size && i < |f.inodes| && i < |f.rows| && |f.rows[i]| == SLOTS && k <= NDIRECT
  {
    Fs(AllocDisk(sb, f.disk, b), f.inodes[i := f.inodes[i].(addrs := f.inodes[i].addrs[k := b])],
       SetSlot(f.rows, i, k, b), f.owner[b := (i, k)])
  }

  predicate CanEnter(sb: Super, f: Fs, i: nat, k: nat, b: nat) {
    && Layout(sb, f.disk) && b < sb.size && i < |f.inodes| && i < |f.rows| && |f.rows[i]| == SLOTS
    && NDIRECT < k < SLOTS && f.inodes[i].addrs[NDIRECT] < |f.disk|
  }

  // b becomes number k of inode i, an entry of its indirect block.
  function EntryWrite(sb: Super, f: Fs, i: nat, k: nat, b: nat): Write
    requires CanEnter(sb, f, i, k, b)
  {
    var a := f.inodes[i].addrs[NDIRECT];
    LogSpec.Write(a, SetWord(AllocDisk(sb, f.disk, b)[a], k - NDIRECT - 1, b))
  }

  function EntryTaken(sb: Super, f: Fs, i: nat, k: nat, b: nat): Fs
    requires CanEnter(sb, f, i, k, b)
  {
    var w := EntryWrite(sb, f, i, k, b);
    Fs(AllocDisk(sb, f.disk, b)[w.bn := w.data], f.inodes, SetSlot(f.rows, i, k, b), f.owner[b := (i, k)])
  }

  predicate IsFree(sb: Super, disk: Disk, b: nat)
    requires Layout(sb, disk)
  { b < sb.size && b !in Used(sb, disk) }

  // One more step of a job; b is the block that balloc finds.
  lemma MidGo(sb: Super, f: Fs, files: seq<seq<byte>>, j: Job, b: nat) returns (go: Went)
    requires Mid(sb, f, files, j) == true && !j.st.Done? && (j.st.Take? ==> IsFree(sb, f.disk, b))
    ensures CanGoOn(sb, f, j, b) == true && go == Go(sb, f, j, b) && Mid(sb, go.f, files, go.j) == true
    ensures Ran(sb, f, j, Trace([b], [go.w]), go.f, go.j) == true
  {
    JobCanStep(sb, f, files[j.op.i], j, b);
    MidStep(sb, f, files, j, b);
    go := Go(sb, f, j, b);
    RanOne(sb, f, j, b, go);
  }

  // The first two steps of the job, taking block b and clearing it.
  lemma TakeRan(sb: Super, f: Fs, files: seq<seq<byte>>, j: Job, b: nat) returns (go: Went, go': Went)
    requires Mid(sb, f, files, j) == true && j.st.Take? && j.op.WriteFile? && IsFree(sb, f.disk, b)
    ensures CanGoOn(sb, f, j, b) == true && go == Go(sb, f, j, b)
    ensures CanGoOn(sb, go.f, go.j, 0) == true && go' == Go(sb, go.f, go.j, 0) && Mid(sb, go'.f, files, go'.j) == true
    ensures [go.w, go'.w] == AllocWrites(sb, f.disk, b) && (j.st.k > NDIRECT ==> go'.j.st.Link?)
    ensures Ran(sb, f, j, Trace([b, 0], AllocWrites(sb, f.disk, b)), go'.f, go'.j) == true
  {
    go := MidGo(sb, f, files, j, b);
    go' := MidGo(sb, go.f, files, go.j, 0);
    RanThen(sb, f, j, Trace([b], [go.w]), go.f, go.j, Trace([0], [go'.w]), go'.f, go'.j);
    assert [b] + [0] == [b, 0] && [go.w] + [go'.w] == [go.w, go'.w];
  }

  lemma AddrRan(sb: Super, f: Fs, files: seq<seq<byte>>, j: Job, b: nat) returns (j': Job)
    requires Mid(sb, f, files, j) && j.st.Take? && j.op.WriteFile? && j.st.k <= NDIRECT && IsFree(sb, f.disk, b)
    ensures Ran(sb, f, j, Trace([b, 0], AllocWrites(sb, f.disk, b)), AddrTaken(sb, f, j.op.i, j.st.k, b), j') == true
    ensures j' == j.(st := NextWrite(f.rows[j.op.i][j.st.k := b], j.x0.size, j.op, j.cur))
  {
    var go, go' := TakeRan(sb, f, files, j, b);
    j' := go'.j;
    assert go.f.disk == SetMark(sb, f.disk, b, true);
    assert go.f.rows == f.rows && go.f.inodes == f.inodes;
    assert go'.f == AddrTaken(sb, f, j.op.i, j.st.k, b);
  }

  lemma EntryCan(sb: Super, f: Fs, files: seq<seq<byte>>, j: Job, b: nat)
    requires Mid(sb, f, files, j) == true && j.st.Take? && j.op.WriteFile? && j.st.k > NDIRECT && b < sb.size
    ensures CanEnter(sb, f, j.op.i, j.st.k, b)
  {
    SlotIn(sb, f, j.op.i, NDIRECT);
  }

  lemma EntryRan(sb: Super, f: Fs, files: seq<seq<byte>>, j: Job, b: nat) returns (tr: Trace, j': Job)
    requires Mid(sb, f, files, j) == true && j.st.Take? && j.op.WriteFile? && j.st.k > NDIRECT && IsFree(sb, f.disk, b)
    ensures CanEnter(sb, f, j.op.i, j.st.k, b)
    ensures tr.ws == AllocWrites(sb, f.disk, b) + [EntryWrite(sb, f, j.op.i, j.st.k, b)]
    ensures Ran(sb, f, j, tr, EntryTaken(sb, f, j.op.i, j.st.k, b), j') == true
    ensures j' == j.(st := NextWrite(f.rows[j.op.i][j.st.k := b], j.x0.size, j.op, j.cur))
  {
    EntryCan(sb, f, files, j, b);
    var go, go1 := TakeRan(sb, f, files, j, b);
    var go2 := MidGo(sb, go1.f, files, go1.j, 0);
    EntryStates(sb, f, j, b, go, go1, go2);
    var t1, t2 := Trace([b, 0], AllocWrites(sb, f.disk, b)), Trace([0], [go2.w]);
    RanThen(sb, f, j, t1, go1.f, go1.j, t2, go2.f, go2.j);
    tr, j' := Then(t1, t2), go2.j;
  }

  lemma EntryStates(sb: Super, f: Fs, j: Job, b: nat, go: Went, go1: Went, go2: Went)
    requires CanGoOn(sb, f, j, b) == true && j.st.Take? && j.st.k > NDIRECT && CanEnter(sb, f, j.op.i, j.st.k, b)
    requires go == Go(sb, f, j, b) && CanGoOn(sb, go.f, go.j, 0) == true && go1 == Go(sb, go.f, go.j, 0)
    requires CanGoOn(sb, go1.f, go1.j, 0) == true && go2 == Go(sb, go1.f, go1.j, 0)
    ensures [go.w] + [go1.w] == AllocWrites(sb, f.disk, b) && go2.w == EntryWrite(sb, f, j.op.i, j.st.k, b)
    ensures go2.f == EntryTaken(sb, f, j.op.i, j.st.k, b)
    ensures go2.j == j.(st := NextWrite(f.rows[j.op.i][j.st.k := b], j.x0.size, j.op, j.cur))
  {
    assert go.f.disk == SetMark(sb, f.disk, b, true);
    assert go.f.rows == f.rows && go.f.inodes == f.inodes;
    assert go1.f.disk == AllocDisk(sb, f.disk, b);
    assert go1.f.rows == f.rows && go1.f.inodes == f.inodes;
  }

  // What bmap of block n has done to f: b0 has become the indirect block, if there was none and it is
  // needed, and b1 block n of the file, if there was none.
  predicate Fetched(sb: Super, f: Fs, i: nat, n: nat, b0: nat, b1: nat, f': Fs, ws: seq<Write>)
    requires Whole(sb, f) && i < |f.inodes| && n < MAXFILE
  {
    && (b0 != 0 <==> n >= NDIRECT && f.rows[i][NDIRECT] == 0) && (b0 != 0 ==> IsFree(sb, f.disk, b0))
    && var f1 := if b0 != 0 then AddrTaken(sb, f, i, NDIRECT, b0) else f;
       var ws1 := if b0 != 0 then AllocWrites(sb, f.disk, b0) else [];
       && Layout(sb, f1.disk) && (b1 != 0 <==> f1.rows[i][FileSlot(n)] == 0) && (b1 != 0 ==> IsFree(sb, f1.disk, b1))
       && if b1 == 0 then f' == f1 && ws == ws1
          else if n < NDIRECT then f' == AddrTaken(sb, f1, i, n, b1) && ws == ws1 + AllocWrites(sb, f1.disk, b1)
          else
            && CanEnter(sb, f1, i, FileSlot(n), b1) && f' == EntryTaken(sb, f1, i, FileSlot(n), b1)
            && ws == ws1 + (AllocWrites(sb, f1.disk, b1) + [EntryWrite(sb, f1, i, FileSlot(n), b1)])
  }

  lemma FetchedTwice(sb: Super, f: Fs, i: nat, l: nat, b0: nat, f1: Fs, b1: nat, f': Fs, ws1: seq<Write>,
                     log: seq<Write>, log': seq<Write>) returns (ws: seq<Write>)
    requires Whole(sb, f) && i < |f.inodes| && l < NINDIRECT
    requires Layout(sb, f1.disk) && i < |f1.rows| && |f1.rows[i]| == SLOTS
    requires b0 != 0 <==> f.rows[i][NDIRECT] == 0
    requires b0 == 0 ==> f1 == f && log' == log + ws1
    requires b0 != 0 ==> IsFree(sb, f.disk, b0) && f1 == AddrTaken(sb, f, i, NDIRECT, b0)
    requires b0 != 0 ==> log' == log + AllocWrites(sb, f.disk, b0) + ws1
    requires b1 != 0 <==> f1.rows[i][NDIRECT + 1 + l] == 0
    requires b1 == 0 ==> f' == f1 && ws1 == []
    requires b1 != 0 ==> IsFree(sb, f1.disk, b1) && CanEnter(sb, f1, i, NDIRECT + 1 + l, b1)
    requires b1 != 0 ==> f' == EntryTaken(sb, f1, i, NDIRECT + 1 + l, b1)
    requires b1 != 0 ==> ws1 == AllocWrites(sb, f1.disk, b1) + [EntryWrite(sb, f1, i, NDIRECT + 1 + l, b1)]
    ensures Fetched(sb, f, i, NDIRECT + l, b0, b1, f', ws) == true && log' == log + ws
  {
    ws := (if b0 != 0 then AllocWrites(sb, f.disk, b0) else []) + ws1;
  }

  // The block of data, once the indirect block is there.
  lemma DataRan(sb: Super, f: Fs, files: seq<seq<byte>>, j: Job, b1: nat, f': Fs, ws: seq<Write>)
      returns (tr: Trace, j': Job)
    requires Mid(sb, f, files, j) && j.op.WriteFile? && j.cur < End(j.op)
    requires j.st == Take(SlotAt(j.cur)) || j.st == Fill
    requires (b1 != 0 <==> j.st.Take?) && (b1 != 0 ==> IsFree(sb, f.disk, b1))
    requires b1 == 0 ==> f' == f && ws == []
    requires b1 != 0 && SlotAt(j.cur) < NDIRECT ==>
             f' == AddrTaken(sb, f, j.op.i, SlotAt(j.cur), b1) && ws == AllocWrites(sb, f.disk, b1)
    requires b1 != 0 && SlotAt(j.cur) > NDIRECT ==>
             && CanEnter(sb, f, j.op.i, SlotAt(j.cur), b1) && f' == EntryTaken(sb, f, j.op.i, SlotAt(j.cur), b1)
             && ws == AllocWrites(sb, f.disk, b1) + [EntryWrite(sb, f, j.op.i, SlotAt(j.cur), b1)]
    ensures Ran(sb, f, j, tr, f', j') == true && tr.ws == ws && j' == j.(st := Fill)
  {
    if b1 == 0 {
      tr, j' := Trace([], []), j;
      RanNone(sb, f, j);
    } else if SlotAt(j.cur) < NDIRECT {
      tr := Trace([b1, 0], ws);
      j' := AddrRan(sb, f, files, j, b1);
    } else {
      tr, j' := EntryRan(sb, f, files, j, b1);
    }
  }

  // So bmap does what the job of writei does, up to the point where it has its block.
  lemma FetchRan(sb: Super, f: Fs, files: seq<seq<byte>>, j: Job, b0: nat, b1: nat, f': Fs, ws: seq<Write>)
      returns (tr: Trace, j': Job)
    requires Mid(sb, f, files, j) && j.op.WriteFile? && j.cur < End(j.op)
    requires j.st == NextWrite(f.rows[j.op.i], j.x0.size, j.op, j.cur)
    requires Fetched(sb, f, j.op.i, j.cur / BSIZE, b0, b1, f', ws)
    ensures Ran(sb, f, j, tr, f', j') == true && tr.ws == ws && j' == j.(st := Fill)
  {
    if b0 != 0 {
      var f1, a := AddrTaken(sb, f, j.op.i, NDIRECT, b0), Trace([b0, 0], AllocWrites(sb, f.disk, b0));
      var j1 := AddrRan(sb, f, files, j, b0);
      RanMid(sb, f, files, j, a, f1, j1);
      var b;
      b, j' := DataRan(sb, f1, files, j1, b1, f', if b1 == 0 then [] else ws[2..]);
      RanThen(sb, f, j, a, f1, j1, b, f', j');
      tr := Then(a, b);
    } else {
      tr, j' := DataRan(sb, f, files, j, b1, f', ws);
    }
  }

  // bmap has found the disk full: it may have made the indirect block first.
  predicate Stuck(sb: Super, f: Fs, i: nat, n: nat, b0: nat, f': Fs, ws: seq<Write>)
    requires Whole(sb, f) && i < |f.inodes| && n < MAXFILE
  {
    && (b0 != 0 ==> n >= NDIRECT && f.rows[i][NDIRECT] == 0 && IsFree(sb, f.disk, b0))
    && f' == (if b0 != 0 then AddrTaken(sb, f, i, NDIRECT, b0) else f)
    && ws == (if b0 != 0 then AllocWrites(sb, f.disk, b0) else [])
    && Layout(sb, f'.disk) && Full(sb, f'.disk) && f'.rows[i][FileSlot(n)] == 0
  }

  // Then writei is at a block that it cannot get, and needed more than there were.
  lemma StuckRan(sb: Super, f: Fs, files: seq<seq<byte>>, j: Job, b0: nat, f': Fs, ws: seq<Write>)
      returns (tr: Trace, j': Job)
    requires Mid(sb, f, files, j) && j.op.WriteFile? && j.cur < End(j.op)
    requires j.st == NextWrite(f.rows[j.op.i], j.x0.size, j.op, j.cur)
    requires Stuck(sb, f, j.op.i, j.cur / BSIZE, b0, f', ws)
    ensures Ran(sb, f, j, tr, f', j') == true && tr.ws == ws && j' == j.(st := j'.st) && j'.st.Take?
    ensures StillNeeded(f.rows[j.op.i], j) > Unused(sb, f.disk)
  {
    if b0 != 0 {
      tr := Trace([b0, 0], AllocWrites(sb, f.disk, b0));
      j' := AddrRan(sb, f, files, j, b0);
      RanMid(sb, f, files, j, tr, f', j');
      RanNeed(sb, f, files, j, tr, f', j');
      FullNeeds(sb, f', files[j.op.i], j');
    } else {
      tr, j' := Trace([], []), j;
      RanNone(sb, f, j);
      FullNeeds(sb, f, files[j.op.i], j);
    }
  }

  // ---- whole calls ----

  // Inode i may have other blocks and another size; nothing else about the inodes has changed.
  predicate SameButSize(xs: seq<Inode>, xs': seq<Inode>, i: nat)
    requires i < |xs|
  { |xs'| == |xs| && xs' == xs[i := xs'[i]] && xs'[i] == xs[i].(addrs := xs'[i].addrs, size := xs'[i].size) }

  lemma {:induction false} RanInodes(sb: Super, f: Fs, j: Job, tr: Trace, f': Fs, j': Job)
    requires Ran(sb, f, j, tr, f', j') && j.op.i < |f.inodes|
    ensures SameButSize(f.inodes, f'.inodes, j.op.i) == true && j'.op == j.op && j'.x0 == j.x0
    decreases |tr.bs|
  {
    RanFirst(sb, f, j, tr, f', j');
    if tr.bs == [] {
      assert f.inodes == f.inodes[j.op.i := f.inodes[j.op.i]];
    } else {
      var go := Go(sb, f, j, tr.bs[0]);
      RanInodes(sb, go.f, go.j, Trace(tr.bs[1..], tr.ws[1..]), f', j');
    }
  }

  // While writei is at work its row, too, is what the disk says.
  lemma MidCore(sb: Super, f: Fs, files: seq<seq<byte>>, j: Job)
    requires Mid(sb, f, files, j) == true && j.op.WriteFile?
    ensures CoreOk(sb, f.disk, f.inodes, f.owner) == true && f.rows == AllRows(f.disk, f.inodes)
  {
    forall i | 0 <= i < |f.rows| ensures f.rows[i] == Row(f.disk, f.inodes[i]) {
      if i != j.op.i { assert Quiet(sb, f, files[i], i); }
    }
    assert f.rows == AllRows(f.disk, f.inodes);
  }

  predicate Began(sb: Super, f: Fs, files: seq<seq<byte>>, op: FileOp) {
    AllQuiet(sb, f, files) && op.i < |files| && Fits(files[op.i], op)
  }

  predicate InFile(f: Fs, op: FileOp) {
    && op.i < |f.inodes| == |f.rows| && |f.rows[op.i]| == SLOTS
    && (op.WriteFile? ==> End(op) <= MAXFILE * BSIZE)
  }

  // A call that began with f0 and files has come to j, and has logged tr.ws.
  datatype Run = Run(f0: Fs, files: seq<seq<byte>>, log0: seq<Write>, tr: Trace, j: Job)

  ghost predicate Going(sb: Super, run: Run, f: Fs, log: seq<Write>) {
    var f0, op := run.f0, run.j.op;
    && Began(sb, f0, run.files, op) == true && InFile(f0, op) && InFile(f, op)
    && Ran(sb, f0, Start(f0.rows[op.i], f0.inodes[op.i], op), run.tr, f, run.j) == true
    && log == run.log0 + run.tr.ws
  }

  predicate SameCall(run: Run, run': Run) { run' == run.(tr := run'.tr, j := run'.j) && run'.j.op == run.j.op }

  lemma GoingMid(sb: Super, run: Run, f: Fs, log: seq<Write>)
    requires Going(sb, run, f, log) == true
    ensures Mid(sb, f, run.files, run.j) == true
  {
    var f0, op := run.f0, run.j.op;
    MidStart(sb, f0, run.files, op);
    RanMid(sb, f0, run.files, Start(f0.rows[op.i], f0.inodes[op.i], op), run.tr, f, run.j);
  }

  lemma GoingWhole(sb: Super, run: Run, f: Fs, log: seq<Write>)
    requires Going(sb, run, f, log) == true
    ensures Layout(sb, f.disk) && |f.inodes| == sb.ninodes
  {
    GoingMid(sb, run, f, log);
  }

  lemma Starting(sb: Super, f: Fs, files: seq<seq<byte>>, log: seq<Write>, op: FileOp) returns (run: Run)
    requires Began(sb, f, files, op) == true
    ensures InFile(f, op) && Going(sb, run, f, log) == true
    ensures run == Run(f, files, log, Trace([], []), Start(f.rows[op.i], f.inodes[op.i], op))
  {
    run := Run(f, files, log, Trace([], []), Start(f.rows[op.i], f.inodes[op.i], op));
    RanNone(sb, f, run.j);
  }

  // More steps.
  lemma GoesOn(sb: Super, run: Run, f: Fs, log: seq<Write>, tr: Trace, f': Fs, j': Job) returns (run': Run)
    requires Going(sb, run, f, log) == true && Ran(sb, f, run.j, tr, f', j') == true
    requires j'.op == run.j.op && InFile(f', j'.op)
    ensures Going(sb, run', f', log + tr.ws) == true && run' == run.(tr := Then(run.tr, tr), j := j')
  {
    var f0, op := run.f0, run.j.op;
    RanThen(sb, f0, Start(f0.rows[op.i], f0.inodes[op.i], op), run.tr, f, run.j, tr, f', j');
    run' := run.(tr := Then(run.tr, tr), j := j');
    assert run.log0 + run.tr.ws + tr.ws == run.log0 + (run.tr.ws + tr.ws);
  }

  lemma GoingCan(sb: Super, run: Run, f: Fs, log: seq<Write>)
    requires Going(sb, run, f, log) == true && !run.j.st.Take? && !run.j.st.Done?
    ensures CanGoOn(sb, f, run.j, 0) == true
  {
    GoingMid(sb, run, f, log);
    var go := MidGo(sb, f, run.files, run.j, 0);
  }

  // The steps of bmap.
  lemma FetchGoes(sb: Super, run: Run, f: Fs, log: seq<Write>, b0: nat, b1: nat, f': Fs, ws: seq<Write>)
      returns (run': Run)
    requires Going(sb, run, f, log) == true && Whole(sb, f) == true && run.j.op.WriteFile? && run.j.cur < End(run.j.op)
    requires run.j.st == NextWrite(f.rows[run.j.op.i], run.j.x0.size, run.j.op, run.j.cur) && InFile(f', run.j.op)
    requires Fetched(sb, f, run.j.op.i, run.j.cur / BSIZE, b0, b1, f', ws) == true
    ensures Going(sb, run', f', log + ws) == true && SameCall(run, run') && run'.j == run.j.(st := Fill)
  {
    GoingMid(sb, run, f, log);
    var tr, j' := FetchRan(sb, f, run.files, run.j, b0, b1, f', ws);
    run' := GoesOn(sb, run, f, log, tr, f', j');
  }

  lemma StuckGoes(sb: Super, run: Run, f: Fs, log: seq<Write>, b0: nat, f': Fs, ws: seq<Write>) returns (run': Run)
    requires Going(sb, run, f, log) == true && Whole(sb, f) == true && run.j.op.WriteFile? && run.j.cur < End(run.j.op)
    requires run.j.st == NextWrite(f.rows[run.j.op.i], run.j.x0.size, run.j.op, run.j.cur) && InFile(f', run.j.op)
    requires Stuck(sb, f, run.j.op.i, run.j.cur / BSIZE, b0, f', ws) == true
    ensures Short(sb, run.f0, run.j.op) == true
    ensures Going(sb, run', f', log + ws) == true && SameCall(run, run') && run'.j.st.Take?
  {
    GoingMid(sb, run, f, log);
    var tr, j' := StuckRan(sb, f, run.files, run.j, b0, f', ws);
    var f0, op := run.f0, run.j.op;
    MidStart(sb, f0, run.files, op);
    var j := Start(f0.rows[op.i], f0.inodes[op.i], op);
    RanNeed(sb, f0, run.files, j, run.tr, f, run.j);
    StartNeeds(f0.rows[op.i], j);
    run' := GoesOn(sb, run, f, log, tr, f', j');
  }

  // Fewer blocks are free than writei needs.
  predicate Short(sb: Super, f: Fs, op: FileOp) {
    && op.WriteFile? && InFile(f, op) && Layout(sb, f.disk)
    && Need(f.rows[op.i], op, op.off) > Unused(sb, f.disk)
  }

  // Bytes of src put into the block of byte cur, at addr.
  predicate Filled(f: Fs, j: Job, addr: nat, m: nat, data: Block) {
    && j.op.WriteFile? && addr < |f.disk| && InBlock(j.cur, m) && 0 <= j.cur - j.op.off <= |j.op.src| - m
    && data == Patched(f.disk[addr], j.cur % BSIZE, j.op.src[j.cur - j.op.off..j.cur - j.op.off + m])
  }

  lemma FillOne(sb: Super, f: Fs, j: Job, addr: nat, m: nat) returns (data: Block, j': Job)
    requires CanGoOn(sb, f, j, 0) == true && j.st == Fill && InFile(f, j.op) && j.op.WriteFile? && j.cur < End(j.op)
    requires addr == f.rows[j.op.i][SlotAt(j.cur)] && m == Chunk(j.op, j.cur)
    ensures Filled(f, j, addr, m, data) == true
    ensures j' == j.(cur := j.cur + m, st := NextWrite(f.rows[j.op.i], j.x0.size, j.op, j.cur + m))
    ensures Ran(sb, f, j, Trace([0], [LogSpec.Write(addr, data)]), f.(disk := f.disk[addr := data]), j') == true
  {
    var go := Go(sb, f, j, 0);
    RanOne(sb, f, j, 0, go);
    SlotIn(sb, f, j.op.i, SlotAt(j.cur));
    assert f.rows == f.rows[j.op.i := f.rows[j.op.i]] && f.inodes == f.inodes[j.op.i := f.inodes[j.op.i]];
    data, j' := go.w.data, go.j;
  }

  lemma FillGoes(sb: Super, run: Run, f: Fs, log: seq<Write>, addr: nat, m: nat) returns (run': Run, data: Block)
    requires Going(sb, run, f, log) == true && run.j.op.WriteFile? && run.j.st == Fill && run.j.cur < End(run.j.op)
    requires addr == f.rows[run.j.op.i][SlotAt(run.j.cur)] && m == Chunk(run.j.op, run.j.cur)
    ensures Filled(f, run.j, addr, m, data) == true
    ensures Going(sb, run', f.(disk := f.disk[addr := data]), log + [LogSpec.Write(addr, data)]) == true
    ensures SameCall(run, run') && run'.j == run.j.(cur := run.j.cur + m,
            st := NextWrite(f.rows[run.j.op.i], run.j.x0.size, run.j.op, run.j.cur + m))
  {
    GoingCan(sb, run, f, log);
    var j';
    data, j' := FillOne(sb, f, run.j, addr, m);
    run' := GoesOn(sb, run, f, log, Trace([0], [LogSpec.Write(addr, data)]), f.(disk := f.disk[addr := data]), j');
  }

  // Inode i is stored as x.
  predicate Saved(sb: Super, f: Fs, i: nat, x: Inode, w: Write) {
    && i % IPB * IWORDS + IWORDS <= WORDS && w.bn == InodeBlock(sb, i) < |f.disk|
    && w.data == PutInode(f.disk[w.bn], i % IPB * IWORDS, x, IWORDS)
  }

  lemma SaveOne(sb: Super, f: Fs, j: Job, x: Inode) returns (w: Write)
    requires CanGoOn(sb, f, j, 0) == true && j.st == Save && InFile(f, j.op)
    requires x == f.inodes[j.op.i].(size := if j.op.WriteFile? then End(j.op) else 0)
    ensures Saved(sb, f, j.op.i, x, w) == true
    ensures Ran(sb, f, j, Trace([0], [w]), f.(disk := f.disk[w.bn := w.data], inodes := f.inodes[j.op.i := x]),
                j.(st := Done)) == true
  {
    var go := Go(sb, f, j, 0);
    RanOne(sb, f, j, 0, go);
    InodeIn(sb, f.disk, j.op.i);
    assert f.rows == f.rows[j.op.i := f.rows[j.op.i]];
    w := go.w;
  }

  lemma SaveGoes(sb: Super, run: Run, f: Fs, log: seq<Write>, x: Inode) returns (run': Run, w: Write)
    requires Going(sb, run, f, log) == true && run.j.st == Save
    requires x == f.inodes[run.j.op.i].(size := if run.j.op.WriteFile? then End(run.j.op) else 0)
    ensures Saved(sb, f, run.j.op.i, x, w) == true
    ensures Going(sb, run', f.(disk := f.disk[w.bn := w.data], inodes := f.inodes[run.j.op.i := x]), log + [w]) == true
    ensures SameCall(run, run') && run'.j == run.j.(st := Done)
  {
    GoingCan(sb, run, f, log);
    w := SaveOne(sb, f, run.j, x);
    run' := GoesOn(sb, run, f, log, Trace([0], [w]),
                   f.(disk := f.disk[w.bn := w.data], inodes := f.inodes[run.j.op.i := x]), run.j.(st := Done));
  }

  // What writei needs is what it needs at first.
  lemma StartNeeds(row: seq<nat>, j: Job)
    requires |row| == SLOTS && j.op.WriteFile? && End(j.op) <= MAXFILE * BSIZE && !j.st.Clear? && !j.st.Link?
    ensures StillNeeded(row, j) == Need(row, j.op, j.cur)
  {
    assert DataRow(row, j.st) == row;
  }

  // writei that has come to its end had the blocks it needed.
  lemma HadEnough(sb: Super, run: Run, f: Fs, log: seq<Write>)
    requires Going(sb, run, f, log) == true && run.j.op.WriteFile? && run.j.cur == End(run.j.op)
    ensures Short(sb, run.f0, run.j.op) == false
  {
    var f0, op := run.f0, run.j.op;
    MidStart(sb, f0, run.files, op);
    var j := Start(f0.rows[op.i], f0.inodes[op.i], op);
    RanNeed(sb, f0, run.files, j, run.tr, f, run.j);
    StartNeeds(f0.rows[op.i], j);
    UnusedAtLeast(sb, f.disk);
  }

  // The first n blocks of data are among those logged, and are different blocks.
  lemma {:induction false} SpanLogged(sb: Super, f: Fs, j: Job, places: set<Place>, ns: seq<nat>, n: nat)
      returns (s: set<nat>)
    requires Whole(sb, f) && j.op.i < |f.rows| && j.op.WriteFile? && Placed(sb, f, j, places, ns)
    requires j.st.Done? && j.op.src != [] && j.cur == End(j.op) <= MAXFILE * BSIZE && n <= Span(j.op)
    ensures s <= SetOf(ns) && |s| == n
    ensures forall b :: b in s ==> b in f.owner && f.owner[b].1 < FileSlot(First(j.op) + n)
  {
    if n == 0 {
      s := {};
    } else {
      s := SpanLogged(sb, f, j, places, ns, n - 1);
      var k := FileSlot(First(j.op) + n - 1);
      assert Data(k) in places;
      assert BlockAt(sb, f, j, Data(k)) == f.rows[j.op.i][k];
      SlotIn(sb, f, j.op.i, k);
      s := s + {f.rows[j.op.i][k]};
    }
  }

  // The call op on f has led to f'. What it logged are the steps of its job, in order, and the disk is what
  // it was with all that was logged put in place, none of it before the inode blocks; it has logged no more
  // blocks than it may, and for a write every block the bytes are in.
  ghost predicate CallDid(sb: Super, f: Fs, op: FileOp, tr: Trace, f': Fs) {
    && InFile(f, op) && (exists j :: Ran(sb, f, Start(f.rows[op.i], f.inodes[op.i], op), tr, f', j) && j.st.Done?)
    && LogSpec.InRange(f.disk, tr.ws) && f'.disk == LogSpec.Apply(f.disk, tr.ws, |tr.ws|)
    && (forall k :: 0 <= k < |tr.ws| ==> sb.inodestart <= tr.ws[k].bn)
    && |SetOf(Numbers(tr.ws))| <= Bound(sb, op) && (op.WriteFile? ==> Span(op) <= |SetOf(Numbers(tr.ws))|)
  }

  lemma CallBlocks(sb: Super, run: Run, f: Fs, log: seq<Write>)
    requires Going(sb, run, f, log) == true && run.j.st.Done? && (run.j.op.WriteFile? ==> run.j.cur == End(run.j.op))
    ensures |SetOf(Numbers(run.tr.ws))| <= Bound(sb, run.j.op)
    ensures run.j.op.WriteFile? ==> Span(run.j.op) <= |SetOf(Numbers(run.tr.ws))|
  {
    var f0, op, ns := run.f0, run.j.op, Numbers(run.tr.ws);
    MidStart(sb, f0, run.files, op);
    var places := RanPlaces(sb, f0, run.files, Start(f0.rows[op.i], f0.inodes[op.i], op), run.tr, f, run.j, {}, []);
    assert [] + ns == ns;
    PlacesFit(sb, op, places);
    if op.WriteFile? && op.src != [] {
      var s := SpanLogged(sb, f, run.j, places, ns, Span(op));
      SubsetSize(s, SetOf(ns));
    }
  }

  // The call op has come to a block that it cannot get: all it has logged is in place, and every file but its
  // own is what it was.
  ghost predicate CallStuck(sb: Super, f: Fs, files: seq<seq<byte>>, op: FileOp, tr: Trace, f': Fs) {
    && InFile(f, op) && LogSpec.InRange(f.disk, tr.ws) && f'.disk == LogSpec.Apply(f.disk, tr.ws, |tr.ws|)
    && exists j :: Ran(sb, f, Start(f.rows[op.i], f.inodes[op.i], op), tr, f', j) && j.st.Take? && Mid(sb, f', files, j)
  }

  lemma StuckEnds(sb: Super, run: Run, f: Fs, log: seq<Write>)
    requires Going(sb, run, f, log) == true && run.j.st.Take?
    ensures CallStuck(sb, run.f0, run.files, run.j.op, run.tr, f) == true
  {
    var f0, op := run.f0, run.j.op;
    RanDisk(sb, f0, Start(f0.rows[op.i], f0.inodes[op.i], op), run.tr, f, run.j);
    GoingMid(sb, run, f, log);
  }

  // The end of a call.
  lemma CallEnds(sb: Super, run: Run, f: Fs, log: seq<Write>)
    requires Going(sb, run, f, log) == true && run.j.st.Done? && (run.j.op.WriteFile? ==> run.j.cur == End(run.j.op))
    ensures CallDid(sb, run.f0, run.j.op, run.tr, f) == true
    ensures SameButSize(run.f0.inodes, f.inodes, run.j.op.i) == true
  {
    var f0, op := run.f0, run.j.op;
    var j := Start(f0.rows[op.i], f0.inodes[op.i], op);
    RanDisk(sb, f0, j, run.tr, f, run.j);
    RanInodes(sb, f0, j, run.tr, f, run.j);
    CallBlocks(sb, run, f, log);
  }

  lemma CallFiles(sb: Super, run: Run, f: Fs, log: seq<Write>)
    requires Going(sb, run, f, log) == true && run.j.st.Done?
    requires run.j.op.i < |run.files| && Fits(run.files[run.j.op.i], run.j.op)
    ensures f.rows == AllRows(f.disk, f.inodes) && CoreOk(sb, f.disk, f.inodes, f.owner) == true
    ensures FilesOk(sb, f.disk, f.inodes) == true
    ensures Contents(sb, f.disk, f.inodes, f.owner) ==
            run.files[run.j.op.i := Result(run.files[run.j.op.i], run.j.op)]
  {
    GoingMid(sb, run, f, log);
    MidEnd(sb, f, run.files, run.j);
    QuietGood(sb, f, run.files[run.j.op.i := Result(run.files[run.j.op.i], run.j.op)]);
  }

  // Until the inode is saved, the size is what it was.
  lemma GoingSize(sb: Super, run: Run, f: Fs, log: seq<Write>)
    requires Going(sb, run, f, log) == true && run.j.op.WriteFile? && run.j.cur == End(run.j.op)
    requires run.j.st == NextWrite(f.rows[run.j.op.i], run.j.x0.size, run.j.op, run.j.cur)
    ensures f.inodes[run.j.op.i].size == run.j.x0.size >= run.j.op.off
  {
    var f0, op := run.f0, run.j.op;
    GoingMid(sb, run, f, log);
    RanInodes(sb, f0, Start(f0.rows[op.i], f0.inodes[op.i], op), run.tr, f, run.j);
    assert Quiet(sb, f0, run.files[op.i], op.i);
  }

  // ---- itrunc ----

  // itrunc has come to its n-th number; those from there on are as on disk.
  predicate AtNumber(run: Run, f: Fs, i: nat, n: nat) {
    && run.j.op == Truncate(i) && InFile(f, run.j.op) && n <= SLOTS + 1
    && run.j.cur == NextFree(f.rows[i], n) && run.j.st == FreeStage(run.j.cur)
    && f.rows[i] == Masked(Row(f.disk, f.inodes[i]), n)
  }

  predicate CanFree(sb: Super, f: Fs, i: nat, n: nat) {
    && Layout(sb, f.disk) && InFile(f, Truncate(i)) && n <= SLOTS && n != NDIRECT
    && 0 < f.rows[i][Num(n)] < sb.size
  }

  // The block of the n-th number is free.
  function Freed(sb: Super, f: Fs, i: nat, n: nat): Fs
    requires CanFree(sb, f, i, n)
  {
    var x, k := f.inodes[i], Num(n);
    Fs(SetMark(sb, f.disk, f.rows[i][k], false),
       f.inodes[i := if k <= NDIRECT then x.(addrs := x.addrs[k := 0]) else x],
       f.rows[i := f.rows[i][k := 0]], f.owner)
  }

  function FreeWrite(sb: Super, f: Fs, i: nat, n: nat): Write
    requires CanFree(sb, f, i, n)
  {
    var b := f.rows[i][Num(n)];
    BitmapBlockIn(sb, f.disk, b);
    LogSpec.Write(BitmapBlock(sb, b), SetMark(sb, f.disk, b, false)[BitmapBlock(sb, b)])
  }

  lemma FreeOne(sb: Super, f: Fs, j: Job, i: nat, n: nat)
    requires CanGoOn(sb, f, j, 0) == true && j.op == Truncate(i) && InFile(f, j.op) && j.st == Free(n) && n != NDIRECT
    ensures CanFree(sb, f, i, n) && f.rows[i][Num(n)] in Used(sb, f.disk)
    ensures var m := NextFree(Freed(sb, f, i, n).rows[i], n + 1);
            Ran(sb, f, j, Trace([0], [FreeWrite(sb, f, i, n)]), Freed(sb, f, i, n),
                j.(cur := m, st := FreeStage(m))) == true
  {
    var go := Go(sb, f, j, 0);
    RanOne(sb, f, j, 0, go);
    SlotIn(sb, f, i, Num(n));
    assert go.f.disk == SetMark(sb, f.disk, f.rows[i][Num(n)], false);
  }

  lemma MaskOne(row: seq<nat>, row': seq<nat>, n: nat)
    requires |row| == |row'| == SLOTS && n <= SLOTS && n != NDIRECT
    requires forall k :: 0 <= k < SLOTS && !Past(n + 1, k) ==> row'[k] == row[k]
    ensures Masked(row', n + 1) == Masked(row, n)[Num(n) := 0]
  {
    forall k | 0 <= k < SLOTS ensures Past(n + 1, k) <==> Past(n, k) || k == Num(n) {}
  }

  lemma FreedRow(sb: Super, f: Fs, i: nat, n: nat)
    requires Whole(sb, f) && CanFree(sb, f, i, n) && f.rows[i] == Masked(Row(f.disk, f.inodes[i]), n)
    ensures Freed(sb, f, i, n).rows[i] == Masked(Row(Freed(sb, f, i, n).disk, Freed(sb, f, i, n).inodes[i]), n + 1)
  {
    var f', x := Freed(sb, f, i, n), f.inodes[i];
    BitmapBlockIn(sb, f.disk, f.rows[i][Num(n)]);
    assert f.rows[i][NDIRECT] == x.addrs[NDIRECT];
    if x.addrs[NDIRECT] != 0 { SlotIn(sb, f, i, NDIRECT); }
    forall k | 0 <= k < SLOTS && !Past(n + 1, k) ensures Row(f'.disk, f'.inodes[i])[k] == Row(f.disk, x)[k] {}
    MaskOne(Row(f.disk, x), Row(f'.disk, f'.inodes[i]), n);
  }

  // One more number.
  lemma FreeGoes(sb: Super, run: Run, f: Fs, log: seq<Write>, i: nat, n: nat) returns (run': Run)
    requires Going(sb, run, f, log) == true && AtNumber(run, f, i, n) == true && n <= SLOTS && n != NDIRECT
    requires f.rows[i][Num(n)] != 0
    ensures CanFree(sb, f, i, n) && f.rows[i][Num(n)] in Used(sb, f.disk)
    ensures Going(sb, run', Freed(sb, f, i, n), log + [FreeWrite(sb, f, i, n)]) == true && SameCall(run, run')
    ensures AtNumber(run', Freed(sb, f, i, n), i, n + 1) == true
  {
    GoingCan(sb, run, f, log);
    FreeOne(sb, f, run.j, i, n);
    var f' := Freed(sb, f, i, n);
    var m := NextFree(f'.rows[i], n + 1);
    run' := GoesOn(sb, run, f, log, Trace([0], [FreeWrite(sb, f, i, n)]), f', run.j.(cur := m, st := FreeStage(m)));
    GoingMid(sb, run, f, log);
    FreedRow(sb, f, i, n);
  }

  lemma AtFirst(run: Run, f: Fs, i: nat)
    requires InFile(f, Truncate(i)) && run.j == Start(f.rows[i], f.inodes[i], Truncate(i))
    requires f.rows[i] == Row(f.disk, f.inodes[i])
    ensures AtNumber(run, f, i, 0) == true
  {
    assert Masked(f.rows[i], 0) == f.rows[i];
  }

  // A number that has no block.
  lemma SkipNumber(run: Run, f: Fs, i: nat, n: nat)
    requires AtNumber(run, f, i, n) == true && n <= SLOTS && (n == NDIRECT || f.rows[i][Num(n)] == 0)
    ensures AtNumber(run, f, i, n + 1) == true
  {
    var row := Row(f.disk, f.inodes[i]);
    if n == NDIRECT { assert Masked(row, n + 1) == Masked(row, n); } else { MaskOne(row, row, n); }
  }

  // Without an indirect block there is nothing more.
  lemma {:induction false} SkipEntries(run: Run, f: Fs, i: nat, n: nat)
    requires AtNumber(run, f, i, n) == true && n >= NDIRECT && f.inodes[i].addrs[NDIRECT] == 0
    ensures AtNumber(run, f, i, SLOTS + 1) == true
    decreases SLOTS + 1 - n
  {
    if n <= SLOTS {
      assert n < SLOTS && n != NDIRECT ==> Row(f.disk, f.inodes[i])[n] == 0;
      SkipNumber(run, f, i, n);
      SkipEntries(run, f, i, n + 1);
    }
  }

  lemma AddrIs(run: Run, f: Fs, i: nat, n: nat)
    requires AtNumber(run, f, i, n) == true && (n < NDIRECT || n == SLOTS)
    ensures f.rows[i][Num(n)] == f.inodes[i].addrs[Num(n)]
  {}

  lemma EntryIs(sb: Super, run: Run, f: Fs, log: seq<Write>, i: nat, l: nat)
    requires Going(sb, run, f, log) == true && l < NINDIRECT && AtNumber(run, f, i, NDIRECT + 1 + l) == true
    requires f.inodes[i].addrs[NDIRECT] != 0
    ensures f.inodes[i].addrs[NDIRECT] < |f.disk|
    ensures Word(f.disk[f.inodes[i].addrs[NDIRECT]], l) == f.rows[i][NDIRECT + 1 + l]
  {
    GoingMid(sb, run, f, log);
    assert f.rows[i][NDIRECT] == f.inodes[i].addrs[NDIRECT];
    SlotIn(sb, f, i, NDIRECT);
  }

  function Blocks(row: seq<nat>): set<nat> { set b | b in row && b != 0 }

  // Blocks in use that are not the file's stay in use, and no others.
  lemma StepFreed(sb: Super, f: Fs, c: seq<byte>, j: Job)
    requires StepOk(sb, f, j, 0) && JobOk(sb, f, c, j) && j.op.Truncate?
    ensures Layout(sb, StepFs(sb, f, j, 0).disk)
    ensures Used(sb, StepFs(sb, f, j, 0).disk) - Blocks(StepRow(sb, f, j, 0)) ==
            Used(sb, f.disk) - Blocks(f.rows[j.op.i])
  {
    StepUsed(sb, f, j, 0);
    if j.st.Free? {
      var row, k := f.rows[j.op.i], Num(j.st.n);
      forall l | 0 <= l < SLOTS && l != k ensures row[l] != row[k] { OwnSlots(sb, f, j.op.i, k, l); }
      BlocksLess(row, k);
    }
  }

  lemma BlocksLess(row: seq<nat>, k: nat)
    requires k < |row| && row[k] != 0 && forall l :: 0 <= l < |row| && l != k ==> row[l] != row[k]
    ensures Blocks(row[k := 0]) == Blocks(row) - {row[k]}
  {
    forall b | b in Blocks(row) && b != row[k] ensures b in row[k := 0] {
      var l :| 0 <= l < |row| && row[l] == b;
      assert row[k := 0][l] == b;
    }
  }

  lemma {:induction false} RanFreed(sb: Super, f: Fs, files: seq<seq<byte>>, j: Job, tr: Trace, f': Fs, j': Job)
    requires Mid(sb, f, files, j) == true && Ran(sb, f, j, tr, f', j') == true && j.op.Truncate?
    ensures Layout(sb, f.disk) && Layout(sb, f'.disk) && j.op.i < |f.rows| && j.op.i < |f'.rows|
    ensures Used(sb, f'.disk) - Blocks(f'.rows[j.op.i]) == Used(sb, f.disk) - Blocks(f.rows[j.op.i])
    decreases |tr.bs|
  {
    RanFirst(sb, f, j, tr, f', j');
    if tr.bs != [] {
      var b, go := tr.bs[0], Go(sb, f, j, tr.bs[0]);
      MidStep(sb, f, files, j, b);
      StepFreed(sb, f, files[j.op.i], j);
      RanFreed(sb, go.f, files, go.j, Trace(tr.bs[1..], tr.ws[1..]), f', j');
    }
  }

  lemma AllFreed(sb: Super, run: Run, f: Fs, log: seq<Write>, i: nat)
    requires Going(sb, run, f, log) == true && AtNumber(run, f, i, SLOTS + 1) == true
    ensures run.j.st == Save && Layout(sb, f.disk) && Layout(sb, run.f0.disk)
    ensures Used(sb, f.disk) == Used(sb, run.f0.disk) - Blocks(run.f0.rows[i])
  {
    var f0, op := run.f0, run.j.op;
    MidStart(sb, f0, run.files, op);
    RanFreed(sb, f0, run.files, Start(f0.rows[i], f0.inodes[i], op), run.tr, f, run.j);
    forall b | b in f.rows[i] ensures b == 0 {}
    assert Blocks(f.rows[i]) == {};
  }

  // ---- the calls ----

  class FileSystem {
    const sb: Super
    var disk: Disk
    var inodes: seq<Inode>                    // as in memory
    ghost var owner: map<nat, (nat, nat)>     // whose block it is, and which
    ghost var rows: Rows                      // the block numbers in use
    ghost var logged: seq<Write>              // what has been logged

    ghost function Now(): Fs
      reads this
    { Fs(disk, inodes, rows, owner) }

    ghost predicate Core()
      reads this
    { CoreOk(sb, disk, inodes, owner) == true && rows == AllRows(disk, inodes) }

    // What holds between operations.
    ghost predicate Good()
      reads this
    { Core() && FilesOk(sb, disk, inodes) == true }

    // The files, by inode number.
    ghost function Files(): seq<seq<byte>>
      reads this
      requires Good()
    { Contents(sb, disk, inodes, owner) }

    // An empty file system, as mkfs leaves one before it puts any file on it: on blocks of zeros, those
    // before the data blocks are marked.
    constructor (sb: Super, blocks: nat)
      requires Layout(sb, seq(blocks, _ => ZeroBlock()))
      ensures this.sb == sb && Good() && Files() == seq(sb.ninodes, _ => []) && logged == []
      ensures |disk| == blocks && forall b :: b in Used(sb, disk) <==> 0 <= b < sb.datastart
    {
      this.sb := sb;
      disk := seq(blocks, _ => ZeroBlock());
      inodes := seq(sb.ninodes, _ => EmptyInode());
      owner, logged := map[], [];
      new;
      Blank(sb, disk);
      for b := 0 to sb.datastart
        invariant Formatted(sb, blocks, disk, b) == true
        invariant owner == map[] && logged == [] && |inodes| == sb.ninodes
        invariant forall i :: 0 <= i < |inodes| ==> inodes[i] == EmptyInode()
      {
        UsedAfter(sb, disk, b, true);
        FormattedNext(sb, blocks, disk, b);
        disk := SetMark(sb, disk, b, true);
      }
      rows := AllRows(disk, inodes);
      FormattedFiles(sb, blocks, disk, inodes);
      forall i | 0 <= i < |inodes| ensures Files()[i] == [] { assert FileOk(sb, disk, inodes, i); }
    }

    // log_write of a buffer with its new content.
    method LogWrite(b: nat, data: Block)
      requires b < |disk|
      modifies this`disk, this`logged
      ensures disk == old(disk)[b := data] && logged == old(logged) + [LogSpec.Write(b, data)]
    {
      disk := disk[b := data];
      logged := logged + [LogSpec.Write(b, data)];
    }

    // The first free block among those the bitmap block of base is about.
    method ScanBitmap(base: nat) returns (bi: nat)
      requires Layout(sb, disk) && base % BPB == 0 && base < sb.size
      ensures bi <= BPB && base + bi <= sb.size && (bi == BPB || base + bi == sb.size || base + bi !in Used(sb, disk))
      ensures forall c :: base <= c < base + bi ==> c in Used(sb, disk)
    {
      BitmapBlockIn(sb, disk, base);
      bi := 0;
      while bi < BPB && base + bi < sb.size
        invariant bi <= BPB && base + bi <= sb.size
        invariant forall c :: base <= c < base + bi ==> c in Used(sb, disk)
      {
        SameBitmapBlock(base, bi);
        if !Bit(disk[BitmapBlock(sb, base)][bi / 8], bi % 8) {
          assert !Marked(sb, disk, base + bi);
          return;
        }
        assert Marked(sb, disk, base + bi);
        bi := bi + 1;
      }
    }

    // Allocate a zeroed disk block: the lowest free one. A full disk is a panic.
    method Balloc() returns (ok: bool, b: nat)
      requires Layout(sb, disk) && MetaUsed(sb, Used(sb, disk))
      modifies this`disk, this`logged
      ensures ok ==> Allocated(sb, old(disk), disk, b) == true && disk == AllocDisk(sb, old(disk), b)
      ensures ok ==> logged == old(logged) + AllocWrites(sb, old(disk), b)
      ensures !ok ==> disk == old(disk) && logged == old(logged) && Full(sb, disk)
    {
      var base := 0;
      b := 0;
      while base < sb.size
        invariant base % BPB == 0 && disk == old(disk) && logged == old(logged)
        invariant forall c :: 0 <= c < base && c < sb.size ==> c in Used(sb, disk)
        modifies this`disk, this`logged
      {
        var bi := ScanBitmap(base);
        if bi < BPB && base + bi < sb.size {
          b := base + bi;
          TakeBlock(base, bi);
          return true, b;
        }
        base := base + BPB;
      }
      ok := false;
    }

    // Mark block base + bi in use, and zero it.
    method TakeBlock(base: nat, bi: nat)
      requires Layout(sb, disk) && MetaUsed(sb, Used(sb, disk)) && base % BPB == 0 && bi < BPB && base + bi < sb.size
      requires base + bi !in Used(sb, disk) && forall c :: 0 <= c < base + bi ==> c in Used(sb, disk)
      modifies this`disk, this`logged
      ensures Allocated(sb, old(disk), disk, base + bi) == true && disk == AllocDisk(sb, old(disk), base + bi)
      ensures logged == old(logged) + AllocWrites(sb, old(disk), base + bi)
    {
      SameBitmapBlock(base, bi);
      Zeroed(sb, disk, base + bi);
      BitmapBlockIn(sb, disk, base);
      var m := BitmapBlock(sb, base);
      LogWrite(m, disk[m][bi / 8 := ByteWithBit(disk[m][bi / 8], bi % 8, true)]);
      assert disk == SetMark(sb, old(disk), base + bi, true);
      LogWrite(base + bi, ZeroBlock());
    }

    // Freeing a free block is a panic.
    method Bfree(b: nat) returns (ok: bool)
      requires Layout(sb, disk) && b < sb.size
      modifies this`disk, this`logged
      ensures ok <==> b in old(Used(sb, disk))
      ensures disk == if ok then SetMark(sb, old(disk), b, false) else old(disk)
      ensures logged == if ok then old(logged) + [LogSpec.Write(BitmapBlock(sb, b), disk[BitmapBlock(sb, b)])]
                        else old(logged)
    {
      BitmapBlockIn(sb, disk, b);
      var m, bi := BitmapBlock(sb, b), b % BPB;
      if !Bit(disk[m][bi / 8], bi % 8) { return false; }
      LogWrite(m, disk[m][bi / 8 := ByteWithBit(disk[m][bi / 8], bi % 8, false)]);
      ok := true;
    }

    // Allocate a block for address k of inode i.
    method AllocAddr(i: nat, k: nat) returns (ok: bool, b: nat)
      requires Core() && i < |inodes| && k <= NDIRECT && inodes[i].addrs[k] == 0
      modifies this`disk, this`inodes, this`owner, this`rows, this`logged
      ensures ok ==> Core() && b != 0 && IsFree(sb, old(disk), b) && Now() == AddrTaken(sb, old(Now()), i, k, b)
      ensures ok ==> logged == old(logged) + AllocWrites(sb, old(disk), b)
      ensures !ok ==> Now() == old(Now()) && logged == old(logged) && Full(sb, disk)
    {
      ok, b := Balloc();
      if ok {
        TakeAddr(sb, old(disk), inodes, owner, disk, i, k, b);
        inodes := inodes[i := inodes[i].(addrs := inodes[i].addrs[k := b])];
        rows := SetSlot(rows, i, k, b);
        owner := owner[b := (i, k)];
      }
    }

    // Allocate a block for entry l of the indirect block of inode i.
    method AllocEntry(i: nat, l: nat) returns (ok: bool, b: nat)
      requires Core() && i < |inodes| && l < NINDIRECT && inodes[i].addrs[NDIRECT] != 0
      modifies this`disk, this`owner, this`rows, this`logged
      ensures ok ==> Core() && b != 0 && IsFree(sb, old(disk), b) && CanEnter(sb, old(Now()), i, NDIRECT + 1 + l, b)
      ensures ok ==> Now() == EntryTaken(sb, old(Now()), i, NDIRECT + 1 + l, b)
      ensures ok ==> logged == old(logged) + (AllocWrites(sb, old(disk), b) +
                               [EntryWrite(sb, old(Now()), i, NDIRECT + 1 + l, b)])
      ensures !ok ==> Now() == old(Now()) && logged == old(logged) && Full(sb, disk)
    {
      ok, b := Balloc();
      if ok {
        TakeEntry(sb, old(disk), inodes, owner, disk, i, l, b);
        var a := inodes[i].addrs[NDIRECT];
        LogWrite(a, SetWord(disk[a], l, b));
        rows := SetSlot(rows, i, NDIRECT + 1 + l, b);
        owner := owner[b := (i, NDIRECT + 1 + l)];
      }
    }

    // The disk block of block n of inode i, allocated if there is none. Out of range is a panic.
    method Bmap(i: nat, n: nat) returns (ok: bool, addr: nat, ghost b0: nat, ghost b1: nat, ghost ws: seq<Write>)
      requires Core() && i < |inodes|
      modifies this`disk, this`inodes, this`owner, this`rows, this`logged
      ensures ok ==> n < MAXFILE && Core()
      ensures ok ==> addr != 0 && addr == rows[i][FileSlot(n)]
      ensures ok ==> Fetched(sb, old(Now()), i, n, b0, b1, Now(), ws) == true && logged == old(logged) + ws
      ensures n < MAXFILE && old(rows)[i][FileSlot(n)] != 0 ==> ok && Now() == old(Now()) && logged == old(logged)
      ensures !ok && n < MAXFILE ==> Stuck(sb, old(Now()), i, n, b0, Now(), ws) == true && logged == old(logged) + ws
      ensures n >= MAXFILE ==> !ok && Now() == old(Now()) && logged == old(logged)
    {
      b0, b1, ws := 0, 0, [];
      if n < NDIRECT {
        addr := inodes[i].addrs[n];
        ok := true;
        if addr == 0 {
          ok, addr := AllocAddr(i, n);
          if ok {
            b1, ws := addr, AllocWrites(sb, old(disk), addr);
          }
        }
        return;
      }
      if n < MAXFILE {
        ok, addr, b0, b1, ws := BmapIndirect(i, n - NDIRECT);
        return;
      }
      ok, addr := false, 0;
    }

    method BmapIndirect(i: nat, l: nat)
        returns (ok: bool, addr: nat, ghost b0: nat, ghost b1: nat, ghost ws: seq<Write>)
      requires Core() && i < |inodes| && l < NINDIRECT
      modifies this`disk, this`inodes, this`owner, this`rows, this`logged
      ensures ok ==> Core()
      ensures ok ==> addr != 0 && addr == rows[i][NDIRECT + 1 + l]
      ensures ok ==> Fetched(sb, old(Now()), i, NDIRECT + l, b0, b1, Now(), ws) == true && logged == old(logged) + ws
      ensures old(rows)[i][NDIRECT + 1 + l] != 0 ==> ok && Now() == old(Now()) && logged == old(logged)
      ensures !ok ==> Stuck(sb, old(Now()), i, NDIRECT + l, b0, Now(), ws) == true && logged == old(logged) + ws
    {
      ghost var f, ws1 := Now(), [];
      ws := [];
      addr, b1 := 0, 0;
      assert inodes[i].addrs[NDIRECT] == 0 ==> Row(disk, inodes[i])[NDIRECT + 1 + l] == 0;
      ok, b0 := LoadIndirect(i);
      if !ok { return; }
      ghost var f1 := Now();
      ok, addr, b1, ws1 := LoadEntry(i, l);
      if ok {
        ws := FetchedTwice(sb, f, i, l, b0, f1, b1, Now(), ws1, old(logged), logged);
      } else if b0 != 0 {
        ws := AllocWrites(sb, f.disk, b0);
      }
    }

    // The indirect block of inode i, allocated if there is none.
    method LoadIndirect(i: nat) returns (ok: bool, ghost b0: nat)
      requires Core() && i < |inodes|
      modifies this`disk, this`inodes, this`owner, this`rows, this`logged
      ensures ok ==> Core()
      ensures ok ==> inodes[i].addrs[NDIRECT] != 0
      ensures b0 != 0 <==> ok && old(inodes)[i].addrs[NDIRECT] == 0
      ensures b0 != 0 ==> IsFree(sb, old(disk), b0) && Now() == AddrTaken(sb, old(Now()), i, NDIRECT, b0)
      ensures b0 != 0 ==> logged == old(logged) + AllocWrites(sb, old(disk), b0)
      ensures b0 == 0 ==> Now() == old(Now()) && logged == old(logged)
      ensures !ok ==> Full(sb, disk) && inodes[i].addrs[NDIRECT] == 0
    {
      ok, b0 := true, 0;
      if inodes[i].addrs[NDIRECT] == 0 {
        var addr;
        ok, addr := AllocAddr(i, NDIRECT);
        if ok {
          b0 := addr;
        }
      }
    }

    // Entry l of the indirect block of inode i, allocated if it is zero.
    method LoadEntry(i: nat, l: nat) returns (ok: bool, addr: nat, ghost b1: nat, ghost ws: seq<Write>)
      requires Core() && i < |inodes| && l < NINDIRECT && inodes[i].addrs[NDIRECT] != 0
      modifies this`disk, this`owner, this`rows, this`logged
      ensures ok ==> Core()
      ensures ok ==> addr != 0 && addr == rows[i][NDIRECT + 1 + l]
      ensures b1 != 0 <==> ok && old(rows)[i][NDIRECT + 1 + l] == 0
      ensures b1 == 0 ==> Now() == old(Now()) && logged == old(logged) && ws == []
      ensures b1 != 0 ==> IsFree(sb, old(disk), b1) && CanEnter(sb, old(Now()), i, NDIRECT + 1 + l, b1)
      ensures b1 != 0 ==> Now() == EntryTaken(sb, old(Now()), i, NDIRECT + 1 + l, b1) && logged == old(logged) + ws
      ensures b1 != 0 ==> ws == AllocWrites(sb, old(disk), b1) + [EntryWrite(sb, old(Now()), i, NDIRECT + 1 + l, b1)]
      ensures !ok ==> Full(sb, disk) && rows[i][NDIRECT + 1 + l] == 0
    {
      ok, b1, ws := true, 0, [];
      IndirectOwn(sb, disk, inodes, owner, i);
      addr := Word(disk[inodes[i].addrs[NDIRECT]], l);
      assert addr == Row(disk, inodes[i])[NDIRECT + 1 + l] == rows[i][NDIRECT + 1 + l];
      if addr == 0 {
        ok, addr := AllocEntry(i, l);
        if ok {
          b1 := addr;
          ws := AllocWrites(sb, old(disk), b1) + [EntryWrite(sb, old(Now()), i, NDIRECT + 1 + l, b1)];
        }
      }
    }

    // Copy the in-memory inode to its place on disk.
    method Iupdate(i: nat)
      requires Layout(sb, disk) && |inodes| == sb.ninodes && i < |inodes|
      modifies this`disk, this`logged
      ensures i % IPB * IWORDS + IWORDS <= WORDS && InodeBlock(sb, i) < |disk| == |old(disk)|
      ensures var a := InodeBlock(sb, i);
              var data := PutInode(old(disk)[a], i % IPB * IWORDS, inodes[i], IWORDS);
              disk == old(disk)[a := data] && logged == old(logged) + [LogSpec.Write(a, data)]
      ensures OnDisk(sb, disk, i, inodes[i]) == true
      ensures forall k, w :: 0 <= k < sb.ninodes && k != i && 0 <= w < IWORDS ==>
              DiskWord(sb, disk, k, w) == DiskWord(sb, old(disk), k, w)
    {
      InodeIn(sb, disk, i);
      var a, first := InodeBlock(sb, i), i % IPB * IWORDS;
      var b := disk[a];
      for w := 0 to IWORDS
        invariant b == PutInode(disk[a], first, inodes[i], w)
      {
        b := SetWord(b, first + w, InodeWord(inodes[i], w));
      }
      forall v | 0 <= v < WORDS
        ensures Word(b, v) ==
                if first <= v < first + IWORDS then InodeWord(inodes[i], v - first) else Word(disk[a], v) {
        WordOfPutInode(disk[a], first, inodes[i], IWORDS, v);
      }
      LogWrite(a, b);
      forall k, w | 0 <= k < sb.ninodes && k != i && 0 <= w < IWORDS
        ensures DiskWord(sb, disk, k, w) == DiskWord(sb, old(disk), k, w) {
        InodeIn(sb, old(disk), k);
        if InodeBlock(sb, k) == a { assert k % IPB != i % IPB; }
      }
    }

    // The rounds of readi: bytes off to end.
    method ReadChunks(i: nat, off: nat, end: nat) returns (dst: seq<byte>)
      requires Good() && i < |inodes| && off <= end <= inodes[i].size
      modifies this`disk, this`inodes, this`owner, this`rows, this`logged
      ensures Now() == old(Now()) && logged == old(logged)
      ensures dst == Files()[i][off..end]
    {
      dst := [];
      assert FileOk(sb, disk, inodes, i);
      var cur := off;
      ghost var row := Row(disk, inodes[i]);
      CoreRowIn(sb, disk, inodes, owner, i);
      ghost var content := Content(disk, row, inodes[i].size);
      while cur < end
        invariant off <= cur <= end && Now() == old(Now()) && logged == old(logged)
        invariant dst == content[off..cur]
        decreases end - cur
        modifies this`disk, this`inodes, this`owner, this`rows, this`logged
      {
        assert rows[i] == row && row[FileSlot(cur / BSIZE)] != 0;
        var ok, addr;
        ghost var b0, b1, ws;
        ok, addr, b0, b1, ws := Bmap(i, cur / BSIZE);
        var m := Min(end - cur, BSIZE - cur % BSIZE);
        ChunkRead(disk, row, inodes[i].size, cur, m);
        dst := dst + disk[addr][cur % BSIZE..cur % BSIZE + m];
        assert content[off..cur] + content[cur..cur + m] == content[off..cur + m];
        cur := cur + m;
      }
    }

    // Read n bytes from byte off on.
    method Readi(i: nat, off: word, n: word) returns (r: Outcome, dst: seq<byte>)
      requires Good() && i < |inodes|
      modifies this`disk, this`inodes, this`owner, this`rows, this`logged
      ensures Now() == old(Now()) && logged == old(logged)
      ensures IsDevice(inodes[i]) <==> r == Device
      ensures r != Device ==> r == if off > |Files()[i]| || off + n >= Words.TWO32 then Ret(-1) else Ret(|dst|)
      ensures r != Device && r != Ret(-1) ==> dst == Files()[i][off..Min(off + n, |Files()[i]|)]
    {
      dst := [];
      if IsDevice(inodes[i]) { return Device, dst; }
      if off > inodes[i].size || (off + n) % Words.TWO32 < off { return Ret(-1), dst; }
      var end := if off + n > inodes[i].size then inodes[i].size else off + n;
      dst := ReadChunks(i, off, end);
      r := Ret(end - off);
    }

    // The block of byte cur, for writei.
    method WriteBlock(i: nat, cur: nat, ghost run: Run) returns (ok: bool, addr: nat, ghost run': Run)
      requires Going(sb, run, Now(), logged) == true && run.j.op.WriteFile? && run.j.op.i == i
      requires run.j.cur == cur < End(run.j.op)
      requires run.j.st == NextWrite(rows[i], run.j.x0.size, run.j.op, cur)
      modifies this`disk, this`inodes, this`owner, this`rows, this`logged
      ensures ok ==> SameCall(run, run') && Going(sb, run', Now(), logged) == true && run'.j == run.j.(st := Fill)
      ensures ok ==> addr == rows[i][SlotAt(cur)]
      ensures !ok ==> Layout(sb, disk) && Full(sb, disk) && Short(sb, run.f0, run.j.op) == true
      ensures !ok ==> SameCall(run, run') && Going(sb, run', Now(), logged) == true && run'.j.st.Take?
    {
      ghost var f, b0, b1, ws := Now(), 0, 0, [];
      GoingMid(sb, run, f, logged);
      MidCore(sb, f, run.files, run.j);
      ok, addr, b0, b1, ws := Bmap(i, cur / BSIZE);
      run' := run;
      if ok {
        run' := FetchGoes(sb, run, f, old(logged), b0, b1, Now(), ws);
      } else {
        run' := StuckGoes(sb, run, f, old(logged), b0, Now(), ws);
      }
    }

    // One round of writei: the part of src that goes into the block of byte cur.
    method WriteChunk(i: nat, off: nat, cur: nat, src: seq<byte>, ghost run: Run)
        returns (ok: bool, m: nat, ghost run': Run)
      requires Going(sb, run, Now(), logged) == true && run.j.op == WriteFile(i, off, src)
      requires run.j.cur == cur && off <= cur < End(run.j.op)
      requires run.j.st == NextWrite(rows[i], run.j.x0.size, run.j.op, cur)
      modifies this`disk, this`inodes, this`owner, this`rows, this`logged
      ensures ok ==> m == Chunk(run.j.op, cur) && SameCall(run, run') && Going(sb, run', Now(), logged) == true
      ensures ok ==> run'.j == run.j.(cur := cur + m, st := NextWrite(rows[i], run.j.x0.size, run.j.op, cur + m))
      ensures !ok ==> Layout(sb, disk) && Full(sb, disk) && Short(sb, run.f0, run.j.op) == true
      ensures !ok ==> SameCall(run, run') && Going(sb, run', Now(), logged) == true && run'.j.st.Take?
    {
      var addr;
      ghost var data;
      ok, addr, run' := WriteBlock(i, cur, run);
      m := Min(off + |src| - cur, BSIZE - cur % BSIZE);
      if !ok { return; }
      run', data := FillGoes(sb, run', Now(), logged, addr, m);
      LogWrite(addr, Patched(disk[addr], cur % BSIZE, src[cur - off..cur - off + m]));
    }

    // The rounds of writei.
    method WriteChunks(i: nat, src: seq<byte>, off: nat, ghost run: Run) returns (ok: bool, ghost run': Run)
      requires Going(sb, run, Now(), logged) == true && run.j.op == WriteFile(i, off, src) && run.j.cur == off
      requires run.j.st == NextWrite(rows[i], run.j.x0.size, run.j.op, off)
      modifies this`disk, this`inodes, this`owner, this`rows, this`logged
      ensures ok ==> SameCall(run, run') && Going(sb, run', Now(), logged) == true && run'.j.x0 == run.j.x0
      ensures ok ==> run'.j.cur == off + |src|
      ensures ok ==> run'.j.st == NextWrite(rows[i], run.j.x0.size, run.j.op, off + |src|)
      ensures !ok ==> Layout(sb, disk) && Full(sb, disk) && Short(sb, run.f0, run.j.op) == true
      ensures !ok ==> SameCall(run, run') && Going(sb, run', Now(), logged) == true && run'.j.st.Take?
    {
      var cur := off;
      run' := run;
      while cur < off + |src|
        invariant SameCall(run, run') && Going(sb, run', Now(), logged) == true && run'.j.x0 == run.j.x0
        invariant run'.j.cur == cur && off <= cur <= off + |src|
        invariant run'.j.st == NextWrite(rows[i], run.j.x0.size, run.j.op, cur)
        decreases off + |src| - cur
        modifies this`disk, this`inodes, this`owner, this`rows, this`logged
      {
        var m;
        ok, m, run' := WriteChunk(i, off, cur, src, run');
        if !ok { return; }
        cur := cur + m;
      }
      ok := true;
    }

    // Give inode i a new size and save it, as the last step of a call.
    method SaveSize(i: nat, size: nat, ghost run: Run) returns (ghost run': Run)
      requires Going(sb, run, Now(), logged) == true && run.j.st == Save && run.j.op.i == i
      requires size == if run.j.op.WriteFile? then End(run.j.op) else 0
      modifies this`disk, this`inodes, this`logged
      ensures SameCall(run, run') && Going(sb, run', Now(), logged) == true && run'.j == run.j.(st := Done)
      ensures Layout(sb, old(disk)) && Layout(sb, disk) && Used(sb, disk) == Used(sb, old(disk))
    {
      ghost var w;
      GoingWhole(sb, run, Now(), logged);
      run', w := SaveGoes(sb, run, Now(), logged, inodes[i].(size := size));
      inodes := inodes[i := inodes[i].(size := size)];
      Iupdate(i);
      InodeIn(sb, old(disk), i);
      UsedFrame(sb, old(disk), disk);
    }

    // The end of writei: a file that has grown has a new size.
    method WriteEnd(i: nat, off: nat, src: seq<byte>, ghost run: Run) returns (ghost run': Run)
      requires Going(sb, run, Now(), logged) == true && run.j.op == WriteFile(i, off, src) && run.j.cur == off + |src|
      requires run.j.st == NextWrite(rows[i], run.j.x0.size, run.j.op, off + |src|)
      modifies this`disk, this`inodes, this`logged
      ensures SameCall(run, run') && Going(sb, run', Now(), logged) == true && run'.j == run.j.(st := Done)
    {
      GoingSize(sb, run, Now(), logged);
      run' := run;
      if |src| > 0 && off + |src| > inodes[i].size { run' := SaveSize(i, off + |src|, run); }
    }

    // What is left of writei once its arguments are found good.
    method WriteAll(i: nat, src: seq<byte>, off: nat) returns (ok: bool, ghost run: Run)
      requires Good() && i < |inodes| && off <= |Files()[i]| && off + |src| <= MAXFILE * BSIZE
      modifies this`disk, this`inodes, this`owner, this`rows, this`logged
      ensures ok <==> Short(sb, old(Now()), WriteFile(i, off, src)) == false
      ensures Going(sb, run, Now(), logged) == true && run.j.op == WriteFile(i, off, src)
      ensures run.f0 == old(Now()) && run.files == old(Files()) && run.log0 == old(logged)
      ensures ok ==> run.j.st.Done? && run.j.cur == off + |src|
      ensures !ok ==> run.j.st.Take? && Layout(sb, disk) && Full(sb, disk)
    {
      GoodQuiet(sb, disk, inodes, owner);
      run := Starting(sb, Now(), Files(), logged, WriteFile(i, off, src));
      ok, run := WriteChunks(i, src, off, run);
      if ok {
        HadEnough(sb, run, Now(), logged);
        run := WriteEnd(i, off, src, run);
      }
    }

    // Write src from byte off on. Running out of disk blocks is a panic.
    method Writei(i: nat, src: seq<byte>, off: word) returns (r: Outcome, ghost tr: Trace)
      requires Good() && i < |inodes| && |src| < Words.TWO32
      modifies this`disk, this`inodes, this`owner, this`rows, this`logged
      ensures r == Device <==> IsDevice(old(inodes)[i])
      ensures r == Ret(-1) <==> r != Device && (off > |old(Files())[i]| || off + |src| > MAXFILE * BSIZE)
      ensures r == Panic <==> r != Device && r != Ret(-1) && Short(sb, old(Now()), WriteFile(i, off, src)) == true
      ensures r == Panic ==> Layout(sb, disk) && Full(sb, disk) && logged == old(logged) + tr.ws
      ensures r == Panic ==> CallStuck(sb, old(Now()), old(Files()), WriteFile(i, off, src), tr, Now()) == true
      ensures r == Device || r == Ret(-1) ==> Now() == old(Now()) && logged == old(logged)
      ensures r != Panic ==> Good() && SameButSize(old(inodes), inodes, i) == true
      ensures r.Ret? && r != Ret(-1) ==>
              r == Ret(|src|) && Files() == old(Files())[i := Overwrite(old(Files())[i], off, src)]
      ensures r.Ret? && r != Ret(-1) ==>
              CallDid(sb, old(Now()), WriteFile(i, off, src), tr, Now()) == true && logged == old(logged) + tr.ws
    {
      tr := Trace([], []);
      if IsDevice(inodes[i]) { return Device, tr; }
      if off > inodes[i].size || (off + |src|) % Words.TWO32 < off { return Ret(-1), tr; }
      if off + |src| > MAXFILE * BSIZE { return Ret(-1), tr; }
      var ok;
      ghost var run;
      ok, run := WriteAll(i, src, off);
      tr := run.tr;
      if !ok {
        StuckEnds(sb, run, Now(), logged);
        return Panic, tr;
      }
      CallEnds(sb, run, Now(), logged);
      CallFiles(sb, run, Now(), logged);
      r := Ret(|src|);
    }

    // The n-th number of inode i is b: free it, if there is one.
    method FreeNumber(i: nat, n: nat, b: nat, ghost run: Run) returns (ok: bool, ghost run': Run)
      requires Going(sb, run, Now(), logged) == true && AtNumber(run, Now(), i, n) == true
      requires n <= SLOTS && n != NDIRECT && b == rows[i][Num(n)]
      modifies this`disk, this`inodes, this`rows, this`logged
      ensures ok && SameCall(run, run') && Going(sb, run', Now(), logged) == true
      ensures AtNumber(run', Now(), i, n + 1) == true
      ensures n < SLOTS ==> inodes[i].addrs[NDIRECT] == old(inodes)[i].addrs[NDIRECT]
    {
      ok, run' := true, run;
      if b != 0 {
        run' := FreeGoes(sb, run, Now(), logged, i, n);
        ok := Bfree(b);
        if Num(n) <= NDIRECT { inodes := inodes[i := inodes[i].(addrs := inodes[i].addrs[Num(n) := 0])]; }
        rows := rows[i := rows[i][Num(n) := 0]];
      } else {
        SkipNumber(run, Now(), i, n);
      }
    }

    // The direct blocks.
    method FreeDirect(i: nat, ghost run: Run) returns (ok: bool, ghost run': Run)
      requires Going(sb, run, Now(), logged) == true && AtNumber(run, Now(), i, 0) == true
      modifies this`disk, this`inodes, this`rows, this`logged
      ensures ok && SameCall(run, run') && Going(sb, run', Now(), logged) == true
      ensures AtNumber(run', Now(), i, NDIRECT) == true
    {
      ok, run' := true, run;
      var k := 0;
      while k < NDIRECT
        invariant 0 <= k <= NDIRECT && ok && SameCall(run, run') && Going(sb, run', Now(), logged) == true
        invariant AtNumber(run', Now(), i, k) == true
        modifies this`disk, this`inodes, this`rows, this`logged
      {
        AddrIs(run', Now(), i, k);
        ok, run' := FreeNumber(i, k, inodes[i].addrs[k], run');
        k := k + 1;
      }
    }

    // The entries of the indirect block.
    method FreeEntries(i: nat, ghost run: Run) returns (ok: bool, ghost run': Run)
      requires Going(sb, run, Now(), logged) == true && AtNumber(run, Now(), i, NDIRECT + 1) == true
      requires inodes[i].addrs[NDIRECT] != 0
      modifies this`disk, this`inodes, this`rows, this`logged
      ensures ok && SameCall(run, run') && Going(sb, run', Now(), logged) == true
      ensures AtNumber(run', Now(), i, SLOTS) == true
      ensures inodes[i].addrs[NDIRECT] == old(inodes)[i].addrs[NDIRECT]
    {
      ok, run' := true, run;
      var a, l := inodes[i].addrs[NDIRECT], 0;
      while l < NINDIRECT
        invariant 0 <= l <= NINDIRECT && ok && SameCall(run, run') && Going(sb, run', Now(), logged) == true
        invariant AtNumber(run', Now(), i, NDIRECT + 1 + l) == true && inodes[i].addrs[NDIRECT] == a
        modifies this`disk, this`inodes, this`rows, this`logged
      {
        EntryIs(sb, run', Now(), logged, i, l);
        ok, run' := FreeNumber(i, NDIRECT + 1 + l, Word(disk[a], l), run');
        l := l + 1;
      }
    }

    // All blocks of inode i.
    method FreeAll(i: nat, ghost run: Run) returns (ok: bool, ghost run': Run)
      requires Going(sb, run, Now(), logged) == true && AtNumber(run, Now(), i, 0) == true
      modifies this`disk, this`inodes, this`rows, this`logged
      ensures ok && SameCall(run, run') && Going(sb, run', Now(), logged) == true
      ensures AtNumber(run', Now(), i, SLOTS + 1) == true
    {
      ok, run' := FreeDirect(i, run);
      var a := inodes[i].addrs[NDIRECT];
      if a != 0 {
        SkipNumber(run', Now(), i, NDIRECT);
        ok, run' := FreeEntries(i, run');
        AddrIs(run', Now(), i, SLOTS);
        ok, run' := FreeNumber(i, SLOTS, a, run');
      } else {
        SkipEntries(run', Now(), i, NDIRECT);
      }
    }

    // Discard the content of inode i: its blocks, and no others, become free.
    method Itrunc(i: nat) returns (ok: bool, ghost tr: Trace)
      requires Good() && i < |inodes|
      modifies this`disk, this`inodes, this`rows, this`logged
      ensures ok && Good() && SameButSize(old(inodes), inodes, i) == true && Files() == old(Files())[i := []]
      ensures Used(sb, disk) == Used(sb, old(disk)) - Blocks(Row(old(disk), old(inodes)[i]))
      ensures CallDid(sb, old(Now()), Truncate(i), tr, Now()) == true && logged == old(logged) + tr.ws
    {
      GoodQuiet(sb, disk, inodes, owner);
      ghost var run := Starting(sb, Now(), Files(), logged, Truncate(i));
      AtFirst(run, Now(), i);
      ok, run := FreeAll(i, run);
      AllFreed(sb, run, Now(), logged, i);
      run := SaveSize(i, 0, run);
      CallEnds(sb, run, Now(), logged);
      CallFiles(sb, run, Now(), logged);
      tr := run.tr;
    }
  }

  lemma SameBitmapBlock(base: nat, bi: nat)
    requires base % BPB == 0 && bi < BPB
    ensures (base + bi) / BPB == base / BPB && (base + bi) % BPB == bi
  {}

  // Marking a free data block and zeroing it allocates it.
  lemma Zeroed(sb: Super, disk: Disk, b: nat)
    requires Layout(sb, disk) && MetaUsed(sb, Used(sb, disk)) && b < sb.size && !Marked(sb, disk, b)
    requires forall c :: 0 <= c < b ==> c in Used(sb, disk)
    ensures Allocated(sb, disk, SetMark(sb, disk, b, true)[b := ZeroBlock()], b) == true
  {
    var d1 := SetMark(sb, disk, b, true);
    UsedAfter(sb, disk, b, true);
    BitmapBlockIn(sb, disk, b);
    assert b !in Used(sb, disk);
    UsedFrame(sb, d1, d1[b := ZeroBlock()]);
  }
}
