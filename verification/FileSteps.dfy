/** writei and itrunc (fs.c) one log_write at a time. A job is such a call in progress; what holds of its
    file and of all others between any two of its steps, whoever runs in between. */
module FileSteps {
  import opened Words
  import opened FsSpec
  import LogSpec

  type Write = LogSpec.Write

  datatype FileOp = WriteFile(i: nat, off: nat, src: seq<byte>) | Truncate(i: nat)

  // The file system as the kernel sees it: rows are the block numbers in use by each inode, which for
  // one that is being truncated are those not yet freed.
  datatype Fs = Fs(disk: Disk, inodes: seq<Inode>, rows: Rows, owner: map<nat, (nat, nat)>)

  // What a job logs next.
  datatype Stage =
    | Take(k: nat)              // the bitmap, with a block marked for number k
    | Clear(k: nat, b: nat)     // the new block b, zeroed
    | Link(k: nat, b: nat)      // the indirect block, with b entered as number k
    | Fill                      // the block of byte cur, with bytes of src
    | Save                      // the inode
    | Free(n: nat)              // the bitmap, with the block of the n-th number unmarked
    | Done

  // cur is the byte writei has come to, or the count of numbers itrunc has. x0 is the inode at first.
  datatype Job = Job(op: FileOp, x0: Inode, cur: nat, st: Stage)

  function Min(a: nat, b: nat): nat { if a < b then a else b }

  // ---- the order of things ----

  function End(op: FileOp): nat
    requires op.WriteFile?
  { op.off + |op.src| }

  // The number of the block of byte cur.
  function SlotAt(cur: nat): nat { FileSlot(cur / BSIZE) }

  function NextWrite(row: seq<nat>, size: nat, op: FileOp, cur: nat): Stage
    requires |row| == SLOTS && op.WriteFile? && End(op) <= MAXFILE * BSIZE
  {
    if cur < End(op) then
      if cur / BSIZE >= NDIRECT && row[NDIRECT] == 0 then Take(NDIRECT)
      else if row[SlotAt(cur)] == 0 then Take(SlotAt(cur)) else Fill
    else if size < End(op) then Save
    else Done
  }

  // itrunc frees the direct blocks, the entries of the indirect block and then that block.
  function Num(n: nat): nat { if n < SLOTS then n else NDIRECT }

  // Numbers are passed in this order.
  predicate Past(n: nat, k: nat) { k < n && (k != NDIRECT || n > SLOTS) }

  // The next number from n on that has a block.
  function NextFree(row: seq<nat>, n: nat): (m: nat)
    requires |row| == SLOTS && n <= SLOTS + 1
    ensures n <= m <= SLOTS + 1 && (m <= SLOTS ==> m != NDIRECT && row[Num(m)] != 0)
    decreases SLOTS + 1 - n
  {
    if n <= SLOTS && (n == NDIRECT || row[Num(n)] == 0) then NextFree(row, n + 1) else n
  }

  function FreeStage(m: nat): Stage { if m <= SLOTS then Free(m) else Save }

  // Those passed are free.
  function Masked(row: seq<nat>, n: nat): (r: seq<nat>)
    ensures |r| == |row|
  { seq(|row|, k requires 0 <= k < |row| => if Past(n, k) then 0 else row[k]) }

  // ---- steps ----

  predicate InBlock(cur: nat, m: nat) { cur % BSIZE + m <= BSIZE }

  // data put into a block from byte o on.
  function Patched(b: Block, o: nat, data: seq<byte>): Block
    requires o + |data| <= BSIZE
  { b[..o] + data + b[o + |data|..] }

  // The bytes of src that go into the block of byte cur.
  function Chunk(op: FileOp, cur: nat): nat
    requires op.WriteFile? && cur <= End(op)
  { Min(End(op) - cur, BSIZE - cur % BSIZE) }

  // The first n words of inode x stored from word first on.
  function PutInode(b: Block, first: nat, x: Inode, n: nat): Block
    requires n <= IWORDS && first + n <= WORDS
  { if n == 0 then b else SetWord(PutInode(b, first, x, n - 1), first + n - 1, InodeWord(x, n - 1)) }

  lemma {:induction false} WordOfPutInode(b: Block, first: nat, x: Inode, n: nat, v: nat)
    requires n <= IWORDS && first + n <= WORDS && v < WORDS
    ensures Word(PutInode(b, first, x, n), v) == if first <= v < first + n then InodeWord(x, v - first) else Word(b, v)
  {
    if n > 0 {
      WordOfPutInode(b, first, x, n - 1, v);
      WordOfSetWord(PutInode(b, first, x, n - 1), first + n - 1, InodeWord(x, n - 1), v);
    }
  }

  // The shape of a file system: every block number is there once, and marked.
  predicate Whole(sb: Super, f: Fs) {
    && Layout(sb, f.disk) && |f.inodes| == |f.rows| == sb.ninodes
    && (forall i :: 0 <= i < |f.rows| ==> |f.rows[i]| == SLOTS)
    && MetaUsed(sb, Used(sb, f.disk)) && OwnedBy(sb, f.rows, Used(sb, f.disk), f.owner)
  }

  // Block b is marked, and meant to become number k of inode i.
  predicate Pending(sb: Super, f: Fs, i: nat, k: nat, b: nat)
    requires Layout(sb, f.disk)
  { sb.datastart <= b < sb.size && b in Used(sb, f.disk) && b in f.owner && f.owner[b] == (i, k) }

  // What a step needs. b is the block that balloc finds.
  predicate StepOk(sb: Super, f: Fs, j: Job, b: nat) {
    && Whole(sb, f) && j.op.i < |f.inodes|
    && var row := f.rows[j.op.i];
       match j.st
       case Take(k) => b < sb.size && b !in Used(sb, f.disk)
       case Clear(k, b') => k < SLOTS && sb.datastart <= b' < sb.size
       case Link(k, b') =>
         NDIRECT < k < SLOTS && b' < sb.size && sb.datastart <= f.inodes[j.op.i].addrs[NDIRECT] < sb.size
       case Fill => j.op.WriteFile? && j.op.off <= j.cur < End(j.op) <= MAXFILE * BSIZE && row[SlotAt(j.cur)] != 0
       case Save => j.op.WriteFile? ==> End(j.op) <= MAXFILE * BSIZE
       case Free(n) => n <= SLOTS && row[Num(n)] != 0
       case Done => false
  }

  lemma SlotIn(sb: Super, f: Fs, i: nat, k: nat)
    requires Whole(sb, f) && i < |f.rows| && k < SLOTS && f.rows[i][k] != 0
    ensures sb.datastart <= f.rows[i][k] < sb.size && f.rows[i][k] < |f.disk|
    ensures f.rows[i][k] in f.owner && f.owner[f.rows[i][k]] == (i, k) && f.rows[i][k] in Used(sb, f.disk)
  {}

  lemma InodeIn(sb: Super, disk: Disk, i: nat)
    requires Layout(sb, disk) && i < sb.ninodes
    ensures sb.inodestart <= InodeBlock(sb, i) < sb.bmapstart && i % IPB * IWORDS + IWORDS <= WORDS
  {
    assert i / IPB < (sb.ninodes + IPB - 1) / IPB;
  }

  // The inode in memory, after the step.
  function StepInode(sb: Super, f: Fs, j: Job, b: nat): Inode
    requires StepOk(sb, f, j, b)
  {
    var x := f.inodes[j.op.i];
    match j.st
    case Clear(k, b') => if k <= NDIRECT then x.(addrs := x.addrs[k := b']) else x
    case Save => x.(size := if j.op.WriteFile? then End(j.op) else 0)
    case Free(n) => if Num(n) <= NDIRECT then x.(addrs := x.addrs[Num(n) := 0]) else x
    case _ => x
  }

  // Its block numbers.
  function StepRow(sb: Super, f: Fs, j: Job, b: nat): (row: seq<nat>)
    requires StepOk(sb, f, j, b)
    ensures |row| == SLOTS
  {
    var row := f.rows[j.op.i];
    match j.st
    case Clear(k, b') => if k <= NDIRECT then row[k := b'] else row
    case Link(k, b') => row[k := b']
    case Free(n) => row[Num(n) := 0]
    case _ => row
  }

  // What is logged.
  function StepWrite(sb: Super, f: Fs, j: Job, b: nat): (w: Write)
    requires StepOk(sb, f, j, b)
    ensures sb.inodestart <= w.bn < |f.disk|
  {
    var i, row := j.op.i, f.rows[j.op.i];
    match j.st
    case Take(k) =>
      BitmapBlockIn(sb, f.disk, b);
      LogSpec.Write(BitmapBlock(sb, b), SetMark(sb, f.disk, b, true)[BitmapBlock(sb, b)])
    case Clear(k, b') => LogSpec.Write(b', ZeroBlock())
    case Link(k, b') =>
      var a := f.inodes[i].addrs[NDIRECT];
      LogSpec.Write(a, SetWord(f.disk[a], k - NDIRECT - 1, b'))
    case Fill =>
      SlotIn(sb, f, i, SlotAt(j.cur));
      var a, o, m := row[SlotAt(j.cur)], j.cur - j.op.off, Chunk(j.op, j.cur);
      LogSpec.Write(a, Patched(f.disk[a], j.cur % BSIZE, j.op.src[o..o + m]))
    case Save =>
      InodeIn(sb, f.disk, i);
      var a := InodeBlock(sb, i);
      LogSpec.Write(a, PutInode(f.disk[a], i % IPB * IWORDS, StepInode(sb, f, j, b), IWORDS))
    case Free(n) =>
      SlotIn(sb, f, i, Num(n));
      var b' := row[Num(n)];
      BitmapBlockIn(sb, f.disk, b');
      LogSpec.Write(BitmapBlock(sb, b'), SetMark(sb, f.disk, b', false)[BitmapBlock(sb, b')])
  }

  function StepFs(sb: Super, f: Fs, j: Job, b: nat): (f': Fs)
    requires StepOk(sb, f, j, b)
  {
    var i, w := j.op.i, StepWrite(sb, f, j, b);
    Fs(f.disk[w.bn := w.data], f.inodes[i := StepInode(sb, f, j, b)], f.rows[i := StepRow(sb, f, j, b)],
       if j.st.Take? then f.owner[b := (i, j.st.k)] else f.owner)
  }

  function StepJob(sb: Super, f: Fs, j: Job, b: nat): Job
    requires StepOk(sb, f, j, b) && (j.op.WriteFile? ==> j.cur <= End(j.op) <= MAXFILE * BSIZE)
    requires j.st.Clear? || j.st.Link? ==> j.op.WriteFile?
  {
    var row := StepRow(sb, f, j, b);
    match j.st
    case Take(k) => j.(st := Clear(k, b))
    case Clear(k, b') => j.(st := if k <= NDIRECT then NextWrite(row, j.x0.size, j.op, j.cur) else Link(k, b'))
    case Link(k, b') => j.(st := NextWrite(row, j.x0.size, j.op, j.cur))
    case Fill =>
      var cur := j.cur + Chunk(j.op, j.cur);
      j.(cur := cur, st := NextWrite(row, j.x0.size, j.op, cur))
    case Save => j.(st := Done)
    case Free(n) =>
      var m := NextFree(row, n + 1);
      j.(cur := m, st := FreeStage(m))
  }

  // ---- one file ----

  // The blocks of row hold the bytes c.
  predicate BytesAre(disk: Disk, row: seq<nat>, c: seq<byte>) {
    && RowIn(row, |disk|) && Mapped(row, |c|)
    && forall o :: 0 <= o < |c| ==> ByteAt(disk, row, o) == c[o]
  }

  // File i, with nobody at it, is c.
  predicate Quiet(sb: Super, f: Fs, c: seq<byte>, i: nat)
    requires Whole(sb, f) && i < |f.inodes|
  {
    && f.rows[i] == Row(f.disk, f.inodes[i]) && f.inodes[i].size == |c| && OnDisk(sb, f.disk, i, f.inodes[i])
    && BytesAre(f.disk, f.rows[i], c)
  }

  // Nobody is at any file.
  predicate AllQuiet(sb: Super, f: Fs, files: seq<seq<byte>>) {
    Whole(sb, f) && |files| == |f.inodes| && forall i :: 0 <= i < |files| ==> Quiet(sb, f, files[i], i)
  }

  // What of src has been written to c when writei is at cur.
  function SoFar(c: seq<byte>, op: FileOp, cur: nat): seq<byte>
    requires op.WriteFile? && op.off <= |c| && op.off <= cur <= End(op)
  { Overwrite(c, op.off, op.src[..cur - op.off]) }

  // writei needs a block as number k.
  predicate Wants(row: seq<nat>, c: seq<byte>, j: Job, k: nat)
    requires j.op.WriteFile? && |row| == SLOTS
  {
    && |c| <= j.cur < End(j.op) && k < SLOTS && row[k] == 0 && (k == NDIRECT || k == SlotAt(j.cur))
    && (k > NDIRECT ==> row[NDIRECT] != 0) && (k == NDIRECT ==> j.cur / BSIZE >= NDIRECT)
  }

  predicate WriteStage(sb: Super, f: Fs, c: seq<byte>, j: Job)
    requires Whole(sb, f) && j.op.i < |f.inodes| && j.op.WriteFile? && End(j.op) <= MAXFILE * BSIZE
  {
    var i, row := j.op.i, f.rows[j.op.i];
    match j.st
    case Take(k) => Wants(row, c, j, k)
    case Clear(k, b) => Wants(row, c, j, k) && Pending(sb, f, i, k, b)
    case Link(k, b) => Wants(row, c, j, k) && k > NDIRECT && Pending(sb, f, i, k, b)
    case Fill => j.cur < End(j.op) && row[SlotAt(j.cur)] != 0
    case Save => j.cur == End(j.op) && |c| < End(j.op)
    case _ => false
  }

  // writei on a file that was c is at j, but for the stage.
  predicate WriteBase(sb: Super, f: Fs, c: seq<byte>, j: Job)
    requires Whole(sb, f) && j.op.i < |f.inodes| && j.op.WriteFile?
  {
    var i, x := j.op.i, f.inodes[j.op.i];
    && f.rows[i] == Row(f.disk, x) && x == j.x0.(addrs := x.addrs) && OnDisk(sb, f.disk, i, j.x0)
    && j.x0.size == |c| && j.op.off <= |c| && j.op.off <= j.cur <= End(j.op) <= MAXFILE * BSIZE
    && BytesAre(f.disk, f.rows[i], SoFar(c, j.op, j.cur)) && (x == j.x0 || |c| < End(j.op))
  }

  predicate WriteOk(sb: Super, f: Fs, c: seq<byte>, j: Job)
    requires Whole(sb, f) && j.op.i < |f.inodes| && j.op.WriteFile?
  { WriteBase(sb, f, c, j) && WriteStage(sb, f, c, j) }

  // itrunc on a file that was c is at j.
  predicate TruncOk(sb: Super, f: Fs, c: seq<byte>, j: Job)
    requires Whole(sb, f) && j.op.i < |f.inodes| && j.op.Truncate?
  {
    var i, x, n := j.op.i, f.inodes[j.op.i], j.cur;
    && x == j.x0.(addrs := x.addrs) && OnDisk(sb, f.disk, i, j.x0) && j.x0.size == |c| && n <= SLOTS + 1
    && f.rows[i] == Masked(Row(f.disk, x), n) && (forall k :: 0 <= k <= NDIRECT && Past(n, k) ==> x.addrs[k] == 0)
    && j.st == FreeStage(n) && n != NDIRECT && (n <= SLOTS ==> f.rows[i][Num(n)] != 0)
  }

  predicate JobOk(sb: Super, f: Fs, c: seq<byte>, j: Job)
    requires Whole(sb, f)
  { j.op.i < |f.inodes| && if j.op.WriteFile? then WriteOk(sb, f, c, j) else TruncOk(sb, f, c, j) }

  // File i is as it was, and what is marked for it.
  ghost predicate Untouched(sb: Super, f: Fs, f': Fs, i: nat)
    requires Whole(sb, f) && Whole(sb, f') && i < |f.inodes|
  {
    && |f'.disk| == |f.disk| && f'.inodes[i] == f.inodes[i] && f'.rows[i] == f.rows[i]
    && (forall k :: 0 <= k < SLOTS && f.rows[i][k] != 0 ==> f'.disk[f.rows[i][k]] == f.disk[f.rows[i][k]])
    && (forall w :: 0 <= w < IWORDS ==> DiskWord(sb, f'.disk, i, w) == DiskWord(sb, f.disk, i, w))
    && (forall k, b :: Pending(sb, f, i, k, b) ==> Pending(sb, f', i, k, b))
  }

  // ---- a step keeps the whole ----

  lemma StepUsed(sb: Super, f: Fs, j: Job, b: nat)
    requires StepOk(sb, f, j, b)
    ensures Layout(sb, StepFs(sb, f, j, b).disk)
    ensures Used(sb, StepFs(sb, f, j, b).disk) ==
              match j.st
              case Take(_) => Used(sb, f.disk) + {b}
              case Free(n) => Used(sb, f.disk) - {f.rows[j.op.i][Num(n)]}
              case _ => Used(sb, f.disk)
  {
    var f' := StepFs(sb, f, j, b);
    match j.st
    case Take(k) => UsedAfter(sb, f.disk, b, true);
    case Free(n) =>
      SlotIn(sb, f, j.op.i, Num(n));
      UsedAfter(sb, f.disk, f.rows[j.op.i][Num(n)], false);
    case Fill =>
      SlotIn(sb, f, j.op.i, SlotAt(j.cur));
      UsedFrame(sb, f.disk, f'.disk);
    case Save =>
      InodeIn(sb, f.disk, j.op.i);
      UsedFrame(sb, f.disk, f'.disk);
    case _ => UsedFrame(sb, f.disk, f'.disk);
  }

  lemma OwnedMark(sb: Super, rows: Rows, used: set<nat>, owner: map<nat, (nat, nat)>, i: nat, k: nat, b: nat)
    requires OwnedBy(sb, rows, used, owner) && b !in used
    ensures OwnedBy(sb, rows, used + {b}, owner[b := (i, k)]) == true
  {}

  lemma OwnedEnter(sb: Super, rows: Rows, used: set<nat>, owner: map<nat, (nat, nat)>, i: nat, k: nat, b: nat)
    requires OwnedBy(sb, rows, used, owner) && i < |rows| && k < |rows[i]|
    requires b in used && b in owner && owner[b] == (i, k) && sb.datastart <= b < sb.size
    ensures OwnedBy(sb, SetSlot(rows, i, k, b), used, owner) == true
  {}

  lemma OwnedFree(sb: Super, rows: Rows, used: set<nat>, owner: map<nat, (nat, nat)>, i: nat, k: nat)
    requires OwnedBy(sb, rows, used, owner) && i < |rows| && k < |rows[i]| && rows[i][k] != 0
    ensures OwnedBy(sb, SetSlot(rows, i, k, 0), used - {rows[i][k]}, owner) == true
  {}

  lemma StepOwned(sb: Super, f: Fs, c: seq<byte>, j: Job, b: nat)
    requires StepOk(sb, f, j, b) && JobOk(sb, f, c, j)
    ensures Layout(sb, StepFs(sb, f, j, b).disk)
    ensures var f' := StepFs(sb, f, j, b); OwnedBy(sb, f'.rows, Used(sb, f'.disk), f'.owner) == true
  {
    StepUsed(sb, f, j, b);
    var i, used := j.op.i, Used(sb, f.disk);
    match j.st
    case Take(k) =>
      OwnedMark(sb, f.rows, used, f.owner, i, k, b);
      assert f.rows[i := f.rows[i]] == f.rows;
    case Clear(k, b') => if k <= NDIRECT { OwnedEnter(sb, f.rows, used, f.owner, i, k, b'); }
                         else { assert f.rows[i := f.rows[i]] == f.rows; }
    case Link(k, b') => OwnedEnter(sb, f.rows, used, f.owner, i, k, b');
    case Free(n) => OwnedFree(sb, f.rows, used, f.owner, i, Num(n));
    case _ => assert f.rows[i := f.rows[i]] == f.rows;
  }

  lemma StepWhole(sb: Super, f: Fs, c: seq<byte>, j: Job, b: nat)
    requires StepOk(sb, f, j, b) && JobOk(sb, f, c, j)
    ensures Whole(sb, StepFs(sb, f, j, b)) == true
  {
    StepUsed(sb, f, j, b);
    StepOwned(sb, f, c, j, b);
    if j.st.Free? { SlotIn(sb, f, j.op.i, Num(j.st.n)); }
  }

  // ---- a step leaves the other files alone ----

  // The block that is logged belongs to nobody else.
  lemma StepBlock(sb: Super, f: Fs, c: seq<byte>, j: Job, b: nat, i: nat)
    requires StepOk(sb, f, j, b) && JobOk(sb, f, c, j) && i < |f.inodes| && i != j.op.i
    ensures forall k :: 0 <= k < SLOTS && f.rows[i][k] != 0 ==> f.rows[i][k] != StepWrite(sb, f, j, b).bn
  {
    match j.st
    case Take(k) =>
    case Clear(k, b') =>
    case Link(k, b') => SlotIn(sb, f, j.op.i, NDIRECT);
    case Fill => SlotIn(sb, f, j.op.i, SlotAt(j.cur));
    case Save => InodeIn(sb, f.disk, j.op.i);
    case Free(n) => SlotIn(sb, f, j.op.i, Num(n));
  }

  // Nor does the inode on disk of another file change.
  lemma SaveWords(sb: Super, f: Fs, j: Job, b: nat, i: nat, w: nat)
    requires StepOk(sb, f, j, b) && i < |f.inodes| && w < IWORDS && i != j.op.i && j.st.Save?
    ensures Layout(sb, StepFs(sb, f, j, b).disk)
    ensures DiskWord(sb, StepFs(sb, f, j, b).disk, i, w) == DiskWord(sb, f.disk, i, w)
  {
    StepUsed(sb, f, j, b);
    InodeIn(sb, f.disk, i);
    InodeIn(sb, f.disk, j.op.i);
    var a, me := InodeBlock(sb, j.op.i), j.op.i % IPB * IWORDS;
    if InodeBlock(sb, i) == a {
      assert i % IPB != j.op.i % IPB;
      WordOfPutInode(f.disk[a], me, StepInode(sb, f, j, b), IWORDS, i % IPB * IWORDS + w);
    }
  }

  lemma StepWords(sb: Super, f: Fs, j: Job, b: nat, i: nat, w: nat)
    requires StepOk(sb, f, j, b) && i < |f.inodes| && w < IWORDS && (i != j.op.i || !j.st.Save?)
    ensures Layout(sb, StepFs(sb, f, j, b).disk)
    ensures DiskWord(sb, StepFs(sb, f, j, b).disk, i, w) == DiskWord(sb, f.disk, i, w)
  {
    StepUsed(sb, f, j, b);
    if j.st.Save? {
      SaveWords(sb, f, j, b, i, w);
    } else {
      InodeIn(sb, f.disk, i);
      StepAbove(sb, f, j, b);
    }
  }

  // Only the inode is before the bitmap.
  lemma StepAbove(sb: Super, f: Fs, j: Job, b: nat)
    requires StepOk(sb, f, j, b) && !j.st.Save?
    ensures sb.bmapstart <= StepWrite(sb, f, j, b).bn
  {
    if j.st.Fill? { SlotIn(sb, f, j.op.i, SlotAt(j.cur)); }
  }

  lemma StepPending(sb: Super, f: Fs, j: Job, b: nat, i: nat, k: nat, b': nat)
    requires StepOk(sb, f, j, b) && i != j.op.i && Pending(sb, f, i, k, b')
    ensures Layout(sb, StepFs(sb, f, j, b).disk) && Pending(sb, StepFs(sb, f, j, b), i, k, b')
  {
    StepUsed(sb, f, j, b);
    if j.st.Free? { SlotIn(sb, f, j.op.i, Num(j.st.n)); }
  }

  lemma StepSpares(sb: Super, f: Fs, c: seq<byte>, j: Job, b: nat, i: nat)
    requires StepOk(sb, f, j, b) && JobOk(sb, f, c, j) && i < |f.inodes| && i != j.op.i
    ensures Whole(sb, StepFs(sb, f, j, b)) && Untouched(sb, f, StepFs(sb, f, j, b), i)
  {
    StepWhole(sb, f, c, j, b);
    StepBlock(sb, f, c, j, b, i);
    forall w | 0 <= w < IWORDS
      ensures DiskWord(sb, StepFs(sb, f, j, b).disk, i, w) == DiskWord(sb, f.disk, i, w) {
      StepWords(sb, f, j, b, i, w);
    }
    forall k, b' | Pending(sb, f, i, k, b') ensures Pending(sb, StepFs(sb, f, j, b), i, k, b') {
      StepPending(sb, f, j, b, i, k, b');
    }
  }

  // A file that is left alone stays what it is,
  lemma BytesKept(disk: Disk, disk': Disk, row: seq<nat>, c: seq<byte>)
    requires BytesAre(disk, row, c) && |disk'| == |disk|
    requires forall k :: 0 <= k < SLOTS && k != NDIRECT && row[k] != 0 ==> disk'[row[k]] == disk[row[k]]
    ensures BytesAre(disk', row, c) == true
  {
    forall o | 0 <= o < |c| ensures ByteAt(disk', row, o) == c[o] { assert row[SlotAt(o)] != 0; }
  }

  lemma RowKept(sb: Super, f: Fs, f': Fs, i: nat)
    requires Whole(sb, f) && Whole(sb, f') && i < |f.inodes| && Untouched(sb, f, f', i)
    requires f.inodes[i].addrs[NDIRECT] == 0 || f.rows[i][NDIRECT] == f.inodes[i].addrs[NDIRECT]
    ensures Row(f'.disk, f'.inodes[i]) == Row(f.disk, f.inodes[i])
  {}

  lemma QuietKept(sb: Super, f: Fs, f': Fs, c: seq<byte>, i: nat)
    requires Whole(sb, f) && Whole(sb, f') && i < |f.inodes| && Quiet(sb, f, c, i) && Untouched(sb, f, f', i)
    ensures Quiet(sb, f', c, i) == true
  {
    RowKept(sb, f, f', i);
    BytesKept(f.disk, f'.disk, f.rows[i], c);
  }

  // and so does a job at it.
  lemma JobKept(sb: Super, f: Fs, f': Fs, c: seq<byte>, j: Job)
    requires Whole(sb, f) && Whole(sb, f') && JobOk(sb, f, c, j) && Untouched(sb, f, f', j.op.i)
    ensures JobOk(sb, f', c, j) == true
  {
    var i := j.op.i;
    RowKept(sb, f, f', i);
    if j.op.WriteFile? { BytesKept(f.disk, f'.disk, f.rows[i], SoFar(c, j.op, j.cur)); }
  }

  // ---- a step does what it should to its own file ----

  // What the operation makes of a file that was c.
  function Result(c: seq<byte>, op: FileOp): seq<byte>
    requires op.WriteFile? ==> op.off <= |c|
  { if op.WriteFile? then Overwrite(c, op.off, op.src) else [] }

  // A job is where it should be, or done, and then its file is what it should be.
  predicate Advanced(sb: Super, f: Fs, c: seq<byte>, j: Job)
    requires Whole(sb, f) && j.op.i < |f.inodes| && (j.op.WriteFile? ==> j.op.off <= |c|)
  { if j.st.Done? then Quiet(sb, f, Result(c, j.op), j.op.i) else JobOk(sb, f, c, j) }

  lemma WriteNext(sb: Super, f: Fs, c: seq<byte>, j: Job)
    requires Whole(sb, f) == true && j.op.i < |f.inodes| && j.op.WriteFile? && WriteBase(sb, f, c, j) == true
    requires j.st == NextWrite(f.rows[j.op.i], |c|, j.op, j.cur)
    ensures Advanced(sb, f, c, j) == true
  {
    var row := f.rows[j.op.i];
    if j.st.Done? {
      assert j.op.src[..j.cur - j.op.off] == j.op.src;
    } else if j.st.Take? {
      NoHole(row, SoFar(c, j.op, j.cur), |c|, j.cur);
    }
  }

  // Where byte cur has no block, the file has ended.
  lemma NoHole(row: seq<nat>, d: seq<byte>, size: nat, cur: nat)
    requires Mapped(row, |d|) && |d| >= size && cur < MAXFILE * BSIZE && row[SlotAt(cur)] == 0
    ensures size <= cur
  {
    assert cur / BSIZE * BSIZE <= cur;
  }

  lemma StepTake(sb: Super, f: Fs, c: seq<byte>, j: Job, b: nat)
    requires StepOk(sb, f, j, b) && JobOk(sb, f, c, j) && j.st.Take?
    ensures Whole(sb, StepFs(sb, f, j, b)) && JobOk(sb, StepFs(sb, f, j, b), c, StepJob(sb, f, j, b)) == true
  {
    var i, f', j' := j.op.i, StepFs(sb, f, j, b), StepJob(sb, f, j, b);
    StepWhole(sb, f, c, j, b);
    StepUsed(sb, f, j, b);
    BitmapBlockIn(sb, f.disk, b);
    forall k | 0 <= k < SLOTS && f.rows[i][k] != 0
      ensures f'.disk[f.rows[i][k]] == f.disk[f.rows[i][k]] { SlotIn(sb, f, i, k); }
    SameOnDisk(sb, f, c, j, b);
    BytesKept(f.disk, f'.disk, f.rows[i], SoFar(c, j.op, j.cur));
    if f.inodes[i].addrs[NDIRECT] != 0 { assert f.rows[i][NDIRECT] != 0; }
    assert Row(f'.disk, f'.inodes[i]) == f.rows[i];
  }

  // Until the inode is saved it is on disk as it was.
  lemma SameOnDisk(sb: Super, f: Fs, c: seq<byte>, j: Job, b: nat)
    requires StepOk(sb, f, j, b) && JobOk(sb, f, c, j) && !j.st.Save?
    ensures Layout(sb, StepFs(sb, f, j, b).disk) && OnDisk(sb, StepFs(sb, f, j, b).disk, j.op.i, j.x0) == true
  {
    StepUsed(sb, f, j, b);
    forall w | 0 <= w < IWORDS
      ensures DiskWord(sb, StepFs(sb, f, j, b).disk, j.op.i, w) == DiskWord(sb, f.disk, j.op.i, w) {
      StepWords(sb, f, j, b, j.op.i, w);
    }
  }

  // A block that is nobody's becomes number k of a file that has none there.
  lemma BytesGrow(disk: Disk, disk': Disk, row: seq<nat>, c: seq<byte>, k: nat, b: nat)
    requires BytesAre(disk, row, c) && |disk'| == |disk| && k < SLOTS && row[k] == 0 && b < |disk|
    requires forall l :: 0 <= l < SLOTS && l != NDIRECT && row[l] != 0 ==> disk'[row[l]] == disk[row[l]]
    ensures BytesAre(disk', row[k := b], c) == true
  {
    var row' := row[k := b];
    forall o | 0 <= o < |c| ensures row'[SlotAt(o)] == row[SlotAt(o)] != 0 { assert row[SlotAt(o)] != 0; }
    forall n | 0 <= n < MAXFILE && n * BSIZE < |c| ensures row'[FileSlot(n)] != 0 { assert row[FileSlot(n)] != 0; }
    forall o | 0 <= o < |c| ensures ByteAt(disk', row', o) == c[o] { assert row[SlotAt(o)] != 0; }
  }

  lemma StepClear(sb: Super, f: Fs, c: seq<byte>, j: Job, b: nat)
    requires StepOk(sb, f, j, b) && JobOk(sb, f, c, j) && j.st.Clear?
    ensures Whole(sb, StepFs(sb, f, j, b)) && Advanced(sb, StepFs(sb, f, j, b), c, StepJob(sb, f, j, b)) == true
  {
    var i, k, b', f', j' := j.op.i, j.st.k, j.st.b, StepFs(sb, f, j, b), StepJob(sb, f, j, b);
    StepWhole(sb, f, c, j, b);
    StepUsed(sb, f, j, b);
    SameOnDisk(sb, f, c, j, b);
    var row, d := f.rows[i], SoFar(c, j.op, j.cur);
    forall l | 0 <= l < SLOTS && row[l] != 0 ensures f'.disk[row[l]] == f.disk[row[l]] { SlotIn(sb, f, i, l); }
    ClearRow(sb, f, c, j, b);
    if k <= NDIRECT {
      BytesGrow(f.disk, f'.disk, row, d, k, b');
      BaseAfter(sb, f, c, j, b);
      WriteNext(sb, f', c, j');
    } else {
      BytesKept(f.disk, f'.disk, row, d);
    }
  }

  lemma ClearRow(sb: Super, f: Fs, c: seq<byte>, j: Job, b: nat)
    requires StepOk(sb, f, j, b) && JobOk(sb, f, c, j) && j.st.Clear?
    ensures Row(StepFs(sb, f, j, b).disk, StepInode(sb, f, j, b)) == StepRow(sb, f, j, b)
  {
    var i, k, x, x', disk' := j.op.i, j.st.k, f.inodes[j.op.i], StepInode(sb, f, j, b), StepFs(sb, f, j, b).disk;
    assert f.rows[i][NDIRECT] == x.addrs[NDIRECT];
    if x.addrs[NDIRECT] != 0 { SlotIn(sb, f, i, NDIRECT); }
    forall l | 0 <= l < SLOTS ensures Slot(disk', x', l) == StepRow(sb, f, j, b)[l] {
      assert f.rows[i][l] == Slot(f.disk, x, l);
    }
  }

  lemma StepLink(sb: Super, f: Fs, c: seq<byte>, j: Job, b: nat)
    requires StepOk(sb, f, j, b) && JobOk(sb, f, c, j) && j.st.Link?
    ensures Whole(sb, StepFs(sb, f, j, b)) && Advanced(sb, StepFs(sb, f, j, b), c, StepJob(sb, f, j, b)) == true
  {
    var i, k, f', j' := j.op.i, j.st.k, StepFs(sb, f, j, b), StepJob(sb, f, j, b);
    StepWhole(sb, f, c, j, b);
    SameOnDisk(sb, f, c, j, b);
    var row := f.rows[i];
    SlotIn(sb, f, i, NDIRECT);
    forall l | 0 <= l < SLOTS && l != NDIRECT && row[l] != 0
      ensures f'.disk[row[l]] == f.disk[row[l]] { SlotIn(sb, f, i, l); }
    BytesGrow(f.disk, f'.disk, row, SoFar(c, j.op, j.cur), k, j.st.b);
    LinkRow(sb, f, c, j, b);
    BaseAfter(sb, f, c, j, b);
    WriteNext(sb, f', c, j');
  }

  lemma LinkRow(sb: Super, f: Fs, c: seq<byte>, j: Job, b: nat)
    requires StepOk(sb, f, j, b) && JobOk(sb, f, c, j) && j.st.Link?
    ensures Row(StepFs(sb, f, j, b).disk, f.inodes[j.op.i]) == StepRow(sb, f, j, b)
  {
    var i, k, x, disk' := j.op.i, j.st.k, f.inodes[j.op.i], StepFs(sb, f, j, b).disk;
    var a := x.addrs[NDIRECT];
    forall l | 0 <= l < SLOTS ensures Slot(disk', x, l) == StepRow(sb, f, j, b)[l] {
      assert f.rows[i][l] == Slot(f.disk, x, l);
      if l > NDIRECT { WordOfSetWord(f.disk[a], k - NDIRECT - 1, j.st.b, l - NDIRECT - 1); }
    }
  }

  lemma SameBlock(cur: nat, m: nat, o: nat)
    requires InBlock(cur, m) && cur <= o < cur + m
    ensures o / BSIZE == cur / BSIZE && o % BSIZE == cur % BSIZE + (o - cur)
  {}

  // Bytes put into the block of byte cur are in the file, and nothing else is different.
  lemma PatchByte(disk: Disk, row: seq<nat>, d: seq<byte>, cur: nat, data: seq<byte>, o: nat)
    requires BytesAre(disk, row, d) && InBlock(cur, |data|) && cur <= |d| && cur + |data| <= MAXFILE * BSIZE
    requires cur < MAXFILE * BSIZE && o < |Overwrite(d, cur, data)|
    requires forall k :: 0 <= k < SLOTS && k != SlotAt(cur) ==> row[k] != row[SlotAt(cur)]
    ensures var a := row[SlotAt(cur)];
            ByteAt(disk[a := Patched(disk[a], cur % BSIZE, data)], row, o) == Overwrite(d, cur, data)[o]
  {
    if cur <= o < cur + |data| {
      SameBlock(cur, |data|, o);
    } else if o / BSIZE == cur / BSIZE {
      assert o % BSIZE < cur % BSIZE || o % BSIZE >= cur % BSIZE + |data|;
    } else {
      assert SlotAt(o) != SlotAt(cur);
    }
  }

  lemma PatchBytes(disk: Disk, row: seq<nat>, d: seq<byte>, cur: nat, data: seq<byte>)
    requires BytesAre(disk, row, d) && InBlock(cur, |data|) && cur <= |d| && cur + |data| <= MAXFILE * BSIZE
    requires cur < MAXFILE * BSIZE && row[SlotAt(cur)] != 0
    requires forall k :: 0 <= k < SLOTS && k != SlotAt(cur) ==> row[k] != row[SlotAt(cur)]
    ensures var a := row[SlotAt(cur)];
            BytesAre(disk[a := Patched(disk[a], cur % BSIZE, data)], row, Overwrite(d, cur, data)) == true
  {
    var a, d' := row[SlotAt(cur)], Overwrite(d, cur, data);
    var disk' := disk[a := Patched(disk[a], cur % BSIZE, data)];
    forall n | 0 <= n < MAXFILE && n * BSIZE < |d'| ensures row[FileSlot(n)] != 0 {
      if n * BSIZE >= |d| { assert n == cur / BSIZE; }
    }
    forall o | 0 <= o < |d'| ensures ByteAt(disk', row, o) == d'[o] { PatchByte(disk, row, d, cur, data, o); }
  }

  lemma SoFarNext(c: seq<byte>, op: FileOp, cur: nat, m: nat)
    requires op.WriteFile? && op.off <= |c| && op.off <= cur && cur + m <= End(op)
    ensures cur <= |SoFar(c, op, cur)|
    ensures Overwrite(SoFar(c, op, cur), cur, op.src[cur - op.off..cur - op.off + m]) == SoFar(c, op, cur + m)
  {}

  // Different numbers of a file are different blocks.
  lemma OwnSlots(sb: Super, f: Fs, i: nat, k: nat, l: nat)
    requires Whole(sb, f) && i < |f.rows| && k < SLOTS && l < SLOTS && k != l && f.rows[i][k] != 0
    ensures f.rows[i][l] != f.rows[i][k] && f.rows[i][k] < |f.disk|
  {}

  lemma FillBytes(disk: Disk, row: seq<nat>, c: seq<byte>, op: FileOp, cur: nat, m: nat, data: seq<byte>)
    requires op.WriteFile? && op.off <= |c| && op.off <= cur < End(op) <= MAXFILE * BSIZE && m == Chunk(op, cur)
    requires BytesAre(disk, row, SoFar(c, op, cur)) && row[SlotAt(cur)] != 0
    requires data == op.src[cur - op.off..cur - op.off + m]
    requires forall k :: 0 <= k < SLOTS && k != SlotAt(cur) ==> row[k] != row[SlotAt(cur)]
    ensures var a := row[SlotAt(cur)];
            BytesAre(disk[a := Patched(disk[a], cur % BSIZE, data)], row, SoFar(c, op, cur + m)) == true
  {
    SoFarNext(c, op, cur, m);
    PatchBytes(disk, row, SoFar(c, op, cur), cur, data);
  }

  lemma FillDisk(sb: Super, f: Fs, j: Job, b: nat, data: seq<byte>)
    requires StepOk(sb, f, j, b) && j.st.Fill?
    requires data == j.op.src[j.cur - j.op.off..j.cur - j.op.off + Chunk(j.op, j.cur)]
    ensures var a := f.rows[j.op.i][SlotAt(j.cur)];
            a < |f.disk| && StepFs(sb, f, j, b).disk == f.disk[a := Patched(f.disk[a], j.cur % BSIZE, data)]
  {
    SlotIn(sb, f, j.op.i, SlotAt(j.cur));
  }

  lemma FillRow(sb: Super, f: Fs, c: seq<byte>, j: Job, b: nat)
    requires StepOk(sb, f, j, b) && JobOk(sb, f, c, j) && j.st.Fill?
    ensures Row(StepFs(sb, f, j, b).disk, StepInode(sb, f, j, b)) == StepRow(sb, f, j, b)
  {
    var row, slot := f.rows[j.op.i], SlotAt(j.cur);
    OwnSlots(sb, f, j.op.i, slot, NDIRECT);
    assert row[NDIRECT] == f.inodes[j.op.i].addrs[NDIRECT] != row[slot];
  }

  lemma StepFillBytes(sb: Super, f: Fs, c: seq<byte>, j: Job, b: nat)
    requires StepOk(sb, f, j, b) && JobOk(sb, f, c, j) && j.st.Fill?
    ensures StepJob(sb, f, j, b).cur <= End(j.op) && j.op.off <= |c|
    ensures BytesAre(StepFs(sb, f, j, b).disk, StepRow(sb, f, j, b), SoFar(c, j.op, StepJob(sb, f, j, b).cur)) == true
  {
    var i, row, slot, m := j.op.i, f.rows[j.op.i], SlotAt(j.cur), Chunk(j.op, j.cur);
    var data := j.op.src[j.cur - j.op.off..j.cur - j.op.off + m];
    forall k | 0 <= k < SLOTS && k != slot ensures row[k] != row[slot] { OwnSlots(sb, f, i, slot, k); }
    FillBytes(f.disk, row, c, j.op, j.cur, m, data);
    FillDisk(sb, f, j, b, data);
  }

  lemma FillBase(sb: Super, f: Fs, c: seq<byte>, j: Job, b: nat)
    requires StepOk(sb, f, j, b) && JobOk(sb, f, c, j) && j.st.Fill?
    ensures Whole(sb, StepFs(sb, f, j, b)) == true
    ensures WriteBase(sb, StepFs(sb, f, j, b), c, StepJob(sb, f, j, b)) == true
  {
    StepWhole(sb, f, c, j, b);
    SameOnDisk(sb, f, c, j, b);
    StepFillBytes(sb, f, c, j, b);
    FillRow(sb, f, c, j, b);
    BaseAfter(sb, f, c, j, b);
  }

  lemma StepFill(sb: Super, f: Fs, c: seq<byte>, j: Job, b: nat)
    requires StepOk(sb, f, j, b) && JobOk(sb, f, c, j) && j.st.Fill?
    ensures Whole(sb, StepFs(sb, f, j, b)) && Advanced(sb, StepFs(sb, f, j, b), c, StepJob(sb, f, j, b)) == true
  {
    FillBase(sb, f, c, j, b);
    WriteNext(sb, StepFs(sb, f, j, b), c, StepJob(sb, f, j, b));
  }

  // The parts of WriteBase after a step.
  lemma BaseAfter(sb: Super, f: Fs, c: seq<byte>, j: Job, b: nat)
    requires StepOk(sb, f, j, b) && JobOk(sb, f, c, j) && j.op.WriteFile? && !j.st.Save?
    requires Whole(sb, StepFs(sb, f, j, b)) == true && OnDisk(sb, StepFs(sb, f, j, b).disk, j.op.i, j.x0) == true
    requires Row(StepFs(sb, f, j, b).disk, StepInode(sb, f, j, b)) == StepRow(sb, f, j, b)
    requires StepJob(sb, f, j, b).cur <= End(j.op)
    requires BytesAre(StepFs(sb, f, j, b).disk, StepRow(sb, f, j, b), SoFar(c, j.op, StepJob(sb, f, j, b).cur)) == true
    ensures WriteBase(sb, StepFs(sb, f, j, b), c, StepJob(sb, f, j, b)) == true
  {}

  lemma SavedInode(sb: Super, f: Fs, j: Job, b: nat)
    requires StepOk(sb, f, j, b) && j.st.Save?
    ensures Layout(sb, StepFs(sb, f, j, b).disk)
    ensures OnDisk(sb, StepFs(sb, f, j, b).disk, j.op.i, StepInode(sb, f, j, b))
    ensures forall c :: 0 <= c < |f.disk| && c != InodeBlock(sb, j.op.i) ==> StepFs(sb, f, j, b).disk[c] == f.disk[c]
  {
    StepUsed(sb, f, j, b);
    InodeIn(sb, f.disk, j.op.i);
    var a, first, x := InodeBlock(sb, j.op.i), j.op.i % IPB * IWORDS, StepInode(sb, f, j, b);
    forall w | 0 <= w < IWORDS ensures DiskWord(sb, StepFs(sb, f, j, b).disk, j.op.i, w) == InodeWord(x, w) {
      WordOfPutInode(f.disk[a], first, x, IWORDS, first + w);
    }
  }

  lemma StepSave(sb: Super, f: Fs, c: seq<byte>, j: Job, b: nat)
    requires StepOk(sb, f, j, b) && JobOk(sb, f, c, j) && j.st.Save?
    ensures Whole(sb, StepFs(sb, f, j, b)) && Advanced(sb, StepFs(sb, f, j, b), c, StepJob(sb, f, j, b)) == true
  {
    var i, f' := j.op.i, StepFs(sb, f, j, b);
    var row, x := f.rows[i], f.inodes[i];
    StepWhole(sb, f, c, j, b);
    SavedInode(sb, f, j, b);
    InodeIn(sb, f.disk, i);
    forall k | 0 <= k < SLOTS && row[k] != 0 ensures f'.disk[row[k]] == f.disk[row[k]] { SlotIn(sb, f, i, k); }
    assert f'.rows[i] == row;
    if j.op.WriteFile? {
      if x.addrs[NDIRECT] != 0 { assert row[NDIRECT] != 0; }
      assert Row(f'.disk, f'.inodes[i]) == Row(f.disk, x);
      assert j.op.src[..j.cur - j.op.off] == j.op.src;
      BytesKept(f.disk, f'.disk, row, Result(c, j.op));
    } else {
      forall k | 0 <= k < SLOTS ensures row[k] == 0 { assert Past(SLOTS + 1, k); }
      assert Row(f'.disk, f'.inodes[i]) == row;
    }
  }

  lemma {:induction false} NextFreeSkips(row: seq<nat>, n: nat, l: nat)
    requires |row| == SLOTS && n <= SLOTS + 1 && n <= l < NextFree(row, n) && l != NDIRECT
    ensures row[Num(l)] == 0
    decreases SLOTS + 1 - n
  {
    if l > n { NextFreeSkips(row, n + 1, l); }
  }

  // Numbers that are passed have no block.
  lemma PassedFree(row: seq<nat>, n: nat, m: nat, k: nat)
    requires |row| == SLOTS && n <= SLOTS + 1 && m == NextFree(row, n) && k < SLOTS && Past(m, k)
    requires Past(n, k) ==> row[k] == 0
    ensures row[k] == 0
  {
    if !Past(n, k) { NextFreeSkips(row, n, if k == NDIRECT then SLOTS else k); }
  }

  lemma StepFree(sb: Super, f: Fs, c: seq<byte>, j: Job, b: nat)
    requires StepOk(sb, f, j, b) && JobOk(sb, f, c, j) && j.st.Free?
    ensures Whole(sb, StepFs(sb, f, j, b)) && JobOk(sb, StepFs(sb, f, j, b), c, StepJob(sb, f, j, b)) == true
  {
    StepWhole(sb, f, c, j, b);
    SameOnDisk(sb, f, c, j, b);
    FreeRow(sb, f, c, j, b);
    FreeAddrs(sb, f, c, j, b);
  }

  // full is the row with nothing masked.
  lemma MaskNext(full: seq<nat>, full': seq<nat>, row: seq<nat>, row': seq<nat>, n: nat, m: nat)
    requires |full| == |full'| == |row| == SLOTS && n <= SLOTS && n != NDIRECT && row == Masked(full, n)
    requires row' == row[Num(n) := 0] && m == NextFree(row', n + 1)
    requires n < SLOTS ==> forall k :: 0 <= k < SLOTS && k != n ==> full'[k] == full[k]
    ensures row' == Masked(full', m)
  {
    forall k | 0 <= k < SLOTS ensures row'[k] == Masked(full', m)[k] {
      if Past(m, k) { PassedFree(row', n + 1, m, k); }
    }
  }

  lemma FreeFull(sb: Super, f: Fs, c: seq<byte>, j: Job, b: nat, k: nat)
    requires StepOk(sb, f, j, b) && JobOk(sb, f, c, j) && j.st.Free? && j.cur < SLOTS && k < SLOTS && k != j.cur
    ensures Row(StepFs(sb, f, j, b).disk, StepInode(sb, f, j, b))[k] == Row(f.disk, f.inodes[j.op.i])[k]
  {
    var i, n, a := j.op.i, j.cur, f.inodes[j.op.i].addrs[NDIRECT];
    SlotIn(sb, f, i, n);
    BitmapBlockIn(sb, f.disk, f.rows[i][n]);
    if k > NDIRECT && a != 0 {
      assert f.rows[i][NDIRECT] == a;
      SlotIn(sb, f, i, NDIRECT);
    }
  }

  lemma FreeRow(sb: Super, f: Fs, c: seq<byte>, j: Job, b: nat)
    requires StepOk(sb, f, j, b) && JobOk(sb, f, c, j) && j.st.Free?
    ensures StepRow(sb, f, j, b) ==
            Masked(Row(StepFs(sb, f, j, b).disk, StepInode(sb, f, j, b)), StepJob(sb, f, j, b).cur)
  {
    var n, full, full' := j.cur, Row(f.disk, f.inodes[j.op.i]), Row(StepFs(sb, f, j, b).disk, StepInode(sb, f, j, b));
    if n < SLOTS {
      forall k | 0 <= k < SLOTS && k != n ensures full'[k] == full[k] { FreeFull(sb, f, c, j, b, k); }
    }
    MaskNext(full, full', f.rows[j.op.i], StepRow(sb, f, j, b), n, StepJob(sb, f, j, b).cur);
  }

  lemma FreeAddrs(sb: Super, f: Fs, c: seq<byte>, j: Job, b: nat)
    requires StepOk(sb, f, j, b) && JobOk(sb, f, c, j) && j.st.Free?
    ensures forall k :: 0 <= k <= NDIRECT && Past(StepJob(sb, f, j, b).cur, k) ==> StepInode(sb, f, j, b).addrs[k] == 0
  {
    var n, x, row := j.cur, f.inodes[j.op.i], f.rows[j.op.i];
    forall k | 0 <= k <= NDIRECT ensures row[k] == if Past(n, k) then 0 else x.addrs[k] {}
    AddrsFreed(x, StepInode(sb, f, j, b), row, StepRow(sb, f, j, b), n, StepJob(sb, f, j, b).cur);
  }

  lemma AddrsFreed(x: Inode, x': Inode, row: seq<nat>, row': seq<nat>, n: nat, m: nat)
    requires |row| == SLOTS && n <= SLOTS && n != NDIRECT && row' == row[Num(n) := 0] && m == NextFree(row', n + 1)
    requires forall k :: 0 <= k <= NDIRECT ==> row[k] == if Past(n, k) then 0 else x.addrs[k]
    requires forall k :: 0 <= k <= NDIRECT && Past(n, k) ==> x.addrs[k] == 0
    requires forall k :: 0 <= k <= NDIRECT ==> x'.addrs[k] == if k == Num(n) then 0 else x.addrs[k]
    ensures forall k :: 0 <= k <= NDIRECT && Past(m, k) ==> x'.addrs[k] == 0
  {
    forall k | 0 <= k <= NDIRECT && Past(m, k) ensures x'.addrs[k] == 0 { PassedFree(row', n + 1, m, k); }
  }

  // Any step.
  lemma StepAdvances(sb: Super, f: Fs, c: seq<byte>, j: Job, b: nat)
    requires StepOk(sb, f, j, b) && JobOk(sb, f, c, j)
    ensures Whole(sb, StepFs(sb, f, j, b)) && Advanced(sb, StepFs(sb, f, j, b), c, StepJob(sb, f, j, b)) == true
  {
    match j.st
    case Take(k) => StepTake(sb, f, c, j, b);
    case Clear(k, b') => StepClear(sb, f, c, j, b);
    case Link(k, b') => StepLink(sb, f, c, j, b);
    case Fill => StepFill(sb, f, c, j, b);
    case Save => StepSave(sb, f, c, j, b);
    case Free(n) => StepFree(sb, f, c, j, b);
  }

  // A job can always go on, but for a full disk.
  lemma JobCanStep(sb: Super, f: Fs, c: seq<byte>, j: Job, b: nat)
    requires Whole(sb, f) && JobOk(sb, f, c, j) && (j.st.Take? ==> b < sb.size && b !in Used(sb, f.disk))
    ensures StepOk(sb, f, j, b)
  {
    if j.st.Link? { SlotIn(sb, f, j.op.i, NDIRECT); }
  }

  // ---- the beginning ----

  function Start(row: seq<nat>, x: Inode, op: FileOp): Job
    requires |row| == SLOTS && (op.WriteFile? ==> End(op) <= MAXFILE * BSIZE)
  {
    if op.WriteFile? then Job(op, x, op.off, NextWrite(row, x.size, op, op.off))
    else
      var m := NextFree(row, 0);
      Job(op, x, m, FreeStage(m))
  }

  // What an operation asks of its file.
  predicate Fits(c: seq<byte>, op: FileOp) { op.WriteFile? ==> op.off <= |c| && End(op) <= MAXFILE * BSIZE }

  lemma Starts(sb: Super, f: Fs, c: seq<byte>, op: FileOp)
    requires Whole(sb, f) && op.i < |f.inodes| && Quiet(sb, f, c, op.i) && Fits(c, op)
    ensures Advanced(sb, f, c, Start(f.rows[op.i], f.inodes[op.i], op)) == true
  {
    var i, row, x := op.i, f.rows[op.i], f.inodes[op.i];
    var j := Start(row, x, op);
    if op.WriteFile? {
      assert SoFar(c, op, op.off) == c;
      assert x == x.(addrs := x.addrs);
      WriteNext(sb, f, c, j);
    } else {
      forall k | 0 <= k < SLOTS && Past(j.cur, k) ensures row[k] == 0 { PassedFree(row, 0, j.cur, k); }
      assert row == Masked(row, j.cur);
      assert x == x.(addrs := x.addrs);
    }
  }

  // ---- which blocks an operation logs ----

  // A bitmap block, the block of the inode, or the block of number k of the file.
  datatype Place = MapBlock(bn: nat) | InodePlace | Data(k: nat)

  function StepPlace(sb: Super, f: Fs, j: Job, b: nat): Place
    requires StepOk(sb, f, j, b)
  {
    match j.st
    case Take(_) => MapBlock(StepWrite(sb, f, j, b).bn)
    case Free(_) => MapBlock(StepWrite(sb, f, j, b).bn)
    case Clear(k, _) => Data(k)
    case Link(_, _) => Data(NDIRECT)
    case Fill => Data(SlotAt(j.cur))
    case Save => InodePlace
  }

  function BitmapBlocks(sb: Super): nat { (sb.size + BPB - 1) / BPB }

  // Blocks first to last of the file, if any, are written.
  function First(op: FileOp): nat
    requires op.WriteFile?
  { op.off / BSIZE }

  function Span(op: FileOp): nat
    requires op.WriteFile?
  { if op.src == [] then 0 else (End(op) - 1) / BSIZE - First(op) + 1 }

  predicate UsesIndirect(op: FileOp)
    requires op.WriteFile?
  { End(op) > NDIRECT * BSIZE }

  // At most so many: the bitmap, the inode, the data and the indirect block.
  function Bound(sb: Super, op: FileOp): nat {
    BitmapBlocks(sb) + 1 + if op.WriteFile? then Span(op) + (if UsesIndirect(op) then 1 else 0) else 0
  }

  // Where an operation may log.
  predicate MayLog(sb: Super, op: FileOp, pl: Place) {
    match pl
    case MapBlock(bn) => sb.bmapstart <= bn < sb.bmapstart + BitmapBlocks(sb)
    case InodePlace => true
    case Data(k) =>
      && op.WriteFile?
      && ((k == NDIRECT && UsesIndirect(op)) || exists n :: First(op) <= n < First(op) + Span(op) && k == FileSlot(n))
  }

  // The block of a place.
  function BlockAt(sb: Super, f: Fs, j: Job, pl: Place): nat
    requires Whole(sb, f) && j.op.i < |f.rows| && (pl.Data? ==> pl.k < SLOTS)
  {
    match pl
    case MapBlock(bn) => bn
    case InodePlace => InodeBlock(sb, j.op.i)
    case Data(k) => DataAt(f.rows[j.op.i], j.st, k)
  }

  // Number k of a file, or what is to become it.
  function DataAt(row: seq<nat>, st: Stage, k: nat): nat
    requires k < |row|
  { if (st.Clear? || st.Link?) && st.k == k then st.b else row[k] }

  // Where a job has logged: places it may log at, whose blocks are among homes; and writei has logged
  // every block of data up to cur.
  predicate Placed(sb: Super, f: Fs, j: Job, places: set<Place>, homes: seq<nat>)
    requires Whole(sb, f) && j.op.i < |f.rows|
  {
    && (forall pl :: pl in places ==> MayLog(sb, j.op, pl) && (pl.Data? ==> pl.k < SLOTS))
    && (forall pl :: pl in places ==> BlockAt(sb, f, j, pl) in homes && BlockAt(sb, f, j, pl) != 0)
    && (j.op.WriteFile? ==> Covered(j.op, j.cur, places))
  }

  predicate Covered(op: FileOp, cur: nat, places: set<Place>)
    requires op.WriteFile?
  { op.off < cur ==> forall n :: First(op) <= n < MAXFILE && n * BSIZE < cur ==> Data(FileSlot(n)) in places }

  lemma SpanOf(op: FileOp, cur: nat)
    requires op.WriteFile? && op.off <= cur < End(op)
    ensures First(op) <= cur / BSIZE < First(op) + Span(op)
  {}

  lemma StepMayLog(sb: Super, f: Fs, c: seq<byte>, j: Job, b: nat)
    requires StepOk(sb, f, j, b) && JobOk(sb, f, c, j)
    ensures var pl := StepPlace(sb, f, j, b);
            && MayLog(sb, j.op, pl) && (pl.Data? ==> pl.k < SLOTS)
            && BlockAt(sb, f, j, pl) == StepWrite(sb, f, j, b).bn != 0
  {
    if j.op.WriteFile? && j.cur < End(j.op) { SpanOf(j.op, j.cur); }
    match j.st
    case Take(k) => BitmapIn(sb, b);
    case Free(n) =>
      SlotIn(sb, f, j.op.i, Num(n));
      BitmapIn(sb, f.rows[j.op.i][Num(n)]);
    case Fill => SlotIn(sb, f, j.op.i, SlotAt(j.cur));
    case Save => InodeIn(sb, f.disk, j.op.i);
    case _ =>
  }

  lemma BitmapIn(sb: Super, b: nat)
    requires b < sb.size
    ensures sb.bmapstart <= BitmapBlock(sb, b) < sb.bmapstart + BitmapBlocks(sb)
  {}

  lemma DataStays(sb: Super, f: Fs, c: seq<byte>, j: Job, b: nat, k: nat)
    requires StepOk(sb, f, j, b) && JobOk(sb, f, c, j) && j.op.WriteFile? && k < SLOTS
    requires DataAt(f.rows[j.op.i], j.st, k) != 0
    ensures DataAt(StepRow(sb, f, j, b), StepJob(sb, f, j, b).st, k) == DataAt(f.rows[j.op.i], j.st, k)
  {
    match j.st
    case Take(_) => assert StepJob(sb, f, j, b).st == Clear(j.st.k, b);
    case Clear(_, _) => assert StepJob(sb, f, j, b).st.Link? ==> StepJob(sb, f, j, b).st == Link(j.st.k, j.st.b);
    case _ =>
  }

  // The block of a place where the job has logged stays the same.
  lemma BlockStays(sb: Super, f: Fs, c: seq<byte>, j: Job, b: nat, pl: Place)
    requires StepOk(sb, f, j, b) && JobOk(sb, f, c, j) && MayLog(sb, j.op, pl) && (pl.Data? ==> pl.k < SLOTS)
    requires BlockAt(sb, f, j, pl) != 0 && Whole(sb, StepFs(sb, f, j, b))
    ensures BlockAt(sb, StepFs(sb, f, j, b), StepJob(sb, f, j, b), pl) == BlockAt(sb, f, j, pl)
  {
    if pl.Data? { DataStays(sb, f, c, j, b, pl.k); }
  }

  lemma PlacedStep(sb: Super, f: Fs, c: seq<byte>, j: Job, b: nat, places: set<Place>, homes: seq<nat>,
      homes': seq<nat>)
    requires StepOk(sb, f, j, b) && JobOk(sb, f, c, j) && Placed(sb, f, j, places, homes)
    requires StepWrite(sb, f, j, b).bn in homes' && forall h :: h in homes ==> h in homes'
    ensures StepPlace(sb, f, j, b) in places ==> StepWrite(sb, f, j, b).bn in homes
    ensures Whole(sb, StepFs(sb, f, j, b))
    ensures Placed(sb, StepFs(sb, f, j, b), StepJob(sb, f, j, b), places + {StepPlace(sb, f, j, b)}, homes') == true
  {
    var pl0, f', j' := StepPlace(sb, f, j, b), StepFs(sb, f, j, b), StepJob(sb, f, j, b);
    StepWhole(sb, f, c, j, b);
    StepMayLog(sb, f, c, j, b);
    forall pl | pl in places + {pl0} ensures BlockAt(sb, f', j', pl) == BlockAt(sb, f, j, pl) {
      BlockStays(sb, f, c, j, b, pl);
    }
    if j.op.WriteFile? { CoveredStep(sb, f, c, j, b, places); }
  }

  lemma CoveredStep(sb: Super, f: Fs, c: seq<byte>, j: Job, b: nat, places: set<Place>)
    requires StepOk(sb, f, j, b) && JobOk(sb, f, c, j) && j.op.WriteFile? && Covered(j.op, j.cur, places)
    ensures Covered(j.op, StepJob(sb, f, j, b).cur, places + {StepPlace(sb, f, j, b)}) == true
  {
    var cur' := StepJob(sb, f, j, b).cur;
    if j.op.off < cur' {
      forall n | First(j.op) <= n < MAXFILE && n * BSIZE < cur'
        ensures Data(FileSlot(n)) in places + {StepPlace(sb, f, j, b)} {
        if j.st.Fill? { FilledUpTo(j.op, j.cur, n); }
      }
    }
  }

  // Writing a chunk comes to no other block.
  lemma FilledUpTo(op: FileOp, cur: nat, n: nat)
    requires op.WriteFile? && op.off <= cur < End(op) && First(op) <= n && n * BSIZE < cur + Chunk(op, cur)
    ensures n == cur / BSIZE || (n * BSIZE < cur && op.off < cur)
  {}

  // Nothing about a job changes with other files.
  lemma PlacedKept(sb: Super, f: Fs, f': Fs, j: Job, places: set<Place>, homes: seq<nat>, homes': seq<nat>)
    requires Whole(sb, f) && Whole(sb, f') && j.op.i < |f.rows| && Placed(sb, f, j, places, homes)
    requires f'.rows[j.op.i] == f.rows[j.op.i] && forall h :: h in homes ==> h in homes'
    ensures Placed(sb, f', j, places, homes') == true
  {
    forall pl | pl in places ensures BlockAt(sb, f', j, pl) == BlockAt(sb, f, j, pl) {}
  }

  // ---- how many they are ----

  function MapPlaces(lo: nat, n: nat): set<Place> { set b | lo <= b < lo + n :: MapBlock(b) }

  lemma {:induction false} MapPlacesSize(lo: nat, n: nat)
    ensures |MapPlaces(lo, n)| == n
  {
    if n == 0 {
      assert MapPlaces(lo, n) == {};
    } else {
      MapPlacesSize(lo, n - 1);
      assert MapPlaces(lo, n) == MapPlaces(lo, n - 1) + {MapBlock(lo + n - 1)};
    }
  }

  function DataPlaces(lo: nat, n: nat): set<Place> { set k | lo <= k < lo + n :: Data(FileSlot(k)) }

  lemma {:induction false} DataPlacesSize(lo: nat, n: nat)
    ensures |DataPlaces(lo, n)| == n
  {
    if n == 0 {
      assert DataPlaces(lo, n) == {};
    } else {
      DataPlacesSize(lo, n - 1);
      assert DataPlaces(lo, n) == DataPlaces(lo, n - 1) + {Data(FileSlot(lo + n - 1))};
    }
  }

  // Everywhere an operation may log.
  function AllPlaces(sb: Super, op: FileOp): set<Place> {
    MapPlaces(sb.bmapstart, BitmapBlocks(sb)) + {InodePlace} +
    if op.WriteFile? then DataPlaces(First(op), Span(op)) + (if UsesIndirect(op) then {Data(NDIRECT)} else {}) else {}
  }

  lemma {:induction false} SubsetSize<T>(a: set<T>, b: set<T>)
    requires a <= b
    ensures |a| <= |b|
  {
    if a != {} {
      var x :| x in a;
      SubsetSize(a - {x}, b - {x});
    }
  }

  lemma PlacesFit(sb: Super, op: FileOp, places: set<Place>)
    requires forall pl :: pl in places ==> MayLog(sb, op, pl)
    ensures |places| <= Bound(sb, op)
  {
    MapPlacesSize(sb.bmapstart, BitmapBlocks(sb));
    if op.WriteFile? { DataPlacesSize(First(op), Span(op)); }
    forall pl | pl in places ensures pl in AllPlaces(sb, op) {
      if pl.Data? && !(pl.k == NDIRECT && UsesIndirect(op)) {
        var n :| First(op) <= n < First(op) + Span(op) && pl.k == FileSlot(n);
        assert pl == Data(FileSlot(n));
      }
    }
    SubsetSize(places, AllPlaces(sb, op));
  }

  // ---- a whole call, with nobody else at work ----

  // The blocks that balloc found, and what was logged, step by step.
  datatype Trace = Trace(bs: seq<nat>, ws: seq<Write>)

  predicate CanGoOn(sb: Super, f: Fs, j: Job, b: nat) {
    && StepOk(sb, f, j, b) && (j.op.WriteFile? ==> j.cur <= End(j.op) <= MAXFILE * BSIZE)
    && (j.st.Clear? || j.st.Link? ==> j.op.WriteFile?)
  }

  datatype Went = Went(w: Write, f: Fs, j: Job)

  // One step.
  function Go(sb: Super, f: Fs, j: Job, b: nat): Went
    requires CanGoOn(sb, f, j, b) == true
  { Went(StepWrite(sb, f, j, b), StepFs(sb, f, j, b), StepJob(sb, f, j, b)) }

  datatype Point = Point(f: Fs, j: Job)

  predicate Steps(sb: Super, p: Point, b: nat, w: Write, p': Point) {
    CanGoOn(sb, p.f, p.j, b) == true && var go := Go(sb, p.f, p.j, b); w == go.w && p' == Point(go.f, go.j)
  }

  // Step k of a run through the points ps.
  predicate StepAt(sb: Super, ps: seq<Point>, tr: Trace, k: nat)
    requires |ps| == |tr.bs| + 1 == |tr.ws| + 1 && k < |tr.bs|
  { Steps(sb, ps[k], tr.bs[k], tr.ws[k], ps[k + 1]) == true }

  predicate Path(sb: Super, ps: seq<Point>, tr: Trace) {
    |ps| == |tr.bs| + 1 == |tr.ws| + 1 && forall k :: 0 <= k < |tr.bs| ==> StepAt(sb, ps, tr, k)
  }

  // Step by step, from f and j to f' and j'.
  ghost predicate Ran(sb: Super, f: Fs, j: Job, tr: Trace, f': Fs, j': Job) {
    exists ps :: Path(sb, ps, tr) && ps[0] == Point(f, j) && ps[|tr.bs|] == Point(f', j')
  }

  function Then(a: Trace, b: Trace): Trace { Trace(a.bs + b.bs, a.ws + b.ws) }

  lemma RanNone(sb: Super, f: Fs, j: Job)
    ensures Ran(sb, f, j, Trace([], []), f, j) == true
  {
    assert Path(sb, [Point(f, j)], Trace([], []));
  }

  // The first step of a run, and the rest.
  lemma RanFirst(sb: Super, f: Fs, j: Job, tr: Trace, f': Fs, j': Job)
    requires Ran(sb, f, j, tr, f', j') == true
    ensures |tr.bs| == |tr.ws| && (tr.bs == [] ==> f' == f && j' == j)
    ensures tr.bs != [] ==>
            && CanGoOn(sb, f, j, tr.bs[0]) == true && Go(sb, f, j, tr.bs[0]).w == tr.ws[0]
            && var go := Go(sb, f, j, tr.bs[0]);
               Ran(sb, go.f, go.j, Trace(tr.bs[1..], tr.ws[1..]), f', j') == true
  {
    var ps :| Path(sb, ps, tr) && ps[0] == Point(f, j) && ps[|tr.bs|] == Point(f', j');
    if tr.bs != [] {
      assert StepAt(sb, ps, tr, 0);
      var qs, c := ps[1..], Trace(tr.bs[1..], tr.ws[1..]);
      forall k | 0 <= k < |c.bs| ensures StepAt(sb, qs, c, k) { assert StepAt(sb, ps, tr, k + 1); }
      assert Path(sb, qs, c);
    }
  }

  lemma RanThen(sb: Super, f: Fs, j: Job, a: Trace, f1: Fs, j1: Job, b: Trace, f2: Fs, j2: Job)
    requires Ran(sb, f, j, a, f1, j1) == true && Ran(sb, f1, j1, b, f2, j2) == true
    ensures Ran(sb, f, j, Then(a, b), f2, j2) == true
  {
    var ps :| Path(sb, ps, a) && ps[0] == Point(f, j) && ps[|a.bs|] == Point(f1, j1);
    var qs :| Path(sb, qs, b) && qs[0] == Point(f1, j1) && qs[|b.bs|] == Point(f2, j2);
    var rs, c := ps + qs[1..], Then(a, b);
    forall k | 0 <= k < |c.bs| ensures StepAt(sb, rs, c, k) {
      if k < |a.bs| { assert StepAt(sb, ps, a, k); } else { assert StepAt(sb, qs, b, k - |a.bs|); }
    }
    assert Path(sb, rs, c);
  }

  lemma RanOne(sb: Super, f: Fs, j: Job, b: nat, go: Went)
    requires CanGoOn(sb, f, j, b) == true && go == Go(sb, f, j, b)
    ensures Ran(sb, f, j, Trace([b], [go.w]), go.f, go.j) == true
  {
    assert Path(sb, [Point(f, j), Point(go.f, go.j)], Trace([b], [go.w]));
  }

  // All other files are quiet, and the job is where it should be.
  predicate Mid(sb: Super, f: Fs, files: seq<seq<byte>>, j: Job) {
    && Whole(sb, f) && |files| == |f.inodes| && j.op.i < |files| && Fits(files[j.op.i], j.op)
    && (forall i :: 0 <= i < |files| && i != j.op.i ==> Quiet(sb, f, files[i], i))
    && Advanced(sb, f, files[j.op.i], j)
  }

  lemma MidStep(sb: Super, f: Fs, files: seq<seq<byte>>, j: Job, b: nat)
    requires Mid(sb, f, files, j) && StepOk(sb, f, j, b)
    ensures CanGoOn(sb, f, j, b) && Mid(sb, StepFs(sb, f, j, b), files, StepJob(sb, f, j, b)) == true
  {
    var f', c := StepFs(sb, f, j, b), files[j.op.i];
    StepAdvances(sb, f, c, j, b);
    forall i | 0 <= i < |files| && i != j.op.i ensures Quiet(sb, f', files[i], i) {
      StepSpares(sb, f, c, j, b, i);
      QuietKept(sb, f, f', files[i], i);
    }
  }

  lemma {:induction false} RanMid(sb: Super, f: Fs, files: seq<seq<byte>>, j: Job, tr: Trace, f': Fs, j': Job)
    requires Mid(sb, f, files, j) && Ran(sb, f, j, tr, f', j')
    ensures Mid(sb, f', files, j') == true && j'.op == j.op
    decreases |tr.bs|
  {
    RanFirst(sb, f, j, tr, f', j');
    if tr.bs != [] {
      var go := Go(sb, f, j, tr.bs[0]);
      MidStep(sb, f, files, j, tr.bs[0]);
      RanMid(sb, go.f, files, go.j, Trace(tr.bs[1..], tr.ws[1..]), f', j');
    }
  }

  lemma MidStart(sb: Super, f: Fs, files: seq<seq<byte>>, op: FileOp)
    requires AllQuiet(sb, f, files) && op.i < |files| && Fits(files[op.i], op)
    ensures Mid(sb, f, files, Start(f.rows[op.i], f.inodes[op.i], op)) == true
  {
    Starts(sb, f, files[op.i], op);
  }

  // At the end of a call the file is what it should be, and every other file is what it was.
  lemma MidEnd(sb: Super, f: Fs, files: seq<seq<byte>>, j: Job)
    requires Mid(sb, f, files, j) && j.st.Done?
    ensures AllQuiet(sb, f, files[j.op.i := Result(files[j.op.i], j.op)]) == true
  {}

  // The disk has been changed by what was logged and nothing else, none of it before the inode blocks.
  lemma {:induction false} RanDisk(sb: Super, f: Fs, j: Job, tr: Trace, f': Fs, j': Job)
    requires Ran(sb, f, j, tr, f', j')
    ensures forall k :: 0 <= k < |tr.ws| ==> sb.inodestart <= tr.ws[k].bn < |f.disk|
    ensures LogSpec.InRange(f.disk, tr.ws) && f'.disk == LogSpec.Apply(f.disk, tr.ws, |tr.ws|)
    decreases |tr.bs|
  {
    RanFirst(sb, f, j, tr, f', j');
    if tr.bs != [] {
      var go, rest := Go(sb, f, j, tr.bs[0]), tr.ws[1..];
      RanDisk(sb, go.f, go.j, Trace(tr.bs[1..], rest), f', j');
      forall k | 0 <= k < |tr.ws| ensures sb.inodestart <= tr.ws[k].bn < |f.disk| {
        if k > 0 { assert tr.ws[k] == rest[k - 1]; }
      }
      ApplyCons(f.disk, tr.ws, |tr.ws|);
    }
  }

  lemma {:induction false} ApplyCons(d: Disk, ws: seq<Write>, k: nat)
    requires LogSpec.InRange(d, ws) && 1 <= k <= |ws|
    ensures LogSpec.InRange(LogSpec.Put(d, ws[0]), ws[1..])
    ensures LogSpec.Apply(d, ws, k) == LogSpec.Apply(LogSpec.Put(d, ws[0]), ws[1..], k - 1)
  {
    if k > 1 { ApplyCons(d, ws, k - 1); }
  }

  // ---- how many blocks it logs ----

  function Numbers(ws: seq<Write>): (ns: seq<nat>)
    ensures |ns| == |ws|
  { seq(|ws|, k requires 0 <= k < |ws| => ws[k].bn) }

  function SetOf(ns: seq<nat>): set<nat> { set n | n in ns }

  lemma BlocksCons(ns: seq<nat>, ws: seq<Write>)
    requires ws != []
    ensures ns + Numbers(ws) == (ns + [ws[0].bn]) + Numbers(ws[1..])
  {}

  // The blocks logged so far are those of the places so far, and no more.
  lemma {:induction false} RanPlaces(sb: Super, f: Fs, files: seq<seq<byte>>, j: Job, tr: Trace, f': Fs, j': Job,
      places: set<Place>, ns: seq<nat>) returns (places': set<Place>)
    requires Mid(sb, f, files, j) && Ran(sb, f, j, tr, f', j') && Placed(sb, f, j, places, ns)
    requires |SetOf(ns)| <= |places|
    ensures Whole(sb, f') && j'.op == j.op && j.op.i < |f'.rows|
    ensures Placed(sb, f', j', places', ns + Numbers(tr.ws)) == true
    ensures |SetOf(ns + Numbers(tr.ws))| <= |places'|
    decreases |tr.bs|
  {
    RanFirst(sb, f, j, tr, f', j');
    if tr.bs == [] {
      places' := places;
      assert ns + Numbers(tr.ws) == ns;
    } else {
      var b, w, ns1, go := tr.bs[0], tr.ws[0], ns + [tr.ws[0].bn], Go(sb, f, j, tr.bs[0]);
      MidStep(sb, f, files, j, b);
      PlacedStep(sb, f, files[j.op.i], j, b, places, ns, ns1);
      var pl := StepPlace(sb, f, j, b);
      OneMore(ns, w.bn, places, pl);
      BlocksCons(ns, tr.ws);
      places' := RanPlaces(sb, go.f, files, go.j, Trace(tr.bs[1..], tr.ws[1..]), f', j', places + {pl}, ns1);
    }
  }

  lemma OneMore(ns: seq<nat>, bn: nat, places: set<Place>, pl: Place)
    requires |SetOf(ns)| <= |places| && (pl in places ==> bn in ns)
    ensures |SetOf(ns + [bn])| <= |places + {pl}|
  {
    var a, b := SetOf(ns), SetOf(ns + [bn]);
    assert b == a + {bn};
    if pl in places { assert b == a && places + {pl} == places; } else { assert |places + {pl}| == |places| + 1; }
    if bn in a { assert b == a; } else { assert |b| == |a| + 1; }
  }

  // ---- how many blocks it takes ----

  // Free blocks on the disk.
  function Unused(sb: Super, disk: Disk): int
    requires Layout(sb, disk)
  { sb.size - |Used(sb, disk)| }

  // How many of blocks n to last of a file are not there.
  function Missing(row: seq<nat>, n: nat, last: nat): nat
    requires |row| == SLOTS && last < MAXFILE
    decreases last + 1 - n
  { if n > last then 0 else (if row[FileSlot(n)] == 0 then 1 else 0) + Missing(row, n + 1, last) }

  // What writei has to allocate from byte cur on.
  function Need(row: seq<nat>, op: FileOp, cur: nat): nat
    requires |row| == SLOTS && op.WriteFile? && End(op) <= MAXFILE * BSIZE
  {
    if cur >= End(op) then 0
    else Missing(row, cur / BSIZE, (End(op) - 1) / BSIZE) + if UsesIndirect(op) && row[NDIRECT] == 0 then 1 else 0
  }

  // The row, with the block that is on its way.
  function DataRow(row: seq<nat>, st: Stage): (r: seq<nat>)
    ensures |r| == |row|
  { seq(|row|, k requires 0 <= k < |row| => DataAt(row, st, k)) }

  lemma {:induction false} MissingLess(row: seq<nat>, k: nat, b: nat, n: nat, last: nat)
    requires |row| == SLOTS && last < MAXFILE && k < SLOTS && row[k] == 0 && b != 0
    ensures Missing(row[k := b], n, last) ==
            Missing(row, n, last) - if exists m :: n <= m <= last && FileSlot(m) == k then 1 else 0
    decreases last + 1 - n
  {
    if n <= last {
      MissingLess(row, k, b, n + 1, last);
      if FileSlot(n) == k {
        assert !exists m :: n + 1 <= m <= last && FileSlot(m) == k;
      } else if exists m :: n <= m <= last && FileSlot(m) == k {
        var m :| n <= m <= last && FileSlot(m) == k;
        assert n + 1 <= m <= last && FileSlot(m) == k;
      }
    }
  }

  lemma NeedTake(row: seq<nat>, op: FileOp, cur: nat, k: nat, b: nat)
    requires |row| == SLOTS && op.WriteFile? && End(op) <= MAXFILE * BSIZE && cur < End(op)
    requires k < SLOTS && row[k] == 0 && b != 0 && (k == NDIRECT || k == SlotAt(cur))
    requires k == NDIRECT ==> cur / BSIZE >= NDIRECT
    ensures Need(row[k := b], op, cur) == Need(row, op, cur) - 1
  {
    var n, last := cur / BSIZE, (End(op) - 1) / BSIZE;
    MissingLess(row, k, b, n, last);
    if k == NDIRECT {
      assert !exists m :: n <= m <= last && FileSlot(m) == k;
    } else {
      assert n <= n <= last && FileSlot(n) == k;
    }
  }

  lemma NeedFill(row: seq<nat>, op: FileOp, cur: nat)
    requires |row| == SLOTS && op.WriteFile? && cur < End(op) <= MAXFILE * BSIZE && row[SlotAt(cur)] != 0
    requires row[NDIRECT] == 0 ==> forall k :: NDIRECT < k < SLOTS ==> row[k] == 0
    ensures Need(row, op, cur + Chunk(op, cur)) == Need(row, op, cur)
  {
    var n, last, cur' := cur / BSIZE, (End(op) - 1) / BSIZE, cur + Chunk(op, cur);
    if cur' < End(op) {
      assert cur' / BSIZE == n + 1;
    } else {
      assert last == n && Missing(row, n + 1, last) == 0;
      assert UsesIndirect(op) ==> row[NDIRECT] != 0;
    }
  }

  // What is still needed, counting the block on its way as there.
  function StillNeeded(row: seq<nat>, j: Job): nat
    requires |row| == SLOTS && j.op.WriteFile? && End(j.op) <= MAXFILE * BSIZE
  { Need(DataRow(row, j.st), j.op, j.cur) }

  lemma TakeNeeded(row: seq<nat>, c: seq<byte>, j: Job, k: nat, b: nat)
    requires |row| == SLOTS && j.op.WriteFile? && End(j.op) <= MAXFILE * BSIZE && j.st == Take(k)
    requires Wants(row, c, j, k) && b != 0
    ensures StillNeeded(row, j.(st := Clear(k, b))) == StillNeeded(row, j) - 1
  {
    assert DataRow(row, j.st) == row;
    assert DataRow(row, Clear(k, b)) == row[k := b];
    NeedTake(row, j.op, j.cur, k, b);
  }

  lemma SameNeeded(row: seq<nat>, row': seq<nat>, j: Job, j': Job)
    requires |row| == |row'| == SLOTS && j.op.WriteFile? && End(j.op) <= MAXFILE * BSIZE && j'.op == j.op
    requires j'.cur == j.cur && forall k :: 0 <= k < SLOTS ==> DataAt(row', j'.st, k) == DataAt(row, j.st, k)
    ensures StillNeeded(row', j') == StillNeeded(row, j)
  {
    assert DataRow(row', j'.st) == DataRow(row, j.st);
  }

  lemma FillNeeded(row: seq<nat>, j: Job, j': Job)
    requires |row| == SLOTS && j.op.WriteFile? && j.cur < End(j.op) <= MAXFILE * BSIZE && row[SlotAt(j.cur)] != 0
    requires row[NDIRECT] == 0 ==> forall k :: NDIRECT < k < SLOTS ==> row[k] == 0
    requires j.st == Fill && j'.op == j.op && j'.cur == j.cur + Chunk(j.op, j.cur) && !j'.st.Clear? && !j'.st.Link?
    ensures StillNeeded(row, j') == StillNeeded(row, j)
  {
    assert DataRow(row, j.st) == row && DataRow(row, j'.st) == row;
    NeedFill(row, j.op, j.cur);
  }

  // Free blocks and blocks needed fall together.
  lemma NeedStep(sb: Super, f: Fs, c: seq<byte>, j: Job, b: nat)
    requires StepOk(sb, f, j, b) && JobOk(sb, f, c, j) && j.op.WriteFile?
    ensures Layout(sb, StepFs(sb, f, j, b).disk)
    ensures Unused(sb, StepFs(sb, f, j, b).disk) - StillNeeded(StepRow(sb, f, j, b), StepJob(sb, f, j, b)) ==
            Unused(sb, f.disk) - StillNeeded(f.rows[j.op.i], j)
  {
    StepUsed(sb, f, j, b);
    if j.st.Take? { TakeNeeded(f.rows[j.op.i], c, j, j.st.k, b); }
    else if j.st.Fill? { FillStep(sb, f, c, j, b); }
    else if !j.st.Save? { EnterNeeded(sb, f, c, j, b); }
  }

  lemma FillStep(sb: Super, f: Fs, c: seq<byte>, j: Job, b: nat)
    requires StepOk(sb, f, j, b) && JobOk(sb, f, c, j) && j.st.Fill?
    ensures StillNeeded(StepRow(sb, f, j, b), StepJob(sb, f, j, b)) == StillNeeded(f.rows[j.op.i], j)
  {
    FillNeeded(f.rows[j.op.i], j, StepJob(sb, f, j, b));
  }

  lemma EnterNeeded(sb: Super, f: Fs, c: seq<byte>, j: Job, b: nat)
    requires StepOk(sb, f, j, b) && JobOk(sb, f, c, j) && (j.st.Clear? || j.st.Link?)
    ensures StillNeeded(StepRow(sb, f, j, b), StepJob(sb, f, j, b)) == StillNeeded(f.rows[j.op.i], j)
  {
    var row, row', j' := f.rows[j.op.i], StepRow(sb, f, j, b), StepJob(sb, f, j, b);
    assert j'.st.Link? ==> j'.st == Link(j.st.k, j.st.b);
    assert !j'.st.Clear?;
    SameNeeded(row, row', j, j');
  }

  lemma {:induction false} RanNeed(sb: Super, f: Fs, files: seq<seq<byte>>, j: Job, tr: Trace, f': Fs, j': Job)
    requires Mid(sb, f, files, j) && Ran(sb, f, j, tr, f', j') && j.op.WriteFile?
    ensures Layout(sb, f'.disk) && j'.op == j.op && j.op.i < |f'.rows| && |f'.rows[j.op.i]| == SLOTS
    ensures Unused(sb, f'.disk) - StillNeeded(f'.rows[j.op.i], j') ==
            Unused(sb, f.disk) - StillNeeded(f.rows[j.op.i], j)
    decreases |tr.bs|
  {
    RanFirst(sb, f, j, tr, f', j');
    if tr.bs != [] {
      var b, go := tr.bs[0], Go(sb, f, j, tr.bs[0]);
      MidStep(sb, f, files, j, b);
      NeedStep(sb, f, files[j.op.i], j, b);
      RanNeed(sb, go.f, files, go.j, Trace(tr.bs[1..], tr.ws[1..]), f', j');
    }
  }

  lemma {:induction false} RangeSize(s: set<nat>, n: nat)
    requires forall x :: x in s <==> 0 <= x < n
    ensures |s| == n
  {
    if n == 0 { assert s == {}; } else { RangeSize(s - {n - 1}, n - 1); }
  }

  // With every block in use none is free; where a block is needed, more are needed than there are.
  lemma FullNeeds(sb: Super, f: Fs, c: seq<byte>, j: Job)
    requires Whole(sb, f) && JobOk(sb, f, c, j) && j.op.WriteFile? && j.st.Take?
    requires forall x :: 0 <= x < sb.size ==> x in Used(sb, f.disk)
    ensures Unused(sb, f.disk) == 0 && StillNeeded(f.rows[j.op.i], j) > 0
  {
    RangeSize(Used(sb, f.disk), sb.size);
    TakeNeeded(f.rows[j.op.i], c, j, j.st.k, 1);
  }

  lemma {:induction false} BelowSize(s: set<nat>, n: nat)
    requires forall x :: x in s ==> x < n
    ensures |s| <= n
  {
    if n == 0 { assert s == {}; } else { BelowSize(s - {n - 1}, n - 1); }
  }

  lemma UnusedAtLeast(sb: Super, disk: Disk)
    requires Layout(sb, disk)
    ensures Unused(sb, disk) >= 0
  {
    BelowSize(Used(sb, disk), sb.size);
  }
}
