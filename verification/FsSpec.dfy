/** The on-disk format fs.c works on: the free bitmap, inodes, and the blocks an inode owns directly
    and through its indirect block. */
module FsSpec {
  import opened Words

  const NDIRECT := 10
  const NINDIRECT := 128
  const MAXFILE := 138         // NDIRECT + NINDIRECT
  const SLOTS := 139           // block numbers of an inode: direct, the indirect block, its entries
  const BPB := 4096            // bitmap bits per block
  const IPB := 8               // inodes per block
  const IWORDS := 16           // words of an on-disk inode

  type Disk = seq<Block>

  // datastart is the first block after the bitmap.
  datatype Super = Super(size: nat, ninodes: nat, inodestart: nat, bmapstart: nat, datastart: nat)

  // Inode blocks, bitmap and data blocks lie one after the other, in that order.
  predicate Layout(sb: Super, disk: Disk) {
    && 0 < sb.inodestart && sb.inodestart + (sb.ninodes + IPB - 1) / IPB <= sb.bmapstart
    && sb.bmapstart + (sb.size + BPB - 1) / BPB <= sb.datastart <= sb.size <= |disk|
    && sb.size <= Words.TWO32
  }

  // ---- the free bitmap ----

  function Pow2(n: nat): nat { if n == 0 then 1 else 2 * Pow2(n - 1) }

  // Bit k of v.
  predicate Bit(v: nat, k: nat) { if k == 0 then v % 2 == 1 else Bit(v / 2, k - 1) }

  // v with bit k made b, among n bits.
  function WithBit(v: nat, k: nat, b: bool, n: nat): (r: nat)
    requires k < n && v < Pow2(n)
    ensures r < Pow2(n)
  {
    if k == 0 then v - v % 2 + (if b then 1 else 0) else v % 2 + 2 * WithBit(v / 2, k - 1, b, n - 1)
  }

  lemma {:induction false} BitOfWithBit(v: nat, k: nat, b: bool, n: nat, j: nat)
    requires k < n && v < Pow2(n)
    ensures Bit(WithBit(v, k, b, n), j) == if j == k then b else Bit(v, j)
  {
    var r := WithBit(v, k, b, n);
    if k > 0 && j > 0 {
      BitOfWithBit(v / 2, k - 1, b, n - 1, j - 1);
      assert r / 2 == WithBit(v / 2, k - 1, b, n - 1);
    } else if k == 0 && j > 0 {
      assert r / 2 == v / 2;
    }
  }

  function ByteWithBit(v: byte, k: nat, b: bool): byte
    requires k < 8
  {
    assert Pow2(8) == 256;
    WithBit(v, k, b, 8)
  }

  // Where the bit of block b is.
  function BitmapBlock(sb: Super, b: nat): nat { b / BPB + sb.bmapstart }

  lemma BitmapBlockIn(sb: Super, disk: Disk, b: nat)
    requires Layout(sb, disk) && b < sb.size
    ensures sb.bmapstart <= BitmapBlock(sb, b) < sb.datastart
  {}

  predicate Marked(sb: Super, disk: Disk, b: nat)
    requires Layout(sb, disk) && b < sb.size
  {
    BitmapBlockIn(sb, disk, b);
    Bit(disk[BitmapBlock(sb, b)][b % BPB / 8], b % BPB % 8)
  }

  // The blocks marked as in use.
  function Used(sb: Super, disk: Disk): set<nat>
    requires Layout(sb, disk)
  { set b | 0 <= b < sb.size && Marked(sb, disk, b) }

  // The disk with the bit of block b made on.
  function SetMark(sb: Super, disk: Disk, b: nat, on: bool): (r: Disk)
    requires Layout(sb, disk) && b < sb.size
    ensures Layout(sb, r) && |r| == |disk|
  {
    BitmapBlockIn(sb, disk, b);
    var m, i := BitmapBlock(sb, b), b % BPB / 8;
    disk[m := disk[m][i := ByteWithBit(disk[m][i], b % BPB % 8, on)]]
  }

  lemma MarkedAfter(sb: Super, disk: Disk, b: nat, on: bool, c: nat)
    requires Layout(sb, disk) && b < sb.size && c < sb.size
    ensures Marked(sb, SetMark(sb, disk, b, on), c) == if c == b then on else Marked(sb, disk, c)
  {
    var v := disk[BitmapBlock(sb, b)][b % BPB / 8];
    BitOfWithBit(v, b % BPB % 8, on, 8, c % BPB % 8);
    if c / BPB == b / BPB && c % BPB / 8 == b % BPB / 8 && c % BPB % 8 == b % BPB % 8 {
      SameBit(b, c);
    }
  }

  // Block, byte and bit of a block number determine it.
  lemma SameBit(b: nat, c: nat)
    requires c / BPB == b / BPB && c % BPB / 8 == b % BPB / 8 && c % BPB % 8 == b % BPB % 8
    ensures b == c
  {}

  // Marking or unmarking one block changes the set of blocks in use by exactly that block.
  lemma UsedAfter(sb: Super, disk: Disk, b: nat, on: bool)
    requires Layout(sb, disk) && b < sb.size
    ensures Used(sb, SetMark(sb, disk, b, on)) == if on then Used(sb, disk) + {b} else Used(sb, disk) - {b}
  {
    forall c | 0 <= c < sb.size
      ensures Marked(sb, SetMark(sb, disk, b, on), c) == if c == b then on else Marked(sb, disk, c)
    {
      MarkedAfter(sb, disk, b, on, c);
    }
  }

  // The bitmap alone says which blocks are in use.
  lemma UsedFrame(sb: Super, disk: Disk, disk': Disk)
    requires Layout(sb, disk) && Layout(sb, disk') && forall c :: sb.bmapstart <= c < sb.datastart ==>
             disk'[c] == disk[c]
    ensures Used(sb, disk') == Used(sb, disk)
  {
    forall b | 0 <= b < sb.size ensures Marked(sb, disk', b) == Marked(sb, disk, b) { BitmapBlockIn(sb, disk, b); }
  }

  // ---- inodes and the blocks they own ----

  // meta: type, device, link count, owner and mode words.
  datatype InodeRec = Inode(meta: seq<word>, size: word, addrs: seq<word>)
  type Inode = x: InodeRec | |x.meta| == 4 && |x.addrs| == NDIRECT + 1
    witness Inode([0, 0, 0, 0], 0, [0, 0, 0, 0, 0, 0, 0, 0, 0, 0, 0])

  const T_DEV := 3

  predicate IsDevice(x: Inode) { x.meta[0] % 0x1_0000 == T_DEV }

  // The words of an inode as laid out on disk.
  function InodeWord(x: Inode, w: nat): word
    requires w < IWORDS
  { if w < 4 then x.meta[w] else if w == 4 then x.size else x.addrs[w - 5] }

  function InodeBlock(sb: Super, i: nat): nat { i / IPB + sb.inodestart }

  function DiskWord(sb: Super, disk: Disk, i: nat, w: nat): word
    requires Layout(sb, disk) && i < sb.ninodes && w < IWORDS
  { Word(disk[InodeBlock(sb, i)], i % IPB * IWORDS + w) }

  // The disk holds inode i as x.
  predicate OnDisk(sb: Super, disk: Disk, i: nat, x: Inode)
    requires Layout(sb, disk) && i < sb.ninodes
  { forall w :: 0 <= w < IWORDS ==> DiskWord(sb, disk, i, w) == InodeWord(x, w) }

  // Block number k of inode x; 0 stands for none. The indirect block is number NDIRECT, its entries
  // follow.
  function Slot(disk: Disk, x: Inode, k: nat): nat
    requires k < SLOTS
  {
    if k <= NDIRECT then x.addrs[k]
    else if x.addrs[NDIRECT] == 0 || x.addrs[NDIRECT] >= |disk| then 0
    else Word(disk[x.addrs[NDIRECT]], k - NDIRECT - 1)
  }

  function Row(disk: Disk, x: Inode): (r: seq<nat>)
    ensures |r| == SLOTS
  { seq(SLOTS, k requires 0 <= k < SLOTS => Slot(disk, x, k)) }

  type Rows = seq<seq<nat>>

  // The block numbers of every inode.
  function AllRows(disk: Disk, xs: seq<Inode>): (r: Rows)
    ensures |r| == |xs| && forall i :: 0 <= i < |r| ==> |r[i]| == SLOTS
  { seq(|xs|, i requires 0 <= i < |xs| => Row(disk, xs[i])) }

  function WithSlot(row: seq<nat>, k: nat, b: nat): seq<nat>
    requires k < |row|
  { row[k := b] }

  // Block number k of inode i made b.
  function SetSlot(rows: Rows, i: nat, k: nat, b: nat): Rows
    requires i < |rows| && k < |rows[i]|
  { rows[i := WithSlot(rows[i], k, b)] }

  // Which block number holds the n-th block of a file.
  function FileSlot(n: nat): nat { if n < NDIRECT then n else n + 1 }

  // Every block number is that of a data block in use, and owner tells whose and which it is. So no
  // block is owned twice.
  predicate OwnedBy(sb: Super, rows: Rows, used: set<nat>, owner: map<nat, (nat, nat)>) {
    forall i, k :: 0 <= i < |rows| && 0 <= k < |rows[i]| && rows[i][k] != 0 ==>
      && sb.datastart <= rows[i][k] < sb.size && rows[i][k] in used
      && rows[i][k] in owner && owner[rows[i][k]] == (i, k)
  }

  // The blocks before the data blocks are never free.
  predicate MetaUsed(sb: Super, used: set<nat>) { forall b :: 0 <= b < sb.datastart ==> b in used }

  // What OwnedBy says without the owner map.
  lemma OwnedDistinct(sb: Super, rows: Rows, used: set<nat>, owner: map<nat, (nat, nat)>, i: nat, k: nat, j: nat,
      l: nat)
    requires OwnedBy(sb, rows, used, owner) && i < |rows| && j < |rows| && k < |rows[i]| && l < |rows[j]|
    ensures rows[i][k] != 0 && rows[i][k] == rows[j][l] ==> i == j && k == l
    ensures rows[i][k] != 0 ==> rows[i][k] in used
  {}

  // A free block becomes number k of inode i.
  lemma OwnTake(sb: Super, rows: Rows, used: set<nat>, owner: map<nat, (nat, nat)>, i: nat, k: nat, b: nat)
    requires OwnedBy(sb, rows, used, owner) && MetaUsed(sb, used)
    requires i < |rows| && k < |rows[i]| && b < sb.size && b !in used
    ensures OwnedBy(sb, SetSlot(rows, i, k, b), used + {b}, owner[b := (i, k)])
    ensures MetaUsed(sb, used + {b})
  {}

  // disk' agrees with disk on every block some inode owns.
  predicate Keeps(rows: Rows, disk: Disk, disk': Disk) {
    |disk'| == |disk| && forall i, k :: 0 <= i < |rows| && 0 <= k < |rows[i]| && 0 < rows[i][k] < |disk| ==>
        disk'[rows[i][k]] == disk[rows[i][k]]
  }

  lemma RowsKept(disk: Disk, disk': Disk, xs: seq<Inode>)
    requires Keeps(AllRows(disk, xs), disk, disk')
    ensures AllRows(disk', xs) == AllRows(disk, xs)
  {
    var rows := AllRows(disk, xs);
    forall i | 0 <= i < |xs| ensures Row(disk', xs[i]) == Row(disk, xs[i]) {
      assert rows[i] == Row(disk, xs[i]) && rows[i][NDIRECT] == xs[i].addrs[NDIRECT];
    }
  }

  // Block number k becomes b: a direct block,
  lemma RowsTakeDirect(disk: Disk, xs: seq<Inode>, i: nat, k: nat, b: word)
    requires i < |xs| && k < NDIRECT
    ensures var xs' := xs[i := xs[i].(addrs := xs[i].addrs[k := b])];
            AllRows(disk, xs') == SetSlot(AllRows(disk, xs), i, k, b)
  {
    assert Row(disk, xs[i].(addrs := xs[i].addrs[k := b])) == Row(disk, xs[i])[k := b];
  }

  // the indirect block, which has no entries yet,
  lemma RowsTakeIndirect(disk: Disk, xs: seq<Inode>, i: nat, b: word)
    requires i < |xs| && xs[i].addrs[NDIRECT] == 0 && b < |disk| && disk[b] == ZeroBlock()
    ensures var xs' := xs[i := xs[i].(addrs := xs[i].addrs[NDIRECT := b])];
            AllRows(disk, xs') == SetSlot(AllRows(disk, xs), i, NDIRECT, b)
  {
    assert Row(disk, xs[i].(addrs := xs[i].addrs[NDIRECT := b])) == Row(disk, xs[i])[NDIRECT := b];
  }

  // or an entry of the indirect block.
  lemma RowsTakeEntry(disk: Disk, xs: seq<Inode>, i: nat, j: nat, b: word)
    requires i < |xs| && j < NINDIRECT && 0 < xs[i].addrs[NDIRECT] < |disk|
    requires forall o :: 0 <= o < |xs| && o != i ==> xs[o].addrs[NDIRECT] != xs[i].addrs[NDIRECT]
    ensures var a := xs[i].addrs[NDIRECT];
            AllRows(disk[a := SetWord(disk[a], j, b)], xs) == SetSlot(AllRows(disk, xs), i, NDIRECT + 1 + j, b)
  {
    var a := xs[i].addrs[NDIRECT];
    var disk' := disk[a := SetWord(disk[a], j, b)];
    forall o | 0 <= o < |xs|
      ensures Row(disk', xs[o]) == if o == i then Row(disk, xs[i])[NDIRECT + 1 + j := b] else Row(disk, xs[o])
    {
      if o == i {
        forall l | 0 <= l < NINDIRECT ensures Word(disk'[a], l) == if l == j then b else Word(disk[a], l) {
          WordOfSetWord(disk[a], j, b, l);
        }
      }
    }
  }

  // ---- file content ----

  // Every block of a file of the given size is there.
  predicate Mapped(row: seq<nat>, size: nat) {
    && |row| == SLOTS && size <= MAXFILE * BSIZE
    && forall n :: 0 <= n < MAXFILE && n * BSIZE < size ==> row[FileSlot(n)] != 0
  }

  predicate RowIn(row: seq<nat>, n: nat) { |row| == SLOTS && forall k :: 0 <= k < SLOTS ==> row[k] < n }

  function ByteAt(disk: Disk, row: seq<nat>, o: nat): byte
    requires RowIn(row, |disk|) && o < MAXFILE * BSIZE
  { disk[row[FileSlot(o / BSIZE)]][o % BSIZE] }

  // The file as one flat sequence of bytes.
  function Content(disk: Disk, row: seq<nat>, size: nat): (c: seq<byte>)
    requires RowIn(row, |disk|) && size <= MAXFILE * BSIZE
    ensures |c| == size
  { seq(size, o requires 0 <= o < size => ByteAt(disk, row, o)) }

  // src written over c from byte off on.
  function Overwrite(c: seq<byte>, off: nat, src: seq<byte>): seq<byte>
    requires off <= |c|
  { c[..off] + src + if off + |src| < |c| then c[off + |src|..] else [] }

  // ---- a whole file system ----

  // xs are the inodes as the kernel has them in memory.
  predicate CoreOk(sb: Super, disk: Disk, xs: seq<Inode>, owner: map<nat, (nat, nat)>) {
    && Layout(sb, disk) && |xs| == sb.ninodes
    && MetaUsed(sb, Used(sb, disk)) && OwnedBy(sb, AllRows(disk, xs), Used(sb, disk), owner)
  }

  // No holes below the size, and the inode on disk is the one in memory.
  predicate FileOk(sb: Super, disk: Disk, xs: seq<Inode>, i: nat)
    requires Layout(sb, disk) && |xs| == sb.ninodes && i < |xs|
  { Mapped(Row(disk, xs[i]), xs[i].size) && OnDisk(sb, disk, i, xs[i]) }

  predicate FilesOk(sb: Super, disk: Disk, xs: seq<Inode>)
    requires Layout(sb, disk) && |xs| == sb.ninodes
  { forall i :: 0 <= i < |xs| ==> FileOk(sb, disk, xs, i) }

  lemma CoreRowIn(sb: Super, disk: Disk, xs: seq<Inode>, owner: map<nat, (nat, nat)>, i: nat)
    requires CoreOk(sb, disk, xs, owner) && i < |xs|
    ensures RowIn(Row(disk, xs[i]), |disk|)
  {
    var rows := AllRows(disk, xs);
    assert rows[i] == Row(disk, xs[i]);
    forall k | 0 <= k < SLOTS ensures rows[i][k] < |disk| {}
  }

  // The files of a file system, by inode number.
  function Contents(sb: Super, disk: Disk, xs: seq<Inode>, owner: map<nat, (nat, nat)>): (c: seq<seq<byte>>)
    requires CoreOk(sb, disk, xs, owner) && FilesOk(sb, disk, xs)
    ensures |c| == |xs|
  {
    seq(|xs|, i requires 0 <= i < |xs| => CoreRowIn(sb, disk, xs, owner, i); assert FileOk(sb, disk, xs,
        i); Content(disk, Row(disk, xs[i]), xs[i].size))
  }

  // balloc's effect: b, the lowest free block, is marked and zeroed, and nothing else changes.
  predicate Allocated(sb: Super, disk: Disk, disk': Disk, b: nat)
    requires Layout(sb, disk)
  {
    && b < sb.size && b !in Used(sb, disk) && (forall c :: 0 <= c < b ==> c in Used(sb, disk))
    && Layout(sb, disk') && |disk'| == |disk| && Used(sb, disk') == Used(sb, disk) + {b}
    && disk'[b] == ZeroBlock()
    && forall c :: 0 <= c < |disk| && c != b && !(sb.bmapstart <= c < sb.datastart) ==> disk'[c] == disk[c]
  }

  // A freshly allocated block is nobody's.
  lemma AllocKeeps(sb: Super, disk: Disk, xs: seq<Inode>, owner: map<nat, (nat, nat)>, disk': Disk, b: nat)
    requires CoreOk(sb, disk, xs, owner) && Allocated(sb, disk, disk', b)
    ensures Keeps(AllRows(disk, xs), disk, disk') && AllRows(disk', xs) == AllRows(disk, xs)
    ensures sb.datastart <= b
  {
    var rows := AllRows(disk, xs);
    forall i, k | 0 <= i < |rows| && 0 <= k < |rows[i]| && 0 < rows[i][k] < |disk|
      ensures disk'[rows[i][k]] == disk[rows[i][k]] {}
    RowsKept(disk, disk', xs);
  }

  lemma TakeAddr(sb: Super, disk: Disk, xs: seq<Inode>, owner: map<nat, (nat, nat)>, disk': Disk, i: nat, k: nat,
      b: word)
    requires CoreOk(sb, disk, xs, owner) && Allocated(sb, disk, disk', b)
    requires i < |xs| && k <= NDIRECT && xs[i].addrs[k] == 0
    ensures var xs' := xs[i := xs[i].(addrs := xs[i].addrs[k := b])];
            && b != 0 && CoreOk(sb, disk', xs', owner[b := (i, k)]) == true
            && AllRows(disk', xs') == SetSlot(AllRows(disk, xs), i, k, b)
  {
    var rows := AllRows(disk, xs);
    AllocKeeps(sb, disk, xs, owner, disk', b);
    if k < NDIRECT { RowsTakeDirect(disk', xs, i, k, b); } else { RowsTakeIndirect(disk', xs, i, b); }
    OwnTake(sb, rows, Used(sb, disk), owner, i, k, b);
  }

  // The indirect block of inode i is nobody else's.
  lemma IndirectOwn(sb: Super, disk: Disk, xs: seq<Inode>, owner: map<nat, (nat, nat)>, i: nat)
    requires CoreOk(sb, disk, xs, owner) && i < |xs| && xs[i].addrs[NDIRECT] != 0
    ensures sb.datastart <= xs[i].addrs[NDIRECT] < sb.size
    ensures forall o :: 0 <= o < |xs| && o != i ==> xs[o].addrs[NDIRECT] != xs[i].addrs[NDIRECT]
    ensures forall o, k :: 0 <= o < |xs| && 0 <= k < SLOTS && k != NDIRECT ==>
            AllRows(disk, xs)[o][k] != xs[i].addrs[NDIRECT]
  {
    var rows := AllRows(disk, xs);
    assert rows[i][NDIRECT] == xs[i].addrs[NDIRECT];
    forall o | 0 <= o < |xs| && o != i ensures xs[o].addrs[NDIRECT] != xs[i].addrs[NDIRECT] {
      assert rows[o][NDIRECT] == xs[o].addrs[NDIRECT];
    }
  }

  lemma TakeEntry(sb: Super, disk: Disk, xs: seq<Inode>, owner: map<nat, (nat, nat)>, disk': Disk, i: nat, j: nat,
      b: word)
    requires CoreOk(sb, disk, xs, owner) && Allocated(sb, disk, disk', b)
    requires i < |xs| && j < NINDIRECT && xs[i].addrs[NDIRECT] != 0
    ensures var a := xs[i].addrs[NDIRECT];
            && a < |disk'|
            && var disk2 := disk'[a := SetWord(disk'[a], j, b)];
               && b != 0 && CoreOk(sb, disk2, xs, owner[b := (i, NDIRECT + 1 + j)]) == true
               && AllRows(disk2, xs) == SetSlot(AllRows(disk, xs), i, NDIRECT + 1 + j, b)
  {
    var rows := AllRows(disk, xs);
    var a := xs[i].addrs[NDIRECT];
    IndirectOwn(sb, disk, xs, owner, i);
    AllocKeeps(sb, disk, xs, owner, disk', b);
    RowsTakeEntry(disk', xs, i, j, b);
    var disk2 := disk'[a := SetWord(disk'[a], j, b)];
    UsedFrame(sb, disk', disk2);
    OwnTake(sb, rows, Used(sb, disk), owner, i, NDIRECT + 1 + j, b);
  }
}
