/** Disk blocks as byte sequences, and the little-endian 32-bit words the kernel
    overlays on them (log header, indirect blocks, on-disk inodes). */
module Words {
  const BSIZE := 512
  const WORDS := 128           // BSIZE / sizeof(uint)
  const TWO32 := 0x1_0000_0000

  type byte = x: int | 0 <= x < 256
  type word = x: int | 0 <= x < TWO32
  type Block = b: seq<byte> | |b| == BSIZE witness seq(BSIZE, _ => 0)

  function ZeroBlock(): Block { seq(BSIZE, _ => 0) }

  // The k-th 32-bit word of a block.
  function Word(b: Block, k: nat): word
    requires k < WORDS
  {
    var b0: int, b1: int, b2: int, b3: int := b[4 * k], b[4 * k + 1], b[4 * k + 2], b[4 * k + 3];
    b0 + 0x100 * b1 + 0x1_0000 * b2 + 0x100_0000 * b3
  }

  // Store w as the k-th 32-bit word of a block.
  function SetWord(b: Block, k: nat, w: word): Block
    requires k < WORDS
  {
    b[4 * k := w % 0x100][4 * k + 1 := w / 0x100 % 0x100]
     [4 * k + 2 := w / 0x1_0000 % 0x100][4 * k + 3 := w / 0x100_0000]
  }

  // Storing a word and reading words back: the stored one is found, the others are kept.
  lemma WordOfSetWord(b: Block, k: nat, w: word, j: nat)
    requires k < WORDS && j < WORDS
    ensures Word(SetWord(b, k, w), j) == if j == k then w else Word(b, j)
  {
    if j == k {
      LittleEndian(w);
    }
  }

  lemma LittleEndian(w: word)
    ensures w % 0x100 + 0x100 * (w / 0x100 % 0x100) + 0x1_0000 * (w / 0x1_0000 % 0x100)
            + 0x100_0000 * (w / 0x100_0000) == w
  {
    assert w / 0x1_0000 == w / 0x100 / 0x100;
    assert w / 0x100_0000 == w / 0x1_0000 / 0x100;
  }

  // A word read as a C `int`.
  function Signed(w: word): int {
    if w < 0x8000_0000 then w else w - TWO32
  }
}
