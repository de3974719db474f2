/** Disk blocks as byte sequences, and the 32-bit little-endian words stored in them. */
module Blocks {
  import opened Params

  type Byte = x: int | 0 <= x < 256

  type Word = x: int | 0 <= x < UINT

  type Block = b: seq<Byte> | |b| == BSIZE witness seq(BSIZE, _ => 0)

  /** A block of zero bytes, as memset(bp->data, 0, BSIZE) leaves it. */
  function ZeroBlock(): (b: Block)
    ensures forall k :: 0 <= k < BSIZE ==> b[k] == 0
  {
    seq(BSIZE, _ => 0)
  }

  /** The word at index i of a block seen as an array of uint. */
  function GetWord(b: Block, i: nat): (w: Word)
    requires i < WORDS
  {
    b[4 * i] as int + 0x100 * b[4 * i + 1] as int + 0x1_0000 * b[4 * i + 2] as int + 0x100_0000 * b[4 * i + 3] as int
  }

  lemma WordBytes(w: Word)
    ensures w / 0x100_0000 < 0x100
    ensures w == w % 0x100 + 0x100 * (w / 0x100 % 0x100) + 0x1_0000 * (w / 0x1_0000 % 0x100)
            + 0x100_0000 * (w / 0x100_0000)
  {
    var a, b := w / 0x100, w / 0x1_0000;
    assert b == a / 0x100 && w / 0x100_0000 == b / 0x100;
  }

  /** The block with word i replaced by w. */
  function PutWord(b: Block, i: nat, w: Word): (b': Block)
    requires i < WORDS
    ensures GetWord(b', i) == w
    ensures forall j: nat :: j < WORDS && j != i ==> GetWord(b', j) == GetWord(b, j)
    ensures forall k :: 0 <= k < BSIZE && !(4 * i <= k < 4 * i + 4) ==> b'[k] == b[k]
  {
    WordBytes(w);
    b[4 * i := w % 0x100][4 * i + 1 := w / 0x100 % 0x100]
     [4 * i + 2 := w / 0x1_0000 % 0x100][4 * i + 3 := w / 0x100_0000]
  }
}
