/** The on-disk layout of fs.h: bitmap bits, inode records and indirect tables, read from and written
    to raw blocks. */
module FsLayout {
  import opened Params
  import opened Blocks

  const NDIRECT: nat := 12
  const NINDIRECT: nat := 128 // BSIZE / sizeof(uint)
  const MAXFILE: nat := 140 // NDIRECT + NINDIRECT
  const IPB: nat := 8 // inodes per block: BSIZE / sizeof(struct dinode)
  const BPB: nat := 4096 // bitmap bits per block: BSIZE * 8
  const INODEWORDS: nat := 16 // sizeof(struct dinode) / 4

  // ---------- Bits ----------

  /** Bit i of x: x & (1 << i) != 0. */
  function Bit(x: nat, i: nat): bool {
    if i == 0 then x % 2 == 1 else Bit(x / 2, i - 1)
  }

  /** x | (1 << i) if v, else x & ~(1 << i). */
  function WithBit(x: nat, i: nat, v: bool): nat {
    if i == 0 then x - x % 2 + if v then 1 else 0
    else 2 * WithBit(x / 2, i - 1, v) + x % 2
  }

  function Pow2(n: nat): nat {
    if n == 0 then 1 else 2 * Pow2(n - 1)
  }

  lemma {:induction false} WithBitBit(x: nat, i: nat, v: bool, j: nat)
    ensures Bit(WithBit(x, i, v), j) == if i == j then v else Bit(x, j)
  {
    if i == 0 {
      assert WithBit(x, i, v) / 2 == x / 2;
    } else {
      assert WithBit(x, i, v) / 2 == WithBit(x / 2, i - 1, v);
      if j > 0 {
        WithBitBit(x / 2, i - 1, v, j - 1);
      }
    }
  }

  lemma {:induction false} WithBitBound(x: nat, i: nat, v: bool, n: nat)
    requires x < Pow2(n) && i < n
    ensures WithBit(x, i, v) < Pow2(n)
  {
    var half := Pow2(n - 1);
    assert Pow2(n) == 2 * half;
    if i > 0 {
      assert x / 2 < half;
      WithBitBound(x / 2, i - 1, v, n - 1);
      assert WithBit(x / 2, i - 1, v) <= half - 1;
    }
  }

  /** Bit bi of a bitmap block. */
  function GetBit(b: Block, bi: nat): bool
    requires bi < BPB
  {
    Bit(b[bi / 8], bi % 8)
  }

  function PutBit(b: Block, bi: nat, v: bool): (b': Block)
    requires bi < BPB
    ensures GetBit(b', bi) == v
    ensures forall j: nat :: j < BPB && j != bi ==> GetBit(b', j) == GetBit(b, j)
  {
    PutBitByte(b[bi / 8], bi % 8, v);
    b[bi / 8 := WithBit(b[bi / 8], bi % 8, v)]
  }

  lemma PutBitByte(x: Byte, i: nat, v: bool)
    requires i < 8
    ensures WithBit(x, i, v) < 256
    ensures forall j: nat :: Bit(WithBit(x, i, v), j) == if i == j then v else Bit(x, j)
  {
    assert Pow2(8) == 256;
    WithBitBound(x, i, v, 8);
    forall j: nat
      ensures Bit(WithBit(x, i, v), j) == if i == j then v else Bit(x, j)
    {
      WithBitBit(x, i, v, j);
    }
  }

  // ---------- Runs of words ----------

  function GetWords(b: Block, at: nat, n: nat): (ws: seq<Word>)
    requires at + n <= WORDS
    ensures |ws| == n
    ensures forall k :: 0 <= k < n ==> ws[k] == GetWord(b, at + k)
  {
    seq<Word>(n, k requires 0 <= k < n => GetWord(b, at + k))
  }

  function PutWords(b: Block, at: nat, ws: seq<Word>): (b': Block)
    requires at + |ws| <= WORDS
    ensures forall k :: 0 <= k < |ws| ==> GetWord(b', at + k) == ws[k]
    ensures forall k: nat :: k < WORDS && !(at <= k < at + |ws|) ==> GetWord(b', k) == GetWord(b, k)
    decreases |ws|
  {
    if ws == [] then b
    else PutWord(PutWords(b, at, ws[..|ws| - 1]), at + |ws| - 1, ws[|ws| - 1])
  }

  // ---------- Inodes ----------

  type Half = x: int | 0 <= x < 0x1_0000

  type Addrs = a: seq<Word> | |a| == NDIRECT + 1 witness seq(NDIRECT + 1, _ => 0)

  /** struct dinode. */
  datatype Inode = Inode(typ: Half, major: Half, minor: Half, nlink: Half, size: Word, addrs: Addrs)

  const NoInode: Inode := Inode(0, 0, 0, 0, 0, seq(NDIRECT + 1, _ => 0))

  function InodeWords(ip: Inode): (ws: seq<Word>)
    ensures |ws| == INODEWORDS
  {
    [ip.typ + 0x1_0000 * ip.major as int, ip.minor + 0x1_0000 * ip.nlink as int, ip.size] + ip.addrs
  }

  function InodeOf(ws: seq<Word>): Inode
    requires |ws| == INODEWORDS
  {
    Inode(ws[0] % 0x1_0000, ws[0] / 0x1_0000, ws[1] % 0x1_0000, ws[1] / 0x1_0000, ws[2], ws[3..])
  }

  lemma InodeRoundTrip(ip: Inode)
    ensures InodeOf(InodeWords(ip)) == ip
  {
    assert InodeWords(ip)[3..] == ip.addrs;
  }

  /** The inode in slot k of an inode block. */
  function GetInode(b: Block, k: nat): Inode
    requires k < IPB
  {
    InodeOf(GetWords(b, INODEWORDS * k, INODEWORDS))
  }

  function PutInode(b: Block, k: nat, ip: Inode): (b': Block)
    requires k < IPB
    ensures GetInode(b', k) == ip
    ensures forall j: nat :: j < IPB && j != k ==> GetInode(b', j) == GetInode(b, j)
  {
    PutInodeReads(b, k, ip);
    PutWords(b, INODEWORDS * k, InodeWords(ip))
  }

  lemma PutInodeReads(b: Block, k: nat, ip: Inode)
    requires k < IPB
    ensures var b' := PutWords(b, INODEWORDS * k, InodeWords(ip));
            && GetInode(b', k) == ip
            && forall j: nat :: j < IPB && j != k ==> GetInode(b', j) == GetInode(b, j)
  {
    var b' := PutWords(b, INODEWORDS * k, InodeWords(ip));
    assert GetWords(b', INODEWORDS * k, INODEWORDS) == InodeWords(ip);
    InodeRoundTrip(ip);
    forall j: nat | j < IPB && j != k
      ensures GetInode(b', j) == GetInode(b, j)
    {
      assert GetWords(b', INODEWORDS * j, INODEWORDS) == GetWords(b, INODEWORDS * j, INODEWORDS);
    }
  }
}
