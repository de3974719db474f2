/** The file system as a value: what each inode owns and what each file contains. */
module FsState {
  import opened Params
  import opened Blocks
  import opened FsLayout

  /** struct superblock; `datastart` is the first block after the bitmap. */
  datatype Super = Super(size: nat, ninodes: nat, inodestart: nat, bmapstart: nat, datastart: nat)

  ghost predicate GoodSuper(sb: Super) {
    && 0 < sb.inodestart
    && sb.inodestart + sb.ninodes / IPB + 1 <= sb.bmapstart
    && sb.bmapstart + sb.size / BPB + 1 <= sb.datastart <= sb.size <= UINT
  }

  /** IBLOCK and BBLOCK. */
  function IBlock(sb: Super, i: nat): nat {
    i / IPB + sb.inodestart
  }

  function BBlock(sb: Super, b: nat): nat {
    b / BPB + sb.bmapstart
  }

  /** Block contents as the kernel sees them through the buffer cache, and the in-memory inodes. */
  datatype Vol = Vol(blk: seq<Block>, ino: seq<Inode>)

  ghost predicate Shaped(sb: Super, v: Vol) {
    GoodSuper(sb) && |v.blk| == sb.size && |v.ino| == sb.ninodes
  }

  /** The bitmap says block b is in use. */
  function Used(sb: Super, blk: seq<Block>, b: nat): bool
    requires GoodSuper(sb) && |blk| == sb.size && b < sb.size
  {
    GetBit(blk[BBlock(sb, b)], b % BPB)
  }

  /** Inode i as it is on the disk. */
  function DiskInode(sb: Super, blk: seq<Block>, i: nat): Inode
    requires GoodSuper(sb) && |blk| == sb.size && i < sb.ninodes
  {
    GetInode(blk[IBlock(sb, i)], i % IPB)
  }

  // ---------- Ownership ----------

  /** A place that can hold a block number: a direct address of an inode, the address of its indirect
      table, or an entry of that table. */
  datatype Slot = Direct(i: nat, k: nat) | Table(i: nat) | Entry(i: nat, j: nat)

  predicate InRange(sb: Super, s: Slot) {
    && s.i < sb.ninodes
    && (s.Direct? ==> s.k < NDIRECT)
    && (s.Entry? ==> s.j < NINDIRECT)
  }

  /** The block number in a slot, 0 if none. */
  function At(sb: Super, v: Vol, s: Slot): nat
    requires |v.ino| == sb.ninodes && InRange(sb, s)
  {
    match s
    case Direct(i, k) => v.ino[i].addrs[k]
    case Table(i) => v.ino[i].addrs[NDIRECT]
    case Entry(i, j) =>
      if v.ino[i].addrs[NDIRECT] == 0 || v.ino[i].addrs[NDIRECT] >= |v.blk| then 0
      else GetWord(v.blk[v.ino[i].addrs[NDIRECT]], j)
  }

  ghost predicate SlotOk(sb: Super, v: Vol, s: Slot)
    requires Shaped(sb, v) && InRange(sb, s)
  {
    var a := At(sb, v, s);
    a != 0 ==> sb.datastart <= a < sb.size && Used(sb, v.blk, a)
  }

  /** Every block number held anywhere is a data block marked in use, and no block sits in two slots. */
  ghost predicate Owned(sb: Super, v: Vol) {
    && Shaped(sb, v)
    && (forall b: nat :: b < sb.datastart ==> Used(sb, v.blk, b))
    && (forall s :: InRange(sb, s) ==> SlotOk(sb, v, s))
    && (forall s, t :: InRange(sb, s) && InRange(sb, t) && s != t && At(sb, v, s) != 0 ==> At(sb, v, s) != At(sb, v, t))
  }

  // ---------- Contents ----------

  /** The disk block that holds block bn of file i, 0 if it has none. */
  function BlockOf(sb: Super, v: Vol, i: nat, bn: nat): nat
    requires |v.ino| == sb.ninodes && i < sb.ninodes && bn < MAXFILE
  {
    At(sb, v, SlotOf(i, bn))
  }

  function SlotOf(i: nat, bn: nat): Slot {
    if bn < NDIRECT then Direct(i, bn) else Entry(i, bn - NDIRECT)
  }

  /** Byte k of file i; a block that is not there reads as zeroes. */
  function FileByte(sb: Super, v: Vol, i: nat, k: nat): Byte
    requires |v.ino| == sb.ninodes && i < sb.ninodes && k < MAXFILE * BSIZE
  {
    var a := BlockOf(sb, v, i, k / BSIZE);
    if a == 0 || a >= |v.blk| then 0 else v.blk[a][k % BSIZE]
  }

  /** The contents of file i. */
  function Content(sb: Super, v: Vol, i: nat): (s: seq<Byte>)
    requires |v.ino| == sb.ninodes && i < sb.ninodes && v.ino[i].size <= MAXFILE * BSIZE
    ensures |s| == v.ino[i].size
  {
    seq<Byte>(v.ino[i].size, k requires 0 <= k < v.ino[i].size => FileByte(sb, v, i, k))
  }

  // ---------- Changing single blocks ----------

  /** Block b marked in use and zeroed: the effect of balloc. */
  function AllocBlk(sb: Super, blk: seq<Block>, b: nat): (blk': seq<Block>)
    requires GoodSuper(sb) && |blk| == sb.size && sb.datastart <= b < sb.size
    ensures |blk'| == sb.size
    ensures forall c: nat :: c < sb.size ==> Used(sb, blk', c) == (Used(sb, blk, c) || c == b)
    ensures blk'[b] == ZeroBlock()
    ensures forall x: nat :: x < sb.size && x != b && x != BBlock(sb, b) ==> blk'[x] == blk[x]
  {
    blk[BBlock(sb, b) := PutBit(blk[BBlock(sb, b)], b % BPB, true)][b := ZeroBlock()]
  }

  /** Block b marked free: the effect of bfree. */
  function FreeBlk(sb: Super, blk: seq<Block>, b: nat): (blk': seq<Block>)
    requires GoodSuper(sb) && |blk| == sb.size && sb.datastart <= b < sb.size
    ensures |blk'| == sb.size
    ensures forall c: nat :: c < sb.size ==> Used(sb, blk', c) == (Used(sb, blk, c) && c != b)
    ensures forall x: nat :: x < sb.size && x != BBlock(sb, b) ==> blk'[x] == blk[x]
  {
    blk[BBlock(sb, b) := PutBit(blk[BBlock(sb, b)], b % BPB, false)]
  }

  /** Inode i written to the disk: the effect of iupdate. */
  function UpdateBlk(sb: Super, blk: seq<Block>, i: nat, ip: Inode): (blk': seq<Block>)
    requires GoodSuper(sb) && |blk| == sb.size && i < sb.ninodes
    ensures |blk'| == sb.size
    ensures forall j: nat :: j < sb.ninodes ==> DiskInode(sb, blk', j) == if j == i then ip else DiskInode(sb, blk, j)
    ensures forall x: nat :: x < sb.size && x != IBlock(sb, i) ==> blk'[x] == blk[x]
  {
    blk[IBlock(sb, i) := PutInode(blk[IBlock(sb, i)], i % IPB, ip)]
  }

  /** What lies outside the bitmap and inode blocks decides neither bits nor inodes. */
  lemma SameMeta(sb: Super, blk: seq<Block>, blk': seq<Block>)
    requires GoodSuper(sb) && |blk| == |blk'| == sb.size
    requires forall x: nat :: x < sb.datastart ==> blk'[x] == blk[x]
    ensures forall c: nat :: c < sb.size ==> Used(sb, blk', c) == Used(sb, blk, c)
    ensures forall i: nat :: i < sb.ninodes ==> DiskInode(sb, blk', i) == DiskInode(sb, blk, i)
  {
  }
}
