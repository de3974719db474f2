/** mkfs.c: building the initial file system on an image of zeroes. */
module Mkfs {
  import opened Params
  import opened Blocks
  import opened FsLayout
  import opened FsState
  import opened FsMap
  import opened FsWrite

  /** v is the file system the image will hold once balloc has written the bitmap for the blocks handed
      out so far: the image but for the bitmap. Blocks not handed out yet are zero. */
  ghost predicate Building(sb: Super, blk: seq<Block>, freeblock: nat, v: Vol) {
    && GoodSuper(sb) && |blk| == sb.size
    && sb.datastart <= freeblock <= sb.size && freeblock <= BPB
    && (forall b :: freeblock <= b < sb.size ==> blk[b] == ZeroBlock())
    && Owned(sb, v)
    && (forall x :: 0 <= x < sb.size && x != sb.bmapstart ==> v.blk[x] == blk[x])
    && (forall c: nat :: c < sb.size ==> (Used(sb, v.blk, c) <==> c < freeblock))
  }

  /** din.addrs[k] = freeblock++. */
  lemma TakeAddr(sb: Super, blk: seq<Block>, freeblock: nat, v: Vol, i: nat, k: nat)
    requires Building(sb, blk, freeblock, v) && freeblock < sb.size && freeblock < BPB
    requires i < sb.ninodes && k <= NDIRECT && v.ino[i].addrs[k] == 0
    ensures Building(sb, blk, freeblock + 1, SetAddr(sb, v, i, k, freeblock))
    ensures Grows(sb, v, SetAddr(sb, v, i, k, freeblock), i, {if k < NDIRECT then Direct(i, k) else Table(i)})
  {
    assert BBlock(sb, freeblock) == sb.bmapstart;
    SetAddrGrows(sb, v, i, k, freeblock);
  }

  /** indirect[j] = freeblock++, written back. */
  lemma TakeEntry(sb: Super, blk: seq<Block>, freeblock: nat, v: Vol, i: nat, j: nat, t: nat)
    requires Building(sb, blk, freeblock, v) && freeblock < sb.size && freeblock < BPB && i < sb.ninodes
    requires j < NINDIRECT
    requires sb.datastart <= t < freeblock && v.ino[i].addrs[NDIRECT] == t && GetWord(blk[t], j) == 0
    ensures Building(sb, blk[t := PutWord(blk[t], j, freeblock)], freeblock + 1, SetEntry(sb, v, i, j, freeblock))
    ensures Grows(sb, v, SetEntry(sb, v, i, j, freeblock), i, {Entry(i, j)})
    ensures At(sb, SetEntry(sb, v, i, j, freeblock), Entry(i, j)) == freeblock
  {
    assert BBlock(sb, freeblock) == sb.bmapstart;
    SetEntryGrows(sb, v, i, j, freeblock);
    SetEntryMaps(sb, v, i, j, freeblock);
    assert AllocBlk(sb, v.blk, freeblock)[t] == blk[t];
  }

  /** A slot in use holds a block that has been handed out. */
  lemma KeepSlot(sb: Super, blk: seq<Block>, freeblock: nat, v: Vol, s: Slot)
    requires Building(sb, blk, freeblock, v) && InRange(sb, s) && At(sb, v, s) != 0
    ensures Grows(sb, v, v, s.i, {s})
    ensures sb.datastart <= At(sb, v, s) < freeblock
  {
    GrowsNot(sb, v, s.i, {s});
    OwnedBlock(sb, v, s);
  }

  /** Overwriting a block of file data of the image. */
  lemma PokeImage(sb: Super, blk: seq<Block>, freeblock: nat, v: Vol, i: nat, bn: nat, data: Block)
    requires Building(sb, blk, freeblock, v) && i < sb.ninodes && bn < MAXFILE && BlockOf(sb, v, i, bn) != 0
    ensures sb.datastart <= BlockOf(sb, v, i, bn) < freeblock
    ensures Building(sb, blk[BlockOf(sb, v, i, bn) := data], freeblock, Poke(v, BlockOf(sb, v, i, bn), data))
  {
    KeepSlot(sb, blk, freeblock, v, SlotOf(i, bn));
    PokeOwned(sb, v, i, bn, data);
    PokeSlots(sb, v, i, bn, data);
  }

  /** The number of blocks mkfs can hand out: the image, as far as one bitmap block reaches. */
  function Limit(sb: Super): nat {
    if sb.size < BPB then sb.size else BPB
  }

  /** The blocks that appending n bytes at offset off takes: one for each block of the file not there
      yet, and one for the indirect table. */
  function Needs(off: nat, n: nat): int {
    BlocksFor(off + n) - BlocksFor(off) + Count(BlocksFor(off) <= NDIRECT < BlocksFor(off + n))
  }

  lemma NeedsMore(off: nat, end: nat, n: nat)
    requires end <= n
    ensures Needs(off, end) <= Needs(off, n)
  {
    assert BlocksFor(off + end) <= BlocksFor(off + n);
  }

  /** iappend has got as far as off + tot: file i has no hole up to there, and exactly the blocks this
      takes have been handed out. */
  ghost predicate Filling(sb: Super, v: Vol, i: nat, off: nat, tot: nat, fb0: nat, freeblock: nat)
    requires Shaped(sb, v) && i < sb.ninodes
  {
    MappedExactly(sb, v, i, BlocksFor(off + tot)) && freeblock == fb0 + Needs(off, tot)
  }

  /** The blocks that mapping block bn of file i takes. */
  function Takes(sb: Super, v: Vol, i: nat, bn: nat): nat
    requires |v.ino| == sb.ninodes && i < sb.ninodes && bn < MAXFILE
  {
    Count(BlockOf(sb, v, i, bn) == 0) + Count(bn >= NDIRECT && v.ino[i].addrs[NDIRECT] == 0)
  }

  /** The next block is what one more round takes. */
  lemma NeedsNext(sb: Super, v: Vol, i: nat, off: nat, tot: nat, end: nat)
    requires Shaped(sb, v) && i < sb.ninodes && tot < end && off + end <= MAXFILE * BSIZE
    requires end - tot <= BSIZE - (off + tot) % BSIZE && (tot == 0 || (off + tot) % BSIZE == 0)
    requires MappedExactly(sb, v, i, BlocksFor(off + tot))
    ensures Needs(off, tot) + Takes(sb, v, i, (off + tot) / BSIZE) == Needs(off, end)
  {
    NextBlock(off, tot, end);
    assert At(sb, v, Table(i)) == v.ino[i].addrs[NDIRECT];
    assert BlocksFor(off) <= BlocksFor(off + tot);
  }

  lemma FillsNext(sb: Super, v: Vol, mid: Vol, i: nat, off: nat, tot: nat, end: nat)
    requires Owned(sb, v) && i < sb.ninodes && tot < end && off + end <= MAXFILE * BSIZE
    requires end - tot <= BSIZE - (off + tot) % BSIZE && (tot == 0 || (off + tot) % BSIZE == 0)
    requires MappedExactly(sb, v, i, BlocksFor(off + tot))
    requires Grows(sb, v, mid, i, BmapSlots(i, (off + tot) / BSIZE)) && BlockOf(sb, mid, i, (off + tot) / BSIZE) != 0
    requires (off + tot) / BSIZE >= NDIRECT ==> mid.ino[i].addrs[NDIRECT] != 0
    ensures MappedExactly(sb, mid, i, BlocksFor(off + end))
  {
    NextBlock(off, tot, end);
    BmapExact(sb, v, mid, i, (off + tot) / BSIZE, BlocksFor(off + tot));
  }

  /** The piece of p that goes into the block just mapped. */
  lemma PieceWritten(sb: Super, v0: Vol, v: Vol, mid: Vol, i: nat, off: nat, p: seq<Byte>, tot: nat, end: nat)
    requires Written(sb, v0, v, i, off, p, tot) && tot < end <= |p| && off + |p| <= MAXFILE * BSIZE
    requires Grows(sb, v, mid, i, BmapSlots(i, (off + tot) / BSIZE)) && end - tot <= BSIZE - (off + tot) % BSIZE
    requires 0 < BlockOf(sb, mid, i, (off + tot) / BSIZE) < sb.size
    ensures var x := BlockOf(sb, mid, i, (off + tot) / BSIZE);
            Written(sb, v0, Poke(mid, x, Splice(mid.blk[x], (off + tot) % BSIZE, p[tot..end])), i, off, p, end)
  {
    WrittenGrows(sb, v0, v, mid, i, off, p, tot, BmapSlots(i, (off + tot) / BSIZE));
    WrittenMore(sb, v0, mid, i, off, p, tot, end);
  }

  /** Inode i written to the image, its addresses unchanged. */
  lemma WriteInode(sb: Super, blk: seq<Block>, freeblock: nat, v: Vol, i: nat, ip: Inode)
    requires Building(sb, blk, freeblock, v) && i < sb.ninodes && ip.addrs == v.ino[i].addrs
    ensures var v' := Vol(UpdateBlk(sb, v.blk, i, ip), v.ino[i := ip]);
            && Building(sb, UpdateBlk(sb, blk, i, ip), freeblock, v') && SameBytes(sb, v, v')
            && (forall s :: InRange(sb, s) ==> At(sb, v', s) == At(sb, v, s))
  {
    var v' := Vol(UpdateBlk(sb, v.blk, i, ip), v.ino[i := ip]);
    assert sb.inodestart <= IBlock(sb, i) < sb.bmapstart;
    ResizeKeeps(sb, v, v', i);
    assert forall c: nat :: c < sb.size ==> Used(sb, v'.blk, c) == Used(sb, v.blk, c);
    assert forall x :: 0 <= x < sb.size && x != sb.bmapstart ==> v'.blk[x] == UpdateBlk(sb, blk, i, ip)[x];
  }

  /** The inodes on the image are those of v. */
  ghost predicate Synced(sb: Super, v: Vol) {
    Shaped(sb, v) && forall j: nat :: j < sb.ninodes ==> DiskInode(sb, v.blk, j) == v.ino[j]
  }

  /** Each file fits its inode and has no hole. */
  ghost predicate Filled(sb: Super, v: Vol) {
    Shaped(sb, v) && forall j: nat :: j < sb.ninodes ==> v.ino[j].size <= MAXFILE * BSIZE && NoHoles(sb, v, j)
  }

  /** Blocks held by a file that was not touched. */
  lemma OtherNoHoles(sb: Super, v: Vol, v': Vol, j: nat)
    requires Shaped(sb, v) && Shaped(sb, v') && j < sb.ninodes && v'.ino[j].size == v.ino[j].size && NoHoles(sb, v, j)
    requires forall s :: InRange(sb, s) && s.i == j ==> At(sb, v', s) == At(sb, v, s)
    ensures NoHoles(sb, v', j)
  {
    forall k: nat | k < MAXFILE
      ensures BlockOf(sb, v', j, k) == BlockOf(sb, v, j, k)
    {
      assert InRange(sb, SlotOf(j, k));
    }
    assert InRange(sb, Table(j));
  }

  /** The whole of p is in place and the inode has been written: the file has p appended. */
  lemma AppendContent(sb: Super, v0: Vol, v: Vol, v': Vol, i: nat, p: seq<Byte>)
    requires i < sb.ninodes && i < |v0.ino| && Written(sb, v0, v, i, v0.ino[i].size, p, |p|)
    requires v0.ino[i].size + |p| <= MAXFILE * BSIZE && Owned(sb, v') && SameBytes(sb, v, v')
    requires v'.ino == v.ino[i := v.ino[i].(size := v0.ino[i].size + |p|)]
    requires v'.blk == UpdateBlk(sb, v.blk, i, v'.ino[i])
    requires forall s :: InRange(sb, s) ==> At(sb, v', s) == At(sb, v, s)
    ensures WroteFile(sb, v0, v', i, v0.ino[i].size, p)
  {
    WrittenContent(sb, v0, v, v', i, v0.ino[i].size, p);
    forall j, k | 0 <= j < sb.ninodes && j != i && 0 <= k < MAXFILE * BSIZE
      ensures FileByte(sb, v', j, k) == FileByte(sb, v0, j, k)
    {
      assert FileByte(sb, v', j, k) == FileByte(sb, v, j, k);
    }
  }

  /** Appending keeps every file filled and every inode on the image. */
  lemma AppendFilled(sb: Super, v0: Vol, v: Vol, v': Vol, i: nat, p: seq<Byte>)
    requires i < sb.ninodes && i < |v0.ino| && WroteFile(sb, v0, v', i, v0.ino[i].size, p) && Filled(sb, v0)
    requires Shaped(sb, v)
    requires MappedExactly(sb, v, i, BlocksFor(v0.ino[i].size + |p|))
    requires forall s :: InRange(sb, s) ==> At(sb, v', s) == At(sb, v, s)
    ensures Filled(sb, v')
  {
    ResizeExact(sb, v, v', i, BlocksFor(v0.ino[i].size + |p|));
    forall j: nat | j < sb.ninodes
      ensures v'.ino[j].size <= MAXFILE * BSIZE && NoHoles(sb, v', j)
    {
      if j != i {
        OtherNoHoles(sb, v0, v', j);
      }
    }
  }

  lemma AppendSynced(sb: Super, v0: Vol, v: Vol, v': Vol, i: nat, p: seq<Byte>)
    requires i < sb.ninodes && i < |v0.ino| && Written(sb, v0, v, i, v0.ino[i].size, p, |p|) && Synced(sb, v0)
    requires Shaped(sb, v')
    requires v'.ino == v.ino[i := v'.ino[i]] && v'.blk == UpdateBlk(sb, v.blk, i, v'.ino[i])
    ensures Synced(sb, v')
  {
    assert SameDiskInodes(sb, v0, v);
  }

  lemma AppendDone(sb: Super, v0: Vol, v: Vol, v': Vol, i: nat, off: nat, p: seq<Byte>)
    requires i < sb.ninodes && Filled(sb, v0) && Synced(sb, v0) && off == v0.ino[i].size
    requires Written(sb, v0, v, i, off, p, |p|)
    requires off + |p| <= MAXFILE * BSIZE && Owned(sb, v') && SameBytes(sb, v, v')
    requires v' == Vol(UpdateBlk(sb, v.blk, i, v.ino[i].(size := off + |p|)), v.ino[i := v.ino[i].(size := off + |p|)])
    requires forall s :: InRange(sb, s) ==> At(sb, v', s) == At(sb, v, s)
    requires MappedExactly(sb, v, i, BlocksFor(off + |p|))
    ensures WroteFile(sb, v0, v', i, off, p) && Filled(sb, v') && Synced(sb, v')
  {
    AppendContent(sb, v0, v, v', i, p);
    AppendFilled(sb, v0, v, v', i, p);
    AppendSynced(sb, v0, v, v', i, p);
  }

  /** A bitmap block whose first n bits are set exists. */
  lemma {:induction false} FirstBits(n: nat) returns (b: Block)
    requires n <= BPB
    ensures forall c: nat :: c < BPB ==> (GetBit(b, c) <==> c < n)
  {
    if n == 0 {
      b := ZeroBlock();
      forall c: nat | c < BPB
        ensures !GetBit(b, c)
      {
        NoBit(c % 8);
      }
    } else {
      b := FirstBits(n - 1);
      b := PutBit(b, n - 1, true);
    }
  }

  lemma {:induction false} NoBit(i: nat)
    ensures !Bit(0, i)
  {
    if i > 0 {
      NoBit(i - 1);
    }
  }

  /** An image of zeroes, but for the bitmap, is an empty file system. */
  lemma EmptyOwned(sb: Super, v: Vol)
    requires Shaped(sb, v) && (forall j: nat :: j < sb.ninodes ==> v.ino[j] == NoInode)
    requires forall c: nat :: c < sb.size ==> (Used(sb, v.blk, c) <==> c < sb.datastart)
    ensures Owned(sb, v) && Filled(sb, v)
  {
    assert forall s :: InRange(sb, s) ==> At(sb, v, s) == 0;
    forall j: nat | j < sb.ninodes
      ensures NoHoles(sb, v, j)
    {
      assert forall k: nat :: k < MAXFILE ==> BlockOf(sb, v, j, k) == 0;
      assert At(sb, v, Table(j)) == 0;
    }
  }

  /** Every inode of a block of zeroes is unused. */
  lemma ZeroInode(k: nat)
    requires k < IPB
    ensures GetInode(ZeroBlock(), k) == NoInode
  {
    var ws := GetWords(ZeroBlock(), INODEWORDS * k, INODEWORDS);
    forall j: nat | j < INODEWORDS
      ensures ws[j] == 0
    {
      ZeroWords(INODEWORDS * k + j);
    }
    assert ws[3..] == NoInode.addrs;
  }

  /** An unused inode gets its type: it has no block, so the file is empty and has no hole. */
  lemma FreshFilled(sb: Super, v: Vol, v': Vol, i: nat)
    requires Filled(sb, v) && Shaped(sb, v') && i < sb.ninodes && v.ino[i] == NoInode && v'.ino == v.ino[i := v'.ino[i]]
    requires v'.ino[i].size == 0 && forall s :: InRange(sb, s) ==> At(sb, v', s) == At(sb, v, s)
    ensures Filled(sb, v')
  {
    forall j: nat | j < sb.ninodes
      ensures v'.ino[j].size <= MAXFILE * BSIZE && NoHoles(sb, v', j)
    {
      OtherNoHoles(sb, v, v', j);
    }
  }

  /** Only the bits of the bitmap matter to ownership. */
  lemma BitmapOwned(sb: Super, v: Vol, v': Vol)
    requires Owned(sb, v) && Shaped(sb, v') && v'.ino == v.ino
    requires forall x :: 0 <= x < sb.size && x != sb.bmapstart ==> v'.blk[x] == v.blk[x]
    requires forall c: nat :: c < sb.size ==> Used(sb, v'.blk, c) == Used(sb, v.blk, c)
    ensures Owned(sb, v') && SameBytes(sb, v, v') && forall s :: InRange(sb, s) ==> At(sb, v', s) == At(sb, v, s)
  {
    forall s | InRange(sb, s)
      ensures At(sb, v', s) == At(sb, v, s) && SlotOk(sb, v', s)
    {
      assert SlotOk(sb, v, s);
      if s.Entry? {
        assert SlotOk(sb, v, Table(s.i)) && At(sb, v, Table(s.i)) == v.ino[s.i].addrs[NDIRECT];
      }
    }
    forall j, k | 0 <= j < sb.ninodes && 0 <= k < MAXFILE * BSIZE
      ensures FileByte(sb, v', j, k) == FileByte(sb, v, j, k)
    {
      assert SlotOk(sb, v, SlotOf(j, k / BSIZE));
    }
  }

  /** The size main gives the root directory: the next multiple of BSIZE above, not at or above. */
  function Rounded(size: nat): nat {
    (size / BSIZE + 1) * BSIZE
  }

  /** Rounding the size makes a hole exactly when it was a multiple of BSIZE already. */
  lemma RoundingMakesHole(sb: Super, v: Vol, v': Vol, i: nat)
    requires Shaped(sb, v) && Shaped(sb, v') && i < sb.ninodes && NoHoles(sb, v, i) && v.ino[i].size < MAXFILE * BSIZE
    requires v'.ino[i].size == Rounded(v.ino[i].size) && forall s :: InRange(sb, s) ==> At(sb, v', s) == At(sb, v, s)
    ensures NoHoles(sb, v', i) <==> v.ino[i].size % BSIZE != 0
  {
    var n := BlocksFor(v.ino[i].size);
    ResizeExact(sb, v, v', i, n);
    if v.ino[i].size % BSIZE == 0 {
      assert BlocksFor(v'.ino[i].size) == n + 1;
      assert BlockOf(sb, v', i, n) == 0;
    } else {
      assert BlocksFor(v'.ino[i].size) == n;
    }
  }

  /** A bitmap with the first n bits set, and the other bitmap blocks zero, uses the first n blocks. */
  lemma FirstUsed(sb: Super, blk: seq<Block>, b: Block, n: nat)
    requires GoodSuper(sb) && |blk| == sb.size && n <= BPB && blk[sb.bmapstart] == b
    requires forall c: nat :: c < BPB ==> (GetBit(b, c) <==> c < n)
    requires forall x :: sb.bmapstart < x < sb.datastart ==> blk[x] == ZeroBlock()
    ensures forall c: nat :: c < sb.size ==> (Used(sb, blk, c) <==> c < n)
  {
    forall c: nat | c < sb.size
      ensures Used(sb, blk, c) <==> c < n
    {
      if c >= BPB {
        assert sb.bmapstart < BBlock(sb, c) < sb.datastart;
        NoBit(c % BPB % 8);
      }
    }
  }

  /** The finished bitmap says what vol's said. */
  lemma BitsUsed(sb: Super, blk0: seq<Block>, vblk: seq<Block>, blk: seq<Block>, buf: Block, n: nat)
    requires GoodSuper(sb) && |blk0| == |vblk| == sb.size && n <= BPB && blk == blk0[sb.bmapstart := buf]
    requires forall c: nat :: c < BPB ==> (GetBit(buf, c) <==> c < n)
    requires forall x :: 0 <= x < sb.size && x != sb.bmapstart ==> vblk[x] == blk0[x]
    requires forall c: nat :: c < sb.size ==> (Used(sb, vblk, c) <==> c < n)
    ensures forall c: nat :: c < sb.size ==> (Used(sb, blk, c) <==> c < n)
  {
    forall c: nat | c < sb.size
      ensures Used(sb, blk, c) <==> c < n
    {
      if c >= BPB {
        assert sb.bmapstart < BBlock(sb, c) < sb.datastart;
        assert Used(sb, blk, c) == Used(sb, vblk, c);
      }
    }
  }

  /** bzero of balloc's buffer. */
  method ZeroBits() returns (b: Block)
    ensures forall c: nat :: c < BPB ==> !GetBit(b, c)
  {
    b := ZeroBlock();
    forall c: nat | c < BPB
      ensures !GetBit(b, c)
    {
      NoBit(c % 8);
    }
  }

  /** The finished image v, from the files of v0: nothing is owned twice, every inode is on the disk,
      every byte is as it was written, and no file has a hole, except the root directory exactly when its
      size was a multiple of BSIZE. */
  ghost predicate MkfsDone(sb: Super, v0: Vol, v: Vol, root: nat)
    requires Shaped(sb, v0) && root < sb.ninodes
  {
    && Owned(sb, v) && Synced(sb, v) && SameBytes(sb, v0, v)
    && v.ino == v0.ino[root := v0.ino[root].(size := v.ino[root].size)]
       && v.ino[root].size == Rounded(v0.ino[root].size)
    && (forall j: nat :: j < sb.ninodes && j != root ==> NoHoles(sb, v, j))
    && (NoHoles(sb, v, root) <==> v0.ino[root].size % BSIZE != 0)
  }

  lemma SameBytesTwice(sb: Super, v0: Vol, v: Vol, v': Vol)
    requires Shaped(sb, v0) && Shaped(sb, v) && Shaped(sb, v') && SameBytes(sb, v0, v) && SameBytes(sb, v, v')
    ensures SameBytes(sb, v0, v')
  {
    forall j, k | 0 <= j < sb.ninodes && 0 <= k < MAXFILE * BSIZE
      ensures FileByte(sb, v', j, k) == FileByte(sb, v0, j, k)
    {
      assert FileByte(sb, v', j, k) == FileByte(sb, v, j, k);
    }
  }

  /** winode keeps the image in step, and the bitmap has no part in it. */
  lemma UpdateSynced(sb: Super, v0: Vol, i: nat, ip: Inode)
    requires Synced(sb, v0) && i < sb.ninodes
    ensures Synced(sb, Vol(UpdateBlk(sb, v0.blk, i, ip), v0.ino[i := ip]))
  {
  }

  lemma BitmapSynced(sb: Super, v: Vol, v': Vol)
    requires Synced(sb, v) && Shaped(sb, v') && v'.ino == v.ino
    requires forall x :: 0 <= x < sb.size && x != sb.bmapstart ==> v'.blk[x] == v.blk[x]
    ensures Synced(sb, v')
  {
    assert forall j: nat :: j < sb.ninodes ==> IBlock(sb, j) < sb.bmapstart;
  }

  lemma RoundedFilled(sb: Super, v0: Vol, v: Vol, root: nat)
    requires Filled(sb, v0) && Owned(sb, v) && Synced(sb, v) && SameBytes(sb, v0, v)
    requires root < sb.ninodes && v0.ino[root].size < MAXFILE * BSIZE
    requires v.ino == v0.ino[root := v0.ino[root].(size := Rounded(v0.ino[root].size))]
    requires forall s :: InRange(sb, s) ==> At(sb, v, s) == At(sb, v0, s)
    ensures MkfsDone(sb, v0, v, root)
  {
    forall j: nat | j < sb.ninodes && j != root
      ensures NoHoles(sb, v, j)
    {
      OtherNoHoles(sb, v0, v, j);
    }
    RoundingMakesHole(sb, v0, v, root);
  }

  class Image {
    const sb: Super
    var blk: seq<Block>
    var freeblock: nat
    var freeinode: nat
    ghost var vol: Vol

    /** Between two calls: the image holds vol but for the bitmap, every inode is on it, no file has a
        hole, and the inodes from freeinode on are unused. */
    ghost predicate Ready()
      reads this
    {
      && Building(sb, blk, freeblock, vol) && Synced(sb, vol) && Filled(sb, vol)
      && 1 <= freeinode && forall j: nat :: freeinode <= j < sb.ninodes ==> vol.ino[j] == NoInode
    }

    /** iappend's look at address k of the inode din, a direct block or the indirect table. */
    method MapAddr(i: nat, din: Inode, k: nat, ghost v: Vol) returns (x: nat, din': Inode, ghost v': Vol)
      requires Building(sb, blk, freeblock, v) && i < sb.ninodes && v.ino[i] == din && k <= NDIRECT
      requires din.addrs[k] == 0 ==> freeblock < sb.size && freeblock < BPB
      modifies `freeblock
      ensures Building(sb, blk, freeblock, v') && v'.ino[i] == din'
      ensures Grows(sb, v, v', i, {if k < NDIRECT then Direct(i, k) else Table(i)})
      ensures sb.datastart <= x < freeblock && din'.addrs[k] == x
      ensures freeblock == old(freeblock) + Count(din.addrs[k] == 0)
    {
      if din.addrs[k] == 0 {
        TakeAddr(sb, blk, freeblock, v, i, k);
        v' := SetAddr(sb, v, i, k, freeblock);
        din' := din.(addrs := din.addrs[k := freeblock]);
        freeblock := freeblock + 1;
      } else {
        KeepSlot(sb, blk, freeblock, v, if k < NDIRECT then Direct(i, k) else Table(i));
        din', v' := din, v;
      }
      x := din'.addrs[k];
    }

    /** iappend's look at entry j of the indirect table in block t. */
    method MapEntry(i: nat, j: nat, t: nat, ghost v: Vol) returns (x: nat, ghost v': Vol)
      requires Building(sb, blk, freeblock, v) && i < sb.ninodes && j < NINDIRECT
      requires sb.datastart <= t < freeblock && v.ino[i].addrs[NDIRECT] == t
      requires At(sb, v, Entry(i, j)) == 0 ==> freeblock < sb.size && freeblock < BPB
      modifies `blk, `freeblock
      ensures Building(sb, blk, freeblock, v') && v'.ino == v.ino
      ensures Grows(sb, v, v', i, {Entry(i, j)})
      ensures sb.datastart <= x < freeblock && At(sb, v', Entry(i, j)) == x
      ensures freeblock == old(freeblock) + Count(At(sb, v, Entry(i, j)) == 0)
    {
      x := GetWord(blk[t], j);
      if x == 0 {
        TakeEntry(sb, blk, freeblock, v, i, j, t);
        v' := SetEntry(sb, v, i, j, freeblock);
        x := freeblock;
        freeblock := freeblock + 1;
        blk := blk[t := PutWord(blk[t], j, x)];
      } else {
        KeepSlot(sb, blk, freeblock, v, Entry(i, j));
        v' := v;
      }
    }

    /** iappend beyond the direct blocks: the indirect table, then its entry. */
    method MapIndirect(i: nat, din: Inode, j: nat, ghost v: Vol) returns (x: nat, din': Inode, ghost v': Vol)
      requires Building(sb, blk, freeblock, v) && i < sb.ninodes && v.ino[i] == din && j < NINDIRECT
      requires freeblock + Count(At(sb, v, Entry(i, j)) == 0) + Count(din.addrs[NDIRECT] == 0) <= Limit(sb)
      modifies `blk, `freeblock
      ensures Building(sb, blk, freeblock, v') && v'.ino[i] == din'
      ensures Grows(sb, v, v', i, {Table(i)} + {Entry(i, j)})
      ensures sb.datastart <= x < freeblock && At(sb, v', Entry(i, j)) == x && din'.addrs[NDIRECT] != 0
      ensures freeblock == old(freeblock) + Count(At(sb, v, Entry(i, j)) == 0) + Count(din.addrs[NDIRECT] == 0)
    {
      var t: nat;
      ghost var v1;
      t, din', v1 := MapAddr(i, din, NDIRECT, v);
      assert At(sb, v1, Entry(i, j)) == At(sb, v, Entry(i, j));
      x, v' := MapEntry(i, j, t, v1);
      GrowsTwice(sb, v, v1, v', i, {Table(i)}, {Entry(i, j)});
    }

    /** The part of iappend that finds, or hands out, the block for file block fbn of the inode din. */
    method MapBlock(i: nat, din: Inode, fbn: nat, ghost v: Vol) returns (x: nat, din': Inode, ghost v': Vol)
      requires Building(sb, blk, freeblock, v) && i < sb.ninodes && v.ino[i] == din && fbn < MAXFILE
      requires freeblock + Takes(sb, v, i, fbn) <= Limit(sb)
      modifies `blk, `freeblock
      ensures Building(sb, blk, freeblock, v') && v'.ino[i] == din'
      ensures Grows(sb, v, v', i, BmapSlots(i, fbn))
      ensures sb.datastart <= x < freeblock && BlockOf(sb, v', i, fbn) == x
      ensures fbn >= NDIRECT ==> din'.addrs[NDIRECT] != 0
      ensures freeblock == old(freeblock) + Takes(sb, v, i, fbn)
    {
      if fbn < NDIRECT {
        x, din', v' := MapAddr(i, din, fbn, v);
      } else {
        x, din', v' := MapIndirect(i, din, fbn - NDIRECT, v);
        assert {Table(i)} + {Entry(i, fbn - NDIRECT)} == BmapSlots(i, fbn);
      }
    }

    /** The block for the next bytes of iappend, at offset off + tot. */
    method MapNext(i: nat, din: Inode, off: nat, tot: nat, end: nat, n: nat, ghost fb0: nat, ghost v: Vol)
      returns (x: nat, din': Inode, ghost v': Vol)
      requires Building(sb, blk, freeblock, v) && i < sb.ninodes && v.ino[i] == din
      requires Filling(sb, v, i, off, tot, fb0, freeblock)
      requires tot < end <= n && off + n <= MAXFILE * BSIZE && fb0 + Needs(off, n) <= Limit(sb)
      requires end - tot <= BSIZE - (off + tot) % BSIZE && (tot == 0 || (off + tot) % BSIZE == 0)
      modifies `blk, `freeblock
      ensures Building(sb, blk, freeblock, v') && v'.ino[i] == din' && Filling(sb, v', i, off, end, fb0, freeblock)
      ensures Grows(sb, v, v', i, BmapSlots(i, (off + tot) / BSIZE))
      ensures 0 < x < sb.size && BlockOf(sb, v', i, (off + tot) / BSIZE) == x
    {
      NeedsNext(sb, v, i, off, tot, end);
      NeedsMore(off, end, n);
      x, din', v' := MapBlock(i, din, (off + tot) / BSIZE, v);
      FillsNext(sb, v, v', i, off, tot, end);
    }

    /** One round of iappend's loop: the bytes of p up to `end`, which lie in one block. */
    method AppendPiece(i: nat, din: Inode, off: nat, p: seq<Byte>, tot: nat, end: nat, ghost fb0: nat, ghost v0: Vol,
                       ghost v: Vol)
      returns (din': Inode, ghost v': Vol)
      requires Building(sb, blk, freeblock, v) && i < sb.ninodes && v.ino[i] == din
      requires Filling(sb, v, i, off, tot, fb0, freeblock)
      requires Written(sb, v0, v, i, off, p, tot)
      requires tot < end <= |p| && off + |p| <= MAXFILE * BSIZE && fb0 + Needs(off, |p|) <= Limit(sb)
      requires end - tot <= BSIZE - (off + tot) % BSIZE && (tot == 0 || (off + tot) % BSIZE == 0)
      modifies `blk, `freeblock
      ensures Building(sb, blk, freeblock, v') && v'.ino[i] == din' && Filling(sb, v', i, off, end, fb0, freeblock)
      ensures Written(sb, v0, v', i, off, p, end)
    {
      var x: nat;
      ghost var mid;
      x, din', mid := MapNext(i, din, off, tot, end, |p|, fb0, v);
      PieceWritten(sb, v0, v, mid, i, off, p, tot, end);
      v' := PutPiece(i, (off + tot) / BSIZE, x, (off + tot) % BSIZE, p[tot..end], BlocksFor(off + end), mid);
    }

    /** rsect, bcopy and wsect of the block x, which holds block bn of file i. */
    method PutPiece(i: nat, ghost bn: nat, x: nat, o: nat, piece: seq<Byte>, ghost n: nat, ghost v: Vol)
      returns (ghost v': Vol)
      requires Building(sb, blk, freeblock, v) && i < sb.ninodes && bn < MAXFILE && 0 < x < sb.size
      requires BlockOf(sb, v, i, bn) == x
      requires o + |piece| <= BSIZE && MappedExactly(sb, v, i, n)
      modifies `blk
      ensures v' == Poke(v, x, Splice(v.blk[x], o, piece))
      ensures Building(sb, blk, freeblock, v') && MappedExactly(sb, v', i, n)
    {
      PokeImage(sb, blk, freeblock, v, i, bn, Splice(v.blk[x], o, piece));
      PokeExact(sb, v, i, bn, Splice(v.blk[x], o, piece), n);
      v' := Poke(v, x, Splice(v.blk[x], o, piece));
      assert v.blk[x] == blk[x];
      blk := blk[x := Splice(blk[x], o, piece)];
    }

    /** iappend's loop. */
    method AppendAll(i: nat, din0: Inode, off: nat, p: seq<Byte>, ghost v0: Vol) returns (din: Inode, ghost v: Vol)
      requires Building(sb, blk, freeblock, v0) && i < sb.ninodes && v0.ino[i] == din0
      requires MappedExactly(sb, v0, i, BlocksFor(off))
      requires off + |p| <= MAXFILE * BSIZE && freeblock + Needs(off, |p|) <= Limit(sb)
      modifies `blk, `freeblock
      ensures Building(sb, blk, freeblock, v) && v.ino[i] == din && Written(sb, v0, v, i, off, p, |p|)
      ensures Filling(sb, v, i, off, |p|, old(freeblock), freeblock)
    {
      ghost var fb0 := freeblock;
      var tot := 0;
      din, v := din0, v0;
      WrittenNothing(sb, v0, i, off, p);
      while tot < |p|
        invariant tot <= |p| && (tot == 0 || tot == |p| || (off + tot) % BSIZE == 0)
        invariant Building(sb, blk, freeblock, v) && v.ino[i] == din
        invariant Written(sb, v0, v, i, off, p, tot)
        invariant Filling(sb, v, i, off, tot, fb0, freeblock)
      {
        var end := PieceEnd(off, tot, |p|);
        din, v := AppendPiece(i, din, off, p, tot, end, fb0, v0, v);
        tot := end;
      }
    }

    /** rinode. */
    method ReadInode(i: nat) returns (din: Inode)
      requires Ready() && i < sb.ninodes
      ensures din == vol.ino[i]
    {
      assert sb.inodestart <= IBlock(sb, i) < sb.bmapstart;
      assert DiskInode(sb, vol.blk, i) == vol.ino[i];
      din := GetInode(blk[IBlock(sb, i)], i % IPB);
    }

    /** winode: the inode goes to the image; only its other fields differ from the one in v. */
    method PutInodeBack(i: nat, din: Inode, ghost v: Vol)
      requires Building(sb, blk, freeblock, v) && i < sb.ninodes && din.addrs == v.ino[i].addrs
      modifies `blk, `vol
      ensures Building(sb, blk, freeblock, vol) && vol == Vol(UpdateBlk(sb, v.blk, i, din), v.ino[i := din])
      ensures SameBytes(sb, v, vol) && forall s :: InRange(sb, s) ==> At(sb, vol, s) == At(sb, v, s)
    {
      WriteInode(sb, blk, freeblock, v, i, din);
      blk := blk[IBlock(sb, i) := PutInode(blk[IBlock(sb, i)], i % IPB, din)];
      vol := Vol(UpdateBlk(sb, v.blk, i, din), v.ino[i := din]);
    }

    /** The end of iappend after its loop. */
    method FinishAppend(i: nat, din: Inode, off: nat, p: seq<Byte>, ghost v: Vol)
      requires Building(sb, blk, freeblock, v) && i < sb.ninodes && v.ino[i] == din
      requires Filled(sb, vol) && Synced(sb, vol) && off == vol.ino[i].size && Written(sb, vol, v, i, off, p, |p|)
      requires off + |p| <= MAXFILE * BSIZE && MappedExactly(sb, v, i, BlocksFor(off + |p|))
      modifies `blk, `vol
      ensures Building(sb, blk, freeblock, vol) && Synced(sb, vol) && Filled(sb, vol)
      ensures WroteFile(sb, old(vol), vol, i, off, p)
    {
      ghost var v0 := vol;
      PutInodeBack(i, din.(size := off + |p|), v);
      AppendDone(sb, v0, v, vol, i, off, p);
    }

    /** iappend once it has read the inode. */
    method AppendAt(i: nat, din0: Inode, off: nat, p: seq<Byte>)
      requires Building(sb, blk, freeblock, vol) && Synced(sb, vol) && Filled(sb, vol)
      requires i < sb.ninodes && vol.ino[i] == din0 && off == din0.size
      requires off + |p| <= MAXFILE * BSIZE && freeblock + Needs(off, |p|) <= Limit(sb)
      modifies `blk, `freeblock, `vol
      ensures Building(sb, blk, freeblock, vol) && Synced(sb, vol) && Filled(sb, vol)
      ensures WroteFile(sb, old(vol), vol, i, off, p) && freeblock == old(freeblock) + Needs(off, |p|)
    {
      var din, v := AppendAll(i, din0, off, p, vol);
      FinishAppend(i, din, off, p, v);
    }

    /** iappend: p goes to the end of file i. */
    method Iappend(i: nat, p: seq<Byte>)
      requires Ready() && i < sb.ninodes && i < freeinode
      requires vol.ino[i].size + |p| <= MAXFILE * BSIZE && freeblock + Needs(vol.ino[i].size, |p|) <= Limit(sb)
      modifies `blk, `freeblock, `vol
      ensures Ready() && freeblock == old(freeblock) + Needs(old(vol).ino[i].size, |p|)
      ensures WroteFile(sb, old(vol), vol, i, old(vol).ino[i].size, p)
    {
      var din := ReadInode(i);
      AppendAt(i, din, din.size, p);
    }

    /** main up to the first ialloc: every sector zeroed, and the blocks before the data handed out. */
    constructor (sb: Super)
      requires GoodSuper(sb) && sb.datastart <= BPB
      ensures this.sb == sb && Ready() && freeblock == sb.datastart && freeinode == 1
    {
      this.sb := sb;
      blk := seq(sb.size, _ => ZeroBlock());
      freeblock, freeinode := sb.datastart, 1;
      ghost var b := FirstBits(sb.datastart);
      vol := Vol(seq(sb.size, x => if x == sb.bmapstart then b else ZeroBlock()), seq(sb.ninodes, _ => NoInode));
      new;
      FirstUsed(sb, vol.blk, b, sb.datastart);
      EmptyOwned(sb, vol);
      forall j: nat | j < sb.ninodes
        ensures DiskInode(sb, vol.blk, j) == NoInode
      {
        ZeroInode(j % IPB);
      }
    }

    /** ialloc: the next inode, with its type and one link. */
    method Ialloc(typ: Half) returns (i: nat)
      requires Ready() && freeinode < sb.ninodes
      modifies `blk, `freeinode, `vol
      ensures Ready() && i == old(freeinode) && freeinode == i + 1
      ensures vol.ino == old(vol).ino[i := NoInode.(typ := typ, nlink := 1)]
      ensures SameBytes(sb, old(vol), vol) && forall s :: InRange(sb, s) ==> At(sb, vol, s) == At(sb, old(vol), s)
    {
      ghost var v := vol;
      i := freeinode;
      freeinode := freeinode + 1;
      PutInodeBack(i, NoInode.(typ := typ, nlink := 1), v);
      FreshFilled(sb, v, vol, i);
      UpdateSynced(sb, v, i, vol.ino[i]);
    }

    /** balloc: the bitmap of the blocks handed out. */
    method Balloc()
      requires Building(sb, blk, freeblock, vol)
      modifies `blk
      ensures Owned(sb, Vol(blk, vol.ino)) && SameBytes(sb, vol, Vol(blk, vol.ino))
      ensures forall s :: InRange(sb, s) ==> At(sb, Vol(blk, vol.ino), s) == At(sb, vol, s)
      ensures forall c: nat :: c < sb.size ==> (Used(sb, blk, c) <==> c < freeblock)
      ensures forall x :: 0 <= x < sb.size && x != sb.bmapstart ==> blk[x] == old(blk)[x]
    {
      var buf := ZeroBits();
      var i := 0;
      while i < freeblock
        invariant i <= freeblock
        invariant forall c: nat :: c < BPB ==> (GetBit(buf, c) <==> c < i)
      {
        buf := PutBit(buf, i, true);
        i := i + 1;
      }
      ghost var old_blk := blk;
      blk := blk[sb.bmapstart := buf];
      BitsUsed(sb, old_blk, vol.blk, blk, buf, freeblock);
      BitmapOwned(sb, vol, Vol(blk, vol.ino));
    }

    /** main's last steps: the size of the root directory rounded up, then the bitmap. What the image then
        holds is a file system whose inodes are on the disk, where no file has a hole, with one exception. */
    method Finish(root: nat)
      requires Ready() && root < sb.ninodes && vol.ino[root].size < MAXFILE * BSIZE
      modifies `blk, `vol
      ensures MkfsDone(sb, old(vol), Vol(blk, vol.ino), root)
      ensures forall c: nat :: c < sb.size ==> (Used(sb, blk, c) <==> c < freeblock)
    {
      ghost var v0 := vol;
      var din := ReadInode(root);
      PutInodeBack(root, din.(size := Rounded(din.size)), vol);
      UpdateSynced(sb, v0, root, vol.ino[root]);
      Balloc();
      SameBytesTwice(sb, v0, vol, Vol(blk, vol.ino));
      BitmapSynced(sb, vol, Vol(blk, vol.ino));
      RoundedFilled(sb, v0, Vol(blk, vol.ino), root);
    }
  }
}
