/** The bound on what a transaction of filewrite logs is reached: a disk, a file and a write. */
module FsTight {
  import opened Common
  import opened Params
  import opened Blocks
  import opened FsLayout
  import opened FsState
  import opened FsWrite
  import opened FsLog
  import opened Fs
  import opened File

  /** The file is one byte longer than eleven blocks, and is written from its end on. */
  const TIGHTOFF: nat := 5633

  const TightSuper: Super := Super(20000, 8, 1, 3, 8)

  /** The free blocks, each in another bitmap block. */
  const TightFree: set<nat> := {4196, 8292, 12388, 16484}

  /** The direct blocks 100 to 111 and no table. */
  const TightInode: Inode := Inode(2, 0, 0, 1, TIGHTOFF, TightAddrs())

  function TightAddrs(): (a: Addrs)
    ensures forall k :: 0 <= k < NDIRECT ==> a[k] == 100 + k
    ensures a[NDIRECT] == 0
  {
    seq(NDIRECT + 1, k requires 0 <= k < NDIRECT + 1 => if k < NDIRECT then 100 + k else 0)
  }

  function FullBlock(): (b: Block)
    ensures forall k :: 0 <= k < BSIZE ==> b[k] == 255
  {
    seq(BSIZE, _ => 255)
  }

  lemma FullBit(k: nat)
    requires k < 8
    ensures Bit(255, k)
  {
    assert Bit(1, 0) && Bit(3, 1) && Bit(7, 2) && Bit(15, 3);
    assert Bit(31, 4) && Bit(63, 5) && Bit(127, 6) && Bit(255, 7);
    assert Bit(255, 0) && Bit(255, 1) && Bit(255, 2) && Bit(255, 3);
    assert Bit(255, 4) && Bit(255, 5) && Bit(255, 6);
  }

  /** A disk with every block marked. */
  function FullDisk(): (blk: seq<Block>)
    ensures |blk| == TightSuper.size
    ensures forall x :: TightSuper.bmapstart <= x < TightSuper.datastart ==> blk[x] == FullBlock()
  {
    seq<Block>(3, _ => ZeroBlock()) + seq<Block>(5, _ => FullBlock()) + seq<Block>(19992, _ => ZeroBlock())
  }

  lemma FullDiskUsed(b: nat)
    requires b < TightSuper.size
    ensures GoodSuper(TightSuper) && Used(TightSuper, FullDisk(), b)
  {
    FullBit(b % BPB % 8);
    assert TightSuper.bmapstart <= BBlock(TightSuper, b) < TightSuper.datastart;
  }

  /** Four blocks freed, and the inode written. */
  ghost function TightDisk(): (blk: seq<Block>)
    ensures GoodSuper(TightSuper) && |blk| == TightSuper.size
    ensures forall b: nat :: b < TightSuper.size ==> Used(TightSuper, blk, b) == (b !in TightFree)
    ensures DiskInode(TightSuper, blk, 0) == TightInode
  {
    FullDiskUsed(0);
    var b1 := FreeBlk(TightSuper, FullDisk(), 4196);
    var b2 := FreeBlk(TightSuper, b1, 8292);
    var b3 := FreeBlk(TightSuper, b2, 12388);
    var b4 := FreeBlk(TightSuper, b3, 16484);
    assert forall b: nat :: b < TightSuper.size ==> Used(TightSuper, b4, b) == (b !in TightFree) by {
      forall b: nat | b < TightSuper.size
        ensures Used(TightSuper, b4, b) == (b !in TightFree)
      {
        FullDiskUsed(b);
      }
    }
    UpdateBlk(TightSuper, b4, 0, TightInode)
  }

  ghost function TightVol(): Vol {
    Vol(TightDisk(), [TightInode] + seq(7, _ => NoInode))
  }

  lemma TightAt(s: Slot)
    requires InRange(TightSuper, s)
    ensures At(TightSuper, TightVol(), s) == if s.i == 0 && s.Direct? then 100 + s.k else 0
  {
    assert TightVol().ino[s.i] == if s.i == 0 then TightInode else NoInode;
  }

  lemma TightWritable()
    ensures Writable(TightSuper, TightVol(), 0)
  {
    var v := TightVol();
    forall s | InRange(TightSuper, s)
      ensures SlotOk(TightSuper, v, s)
      ensures forall t :: InRange(TightSuper, t) && s != t && At(TightSuper, v, s) != 0 ==>
                At(TightSuper, v, s) != At(TightSuper, v, t)
    {
      TightAt(s);
      forall t | InRange(TightSuper, t)
        ensures At(TightSuper, v, t) == if t.i == 0 && t.Direct? then 100 + t.k else 0
      {
        TightAt(t);
      }
    }
    TightNoHoles();
  }

  lemma TightNoHoles()
    ensures NoHoles(TightSuper, TightVol(), 0)
  {
    assert BlocksFor(TIGHTOFF) == NDIRECT;
    forall bn: nat | bn < MAXFILE
      ensures BlockOf(TightSuper, TightVol(), 0, bn) != 0 <==> bn < NDIRECT
    {
      TightAt(SlotOf(0, bn));
    }
    TightAt(Table(0));
  }

  lemma TightSpan()
    ensures Spans(TIGHTOFF, 3 * BSIZE, 11, 15)
  {
    assert TIGHTOFF / BSIZE == 11 && (TIGHTOFF + 3 * BSIZE + BSIZE - 1) / BSIZE == 15;
  }

  ghost function TightNeed(): set<Slot> {
    {Table(0), Entry(0, 0), Entry(0, 1), Entry(0, 2)}
  }

  lemma NeedsOf(sb: Super, v: Vol)
    requires |v.ino| == sb.ninodes > 0 && At(sb, v, Direct(0, 11)) != 0
    requires forall s :: s in TightNeed() ==> At(sb, v, s) == 0
    ensures Needs(sb, v, 0, 11, 15) == TightNeed()
  {
    forall s | s in TightNeed()
      ensures s in SlotsOf(0, 11, 15)
    {
      assert s != Table(0) ==> s == SlotOf(0, NDIRECT + s.j);
    }
    forall s | s in Needs(sb, v, 0, 11, 15) && s != Table(0)
      ensures s in TightNeed()
    {
      var bn: nat :| 11 <= bn < 15 && s == SlotOf(0, bn);
    }
  }

  lemma TightNeeds()
    ensures Needs(TightSuper, TightVol(), 0, 11, 15) == TightNeed()
  {
    var v := TightVol();
    TightAt(Direct(0, 11));
    forall s | s in TightNeed()
      ensures At(TightSuper, v, s) == 0
    {
      TightAt(s);
    }
    NeedsOf(TightSuper, v);
  }

  lemma TightFreeBlocks()
    ensures FreeBlocks(TightSuper, TightVol().blk) == TightFree
  {
  }

  /** A disk with these free blocks and a file whose last block is 111, after its table and three more
      blocks have been filled. */
  ghost predicate FilledUp(sb: Super, v0: Vol, v: Vol) {
    && Owned(sb, v0) && Owned(sb, v) && FreeBlocks(sb, v0.blk) == TightFree && sb.bmapstart == 3 && sb.inodestart == 1
    && Fills(sb, v0, v, TightNeed()) && At(sb, v0, Direct(0, 11)) == 111
  }

  lemma NeedSize()
    ensures |TightNeed()| == |TightFree| == 4
  {
  }

  /** All four blocks are taken, whichever slot each of them goes to. */
  lemma TightHeld(sb: Super, v0: Vol, v: Vol)
    requires FilledUp(sb, v0, v)
    ensures Held(sb, v, TightNeed()) == TightFree
  {
    NeverZero(sb, v0);
    HeldSize(sb, v, TightNeed());
    NeedSize();
    SameSize(Held(sb, v, TightNeed()), TightFree);
  }

  lemma SameSize(a: set<nat>, b: set<nat>)
    requires a <= b && |a| == |b|
    ensures a == b
  {
    if x :| x in b && x !in a {
      SubsetSize(a + {x}, b);
    }
  }

  lemma TightBitmap(sb: Super, b: nat)
    requires sb.bmapstart == 3 && b in TightFree
    ensures BBlock(sb, b) in {4, 5, 6, 7}
    ensures BBlock(sb, 4196) == 4 && BBlock(sb, 8292) == 5 && BBlock(sb, 12388) == 6 && BBlock(sb, 16484) == 7
  {
  }

  lemma TightIn(sb: Super, v0: Vol, v: Vol, s: Slot)
    requires FilledUp(sb, v0, v) && s in TightNeed()
    ensures InRange(sb, s) && At(sb, v, s) in TightFree
  {
    TightHeld(sb, v0, v);
    assert At(sb, v, s) in Held(sb, v, TightNeed());
  }

  lemma TightSlotLog(sb: Super, v: Vol, s: Slot)
    requires |v.ino| == sb.ninodes && InRange(sb, s) && s.i == 0 && sb.bmapstart == 3
    requires At(sb, v, s) in TightFree && At(sb, v, Table(0)) in TightFree
    ensures SlotLog(sb, v, s) <= TightFree + {4, 5, 6, 7}
  {
    TightBitmap(sb, At(sb, v, s));
  }

  lemma TightLogged(sb: Super, v0: Vol, v: Vol, b: nat)
    requires FilledUp(sb, v0, v) && b in TightFree
    ensures b in FillLog(sb, v, TightNeed()) && BBlock(sb, b) in FillLog(sb, v, TightNeed())
  {
    TightHeld(sb, v0, v);
    assert b in Held(sb, v, TightNeed());
    var s :| s in TightNeed() && At(sb, v, s) == b;
    assert b in SlotLog(sb, v, s) && BBlock(sb, b) in SlotLog(sb, v, s);
  }

  lemma TightSlotIn(sb: Super, v0: Vol, v: Vol, s: Slot)
    requires FilledUp(sb, v0, v) && s in TightNeed()
    ensures SlotLog(sb, v, s) <= TightFree + {4, 5, 6, 7}
  {
    TightIn(sb, v0, v, s);
    TightIn(sb, v0, v, Table(0));
    TightSlotLog(sb, v, s);
  }

  lemma TightWithin(sb: Super, v0: Vol, v: Vol)
    requires FilledUp(sb, v0, v)
    ensures FillLog(sb, v, TightNeed()) <= TightFree + {4, 5, 6, 7}
  {
    forall s | s in TightNeed()
      ensures SlotLog(sb, v, s) <= TightFree + {4, 5, 6, 7}
    {
      TightSlotIn(sb, v0, v, s);
    }
    FillLogIn(sb, v, TightNeed(), TightFree + {4, 5, 6, 7});
  }

  lemma TightFill(sb: Super, v0: Vol, v: Vol)
    requires FilledUp(sb, v0, v)
    ensures FillLog(sb, v, TightNeed()) == TightFree + {4, 5, 6, 7}
  {
    var log := FillLog(sb, v, TightNeed());
    TightWithin(sb, v0, v);
    TightLogged(sb, v0, v, 4196);
    TightLogged(sb, v0, v, 8292);
    TightLogged(sb, v0, v, 12388);
    TightLogged(sb, v0, v, 16484);
    TightBitmap(sb, 4196);
    EightBlocks(log);
  }

  lemma EightBlocks(log: set<nat>)
    requires log <= TightFree + {4, 5, 6, 7} && {4196, 8292, 12388, 16484, 4, 5, 6, 7} <= log
    ensures log == TightFree + {4, 5, 6, 7}
  {
  }

  lemma TightBlock(sb: Super, v0: Vol, v: Vol, bn: nat)
    requires FilledUp(sb, v0, v) && 11 <= bn < 15
    ensures if bn == 11 then BlockOf(sb, v, 0, bn) == 111 else BlockOf(sb, v, 0, bn) in TightFree
  {
    if bn == 11 {
      assert InRange(sb, Direct(0, 11)) && Direct(0, 11) !in TightNeed();
    } else {
      TightIn(sb, v0, v, SlotOf(0, bn));
    }
  }

  lemma TightData(sb: Super, v0: Vol, v: Vol)
    requires FilledUp(sb, v0, v)
    ensures DataBlocks(sb, v, 0, 11, 15) <= TightFree + {111} && 111 in DataBlocks(sb, v, 0, 11, 15)
  {
    forall bn: nat | 11 <= bn < 15
      ensures BlockOf(sb, v, 0, bn) in TightFree + {111} && (bn == 11 ==> BlockOf(sb, v, 0, bn) == 111)
    {
      TightBlock(sb, v0, v, bn);
    }
    assert BlockOf(sb, v, 0, 11) in DataBlocks(sb, v, 0, 11, 15);
  }

  lemma TenBlocks(fill: set<nat>, data: set<nat>)
    requires fill == TightFree + {4, 5, 6, 7} && data <= TightFree + {111} && 111 in data
    ensures |fill + data + {1}| == 10
  {
    assert fill + data + {1} == {4196, 8292, 12388, 16484, 4, 5, 6, 7, 111, 1};
  }

  /** Four bitmap blocks, the three new blocks and the table, the old last block, and the inode's block. */
  lemma CostTight(sb: Super, v0: Vol, v: Vol)
    requires FilledUp(sb, v0, v) && Needs(sb, v0, 0, 11, 15) == TightNeed()
    ensures |BlocksCost(sb, v0, v, 0, 11, 15, true)| == MAXOPBLOCKS
  {
    TightFill(sb, v0, v);
    TightData(sb, v0, v);
    TenBlocks(FillLog(sb, v, TightNeed()), DataBlocks(sb, v, 0, 11, 15));
  }

  /** There are just enough blocks. */
  lemma TightEnough(fs: FileSystem, v0: Vol)
    requires Shaped(fs.sb, v0) && 0 < fs.sb.ninodes && FreeBlocks(fs.sb, v0.blk) == TightFree
    requires Needs(fs.sb, v0, 0, 11, 15) == TightNeed()
    ensures !fs.TooFew(v0, 0, 11, 15)
  {
    NeedSize();
  }

  /** Any three blocks' worth of bytes written at the end of this file, in one transaction: the disk has just
      enough free blocks, and the transaction logs as many blocks as it may. */
  method TightWrite(fs: FileSystem, src: seq<Byte>) returns (w: int, panicked: bool)
    requires fs.sb == TightSuper && fs.V() == TightVol() && |src| == 3 * BSIZE
    modifies fs
    ensures w >= 0 && !panicked && |fs.logged| == MAXOPBLOCKS
  {
    TightWritable();
    TightNeeds();
    TightFreeBlocks();
    TightAt(Direct(0, 11));
    assert fs.ino[0].size == TIGHTOFF;
    w, panicked := FillUp(fs, src);
  }

  method FillUp(fs: FileSystem, src: seq<Byte>) returns (w: int, panicked: bool)
    requires Writable(fs.sb, fs.V(), 0) && FreeBlocks(fs.sb, fs.blk) == TightFree && fs.sb.bmapstart == 3
    requires fs.sb.inodestart == 1 && fs.ino[0].size == TIGHTOFF && At(fs.sb, fs.V(), Direct(0, 11)) == 111
    requires Needs(fs.sb, fs.V(), 0, 11, 15) == TightNeed() && |src| == 3 * BSIZE
    modifies fs
    ensures w >= 0 && !panicked && |fs.logged| == MAXOPBLOCKS
  {
    ghost var v0 := fs.V();
    TightSpan();
    TightEnough(fs, v0);
    ghost var t;
    w, panicked, t := WriteChunk(fs, 0, TIGHTOFF, src, 0, |src|);
    assert !panicked && w >= 0;
    CostTight(fs.sb, v0, t.after);
  }
}
