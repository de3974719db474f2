/** Truncating a file: exactly its own blocks become free. */
module FsTrunc {
  import opened Params
  import opened Blocks
  import opened FsLayout
  import opened FsState
  import opened FsMap
  import opened FsWrite

  /** Some slot of `gone` holds block c. */
  ghost predicate HeldIn(sb: Super, v: Vol, gone: set<Slot>, c: nat)
    requires Shaped(sb, v)
  {
    c != 0 && exists s :: s in gone && InRange(sb, s) && At(sb, v, s) == c
  }

  /** The slots of `gone` have been emptied and the blocks in them, and no others, freed. Nothing else
      that matters has changed: only bitmap blocks differ. */
  ghost predicate Unmaps(sb: Super, v: Vol, v': Vol, gone: set<Slot>) {
    && Shaped(sb, v) && Shaped(sb, v')
    && (forall c: nat :: c < sb.size ==> Used(sb, v'.blk, c) == (Used(sb, v.blk, c) && !HeldIn(sb, v, gone, c)))
    && (forall s :: InRange(sb, s) ==> At(sb, v', s) == if s in gone then 0 else At(sb, v, s))
    && (forall x: nat :: x < sb.size && (x < sb.bmapstart || x >= sb.datastart) ==> v'.blk[x] == v.blk[x])
  }

  lemma HeldIsData(sb: Super, v: Vol, gone: set<Slot>, c: nat)
    requires Owned(sb, v)
    ensures HeldIn(sb, v, gone, c) ==> sb.datastart <= c
  {
    if HeldIn(sb, v, gone, c) {
      var s :| s in gone && InRange(sb, s) && At(sb, v, s) == c;
      assert SlotOk(sb, v, s);
    }
  }

  lemma UnmapsOwned(sb: Super, v: Vol, v': Vol, gone: set<Slot>)
    requires Owned(sb, v) && Unmaps(sb, v, v', gone)
    ensures Owned(sb, v')
  {
    forall b: nat | b < sb.datastart
      ensures Used(sb, v'.blk, b)
    {
      HeldIsData(sb, v, gone, b);
    }
    forall s | InRange(sb, s)
      ensures SlotOk(sb, v', s)
    {
      assert SlotOk(sb, v, s);
    }
  }

  /** A file none of whose slots is gone keeps every byte. */
  lemma UnmapsBytes(sb: Super, v: Vol, v': Vol, gone: set<Slot>, i: nat)
    requires Owned(sb, v) && Unmaps(sb, v, v', gone) && i < sb.ninodes
    requires forall s :: s in gone ==> s.i != i
    ensures forall k :: 0 <= k < MAXFILE * BSIZE ==> FileByte(sb, v', i, k) == FileByte(sb, v, i, k)
  {
    forall k | 0 <= k < MAXFILE * BSIZE
      ensures FileByte(sb, v', i, k) == FileByte(sb, v, i, k)
    {
      var s := SlotOf(i, k / BSIZE);
      assert InRange(sb, s) && SlotOk(sb, v, s);
    }
  }

  lemma UnmapsNothing(sb: Super, v: Vol)
    requires Shaped(sb, v)
    ensures Unmaps(sb, v, v, {})
  {
  }

  lemma UnmapsTwice(sb: Super, v: Vol, v1: Vol, v2: Vol, g1: set<Slot>, g2: set<Slot>)
    requires Unmaps(sb, v, v1, g1) && Unmaps(sb, v1, v2, g2) && g1 !! g2
    ensures Unmaps(sb, v, v2, g1 + g2)
  {
    forall c: nat | c < sb.size
      ensures HeldIn(sb, v, g1 + g2, c) <==> HeldIn(sb, v, g1, c) || HeldIn(sb, v1, g2, c)
    {
      if HeldIn(sb, v, g1 + g2, c) {
        var s :| s in g1 + g2 && InRange(sb, s) && At(sb, v, s) == c;
        assert s in g1 || At(sb, v1, s) == c;
      }
      if HeldIn(sb, v1, g2, c) {
        var s :| s in g2 && InRange(sb, s) && At(sb, v1, s) == c;
        assert s in g1 + g2 && At(sb, v, s) == c;
      }
      if HeldIn(sb, v, g1, c) {
        var s :| s in g1 && InRange(sb, s) && At(sb, v, s) == c;
        assert s in g1 + g2;
      }
    }
  }

  /** Direct address k of inode i freed and cleared. */
  lemma ClearDirect(sb: Super, v: Vol, i: nat, k: nat)
    requires Owned(sb, v) && i < sb.ninodes && k < NDIRECT && v.ino[i].addrs[k] != 0
    ensures var a := v.ino[i].addrs[k];
            && sb.datastart <= a < sb.size && Used(sb, v.blk, a)
            && Unmaps(sb, v, Vol(FreeBlk(sb, v.blk, a), v.ino[i := v.ino[i].(addrs := v.ino[i].addrs[k := 0])]),
               {Direct(i, k)})
  {
    var a: nat := v.ino[i].addrs[k];
    var s0 := Direct(i, k);
    assert At(sb, v, s0) == a;
    OwnedBlock(sb, v, s0);
    var v' := Vol(FreeBlk(sb, v.blk, a), v.ino[i := v.ino[i].(addrs := v.ino[i].addrs[k := 0])]);
    forall c: nat | c < sb.size
      ensures HeldIn(sb, v, {s0}, c) <==> c == a
    {
      assert s0 in {s0} && InRange(sb, s0);
    }
    forall s | InRange(sb, s)
      ensures At(sb, v', s) == if s in {s0} then 0 else At(sb, v, s)
    {
      if s.Entry? && v.ino[s.i].addrs[NDIRECT] != 0 {
        assert At(sb, v, Table(s.i)) == v.ino[s.i].addrs[NDIRECT];
        OwnedBlock(sb, v, Table(s.i));
      }
    }
  }

  /** The indirect table of inode i and all its entries. */
  function TableSlots(i: nat): set<Slot> {
    {Table(i)} + (set j: nat | j < NINDIRECT :: Entry(i, j))
  }

  /** The blocks of the first n entries of the table. */
  ghost predicate InTable(t: Block, n: nat, c: nat)
    requires n <= WORDS
  {
    c != 0 && exists j: nat :: j < n && GetWord(t, j) == c
  }

  /** itrunc has freed the first n entries of the table of inode i in v: bits and nothing else. */
  ghost predicate FreedEntries(sb: Super, v: Vol, blk: seq<Block>, i: nat, n: nat)
    requires Shaped(sb, v) && i < sb.ninodes && n <= NINDIRECT
  {
    && |blk| == sb.size && 0 < v.ino[i].addrs[NDIRECT] < sb.size
    && (forall x: nat :: x < sb.size && (x < sb.bmapstart || x >= sb.datastart) ==> blk[x] == v.blk[x])
    && (forall c: nat :: c < sb.size ==>
         Used(sb, blk, c) == (Used(sb, v.blk, c) && !InTable(v.blk[v.ino[i].addrs[NDIRECT]], n, c)))
  }

  /** Entry n of the table is still in use when its turn comes, so bfree does not panic. */
  lemma EntryStillUsed(sb: Super, v: Vol, blk: seq<Block>, i: nat, n: nat)
    requires Owned(sb, v) && i < sb.ninodes && n < NINDIRECT && FreedEntries(sb, v, blk, i, n)
    requires GetWord(v.blk[v.ino[i].addrs[NDIRECT]], n) != 0
    ensures var c := GetWord(v.blk[v.ino[i].addrs[NDIRECT]], n);
            && sb.datastart <= c < sb.size && Used(sb, blk, c)
            && FreedEntries(sb, v, FreeBlk(sb, blk, c), i, n + 1)
  {
    var t := v.blk[v.ino[i].addrs[NDIRECT]];
    var c: nat := GetWord(t, n);
    assert At(sb, v, Entry(i, n)) == c;
    OwnedBlock(sb, v, Entry(i, n));
    forall j: nat | j < n
      ensures GetWord(t, j) != c
    {
      assert At(sb, v, Entry(i, j)) == GetWord(t, j) && Entry(i, j) != Entry(i, n);
    }
    forall d: nat
      ensures InTable(t, n + 1, d) <==> InTable(t, n, d) || d == c
    {
      if d == c {
        assert GetWord(t, n) == d;
      }
    }
  }

  lemma EntryEmpty(sb: Super, v: Vol, blk: seq<Block>, i: nat, n: nat)
    requires Shaped(sb, v) && i < sb.ninodes && n < NINDIRECT && FreedEntries(sb, v, blk, i, n)
    requires GetWord(v.blk[v.ino[i].addrs[NDIRECT]], n) == 0
    ensures FreedEntries(sb, v, blk, i, n + 1)
  {
    var t := v.blk[v.ino[i].addrs[NDIRECT]];
    forall d: nat
      ensures InTable(t, n + 1, d) <==> InTable(t, n, d)
    {
    }
  }

  /** When every entry is freed, the table itself is still in use. */
  lemma TableStillUsed(sb: Super, v: Vol, blk: seq<Block>, i: nat)
    requires Owned(sb, v) && i < sb.ninodes && FreedEntries(sb, v, blk, i, NINDIRECT)
    ensures var t := v.ino[i].addrs[NDIRECT]; sb.datastart <= t < sb.size && Used(sb, blk, t)
  {
    var t: nat := v.ino[i].addrs[NDIRECT];
    assert At(sb, v, Table(i)) == t;
    OwnedBlock(sb, v, Table(i));
    forall j: nat | j < NINDIRECT
      ensures GetWord(v.blk[t], j) != t
    {
      assert At(sb, v, Entry(i, j)) == GetWord(v.blk[t], j) && Entry(i, j) != Table(i);
    }
  }

  lemma ClearTableSlots(sb: Super, v: Vol, v': Vol, i: nat, s: Slot)
    requires Owned(sb, v) && i < sb.ninodes && Shaped(sb, v') && InRange(sb, s)
    requires v'.ino == v.ino[i := v.ino[i].(addrs := v.ino[i].addrs[NDIRECT := 0])]
    requires forall x: nat :: x < sb.size && (x < sb.bmapstart || x >= sb.datastart) ==> v'.blk[x] == v.blk[x]
    ensures At(sb, v', s) == if s in TableSlots(i) then 0 else At(sb, v, s)
  {
    if s.Entry? && s.i != i && v.ino[s.i].addrs[NDIRECT] != 0 {
      assert At(sb, v, Table(s.i)) == v.ino[s.i].addrs[NDIRECT];
      OwnedBlock(sb, v, Table(s.i));
    }
  }

  /** All entries and then the table itself freed, and its address cleared. */
  lemma ClearTable(sb: Super, v: Vol, blk: seq<Block>, i: nat)
    requires Owned(sb, v) && i < sb.ninodes && FreedEntries(sb, v, blk, i, NINDIRECT)
    ensures var t := v.ino[i].addrs[NDIRECT];
            && sb.datastart <= t < sb.size && Used(sb, blk, t)
            && Unmaps(sb, v, Vol(FreeBlk(sb, blk, t), v.ino[i := v.ino[i].(addrs := v.ino[i].addrs[NDIRECT := 0])]),
               TableSlots(i))
  {
    var t: nat := v.ino[i].addrs[NDIRECT];
    TableStillUsed(sb, v, blk, i);
    var v' := Vol(FreeBlk(sb, blk, t), v.ino[i := v.ino[i].(addrs := v.ino[i].addrs[NDIRECT := 0])]);
    forall c: nat | c < sb.size
      ensures HeldIn(sb, v, TableSlots(i), c) <==> c == t || InTable(v.blk[t], NINDIRECT, c)
    {
      TableHolds(sb, v, i, c);
    }
    forall s | InRange(sb, s)
      ensures At(sb, v', s) == if s in TableSlots(i) then 0 else At(sb, v, s)
    {
      ClearTableSlots(sb, v, v', i, s);
    }
  }

  lemma TableHolds(sb: Super, v: Vol, i: nat, c: nat)
    requires Shaped(sb, v) && i < sb.ninodes && 0 < v.ino[i].addrs[NDIRECT] < sb.size && c < sb.size
    ensures var t := v.ino[i].addrs[NDIRECT];
            HeldIn(sb, v, TableSlots(i), c) <==> c == t || InTable(v.blk[t], NINDIRECT, c)
  {
    var t: nat := v.ino[i].addrs[NDIRECT];
    if c == t {
      assert Table(i) in TableSlots(i) && InRange(sb, Table(i)) && At(sb, v, Table(i)) == c;
    }
    if InTable(v.blk[t], NINDIRECT, c) {
      var j: nat :| j < NINDIRECT && GetWord(v.blk[t], j) == c;
      assert Entry(i, j) in TableSlots(i) && InRange(sb, Entry(i, j)) && At(sb, v, Entry(i, j)) == c;
    }
    if HeldIn(sb, v, TableSlots(i), c) {
      var s :| s in TableSlots(i) && InRange(sb, s) && At(sb, v, s) == c;
    }
  }

  lemma UnmapsEmpty(sb: Super, v: Vol, gone: set<Slot>)
    requires Shaped(sb, v) && forall s :: s in gone && InRange(sb, s) ==> At(sb, v, s) == 0
    ensures Unmaps(sb, v, v, gone)
  {
  }

  function DirectSlots(i: nat, n: nat): set<Slot> {
    set k: nat | k < n :: Direct(i, k)
  }

  lemma DirectSlotsNext(i: nat, n: nat)
    ensures DirectSlots(i, n + 1) == DirectSlots(i, n) + {Direct(i, n)}
    ensures DirectSlots(i, n) !! {Direct(i, n)}
  {
  }

  /** Every slot of inode i. */
  function AllSlots(i: nat): set<Slot> {
    DirectSlots(i, NDIRECT) + TableSlots(i)
  }

  /** What itrunc promises: the file is empty; exactly the blocks it owned are free; nothing else in
      memory or on the disk has changed, and the inode on the disk agrees with the one in memory. The
      file has no holes now, and neither has any other that had none. */
  ghost predicate Truncated(sb: Super, v: Vol, v': Vol, i: nat) {
    && i < sb.ninodes && Owned(sb, v) && Owned(sb, v')
    && v'.ino[i] == v.ino[i].(size := 0, addrs := v'.ino[i].addrs)
       && (forall k :: 0 <= k <= NDIRECT ==> v'.ino[i].addrs[k] == 0)
    && DiskInode(sb, v'.blk, i) == v'.ino[i]
    && (forall c: nat :: c < sb.size ==> Used(sb, v'.blk, c) == (Used(sb, v.blk, c) && !HeldIn(sb, v, AllSlots(i), c)))
    && (forall j :: 0 <= j < sb.ninodes && j != i ==>
         v'.ino[j] == v.ino[j] && DiskInode(sb, v'.blk, j) == DiskInode(sb, v.blk, j))
    && (forall j, k :: 0 <= j < sb.ninodes && j != i && 0 <= k < MAXFILE * BSIZE ==>
         FileByte(sb, v', j, k) == FileByte(sb, v, j, k))
    && OtherSlots(sb, v, v', i)
    && NoHoles(sb, v', i) && (forall j: nat :: j < sb.ninodes && NoHoles(sb, v, j) ==> NoHoles(sb, v', j))
  }

  lemma TruncatedIs(sb: Super, v: Vol, v1: Vol, v': Vol, i: nat)
    requires Owned(sb, v) && i < sb.ninodes && Unmaps(sb, v, v1, AllSlots(i))
    requires v1.ino == v.ino[i := v.ino[i].(addrs := v1.ino[i].addrs)]
    requires v'.ino == v1.ino[i := v1.ino[i].(size := 0)] && v'.blk == UpdateBlk(sb, v1.blk, i, v'.ino[i])
    ensures Truncated(sb, v, v', i)
  {
    UnmapsOwned(sb, v, v1, AllSlots(i));
    TruncatedBytes(sb, v, v1, i);
    ResizeTo0(sb, v1, v', i);
    TruncatedSlots(sb, v, v1, v', i);
    assert forall k :: 0 <= k < NDIRECT ==>
             Direct(i, k) in AllSlots(i) && At(sb, v1, Direct(i, k)) == v1.ino[i].addrs[k];
    assert Table(i) in AllSlots(i) && At(sb, v1, Table(i)) == v1.ino[i].addrs[NDIRECT];
  }

  lemma TruncatedSlots(sb: Super, v: Vol, v1: Vol, v': Vol, i: nat)
    requires Shaped(sb, v) && i < sb.ninodes && Unmaps(sb, v, v1, AllSlots(i)) && Shaped(sb, v')
    requires forall s :: InRange(sb, s) ==> At(sb, v', s) == At(sb, v1, s)
    requires v'.ino[i].size == 0 && forall j :: 0 <= j < sb.ninodes && j != i ==> v'.ino[j] == v.ino[j]
    ensures OtherSlots(sb, v, v', i) && NoHoles(sb, v', i)
    ensures forall j: nat :: j < sb.ninodes && NoHoles(sb, v, j) ==> NoHoles(sb, v', j)
  {
    assert forall s :: s in AllSlots(i) ==> s.i == i;
    forall bn: nat | bn < MAXFILE
      ensures BlockOf(sb, v', i, bn) == 0
    {
      assert InRange(sb, SlotOf(i, bn)) && SlotOf(i, bn) in AllSlots(i);
    }
    assert InRange(sb, Table(i)) && Table(i) in AllSlots(i);
    forall j: nat | j < sb.ninodes && j != i
      ensures NoHoles(sb, v, j) ==> NoHoles(sb, v', j)
    {
      OtherNoHoles(sb, v, v', i, j);
    }
  }

  lemma TruncatedBytes(sb: Super, v: Vol, v1: Vol, i: nat)
    requires Owned(sb, v) && i < sb.ninodes && Unmaps(sb, v, v1, AllSlots(i))
    ensures forall j, k :: 0 <= j < sb.ninodes && j != i && 0 <= k < MAXFILE * BSIZE ==>
              FileByte(sb, v1, j, k) == FileByte(sb, v, j, k)
    ensures SameDiskInodes(sb, v, v1)
  {
    forall j, k | 0 <= j < sb.ninodes && j != i && 0 <= k < MAXFILE * BSIZE
      ensures FileByte(sb, v1, j, k) == FileByte(sb, v, j, k)
    {
      UnmapsBytes(sb, v, v1, AllSlots(i), j);
    }
    SameInodeBlocks(sb, v, v1);
  }

  lemma ResizeTo0(sb: Super, v: Vol, v': Vol, i: nat)
    requires Owned(sb, v) && i < sb.ninodes
    requires v'.ino == v.ino[i := v.ino[i].(size := 0)] && v'.blk == UpdateBlk(sb, v.blk, i, v'.ino[i])
    ensures Owned(sb, v') && SameBytes(sb, v, v')
    ensures forall c: nat :: c < sb.size ==> Used(sb, v'.blk, c) == Used(sb, v.blk, c)
    ensures forall s :: InRange(sb, s) ==> At(sb, v', s) == At(sb, v, s)
  {
    assert sb.inodestart <= IBlock(sb, i) < sb.bmapstart;
    ResizeKeeps(sb, v, v', i);
  }
}
