/** Mapping a new block into a file: ownership stays exclusive and no byte of any file changes. */
module FsMap {
  import opened Params
  import opened Blocks
  import opened FsLayout
  import opened FsState

  /** Block b, free in v, has been put into the empty slot s0, and every other slot is as before. */
  ghost predicate Maps(sb: Super, v: Vol, v': Vol, s0: Slot, b: nat) {
    && Shaped(sb, v) && Shaped(sb, v') && InRange(sb, s0)
    && sb.datastart <= b < sb.size && !Used(sb, v.blk, b)
    && (forall c: nat :: c < sb.size ==> Used(sb, v'.blk, c) == (Used(sb, v.blk, c) || c == b))
    && At(sb, v, s0) == 0 && At(sb, v', s0) == b
    && (forall s :: InRange(sb, s) && s != s0 ==> At(sb, v', s) == At(sb, v, s))
  }

  lemma MapsOwned(sb: Super, v: Vol, v': Vol, s0: Slot, b: nat)
    requires Owned(sb, v) && Maps(sb, v, v', s0, b)
    ensures Owned(sb, v')
  {
    forall s | InRange(sb, s)
      ensures SlotOk(sb, v', s)
      ensures s != s0 ==> At(sb, v', s) != b
    {
      assert SlotOk(sb, v, s);
    }
  }

  /** A block owned through some slot is a data block in use, and a block of the bitmap is not. */
  lemma OwnedBlock(sb: Super, v: Vol, s: Slot)
    requires Owned(sb, v) && InRange(sb, s) && At(sb, v, s) != 0
    ensures sb.datastart <= At(sb, v, s) < sb.size && Used(sb, v.blk, At(sb, v, s))
    ensures forall b: nat :: b < sb.size ==> BBlock(sb, b) != At(sb, v, s)
    ensures forall i: nat :: i < sb.ninodes ==> IBlock(sb, i) != At(sb, v, s)
  {
    assert SlotOk(sb, v, s);
  }

  /** Block b allocated and stored as address k of inode i; k == NDIRECT is the indirect table. */
  function SetAddr(sb: Super, v: Vol, i: nat, k: nat, b: Word): Vol
    requires Shaped(sb, v) && i < sb.ninodes && k <= NDIRECT && sb.datastart <= b < sb.size
  {
    Vol(AllocBlk(sb, v.blk, b), v.ino[i := v.ino[i].(addrs := v.ino[i].addrs[k := b])])
  }

  lemma ZeroWords(j: nat)
    requires j < WORDS
    ensures GetWord(ZeroBlock(), j) == 0
  {
  }

  lemma SetAddrMaps(sb: Super, v: Vol, i: nat, k: nat, b: Word)
    requires Owned(sb, v) && i < sb.ninodes && k <= NDIRECT && sb.datastart <= b < sb.size
    requires !Used(sb, v.blk, b) && v.ino[i].addrs[k] == 0
    ensures Maps(sb, v, SetAddr(sb, v, i, k, b), AddrSlot(i, k), b)
  {
    var v' := SetAddr(sb, v, i, k, b);
    var s0 := AddrSlot(i, k);
    forall s | InRange(sb, s) && s != s0
      ensures At(sb, v', s) == At(sb, v, s)
    {
      if s.Entry? {
        var t := v.ino[s.i].addrs[NDIRECT];
        if t != 0 {
          assert At(sb, v, Table(s.i)) == t;
          OwnedBlock(sb, v, Table(s.i));
          assert v'.blk[t] == v.blk[t];
        } else if s0 == Table(s.i) {
          ZeroWords(s.j);
        }
      }
    }
  }

  /** Block b allocated and stored in entry j of the indirect table of inode i. */
  function SetEntry(sb: Super, v: Vol, i: nat, j: nat, b: Word): Vol
    requires Shaped(sb, v) && i < sb.ninodes && j < NINDIRECT && sb.datastart <= b < sb.size
    requires v.ino[i].addrs[NDIRECT] < sb.size
  {
    var t, blk := v.ino[i].addrs[NDIRECT], AllocBlk(sb, v.blk, b);
    Vol(blk[t := PutWord(blk[t], j, b)], v.ino)
  }

  /** Setting an entry of inode i's table leaves every other slot as it is. */
  lemma SetEntrySlot(sb: Super, v: Vol, v': Vol, i: nat, j: nat, b: Word, t: nat, s: Slot)
    requires Owned(sb, v) && i < sb.ninodes && j < NINDIRECT && sb.datastart <= b < sb.size && !Used(sb, v.blk, b)
    requires 0 < t == v.ino[i].addrs[NDIRECT] < sb.size && v'.ino == v.ino && |v'.blk| == sb.size
    requires v'.blk[t] == PutWord(v.blk[t], j, b)
    requires forall x: nat :: x < sb.size && x != b && x != BBlock(sb, b) && x != t ==> v'.blk[x] == v.blk[x]
    requires InRange(sb, s) && s != Entry(i, j)
    ensures At(sb, v', s) == At(sb, v, s)
  {
    if s.Entry? && v.ino[s.i].addrs[NDIRECT] != 0 {
      var u := v.ino[s.i].addrs[NDIRECT];
      assert At(sb, v, Table(s.i)) == u && At(sb, v, Table(i)) == t;
      OwnedBlock(sb, v, Table(s.i));
      if s.i != i {
        assert Table(s.i) != Table(i);
        assert v'.blk[u] == v.blk[u];
      }
    }
  }

  lemma SetEntryMaps(sb: Super, v: Vol, i: nat, j: nat, b: Word)
    requires Owned(sb, v) && i < sb.ninodes && j < NINDIRECT && sb.datastart <= b < sb.size
    requires !Used(sb, v.blk, b) && 0 < v.ino[i].addrs[NDIRECT] < sb.size && At(sb, v, Entry(i, j)) == 0
    ensures Maps(sb, v, SetEntry(sb, v, i, j, b), Entry(i, j), b)
    ensures forall x: nat :: x < sb.size && x != b && x != BBlock(sb, b) && x != v.ino[i].addrs[NDIRECT] ==>
              SetEntry(sb, v, i, j, b).blk[x] == v.blk[x]
    ensures SetEntry(sb, v, i, j, b).blk[b] == ZeroBlock()
  {
    var v' := SetEntry(sb, v, i, j, b);
    var t := v.ino[i].addrs[NDIRECT];
    assert At(sb, v, Table(i)) == t;
    OwnedBlock(sb, v, Table(i));
    var blk1 := AllocBlk(sb, v.blk, b);
    SameMeta(sb, blk1, v'.blk);
    assert blk1[t] == v.blk[t];
    forall s | InRange(sb, s) && s != Entry(i, j)
      ensures At(sb, v', s) == At(sb, v, s)
    {
      SetEntrySlot(sb, v, v', i, j, b, t, s);
    }
  }

  // ---------- What mapping keeps ----------

  predicate HoldsData(s: Slot) {
    s.Direct? || s.Entry?
  }

  /** Mapping a zeroed block, without touching blocks that hold file data, changes no byte. */
  lemma MapsBytes(sb: Super, v: Vol, v': Vol, s0: Slot, b: nat)
    requires Owned(sb, v) && Maps(sb, v, v', s0, b) && v'.blk[b] == ZeroBlock()
    requires forall s :: InRange(sb, s) && HoldsData(s) && At(sb, v, s) != 0 && At(sb, v, s) < sb.size ==>
               v'.blk[At(sb, v, s)] == v.blk[At(sb, v, s)]
    ensures forall i, k :: 0 <= i < sb.ninodes && 0 <= k < MAXFILE * BSIZE ==>
              FileByte(sb, v', i, k) == FileByte(sb, v, i, k)
  {
    forall i, k | 0 <= i < sb.ninodes && 0 <= k < MAXFILE * BSIZE
      ensures FileByte(sb, v', i, k) == FileByte(sb, v, i, k)
    {
      var s := SlotOf(i, k / BSIZE);
      assert InRange(sb, s) && HoldsData(s);
      assert SlotOk(sb, v, s);
    }
  }

  ghost predicate SameBytes(sb: Super, v: Vol, v': Vol)
    requires Shaped(sb, v) && Shaped(sb, v')
  {
    forall i, k :: 0 <= i < sb.ninodes && 0 <= k < MAXFILE * BSIZE ==> FileByte(sb, v', i, k) == FileByte(sb, v, i, k)
  }

  ghost predicate SameDiskInodes(sb: Super, v: Vol, v': Vol)
    requires Shaped(sb, v) && Shaped(sb, v')
  {
    forall i: nat :: i < sb.ninodes ==> DiskInode(sb, v'.blk, i) == DiskInode(sb, v.blk, i)
  }

  /** Blocks from the bitmap on hold no inode. */
  lemma SameInodeBlocks(sb: Super, v: Vol, v': Vol)
    requires Shaped(sb, v) && Shaped(sb, v')
    requires forall x: nat :: x < sb.bmapstart ==> v'.blk[x] == v.blk[x]
    ensures SameDiskInodes(sb, v, v')
  {
    forall i: nat | i < sb.ninodes
      ensures DiskInode(sb, v'.blk, i) == DiskInode(sb, v.blk, i)
    {
      assert IBlock(sb, i) < sb.bmapstart;
    }
  }

  lemma SetAddrData(sb: Super, v: Vol, i: nat, k: nat, b: Word, s: Slot)
    requires Owned(sb, v) && i < sb.ninodes && k <= NDIRECT && sb.datastart <= b < sb.size && !Used(sb, v.blk, b)
    requires InRange(sb, s) && At(sb, v, s) != 0
    ensures At(sb, v, s) < sb.size && SetAddr(sb, v, i, k, b).blk[At(sb, v, s)] == v.blk[At(sb, v, s)]
  {
    OwnedBlock(sb, v, s);
  }

  lemma SetAddrKeeps(sb: Super, v: Vol, i: nat, k: nat, b: Word)
    requires Owned(sb, v) && i < sb.ninodes && k <= NDIRECT && sb.datastart <= b < sb.size
    requires !Used(sb, v.blk, b) && v.ino[i].addrs[k] == 0
    ensures Owned(sb, SetAddr(sb, v, i, k, b))
    ensures SameBytes(sb, v, SetAddr(sb, v, i, k, b))
    ensures SameDiskInodes(sb, v, SetAddr(sb, v, i, k, b))
  {
    var v' := SetAddr(sb, v, i, k, b);
    var s0 := AddrSlot(i, k);
    SetAddrMaps(sb, v, i, k, b);
    MapsOwned(sb, v, v', s0, b);
    forall s | InRange(sb, s) && HoldsData(s) && At(sb, v, s) != 0 && At(sb, v, s) < sb.size
      ensures v'.blk[At(sb, v, s)] == v.blk[At(sb, v, s)]
    {
      SetAddrData(sb, v, i, k, b, s);
    }
    MapsBytes(sb, v, v', s0, b);
    SameInodeBlocks(sb, v, v');
  }

  lemma SetEntryData(sb: Super, v: Vol, i: nat, j: nat, b: Word, s: Slot)
    requires Owned(sb, v) && i < sb.ninodes && j < NINDIRECT && sb.datastart <= b < sb.size && !Used(sb, v.blk, b)
    requires 0 < v.ino[i].addrs[NDIRECT] < sb.size
    requires InRange(sb, s) && HoldsData(s) && At(sb, v, s) != 0
    ensures At(sb, v, s) < sb.size && SetEntry(sb, v, i, j, b).blk[At(sb, v, s)] == v.blk[At(sb, v, s)]
  {
    OwnedBlock(sb, v, s);
    assert At(sb, v, Table(i)) == v.ino[i].addrs[NDIRECT];
    assert s != Table(i);
  }

  lemma SetEntryKeeps(sb: Super, v: Vol, i: nat, j: nat, b: Word)
    requires Owned(sb, v) && i < sb.ninodes && j < NINDIRECT && sb.datastart <= b < sb.size
    requires !Used(sb, v.blk, b) && 0 < v.ino[i].addrs[NDIRECT] < sb.size && At(sb, v, Entry(i, j)) == 0
    ensures Owned(sb, SetEntry(sb, v, i, j, b))
    ensures SameBytes(sb, v, SetEntry(sb, v, i, j, b))
    ensures SameDiskInodes(sb, v, SetEntry(sb, v, i, j, b))
  {
    var v' := SetEntry(sb, v, i, j, b);
    SetEntryMaps(sb, v, i, j, b);
    MapsOwned(sb, v, v', Entry(i, j), b);
    forall s | InRange(sb, s) && HoldsData(s) && At(sb, v, s) != 0 && At(sb, v, s) < sb.size
      ensures v'.blk[At(sb, v, s)] == v.blk[At(sb, v, s)]
    {
      SetEntryData(sb, v, i, j, b, s);
    }
    MapsBytes(sb, v, v', Entry(i, j), b);
    assert At(sb, v, Table(i)) == v.ino[i].addrs[NDIRECT];
    OwnedBlock(sb, v, Table(i));
    SameInodeBlocks(sb, v, v');
  }

  /** What mapping blocks of file i may do: fill empty slots among `slots`, and nothing a reader of any
      file, or of the inodes on the disk, could see. */
  ghost predicate Grows(sb: Super, v: Vol, v': Vol, i: nat, slots: set<Slot>) {
    && i < sb.ninodes && Owned(sb, v) && Owned(sb, v')
    && SameBytes(sb, v, v') && SameDiskInodes(sb, v, v')
    && (forall j :: 0 <= j < sb.ninodes && j != i ==> v'.ino[j] == v.ino[j])
    && v'.ino[i] == v.ino[i].(addrs := v'.ino[i].addrs)
    && (forall s :: InRange(sb, s) && (s !in slots || At(sb, v, s) != 0) ==> At(sb, v', s) == At(sb, v, s))
  }

  lemma GrowsNot(sb: Super, v: Vol, i: nat, slots: set<Slot>)
    requires i < sb.ninodes && Owned(sb, v)
    ensures Grows(sb, v, v, i, slots)
  {
  }

  lemma GrowsTwice(sb: Super, v: Vol, v1: Vol, v2: Vol, i: nat, s1: set<Slot>, s2: set<Slot>)
    requires Grows(sb, v, v1, i, s1) && Grows(sb, v1, v2, i, s2)
    ensures Grows(sb, v, v2, i, s1 + s2)
  {
    forall s | InRange(sb, s) && (s !in s1 + s2 || At(sb, v, s) != 0)
      ensures At(sb, v2, s) == At(sb, v, s)
    {
      assert At(sb, v1, s) == At(sb, v, s);
    }
  }

  lemma SetAddrGrows(sb: Super, v: Vol, i: nat, k: nat, b: Word)
    requires Owned(sb, v) && i < sb.ninodes && k <= NDIRECT && sb.datastart <= b < sb.size
    requires !Used(sb, v.blk, b) && v.ino[i].addrs[k] == 0
    ensures Grows(sb, v, SetAddr(sb, v, i, k, b), i, {AddrSlot(i, k)})
  {
    SetAddrMaps(sb, v, i, k, b);
    SetAddrKeeps(sb, v, i, k, b);
  }

  lemma SetEntryGrows(sb: Super, v: Vol, i: nat, j: nat, b: Word)
    requires Owned(sb, v) && i < sb.ninodes && j < NINDIRECT && sb.datastart <= b < sb.size
    requires !Used(sb, v.blk, b) && 0 < v.ino[i].addrs[NDIRECT] < sb.size && At(sb, v, Entry(i, j)) == 0
    ensures Grows(sb, v, SetEntry(sb, v, i, j, b), i, {Entry(i, j)})
    ensures At(sb, SetEntry(sb, v, i, j, b), Entry(i, j)) == b
  {
    SetEntryMaps(sb, v, i, j, b);
    SetEntryKeeps(sb, v, i, j, b);
  }

  /** The slot of address k of inode i; the last one is the table's. */
  function AddrSlot(i: nat, k: nat): Slot {
    if k < NDIRECT then Direct(i, k) else Table(i)
  }

  /** The slots bmap of block bn may fill. */
  function BmapSlots(i: nat, bn: nat): set<Slot> {
    if bn < NDIRECT then {Direct(i, bn)} else {Table(i), Entry(i, bn - NDIRECT)}
  }

  /** The block of an inode's indirect table, if it has one. */
  function TableBlock(ip: Inode): set<nat> {
    if ip.addrs[NDIRECT] == 0 then {} else {ip.addrs[NDIRECT]}
  }
}
