/** Writing into a mapped block, and what a run of such writes amounts to. */
module FsWrite {
  import opened Params
  import opened Blocks
  import opened FsLayout
  import opened FsState
  import opened FsMap

  /** The block of bn in file i overwritten with data. */
  function Poke(v: Vol, a: nat, data: Block): Vol
    requires a < |v.blk|
  {
    v.(blk := v.blk[a := data])
  }

  /** Overwriting a block of file data moves no slot. */
  lemma PokeSlots(sb: Super, v: Vol, i: nat, bn: nat, data: Block)
    requires Owned(sb, v) && i < sb.ninodes && bn < MAXFILE && BlockOf(sb, v, i, bn) != 0
    ensures BlockOf(sb, v, i, bn) < sb.size
    ensures var v' := Poke(v, BlockOf(sb, v, i, bn), data);
            && (forall s :: InRange(sb, s) ==> At(sb, v', s) == At(sb, v, s))
            && (forall c: nat :: c < sb.size ==> Used(sb, v'.blk, c) == Used(sb, v.blk, c))
            && SameDiskInodes(sb, v, v')
  {
    var s0 := SlotOf(i, bn);
    var a := BlockOf(sb, v, i, bn);
    OwnedBlock(sb, v, s0);
    var v' := Poke(v, a, data);
    SameMeta(sb, v.blk, v'.blk);
    forall s | InRange(sb, s)
      ensures At(sb, v', s) == At(sb, v, s)
    {
      if s.Entry? && v.ino[s.i].addrs[NDIRECT] != 0 {
        assert At(sb, v, Table(s.i)) == v.ino[s.i].addrs[NDIRECT];
        assert s0 != Table(s.i);
      }
    }
  }

  lemma PokeOwned(sb: Super, v: Vol, i: nat, bn: nat, data: Block)
    requires Owned(sb, v) && i < sb.ninodes && bn < MAXFILE && BlockOf(sb, v, i, bn) != 0
    ensures BlockOf(sb, v, i, bn) < sb.size
    ensures Owned(sb, Poke(v, BlockOf(sb, v, i, bn), data))
  {
    PokeSlots(sb, v, i, bn, data);
    var v' := Poke(v, BlockOf(sb, v, i, bn), data);
    forall s | InRange(sb, s)
      ensures SlotOk(sb, v', s)
    {
      assert SlotOk(sb, v, s);
    }
  }

  /** It changes exactly the bytes of that block of that file. */
  lemma PokeBytes(sb: Super, v: Vol, i: nat, bn: nat, data: Block)
    requires Owned(sb, v) && i < sb.ninodes && bn < MAXFILE && BlockOf(sb, v, i, bn) != 0
    ensures BlockOf(sb, v, i, bn) < sb.size
    ensures var v' := Poke(v, BlockOf(sb, v, i, bn), data);
            forall j, k :: 0 <= j < sb.ninodes && 0 <= k < MAXFILE * BSIZE ==>
              FileByte(sb, v', j, k) == if j == i && k / BSIZE == bn then data[k % BSIZE] else FileByte(sb, v, j, k)
  {
    PokeSlots(sb, v, i, bn, data);
    var a := BlockOf(sb, v, i, bn);
    var v' := Poke(v, a, data);
    forall j, k | 0 <= j < sb.ninodes && 0 <= k < MAXFILE * BSIZE
      ensures FileByte(sb, v', j, k) == if j == i && k / BSIZE == bn then data[k % BSIZE] else FileByte(sb, v, j, k)
    {
      var s := SlotOf(j, k / BSIZE);
      assert InRange(sb, s);
      assert At(sb, v', s) == At(sb, v, s);
      if !(j == i && k / BSIZE == bn) {
        assert s != SlotOf(i, bn);
      }
    }
  }

  // ---------- A run of writes ----------

  /** v is v0 with src[..tot] written at offset off of file i, and perhaps more blocks mapped. */
  ghost predicate Written(sb: Super, v0: Vol, v: Vol, i: nat, off: nat, src: seq<Byte>, tot: nat) {
    && i < sb.ninodes && tot <= |src| && Owned(sb, v0) && Owned(sb, v) && SameDiskInodes(sb, v0, v)
    && (forall j :: 0 <= j < sb.ninodes && j != i ==> v.ino[j] == v0.ino[j])
    && v.ino[i] == v0.ino[i].(addrs := v.ino[i].addrs)
    && (forall s :: InRange(sb, s) && (s.i != i || At(sb, v0, s) != 0) ==> At(sb, v, s) == At(sb, v0, s))
    && (forall j, k :: 0 <= j < sb.ninodes && 0 <= k < MAXFILE * BSIZE ==>
          FileByte(sb, v, j, k) == if j == i && off <= k < off + tot then src[k - off] else FileByte(sb, v0, j, k))
  }

  lemma WrittenNothing(sb: Super, v: Vol, i: nat, off: nat, src: seq<Byte>)
    requires Owned(sb, v) && i < sb.ninodes
    ensures Written(sb, v, v, i, off, src, 0)
  {
  }

  /** Mapping more blocks writes nothing. */
  lemma WrittenGrows(sb: Super, v0: Vol, v1: Vol, v2: Vol, i: nat, off: nat, src: seq<Byte>, tot: nat, slots: set<Slot>)
    requires Written(sb, v0, v1, i, off, src, tot) && Grows(sb, v1, v2, i, slots) && forall s :: s in slots ==> s.i == i
    ensures Written(sb, v0, v2, i, off, src, tot)
  {
    forall s | InRange(sb, s) && (s.i != i || At(sb, v0, s) != 0)
      ensures At(sb, v2, s) == At(sb, v0, s)
    {
      assert At(sb, v1, s) == At(sb, v0, s);
    }
  }

  /** memmove(bp->data + o, src, |piece|). */
  function Splice(b: Block, o: nat, piece: seq<Byte>): (b': Block)
    requires o + |piece| <= BSIZE
    ensures forall k :: 0 <= k < BSIZE ==> b'[k] == if o <= k < o + |piece| then piece[k - o] else b[k]
  {
    b[..o] + piece + b[o + |piece|..]
  }

  /** The next bytes, up to src[..end], go into one block. */
  lemma WrittenMore(sb: Super, v0: Vol, v: Vol, i: nat, off: nat, src: seq<Byte>, tot: nat, end: nat)
    requires Written(sb, v0, v, i, off, src, tot) && tot < end <= |src| && off + |src| <= MAXFILE * BSIZE
    requires end - tot <= BSIZE - (off + tot) % BSIZE && BlockOf(sb, v, i, (off + tot) / BSIZE) != 0
    ensures BlockOf(sb, v, i, (off + tot) / BSIZE) < sb.size
    ensures var a := BlockOf(sb, v, i, (off + tot) / BSIZE);
            Written(sb, v0, Poke(v, a, Splice(v.blk[a], (off + tot) % BSIZE, src[tot..end])), i, off, src, end)
  {
    var bn, o := (off + tot) / BSIZE, (off + tot) % BSIZE;
    var a := BlockOf(sb, v, i, bn);
    OwnedBlock(sb, v, SlotOf(i, bn));
    var data := Splice(v.blk[a], o, src[tot..end]);
    PokeSlots(sb, v, i, bn, data);
    PokeOwned(sb, v, i, bn, data);
    PokeBytes(sb, v, i, bn, data);
    var v' := Poke(v, a, data);
    forall j, k | 0 <= j < sb.ninodes && 0 <= k < MAXFILE * BSIZE
      ensures FileByte(sb, v', j, k) == if j == i && off <= k < off + end then src[k - off] else FileByte(sb, v0, j, k)
    {
      WrittenByte(off + tot, end - tot, k);
      if j == i && k / BSIZE == bn {
        assert FileByte(sb, v, j, k) == v.blk[a][k % BSIZE];
      }
    }
  }

  /** Offsets within one block. */
  lemma WrittenByte(at: nat, m: nat, k: nat)
    requires m <= BSIZE - at % BSIZE
    ensures k / BSIZE == at / BSIZE ==> (at % BSIZE <= k % BSIZE < at % BSIZE + m <==> at <= k < at + m)
                                        && k % BSIZE - at % BSIZE == k - at
    ensures k / BSIZE != at / BSIZE ==> !(at <= k < at + m)
  {
  }

  // ---------- Files without holes ----------

  /** Exactly the first n blocks of file i are mapped, and the table exactly if one of them needs it. */
  ghost predicate MappedExactly(sb: Super, v: Vol, i: nat, n: nat)
    requires Shaped(sb, v) && i < sb.ninodes
  {
    && (forall bn: nat :: bn < MAXFILE ==> (BlockOf(sb, v, i, bn) != 0 <==> bn < n))
    && (At(sb, v, Table(i)) != 0 <==> n > NDIRECT)
  }

  /** The number of blocks x bytes need. */
  function BlocksFor(x: nat): nat {
    (x + BSIZE - 1) / BSIZE
  }

  ghost predicate NoHoles(sb: Super, v: Vol, i: nat)
    requires Shaped(sb, v) && i < sb.ninodes
  {
    MappedExactly(sb, v, i, BlocksFor(v.ino[i].size))
  }

  /** The slots of every inode but i hold what they held. */
  ghost predicate OtherSlots(sb: Super, v: Vol, v': Vol, i: nat)
    requires Shaped(sb, v) && Shaped(sb, v')
  {
    forall s :: InRange(sb, s) && s.i != i ==> At(sb, v', s) == At(sb, v, s)
  }

  lemma OtherNoHoles(sb: Super, v: Vol, v': Vol, i: nat, j: nat)
    requires Shaped(sb, v) && Shaped(sb, v') && OtherSlots(sb, v, v', i)
    requires j < sb.ninodes && j != i && v'.ino[j].size == v.ino[j].size
    ensures NoHoles(sb, v', j) <==> NoHoles(sb, v, j)
  {
    forall bn: nat | bn < MAXFILE
      ensures BlockOf(sb, v', j, bn) == BlockOf(sb, v, j, bn)
    {
      assert InRange(sb, SlotOf(j, bn));
    }
    assert InRange(sb, Table(j));
  }

  function Max(a: nat, b: nat): nat {
    if a < b then b else a
  }

  /** Mapping the next block, or one that is mapped already, leaves no hole. */
  lemma BmapExact(sb: Super, v: Vol, v': Vol, i: nat, bn: nat, n: nat)
    requires i < sb.ninodes && bn < MAXFILE && bn <= n && Owned(sb, v) && MappedExactly(sb, v, i, n)
    requires Grows(sb, v, v', i, BmapSlots(i, bn)) && BlockOf(sb, v', i, bn) != 0
    requires bn >= NDIRECT ==> v'.ino[i].addrs[NDIRECT] != 0
    ensures MappedExactly(sb, v', i, Max(n, bn + 1))
  {
    forall k: nat | k < MAXFILE
      ensures BlockOf(sb, v', i, k) != 0 <==> k < Max(n, bn + 1)
    {
      var s := SlotOf(i, k);
      assert InRange(sb, s);
      if k != bn {
        assert s !in BmapSlots(i, bn);
        assert At(sb, v', s) == At(sb, v, s);
        assert BlockOf(sb, v, i, k) != 0 <==> k < n;
      }
    }
    assert InRange(sb, Table(i));
  }

  lemma PokeExact(sb: Super, v: Vol, i: nat, bn: nat, data: Block, n: nat)
    requires Owned(sb, v) && i < sb.ninodes && bn < MAXFILE && BlockOf(sb, v, i, bn) != 0 && MappedExactly(sb, v, i, n)
    ensures BlockOf(sb, v, i, bn) < sb.size
    ensures MappedExactly(sb, Poke(v, BlockOf(sb, v, i, bn), data), i, n)
  {
    PokeSlots(sb, v, i, bn, data);
    var v' := Poke(v, BlockOf(sb, v, i, bn), data);
    forall k: nat | k < MAXFILE
      ensures BlockOf(sb, v', i, k) == BlockOf(sb, v, i, k)
    {
      assert InRange(sb, SlotOf(i, k));
    }
    assert InRange(sb, Table(i));
  }

  function Count(b: bool): nat {
    if b then 1 else 0
  }

  /** Where the next piece ends: after min(n - tot, BSIZE - off % BSIZE) bytes, off moved on by tot. */
  method PieceEnd(off: nat, tot: nat, n: nat) returns (end: nat)
    requires tot < n
    ensures tot < end <= n && end - tot <= BSIZE - (off + tot) % BSIZE
    ensures end == n || (off + end) % BSIZE == 0
  {
    var m := if n - tot < BSIZE - (off + tot) % BSIZE then n - tot else BSIZE - (off + tot) % BSIZE;
    end := tot + m;
  }

  lemma NextBlock(off: nat, tot: nat, end: nat)
    requires 0 < end - tot <= BSIZE - (off + tot) % BSIZE && (tot == 0 || (off + tot) % BSIZE == 0)
    ensures BlocksFor(off + end) == (off + tot) / BSIZE + 1
    ensures BlocksFor(off + tot) <= (off + tot) / BSIZE + 1
    ensures (off + tot) / BSIZE <= BlocksFor(off + tot)
  {
  }

  /** Byte `at` of a file is byte o of its block bn. */
  predicate Place(at: nat, bn: nat, o: nat) {
    bn == at / BSIZE && o == at % BSIZE
  }

  /** One more block of a write: bmap takes v to mid, and the block is overwritten in mid. */
  lemma StepDone(sb: Super, v0: Vol, v: Vol, mid: Vol, v': Vol, i: nat, off: nat, src: seq<Byte>, tot: nat, end: nat,
                 bn: nat, o: nat)
    requires Written(sb, v0, v, i, off, src, tot) && tot < end <= |src| && off + |src| <= MAXFILE * BSIZE
    requires Place(off + tot, bn, o) && bn < MAXFILE && o + (end - tot) <= BSIZE
    requires Grows(sb, v, mid, i, BmapSlots(i, bn)) && 0 < BlockOf(sb, mid, i, bn) < sb.size
    requires var a := BlockOf(sb, mid, i, bn); v' == Poke(mid, a, Splice(mid.blk[a], o, src[tot..end]))
    ensures Written(sb, v0, v', i, off, src, end)
  {
    WrittenGrows(sb, v0, v, mid, i, off, src, tot, BmapSlots(i, bn));
    WrittenMore(sb, v0, mid, i, off, src, tot, end);
  }

  // ---------- The finished write ----------

  /** Contents of a file after src is written at offset off. */
  function Overwrite(s: seq<Byte>, off: nat, src: seq<Byte>): seq<Byte>
    requires off <= |s|
  {
    s[..off] + src + if off + |src| < |s| then s[off + |src|..] else []
  }

  lemma OverwriteIs(s: seq<Byte>, s': seq<Byte>, off: nat, src: seq<Byte>)
    requires off <= |s| && |s'| == Max(|s|, off + |src|)
    requires forall k :: 0 <= k < |s'| ==> s'[k] == if off <= k < off + |src| then src[k - off] else s[k]
    ensures s' == Overwrite(s, off, src)
  {
  }

  lemma WrittenContent(sb: Super, v0: Vol, v: Vol, v': Vol, i: nat, off: nat, src: seq<Byte>)
    requires Written(sb, v0, v, i, off, src, |src|) && off <= v0.ino[i].size <= MAXFILE * BSIZE
    requires off + |src| <= MAXFILE * BSIZE
    requires Shaped(sb, v') && v'.ino[i] == v.ino[i].(size := Max(v0.ino[i].size, off + |src|))
    requires SameBytes(sb, v, v')
    ensures Content(sb, v', i) == Overwrite(Content(sb, v0, i), off, src)
  {
    var c, c' := Content(sb, v0, i), Content(sb, v', i);
    forall k | 0 <= k < |c'|
      ensures c'[k] == if off <= k < off + |src| then src[k - off] else c[k]
    {
      assert c'[k] == FileByte(sb, v', i, k) == FileByte(sb, v, i, k);
    }
    OverwriteIs(c, c', off, src);
  }

  /** Changing the size of an inode in memory, or writing it to the disk, moves no slot and no byte. */
  lemma ResizeKeeps(sb: Super, v: Vol, v': Vol, i: nat)
    requires Owned(sb, v) && i < sb.ninodes && Shaped(sb, v')
    requires v'.ino == v.ino[i := v'.ino[i]] && v'.ino[i].addrs == v.ino[i].addrs
    requires forall x: nat :: x < sb.size && (x < sb.inodestart || x >= sb.bmapstart) ==> v'.blk[x] == v.blk[x]
    ensures Owned(sb, v') && SameBytes(sb, v, v')
    ensures forall s :: InRange(sb, s) ==> At(sb, v', s) == At(sb, v, s)
  {
    forall s | InRange(sb, s)
      ensures At(sb, v', s) == At(sb, v, s)
    {
      if s.Entry? && v.ino[s.i].addrs[NDIRECT] != 0 {
        assert At(sb, v, Table(s.i)) == v.ino[s.i].addrs[NDIRECT];
        OwnedBlock(sb, v, Table(s.i));
      }
    }
    ResizeOwned(sb, v, v');
    forall j, k | 0 <= j < sb.ninodes && 0 <= k < MAXFILE * BSIZE
      ensures FileByte(sb, v', j, k) == FileByte(sb, v, j, k)
    {
      var s := SlotOf(j, k / BSIZE);
      assert InRange(sb, s);
      assert SlotOk(sb, v, s);
    }
  }

  lemma ResizeOwned(sb: Super, v: Vol, v': Vol)
    requires Owned(sb, v) && Shaped(sb, v')
    requires forall x: nat :: x < sb.size && (x < sb.inodestart || x >= sb.bmapstart) ==> v'.blk[x] == v.blk[x]
    requires forall s :: InRange(sb, s) ==> At(sb, v', s) == At(sb, v, s)
    ensures Owned(sb, v')
  {
    assert forall c: nat :: c < sb.size ==> Used(sb, v'.blk, c) == Used(sb, v.blk, c);
    forall s | InRange(sb, s)
      ensures SlotOk(sb, v', s)
    {
      assert SlotOk(sb, v, s);
    }
  }

  /** If a write to a file without holes stays within its blocks, the inode in memory has not changed. */
  lemma NothingMapped(sb: Super, v0: Vol, v: Vol, i: nat, off: nat, src: seq<Byte>)
    requires Written(sb, v0, v, i, off, src, |src|)
    requires NoHoles(sb, v0, i) && MappedExactly(sb, v, i, BlocksFor(v0.ino[i].size))
    ensures v.ino[i] == v0.ino[i]
  {
    var a, a0 := v.ino[i].addrs, v0.ino[i].addrs;
    forall k | 0 <= k < |a|
      ensures a[k] == a0[k]
    {
      if k < NDIRECT {
        assert InRange(sb, Direct(i, k)) && At(sb, v0, Direct(i, k)) == a0[k] && At(sb, v, Direct(i, k)) == a[k];
        assert BlockOf(sb, v0, i, k) == a0[k] && BlockOf(sb, v, i, k) == a[k];
      } else {
        assert InRange(sb, Table(i)) && At(sb, v0, Table(i)) == a0[k] && At(sb, v, Table(i)) == a[k];
      }
    }
    assert a == a0;
  }

  /** Growing a file to where its blocks end leaves it without holes. */
  lemma ResizeExact(sb: Super, v: Vol, v': Vol, i: nat, n: nat)
    requires Shaped(sb, v) && Shaped(sb, v') && i < sb.ninodes && MappedExactly(sb, v, i, n)
    requires forall s :: InRange(sb, s) ==> At(sb, v', s) == At(sb, v, s)
    ensures MappedExactly(sb, v', i, n)
  {
    forall k: nat | k < MAXFILE
      ensures BlockOf(sb, v', i, k) == BlockOf(sb, v, i, k)
    {
      assert InRange(sb, SlotOf(i, k));
    }
    assert InRange(sb, Table(i));
  }

  /** What writei promises when it succeeds: file i holds src at offset off, longer if need be; every
      other inode, in memory and on the disk, and every block and byte of every other file is as it was. */
  ghost predicate WroteFile(sb: Super, v0: Vol, v: Vol, i: nat, off: nat, src: seq<Byte>) {
    && i < sb.ninodes && Owned(sb, v0) && Owned(sb, v) && off <= v0.ino[i].size <= MAXFILE * BSIZE
       && off + |src| <= MAXFILE * BSIZE
    && v.ino[i] == v0.ino[i].(addrs := v.ino[i].addrs, size := Max(v0.ino[i].size, off + |src|))
    && Content(sb, v, i) == Overwrite(Content(sb, v0, i), off, src)
    && (forall j :: 0 <= j < sb.ninodes && j != i ==>
         v.ino[j] == v0.ino[j] && DiskInode(sb, v.blk, j) == DiskInode(sb, v0.blk, j))
    && OtherSlots(sb, v0, v, i)
    && (forall j, k :: 0 <= j < sb.ninodes && j != i && 0 <= k < MAXFILE * BSIZE ==>
         FileByte(sb, v, j, k) == FileByte(sb, v0, j, k))
  }

  /** The end of writei: the size grows if the write went past it, and then the inode goes to the disk. */
  ghost predicate Finished(sb: Super, v: Vol, v': Vol, i: nat, end: nat) {
    && Shaped(sb, v) && i < sb.ninodes && end < UINT
    && v'.ino == v.ino[i := v.ino[i].(size := Max(v.ino[i].size, end))]
    && v'.blk == if end > v.ino[i].size then UpdateBlk(sb, v.blk, i, v'.ino[i]) else v.blk
  }

  lemma FinishedKeeps(sb: Super, v: Vol, v': Vol, i: nat, end: nat)
    requires Owned(sb, v) && Finished(sb, v, v', i, end)
    ensures Owned(sb, v') && SameBytes(sb, v, v')
    ensures forall s :: InRange(sb, s) ==> At(sb, v', s) == At(sb, v, s)
    ensures forall j: nat :: j < sb.ninodes && j != i ==> DiskInode(sb, v'.blk, j) == DiskInode(sb, v.blk, j)
    ensures forall b: nat :: b < sb.size ==> Used(sb, v'.blk, b) == Used(sb, v.blk, b)
  {
    assert sb.inodestart <= IBlock(sb, i) < sb.bmapstart;
    ResizeKeeps(sb, v, v', i);
  }

  lemma OtherBytes(sb: Super, v0: Vol, v: Vol, v': Vol, i: nat, off: nat, src: seq<Byte>)
    requires Written(sb, v0, v, i, off, src, |src|) && Shaped(sb, v') && SameBytes(sb, v, v')
    ensures forall j, k :: 0 <= j < sb.ninodes && j != i && 0 <= k < MAXFILE * BSIZE ==>
              FileByte(sb, v', j, k) == FileByte(sb, v0, j, k)
  {
    forall j: nat, k: nat | j < sb.ninodes && j != i && k < MAXFILE * BSIZE
      ensures FileByte(sb, v', j, k) == FileByte(sb, v0, j, k)
    {
      assert FileByte(sb, v', j, k) == FileByte(sb, v, j, k);
    }
  }

  lemma FinishedFile(sb: Super, v0: Vol, v: Vol, v': Vol, i: nat, off: nat, src: seq<Byte>)
    requires Written(sb, v0, v, i, off, src, |src|) && off <= v0.ino[i].size <= MAXFILE * BSIZE
    requires off + |src| <= MAXFILE * BSIZE
    requires v'.ino == v.ino[i := v.ino[i].(size := Max(v0.ino[i].size, off + |src|))] && Owned(sb, v')
    requires SameBytes(sb, v, v')
    requires forall s :: InRange(sb, s) ==> At(sb, v', s) == At(sb, v, s)
    requires forall j: nat :: j < sb.ninodes && j != i ==> DiskInode(sb, v'.blk, j) == DiskInode(sb, v.blk, j)
    ensures WroteFile(sb, v0, v', i, off, src)
  {
    WrittenContent(sb, v0, v, v', i, off, src);
    OtherBytes(sb, v0, v, v', i, off, src);
  }

  lemma FinishedWrite(sb: Super, v0: Vol, v: Vol, v': Vol, i: nat, off: nat, src: seq<Byte>, end: nat)
    requires Written(sb, v0, v, i, off, src, |src|) && off <= v0.ino[i].size <= MAXFILE * BSIZE
    requires end == off + |src| <= MAXFILE * BSIZE && Finished(sb, v, v', i, end)
    ensures WroteFile(sb, v0, v', i, off, src)
  {
    FinishedKeeps(sb, v, v', i, end);
    FinishedFile(sb, v0, v, v', i, off, src);
  }

  /** A file without holes keeps none, and its inode on the disk keeps up with the one in memory: if the
      write mapped a block it also moved the size, and then the inode was written. */
  lemma FinishedExact(sb: Super, v0: Vol, v: Vol, v': Vol, i: nat, off: nat, src: seq<Byte>, end: nat)
    requires Written(sb, v0, v, i, off, src, |src|) && NoHoles(sb, v0, i)
    requires MappedExactly(sb, v, i, Max(BlocksFor(v0.ino[i].size), BlocksFor(end)))
    requires off <= v0.ino[i].size && Finished(sb, v, v', i, end)
    ensures NoHoles(sb, v', i)
    ensures DiskInode(sb, v0.blk, i) == v0.ino[i] ==> DiskInode(sb, v'.blk, i) == v'.ino[i]
  {
    FinishedKeeps(sb, v, v', i, end);
    MaxBlocks(v0.ino[i].size, end);
    ResizeExact(sb, v, v', i, BlocksFor(Max(v0.ino[i].size, end)));
    if end <= v0.ino[i].size {
      NothingMapped(sb, v0, v, i, off, src);
    }
  }

  lemma MaxBlocks(a: nat, b: nat)
    ensures Max(BlocksFor(a), BlocksFor(b)) == BlocksFor(Max(a, b))
  {
  }

  // ---------- Reading ----------

  /** The bytes of a block from the place of offset `at` on are the file's next bytes. */
  lemma ReadPiece(sb: Super, v0: Vol, v: Vol, i: nat, at: nat, end: nat)
    requires Owned(sb, v0) && Owned(sb, v) && SameBytes(sb, v0, v) && i < sb.ninodes
    requires at <= end <= v0.ino[i].size <= MAXFILE * BSIZE && end - at <= BSIZE - at % BSIZE && at < MAXFILE * BSIZE
    requires 0 < BlockOf(sb, v, i, at / BSIZE) < sb.size
    ensures v.blk[BlockOf(sb, v, i, at / BSIZE)][at % BSIZE..at % BSIZE + (end - at)] == Content(sb, v0, i)[at..end]
  {
    var a := BlockOf(sb, v, i, at / BSIZE);
    var p, q := v.blk[a][at % BSIZE..at % BSIZE + (end - at)], Content(sb, v0, i)[at..end];
    forall k | 0 <= k < |p|
      ensures p[k] == q[k]
    {
      SameBlock(at, k);
      assert q[k] == FileByte(sb, v0, i, at + k) == FileByte(sb, v, i, at + k);
    }
  }

  lemma SameBlock(at: nat, k: nat)
    requires k < BSIZE - at % BSIZE
    ensures (at + k) / BSIZE == at / BSIZE && (at + k) % BSIZE == at % BSIZE + k
  {
  }

  /** Mapping the block of offset `at` and reading it: the file's bytes are in it. */
  lemma ReadDone(sb: Super, v0: Vol, v: Vol, v': Vol, i: nat, at: nat, end: nat, slots: set<Slot>, b: Block)
    requires Grows(sb, v0, v, i, slots) && at < end <= v0.ino[i].size <= MAXFILE * BSIZE
    requires end - at <= BSIZE - at % BSIZE
    requires Grows(sb, v, v', i, BmapSlots(i, at / BSIZE))
    requires 0 < BlockOf(sb, v', i, at / BSIZE) < sb.size && b == v'.blk[BlockOf(sb, v', i, at / BSIZE)]
    ensures Grows(sb, v0, v', i, slots + BmapSlots(i, at / BSIZE))
    ensures b[at % BSIZE..at % BSIZE + (end - at)] == Content(sb, v0, i)[at..end]
  {
    GrowsTwice(sb, v0, v, v', i, slots, BmapSlots(i, at / BSIZE));
    ReadPiece(sb, v0, v', i, at, end);
  }

  /** In a file without holes every byte below the size is in a mapped block. */
  lemma NoHoleAt(sb: Super, v: Vol, i: nat, at: nat)
    requires Shaped(sb, v) && i < sb.ninodes && NoHoles(sb, v, i) && at < v.ino[i].size <= MAXFILE * BSIZE
    ensures BlockOf(sb, v, i, at / BSIZE) != 0
  {
  }

  lemma TakeMore(c: seq<Byte>, off: nat, tot: nat, end: nat, dst: seq<Byte>, piece: seq<Byte>)
    requires off + tot <= off + end <= |c| && dst == c[off..off + tot] && piece == c[off + tot..off + end]
    ensures dst + piece == c[off..off + end]
  {
  }
}
