/** fs.c as it is coded: the block allocator, block maps and file contents. Reading a block and
    log_write stand for the buffer cache and the log, which hand back the last contents stored. */
module Fs {
  import opened Common
  import opened Params
  import opened Blocks
  import opened FsLayout
  import opened FsState
  import opened FsMap
  import opened FsWrite
  import opened FsLog
  import opened FsTrunc

  /** balloc's inner loop: the first clear bit below n of a bitmap block, or n. */
  method FindClear(bp: Block, n: nat) returns (bi: nat)
    requires n <= BPB
    ensures bi <= n
    ensures bi < n ==> !GetBit(bp, bi)
    ensures forall k: nat :: k < bi ==> GetBit(bp, k)
  {
    bi := 0;
    while bi < n
      invariant bi <= n
      invariant forall k: nat :: k < bi ==> GetBit(bp, k)
    {
      if !GetBit(bp, bi) {
        return;
      }
      bi := bi + 1;
    }
  }

  lemma NextBitmap(b: nat)
    requires b % BPB == 0
    ensures (b + BPB) % BPB == 0
  {
  }

  lemma BitBlock(sb: Super, b: nat, bi: nat)
    requires b % BPB == 0 && bi < BPB
    ensures BBlock(sb, b + bi) == BBlock(sb, b) && (b + bi) % BPB == bi
  {
  }

  const T_DEV: nat := 3

  class FileSystem {
    const sb: Super
    var blk: seq<Block>
    var ino: seq<Inode>
    /** The blocks passed to log_write since this was last emptied. */
    ghost var logged: set<nat>

    constructor (sb: Super, blk: seq<Block>, ino: seq<Inode>)
      ensures this.sb == sb && this.blk == blk && this.ino == ino && logged == {}
    {
      this.sb, this.blk, this.ino, logged := sb, blk, ino, {};
    }

    ghost function V(): Vol
      reads this
    {
      Vol(blk, ino)
    }

    /** balloc's search: the first block whose bit is clear. */
    method FindFree() returns (r: Option<nat>)
      requires Shaped(sb, V())
      ensures r.None? ==> forall b: nat :: b < sb.size ==> Used(sb, blk, b)
      ensures r.Some? ==>
                r.value < sb.size && !Used(sb, blk, r.value) && forall b: nat :: b < r.value ==> Used(sb, blk, b)
    {
      var b := 0;
      while b < sb.size
        invariant b % BPB == 0
        invariant forall c: nat :: c < b && c < sb.size ==> Used(sb, blk, c)
      {
        var n := if sb.size - b < BPB then sb.size - b else BPB;
        var bi := FindClear(blk[BBlock(sb, b)], n);
        forall c: nat | b <= c < b + bi
          ensures Used(sb, blk, c)
        {
          BitBlock(sb, b, c - b);
        }
        if bi < n {
          BitBlock(sb, b, bi);
          return Some(b + bi);
        }
        NextBitmap(b);
        b := b + BPB;
      }
      return None;
    }

    /** balloc; None is the panic "balloc: out of blocks". */
    method Balloc() returns (r: Option<nat>)
      requires Shaped(sb, V()) && forall b: nat :: b < sb.datastart ==> Used(sb, blk, b)
      modifies `blk, `logged
      ensures r.None? ==> blk == old(blk) && logged == old(logged) && forall b: nat :: b < sb.size ==> Used(sb, blk, b)
      ensures r.Some? ==>
                && sb.datastart <= r.value < sb.size && !Used(sb, old(blk), r.value)
                && (forall b: nat :: b < r.value ==> Used(sb, old(blk), b))
                && blk == AllocBlk(sb, old(blk), r.value)
                && logged == old(logged) + {BBlock(sb, r.value), r.value}
    {
      r := FindFree();
      if r.Some? {
        var b := r.value;
        blk := blk[BBlock(sb, b) := PutBit(blk[BBlock(sb, b)], b % BPB, true)];
        logged := logged + {BBlock(sb, b)};
        blk := blk[b := ZeroBlock()]; // bzero
        logged := logged + {b};
      }
    }

    /** bfree; true is the panic "freeing free block". */
    method Bfree(b: nat) returns (panicked: bool)
      requires Shaped(sb, V()) && sb.datastart <= b < sb.size
      modifies `blk, `logged
      ensures panicked <==> !Used(sb, old(blk), b)
      ensures panicked ==> blk == old(blk) && logged == old(logged)
      ensures !panicked ==> blk == FreeBlk(sb, old(blk), b) && logged == old(logged) + {BBlock(sb, b)}
    {
      var bp := blk[BBlock(sb, b)];
      if !GetBit(bp, b % BPB) {
        return true;
      }
      blk := blk[BBlock(sb, b) := PutBit(bp, b % BPB, false)];
      logged := logged + {BBlock(sb, b)};
      return false;
    }

    /** iupdate. */
    method Iupdate(i: nat)
      requires Shaped(sb, V()) && i < sb.ninodes
      modifies `blk, `logged
      ensures blk == UpdateBlk(sb, old(blk), i, ino[i]) && logged == old(logged) + {IBlock(sb, i)}
    {
      blk := blk[IBlock(sb, i) := PutInode(blk[IBlock(sb, i)], i % IPB, ino[i])];
      logged := logged + {IBlock(sb, i)};
    }

    /** The allocation of a direct block or of the indirect table in bmap. */
    method FillAddr(i: nat, k: nat) returns (r: Option<nat>, ghost filled: set<Slot>)
      requires Owned(sb, V()) && i < sb.ninodes && k <= NDIRECT && ino[i].addrs[k] == 0
      modifies `blk, `ino, `logged
      ensures Grows(sb, old(V()), V(), i, {AddrSlot(i, k)})
      ensures Takes(sb, old(V()), V(), {AddrSlot(i, k)}, filled, old(logged), logged, r.Some?)
      ensures r.Some? ==> 0 < r.value < sb.size && ino[i].addrs[k] == r.value
    {
      ghost var v, log := V(), logged;
      r := Balloc();
      if r.Some? {
        SetAddrGrows(sb, v, i, k, r.value);
        SetAddrMaps(sb, v, i, k, r.value);
        ino := ino[i := ino[i].(addrs := ino[i].addrs[k := r.value])];
        filled := {AddrSlot(i, k)};
        TakesOne(sb, v, V(), AddrSlot(i, k), r.value, log, logged);
      } else {
        GrowsNot(sb, v, i, {AddrSlot(i, k)});
        filled := {};
        TakesNone(sb, v, AddrSlot(i, k), log);
      }
    }

    /** The allocation of an entry of the indirect table in bmap. */
    method FillEntry(i: nat, j: nat) returns (r: Option<nat>, ghost filled: set<Slot>)
      requires Owned(sb, V()) && i < sb.ninodes && j < NINDIRECT && 0 < ino[i].addrs[NDIRECT] < sb.size
      requires GetWord(blk[ino[i].addrs[NDIRECT]], j) == 0
      modifies `blk, `logged
      ensures Grows(sb, old(V()), V(), i, {Entry(i, j)})
      ensures Takes(sb, old(V()), V(), {Entry(i, j)}, filled, old(logged), logged, r.Some?)
      ensures r.Some? ==> 0 < r.value < sb.size && At(sb, V(), Entry(i, j)) == r.value
    {
      ghost var v, log := V(), logged;
      var t := ino[i].addrs[NDIRECT];
      r := Balloc();
      if r.Some? {
        SetEntryGrows(sb, v, i, j, r.value);
        SetEntryMaps(sb, v, i, j, r.value);
        blk := blk[t := PutWord(blk[t], j, r.value)];
        logged := logged + {t};
        filled := {Entry(i, j)};
        TakesOne(sb, v, V(), Entry(i, j), r.value, log, logged);
      } else {
        GrowsNot(sb, v, i, {Entry(i, j)});
        filled := {};
        TakesNone(sb, v, Entry(i, j), log);
      }
    }

    /** bmap's look for a direct block or for the indirect table, allocating it if necessary. */
    method LoadAddr(i: nat, k: nat) returns (r: Option<nat>, ghost filled: set<Slot>)
      requires Owned(sb, V()) && i < sb.ninodes && k <= NDIRECT
      modifies `blk, `ino, `logged
      ensures Grows(sb, old(V()), V(), i, {AddrSlot(i, k)})
      ensures Takes(sb, old(V()), V(), {AddrSlot(i, k)}, filled, old(logged), logged, r.Some?)
      ensures r.Some? ==> 0 < r.value < sb.size && ino[i].addrs[k] == r.value
      ensures old(ino[i].addrs[k]) != 0 ==> V() == old(V()) && logged == old(logged) && r.Some?
    {
      ghost var v := V();
      var addr: nat := ino[i].addrs[k];
      if addr == 0 {
        r, filled := FillAddr(i, k);
      } else {
        GrowsNot(sb, v, i, {AddrSlot(i, k)});
        OwnedBlock(sb, v, AddrSlot(i, k));
        TakesNothing(sb, v, {AddrSlot(i, k)}, logged);
        r, filled := Some(addr), {};
      }
    }

    /** bmap's look into the indirect table, allocating the block if necessary. */
    method LoadEntry(i: nat, j: nat, t: nat) returns (r: Option<nat>, ghost filled: set<Slot>)
      requires Owned(sb, V()) && i < sb.ninodes && j < NINDIRECT && 0 < t < sb.size && ino[i].addrs[NDIRECT] == t
      modifies `blk, `logged
      ensures Grows(sb, old(V()), V(), i, {Entry(i, j)})
      ensures Takes(sb, old(V()), V(), {Entry(i, j)}, filled, old(logged), logged, r.Some?)
      ensures r.Some? ==> 0 < r.value < sb.size && At(sb, V(), Entry(i, j)) == r.value
      ensures At(sb, old(V()), Entry(i, j)) != 0 ==> V() == old(V()) && logged == old(logged) && r.Some?
    {
      ghost var v := V();
      var addr: nat := GetWord(blk[t], j);
      if addr == 0 {
        r, filled := FillEntry(i, j);
      } else {
        GrowsNot(sb, v, i, {Entry(i, j)});
        OwnedBlock(sb, v, Entry(i, j));
        TakesNothing(sb, v, {Entry(i, j)}, logged);
        r, filled := Some(addr), {};
      }
    }

    /** bmap for a block of the indirect table. */
    method BmapIndirect(i: nat, j: nat) returns (r: Option<nat>, ghost filled: set<Slot>)
      requires Owned(sb, V()) && i < sb.ninodes && j < NINDIRECT
      modifies `blk, `ino, `logged
      ensures Grows(sb, old(V()), V(), i, {Table(i), Entry(i, j)})
      ensures Takes(sb, old(V()), V(), {Table(i), Entry(i, j)}, filled, old(logged), logged, r.Some?)
      ensures r.Some? ==> 0 < r.value < sb.size && At(sb, V(), Entry(i, j)) == r.value
      ensures At(sb, old(V()), Entry(i, j)) != 0 ==> V() == old(V()) && logged == old(logged) && r.Some?
    {
      ghost var v, l0 := V(), logged;
      r, filled := LoadAddr(i, NDIRECT);
      ghost var v1, l1 := V(), logged;
      assert At(sb, v1, Entry(i, j)) == At(sb, v, Entry(i, j));
      assert {Table(i)} + {Entry(i, j)} == {Table(i), Entry(i, j)};
      if r.None? {
        GrowsNot(sb, v1, i, {Entry(i, j)});
        TakesFails(sb, v, v1, {Table(i)}, {Entry(i, j)}, filled, l0, l1);
      } else {
        ghost var more;
        r, more := LoadEntry(i, j, r.value);
        TakesTwice(sb, v, v1, V(), {Table(i)}, {Entry(i, j)}, filled, more, l0, l1, logged, r.Some?);
        filled := filled + more;
      }
      GrowsTwice(sb, v, v1, V(), i, {Table(i)}, {Entry(i, j)});
    }

    /** bmap; None is the panic of balloc, with part of the slots filled. */
    method Bmap(i: nat, bn: nat) returns (r: Option<nat>, ghost filled: set<Slot>)
      requires Owned(sb, V()) && i < sb.ninodes && bn < MAXFILE
      modifies `blk, `ino, `logged
      ensures Grows(sb, old(V()), V(), i, BmapSlots(i, bn))
      ensures Takes(sb, old(V()), V(), BmapSlots(i, bn), filled, old(logged), logged, r.Some?)
      ensures r.Some? ==> 0 < r.value < sb.size && BlockOf(sb, V(), i, bn) == r.value
      ensures BlockOf(sb, old(V()), i, bn) != 0 ==> V() == old(V()) && logged == old(logged) && r.Some?
    {
      if bn < NDIRECT {
        r, filled := LoadAddr(i, bn);
      } else {
        r, filled := BmapIndirect(i, bn - NDIRECT);
      }
    }

    /** One iteration of writei: bmap of block bn, bread, memmove to byte o, log_write. `mid` is the state
        after bmap. */
    method WriteBlock(i: nat, bn: nat, o: nat, piece: seq<Byte>)
      returns (ok: bool, ghost mid: Vol, ghost filled: set<Slot>)
      requires Owned(sb, V()) && i < sb.ninodes && bn < MAXFILE && o + |piece| <= BSIZE
      modifies `blk, `ino, `logged
      ensures Grows(sb, old(V()), mid, i, BmapSlots(i, bn)) && Fills(sb, old(V()), mid, filled)
      ensures !ok ==> mid == V() && filled < Empty(sb, old(V()), BmapSlots(i, bn)) && FreeBlocks(sb, blk) == {}
      ensures ok ==>
                && filled == Empty(sb, old(V()), BmapSlots(i, bn)) && 0 < BlockOf(sb, mid, i, bn) < sb.size
                && V() == Poke(mid, BlockOf(sb, mid, i, bn), Splice(mid.blk[BlockOf(sb, mid, i, bn)], o, piece))
                && logged == old(logged) + FillLog(sb, mid, filled) + {BlockOf(sb, mid, i, bn)}
    {
      var r: Option<nat>;
      r, filled := Bmap(i, bn);
      mid := V();
      ok := r.Some?;
      if ok {
        var a := r.value;
        blk := blk[a := Splice(blk[a], o, piece)];
        logged := logged + {a};
      }
    }

    /** writei has written src[..tot], in blocks lo to hi - 1, and has filled and logged exactly what that
        takes, besides `base`. */
    ghost predicate Progress(v0: Vol, base: set<nat>, i: nat, off: nat, src: seq<Byte>, tot: nat, lo: nat, hi: nat)
      reads this
    {
      Written(sb, v0, V(), i, off, src, tot) && Logs(sb, v0, V(), i, lo, hi, base, logged)
    }

    /** There are fewer free blocks than writing blocks lo to hi - 1 needs. */
    ghost predicate TooFew(v0: Vol, i: nat, lo: nat, hi: nat)
      requires Shaped(sb, v0) && i < sb.ninodes && hi <= MAXFILE
    {
      |FreeBlocks(sb, v0.blk)| < |Needs(sb, v0, i, lo, hi)|
    }

    /** One iteration of writei within the whole write: src[tot0..tot] goes to byte o of block bn. */
    method WriteStep(i: nat, src: seq<Byte>, off: nat, tot0: nat, tot: nat, bn: nat, o: nat, ghost v0: Vol,
                     ghost base: set<nat>, ghost lo: nat, ghost next: nat, ghost last: nat)
      returns (ok: bool)
      requires Progress(v0, base, i, off, src, tot0, lo, bn) && lo <= bn < next == bn + 1 <= last <= MAXFILE
      requires tot0 < tot <= |src| && off + |src| <= MAXFILE * BSIZE
      requires Place(off + tot0, bn, o) && o + (tot - tot0) <= BSIZE
      modifies `blk, `ino, `logged
      ensures !ok ==> Shaped(sb, V()) && FreeBlocks(sb, blk) == {} && TooFew(v0, i, lo, last)
      ensures ok ==> Progress(v0, base, i, off, src, tot, lo, next)
    {
      ghost var v, log := V(), logged;
      ghost var mid, filled;
      ok, mid, filled := WriteBlock(i, bn, o, src[tot0..tot]);
      ghost var v' := V();
      if ok {
        StepDone(sb, v0, v, mid, v', i, off, src, tot0, tot, bn, o);
        ghost var a := BlockOf(sb, mid, i, bn);
        StepLogs(sb, v0, v, mid, v', i, lo, bn, Splice(mid.blk[a], o, src[tot0..tot]), base, log, logged);
      } else {
        RunsOut(sb, v0, v, v', i, lo, bn, last, filled);
      }
    }

    /** The loop of writei. */
    method WriteLoop(i: nat, src: seq<Byte>, off: nat, ghost lo: nat, ghost last: nat) returns (ok: bool)
      requires Owned(sb, V()) && i < sb.ninodes && off <= ino[i].size && off + |src| <= MAXFILE * BSIZE
      requires Spans(off, 0, lo, lo) && Spans(off, |src|, lo, last) && lo <= last <= MAXFILE
      modifies `blk, `ino, `logged
      ensures !ok ==> Shaped(sb, V()) && FreeBlocks(sb, blk) == {} && TooFew(old(V()), i, lo, last)
      ensures ok ==> Progress(old(V()), old(logged), i, off, src, |src|, lo, last)
    {
      ghost var v0, base := V(), logged;
      WrittenNothing(sb, v0, i, off, src);
      LogsNothing(sb, v0, i, lo, base);
      var tot := 0;
      ghost var hi := lo;
      ok := true;
      while tot < |src|
        invariant tot <= |src| && (tot == 0 || tot == |src| || (off + tot) % BSIZE == 0)
        invariant Spans(off, tot, lo, hi) && Progress(v0, base, i, off, src, tot, lo, hi)
      {
        var end, bn, o;
        ghost var next;
        end, bn, o, next := NextPiece(off, tot, |src|, lo, hi, last);
        ok := WriteStep(i, src, off, tot, end, bn, o, v0, base, lo, next, last);
        if !ok {
          return;
        }
        tot, hi := end, next;
      }
      ok := true;
      assert tot == |src| && hi == last;
    }

    /** The end of writei: the size grows, and then the inode goes to the disk. */
    method Grow(i: nat, end: nat)
      requires Shaped(sb, V()) && i < sb.ninodes && end < UINT
      modifies `blk, `ino, `logged
      ensures Finished(sb, old(V()), V(), i, end)
      ensures logged == old(logged) + if end > old(ino[i].size) then {IBlock(sb, i)} else {}
    {
      if end > ino[i].size {
        ino := ino[i := ino[i].(size := end)];
        Iupdate(i);
      }
    }

    /** What writei has done when it succeeds, to blocks lo to hi - 1: the slots they needed, and no others, have
        been filled, each with a block that was free, and exactly this has been logged. */
    ghost predicate Wrote(v0: Vol, base: set<nat>, i: nat, off: nat, src: seq<Byte>, end: nat, lo: nat, hi: nat)
      reads this
    {
      && WroteFile(sb, v0, V(), i, off, src) && hi <= MAXFILE
      && Fills(sb, v0, V(), Needs(sb, v0, i, lo, hi))
      && logged == base + BlocksCost(sb, v0, V(), i, lo, hi, end > v0.ino[i].size)
      && Tidy(sb, v0, V(), i, lo, hi, |src|, end > v0.ino[i].size)
    }

    /** The end of writei after its loop, and what has become of the file. */
    method GrowDone(i: nat, src: seq<Byte>, off: nat, end: nat, ghost v0: Vol)
      requires Written(sb, v0, V(), i, off, src, |src|)
      requires off <= v0.ino[i].size <= MAXFILE * BSIZE && end == off + |src| <= MAXFILE * BSIZE
      modifies `blk, `ino, `logged
      ensures WroteFile(sb, v0, V(), i, off, src) && Finished(sb, old(V()), V(), i, end)
      ensures logged == old(logged) + if end > v0.ino[i].size then {IBlock(sb, i)} else {}
    {
      ghost var v := V();
      Grow(i, end);
      ghost var v' := V();
      FinishedWrite(sb, v0, v, v', i, off, src, end);
    }

    /** The same with what has been filled and logged. */
    method FinishWrite(i: nat, src: seq<Byte>, off: nat, end: nat, ghost v0: Vol, ghost base: set<nat>, ghost lo: nat,
                       ghost hi: nat)
      requires Progress(v0, base, i, off, src, |src|, lo, hi) && Spans(off, |src|, lo, hi) && lo <= hi <= MAXFILE
      requires off <= v0.ino[i].size <= MAXFILE * BSIZE && end == off + |src| <= MAXFILE * BSIZE
      modifies `blk, `ino, `logged
      ensures Wrote(v0, base, i, off, src, end, lo, hi)
    {
      ghost var v, log := V(), logged;
      GrowDone(i, src, off, end, v0);
      ghost var v' := V();
      FinishedLogs(sb, v0, v, v', i, end, lo, hi, base, log, logged);
      WriteTidy(sb, v0, v, v', i, off, src, end, lo, hi);
    }

    /** writei past its checks. */
    method WriteAt(i: nat, src: seq<Byte>, off: nat, end: nat, ghost lo: nat, ghost hi: nat) returns (ok: bool)
      requires Owned(sb, V()) && i < sb.ninodes && off <= ino[i].size <= MAXFILE * BSIZE
      requires end == off + |src| <= MAXFILE * BSIZE
      requires Spans(off, 0, lo, lo) && Spans(off, |src|, lo, hi) && lo <= hi <= MAXFILE
      modifies `blk, `ino, `logged
      ensures ok <==> !TooFew(old(V()), i, lo, hi)
      ensures !ok ==> Shaped(sb, V()) && FreeBlocks(sb, blk) == {}
      ensures ok ==> Wrote(old(V()), old(logged), i, off, src, end, lo, hi)
    {
      ghost var v0, base := V(), logged;
      ok := WriteLoop(i, src, off, lo, hi);
      if ok {
        FinishWrite(i, src, off, end, v0, base, lo, hi);
        EnoughFree(sb, v0, V(), Needs(sb, v0, i, lo, hi));
      }
    }

    /** writei for a file or directory. The result is -1, or the number of bytes; panicked is the panic of
        balloc, and the call reaches it exactly if it needs more blocks than are free. The bytes are in blocks
        lo to hi - 1. */
    method Writei(i: nat, src: seq<Byte>, off: nat) returns (r: int, panicked: bool, ghost lo: nat, ghost hi: nat)
      requires Owned(sb, V()) && i < sb.ninodes && off < UINT && |src| < UINT
      requires ino[i].typ != T_DEV && ino[i].size <= MAXFILE * BSIZE
      modifies `blk, `ino, `logged
      ensures Refused(off, |src|, old(ino[i].size)) ==> r == -1 && !panicked && V() == old(V()) && logged == old(logged)
      ensures !Refused(off, |src|, old(ino[i].size)) ==>
                && Spans(off, |src|, lo, hi) && hi <= MAXFILE
                && (panicked <==> TooFew(old(V()), i, lo, hi)) && r == |src|
      ensures r == if off <= old(ino[i].size) && off + |src| <= MAXFILE * BSIZE then |src| else -1
      ensures off <= old(ino[i].size) && off + |src| <= MAXFILE * BSIZE ==>
                && Spans(off, |src|, lo, hi) && hi <= MAXFILE
                && (panicked <==> |FreeBlocks(sb, old(blk))| < |Needs(sb, old(V()), i, lo, hi)|)
      ensures panicked ==> Shaped(sb, V()) && FreeBlocks(sb, blk) == {}
      ensures r >= 0 && !panicked ==> Wrote(old(V()), old(logged), i, off, src, off + |src|, lo, hi)
    {
      lo, hi := 0, 0;
      if off > ino[i].size || (off + |src|) % UINT < off {
        return -1, false, 0, 0;
      }
      if (off + |src|) % UINT > MAXFILE * BSIZE {
        return -1, false, 0, 0;
      }
      lo, hi := SpanOf(off, |src|);
      var ok := WriteAt(i, src, off, off + |src|, lo, hi);
      r, panicked := |src|, !ok;
    }

    /** itrunc's first loop. */
    method TruncDirect(i: nat) returns (panicked: bool)
      requires Owned(sb, V()) && i < sb.ninodes
      modifies `blk, `ino, `logged
      ensures !panicked
      ensures Unmaps(sb, old(V()), V(), DirectSlots(i, NDIRECT))
      ensures ino == old(ino)[i := old(ino)[i].(addrs := ino[i].addrs)]
    {
      ghost var v0 := V();
      panicked := false;
      var k := 0;
      UnmapsNothing(sb, v0);
      while k < NDIRECT
        invariant k <= NDIRECT && !panicked
        invariant Unmaps(sb, v0, V(), DirectSlots(i, k)) && Owned(sb, V())
        invariant ino == v0.ino[i := v0.ino[i].(addrs := ino[i].addrs)]
      {
        ghost var v := V();
        var a: nat := ino[i].addrs[k];
        if a != 0 {
          ClearDirect(sb, v, i, k);
          panicked := Bfree(a);
          ino := ino[i := ino[i].(addrs := ino[i].addrs[k := 0])];
        } else {
          UnmapsEmpty(sb, v, {Direct(i, k)});
        }
        DirectSlotsNext(i, k);
        UnmapsTwice(sb, v0, v, V(), DirectSlots(i, k), {Direct(i, k)});
        UnmapsOwned(sb, v, V(), {Direct(i, k)});
        k := k + 1;
      }
    }

    /** itrunc's second loop, over the entries of the indirect table in block t. */
    method FreeEntries(i: nat, t: nat) returns (panicked: bool)
      requires Owned(sb, V()) && i < sb.ninodes && 0 < t < sb.size && ino[i].addrs[NDIRECT] == t
      modifies `blk, `logged
      ensures !panicked
      ensures FreedEntries(sb, old(V()), blk, i, NINDIRECT)
    {
      ghost var v0 := V();
      panicked := false;
      var a := blk[t];
      var j := 0;
      while j < NINDIRECT
        invariant j <= NINDIRECT && !panicked
        invariant FreedEntries(sb, v0, blk, i, j)
      {
        var c: nat := GetWord(a, j);
        if c != 0 {
          EntryStillUsed(sb, v0, blk, i, j);
          panicked := Bfree(c);
        } else {
          EntryEmpty(sb, v0, blk, i, j);
        }
        j := j + 1;
      }
    }

    /** The rest of itrunc's work on blocks: the entries of the indirect table and the table itself. */
    method TruncTable(i: nat) returns (panicked: bool)
      requires Owned(sb, V()) && i < sb.ninodes
      modifies `blk, `ino, `logged
      ensures !panicked
      ensures Unmaps(sb, old(V()), V(), TableSlots(i))
      ensures ino == old(ino)[i := old(ino)[i].(addrs := ino[i].addrs)]
    {
      ghost var v0 := V();
      panicked := false;
      var t: nat := ino[i].addrs[NDIRECT];
      if t == 0 {
        UnmapsEmpty(sb, v0, TableSlots(i));
        return;
      }
      OwnedBlock(sb, v0, Table(i));
      panicked := FreeEntries(i, t);
      ClearTable(sb, v0, blk, i);
      panicked := Bfree(t);
      ino := ino[i := ino[i].(addrs := ino[i].addrs[NDIRECT := 0])];
    }

    /** itrunc. The panic "freeing free block" is unreachable. */
    method Itrunc(i: nat) returns (panicked: bool)
      requires Owned(sb, V()) && i < sb.ninodes
      modifies `blk, `ino, `logged
      ensures !panicked && Truncated(sb, old(V()), V(), i)
    {
      ghost var v0 := V();
      panicked := TruncDirect(i);
      ghost var v1 := V();
      UnmapsOwned(sb, v0, v1, DirectSlots(i, NDIRECT));
      panicked := TruncTable(i);
      ghost var v2 := V();
      UnmapsTwice(sb, v0, v1, v2, DirectSlots(i, NDIRECT), TableSlots(i));
      ino := ino[i := ino[i].(size := 0)];
      Iupdate(i);
      TruncatedIs(sb, v0, v2, V(), i);
    }

    /** bmap and bread. */
    method ReadBlock(i: nat, at: nat) returns (b: Option<Block>)
      requires Owned(sb, V()) && i < sb.ninodes && at < MAXFILE * BSIZE
      modifies `blk, `ino, `logged
      ensures Grows(sb, old(V()), V(), i, BmapSlots(i, at / BSIZE))
      ensures b.None? ==> forall c: nat :: c < sb.size ==> Used(sb, blk, c)
      ensures b.Some? ==>
                0 < BlockOf(sb, V(), i, at / BSIZE) < sb.size && b.value == blk[BlockOf(sb, V(), i, at / BSIZE)]
      ensures BlockOf(sb, old(V()), i, at / BSIZE) != 0 ==> b.Some? && V() == old(V()) && logged == old(logged)
    {
      var r: Option<nat>;
      ghost var filled;
      r, filled := Bmap(i, at / BSIZE);
      if r.None? {
        NoneFree(sb, blk);
      }
      b := if r.Some? then Some(blk[r.value]) else None;
    }

    /** One iteration of readi: the bytes from off + tot to off + end, which lie in one block. */
    method ReadStep(i: nat, at: nat, end: nat, ghost v0: Vol, ghost slots: set<Slot>) returns (piece: Option<seq<Byte>>)
      requires Grows(sb, v0, V(), i, slots) && at < end <= v0.ino[i].size <= MAXFILE * BSIZE
      requires end - at <= BSIZE - at % BSIZE
      modifies `blk, `ino, `logged
      ensures piece.None? ==> Shaped(sb, V()) && forall b: nat :: b < sb.size ==> Used(sb, blk, b)
      ensures piece.Some? ==>
                Grows(sb, v0, V(), i, slots + BmapSlots(i, at / BSIZE)) && piece.value == Content(sb, v0, i)[at..end]
      ensures NoHoles(sb, v0, i) && old(V()) == v0 ==> piece.Some? && V() == v0 && logged == old(logged)
    {
      if NoHoles(sb, v0, i) {
        NoHoleAt(sb, v0, i, at);
      }
      ghost var v := V();
      var b := ReadBlock(i, at);
      if b.None? {
        return None;
      }
      ReadDone(sb, v0, v, V(), i, at, end, slots, b.value);
      return Some(b.value[at % BSIZE..at % BSIZE + (end - at)]);
    }

    /** The loop of readi; None is the panic of balloc. */
    method ReadLoop(i: nat, off: nat, m: nat) returns (r: Option<seq<Byte>>)
      requires Owned(sb, V()) && i < sb.ninodes && off + m <= ino[i].size <= MAXFILE * BSIZE
      modifies `blk, `ino, `logged
      ensures r.None? ==> Shaped(sb, V()) && forall b: nat :: b < sb.size ==> Used(sb, blk, b)
      ensures r.Some? ==>
                r.value == Content(sb, old(V()), i)[off..off + m] && exists slots :: Grows(sb, old(V()), V(), i, slots)
      ensures NoHoles(sb, old(V()), i) ==> r.Some? && V() == old(V()) && logged == old(logged)
    {
      ghost var v0 := V();
      ghost var slots: set<Slot> := {};
      GrowsNot(sb, v0, i, {});
      var dst: seq<Byte> := [];
      var tot := 0;
      while tot < m
        invariant tot <= m
        invariant Grows(sb, v0, V(), i, slots)
        invariant dst == Content(sb, v0, i)[off..off + tot]
        invariant NoHoles(sb, v0, i) ==> V() == v0 && logged == old(logged)
      {
        var end := PieceEnd(off, tot, m);
        var piece := ReadStep(i, off + tot, off + end, v0, slots);
        if piece.None? {
          return None;
        }
        TakeMore(Content(sb, v0, i), off, tot, end, dst, piece.value);
        slots := slots + BmapSlots(i, (off + tot) / BSIZE);
        dst := dst + piece.value;
        tot := end;
      }
      return Some(dst);
    }

    /** readi for a file or directory: the bytes from off on, at most n, clipped at the end of the file.
        None is -1. It may map blocks where the file has holes, which no reader can tell; a file without
        holes is left exactly as it was. */
    method Readi(i: nat, off: nat, n: nat) returns (r: Option<seq<Byte>>, panicked: bool)
      requires Owned(sb, V()) && i < sb.ninodes && off < UINT && n < UINT
      requires ino[i].typ != T_DEV && ino[i].size <= MAXFILE * BSIZE
      modifies `blk, `ino, `logged
      ensures off > old(ino[i].size) || off + n >= UINT ==>
                r == None && !panicked && V() == old(V()) && logged == old(logged)
      ensures !(off > old(ino[i].size) || off + n >= UINT) ==>
                if panicked then Shaped(sb, V()) && forall b: nat :: b < sb.size ==> Used(sb, blk, b)
                else
                  && r == Some(Content(sb, old(V()), i)[off..Min(off + n, old(ino[i].size))])
                  && exists slots :: Grows(sb, old(V()), V(), i, slots)
      ensures NoHoles(sb, old(V()), i) ==> !panicked && V() == old(V()) && logged == old(logged)
    {
      if off > ino[i].size || (off + n) % UINT < off {
        return None, false;
      }
      var m := if (off + n) % UINT > ino[i].size then ino[i].size - off else n;
      r := ReadLoop(i, off, m);
      panicked := r.None?;
    }
  }

  /** The calls writei turns down: past the end, with an offset that overflows a uint, or past MAXFILE. */
  predicate Refused(off: nat, n: nat, size: nat) {
    off > size || off + n >= UINT || off + n > MAXFILE * BSIZE
  }

  function Min(a: nat, b: nat): nat {
    if a < b then a else b
  }
}
