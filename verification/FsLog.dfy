/** Which blocks writei allocates and which blocks it logs, exactly. */
module FsLog {
  import opened Common
  import opened Params
  import opened Blocks
  import opened FsLayout
  import opened FsState
  import opened FsMap
  import opened FsWrite

  // ---------- Free blocks ----------

  /** The blocks that the bitmap does not mark. */
  ghost function FreeBlocks(sb: Super, blk: seq<Block>): set<nat>
    requires GoodSuper(sb) && |blk| == sb.size
  {
    set b: nat | b < sb.size && !Used(sb, blk, b)
  }

  ghost predicate AllIn(sb: Super, slots: set<Slot>) {
    forall s :: s in slots ==> InRange(sb, s)
  }

  /** The block numbers in some slots. */
  ghost function Held(sb: Super, v: Vol, slots: set<Slot>): set<nat>
    requires |v.ino| == sb.ninodes && AllIn(sb, slots)
  {
    set s | s in slots :: At(sb, v, s)
  }

  /** The empty ones of some slots. */
  ghost function Empty(sb: Super, v: Vol, slots: set<Slot>): (r: set<Slot>)
    requires |v.ino| == sb.ninodes && AllIn(sb, slots)
    ensures AllIn(sb, r)
  {
    set s | s in slots && At(sb, v, s) == 0
  }

  /** Exactly the slots of `slots`, all of them empty in v, have been filled, with blocks that were free in v
      and are marked now, and no other block has been marked or freed. */
  ghost predicate Fills(sb: Super, v: Vol, v': Vol, slots: set<Slot>) {
    && Shaped(sb, v) && Shaped(sb, v') && AllIn(sb, slots)
    && (forall s :: s in slots ==> At(sb, v, s) == 0 && At(sb, v', s) in FreeBlocks(sb, v.blk))
    && (forall s :: InRange(sb, s) && s !in slots ==> At(sb, v', s) == At(sb, v, s))
    && FreeBlocks(sb, v'.blk) == FreeBlocks(sb, v.blk) - Held(sb, v', slots)
  }

  lemma FillsNothing(sb: Super, v: Vol)
    requires Shaped(sb, v)
    ensures Fills(sb, v, v, {})
  {
    assert Held(sb, v, {}) == {};
  }

  lemma MapsFills(sb: Super, v: Vol, v': Vol, s0: Slot, b: nat)
    requires Maps(sb, v, v', s0, b)
    ensures Fills(sb, v, v', {s0})
  {
    assert Held(sb, v', {s0}) == {b};
  }

  /** A change that moves no slot and marks no block. */
  lemma FillsStays(sb: Super, v: Vol, v1: Vol, v2: Vol, slots: set<Slot>)
    requires Fills(sb, v, v1, slots) && Shaped(sb, v2)
    requires forall s :: InRange(sb, s) ==> At(sb, v2, s) == At(sb, v1, s)
    requires forall b: nat :: b < sb.size ==> Used(sb, v2.blk, b) == Used(sb, v1.blk, b)
    ensures Fills(sb, v, v2, slots)
  {
    assert Held(sb, v2, slots) == Held(sb, v1, slots);
    assert FreeBlocks(sb, v2.blk) == FreeBlocks(sb, v1.blk);
  }

  lemma FillsTwice(sb: Super, v: Vol, v1: Vol, v2: Vol, a: set<Slot>, b: set<Slot>)
    requires Owned(sb, v) && Fills(sb, v, v1, a) && Fills(sb, v1, v2, b)
    ensures a !! b && Fills(sb, v, v2, a + b)
  {
    NeverZero(sb, v);
    assert forall s :: s in a ==> s !in b && At(sb, v2, s) == At(sb, v1, s);
    assert Held(sb, v2, a + b) == Held(sb, v1, a) + Held(sb, v2, b);
  }

  lemma NeverZero(sb: Super, v: Vol)
    requires Owned(sb, v)
    ensures 0 !in FreeBlocks(sb, v.blk)
  {
  }

  /** What is filled later is what was empty at first and has not been filled yet. */
  lemma EmptyTwice(sb: Super, v: Vol, v1: Vol, a: set<Slot>, b: set<Slot>)
    requires Owned(sb, v) && AllIn(sb, a) && AllIn(sb, b) && Fills(sb, v, v1, Empty(sb, v, a))
    ensures AllIn(sb, a + b) && Empty(sb, v, a + b) == Empty(sb, v, a) + Empty(sb, v1, b)
  {
    NeverZero(sb, v);
    forall s | s in b
      ensures At(sb, v, s) == 0 <==> s in Empty(sb, v, a) || At(sb, v1, s) == 0
    {
      assert s !in Empty(sb, v, a) ==> At(sb, v1, s) == At(sb, v, s);
    }
  }

  /** No block is in two slots, so there are as many of them as slots. */
  lemma {:induction false} HeldSize(sb: Super, v: Vol, slots: set<Slot>)
    requires Owned(sb, v) && AllIn(sb, slots) && forall s :: s in slots ==> At(sb, v, s) != 0
    ensures |Held(sb, v, slots)| == |slots|
    decreases |slots|
  {
    if slots == {} {
      assert Held(sb, v, slots) == {};
    } else {
      var s :| s in slots;
      HeldSize(sb, v, slots - {s});
      assert Held(sb, v, slots) == Held(sb, v, slots - {s}) + {At(sb, v, s)};
    }
  }

  /** Every slot filled is one free block less. */
  lemma FillsCount(sb: Super, v: Vol, v': Vol, slots: set<Slot>)
    requires Owned(sb, v) && Owned(sb, v') && Fills(sb, v, v', slots)
    ensures |FreeBlocks(sb, v'.blk)| + |slots| == |FreeBlocks(sb, v.blk)|
  {
    NeverZero(sb, v);
    HeldSize(sb, v', slots);
    assert Held(sb, v', slots) <= FreeBlocks(sb, v.blk);
    assert FreeBlocks(sb, v.blk) == FreeBlocks(sb, v'.blk) + Held(sb, v', slots);
    DisjointSize(FreeBlocks(sb, v'.blk), Held(sb, v', slots));
  }

  lemma {:induction false} DisjointSize(a: set<nat>, b: set<nat>)
    requires a !! b
    ensures |a + b| == |a| + |b|
    decreases |b|
  {
    if b == {} {
      assert a + b == a;
    } else {
      var x :| x in b;
      DisjointSize(a, b - {x});
      assert a + b == a + (b - {x}) + {x};
    }
  }

  // ---------- Logged blocks ----------

  /** What filling a slot logs: the bitmap block, the zeroed block, and the table the number is put into. */
  ghost function SlotLog(sb: Super, v: Vol, s: Slot): set<nat>
    requires |v.ino| == sb.ninodes && InRange(sb, s)
  {
    {BBlock(sb, At(sb, v, s)), At(sb, v, s)} + if s.Entry? then {At(sb, v, Table(s.i))} else {}
  }

  ghost function FillLog(sb: Super, v: Vol, slots: set<Slot>): set<nat>
    requires |v.ino| == sb.ninodes && AllIn(sb, slots)
  {
    set s, b | s in slots && b in SlotLog(sb, v, s) :: b
  }

  lemma FillLogOne(sb: Super, v: Vol, s: Slot)
    requires |v.ino| == sb.ninodes && InRange(sb, s)
    ensures FillLog(sb, v, {s}) == SlotLog(sb, v, s)
  {
    assert forall b :: b in SlotLog(sb, v, s) ==> s in {s} && b in SlotLog(sb, v, s);
  }

  lemma FillLogIn(sb: Super, v: Vol, slots: set<Slot>, all: set<nat>)
    requires |v.ino| == sb.ninodes && AllIn(sb, slots) && forall s :: s in slots ==> SlotLog(sb, v, s) <= all
    ensures FillLog(sb, v, slots) <= all
  {
  }

  lemma FillLogBoth(sb: Super, v: Vol, a: set<Slot>, b: set<Slot>)
    requires |v.ino| == sb.ninodes && AllIn(sb, a) && AllIn(sb, b)
    ensures AllIn(sb, a + b) && FillLog(sb, v, a + b) == FillLog(sb, v, a) + FillLog(sb, v, b)
  {
    forall x | x in FillLog(sb, v, a + b)
      ensures x in FillLog(sb, v, a) + FillLog(sb, v, b)
    {
      var s :| s in a + b && x in SlotLog(sb, v, s);
    }
    forall x | x in FillLog(sb, v, a) + FillLog(sb, v, b)
      ensures x in FillLog(sb, v, a + b)
    {
      var s :| s in a + b && x in SlotLog(sb, v, s);
    }
  }

  lemma FillLogSame(sb: Super, v: Vol, v': Vol, slots: set<Slot>)
    requires |v.ino| == |v'.ino| == sb.ninodes && AllIn(sb, slots)
    requires forall s :: s in slots ==> SlotLog(sb, v', s) == SlotLog(sb, v, s)
    ensures FillLog(sb, v', slots) == FillLog(sb, v, slots)
  {
  }

  /** What has been filled stays where it is, and so does the table it is in. */
  lemma SlotLogStays(sb: Super, v: Vol, v': Vol, slots: set<Slot>, s: Slot)
    requires Fills(sb, v, v', slots) && InRange(sb, s) && At(sb, v, s) != 0
    ensures SlotLog(sb, v', s) == SlotLog(sb, v, s)
  {
    if s.Entry? {
      assert InRange(sb, Table(s.i)) && At(sb, v, Table(s.i)) != 0;
    }
  }

  lemma FillLogTwice(sb: Super, v: Vol, v1: Vol, v2: Vol, a: set<Slot>, b: set<Slot>)
    requires Owned(sb, v) && Fills(sb, v, v1, a) && Fills(sb, v1, v2, b)
    ensures FillLog(sb, v2, a + b) == FillLog(sb, v1, a) + FillLog(sb, v2, b)
  {
    NeverZero(sb, v);
    forall s | s in a
      ensures SlotLog(sb, v2, s) == SlotLog(sb, v1, s)
    {
      SlotLogStays(sb, v1, v2, b, s);
    }
    FillLogSame(sb, v1, v2, a);
    FillLogBoth(sb, v2, a, b);
  }

  /** bmap's part: the empty ones of `slots` are filled, if ok; if not, some of them are left and no block is
      free any more. What has been filled has been logged. */
  ghost predicate Takes(sb: Super, v: Vol, v': Vol, slots: set<Slot>, filled: set<Slot>, before: set<nat>,
                        after: set<nat>, ok: bool)
  {
    && AllIn(sb, slots) && Fills(sb, v, v', filled) && after == before + FillLog(sb, v', filled)
    && if ok then filled == Empty(sb, v, slots) else filled < Empty(sb, v, slots) && FreeBlocks(sb, v'.blk) == {}
  }

  lemma TakesNothing(sb: Super, v: Vol, slots: set<Slot>, log: set<nat>)
    requires Shaped(sb, v) && AllIn(sb, slots) && forall s :: s in slots ==> At(sb, v, s) != 0
    ensures Takes(sb, v, v, slots, {}, log, log, true)
  {
    FillsNothing(sb, v);
  }

  lemma TakesNone(sb: Super, v: Vol, s0: Slot, log: set<nat>)
    requires Shaped(sb, v) && InRange(sb, s0) && At(sb, v, s0) == 0
    requires forall b: nat :: b < sb.size ==> Used(sb, v.blk, b)
    ensures Takes(sb, v, v, {s0}, {}, log, log, false)
  {
    FillsNothing(sb, v);
    assert s0 in Empty(sb, v, {s0});
  }

  lemma TakesOne(sb: Super, v: Vol, v': Vol, s0: Slot, b: nat, before: set<nat>, after: set<nat>)
    requires Maps(sb, v, v', s0, b) && after == before + SlotLog(sb, v', s0)
    ensures Takes(sb, v, v', {s0}, {s0}, before, after, true)
  {
    MapsFills(sb, v, v', s0, b);
    FillLogOne(sb, v', s0);
    assert Empty(sb, v, {s0}) == {s0};
  }

  lemma TakesTwice(sb: Super, v: Vol, v1: Vol, v2: Vol, a: set<Slot>, b: set<Slot>, fa: set<Slot>, fb: set<Slot>,
                   l0: set<nat>, l1: set<nat>, l2: set<nat>, ok: bool)
    requires Owned(sb, v) && Takes(sb, v, v1, a, fa, l0, l1, true) && Takes(sb, v1, v2, b, fb, l1, l2, ok)
    ensures Takes(sb, v, v2, a + b, fa + fb, l0, l2, ok)
  {
    EmptyTwice(sb, v, v1, a, b);
    FillsTwice(sb, v, v1, v2, fa, fb);
    FillLogTwice(sb, v, v1, v2, fa, fb);
    FilledOnce(sb, v, v1, fa, Empty(sb, v1, b));
  }

  lemma TakesFails(sb: Super, v: Vol, v1: Vol, a: set<Slot>, b: set<Slot>, fa: set<Slot>, l0: set<nat>, l1: set<nat>)
    requires Takes(sb, v, v1, a, fa, l0, l1, false) && AllIn(sb, b)
    ensures Takes(sb, v, v1, a + b, fa, l0, l1, false)
  {
    assert Empty(sb, v, a) <= Empty(sb, v, a + b);
  }

  // ---------- What writei needs and what it logs ----------

  /** The block after the last one that n bytes at offset off touch. */
  function EndBlock(off: nat, n: nat): nat {
    if n == 0 then off / BSIZE else BlocksFor(off + n)
  }

  /** The slots of blocks lo to hi - 1 of file i, with the one of the table if a block needs it. */
  ghost function SlotsOf(i: nat, lo: nat, hi: nat): set<Slot> {
    (set bn: nat | lo <= bn < hi :: SlotOf(i, bn)) + if lo < hi && NDIRECT < hi then {Table(i)} else {}
  }

  lemma SlotsMore(i: nat, lo: nat, hi: nat)
    requires lo <= hi
    ensures SlotsOf(i, lo, hi + 1) == SlotsOf(i, lo, hi) + BmapSlots(i, hi)
  {
    assert SlotOf(i, hi) in BmapSlots(i, hi);
  }

  lemma SlotsGrow(i: nat, lo: nat, hi: nat, end: nat)
    requires hi <= end
    ensures SlotsOf(i, lo, hi) <= SlotsOf(i, lo, end)
  {
  }

  /** The slots that must be filled before these blocks can be written. */
  ghost function Needs(sb: Super, v: Vol, i: nat, lo: nat, hi: nat): set<Slot>
    requires |v.ino| == sb.ninodes && i < sb.ninodes && hi <= MAXFILE
  {
    Empty(sb, v, SlotsOf(i, lo, hi))
  }

  ghost function DataBlocks(sb: Super, v: Vol, i: nat, lo: nat, hi: nat): set<nat>
    requires |v.ino| == sb.ninodes && i < sb.ninodes && hi <= MAXFILE
  {
    set bn: nat | lo <= bn < hi :: BlockOf(sb, v, i, bn)
  }

  /** Blocks lo to hi - 1 have been written: the slots they needed, and no others, have been filled, and
      besides `base` exactly this has been logged. */
  ghost predicate Logs(sb: Super, v0: Vol, v: Vol, i: nat, lo: nat, hi: nat, base: set<nat>, logged: set<nat>) {
    && Shaped(sb, v0) && Shaped(sb, v) && i < sb.ninodes && hi <= MAXFILE
    && Fills(sb, v0, v, Needs(sb, v0, i, lo, hi))
    && logged == base + FillLog(sb, v, Needs(sb, v0, i, lo, hi)) + DataBlocks(sb, v, i, lo, hi)
  }

  lemma LogsNothing(sb: Super, v: Vol, i: nat, lo: nat, base: set<nat>)
    requires Shaped(sb, v) && i < sb.ninodes && lo <= MAXFILE
    ensures Logs(sb, v, v, i, lo, lo, base, base)
  {
    FillsNothing(sb, v);
    assert SlotsOf(i, lo, lo) == {};
    assert Needs(sb, v, i, lo, lo) == {};
    assert FillLog(sb, v, {}) == {} && DataBlocks(sb, v, i, lo, lo) == {};
  }

  /** What has been written is mapped. */
  lemma Mapped(sb: Super, v0: Vol, v: Vol, i: nat, lo: nat, hi: nat, bn: nat)
    requires Owned(sb, v0) && i < sb.ninodes && hi <= MAXFILE && Fills(sb, v0, v, Needs(sb, v0, i, lo, hi))
    requires lo <= bn < hi
    ensures BlockOf(sb, v, i, bn) != 0
  {
    NeverZero(sb, v0);
    assert SlotOf(i, bn) in SlotsOf(i, lo, hi);
    assert SlotOf(i, bn) !in Needs(sb, v0, i, lo, hi) ==> At(sb, v, SlotOf(i, bn)) == At(sb, v0, SlotOf(i, bn));
  }

  lemma DataMore(sb: Super, v: Vol, v': Vol, i: nat, lo: nat, hi: nat)
    requires |v.ino| == |v'.ino| == sb.ninodes && i < sb.ninodes && lo <= hi < MAXFILE
    requires forall bn: nat :: lo <= bn < hi ==> BlockOf(sb, v', i, bn) == BlockOf(sb, v, i, bn)
    ensures DataBlocks(sb, v', i, lo, hi + 1) == DataBlocks(sb, v, i, lo, hi) + {BlockOf(sb, v', i, hi)}
  {
    forall b | b in DataBlocks(sb, v, i, lo, hi)
      ensures b in DataBlocks(sb, v', i, lo, hi + 1)
    {
      var bn: nat :| lo <= bn < hi && BlockOf(sb, v, i, bn) == b;
      assert BlockOf(sb, v', i, bn) == b;
    }
  }

  /** What one more block needs. */
  lemma NeedsMore(sb: Super, v0: Vol, v: Vol, i: nat, lo: nat, hi: nat)
    requires Owned(sb, v0) && i < sb.ninodes && lo <= hi < MAXFILE && Fills(sb, v0, v, Needs(sb, v0, i, lo, hi))
    ensures Needs(sb, v0, i, lo, hi + 1) == Needs(sb, v0, i, lo, hi) + Empty(sb, v, BmapSlots(i, hi))
  {
    SlotsMore(i, lo, hi);
    EmptyTwice(sb, v0, v, SlotsOf(i, lo, hi), BmapSlots(i, hi));
  }

  lemma BlocksStay(sb: Super, v0: Vol, v: Vol, mid: Vol, i: nat, lo: nat, hi: nat)
    requires Owned(sb, v0) && i < sb.ninodes && lo <= hi < MAXFILE && Fills(sb, v0, v, Needs(sb, v0, i, lo, hi))
    requires Fills(sb, v, mid, Empty(sb, v, BmapSlots(i, hi)))
    ensures forall bn: nat :: lo <= bn < hi ==> BlockOf(sb, mid, i, bn) == BlockOf(sb, v, i, bn)
  {
    forall bn: nat | lo <= bn < hi
      ensures BlockOf(sb, mid, i, bn) == BlockOf(sb, v, i, bn)
    {
      Mapped(sb, v0, v, i, lo, hi, bn);
      assert InRange(sb, SlotOf(i, bn)) && SlotOf(i, bn) !in Empty(sb, v, BmapSlots(i, hi));
    }
  }

  /** One more block: bmap has taken v to mid. */
  lemma LogsMore(sb: Super, v0: Vol, v: Vol, mid: Vol, i: nat, lo: nat, hi: nat, base: set<nat>, before: set<nat>,
                 after: set<nat>)
    requires Owned(sb, v0) && Logs(sb, v0, v, i, lo, hi, base, before) && lo <= hi < MAXFILE
    requires Fills(sb, v, mid, Empty(sb, v, BmapSlots(i, hi)))
    requires after == before + FillLog(sb, mid, Empty(sb, v, BmapSlots(i, hi))) + {BlockOf(sb, mid, i, hi)}
    ensures Logs(sb, v0, mid, i, lo, hi + 1, base, after)
  {
    var a, b := Needs(sb, v0, i, lo, hi), Empty(sb, v, BmapSlots(i, hi));
    NeedsMore(sb, v0, v, i, lo, hi);
    FillsTwice(sb, v0, v, mid, a, b);
    FillLogTwice(sb, v0, v, mid, a, b);
    BlocksStay(sb, v0, v, mid, i, lo, hi);
    DataMore(sb, v, mid, i, lo, hi);
  }

  /** A change that moves no slot and marks no block changes nothing of this. */
  lemma LogsStays(sb: Super, v0: Vol, v: Vol, v': Vol, i: nat, lo: nat, hi: nat, base: set<nat>, logged: set<nat>)
    requires Logs(sb, v0, v, i, lo, hi, base, logged) && Shaped(sb, v')
    requires forall s :: InRange(sb, s) ==> At(sb, v', s) == At(sb, v, s)
    requires forall b: nat :: b < sb.size ==> Used(sb, v'.blk, b) == Used(sb, v.blk, b)
    ensures Logs(sb, v0, v', i, lo, hi, base, logged)
  {
    var need := Needs(sb, v0, i, lo, hi);
    FillsStays(sb, v0, v, v', need);
    forall s | s in need
      ensures SlotLog(sb, v', s) == SlotLog(sb, v, s)
    {
      assert InRange(sb, Table(s.i));
    }
    FillLogSame(sb, v, v', need);
    forall bn: nat | lo <= bn < hi
      ensures BlockOf(sb, v', i, bn) == BlockOf(sb, v, i, bn)
    {
      assert InRange(sb, SlotOf(i, bn));
    }
    assert DataBlocks(sb, v', i, lo, hi) == DataBlocks(sb, v, i, lo, hi) by {
      DataSame(sb, v, v', i, lo, hi);
    }
  }

  lemma DataSame(sb: Super, v: Vol, v': Vol, i: nat, lo: nat, hi: nat)
    requires |v.ino| == |v'.ino| == sb.ninodes && i < sb.ninodes && hi <= MAXFILE
    requires forall bn: nat :: lo <= bn < hi ==> BlockOf(sb, v', i, bn) == BlockOf(sb, v, i, bn)
    ensures DataBlocks(sb, v', i, lo, hi) == DataBlocks(sb, v, i, lo, hi)
  {
  }

  /** Where balloc runs out, fewer blocks were free than slots have to be filled. */
  lemma RunsOut(sb: Super, v0: Vol, v: Vol, v': Vol, i: nat, lo: nat, hi: nat, end: nat, part: set<Slot>)
    requires Owned(sb, v0) && Owned(sb, v') && i < sb.ninodes && lo <= hi < end <= MAXFILE
    requires Fills(sb, v0, v, Needs(sb, v0, i, lo, hi)) && Fills(sb, v, v', part)
    requires part < Empty(sb, v, BmapSlots(i, hi)) && FreeBlocks(sb, v'.blk) == {}
    ensures |FreeBlocks(sb, v0.blk)| < |Needs(sb, v0, i, lo, end)|
  {
    var a, b := Needs(sb, v0, i, lo, hi), Empty(sb, v, BmapSlots(i, hi));
    NeedsMore(sb, v0, v, i, lo, hi);
    FilledOnce(sb, v0, v, a, b);
    NeedsGrow(sb, v0, i, lo, hi + 1, end);
    FillsTwice(sb, v0, v, v', a, part);
    FillsCount(sb, v0, v', a + part);
    ProperPart(a, part, b, Needs(sb, v0, i, lo, end));
  }

  lemma NeedsGrow(sb: Super, v: Vol, i: nat, lo: nat, hi: nat, end: nat)
    requires |v.ino| == sb.ninodes && i < sb.ninodes && hi <= end <= MAXFILE
    ensures Needs(sb, v, i, lo, hi) <= Needs(sb, v, i, lo, end)
  {
    SlotsGrow(i, lo, hi, end);
  }

  /** A slot that has been filled is not empty. */
  lemma FilledOnce(sb: Super, v0: Vol, v: Vol, a: set<Slot>, b: set<Slot>)
    requires Owned(sb, v0) && Fills(sb, v0, v, a) && AllIn(sb, b) && forall s :: s in b ==> At(sb, v, s) == 0
    ensures a !! b
  {
    NeverZero(sb, v0);
  }

  lemma ProperPart(a: set<Slot>, part: set<Slot>, b: set<Slot>, all: set<Slot>)
    requires a !! b && part < b && a + b <= all
    ensures |a + part| < |all|
  {
    var missing :| missing in b && missing !in part;
    SubsetSize(a + part + {missing}, all);
  }

  lemma EnoughFree(sb: Super, v0: Vol, v: Vol, slots: set<Slot>)
    requires Owned(sb, v0) && Owned(sb, v) && Fills(sb, v0, v, slots)
    ensures |FreeBlocks(sb, v0.blk)| >= |slots|
  {
    FillsCount(sb, v0, v, slots);
  }

  /** A file without holes stays so when the blocks from lo on, none of them past its end, are written. */
  lemma FillsExact(sb: Super, v0: Vol, v: Vol, i: nat, lo: nat, hi: nat, n0: nat)
    requires Owned(sb, v0) && i < sb.ninodes && lo <= hi <= MAXFILE && lo <= n0 && MappedExactly(sb, v0, i, n0)
    requires Fills(sb, v0, v, Needs(sb, v0, i, lo, hi))
    ensures MappedExactly(sb, v, i, Max(n0, hi))
  {
    NeverZero(sb, v0);
    forall bn: nat | bn < MAXFILE
      ensures BlockOf(sb, v, i, bn) != 0 <==> bn < Max(n0, hi)
    {
      var s := SlotOf(i, bn);
      assert InRange(sb, s);
      if lo <= bn < hi {
        Mapped(sb, v0, v, i, lo, hi, bn);
      } else {
        NotInRange(i, lo, hi, bn);
        assert BlockOf(sb, v0, i, bn) != 0 <==> bn < n0;
      }
    }
    assert InRange(sb, Table(i));
  }

  lemma NotInRange(i: nat, lo: nat, hi: nat, bn: nat)
    requires !(lo <= bn < hi)
    ensures SlotOf(i, bn) !in SlotsOf(i, lo, hi)
  {
  }

  // ---------- The bound ----------

  /** n bytes at offset off are in blocks lo to hi - 1. */
  predicate Spans(off: nat, n: nat, lo: nat, hi: nat) {
    lo == off / BSIZE && hi == EndBlock(off, n)
  }

  lemma SpanOf(off: nat, n: nat) returns (lo: nat, hi: nat)
    requires off + n <= MAXFILE * BSIZE
    ensures Spans(off, n, lo, hi) && Spans(off, 0, lo, lo) && lo <= hi <= MAXFILE
  {
    lo, hi := off / BSIZE, EndBlock(off, n);
    EndBlockIn(off, n);
  }

  /** Where the next piece of n bytes at offset off goes: up to src[..end], into block bn from byte o on. */
  method NextPiece(off: nat, tot: nat, n: nat, ghost lo: nat, ghost hi: nat, ghost last: nat)
    returns (end: nat, bn: nat, o: nat, ghost next: nat)
    requires tot < n && (tot == 0 || (off + tot) % BSIZE == 0) && off + n <= MAXFILE * BSIZE
    requires Spans(off, tot, lo, hi) && Spans(off, n, lo, last)
    ensures tot < end <= n && (end == n || (off + end) % BSIZE == 0)
    ensures bn == hi < MAXFILE && lo <= hi < last <= MAXFILE && Place(off + tot, bn, o) && o + (end - tot) <= BSIZE
    ensures next == hi + 1 && Spans(off, end, lo, next)
  {
    next := hi + 1;
    end := PieceEnd(off, tot, n);
    bn, o := (off + tot) / BSIZE, (off + tot) % BSIZE;
    EndBlockNext(off, tot, end);
    EndBlockGrows(off, end, n);
    EndBlockIn(off, n);
  }

  /** One more piece ends one block further on. */
  lemma EndBlockNext(off: nat, tot: nat, end: nat)
    requires 0 < end - tot <= BSIZE - (off + tot) % BSIZE && (tot == 0 || (off + tot) % BSIZE == 0)
    ensures EndBlock(off, tot) == (off + tot) / BSIZE && EndBlock(off, end) == (off + tot) / BSIZE + 1
  {
    NextBlock(off, tot, end);
  }

  lemma EndBlockIn(off: nat, n: nat)
    requires off + n <= MAXFILE * BSIZE
    ensures off / BSIZE <= EndBlock(off, n) <= MAXFILE
  {
  }

  /** What writing blocks lo to hi - 1 of file i logs: for each slot it fills, the bitmap block, the zeroed
      block and the table the slot is in; the blocks that hold the bytes; the inode's block if the file has
      grown. */
  ghost function BlocksCost(sb: Super, v0: Vol, v: Vol, i: nat, lo: nat, hi: nat, grown: bool): set<nat>
    requires Shaped(sb, v0) && Shaped(sb, v) && i < sb.ninodes && hi <= MAXFILE
  {
    FillLog(sb, v, Needs(sb, v0, i, lo, hi)) + DataBlocks(sb, v, i, lo, hi) + if grown then {IBlock(sb, i)} else {}
  }

  lemma {:induction false} UnionSize(a: set<nat>, b: set<nat>)
    ensures |a + b| <= |a| + |b|
    decreases |b|
  {
    if b == {} {
      assert a + b == a;
    } else {
      var x :| x in b;
      UnionSize(a, b - {x});
      assert a + b == (a + (b - {x})) + {x};
    }
  }

  ghost function Bitmaps(sb: Super, v: Vol, slots: set<Slot>): set<nat>
    requires |v.ino| == sb.ninodes && AllIn(sb, slots)
  {
    set s | s in slots :: BBlock(sb, At(sb, v, s))
  }

  lemma {:induction false} BitmapsSize(sb: Super, v: Vol, slots: set<Slot>)
    requires |v.ino| == sb.ninodes && AllIn(sb, slots)
    ensures |Bitmaps(sb, v, slots)| <= |slots|
    decreases |slots|
  {
    if slots == {} {
      assert Bitmaps(sb, v, slots) == {};
    } else {
      var s :| s in slots;
      BitmapsSize(sb, v, slots - {s});
      assert Bitmaps(sb, v, slots) == Bitmaps(sb, v, slots - {s}) + {BBlock(sb, At(sb, v, s))};
    }
  }

  lemma {:induction false} DataSize(sb: Super, v: Vol, i: nat, lo: nat, hi: nat)
    requires |v.ino| == sb.ninodes && i < sb.ninodes && lo <= hi <= MAXFILE
    ensures |DataBlocks(sb, v, i, lo, hi)| <= hi - lo
    decreases hi
  {
    if lo == hi {
      assert DataBlocks(sb, v, i, lo, hi) == {};
    } else {
      DataSize(sb, v, i, lo, hi - 1);
      DataMore(sb, v, v, i, lo, hi - 1);
    }
  }

  lemma {:induction false} RangeSize(i: nat, lo: nat, hi: nat)
    requires lo <= hi
    ensures |set bn: nat | lo <= bn < hi :: SlotOf(i, bn)| <= hi - lo
    decreases hi
  {
    if lo == hi {
      assert (set bn: nat | lo <= bn < hi :: SlotOf(i, bn)) == {};
    } else {
      RangeSize(i, lo, hi - 1);
      assert (set bn: nat | lo <= bn < hi :: SlotOf(i, bn)) ==
             (set bn: nat | lo <= bn < hi - 1 :: SlotOf(i, bn)) + {SlotOf(i, hi - 1)};
    }
  }

  /** In a file without holes only blocks past its end need to be mapped. */
  lemma NeedsSize(sb: Super, v: Vol, i: nat, lo: nat, hi: nat, n0: nat)
    requires Shaped(sb, v) && i < sb.ninodes && lo <= hi <= MAXFILE && lo <= n0 && MappedExactly(sb, v, i, n0)
    ensures |Needs(sb, v, i, lo, hi)| <= Max(n0, hi) - n0 + Count(n0 <= NDIRECT < hi)
  {
    var past := set bn: nat | n0 <= bn < Max(n0, hi) :: SlotOf(i, bn);
    var table := if n0 <= NDIRECT < hi then {Table(i)} else {};
    forall s | s in Needs(sb, v, i, lo, hi)
      ensures s in past + table
    {
      if s != Table(i) {
        var bn: nat :| lo <= bn < hi && s == SlotOf(i, bn);
        assert BlockOf(sb, v, i, bn) == 0;
      }
    }
    RangeSize(i, n0, Max(n0, hi));
    SubsetSize(Needs(sb, v, i, lo, hi), past + table);
  }

  lemma FillLogWithin(sb: Super, v0: Vol, v: Vol, i: nat, lo: nat, hi: nat)
    requires Shaped(sb, v0) && Shaped(sb, v) && i < sb.ninodes && hi <= MAXFILE
    ensures var need := Needs(sb, v0, i, lo, hi);
            FillLog(sb, v, need) <= Bitmaps(sb, v, need) + DataBlocks(sb, v, i, lo, hi) + {At(sb, v, Table(i))}
  {
    var need := Needs(sb, v0, i, lo, hi);
    forall b | b in FillLog(sb, v, need)
      ensures b in Bitmaps(sb, v, need) + DataBlocks(sb, v, i, lo, hi) + {At(sb, v, Table(i))}
    {
      var s :| s in need && b in SlotLog(sb, v, s);
      assert s.i == i;
      if s != Table(i) {
        var bn: nat :| lo <= bn < hi && s == SlotOf(i, bn);
        assert BlockOf(sb, v, i, bn) in DataBlocks(sb, v, i, lo, hi);
      }
    }
  }

  lemma ChunkArithmetic(off: nat, n: nat, size: nat)
    requires off <= size && n <= 3 * BSIZE
    ensures var n0, hi := BlocksFor(size), EndBlock(off, n);
            off / BSIZE <= n0 && off / BSIZE <= hi && hi - off / BSIZE + Max(n0, hi) - n0 <= 7
  {
    if n > 0 && off % BSIZE == 0 {
      assert BlocksFor(off + n) <= off / BSIZE + 3;
      assert off / BSIZE <= BlocksFor(size);
    } else if n > 0 {
      assert BlocksFor(off + n) <= off / BSIZE + 4;
      assert off / BSIZE + 1 <= BlocksFor(size);
    }
  }

  /** The bound filewrite counts on: a chunk of at most three blocks' worth of bytes logs at most
      MAXOPBLOCKS blocks, counting its data, its bitmap blocks, the indirect table and the inode. */
  lemma CostBound(sb: Super, v0: Vol, v: Vol, i: nat, off: nat, n: nat, lo: nat, hi: nat, grown: bool)
    requires Shaped(sb, v0) && Shaped(sb, v) && i < sb.ninodes && off <= v0.ino[i].size && n <= 3 * BSIZE
    requires NoHoles(sb, v0, i) && Spans(off, n, lo, hi) && hi <= MAXFILE
    ensures |BlocksCost(sb, v0, v, i, lo, hi, grown)| <= MAXOPBLOCKS
  {
    ChunkArithmetic(off, n, v0.ino[i].size);
    CostWithin(sb, v0, v, i, lo, hi, BlocksFor(v0.ino[i].size), BlocksCost(sb, v0, v, i, lo, hi, grown));
  }

  lemma CostWithin(sb: Super, v0: Vol, v: Vol, i: nat, lo: nat, hi: nat, n0: nat, cost: set<nat>)
    requires Shaped(sb, v0) && Shaped(sb, v) && i < sb.ninodes && lo <= hi <= MAXFILE && lo <= n0
    requires MappedExactly(sb, v0, i, n0)
    requires cost <= FillLog(sb, v, Needs(sb, v0, i, lo, hi)) + DataBlocks(sb, v, i, lo, hi) + {IBlock(sb, i)}
    ensures |cost| <= hi - lo + Max(n0, hi) - n0 + Count(n0 <= NDIRECT < hi) + 2
  {
    var maps, data := Bitmaps(sb, v, Needs(sb, v0, i, lo, hi)), DataBlocks(sb, v, i, lo, hi);
    var two := {At(sb, v, Table(i)), IBlock(sb, i)};
    FillLogWithin(sb, v0, v, i, lo, hi);
    NeedsSize(sb, v0, i, lo, hi, n0);
    BitmapsSize(sb, v, Needs(sb, v0, i, lo, hi));
    DataSize(sb, v, i, lo, hi);
    UnionSize(maps, data);
    UnionSize(maps + data, two);
    SubsetSize(cost, maps + data + two);
  }

  // ---------- The finished write ----------

  /** All that writei promises about a file without holes, for a write of n bytes to blocks lo to hi - 1. */
  ghost predicate Tidy(sb: Super, v0: Vol, v: Vol, i: nat, lo: nat, hi: nat, n: nat, grown: bool)
    requires Shaped(sb, v0) && Shaped(sb, v) && i < sb.ninodes && hi <= MAXFILE
  {
    NoHoles(sb, v0, i) ==>
      && NoHoles(sb, v, i)
      && (DiskInode(sb, v0.blk, i) == v0.ino[i] ==> DiskInode(sb, v.blk, i) == v.ino[i])
      && (n <= 3 * BSIZE ==> |BlocksCost(sb, v0, v, i, lo, hi, grown)| <= MAXOPBLOCKS)
  }

  lemma WriteTidy(sb: Super, v0: Vol, v: Vol, v': Vol, i: nat, off: nat, src: seq<Byte>, end: nat, lo: nat, hi: nat)
    requires Written(sb, v0, v, i, off, src, |src|) && Finished(sb, v, v', i, end) && Shaped(sb, v')
    requires off <= v0.ino[i].size && end == off + |src| && Spans(off, |src|, lo, hi) && lo <= hi <= MAXFILE
    requires Fills(sb, v0, v, Needs(sb, v0, i, lo, hi))
    ensures Tidy(sb, v0, v', i, lo, hi, |src|, end > v0.ino[i].size)
  {
    if NoHoles(sb, v0, i) {
      var n0 := BlocksFor(v0.ino[i].size);
      EndIsMax(off, |src|, end, v0.ino[i].size);
      FillsExact(sb, v0, v, i, lo, hi, n0);
      FinishedExact(sb, v0, v, v', i, off, src, end);
      if |src| <= 3 * BSIZE {
        CostBound(sb, v0, v', i, off, |src|, lo, hi, end > v0.ino[i].size);
      }
    }
  }

  lemma EndIsMax(off: nat, n: nat, end: nat, size: nat)
    requires off <= size && end == off + n
    ensures off / BSIZE <= BlocksFor(size)
    ensures Max(BlocksFor(size), EndBlock(off, n)) == Max(BlocksFor(size), BlocksFor(end))
  {
  }

  lemma EndBlockGrows(off: nat, tot: nat, n: nat)
    requires 0 < tot <= n
    ensures EndBlock(off, tot) <= EndBlock(off, n)
  {
  }

  /** One iteration of writei: bmap has taken v to mid, and the block has been overwritten. */
  lemma StepLogs(sb: Super, v0: Vol, v: Vol, mid: Vol, v': Vol, i: nat, lo: nat, hi: nat, data: Block, base: set<nat>,
                 before: set<nat>, after: set<nat>)
    requires Owned(sb, v0) && Owned(sb, mid) && lo <= hi < MAXFILE
    requires Logs(sb, v0, v, i, lo, hi, base, before)
    requires Fills(sb, v, mid, Empty(sb, v, BmapSlots(i, hi))) && 0 < BlockOf(sb, mid, i, hi) < sb.size
    requires after == before + FillLog(sb, mid, Empty(sb, v, BmapSlots(i, hi))) + {BlockOf(sb, mid, i, hi)}
    requires v' == Poke(mid, BlockOf(sb, mid, i, hi), data)
    ensures Logs(sb, v0, v', i, lo, hi + 1, base, after)
  {
    LogsMore(sb, v0, v, mid, i, lo, hi, base, before, after);
    PokeSlots(sb, mid, i, hi, data);
    LogsStays(sb, v0, mid, v', i, lo, hi + 1, base, after);
  }

  /** The end of writei. */
  lemma FinishedLogs(sb: Super, v0: Vol, v: Vol, v': Vol, i: nat, end: nat, lo: nat, hi: nat, base: set<nat>,
                     before: set<nat>, after: set<nat>)
    requires Owned(sb, v) && Finished(sb, v, v', i, end) && Logs(sb, v0, v, i, lo, hi, base, before)
    requires after == before + if end > v0.ino[i].size then {IBlock(sb, i)} else {}
    ensures Shaped(sb, v') && Fills(sb, v0, v', Needs(sb, v0, i, lo, hi))
    ensures after == base + BlocksCost(sb, v0, v', i, lo, hi, end > v0.ino[i].size)
  {
    FinishedKeeps(sb, v, v', i, end);
    LogsStays(sb, v0, v, v', i, lo, hi, base, before);
  }

  lemma NoneFree(sb: Super, blk: seq<Block>)
    requires GoodSuper(sb) && |blk| == sb.size && FreeBlocks(sb, blk) == {}
    ensures forall b: nat :: b < sb.size ==> Used(sb, blk, b)
  {
    forall b: nat | b < sb.size
      ensures Used(sb, blk, b)
    {
      assert b !in FreeBlocks(sb, blk);
    }
  }
}
