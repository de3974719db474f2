/** bio.c on values: the buffer cache with its LRU list, and every interleaving of its clients. */
module CacheMachine {
  import opened Common
  import opened Blocks

  type Disk = seq<Block>

  /** struct buf. `holder` is the client that holds the buffer's sleep lock. */
  datatype Buf = Buf(dev: nat, blockno: nat, valid: bool, dirty: bool, refcnt: nat, holder: Option<nat>, data: Block)

  /** The slots, and the slot numbers in list order: head.next, the most recently used, first. */
  datatype Cache = Cache(buf: seq<Buf>, order: seq<nat>)

  const ROOTDEV: nat := 1

  predicate Labelled(x: Buf, dev: nat, blockno: nat) {
    x.dev == dev && x.blockno == blockno
  }

  /** A slot bget may recycle: nobody refers to it, and log.c has not pinned it. */
  predicate Recyclable(x: Buf) {
    x.refcnt == 0 && !x.dirty
  }

  ghost predicate GoodOrder(n: nat, order: seq<nat>) {
    && (forall k :: 0 <= k < |order| ==> order[k] < n)
    && Distinct(order)
    && (forall i: nat :: i < n ==> i in order)
  }

  /** bget's first loop: the slot that holds the block, searching the list from position k on. */
  function Find(c: Cache, dev: nat, blockno: nat, k: nat): (r: Option<nat>)
    requires k <= |c.order|
    requires forall j :: 0 <= j < |c.order| ==> c.order[j] < |c.buf|
    decreases |c.order| - k
  {
    if k == |c.order| then None
    else if Labelled(c.buf[c.order[k]], dev, blockno) then Some(c.order[k])
    else Find(c, dev, blockno, k + 1)
  }

  /** bget's second loop: the slot to recycle, searching backwards from position k - 1. */
  function Victim(c: Cache, k: nat): (r: Option<nat>)
    requires k <= |c.order|
    requires forall j :: 0 <= j < |c.order| ==> c.order[j] < |c.buf|
  {
    if k == 0 then None
    else if Recyclable(c.buf[c.order[k - 1]]) then Some(c.order[k - 1])
    else Victim(c, k - 1)
  }

  datatype GetResult = Slot(c: Cache, i: nat) | NoBuffers

  /** bget up to the release of bcache.lock; NoBuffers is the panic. */
  function Get(c: Cache, dev: nat, blockno: nat): GetResult
    requires forall j :: 0 <= j < |c.order| ==> c.order[j] < |c.buf|
  {
    match Find(c, dev, blockno, 0)
    case Some(i) =>
        if i < |c.buf| then Slot(c.(buf := c.buf[i := c.buf[i].(refcnt := c.buf[i].refcnt + 1)]), i) else NoBuffers
    case None =>
      match Victim(c, |c.order|)
      case Some(i) =>
        if i < |c.buf| then
          Slot(c.(buf := c.buf[i := c.buf[i].(dev := dev, blockno := blockno, valid := false, dirty := false,
            refcnt := 1)]), i)
        else NoBuffers
      case None => NoBuffers
  }

  /** The list without slot i. */
  function Without(order: seq<nat>, i: nat): seq<nat> {
    if order == [] then []
    else if order[0] == i then Without(order[1..], i)
    else [order[0]] + Without(order[1..], i)
  }

  /** brelse after the release of the sleep lock: drop the reference; the last one moves the slot to the
      front of the list. */
  function Drop(c: Cache, i: nat): Cache
    requires i < |c.buf| && c.buf[i].refcnt > 0
  {
    var n := c.buf[i].refcnt - 1;
    Cache(c.buf[i := c.buf[i].(refcnt := n)], if n == 0 then [i] + Without(c.order, i) else c.order)
  }

  // ---------- What the searches find ----------

  lemma {:induction false} FindSpec(c: Cache, dev: nat, blockno: nat, k: nat)
    requires k <= |c.order| && (forall j :: 0 <= j < |c.order| ==> c.order[j] < |c.buf|)
    ensures var r := Find(c, dev, blockno, k);
            && (r.Some? ==> r.value < |c.buf| && Labelled(c.buf[r.value], dev, blockno))
            && (r.None? ==> forall i :: i in c.order[k..] ==> !Labelled(c.buf[i], dev, blockno))
    decreases |c.order| - k
  {
    assert k < |c.order| ==> c.order[k..] == [c.order[k]] + c.order[k + 1..];
    if k < |c.order| && !Labelled(c.buf[c.order[k]], dev, blockno) {
      FindSpec(c, dev, blockno, k + 1);
    }
  }

  lemma {:induction false} VictimSpec(c: Cache, k: nat)
    requires k <= |c.order| && (forall j :: 0 <= j < |c.order| ==> c.order[j] < |c.buf|)
    ensures var r := Victim(c, k);
            && (r.Some? ==> exists m :: 0 <= m < k && c.order[m] == r.value && Recyclable(c.buf[c.order[m]])
                              && forall j :: m < j < k ==> !Recyclable(c.buf[c.order[j]]))
            && (r.None? ==> forall i :: i in c.order[..k] ==> !Recyclable(c.buf[i]))
  {
    assert k > 0 ==> c.order[..k] == c.order[..k - 1] + [c.order[k - 1]];
    if k > 0 && !Recyclable(c.buf[c.order[k - 1]]) {
      VictimSpec(c, k - 1);
    }
  }

  /** What bget does, in terms of the slots alone: a hit takes the slot that holds the block; a miss
      recycles a slot that is neither referenced nor pinned; it panics only when there is none. */
  lemma GetSpec(c: Cache, dev: nat, blockno: nat)
    requires GoodOrder(|c.buf|, c.order)
    ensures var r := Get(c, dev, blockno);
            && (r.Slot? ==>
                  && r.i < |c.buf| && r.c.order == c.order && |r.c.buf| == |c.buf|
                  && (forall j :: 0 <= j < |c.buf| && j != r.i ==> r.c.buf[j] == c.buf[j])
                  && (if Labelled(c.buf[r.i], dev, blockno)
                      then r.c.buf[r.i] == c.buf[r.i].(refcnt := c.buf[r.i].refcnt + 1)
                      else
                        && (forall j :: 0 <= j < |c.buf| ==> !Labelled(c.buf[j], dev, blockno))
                        && Recyclable(c.buf[r.i])
                        && r.c.buf[r.i] ==
                           c.buf[r.i].(dev := dev, blockno := blockno, valid := false, dirty := false, refcnt := 1)))
            && (r.NoBuffers? ==> forall j :: 0 <= j < |c.buf| ==>
                 !Labelled(c.buf[j], dev, blockno) && !Recyclable(c.buf[j]))
  {
    FindSpec(c, dev, blockno, 0);
    VictimSpec(c, |c.order|);
    assert c.order[0..] == c.order && c.order[..|c.order|] == c.order;
  }

  lemma {:induction false} WithoutSpec(order: seq<nat>, i: nat)
    ensures forall x :: x in Without(order, i) <==> x in order && x != i
    ensures Distinct(order) ==> Distinct(Without(order, i))
  {
    if order != [] {
      var rest := order[1..];
      WithoutSpec(rest, i);
      assert order == [order[0]] + rest;
      if Distinct(order) {
        assert Distinct(rest) by {
          assert forall k :: 0 <= k < |rest| ==> rest[k] == order[k + 1];
        }
        assert order[0] !in rest;
        DistinctCons(order[0], Without(rest, i));
      }
    }
  }

  lemma DistinctCons(x: nat, s: seq<nat>)
    requires Distinct(s)
    ensures x !in s ==> Distinct([x] + s)
  {
  }

  lemma DropOrder(n: nat, order: seq<nat>, i: nat)
    requires GoodOrder(n, order) && i < n
    ensures GoodOrder(n, [i] + Without(order, i))
  {
    WithoutSpec(order, i);
    DistinctCons(i, Without(order, i));
    var o := [i] + Without(order, i);
    assert forall x :: x in o ==> x == i || x in order;
    assert forall k :: 0 <= k < |o| ==> o[k] in o;
  }

  // ---------- Clients ----------

  /** Where a client of the cache stands with one buffer: between bget's critical section and
      acquiresleep, holding the sleep lock, or between releasesleep and brelse's critical section.
      `modified` says it has changed the data and called neither bwrite nor log_write since. */
  datatype Phase = Waiting | Holding(modified: bool) | Leaving

  datatype Handle = Handle(slot: nat, phase: Phase)

  /** `stored` is history: for each block the contents of the last bwrite or log_write. */
  datatype Sys = Sys(c: Cache, disk: Disk, handles: map<nat, Handle>, stored: Disk)

  datatype Step =
    | StartRead(h: nat, b: nat) // bget's critical section
    | Lock(h: nat) // acquiresleep returns
    | Fetch(h: nat) // iderw for a buffer that is not valid
    | Change(h: nat, data: Block)
    | Store(h: nat) // bwrite
    | Pin(h: nat) // log_write sets B_DIRTY
    | Unlock(h: nat) // brelse up to releasesleep
    | Forget(h: nat) // the rest of brelse

  datatype Outcome = Ok(s: Sys) | Stuck | Panicked

  predicate Holds(s: Sys, h: nat) {
    && h in s.handles && s.handles[h].phase.Holding?
    && s.handles[h].slot < |s.c.buf| && s.c.buf[s.handles[h].slot].holder == Some(h)
    && s.c.buf[s.handles[h].slot].blockno < |s.disk| && |s.stored| == |s.disk|
  }

  function SetBuf(s: Sys, i: nat, x: Buf): Sys
    requires i < |s.c.buf|
  {
    s.(c := s.c.(buf := s.c.buf[i := x]))
  }

  function Next(s: Sys, step: Step): Outcome {
    match step
    case StartRead(h, b) =>
      if h in s.handles || b >= |s.disk| || (exists j :: 0 <= j < |s.c.order| && s.c.order[j] >= |s.c.buf|) then Stuck
      else (match Get(s.c, ROOTDEV, b)
            case Slot(c, i) => Ok(s.(c := c, handles := s.handles[h := Handle(i, Waiting)]))
            case NoBuffers => Panicked)
    case Lock(h) =>
      if h !in s.handles || s.handles[h].phase != Waiting || s.handles[h].slot >= |s.c.buf| then Stuck
      else
        var i := s.handles[h].slot;
        if s.c.buf[i].holder != None then Stuck
        else Ok(SetBuf(s, i, s.c.buf[i].(holder := Some(h))).(handles := s.handles[h := Handle(i, Holding(false))]))
    case Fetch(h) =>
      if !Holds(s, h) || s.c.buf[s.handles[h].slot].valid then Stuck
      else
        var i := s.handles[h].slot;
        Ok(SetBuf(s, i, s.c.buf[i].(data := s.disk[s.c.buf[i].blockno], valid := true)))
    case Change(h, data) =>
      if !Holds(s, h) || !s.c.buf[s.handles[h].slot].valid then Stuck
      else
        var i := s.handles[h].slot;
        Ok(SetBuf(s, i, s.c.buf[i].(data := data)).(handles := s.handles[h := Handle(i, Holding(true))]))
    case Store(h) =>
      if !Holds(s, h) || !s.c.buf[s.handles[h].slot].valid then Stuck
      else
        var i := s.handles[h].slot;
        var x := s.c.buf[i];
        Ok(SetBuf(s, i, x.(dirty := false)).(disk := s.disk[x.blockno := x.data],
          stored := s.stored[x.blockno := x.data],
                                             handles := s.handles[h := Handle(i, Holding(false))]))
    case Pin(h) =>
      if !Holds(s, h) || !s.c.buf[s.handles[h].slot].valid then Stuck
      else
        var i := s.handles[h].slot;
        var x := s.c.buf[i];
        Ok(SetBuf(s, i, x.(dirty := true)).(stored := s.stored[x.blockno := x.data],
                                            handles := s.handles[h := Handle(i, Holding(false))]))
    case Unlock(h) =>
      if !Holds(s, h) || !s.c.buf[s.handles[h].slot].valid || s.handles[h].phase.modified then Stuck
      else
        var i := s.handles[h].slot;
        Ok(SetBuf(s, i, s.c.buf[i].(holder := None)).(handles := s.handles[h := Handle(i, Leaving)]))
    case Forget(h) =>
      if h !in s.handles || s.handles[h].phase != Leaving || s.handles[h].slot >= |s.c.buf|
         || s.c.buf[s.handles[h].slot].refcnt == 0 then Stuck
      else Ok(s.(c := Drop(s.c, s.handles[h].slot), handles := s.handles - {h}))
  }

  /** After binit, on disk d: slot i is the i-th to be put at the front of the list, and every slot is
      labelled device 0. */
  function Init(d: Disk, n: nat): Sys {
    Sys(Cache(seq(n, _ => Buf(0, 0, false, false, 0, None, ZeroBlock())), seq(n, k requires 0 <= k < n => n - 1 - k)),
        d, map[], d)
  }

  function Run(s: Sys, steps: seq<Step>): Outcome
    decreases |steps|
  {
    if steps == [] then Ok(s)
    else match Next(s, steps[0])
      case Ok(s') => Run(s', steps[1..])
      case o => o
  }

  // ---------- The invariant ----------

  ghost function At(s: Sys, i: nat): set<nat> {
    set h | h in s.handles && s.handles[h].slot == i
  }

  ghost predicate Modified(s: Sys, i: nat)
    requires i < |s.c.buf|
  {
    var x := s.c.buf[i].holder;
    x.Some? && x.value in s.handles && s.handles[x.value].phase == Holding(true)
  }

  /** No two slots hold the same block of a device other than 0. */
  ghost predicate Unique(c: Cache) {
    forall i, j :: 0 <= i < j < |c.buf| && c.buf[i].dev != 0 ==> !Labelled(c.buf[j], c.buf[i].dev, c.buf[i].blockno)
  }

  /** A slot's reference count is the number of clients that refer to it. */
  ghost predicate Counted(s: Sys) {
    && (forall h :: h in s.handles ==> s.handles[h].slot < |s.c.buf| && s.c.buf[s.handles[h].slot].dev == ROOTDEV)
    && (forall i: nat :: i < |s.c.buf| ==> s.c.buf[i].refcnt == |At(s, i)|)
  }

  /** A slot's lock is held by the client that says it holds it. */
  ghost predicate Locks(s: Sys) {
    && (forall h :: h in s.handles && s.handles[h].phase.Holding? ==>
          s.handles[h].slot < |s.c.buf| && s.c.buf[s.handles[h].slot].holder == Some(h))
    && (forall i: nat :: i < |s.c.buf| && s.c.buf[i].holder.Some? ==> HeldBy(s, i, s.c.buf[i].holder.value))
  }

  ghost predicate HeldBy(s: Sys, i: nat, h: nat) {
    h in s.handles && s.handles[h].slot == i && s.handles[h].phase.Holding?
  }

  ghost predicate SlotOk(s: Sys, i: nat)
    requires i < |s.c.buf| && |s.stored| == |s.disk|
  {
    var x := s.c.buf[i];
    && (x.dev == 0 || x.dev == ROOTDEV)
    && (x.dirty ==> x.valid && x.dev == ROOTDEV)
    && (x.dev == ROOTDEV ==> x.blockno < |s.disk|)
    && (x.dev == ROOTDEV && x.valid && !Modified(s, i) ==> x.data == s.stored[x.blockno])
    && (x.dev == ROOTDEV && !x.dirty ==> s.disk[x.blockno] == s.stored[x.blockno])
    && (Modified(s, i) ==> x.valid)
  }

  ghost predicate ContentsOk(s: Sys) {
    && |s.stored| == |s.disk|
    && (forall i: nat :: i < |s.c.buf| ==> SlotOk(s, i))
    && (forall b: nat :: b < |s.disk| ==>
          s.disk[b] == s.stored[b] || exists i :: 0 <= i < |s.c.buf| && Labelled(s.c.buf[i], ROOTDEV, b))
  }

  ghost predicate Inv(s: Sys) {
    GoodOrder(|s.c.buf|, s.c.order) && Unique(s.c) && Counted(s) && Locks(s) && ContentsOk(s)
  }
}
