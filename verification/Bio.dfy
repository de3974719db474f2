/** bio.c over memide.c: the buffer cache as it is coded, with its doubly linked list. */
module Bio {
  import opened Common
  import opened Blocks
  import opened CacheMachine
  import opened CacheSafety

  // ---------- The linked list ----------

  /** The node at position k of the circle: the slots of `order`, with the head before and after them. */
  function Node(head: nat, order: seq<nat>, k: int): nat {
    if 0 <= k < |order| then order[k] else head
  }

  /** The pointers of the nodes form one circle through the head and the slots of `order`, both ways
      round. The head is the number one past the last slot. */
  ghost predicate Linked(next: seq<nat>, prev: seq<nat>, head: nat, order: seq<nat>) {
    && |next| == |prev| == head + 1
    && (forall k :: 0 <= k < |order| ==> order[k] < head)
    && Distinct(order)
    && (forall k :: -1 <= k < |order| ==> next[Node(head, order, k)] == Node(head, order, k + 1))
    && (forall k :: 0 <= k <= |order| ==> prev[Node(head, order, k)] == Node(head, order, k - 1))
  }

  /** Putting a slot that is not on the list at its front. */
  lemma LinkFront(next: seq<nat>, prev: seq<nat>, head: nat, order: seq<nat>, i: nat)
    requires Linked(next, prev, head, order) && i < head && i !in order
    ensures var first := next[head];
            first <= head && Linked(next[i := first][head := i], prev[i := head][first := i], head, [i] + order)
  {
    var first := next[head];
    assert Node(head, order, -1) == head && first == Node(head, order, 0);
    var order' := [i] + order;
    assert forall k :: 0 <= k <= |order| ==> Node(head, order', k + 1) == Node(head, order, k);
    var next' := next[i := first][head := i];
    var prev' := prev[i := head][first := i];
    forall k | -1 <= k < |order'|
      ensures next'[Node(head, order', k)] == Node(head, order', k + 1)
    {
      if k >= 1 {
        assert Node(head, order', k) == Node(head, order, k - 1) == order[k - 1];
        assert Node(head, order', k + 1) == Node(head, order, k);
      }
    }
    forall k | 0 <= k <= |order'|
      ensures prev'[Node(head, order', k)] == Node(head, order', k - 1)
    {
      if k >= 2 {
        assert Node(head, order', k) == Node(head, order, k - 1);
        assert Node(head, order', k - 1) == Node(head, order, k - 2) == order[k - 2];
      }
    }
  }

  /** Taking the slot at position m off the list. */
  lemma Unlink(next: seq<nat>, prev: seq<nat>, head: nat, order: seq<nat>, m: nat)
    requires Linked(next, prev, head, order) && m < |order|
    ensures var i := order[m];
            && next[i] <= head && prev[i] <= head
            && Linked(next[prev[i] := next[i]], prev[next[i] := prev[i]], head, order[..m] + order[m + 1..])
  {
    var i := order[m];
    assert Node(head, order, m) == i;
    assert next[i] == Node(head, order, m + 1) && prev[i] == Node(head, order, m - 1);
    var order' := order[..m] + order[m + 1..];
    assert forall k :: -1 <= k < m ==> Node(head, order', k) == Node(head, order, k);
    assert forall k :: m <= k <= |order'| ==> Node(head, order', k) == Node(head, order, k + 1);
    var next' := next[prev[i] := next[i]];
    var prev' := prev[next[i] := prev[i]];
    forall k | -1 <= k < |order'|
      ensures next'[Node(head, order', k)] == Node(head, order', k + 1)
    {
      if k < m - 1 {
        assert Node(head, order', k + 1) == Node(head, order, k + 1);
      } else if k >= m {
        assert Node(head, order', k + 1) == Node(head, order, k + 2);
      }
    }
    forall k | 0 <= k <= |order'|
      ensures prev'[Node(head, order', k)] == Node(head, order', k - 1)
    {
      if k < m {
        assert Node(head, order', k - 1) == Node(head, order, k - 1);
      } else if k > m {
        assert Node(head, order', k - 1) == Node(head, order, k);
      }
    }
  }

  lemma {:induction false} WithoutAt(order: seq<nat>, m: nat)
    requires Distinct(order) && m < |order|
    ensures Without(order, order[m]) == order[..m] + order[m + 1..]
  {
    var rest := order[1..];
    assert order == [order[0]] + rest;
    assert forall k :: 0 <= k < |rest| ==> rest[k] == order[k + 1];
    if m == 0 {
      WithoutNone(rest, order[0]);
    } else {
      WithoutAt(rest, m - 1);
      assert rest[..m - 1] == order[1..m] && rest[m..] == order[m + 1..];
      assert order[..m] == [order[0]] + order[1..m];
    }
  }

  lemma {:induction false} WithoutNone(order: seq<nat>, i: nat)
    requires i !in order
    ensures Without(order, i) == order
  {
    if order != [] {
      assert order == [order[0]] + order[1..];
      WithoutNone(order[1..], i);
    }
  }

  // ---------- The cache ----------

  /** bcache and the disk under it. Slots are numbered; `head` is |buf|. The ghost fields are the value
      the invariant speaks of, and `history`: the disk after each write. */
  class BCache {
    var buf: seq<Buf>
    var next: seq<nat>
    var prev: seq<nat>
    var disk: Disk
    ghost var order: seq<nat>
    ghost var handles: map<nat, Handle>
    ghost var stored: Disk
    ghost var history: seq<Disk>

    ghost function Abs(): Sys
      reads this
    {
      Sys(Cache(buf, order), disk, handles, stored)
    }

    ghost predicate Valid()
      reads this
    {
      Linked(next, prev, |buf|, order) && Inv(Abs())
    }

    /** binit. */
    constructor (d: Disk, n: nat)
      ensures Valid() && Abs() == Init(d, n) && history == [d]
    {
      var xs := seq(n, _ => Buf(0, 0, false, false, 0, None, ZeroBlock()));
      var nx: seq<nat> := seq(n + 1, _ => n);
      var pv: seq<nat> := seq(n + 1, _ => n);
      ghost var o: seq<nat> := [];
      var b := 0;
      while b < n
        invariant b <= n && |o| == b
        invariant forall k :: 0 <= k < b ==> o[k] == b - 1 - k
        invariant Linked(nx, pv, n, o)
      {
        LinkFront(nx, pv, n, o, b);
        var first := nx[n];
        nx := nx[b := first][n := b];
        pv := pv[b := n][first := b];
        o := [b] + o;
        b := b + 1;
      }
      buf, next, prev, disk := xs, nx, pv, d;
      order, handles, stored, history := o, map[], d, [d];
      new;
      assert o == Init(d, n).c.order;
      InitInv(d, n);
    }

    /** bget's first loop: from head.next forward, the slot that holds the block. */
    method FindBlock(blockno: nat) returns (r: Option<nat>)
      requires Linked(next, prev, |buf|, order)
      ensures r == Find(Cache(buf, order), ROOTDEV, blockno, 0)
      ensures r.Some? ==> r.value < |buf|
    {
      ghost var c := Cache(buf, order);
      var head := |buf|;
      var b := next[head];
      ghost var k := 0;
      assert Node(head, order, -1) == head;
      while b != head
        invariant 0 <= k <= |order| && b == Node(head, order, k)
        invariant Find(c, ROOTDEV, blockno, 0) == Find(c, ROOTDEV, blockno, k)
        decreases |order| - k
      {
        if buf[b].dev == ROOTDEV && buf[b].blockno == blockno {
          return Some(b);
        }
        b := next[b];
        k := k + 1;
      }
      return None;
    }

    /** bget's second loop: from head.prev backward, the slot to recycle. */
    method FindUnused() returns (r: Option<nat>)
      requires Linked(next, prev, |buf|, order)
      ensures r == Victim(Cache(buf, order), |order|)
      ensures r.Some? ==> r.value < |buf|
    {
      ghost var c := Cache(buf, order);
      var head := |buf|;
      var b := prev[head];
      ghost var k := |order|;
      assert Node(head, order, |order|) == head;
      while b != head
        invariant 0 <= k <= |order| && b == Node(head, order, k - 1)
        invariant Victim(c, |order|) == Victim(c, k)
        decreases k
      {
        if buf[b].refcnt == 0 && !buf[b].dirty {
          return Some(b);
        }
        b := prev[b];
        k := k - 1;
      }
      return None;
    }

    /** bget up to the release of bcache.lock, for client h; None is the panic "bget: no buffers". */
    method Bget(ghost h: nat, blockno: nat) returns (r: Option<nat>)
      requires Valid() && h !in handles && blockno < |disk|
      modifies `buf, `handles
      ensures Valid()
      ensures match Next(old(Abs()), StartRead(h, blockno))
              case Ok(s) => Abs() == s && r == Some(s.handles[h].slot)
              case _ => Abs() == old(Abs()) && r == None && Next(old(Abs()), StartRead(h, blockno)) == Panicked
    {
      ghost var s := Abs();
      r := FindBlock(blockno);
      if r.Some? {
        var b := r.value;
        StartReadHit(s, h, blockno, b);
        buf := buf[b := buf[b].(refcnt := buf[b].refcnt + 1)];
        handles := handles[h := Handle(b, Waiting)];
        StepInv(s, StartRead(h, blockno));
        return;
      }
      r := FindUnused();
      if r.Some? {
        var b := r.value;
        StartReadMiss(s, h, blockno, b);
        buf := buf[b := buf[b].(dev := ROOTDEV, blockno := blockno, valid := false, dirty := false, refcnt := 1)];
        handles := handles[h := Handle(b, Waiting)];
        StepInv(s, StartRead(h, blockno));
      }
    }

    /** acquiresleep(&b->lock), when the lock is free. */
    method Acquire(h: nat, i: nat)
      requires Valid() && h in handles && handles[h] == Handle(i, Waiting) && buf[i].holder == None
      modifies `buf, `handles
      ensures Valid() && Next(old(Abs()), Lock(h)) == Ok(Abs())
    {
      ghost var s := Abs();
      buf := buf[i := buf[i].(holder := Some(h))];
      handles := handles[h := Handle(i, Holding(false))];
      StepInv(s, Lock(h));
    }

    /** memide.c's iderw: write a dirty buffer to the disk, or read one that is not valid. */
    method Iderw(i: nat)
      requires i < |buf| && buf[i].holder.Some? && (!buf[i].valid || buf[i].dirty)
      requires buf[i].dev == ROOTDEV && buf[i].blockno < |disk|
      modifies `buf, `disk, `history
      ensures buf == old(buf)[i := old(buf[i]).(valid := true, dirty := false,
                                               data := if old(buf[i].dirty) then old(buf[i].data)
                                                       else old(disk[buf[i].blockno]))]
      ensures disk == if old(buf[i].dirty) then old(disk)[old(buf[i].blockno) := old(buf[i].data)] else old(disk)
      ensures history == if old(buf[i].dirty) then old(history) + [disk] else old(history)
    {
      var b := buf[i].blockno;
      if buf[i].dirty {
        buf := buf[i := buf[i].(dirty := false)];
        disk := disk[b := buf[i].data];
        history := history + [disk];
      } else {
        buf := buf[i := buf[i].(data := disk[b])];
      }
      buf := buf[i := buf[i].(valid := true)];
    }

    /** iderw for a buffer that is not valid yet. */
    method FetchBlock(h: nat, i: nat)
      requires Valid() && h in handles && handles[h].slot == i && handles[h].phase.Holding? && !buf[i].valid
      modifies `buf, `disk, `history
      ensures Valid() && Next(old(Abs()), Fetch(h)) == Ok(Abs()) && history == old(history)
    {
      ghost var s := Abs();
      assert SlotOk(s, i);
      Iderw(i);
      StepInv(s, Fetch(h));
    }

    /** bread, when no other client has the block's buffer locked. */
    method Bread(h: nat, blockno: nat) returns (r: Option<nat>)
      requires Valid() && h !in handles && blockno < |disk|
      requires forall i :: 0 <= i < |buf| && Labelled(buf[i], ROOTDEV, blockno) ==> buf[i].holder == None
      modifies `buf, `handles, `disk, `history
      ensures Valid() && history == old(history)
      ensures r.None? ==> Abs() == old(Abs()) && forall i :: 0 <= i < |buf| ==>
                !Labelled(buf[i], ROOTDEV, blockno) && !Recyclable(buf[i])
      ensures r.Some? ==> ReadBlock(old(Abs()), Abs(), h, blockno, r.value)
    {
      ghost var s := Abs();
      r := Bget(h, blockno);
      if r.None? {
        NoSlot(s, h, blockno);
      } else {
        StartReadFree(s, h, blockno);
        FinishRead(h, blockno, r.value, s);
      }
    }

    /** bread after bget. */
    method FinishRead(h: nat, blockno: nat, i: nat, ghost s: Sys)
      requires Valid() && Inv(s) && Next(s, StartRead(h, blockno)) == Ok(Abs()) && h in handles
      requires handles[h] == Handle(i, Waiting) && buf[i].holder == None
      modifies `buf, `handles, `disk, `history
      ensures Valid() && history == old(history) && ReadBlock(s, Abs(), h, blockno, i)
    {
      ghost var s1 := Abs();
      ghost var s2 := FillLocked(h, i);
      ReadDone(s, s1, s2, Abs(), h, blockno, i);
    }

    /** The buffer that bget has chosen: locked, and read from the disk if it is not valid. */
    method FillLocked(h: nat, i: nat) returns (ghost s2: Sys)
      requires Valid() && h in handles && handles[h] == Handle(i, Waiting) && buf[i].holder == None
      modifies `buf, `handles, `disk, `history
      ensures Valid() && history == old(history) && Next(old(Abs()), Lock(h)) == Ok(s2) && Inv(s2) && i < |s2.c.buf|
      ensures if s2.c.buf[i].valid then Abs() == s2 else Next(s2, Fetch(h)) == Ok(Abs())
    {
      Acquire(h, i);
      s2 := Abs();
      if !buf[i].valid {
        FetchBlock(h, i);
      }
    }

    /** The client changes the data of a buffer it holds. */
    method SetData(h: nat, i: nat, data: Block)
      requires Valid() && h in handles && handles[h].slot == i && handles[h].phase.Holding? && buf[i].valid
      modifies `buf, `handles
      ensures Valid() && Next(old(Abs()), Change(h, data)) == Ok(Abs())
    {
      ghost var s := Abs();
      assert SlotOk(s, i);
      buf := buf[i := buf[i].(data := data)];
      handles := handles[h := Handle(i, Holding(true))];
      StepInv(s, Change(h, data));
    }

    /** bwrite, by a client that holds the buffer. */
    method Bwrite(h: nat, i: nat)
      requires Valid() && h in handles && handles[h].slot == i && handles[h].phase.Holding? && buf[i].valid
      modifies `buf, `handles, `disk, `stored, `history
      ensures Valid() && Next(old(Abs()), Store(h)) == Ok(Abs())
      ensures history == old(history) + [disk]
    {
      ghost var s := Abs();
      StoreIs(s, h, i);
      buf := buf[i := buf[i].(dirty := true)];
      Iderw(i);
      assert buf == s.c.buf[i := s.c.buf[i].(dirty := false)];
      stored := stored[buf[i].blockno := buf[i].data];
      handles := handles[h := Handle(i, Holding(false))];
      assert Abs() == Next(s, Store(h)).s;
      StepInv(s, Store(h));
    }

    /** The pin of log_write: b->flags |= B_DIRTY. */
    method SetDirty(h: nat, i: nat)
      requires Valid() && h in handles && handles[h].slot == i && handles[h].phase.Holding? && buf[i].valid
      modifies `buf, `handles, `stored
      ensures Valid() && Next(old(Abs()), Pin(h)) == Ok(Abs())
    {
      ghost var s := Abs();
      assert SlotOk(s, i);
      buf := buf[i := buf[i].(dirty := true)];
      stored := stored[buf[i].blockno := buf[i].data];
      handles := handles[h := Handle(i, Holding(false))];
      StepInv(s, Pin(h));
    }

    /** releasesleep(&b->lock). */
    method ReleaseLock(h: nat, i: nat)
      requires Valid() && h in handles && handles[h] == Handle(i, Holding(false)) && buf[i].valid
      modifies `buf, `handles
      ensures Valid() && Next(old(Abs()), Unlock(h)) == Ok(Abs())
    {
      ghost var s := Abs();
      assert SlotOk(s, i);
      buf := buf[i := buf[i].(holder := None)];
      handles := handles[h := Handle(i, Leaving)];
      StepInv(s, Unlock(h));
    }

    /** One reference less, and if it was the last, the buffer goes to the front of the list. */
    method Unreference(h: nat, i: nat)
      requires Linked(next, prev, |buf|, order) && i < |buf| && i in order && buf[i].refcnt > 0
      modifies `buf, `next, `prev, `order, `handles
      ensures Linked(next, prev, |buf|, order) && Cache(buf, order) == Drop(Cache(old(buf), old(order)), i)
      ensures handles == old(handles) - {h}
    {
      buf := buf[i := buf[i].(refcnt := buf[i].refcnt - 1)];
      handles := handles - {h};
      if buf[i].refcnt == 0 {
        MoveToFront(i);
      }
    }

    /** The critical section of brelse: drop the reference, and if it was the last, move the buffer to
        the front of the list. */
    method DropReference(h: nat, i: nat)
      requires Valid() && h in handles && handles[h] == Handle(i, Leaving)
      modifies `buf, `next, `prev, `order, `handles
      ensures Valid() && Next(old(Abs()), Forget(h)) == Ok(Abs())
    {
      ghost var s := Abs();
      assert buf[i].refcnt > 0 by {
        assert h in At(s, i);
      }
      Unreference(h, i);
      assert Next(s, Forget(h)) == Ok(Abs());
      StepInv(s, Forget(h));
    }

    /** Take the buffer off the list and put it back at the front. */
    method MoveToFront(i: nat)
      requires Linked(next, prev, |buf|, order) && i in order
      modifies `next, `prev, `order
      ensures Linked(next, prev, |buf|, order) && order == [i] + Without(old(order), i)
    {
      var head := |buf|;
      ghost var m :| 0 <= m < |order| && order[m] == i;
      Unlink(next, prev, head, order, m);
      WithoutAt(order, m);
      WithoutSpec(order, i);
      prev, next := prev[next[i] := prev[i]], next[prev[i] := next[i]];
      order := Without(order, i);
      LinkFront(next, prev, head, order, i);
      var first := next[head];
      next := next[i := first][head := i];
      prev := prev[i := head][first := i];
      order := [i] + order;
    }

    /** brelse, by a client that has stored whatever it changed. */
    method Brelse(h: nat, i: nat)
      requires Valid() && h in handles && handles[h] == Handle(i, Holding(false)) && buf[i].valid
      modifies `buf, `next, `prev, `order, `handles
      ensures Valid() && Released(old(Abs()), Abs(), h, i)
    {
      ghost var s := Abs();
      ReleaseLock(h, i);
      ghost var s1 := Abs();
      DropReference(h, i);
      ReleasedIs(s, s1, Abs(), h, i);
    }
  }

  /** What brelse does: the client lets go of the slot; contents, labels and disk stay. */
  ghost predicate Released(s: Sys, s': Sys, h: nat, i: nat) {
    && i < |s.c.buf| && |s'.c.buf| == |s.c.buf|
    && (forall j :: 0 <= j < |s.c.buf| && j != i ==> s'.c.buf[j] == s.c.buf[j])
    && s.c.buf[i].refcnt > 0
    && s'.c.buf[i] == s.c.buf[i].(holder := None, refcnt := s.c.buf[i].refcnt - 1)
    && s'.disk == s.disk && s'.stored == s.stored && s'.handles == s.handles - {h}
  }

  /** What bread does: client h holds slot i, which now holds the block and its last stored contents. A
      slot that did not hold the block before was free for recycling. Nothing else changes. */
  ghost predicate ReadBlock(s: Sys, s': Sys, h: nat, b: nat, i: nat) {
    && LockedBlock(s, s', h, b, i)
    && s'.c.buf[i].valid
    && b < |s.stored|
    && s'.c.buf[i].data == s.stored[b]
  }

  ghost predicate LockedBlock(s: Sys, s': Sys, h: nat, b: nat, i: nat) {
    && i < |s.c.buf|
    && s' == s.(c := s.c.(buf := s'.c.buf), handles := s.handles[h := Handle(i, Holding(false))])
    && |s'.c.buf| == |s.c.buf|
    && (forall j :: 0 <= j < |s.c.buf| && j != i ==> s'.c.buf[j] == s.c.buf[j])
    && Labelled(s'.c.buf[i], ROOTDEV, b) && s'.c.buf[i].holder == Some(h)
    && (if Labelled(s.c.buf[i], ROOTDEV, b) then
          s'.c.buf[i].refcnt == s.c.buf[i].refcnt + 1 && s'.c.buf[i].dirty == s.c.buf[i].dirty
        else
          && Recyclable(s.c.buf[i]) && s'.c.buf[i].refcnt == 1 && !s'.c.buf[i].dirty
          && (forall j :: 0 <= j < |s.c.buf| ==> !Labelled(s.c.buf[j], ROOTDEV, b)))
  }

  lemma ReleasedIs(s: Sys, s1: Sys, s2: Sys, h: nat, i: nat)
    requires h in s.handles && s.handles[h].slot == i && Next(s, Unlock(h)) == Ok(s1) && Next(s1, Forget(h)) == Ok(s2)
    ensures Released(s, s2, h, i)
  {
  }

  lemma StoreIs(s: Sys, h: nat, i: nat)
    requires Inv(s) && h in s.handles && s.handles[h].slot == i && s.handles[h].phase.Holding? && s.c.buf[i].valid
    ensures var x := s.c.buf[i];
            && x.dev == ROOTDEV && x.blockno < |s.disk| == |s.stored| && x.holder == Some(h)
            && Next(s, Store(h)) ==
               Ok(s.(c := s.c.(buf := s.c.buf[i := x.(dirty := false)]), disk := s.disk[x.blockno := x.data],
                     stored := s.stored[x.blockno := x.data], handles := s.handles[h := Handle(i, Holding(false))]))
  {
    assert SlotOk(s, i);
  }

  lemma NoSlot(s: Sys, h: nat, b: nat)
    requires Inv(s) && Next(s, StartRead(h, b)) == Panicked
    ensures forall i :: 0 <= i < |s.c.buf| ==> !Labelled(s.c.buf[i], ROOTDEV, b) && !Recyclable(s.c.buf[i])
  {
    GetSpec(s.c, ROOTDEV, b);
  }

  lemma StartReadHit(s: Sys, h: nat, b: nat, i: nat)
    requires Inv(s) && h !in s.handles && b < |s.disk| && Find(s.c, ROOTDEV, b, 0) == Some(i) && i < |s.c.buf|
    ensures Next(s, StartRead(h, b)) ==
            Ok(s.(c := s.c.(buf := s.c.buf[i := s.c.buf[i].(refcnt := s.c.buf[i].refcnt + 1)]),
                                              handles := s.handles[h := Handle(i, Waiting)]))
  {
  }

  lemma StartReadMiss(s: Sys, h: nat, b: nat, i: nat)
    requires Inv(s) && h !in s.handles && b < |s.disk| && Find(s.c, ROOTDEV, b, 0) == None
    requires Victim(s.c, |s.c.order|) == Some(i) && i < |s.c.buf|
    ensures Next(s, StartRead(h, b)) ==
            Ok(s.(c := s.c.(buf := s.c.buf[i := s.c.buf[i].(dev := ROOTDEV, blockno := b, valid := false,
              dirty := false, refcnt := 1)]),
                  handles := s.handles[h := Handle(i, Waiting)]))
  {
  }

  /** The slot bget chooses is unlocked, if no client holds the block. */
  lemma StartReadFree(s: Sys, h: nat, b: nat)
    requires Inv(s) && Next(s, StartRead(h, b)).Ok?
    requires forall i :: 0 <= i < |s.c.buf| && Labelled(s.c.buf[i], ROOTDEV, b) ==> s.c.buf[i].holder == None
    ensures var s' := Next(s, StartRead(h, b)).s;
            && s'.handles[h].phase == Waiting
            && s'.handles[h].slot < |s'.c.buf|
            && s'.c.buf[s'.handles[h].slot].holder == None
  {
    GetSpec(s.c, ROOTDEV, b);
    var i := Next(s, StartRead(h, b)).s.handles[h].slot;
    if !Labelled(s.c.buf[i], ROOTDEV, b) {
      Unreferenced(s, i);
    }
  }

  lemma LockedRead(s: Sys, s1: Sys, s2: Sys, h: nat, b: nat, i: nat)
    requires Inv(s) && Next(s, StartRead(h, b)) == Ok(s1) && s1.handles[h].slot == i && Next(s1, Lock(h)) == Ok(s2)
    requires Inv(s2)
    ensures LockedBlock(s, s2, h, b, i)
    ensures s2.c.buf[i].valid ==> ReadBlock(s, s2, h, b, i)
    ensures b < |s.disk| && !s2.c.buf[i].valid ==> !s2.c.buf[i].dirty && s.disk[b] == s.stored[b]
  {
    GetSpec(s.c, ROOTDEV, b);
    assert SlotOk(s2, i);
  }

  lemma ReadDone(s: Sys, s1: Sys, s2: Sys, s3: Sys, h: nat, b: nat, i: nat)
    requires Inv(s) && Next(s, StartRead(h, b)) == Ok(s1) && s1.handles[h].slot == i && i < |s2.c.buf|
    requires Next(s1, Lock(h)) == Ok(s2) && Inv(s2)
    requires if s2.c.buf[i].valid then s3 == s2 else Next(s2, Fetch(h)) == Ok(s3)
    ensures ReadBlock(s, s3, h, b, i)
  {
    LockedRead(s, s1, s2, h, b, i);
    if !s2.c.buf[i].valid {
      FetchedRead(s, s2, s3, h, b, i);
    }
  }

  lemma FetchedRead(s: Sys, s2: Sys, s3: Sys, h: nat, b: nat, i: nat)
    requires LockedBlock(s, s2, h, b, i) && Next(s2, Fetch(h)) == Ok(s3)
    requires b < |s.disk| == |s.stored| && !s2.c.buf[i].valid && s.disk[b] == s.stored[b]
    ensures ReadBlock(s, s3, h, b, i)
  {
  }
}
