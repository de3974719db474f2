/** The buffer cache refines a plain disk in every interleaving of its clients. */
module CacheSafety {
  import opened Common
  import opened CacheMachine

  // ---------- bget's critical section ----------

  /** A slot nobody refers to is not locked. */
  lemma Unreferenced(s: Sys, i: nat)
    requires Counted(s) && Locks(s) && i < |s.c.buf| && s.c.buf[i].refcnt == 0
    ensures s.c.buf[i].holder == None
    ensures forall h :: h in s.handles ==> s.handles[h].slot != i
  {
    assert At(s, i) == {};
    forall h | h in s.handles
      ensures s.handles[h].slot != i
    {
      assert h !in At(s, i);
    }
  }

  /** Client h has taken a reference to slot i, which may have been recycled for it. */
  ghost predicate Referred(s: Sys, s': Sys, h: nat, i: nat) {
    && h !in s.handles && s'.handles == s.handles[h := Handle(i, Waiting)]
    && i < |s.c.buf| && |s'.c.buf| == |s.c.buf|
    && (forall j :: 0 <= j < |s.c.buf| && j != i ==> s'.c.buf[j] == s.c.buf[j])
    && s'.c.buf[i].refcnt == s.c.buf[i].refcnt + 1
    && s'.c.buf[i].holder == s.c.buf[i].holder
    && s'.c.buf[i].dev == ROOTDEV
  }

  lemma ReferredCounted(s: Sys, s': Sys, h: nat, i: nat)
    requires Counted(s) && Referred(s, s', h, i)
    ensures Counted(s')
  {
    forall j: nat | j < |s'.c.buf|
      ensures s'.c.buf[j].refcnt == |At(s', j)|
    {
      if j == i {
        assert At(s', j) == At(s, j) + {h};
        assert h !in At(s, j);
      } else {
        assert At(s', j) == At(s, j);
      }
    }
  }

  lemma ReferredLocks(s: Sys, s': Sys, h: nat, i: nat)
    requires Locks(s) && Referred(s, s', h, i)
    ensures Locks(s')
  {
    forall j: nat | j < |s'.c.buf| && s'.c.buf[j].holder.Some?
      ensures HeldBy(s', j, s'.c.buf[j].holder.value)
    {
      assert HeldBy(s, j, s.c.buf[j].holder.value);
    }
  }

  lemma StartReadContents(s: Sys, s': Sys, h: nat, b: nat, i: nat)
    requires Inv(s) && Referred(s, s', h, i) && s'.disk == s.disk && s'.stored == s.stored && b < |s.disk|
    requires if Labelled(s.c.buf[i], ROOTDEV, b) then s'.c.buf[i] == s.c.buf[i].(refcnt := s.c.buf[i].refcnt + 1)
             else
               && Recyclable(s.c.buf[i]) && Labelled(s'.c.buf[i], ROOTDEV, b)
               && !s'.c.buf[i].valid && !s'.c.buf[i].dirty
    requires forall j :: 0 <= j < |s.c.buf| && j != i ==> !Labelled(s.c.buf[j], ROOTDEV, b)
    ensures ContentsOk(s')
  {
    assert SlotOk(s, i);
    if !Labelled(s.c.buf[i], ROOTDEV, b) {
      Unreferenced(s, i);
    }
    forall j: nat | j < |s'.c.buf|
      ensures SlotOk(s', j)
    {
      assert SlotOk(s, j);
    }
    forall k: nat | k < |s'.disk|
      ensures s'.disk[k] == s'.stored[k] || exists j :: 0 <= j < |s'.c.buf| && Labelled(s'.c.buf[j], ROOTDEV, k)
    {
      if s.disk[k] != s.stored[k] {
        var j :| 0 <= j < |s.c.buf| && Labelled(s.c.buf[j], ROOTDEV, k);
        assert Labelled(s'.c.buf[j], ROOTDEV, k);
      }
    }
  }

  lemma StartReadInv(s: Sys, h: nat, b: nat)
    requires Inv(s) && Next(s, StartRead(h, b)).Ok?
    ensures Inv(Next(s, StartRead(h, b)).s)
  {
    var s' := Next(s, StartRead(h, b)).s;
    GetSpec(s.c, ROOTDEV, b);
    var i := s'.handles[h].slot;
    assert Referred(s, s', h, i);
    ReferredCounted(s, s', h, i);
    ReferredLocks(s, s', h, i);
    StartReadContents(s, s', h, b, i);
  }

  // ---------- Steps on one buffer ----------

  /** A step of client h that changes data, flags or holder of its slot i, and no label or count. */
  ghost predicate OneSlot(s: Sys, s': Sys, h: nat, i: nat) {
    && i < |s.c.buf| && |s'.c.buf| == |s.c.buf| && s'.c.order == s.c.order
    && (forall j :: 0 <= j < |s.c.buf| && j != i ==> s'.c.buf[j] == s.c.buf[j])
    && Labelled(s'.c.buf[i], s.c.buf[i].dev, s.c.buf[i].blockno)
    && s'.c.buf[i].refcnt == s.c.buf[i].refcnt
    && h in s.handles && s.handles[h].slot == i
    && s'.handles.Keys == s.handles.Keys && s'.handles[h].slot == i
    && (forall g :: g in s.handles && g != h ==> s'.handles[g] == s.handles[g])
  }

  lemma OneSlotCounted(s: Sys, s': Sys, h: nat, i: nat)
    requires Counted(s) && OneSlot(s, s', h, i)
    ensures Counted(s')
  {
    forall j: nat | j < |s'.c.buf|
      ensures s'.c.buf[j].refcnt == |At(s', j)|
    {
      assert At(s', j) == At(s, j);
    }
  }

  lemma OneSlotLocks(s: Sys, s': Sys, h: nat, i: nat)
    requires Locks(s) && OneSlot(s, s', h, i)
    requires s.c.buf[i].holder == Some(h) || s.c.buf[i].holder == None
    requires s'.c.buf[i].holder == if s'.handles[h].phase.Holding? then Some(h) else None
    ensures Locks(s')
  {
    forall j: nat | j < |s'.c.buf| && s'.c.buf[j].holder.Some?
      ensures HeldBy(s', j, s'.c.buf[j].holder.value)
    {
      if j != i {
        assert HeldBy(s, j, s.c.buf[j].holder.value);
      }
    }
  }

  lemma OneSlotOthers(s: Sys, s': Sys, h: nat, i: nat, j: nat)
    requires Unique(s.c) && Locks(s) && OneSlot(s, s', h, i) && s.c.buf[i].dev == ROOTDEV
    requires |s.stored| == |s.disk| == |s'.disk| == |s'.stored| && j < |s.c.buf| && j != i && SlotOk(s, j)
    requires forall k :: 0 <= k < |s.disk| && k != s.c.buf[i].blockno ==>
               s'.disk[k] == s.disk[k] && s'.stored[k] == s.stored[k]
    ensures SlotOk(s', j)
  {
    assert s.c.buf[j].dev == ROOTDEV ==> s.c.buf[j].blockno != s.c.buf[i].blockno;
    var x := s.c.buf[j].holder;
    assert x.Some? ==> HeldBy(s, j, x.value);
  }

  lemma OneSlotContents(s: Sys, s': Sys, h: nat, i: nat)
    requires Inv(s) && OneSlot(s, s', h, i)
    requires |s'.disk| == |s.disk| && |s'.stored| == |s'.disk|
    requires forall k :: 0 <= k < |s.disk| && k != s.c.buf[i].blockno ==>
               s'.disk[k] == s.disk[k] && s'.stored[k] == s.stored[k]
    requires SlotOk(s', i)
    ensures ContentsOk(s')
  {
    forall j: nat | j < |s'.c.buf|
      ensures SlotOk(s', j)
    {
      if j != i {
        OneSlotOthers(s, s', h, i, j);
      }
    }
    forall k: nat | k < |s'.disk|
      ensures s'.disk[k] == s'.stored[k] || exists j :: 0 <= j < |s'.c.buf| && Labelled(s'.c.buf[j], ROOTDEV, k)
    {
      if k == s.c.buf[i].blockno {
        assert Labelled(s'.c.buf[i], ROOTDEV, k);
      } else if s.disk[k] != s.stored[k] {
        var j :| 0 <= j < |s.c.buf| && Labelled(s.c.buf[j], ROOTDEV, k);
        assert Labelled(s'.c.buf[j], ROOTDEV, k);
      }
    }
  }

  predicate OnOneBuffer(step: Step) {
    step.Lock? || step.Fetch? || step.Change? || step.Store? || step.Pin? || step.Unlock?
  }

  lemma OneBufferSlot(s: Sys, step: Step)
    requires Inv(s) && OnOneBuffer(step) && Next(s, step).Ok?
    ensures var s', h := Next(s, step).s, step.h;
            && h in s.handles
            && var i := s.handles[h].slot;
            && OneSlot(s, s', h, i)
            && (s.c.buf[i].holder == Some(h) || s.c.buf[i].holder == None)
            && s'.c.buf[i].holder == if s'.handles[h].phase.Holding? then Some(h) else None
  {
  }

  lemma OneBufferData(s: Sys, step: Step)
    requires Inv(s) && OnOneBuffer(step) && Next(s, step).Ok?
    ensures var s', h := Next(s, step).s, step.h;
            && h in s.handles
            && var i := s.handles[h].slot;
            && i < |s'.c.buf| == |s.c.buf|
            && |s'.disk| == |s.disk| && |s'.stored| == |s'.disk|
            && (forall k :: 0 <= k < |s.disk| && k != s.c.buf[i].blockno ==>
                 s'.disk[k] == s.disk[k] && s'.stored[k] == s.stored[k])
            && SlotOk(s', i)
  {
    assert SlotOk(s, s.handles[step.h].slot);
  }

  lemma OneSlotUnique(s: Sys, s': Sys, h: nat, i: nat)
    requires Unique(s.c) && OneSlot(s, s', h, i)
    ensures Unique(s'.c)
  {
    assert forall j: nat :: j < |s.c.buf| ==> Labelled(s'.c.buf[j], s.c.buf[j].dev, s.c.buf[j].blockno);
  }

  lemma OneBufferInv(s: Sys, step: Step)
    requires Inv(s) && OnOneBuffer(step) && Next(s, step).Ok?
    ensures Inv(Next(s, step).s)
  {
    OneBufferSlot(s, step);
    OneBufferData(s, step);
    OneSlotInv(s, Next(s, step).s, step.h, s.handles[step.h].slot);
  }

  lemma OneSlotInv(s: Sys, s': Sys, h: nat, i: nat)
    requires Inv(s) && OneSlot(s, s', h, i)
    requires s.c.buf[i].holder == Some(h) || s.c.buf[i].holder == None
    requires s'.c.buf[i].holder == if s'.handles[h].phase.Holding? then Some(h) else None
    requires |s'.disk| == |s.disk| && |s'.stored| == |s'.disk|
    requires forall k :: 0 <= k < |s.disk| && k != s.c.buf[i].blockno ==>
               s'.disk[k] == s.disk[k] && s'.stored[k] == s.stored[k]
    requires SlotOk(s', i)
    ensures Inv(s')
  {
    OneSlotUnique(s, s', h, i);
    OneSlotCounted(s, s', h, i);
    OneSlotLocks(s, s', h, i);
    OneSlotContents(s, s', h, i);
  }

  // ---------- brelse's critical section ----------

  lemma ForgetCounted(s: Sys, h: nat)
    requires Counted(s) && Next(s, Forget(h)).Ok?
    ensures Counted(Next(s, Forget(h)).s)
  {
    var s' := Next(s, Forget(h)).s;
    var i := s.handles[h].slot;
    forall j: nat | j < |s'.c.buf|
      ensures s'.c.buf[j].refcnt == |At(s', j)|
    {
      if j == i {
        assert h in At(s, j);
        assert At(s', j) == At(s, j) - {h};
      } else {
        assert At(s', j) == At(s, j);
      }
    }
  }

  lemma ForgetLocks(s: Sys, h: nat)
    requires Locks(s) && Next(s, Forget(h)).Ok?
    ensures Locks(Next(s, Forget(h)).s)
  {
    var s' := Next(s, Forget(h)).s;
    forall j: nat | j < |s'.c.buf| && s'.c.buf[j].holder.Some?
      ensures HeldBy(s', j, s'.c.buf[j].holder.value)
    {
      assert HeldBy(s, j, s.c.buf[j].holder.value);
    }
  }

  lemma ForgetContents(s: Sys, h: nat)
    requires Locks(s) && ContentsOk(s) && Next(s, Forget(h)).Ok?
    ensures ContentsOk(Next(s, Forget(h)).s)
  {
    var s' := Next(s, Forget(h)).s;
    forall j: nat | j < |s'.c.buf|
      ensures SlotOk(s', j)
    {
      assert SlotOk(s, j);
    }
    forall k: nat | k < |s'.disk|
      ensures s'.disk[k] == s'.stored[k] || exists j :: 0 <= j < |s'.c.buf| && Labelled(s'.c.buf[j], ROOTDEV, k)
    {
      if s.disk[k] != s.stored[k] {
        var j :| 0 <= j < |s.c.buf| && Labelled(s.c.buf[j], ROOTDEV, k);
        assert Labelled(s'.c.buf[j], ROOTDEV, k);
      }
    }
  }

  lemma ForgetInv(s: Sys, h: nat)
    requires Inv(s) && Next(s, Forget(h)).Ok?
    ensures Inv(Next(s, Forget(h)).s)
  {
    DropOrder(|s.c.buf|, s.c.order, s.handles[h].slot);
    ForgetCounted(s, h);
    ForgetLocks(s, h);
    ForgetContents(s, h);
  }

  lemma StepInv(s: Sys, step: Step)
    requires Inv(s) && Next(s, step).Ok?
    ensures Inv(Next(s, step).s)
  {
    match step
    case StartRead(h, b) => StartReadInv(s, h, b);
    case Forget(h) => ForgetInv(s, h);
    case _ => OneBufferInv(s, step);
  }

  lemma InitInv(d: Disk, n: nat)
    ensures Inv(Init(d, n))
  {
    var s := Init(d, n);
    forall i: nat | i < n
      ensures i in s.c.order && At(s, i) == {} && SlotOk(s, i)
    {
      assert s.c.order[n - 1 - i] == i;
    }
  }

  lemma {:induction false} RunInv(s: Sys, steps: seq<Step>)
    requires Inv(s) && Run(s, steps).Ok?
    ensures Inv(Run(s, steps).s)
    decreases |steps|
  {
    if steps != [] {
      StepInv(s, steps[0]);
      RunInv(Next(s, steps[0]).s, steps[1..]);
    }
  }

  // ---------- The theorems ----------

  /** In every run, whatever has been recycled: a client that holds a buffer it has read and not changed
      sees the contents last stored for that block; a block that is in no slot is on the disk; and no two
      slots hold the same block. */
  lemma CacheRefinesDisk(d: Disk, n: nat, steps: seq<Step>, h: nat)
    requires Run(Init(d, n), steps).Ok?
    ensures var s := Run(Init(d, n), steps).s;
            && Unique(s.c)
            && |s.stored| == |s.disk| == |d|
            && (h in s.handles && s.handles[h].phase == Holding(false) && s.handles[h].slot < |s.c.buf|
                && s.c.buf[s.handles[h].slot].valid ==>
                  var x := s.c.buf[s.handles[h].slot];
                  x.dev == ROOTDEV && x.blockno < |s.disk| && x.data == s.stored[x.blockno])
            && (forall b: nat ::
                  b < |s.disk| && (forall i :: 0 <= i < |s.c.buf| ==> !Labelled(s.c.buf[i], ROOTDEV, b)) ==>
                    s.disk[b] == s.stored[b])
  {
    InitInv(d, n);
    RunInv(Init(d, n), steps);
    RunSize(Init(d, n), steps);
    var s := Run(Init(d, n), steps).s;
    if h in s.handles && s.handles[h].phase == Holding(false) {
      assert SlotOk(s, s.handles[h].slot);
    }
  }

  lemma {:induction false} RunSize(s: Sys, steps: seq<Step>)
    requires Run(s, steps).Ok?
    ensures |Run(s, steps).s.disk| == |s.disk| && |Run(s, steps).s.c.buf| == |s.c.buf|
    decreases |steps|
  {
    if steps != [] {
      RunSize(Next(s, steps[0]).s, steps[1..]);
    }
  }
}
