/** sleeplock.c over sleep, wakeup and kill of proc.c, for any number of processes: each step is one
    shared action (an acquire that succeeds, a store, a release) of one process or of a scheduler. */
module SleepLock {
  import opened Common

  datatype RunState = Running | Runnable | Sleeping

  /** What a process does next. */
  datatype Pc =
    | Outside        // in neither call, the lock not held
    | AcqInner       // acquiresleep: acquire(&lk->lk), at first or on the way out of sleep
    | Test           //   while (lk->locked)
    | SleepTable     //     sleep: acquire(&ptable.lock)
    | SleepRelease   //     release(lk)
    | SetChan        //     p->chan = chan
    | SetState       //     p->state = SLEEPING
    | CallSched      //     sched()
    | InSched        //     switched out
    | ClearChan      //     p->chan = 0
    | WakeRelease    //     release(&ptable.lock)
    | SetLocked      //   lk->locked = 1
    | SetPid         //   lk->pid = myproc()->pid
    | AcqDone        //   release(&lk->lk)
    | Held           // the lock is held
    | RelInner       // releasesleep: acquire(&lk->lk)
    | ClearLocked    //   lk->locked = 0
    | ClearPid       //   lk->pid = 0
    | WakeTable      //   wakeup: acquire(&ptable.lock)
    | Scan(k: nat)   //   wakeup1: table entry k
    | ScanDone       //   release(&ptable.lock)
    | RelDone        //   release(&lk->lk)
    | KillTable(victim: nat)  // kill: acquire(&ptable.lock)
    | KillIt(victim: nat)     //   p->killed = 1, and wake it if it sleeps
    | KillDone                //   release(&ptable.lock)

  datatype Holder = Free | By(p: nat) | Scheduler

  const LK: nat := 1 // the address of the sleep lock, as a channel

  /** Process p has pid p + 1. `owner` is a history variable: the process between lk->locked = 1 and
      lk->locked = 0. */
  datatype State = State(pc: seq<Pc>, run: seq<RunState>, chan: seq<nat>, killed: seq<bool>,
                         inner: Holder, table: Holder, locked: bool, pid: nat, owner: Option<nat>)

  datatype Step =
    | Move(p: nat)             // process p takes its next action
    | Lock(p: nat)             // p calls acquiresleep
    | Unlock(p: nat)           // p, which holds the lock, calls releasesleep
    | Kill(p: nat, victim: nat)
    | Other(p: nat, run: RunState, chan: nat)  // p yields, or sleeps or is woken somewhere else
    | SchedAcquire             // a scheduler takes ptable.lock
    | Dispatch(p: nat)         // and switches to p
    | SchedRelease             // or lets go of it

  predicate Shaped(s: State) {
    |s.run| == |s.pc| && |s.chan| == |s.pc| && |s.killed| == |s.pc|
  }

  /** Whether the next action of process p can happen. */
  predicate CanMove(s: State, p: nat)
    requires Shaped(s) && p < |s.pc|
  {
    match s.pc[p]
    case Outside | Held | InSched => false
    case AcqInner | RelInner => s.run[p].Running? && s.inner == Free
    case SleepTable | WakeTable | KillTable(_) => s.run[p].Running? && s.table == Free
    case CallSched => true
    case _ => s.run[p].Running?
  }

  predicate Enabled(s: State, step: Step)
    requires Shaped(s)
  {
    match step
    case Move(p) => p < |s.pc| && CanMove(s, p)
    case Lock(p) => p < |s.pc| && s.pc[p] == Outside && s.run[p].Running?
    case Unlock(p) => p < |s.pc| && s.pc[p] == Held && s.run[p].Running?
    case Kill(p, victim) => p < |s.pc| && victim < |s.pc| && s.pc[p] == Outside && s.run[p].Running?
    case Other(p, run, chan) => p < |s.pc| && s.pc[p] in {Outside, Held} && s.table == Free && chan != LK
    case SchedAcquire => s.table == Free
    case Dispatch(p) => p < |s.pc| && s.table == Scheduler && s.run[p].Runnable? && s.pc[p] == InSched
    case SchedRelease => s.table == Scheduler
  }

  function At(s: State, p: nat, pc: Pc): State
    requires p < |s.pc|
  {
    s.(pc := s.pc[p := pc])
  }

  /** Process v is runnable if it was asleep. */
  function Wake(run: seq<RunState>, v: nat): (r: seq<RunState>)
    requires v < |run|
    ensures |r| == |run| && !r[v].Sleeping?
    ensures forall q :: 0 <= q < |run| && r[q].Sleeping? ==> run[q].Sleeping?
  {
    if run[v].Sleeping? then run[v := Runnable] else run
  }

  /** Which function the next action of a process belongs to. */
  datatype Part = InAcquire | InSleep | InRelease | InWakeup | InKill

  function PartOf(pc: Pc): Part {
    match pc
    case SleepTable | SleepRelease | SetChan | SetState | CallSched | InSched | ClearChan | WakeRelease => InSleep
    case RelInner | ClearLocked | ClearPid | RelDone => InRelease
    case WakeTable | Scan(_) | ScanDone => InWakeup
    case KillTable(_) | KillIt(_) | KillDone => InKill
    case _ => InAcquire
  }

  function DoAcquire(s: State, p: nat): (s': State)
    requires Shaped(s) && p < |s.pc| && CanMove(s, p) && PartOf(s.pc[p]) == InAcquire
    ensures Shaped(s') && |s'.pc| == |s.pc|
  {
    match s.pc[p]
    case AcqInner => At(s, p, Test).(inner := By(p))
    case Test => At(s, p, if s.locked then SleepTable else SetLocked)
    case SetLocked => At(s, p, SetPid).(locked := true, owner := Some(p))
    case SetPid => At(s, p, AcqDone).(pid := p + 1)
    case AcqDone => At(s, p, Held).(inner := Free)
  }

  function DoSleep(s: State, p: nat): (s': State)
    requires Shaped(s) && p < |s.pc| && CanMove(s, p) && PartOf(s.pc[p]) == InSleep
    ensures Shaped(s') && |s'.pc| == |s.pc|
  {
    match s.pc[p]
    case SleepTable => At(s, p, SleepRelease).(table := By(p))
    case SleepRelease => At(s, p, SetChan).(inner := Free)
    case SetChan => At(s, p, SetState).(chan := s.chan[p := LK])
    case SetState => At(s, p, CallSched).(run := s.run[p := Sleeping])
    case CallSched => At(s, p, InSched).(table := Scheduler)
    case ClearChan => At(s, p, WakeRelease).(chan := s.chan[p := 0])
    case WakeRelease => At(s, p, AcqInner).(table := Free)
  }

  function DoRelease(s: State, p: nat): (s': State)
    requires Shaped(s) && p < |s.pc| && CanMove(s, p) && PartOf(s.pc[p]) == InRelease
    ensures Shaped(s') && |s'.pc| == |s.pc|
  {
    match s.pc[p]
    case RelInner => At(s, p, ClearLocked).(inner := By(p))
    case ClearLocked => At(s, p, ClearPid).(locked := false, owner := None)
    case ClearPid => At(s, p, WakeTable).(pid := 0)
    case RelDone => At(s, p, Outside).(inner := Free)
  }

  function DoWakeup(s: State, p: nat): (s': State)
    requires Shaped(s) && p < |s.pc| && CanMove(s, p) && PartOf(s.pc[p]) == InWakeup
    ensures Shaped(s') && |s'.pc| == |s.pc|
  {
    match s.pc[p]
    case WakeTable => At(s, p, Scan(0)).(table := By(p))
    case Scan(k) =>
      if k >= |s.pc| then At(s, p, ScanDone)
      else At(s, p, Scan(k + 1)).(run := if s.chan[k] == LK then Wake(s.run, k) else s.run)
    case ScanDone => At(s, p, RelDone).(table := Free)
  }

  function DoKill(s: State, p: nat): (s': State)
    requires Shaped(s) && p < |s.pc| && CanMove(s, p) && PartOf(s.pc[p]) == InKill
    ensures Shaped(s') && |s'.pc| == |s.pc|
  {
    match s.pc[p]
    case KillTable(v) => At(s, p, KillIt(v)).(table := By(p))
    case KillIt(v) =>
      if v >= |s.pc| then At(s, p, KillDone)
      else At(s, p, KillDone).(killed := s.killed[v := true], run := Wake(s.run, v))
    case KillDone => At(s, p, Outside).(table := Free)
  }

  /** The next action of process p. */
  function Do(s: State, p: nat): (s': State)
    requires Shaped(s) && p < |s.pc| && CanMove(s, p)
    ensures Shaped(s') && |s'.pc| == |s.pc|
  {
    match PartOf(s.pc[p])
    case InAcquire => DoAcquire(s, p)
    case InSleep => DoSleep(s, p)
    case InRelease => DoRelease(s, p)
    case InWakeup => DoWakeup(s, p)
    case InKill => DoKill(s, p)
  }

  function Next(s: State, step: Step): (s': State)
    requires Shaped(s) && Enabled(s, step)
    ensures Shaped(s') && |s'.pc| == |s.pc|
  {
    match step
    case Move(p) => Do(s, p)
    case Lock(p) => At(s, p, AcqInner)
    case Unlock(p) => At(s, p, RelInner)
    case Kill(p, victim) => At(s, p, KillTable(victim))
    case Other(p, run, chan) => s.(run := s.run[p := run], chan := s.chan[p := chan])
    case SchedAcquire => s.(table := Scheduler)
    case Dispatch(p) => At(s, p, ClearChan).(run := s.run[p := Running], table := By(p))
    case SchedRelease => s.(table := Free)
  }

  /** n processes, none of them near the lock. */
  predicate Init(s: State) {
    && Shaped(s) && s.inner == Free && s.table == Free && !s.locked && s.pid == 0 && s.owner == None
    && (forall p :: 0 <= p < |s.pc| ==> s.pc[p] == Outside)
    && (forall p :: 0 <= p < |s.chan| ==> s.chan[p] != LK)
  }

  /** s is reached from init by these steps. */
  ghost predicate Run(init: State, steps: seq<Step>, s: State)
    decreases |steps|
  {
    if steps == [] then s == init && Init(init)
    else exists m ::
        && Run(init, steps[..|steps| - 1], m) && Shaped(m) && Enabled(m, steps[|steps| - 1])
        && s == Next(m, steps[|steps| - 1])
  }

  // ---------- The invariant ----------

  predicate HoldsInner(pc: Pc) {
    match pc
    case Test | SleepTable | SleepRelease | SetLocked | SetPid | AcqDone => true
    case ClearLocked | ClearPid | WakeTable | Scan(_) | ScanDone | RelDone => true
    case _ => false
  }

  predicate HoldsTable(pc: Pc) {
    match pc
    case SleepRelease | SetChan | SetState | CallSched | ClearChan | WakeRelease => true
    case Scan(_) | ScanDone | KillIt(_) | KillDone => true
    case _ => false
  }

  predicate Owns(pc: Pc) {
    match pc
    case SetPid | AcqDone | Held | RelInner | ClearLocked => true
    case _ => false
  }

  /** Each spin lock is held exactly by the process whose code holds it. */
  ghost predicate Spins(s: State) {
    && Shaped(s) && s.inner != Scheduler
    && (s.inner.By? ==> s.inner.p < |s.pc|) && (s.table.By? ==> s.table.p < |s.pc|)
    && (forall p :: 0 <= p < |s.pc| ==> (HoldsInner(s.pc[p]) <==> s.inner == By(p)))
    && (forall p :: 0 <= p < |s.pc| ==> (HoldsTable(s.pc[p]) <==> s.table == By(p)))
  }

  /** lk->locked is set exactly while some process owns the lock, and lk->pid is that process's. */
  ghost predicate OneOwner(s: State) {
    && Shaped(s) && (s.locked <==> s.owner.Some?) && (s.owner.Some? ==> s.owner.value < |s.pc|)
    && (forall p :: 0 <= p < |s.pc| ==> (Owns(s.pc[p]) <==> s.owner == Some(p)))
    && (forall p :: 0 <= p < |s.pc| && (s.pc[p] == SetLocked || s.pc[p] == ClearPid) ==> !s.locked)
    && (forall p :: 0 <= p < |s.pc| && Owns(s.pc[p]) && s.pc[p] != SetPid ==> s.pid == p + 1)
    && (!s.locked ==> s.pid == 0 || (s.inner.By? && s.inner.p < |s.pc| && s.pc[s.inner.p] == ClearPid))
  }

  /** p's channel is the lock exactly from p->chan = chan to p->chan = 0. */
  ghost predicate Chans(s: State) {
    && Shaped(s)
    && (forall p :: 0 <= p < |s.pc| ==> (s.chan[p] == LK <==> OnChan(s.pc[p])))
  }

  /** A process on its way to sleep on the lock, or asleep on it. */
  predicate Waits(s: State, p: nat)
    requires Shaped(s) && p < |s.pc|
  {
    s.pc[p] in {SetChan, SetState, CallSched} || (s.run[p].Sleeping? && s.chan[p] == LK)
  }

  /** A releaser is going to look at table entry p. */
  predicate WakeComing(s: State, p: nat)
    requires Shaped(s)
  {
    s.inner.By? && s.inner.p < |s.pc| && var pc := s.pc[s.inner.p];
    pc in {ClearPid, WakeTable} || (pc.Scan? && pc.k <= p)
  }

  /** Whoever waits has something to wait for: the lock is held, or its release has still to reach them. */
  ghost predicate NoneLost(s: State) {
    && Shaped(s)
    && (forall p :: 0 <= p < |s.pc| && s.pc[p] in {SleepTable, SleepRelease} ==> s.locked)
    && (forall p :: 0 <= p < |s.pc| && Waits(s, p) ==> s.locked || WakeComing(s, p))
  }

  ghost predicate Inv(s: State) {
    Spins(s) && OneOwner(s) && Chans(s) && NoneLost(s)
  }

  // ---------- Every step keeps it ----------

  /** Only the place of process p changed. */
  predicate OnlyPc(s: State, s': State, p: nat) {
    Shaped(s) && Shaped(s') && p < |s.pc| && |s'.pc| == |s.pc| && s'.pc == s.pc[p := s'.pc[p]]
  }

  /** The spin locks change hands as p's code says. */
  predicate InnerMove(s: State, s': State, p: nat)
    requires OnlyPc(s, s', p)
  {
    && (HoldsInner(s'.pc[p]) ==> s'.inner == By(p) && (s.inner == Free || s.inner == By(p)))
    && (!HoldsInner(s'.pc[p]) ==> s'.inner == if s.inner == By(p) then Free else s.inner)
  }

  predicate TableMove(s: State, s': State, p: nat)
    requires OnlyPc(s, s', p)
  {
    && (HoldsTable(s'.pc[p]) ==> s'.table == By(p) && (s.table == Free || s.table == Scheduler || s.table == By(p)))
    && (!HoldsTable(s'.pc[p]) ==> s'.table == s.table || (s.table == By(p) && s'.table in {Free, Scheduler}))
    && (!HoldsTable(s'.pc[p]) ==> s'.table != By(p))
  }

  lemma SpinsMoved(s: State, s': State, p: nat)
    requires Spins(s) && OnlyPc(s, s', p) && InnerMove(s, s', p) && TableMove(s, s', p)
    ensures Spins(s')
  {
  }

  /** lk->locked and lk->pid change as p's code says. */
  predicate OwnerMove(s: State, s': State, p: nat)
    requires OnlyPc(s, s', p)
  {
    && (s'.pc[p] == SetLocked ==> !s'.locked)
    && (if s.pc[p] == SetLocked then s'.locked && s'.owner == Some(p) && s'.pc[p] == SetPid
        else if s.pc[p] == ClearLocked then !s'.locked && s'.owner == None && s'.pc[p] == ClearPid
        else s'.locked == s.locked && s'.owner == s.owner && (Owns(s'.pc[p]) <==> Owns(s.pc[p])))
    && (s'.pc[p] == ClearPid <==> s.pc[p] == ClearLocked) && (s'.pc[p] == SetPid <==> s.pc[p] == SetLocked)
    && s'.pid == if s.pc[p] == SetPid then p + 1 else if s.pc[p] == ClearPid then 0 else s.pid
  }

  lemma OwnerMoved(s: State, s': State, p: nat)
    requires Spins(s) && Spins(s') && OneOwner(s) && OnlyPc(s, s', p) && OwnerMove(s, s', p)
    ensures OneOwner(s')
  {
  }

  predicate OnChan(pc: Pc) {
    pc == SetState || pc == CallSched || pc == InSched || pc == ClearChan
  }

  /** The channel of no other process changes, and a process that sleeps went to sleep itself. */
  ghost predicate ChanMove(s: State, s': State, p: nat)
    requires OnlyPc(s, s', p)
  {
    && s'.chan == s.chan[p := s'.chan[p]]
    && (s'.chan[p] == LK <==> if OnChan(s'.pc[p]) != OnChan(s.pc[p]) then OnChan(s'.pc[p]) else s.chan[p] == LK)
    && (forall q :: 0 <= q < |s.pc| && s'.run[q].Sleeping? ==> s.run[q].Sleeping? || (q == p && s.pc[p] == SetState))
  }

  /** How p comes to a place on the way to sleep, and what becomes of a wakeup p is making. */
  predicate WaitMove(s: State, s': State, p: nat)
    requires OnlyPc(s, s', p)
  {
    && (s'.pc[p] == SleepTable ==> s.pc[p] == Test && s.locked)
    && (s'.pc[p] == SleepRelease ==> s.pc[p] == SleepTable)
    && (s'.pc[p] == SetChan ==> s.pc[p] == SleepRelease)
    && (s'.pc[p] == SetState ==> s.pc[p] == SetChan)
    && (s'.pc[p] == CallSched ==> s.pc[p] == SetState)
    && (s'.pc[p] == InSched ==> s.pc[p] == CallSched)
    && (s'.pc[p] == ClearChan ==> s.pc[p] == InSched)
    && (s.pc[p] == ClearPid ==> s'.pc[p] == WakeTable)
    && (s.pc[p] == WakeTable ==> s'.pc[p] == Scan(0))
    && (s.pc[p].Scan? && s.pc[p].k < |s.pc| ==>
         s'.pc[p] == Scan(s.pc[p].k + 1) && !(s'.run[s.pc[p].k].Sleeping? && s'.chan[s.pc[p].k] == LK))
  }

  /** All that one action of p can do. */
  ghost predicate Effect(s: State, s': State, p: nat) {
    OnlyPc(s, s', p) && InnerMove(s, s', p) && TableMove(s, s', p) && OwnerMove(s, s', p) && ChanMove(s, s', p)
      && WaitMove(s, s', p)
  }

  ghost predicate Acts(s: State, p: nat) {
    && Shaped(s) && p < |s.pc| && CanMove(s, p)
    && (HoldsInner(s.pc[p]) <==> s.inner == By(p)) && (HoldsTable(s.pc[p]) <==> s.table == By(p))
  }

  lemma AcquireEffect(s: State, p: nat)
    requires Acts(s, p) && PartOf(s.pc[p]) == InAcquire
    ensures Effect(s, DoAcquire(s, p), p)
  {
  }

  lemma SleepEffect(s: State, p: nat)
    requires Acts(s, p) && PartOf(s.pc[p]) == InSleep
    ensures Effect(s, DoSleep(s, p), p)
  {
  }

  lemma ReleaseEffect(s: State, p: nat)
    requires Acts(s, p) && PartOf(s.pc[p]) == InRelease
    ensures Effect(s, DoRelease(s, p), p)
  {
  }

  lemma WakeupEffect(s: State, p: nat)
    requires Acts(s, p) && PartOf(s.pc[p]) == InWakeup
    ensures Effect(s, DoWakeup(s, p), p)
  {
  }

  lemma KillEffect(s: State, p: nat)
    requires Acts(s, p) && PartOf(s.pc[p]) == InKill
    ensures Effect(s, DoKill(s, p), p)
  {
  }

  lemma DoEffect(s: State, p: nat)
    requires Acts(s, p)
    ensures Effect(s, Do(s, p), p)
  {
    match PartOf(s.pc[p]) {
      case InAcquire => AcquireEffect(s, p);
      case InSleep => SleepEffect(s, p);
      case InRelease => ReleaseEffect(s, p);
      case InWakeup => WakeupEffect(s, p);
      case InKill => KillEffect(s, p);
    }
  }

  lemma ChansMoved(s: State, s': State, p: nat)
    requires Chans(s) && OnlyPc(s, s', p) && ChanMove(s, s', p)
    ensures Chans(s')
  {
  }

  /** A process on its way to sleep still sees the lock held: it cannot be let go without the spin lock. */
  lemma OnTheWay(s: State, s': State, p: nat, q: nat)
    requires Spins(s) && NoneLost(s) && OneOwner(s) && OnlyPc(s, s', p) && OwnerMove(s, s', p) && WaitMove(s, s', p)
    requires q < |s.pc| && s'.pc[q] in {SleepTable, SleepRelease}
    ensures s'.locked
  {
    assert HoldsInner(s.pc[q]) <==> s.inner == By(q);
    assert HoldsInner(s.pc[p]) <==> s.inner == By(p);
  }

  /** Who waits now waited before, or saw the lock held a moment ago. */
  lemma WaitedBefore(s: State, s': State, p: nat, q: nat)
    requires Chans(s) && OnlyPc(s, s', p) && ChanMove(s, s', p) && WaitMove(s, s', p) && q < |s.pc| && Waits(s', q)
    ensures Waits(s, q) || (q == p && s.pc[q] == SleepRelease)
  {
    assert s'.run[q].Sleeping? ==> s.run[q].Sleeping? || (q == p && s.pc[p] == SetState);
    assert s.chan[q] == LK <==> OnChan(s.pc[q]);
  }

  /** A wakeup on its way stays so while another process acts. */
  lemma WakeStays(s: State, s': State, p: nat, q: nat)
    requires Spins(s) && Spins(s') && OnlyPc(s, s', p) && WakeComing(s, q) && s.inner.p != p
    ensures WakeComing(s', q)
  {
    var r := s.inner.p;
    assert s'.pc[r] == s.pc[r];
    assert HoldsInner(s'.pc[r]);
  }

  /** A wakeup on its way comes nearer, and reaches q only to wake them. */
  lemma WakeArrives(s: State, s': State, p: nat, q: nat)
    requires Spins(s) && Spins(s') && OnlyPc(s, s', p) && WaitMove(s, s', p) && WakeComing(s, q) && s.inner.p == p
    requires q < |s.pc| && Waits(s', q)
    ensures WakeComing(s', q)
  {
    assert HoldsInner(s'.pc[p]) <==> s'.inner == By(p);
    assert HoldsTable(s.pc[p]) <==> s.table == By(p);
    assert HoldsTable(s.pc[q]) <==> s.table == By(q);
  }

  lemma WaitStays(s: State, s': State, p: nat, q: nat)
    requires Inv(s) && Spins(s') && Effect(s, s', p) && q < |s.pc| && Waits(s', q)
    ensures s'.locked || WakeComing(s', q)
  {
    WaitedBefore(s, s', p, q);
    if s.pc[p] == ClearLocked {
      assert HoldsInner(s'.pc[p]) <==> s'.inner == By(p);
    } else if !s'.locked && Waits(s, q) {
      if s.inner.p == p {
        WakeArrives(s, s', p, q);
      } else {
        WakeStays(s, s', p, q);
      }
    }
  }

  lemma NoneLostMoved(s: State, s': State, p: nat)
    requires Inv(s) && Spins(s') && Effect(s, s', p)
    ensures NoneLost(s')
  {
    forall q | 0 <= q < |s'.pc|
      ensures s'.pc[q] in {SleepTable, SleepRelease} ==> s'.locked
      ensures Waits(s', q) ==> s'.locked || WakeComing(s', q)
    {
      if s'.pc[q] in {SleepTable, SleepRelease} {
        OnTheWay(s, s', p, q);
      }
      if Waits(s', q) {
        WaitStays(s, s', p, q);
      }
    }
  }

  lemma MoveInv(s: State, s': State, p: nat)
    requires Inv(s) && Effect(s, s', p)
    ensures Inv(s')
  {
    SpinsMoved(s, s', p);
    OwnerMoved(s, s', p);
    ChansMoved(s, s', p);
    NoneLostMoved(s, s', p);
  }

  /** A process that is not in the code for this lock can run, sleep and wake as it likes. */
  lemma OtherInv(s: State, p: nat, run: RunState, chan: nat)
    requires Inv(s) && p < |s.pc| && (s.pc[p] == Outside || s.pc[p] == Held) && chan != LK
    ensures Inv(s.(run := s.run[p := run], chan := s.chan[p := chan]))
  {
    var s' := s.(run := s.run[p := run], chan := s.chan[p := chan]);
    forall q | 0 <= q < |s.pc|
      ensures Waits(s', q) ==> s'.locked || WakeComing(s', q)
    {
      assert Waits(s', q) ==> Waits(s, q);
    }
  }

  lemma TableInv(s: State, table: Holder)
    requires Inv(s) && !s.table.By? && !table.By?
    ensures Inv(s.(table := table))
  {
    var s' := s.(table := table);
    forall q | 0 <= q < |s.pc|
      ensures Waits(s', q) ==> s'.locked || WakeComing(s', q)
    {
      assert Waits(s', q) ==> Waits(s, q);
    }
  }

  /** The start of a call, and the return from sched. */
  lemma CallEffect(s: State, p: nat, pc: Pc)
    requires Spins(s) && p < |s.pc|
    requires (s.pc[p] == Outside && (pc == AcqInner || pc.KillTable?)) || (s.pc[p] == Held && pc == RelInner)
    ensures Effect(s, At(s, p, pc), p)
  {
    assert HoldsInner(s.pc[p]) <==> s.inner == By(p);
    assert HoldsTable(s.pc[p]) <==> s.table == By(p);
  }

  lemma DispatchEffect(s: State, p: nat)
    requires Spins(s) && p < |s.pc| && s.pc[p] == InSched && s.table == Scheduler
    ensures Effect(s, At(s, p, ClearChan).(run := s.run[p := Running], table := By(p)), p)
  {
    assert HoldsInner(s.pc[p]) <==> s.inner == By(p);
  }

  lemma StepInv(s: State, step: Step)
    requires Inv(s) && Enabled(s, step)
    ensures Inv(Next(s, step))
  {
    match step
    case Move(p) =>
      DoEffect(s, p);
      MoveInv(s, Do(s, p), p);
    case Lock(p) =>
      CallEffect(s, p, AcqInner);
      MoveInv(s, At(s, p, AcqInner), p);
    case Unlock(p) =>
      CallEffect(s, p, RelInner);
      MoveInv(s, At(s, p, RelInner), p);
    case Kill(p, victim) =>
      CallEffect(s, p, KillTable(victim));
      MoveInv(s, At(s, p, KillTable(victim)), p);
    case Dispatch(p) =>
      DispatchEffect(s, p);
      MoveInv(s, Next(s, step), p);
    case Other(p, run, chan) => OtherInv(s, p, run, chan);
    case SchedAcquire => TableInv(s, Scheduler);
    case SchedRelease => TableInv(s, Free);
  }

  lemma {:induction false} RunInv(init: State, steps: seq<Step>, s: State)
    requires Run(init, steps, s)
    ensures Inv(s)
    decreases |steps|
  {
    if steps != [] {
      var last := |steps| - 1;
      var m :| Run(init, steps[..last], m) && Shaped(m) && Enabled(m, steps[last]) && s == Next(m, steps[last]);
      RunInv(init, steps[..last], m);
      StepInv(m, steps[last]);
    }
  }

  // ---------- What follows ----------

  lemma NobodyAsleep(s: State, p: nat)
    requires Inv(s) && p < |s.pc| && !s.locked && s.inner == Free
    ensures !(s.run[p].Sleeping? && s.chan[p] == LK)
  {
    assert Waits(s, p) ==> s.locked || WakeComing(s, p);
  }

  /** In every run of any number of processes, whenever the sleep lock is unlocked and its spin lock is
      free, no process is asleep on it. */
  lemma NoLostWakeup(init: State, steps: seq<Step>, s: State)
    requires Run(init, steps, s) && !s.locked && s.inner == Free
    ensures Shaped(s) && forall p :: 0 <= p < |s.pc| ==> !(s.run[p].Sleeping? && s.chan[p] == LK)
  {
    RunInv(init, steps, s);
    forall p | 0 <= p < |s.pc|
      ensures !(s.run[p].Sleeping? && s.chan[p] == LK)
    {
      NobodyAsleep(s, p);
    }
  }

  lemma OneHolds(s: State, p: nat, q: nat)
    requires Inv(s) && p < |s.pc| && q < |s.pc| && s.pc[p] == Held && s.pc[q] == Held
    ensures p == q && s.locked && s.pid == p + 1
  {
    assert Owns(s.pc[p]) && Owns(s.pc[q]);
  }

  /** In every run at most one process holds the sleep lock. */
  lemma MutualExclusion(init: State, steps: seq<Step>, s: State, p: nat, q: nat)
    requires Run(init, steps, s) && p < |s.pc| && q < |s.pc| && s.pc[p] == Held && s.pc[q] == Held
    ensures p == q && s.locked && s.pid == p + 1
  {
    RunInv(init, steps, s);
    OneHolds(s, p, q);
  }

  lemma HoldsIffPid(s: State, p: nat)
    requires Inv(s) && p < |s.pc| && s.inner == Free && (s.pc[p] == Outside || s.pc[p] == Held)
    ensures (s.locked && s.pid == p + 1) <==> s.pc[p] == Held
  {
    if s.locked {
      assert Owns(s.pc[s.owner.value]);
      assert !HoldsInner(s.pc[s.owner.value]);
    }
  }

  /** holdingsleep answers, with the spin lock taken, exactly whether its caller holds the sleep lock. */
  lemma HoldingSleep(init: State, steps: seq<Step>, s: State, p: nat)
    requires Run(init, steps, s) && p < |s.pc| && s.inner == Free && (s.pc[p] == Outside || s.pc[p] == Held)
    ensures (s.locked && s.pid == p + 1) <==> s.pc[p] == Held
  {
    RunInv(init, steps, s);
    HoldsIffPid(s, p);
  }
}
