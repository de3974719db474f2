/** What acquiresleep, releasesleep and kill achieve: the lock is taken when it is free and waited for when it is
    not, its release wakes every sleeper, and nobody keeps a spin lock for ever. */
module SleepProgress {
  import opened Common
  import opened SleepLock

  // ---------- Actions of one process in a row ----------

  /** The next action of process p is enabled, and leads from s to s'. */
  predicate OneMove(s: State, p: nat, s': State) {
    Shaped(s) && Enabled(s, Move(p)) && s' == Next(s, Move(p))
  }

  ghost predicate Trail(t: seq<State>, p: nat) {
    |t| > 0 && forall i :: 0 <= i < |t| - 1 ==> OneMove(t[i], p, t[i + 1])
  }

  /** k actions of process p, one after the other and each of them enabled, lead from s to s'. */
  ghost predicate Goes(s: State, p: nat, k: nat, s': State) {
    exists t :: Trail(t, p) && |t| == k + 1 && t[0] == s && t[k] == s'
  }

  lemma GoesOn(s: State, p: nat, j: nat, m: State, k: nat, s': State, all: nat)
    requires Goes(s, p, j, m) && Goes(m, p, k, s') && all == j + k
    ensures Goes(s, p, all, s')
  {
    var t :| Trail(t, p) && |t| == j + 1 && t[0] == s && t[j] == m;
    var u :| Trail(u, p) && |u| == k + 1 && u[0] == m && u[k] == s';
    var v := t + u[1..];
    forall i | 0 <= i < |v| - 1
      ensures OneMove(v[i], p, v[i + 1])
    {
      if i < j {
        assert OneMove(t[i], p, t[i + 1]);
      } else {
        assert OneMove(u[i - j], p, u[i - j + 1]);
      }
    }
    assert Trail(v, p) && v[0] == s && v[all] == s';
  }

  lemma GoesThree(s: State, p: nat, i: nat, m: State, j: nat, m': State, k: nat, s': State, all: nat)
    requires Goes(s, p, i, m) && Goes(m, p, j, m') && Goes(m', p, k, s') && all == i + j + k
    ensures Goes(s, p, all, s')
  {
    GoesOn(m, p, j, m', k, s', j + k);
    GoesOn(s, p, i, m, j + k, s', all);
  }

  lemma GoesOne(s: State, p: nat, s': State)
    requires OneMove(s, p, s')
    ensures Goes(s, p, 1, s')
  {
    assert Trail([s, s'], p);
  }

  lemma GoesTwo(s: State, p: nat, m: State, s': State)
    requires OneMove(s, p, m) && OneMove(m, p, s')
    ensures Goes(s, p, 2, s')
  {
    assert Trail([s, m, s'], p);
  }

  // ---------- acquiresleep ----------

  lemma TestTakes(s: State, p: nat)
    requires Shaped(s) && p < |s.pc| && s.pc[p] == Test && s.run[p].Running? && !s.locked
    ensures Goes(s, p, 4, s.(pc := s.pc[p := Held], inner := Free, locked := true, pid := p + 1, owner := Some(p)))
  {
    var s1 := At(s, p, SetLocked);
    var s2 := s.(pc := s.pc[p := SetPid], locked := true, owner := Some(p));
    var s3 := s2.(pc := s.pc[p := AcqDone], pid := p + 1);
    var s4 := s3.(pc := s.pc[p := Held], inner := Free);
    GoesTwo(s, p, s1, s2);
    GoesTwo(s2, p, s3, s4);
    GoesOn(s, p, 2, s2, 2, s4, 4);
  }

  /** Who finds the lock free, in any state of any run, has it four actions later, whatever the other
      processes hold: nothing is waited for. */
  lemma AcquireTakes(init: State, steps: seq<Step>, s: State, p: nat)
    requires Run(init, steps, s) && p < |s.pc| && s.pc[p] == Test && !s.locked
    ensures var s' := s.(pc := s.pc[p := Held], inner := Free, locked := true, pid := p + 1, owner := Some(p));
            Goes(s, p, 4, s')
  {
    RunAwake(init, steps, s);
    assert AwakeAt(s, p);
    TestTakes(s, p);
  }

  /** Who finds it held goes to sleep on it, in six actions, the spin lock given up only when ptable.lock is
      taken. */
  lemma AcquireSleeps(init: State, steps: seq<Step>, s: State, p: nat)
    requires Run(init, steps, s) && p < |s.pc| && s.pc[p] == Test && s.locked && s.table == Free
    ensures Shaped(s)
    ensures var s' := s.(pc := s.pc[p := InSched], inner := Free, table := Scheduler, chan := s.chan[p := LK],
                         run := s.run[p := Sleeping]);
            Goes(s, p, 6, s')
  {
    RunInv(init, steps, s);
    RunAwake(init, steps, s);
    assert AwakeAt(s, p);
    var s1 := At(s, p, SleepTable);
    var s2 := s.(pc := s.pc[p := SleepRelease], table := By(p));
    var s3 := s2.(pc := s.pc[p := SetChan], inner := Free);
    var s4 := s3.(pc := s.pc[p := SetState], chan := s.chan[p := LK]);
    var s5 := s4.(pc := s.pc[p := CallSched], run := s.run[p := Sleeping]);
    var s6 := s5.(pc := s.pc[p := InSched], table := Scheduler);
    assert Next(s, Move(p)) == s1 && Next(s1, Move(p)) == s2 && Next(s2, Move(p)) == s3;
    assert Next(s3, Move(p)) == s4 && Next(s4, Move(p)) == s5 && Next(s5, Move(p)) == s6;
    GoesTwo(s, p, s1, s2);
    GoesTwo(s2, p, s3, s4);
    GoesTwo(s4, p, s5, s6);
    GoesThree(s, p, 2, s2, 2, s4, 2, s6, 6);
  }

  /** A call of acquiresleep that finds both locks free is back in five actions with the lock. */
  lemma AcquireCall(s: State, p: nat)
    requires Shaped(s) && p < |s.pc| && s.pc[p] == Outside && s.run[p].Running? && s.inner == Free && !s.locked
    ensures Enabled(s, Lock(p))
    ensures var s' := s.(pc := s.pc[p := Held], locked := true, pid := p + 1, owner := Some(p));
            Goes(Next(s, Lock(p)), p, 5, s')
  {
    var s0 := At(s, p, AcqInner);
    var s1 := s.(pc := s.pc[p := Test], inner := By(p));
    var s' := s.(pc := s.pc[p := Held], locked := true, pid := p + 1, owner := Some(p));
    assert s0.pc[p := Test] == s1.pc && s1.pc[p := Held] == s'.pc;
    GoesOne(s0, p, s1);
    TestTakes(s1, p);
    GoesOn(s0, p, 1, s1, 4, s', 5);
  }

  /** A sleeper that has been woken, and is given a CPU, is back at its test with ptable.lock free: it takes
      lk->lk next. */
  lemma WokenReturns(s: State, p: nat)
    requires Shaped(s) && p < |s.pc| && s.pc[p] == InSched && s.run[p].Runnable? && s.table == Scheduler
    ensures Enabled(s, Dispatch(p))
    ensures var s' := s.(pc := s.pc[p := AcqInner], run := s.run[p := Running], chan := s.chan[p := 0], table := Free);
            Goes(Next(s, Dispatch(p)), p, 2, s')
  {
    var s0 := s.(pc := s.pc[p := ClearChan], run := s.run[p := Running], table := By(p));
    var s1 := s0.(pc := s.pc[p := WakeRelease], chan := s.chan[p := 0]);
    var s' := s.(pc := s.pc[p := AcqInner], run := s.run[p := Running], chan := s.chan[p := 0], table := Free);
    assert s0.pc[p := WakeRelease] == s1.pc && s1.pc[p := AcqInner] == s'.pc;
    GoesTwo(s0, p, s1, s');
  }

  // ---------- releasesleep ----------

  /** The processes that a wakeup on the lock leaves, once it has passed the first k. */
  ghost predicate WokenTo(s: State, s': State, k: nat) {
    && Shaped(s) && |s'.run| == |s.run|
    && forall q :: 0 <= q < |s.run| ==>
         s'.run[q] == if q < k && s.run[q].Sleeping? && s.chan[q] == LK then Runnable else s.run[q]
  }

  /** wakeup1 at table entry k. */
  lemma ScanActs(s: State, p: nat, k: nat, next: nat, s': State)
    requires Shaped(s) && p < |s.pc| && s.pc[p] == Scan(k) && next == k + 1 <= |s.pc| && s.run[p].Running?
    requires s' == s.(pc := s.pc[p := Scan(next)],
                      run := if s.run[k].Sleeping? && s.chan[k] == LK then s.run[k := Runnable] else s.run)
    ensures OneMove(s, p, s')
  {
  }

  /** Its loop, from table entry k on. */
  lemma {:induction false} ScanGoes(s: State, p: nat, k: nat, s': State, left: nat)
    requires Shaped(s) && p < |s.pc| && s.pc[p] == Scan(k) && k + left == |s.pc| + 1 && left > 0 && s.run[p].Running?
    requires WokenTo(s, s', |s.pc|) && (forall q :: 0 <= q < k ==> !(s.run[q].Sleeping? && s.chan[q] == LK))
    requires s' == s.(pc := s.pc[p := ScanDone], run := s'.run)
    ensures Goes(s, p, left, s')
    decreases left
  {
    if k == |s.pc| {
      assert s'.run == s.run;
      GoesOne(s, p, s');
    } else {
      var next, less := k + 1, left - 1;
      var m := s.(pc := s.pc[p := Scan(next)],
                  run := if s.run[k].Sleeping? && s.chan[k] == LK then s.run[k := Runnable] else s.run);
      ScanActs(s, p, k, next, m);
      assert m.pc[p := ScanDone] == s'.pc;
      ScanGoes(m, p, next, s', less);
      GoesOne(s, p, m);
      GoesOn(s, p, 1, m, less, s', left);
    }
  }

  /** releasesleep up to the loop of wakeup1. */
  lemma ReleaseStarts(s: State, p: nat, s': State)
    requires Shaped(s) && p < |s.pc| && s.pc[p] == RelInner && s.run[p].Running? && s.inner == Free && s.table == Free
    requires s' == s.(pc := s.pc[p := Scan(0)], inner := By(p), locked := false, owner := None, pid := 0,
                      table := By(p))
    ensures Goes(s, p, 4, s')
  {
    var s1 := s.(pc := s.pc[p := ClearLocked], inner := By(p));
    var s2 := s1.(pc := s.pc[p := ClearPid], locked := false, owner := None);
    var s3 := s2.(pc := s.pc[p := WakeTable], pid := 0);
    GoesTwo(s, p, s1, s2);
    GoesTwo(s2, p, s3, s');
    GoesOn(s, p, 2, s2, 2, s', 4);
  }

  /** And after it. */
  lemma ReleaseEnds(s: State, p: nat, s': State)
    requires Shaped(s) && p < |s.pc| && s.pc[p] == ScanDone && s.run[p].Running?
    requires s' == s.(pc := s.pc[p := Outside], inner := Free, table := Free)
    ensures Goes(s, p, 2, s')
  {
    GoesTwo(s, p, s.(pc := s.pc[p := RelDone], table := Free), s');
  }

  function WokenOn(run: seq<RunState>, chan: seq<nat>): (r: seq<RunState>)
    requires |chan| == |run|
    ensures |r| == |run|
    ensures forall q :: 0 <= q < |run| ==> r[q] == if run[q].Sleeping? && chan[q] == LK then Runnable else run[q]
  {
    seq(|run|, q requires 0 <= q < |run| => if run[q].Sleeping? && chan[q] == LK then Runnable else run[q])
  }

  lemma ReleaseGoes(s: State, p: nat, all: nat) returns (s': State)
    requires Shaped(s) && p < |s.pc| && s.pc[p] == RelInner && s.run[p].Running? && s.inner == Free && s.table == Free
    requires all == |s.pc| + 7
    ensures Goes(s, p, all, s')
    ensures s' == s.(pc := s.pc[p := Outside], locked := false, pid := 0, owner := None, run := WokenOn(s.run, s.chan))
  {
    var scan := |s.pc| + 1;
    var s4 := s.(pc := s.pc[p := Scan(0)], inner := By(p), locked := false, owner := None, pid := 0, table := By(p));
    var s5 := s4.(pc := s4.pc[p := ScanDone], run := WokenOn(s.run, s.chan));
    s' := s5.(pc := s5.pc[p := Outside], inner := Free, table := Free);
    ReleaseStarts(s, p, s4);
    ScanGoes(s4, p, 0, s5, scan);
    ReleaseEnds(s5, p, s');
    GoesThree(s, p, 4, s4, scan, s5, 2, s', all);
    assert s'.pc == s.pc[p := Outside];
  }

  /** releasesleep by the holder, when both spin locks are free: its actions are all enabled and leave the
      lock free, and every process that slept on it runnable. */
  lemma ReleaseWakes(s: State, p: nat) returns (s': State)
    requires Shaped(s) && p < |s.pc| && s.pc[p] == Held && s.run[p].Running? && s.inner == Free && s.table == Free
    ensures Enabled(s, Unlock(p)) && Goes(Next(s, Unlock(p)), p, |s.pc| + 7, s')
    ensures s' == s.(pc := s.pc[p := Outside], locked := false, pid := 0, owner := None, run := s'.run)
    ensures WokenTo(s, s', |s.pc|)
    ensures forall q :: 0 <= q < |s.pc| ==> !(s'.run[q].Sleeping? && s'.chan[q] == LK)
  {
    var s0, all := At(s, p, RelInner), |s.pc| + 7;
    s' := ReleaseGoes(s0, p, all);
    assert s0.pc[p := Outside] == s.pc[p := Outside];
  }

  // ---------- kill ----------

  lemma KillActs(s: State, p: nat, v: nat, s': State)
    requires Shaped(s) && p < |s.pc| && v < |s.pc| && s.pc[p] == KillIt(v) && s.run[p].Running?
    requires s' == s.(pc := s.pc[p := KillDone], killed := s.killed[v := true],
                      run := if s.run[v].Sleeping? then s.run[v := Runnable] else s.run)
    ensures OneMove(s, p, s')
  {
  }

  lemma KillStarts(s: State, p: nat, v: nat, s': State)
    requires Shaped(s) && p < |s.pc| && s.pc[p] == KillTable(v) && s.run[p].Running? && s.table == Free
    requires s' == s.(pc := s.pc[p := KillIt(v)], table := By(p))
    ensures OneMove(s, p, s')
  {
  }

  lemma KillEnds(s: State, p: nat, s': State)
    requires Shaped(s) && p < |s.pc| && s.pc[p] == KillDone && s.run[p].Running?
    requires s' == s.(pc := s.pc[p := Outside], table := Free)
    ensures OneMove(s, p, s')
  {
  }

  /** kill of process v: it is marked, does not sleep any more, and no one else is touched. */
  lemma KillMarks(s: State, p: nat, v: nat, s': State)
    requires Shaped(s) && p < |s.pc| && v < |s.pc| && s.pc[p] == Outside && s.run[p].Running? && s.table == Free
    requires s' == s.(killed := s.killed[v := true],
                      run := if s.run[v].Sleeping? then s.run[v := Runnable] else s.run)
    ensures Enabled(s, Kill(p, v)) && Goes(Next(s, Kill(p, v)), p, 3, s')
  {
    var s0 := At(s, p, KillTable(v));
    var s1 := s0.(pc := s0.pc[p := KillIt(v)], table := By(p));
    var s2 := s1.(pc := s1.pc[p := KillDone], killed := s'.killed, run := s'.run);
    KillStarts(s0, p, v, s1);
    KillActs(s1, p, v, s2);
    assert s2.pc[p := Outside] == s'.pc;
    KillEnds(s2, p, s');
    GoesOne(s0, p, s1);
    GoesOne(s1, p, s2);
    GoesOne(s2, p, s');
    GoesThree(s0, p, 1, s1, 1, s2, 1, s', 3);
  }

  // ---------- Nobody keeps a spin lock ----------

  /** A process in the middle of these calls is on a CPU, but for the time it sleeps. */
  predicate AwakeAt(s: State, p: nat)
    requires Shaped(s) && p < |s.pc|
  {
    s.pc[p] in {Outside, Held, CallSched, InSched} || s.run[p].Running?
  }

  ghost predicate Awake(s: State) {
    Shaped(s) && forall p :: 0 <= p < |s.pc| ==> AwakeAt(s, p)
  }

  lemma DoAwake(s: State, p: nat, q: nat)
    requires Shaped(s) && p < |s.pc| && CanMove(s, p) && q < |s.pc| && AwakeAt(s, q)
    ensures AwakeAt(Do(s, p), q)
  {
    match PartOf(s.pc[p]) {
      case InAcquire =>
      case InSleep =>
      case InRelease =>
      case InWakeup => assert s.run[q].Running? ==> DoWakeup(s, p).run[q].Running?;
      case InKill => assert s.run[q].Running? ==> DoKill(s, p).run[q].Running?;
    }
  }

  lemma StepAwake(s: State, step: Step)
    requires Awake(s) && Enabled(s, step)
    ensures Awake(Next(s, step))
  {
    var s' := Next(s, step);
    forall q | 0 <= q < |s'.pc|
      ensures AwakeAt(s', q)
    {
      assert AwakeAt(s, q);
      if step.Move? {
        DoAwake(s, step.p, q);
      }
    }
  }

  lemma {:induction false} RunAwake(init: State, steps: seq<Step>, s: State)
    requires Run(init, steps, s)
    ensures Awake(s)
    decreases |steps|
  {
    if steps != [] {
      var last := |steps| - 1;
      var m :| Run(init, steps[..last], m) && Shaped(m) && Enabled(m, steps[last]) && s == Next(m, steps[last]);
      RunAwake(init, steps[..last], m);
      StepAwake(m, steps[last]);
    }
  }

  /** The actions a process has before it the release of lk->lk included, in a table of n entries. */
  function InnerLeft(pc: Pc, locked: bool, n: nat): nat {
    match pc
    case Test => if locked then 3 else 4
    case SleepTable => 2
    case SleepRelease => 1
    case SetLocked => 3
    case SetPid => 2
    case AcqDone => 1
    case ClearLocked => n + 6
    case ClearPid => n + 5
    case WakeTable => n + 4
    case Scan(k) => if k <= n then n - k + 3 else 3
    case ScanDone => 2
    case RelDone => 1
    case _ => 0
  }

  /** The same for ptable.lock; sched hands it to the scheduler. */
  function TableLeft(pc: Pc, n: nat): nat {
    match pc
    case SleepRelease => 4
    case SetChan => 3
    case SetState => 2
    case CallSched => 1
    case ClearChan => 2
    case WakeRelease => 1
    case Scan(k) => if k <= n then n - k + 2 else 2
    case ScanDone => 1
    case KillIt(_) => 2
    case KillDone => 1
    case _ => 0
  }

  /** The step counts down what its process has left of a spin lock, or is another's and leaves it alone. */
  ghost predicate CountsDown(mine: bool, held': bool, left: nat, left': nat) {
    if mine then held' == (left > 1) && (left > 1 ==> left' == left - 1) else held' && left' == left
  }

  /** An action of the holder itself. */
  lemma InnerOwn(s: State, p: nat)
    requires Shaped(s) && p < |s.pc| && CanMove(s, p) && HoldsInner(s.pc[p]) && s.inner == By(p)
    ensures var s', n := Do(s, p), |s.pc|;
            CountsDown(true, s'.inner == By(p), InnerLeft(s.pc[p], s.locked, n), InnerLeft(s'.pc[p], s'.locked, n))
  {
    match PartOf(s.pc[p]) {
      case InAcquire =>
      case InSleep =>
      case InRelease =>
      case InWakeup =>
      case InKill =>
    }
  }

  /** One of another process, which does not hold it. */
  lemma InnerOther(s: State, q: nat)
    requires Shaped(s) && q < |s.pc| && CanMove(s, q) && !HoldsInner(s.pc[q]) && s.inner != Free
    ensures Do(s, q).inner == s.inner && Do(s, q).locked == s.locked && Do(s, q).pc == s.pc[q := Do(s, q).pc[q]]
  {
    match PartOf(s.pc[q]) {
      case InAcquire =>
      case InSleep =>
      case InRelease =>
      case InWakeup =>
      case InKill =>
    }
  }

  lemma InnerStep(s: State, step: Step, p: nat)
    requires Spins(s) && Enabled(s, step) && s.inner == By(p)
    ensures var s', n := Next(s, step), |s.pc|;
            CountsDown(step == Move(p), s'.inner == By(p), InnerLeft(s.pc[p], s.locked, n),
                       InnerLeft(s'.pc[p], s'.locked, n))
  {
    assert HoldsInner(s.pc[p]);
    if step == Move(p) {
      InnerOwn(s, p);
    } else if step.Move? {
      assert HoldsInner(s.pc[step.p]) <==> s.inner == By(step.p);
      InnerOther(s, step.p);
    }
  }

  /** In every run, who holds lk->lk has a next action, unless it wants ptable.lock and that is held; and with
      every action, whatever other processes do in between, it comes nearer to letting go of lk->lk: it
      does so after at most as many actions as there are processes, and six. */
  lemma InnerProgress(init: State, steps: seq<Step>, s: State, p: nat)
    requires Run(init, steps, s) && s.inner == By(p)
    ensures Shaped(s) && p < |s.pc| && 0 < InnerLeft(s.pc[p], s.locked, |s.pc|) <= |s.pc| + 6
    ensures CanMove(s, p) || (s.pc[p] in {SleepTable, WakeTable} && s.table != Free)
    ensures forall step :: Enabled(s, step) ==>
              var s', n := Next(s, step), |s.pc|;
              CountsDown(step == Move(p), s'.inner == By(p), InnerLeft(s.pc[p], s.locked, n),
                         InnerLeft(s'.pc[p], s'.locked, n))
  {
    RunInv(init, steps, s);
    RunAwake(init, steps, s);
    assert AwakeAt(s, p) && HoldsInner(s.pc[p]);
    forall step | Enabled(s, step)
      ensures var s', n := Next(s, step), |s.pc|;
              CountsDown(step == Move(p), s'.inner == By(p), InnerLeft(s.pc[p], s.locked, n),
                         InnerLeft(s'.pc[p], s'.locked, n))
    {
      InnerStep(s, step, p);
    }
  }

  lemma TableOwn(s: State, p: nat)
    requires Shaped(s) && p < |s.pc| && CanMove(s, p) && HoldsTable(s.pc[p]) && s.table == By(p)
    ensures var s', n := Do(s, p), |s.pc|;
            CountsDown(true, s'.table == By(p), TableLeft(s.pc[p], n), TableLeft(s'.pc[p], n))
  {
    match PartOf(s.pc[p]) {
      case InAcquire =>
      case InSleep =>
      case InRelease =>
      case InWakeup =>
      case InKill =>
    }
  }

  lemma TableOther(s: State, q: nat)
    requires Shaped(s) && q < |s.pc| && CanMove(s, q) && !HoldsTable(s.pc[q]) && s.table != Free
    ensures Do(s, q).table == s.table && Do(s, q).pc == s.pc[q := Do(s, q).pc[q]]
  {
    match PartOf(s.pc[q]) {
      case InAcquire =>
      case InSleep =>
      case InRelease =>
      case InWakeup =>
      case InKill =>
    }
  }

  lemma TableStep(s: State, step: Step, p: nat)
    requires Spins(s) && Enabled(s, step) && s.table == By(p)
    ensures var s', n := Next(s, step), |s.pc|;
            CountsDown(step == Move(p), s'.table == By(p), TableLeft(s.pc[p], n), TableLeft(s'.pc[p], n))
  {
    assert HoldsTable(s.pc[p]);
    if step == Move(p) {
      TableOwn(s, p);
    } else if step.Move? {
      assert HoldsTable(s.pc[step.p]) <==> s.table == By(step.p);
      TableOther(s, step.p);
    }
  }

  /** And who holds ptable.lock always has a next action, and lets go of it, or hands it to the scheduler, in
      as few. The scheduler can always let go of it. So nobody waits for a spin lock that is never freed. */
  lemma TableProgress(init: State, steps: seq<Step>, s: State, p: nat)
    requires Run(init, steps, s)
    ensures Shaped(s) && (s.table == Scheduler ==> Enabled(s, SchedRelease))
    ensures s.table == By(p) ==>
              && p < |s.pc| && CanMove(s, p) && 0 < TableLeft(s.pc[p], |s.pc|) <= |s.pc| + 4
              && forall step :: Enabled(s, step) ==>
                   var s', n := Next(s, step), |s.pc|;
                   CountsDown(step == Move(p), s'.table == By(p), TableLeft(s.pc[p], n), TableLeft(s'.pc[p], n))
  {
    RunInv(init, steps, s);
    RunAwake(init, steps, s);
    if s.table == By(p) {
      assert AwakeAt(s, p) && HoldsTable(s.pc[p]);
      forall step | Enabled(s, step)
        ensures var s', n := Next(s, step), |s.pc|;
                CountsDown(step == Move(p), s'.table == By(p), TableLeft(s.pc[p], n), TableLeft(s'.pc[p], n))
      {
        TableStep(s, step, p);
      }
    }
  }
}
