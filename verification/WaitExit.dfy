/** fork, exit, wait and the scheduler as steps over the whole process table: each critical section of
    ptable.lock is one step, and what a process does without the lock is a step of its own. */
module WaitExit {
  import opened Common
  import opened ProcTable

  datatype Holder = Free | By(p: nat) | Scheduler

  /** `onCpu`: a CPU is on the process's kernel stack. `forking`: the entry that fork is building.
      `inWait`: in the sleep of wait. `exits` and `reaps` record the pids of exit and of wait, and `answers`
      what each call of wait has returned. */
  datatype Sys = Sys(procs: seq<Proc>, lock: Holder, onCpu: seq<bool>, forking: seq<Option<nat>>, inWait: seq<bool>,
                     init: nat, nextpid: nat, exits: seq<nat>, reaps: seq<nat>, answers: seq<Answer>)

  /** Process p has got r from wait. */
  datatype Answer = Answer(p: nat, r: int)

  datatype Step =
    | Alloc(p: nat, np: nat)   // fork: allocproc takes an unused entry
    | Stack(p: nat)            //   kalloc gives it a stack; no lock
    | AllocFail(p: nat)        //   or the entry goes back, its stack freed; no lock
    | SetParent(p: nat)        //   np->parent = curproc; no lock
    | ForkDone(p: nat)
    | Exit(p: nat)             // up to state = ZOMBIE, the lock still held
    | Wait(p: nat, r: WaitResult)  // one scan, and what follows it
    | Sleep(p: nat, n: nat)    // any other sleep
    | Yield(p: nat)
    | Switch(p: nat)           // sched: swtch to the scheduler, which now has the lock
    | SchedAcquire
    | SchedRelease
    | Dispatch(p: nat)         // the scheduler switches to p, which now has the lock
    | Release(p: nat)          // and releases it
    | Wakeup(chan: Chan)
    | Kill(v: nat)

  predicate Shaped(s: Sys) {
    && |s.onCpu| == |s.procs| && |s.forking| == |s.procs| && |s.inWait| == |s.procs| && s.init < |s.procs|
  }

  predicate Runs(s: Sys, p: nat)
    requires Shaped(s)
  {
    p < |s.procs| && s.procs[p].state == Running && s.onCpu[p]
  }

  /** fork of p has an entry in hand. */
  predicate Forks(s: Sys, p: nat)
    requires Shaped(s)
  {
    Runs(s, p) && s.forking[p].Some? && s.forking[p].value < |s.procs|
  }

  function Set(s: Sys, q: nat, x: Proc): Sys
    requires q < |s.procs|
  {
    s.(procs := s.procs[q := x])
  }

  /** p has given up its CPU in its state, and still holds the lock. */
  function Stop(s: Sys, p: nat, state: Status, chan: Chan): Sys
    requires p < |s.procs|
  {
    Set(s, p, s.procs[p].(state := state, chan := chan)).(lock := By(p))
  }

  ghost predicate WaitStep(s: Sys, s': Sys, p: nat, r: WaitResult)
    requires Shaped(s)
  {
    && Runs(s, p) && s.forking[p].None? && s.lock == (if s.inWait[p] then By(p) else Free) && WaitFinds(s.procs, p, r)
    && s' == match r
             case Reaped(c) =>
               Set(s, c, Freed(s.procs[c])).(lock := Free, inWait := s.inWait[p := false],
                 reaps := s.reaps + [s.procs[c].pid], answers := s.answers + [Answer(p, s.procs[c].pid)])
             case NoZombie(havekids) =>
               if !havekids || s.procs[p].killed then
                 s.(lock := Free, inWait := s.inWait[p := false], answers := s.answers + [Answer(p, -1)])
               else Stop(s, p, Sleeping, OfProc(p)).(inWait := s.inWait[p := true])
  }

  ghost predicate ForkStep(s: Sys, s': Sys, step: Step)
    requires Shaped(s)
  {
    match step
    case Alloc(p, np) =>
      && Runs(s, p) && s.lock == Free && s.forking[p].None? && np < |s.procs| && s.procs[np].state == Unused
      && s' == Set(s, np, s.procs[np].(state := Embryo, pid := s.nextpid)).(nextpid := s.nextpid + 1,
         forking := s.forking[p := Some(np)])
    case Stack(p) =>
      Forks(s, p) && var np := s.forking[p].value; s' == Set(s, np, s.procs[np].(kstack := true))
    case AllocFail(p) =>
      && Forks(s, p) && s.procs[s.forking[p].value].parent.None?
      && s' == Set(s, s.forking[p].value,
         s.procs[s.forking[p].value].(state := Unused, kstack := false)).(forking := s.forking[p := None])
    case SetParent(p) =>
      Forks(s, p) && var np := s.forking[p].value;
          s.procs[np].kstack && s' == Set(s, np, s.procs[np].(parent := Some(p)))
    case ForkDone(p) =>
      && Forks(s, p) && s.lock == Free && s.procs[s.forking[p].value].parent == Some(p)
      && s' == Set(s, s.forking[p].value,
         s.procs[s.forking[p].value].(state := Runnable)).(forking := s.forking[p := None])
    case _ => false
  }

  ghost predicate SchedStep(s: Sys, s': Sys, step: Step)
    requires Shaped(s)
  {
    match step
    case Sleep(p, n) => Runs(s, p) && s.lock == Free && s' == Stop(s, p, Sleeping, OtherChan(n))
    case Yield(p) => Runs(s, p) && s.lock == Free && s' == Stop(s, p, Runnable, s.procs[p].chan)
    case Switch(p) =>
      && p < |s.procs| && s.lock == By(p) && s.onCpu[p] && s.procs[p].state != Running
      && s' == s.(lock := Scheduler, onCpu := s.onCpu[p := false])
    case SchedAcquire => s.lock == Free && s' == s.(lock := Scheduler)
    case SchedRelease => s.lock == Scheduler && s' == s.(lock := Free)
    case Dispatch(p) =>
      && p < |s.procs| && s.lock == Scheduler && s.procs[p].state == Runnable
      && s' == Set(s, p, s.procs[p].(state := Running, chan := NoChan)).(lock := By(p), onCpu := s.onCpu[p := true])
    case Release(p) => Runs(s, p) && s.lock == By(p) && !s.inWait[p] && s' == s.(lock := Free)
    case _ => false
  }

  ghost predicate Next(s: Sys, s': Sys, step: Step)
    requires Shaped(s)
  {
    match step
    case Exit(p) =>
      && Runs(s, p) && s.lock == Free && s.forking[p].None? && !s.inWait[p] && p != s.init
      && ExitDone(s.procs, s'.procs, p, s.init)
      && s' == s.(procs := s'.procs, lock := By(p), exits := s.exits + [s.procs[p].pid])
    case Wait(p, r) => WaitStep(s, s', p, r)
    case Wakeup(chan) =>
      && s.lock == Free && |s'.procs| == |s.procs| && s' == s.(procs := s'.procs)
      && forall q :: 0 <= q < |s.procs| ==> s'.procs[q] == Woken(s.procs[q], chan)
    case Kill(v) => s.lock == Free && v < |s.procs| && s' == s.(procs := Killed(s.procs, v))
    case Alloc(_, _) | Stack(_) | AllocFail(_) | SetParent(_) | ForkDone(_) => ForkStep(s, s', step)
    case _ => SchedStep(s, s', step)
  }

  /** After userinit: the init process and nothing else. */
  predicate Init(s: Sys) {
    && Shaped(s) && s.lock == Free && s.nextpid == 2 && s.exits == [] && s.reaps == [] && s.answers == []
    && (forall p :: 0 <= p < |s.procs| ==> !s.onCpu[p] && s.forking[p].None? && !s.inWait[p])
    && (forall p :: 0 <= p < |s.procs| ==> s.procs[p].parent.None? && s.procs[p].chan == NoChan)
    && (forall p :: 0 <= p < |s.procs| && p != s.init ==> s.procs[p].state == Unused)
    && s.procs[s.init].state == Runnable && s.procs[s.init].pid == 1 && s.procs[s.init].kstack
  }

  ghost predicate Run(init: Sys, steps: seq<Step>, s: Sys)
    decreases |steps|
  {
    if steps == [] then s == init && Init(init)
    else exists m :: Run(init, steps[..|steps| - 1], m) && Shaped(m) && Next(m, s, steps[|steps| - 1])
  }

  // ---------- The invariant ----------

  predicate Alive(x: Proc) {
    x.state == Sleeping || x.state == Runnable || x.state == Running
  }

  ghost predicate Cpus(s: Sys) {
    && Shaped(s) && (s.lock.By? ==> s.lock.p < |s.procs| && s.onCpu[s.lock.p])
    && (s.lock.By? ==> Alive(s.procs[s.lock.p]) || s.procs[s.lock.p].state == Zombie)
    && (forall p :: 0 <= p < |s.procs| && s.onCpu[p] ==> s.procs[p].state == Running || s.lock == By(p))
    && (forall p :: 0 <= p < |s.procs| && s.procs[p].state == Running ==> s.onCpu[p])
  }

  /** A fork in progress is a live process's, and its entry is its own. */
  ghost predicate ForksOk(s: Sys) {
    && Shaped(s)
    && (forall p :: 0 <= p < |s.procs| && s.forking[p].Some? ==>
          s.forking[p].value < |s.procs| && s.procs[s.forking[p].value].state == Embryo && Alive(s.procs[p]))
    && (forall p, q :: 0 <= p < |s.procs| && 0 <= q < |s.procs| && p != q && s.forking[p].Some? ==>
         s.forking[p] != s.forking[q])
  }

  /** A child's parent is alive. */
  ghost predicate NoOrphans(s: Sys) {
    && Shaped(s) && Alive(s.procs[s.init]) && s.procs[s.init].parent.None?
    && (forall c :: 0 <= c < |s.procs| && s.procs[c].parent.Some? ==>
          s.procs[c].parent.value < |s.procs| && Alive(s.procs[s.procs[c].parent.value]))
  }

  /** A free entry has no parent, an entry that fork builds has at most the forking process, and every
      process but init has one, another process. */
  ghost predicate HasParent(s: Sys) {
    && Shaped(s)
    && (forall c :: 0 <= c < |s.procs| ==> !IsChild(s.procs[c], c))
    && (forall c :: 0 <= c < |s.procs| && s.procs[c].state == Unused ==> s.procs[c].parent.None?)
    && (forall c :: 0 <= c < |s.procs| && s.procs[c].state == Embryo && s.procs[c].parent.Some? ==>
          s.procs[c].parent.value < |s.procs| && s.forking[s.procs[c].parent.value] == Some(c))
    && (forall c :: 0 <= c < |s.procs| && (Alive(s.procs[c]) || s.procs[c].state == Zombie) && c != s.init ==>
         s.procs[c].parent.Some?)
  }

  ghost predicate Parents(s: Sys) {
    NoOrphans(s) && HasParent(s)
  }

  /** Asleep in wait or waitx. */
  predicate Waiting(x: Proc, p: nat) {
    x.state == Sleeping && x.chan == OfProc(p)
  }

  /** Nobody asleep in wait has a zombie child. */
  ghost predicate NoneMissed(s: Sys) {
    && Shaped(s)
    && forall p, c :: 0 <= p < |s.procs| && 0 <= c < |s.procs| && Waiting(s.procs[p], p) && IsChild(s.procs[c], p) ==>
         s.procs[c].state != Zombie
  }

  ghost predicate Stacks(s: Sys) {
    && Shaped(s)
    && (forall p :: 0 <= p < |s.procs| && (Alive(s.procs[p]) || s.procs[p].state == Zombie) ==> s.procs[p].kstack)
    && (forall p :: 0 <= p < |s.procs| && s.procs[p].state == Embryo && s.procs[p].parent.Some? ==> s.procs[p].kstack)
  }

  /** Pids are fresh, and no two processes have the same. */
  ghost predicate Fresh(s: Sys) {
    && Shaped(s)
    && (forall p :: 0 <= p < |s.procs| && s.procs[p].state != Unused ==> s.procs[p].pid < s.nextpid)
    && (forall p, q :: 0 <= p < q < |s.procs| && s.procs[p].state != Unused && s.procs[q].state != Unused ==>
         s.procs[p].pid != s.procs[q].pid)
  }

  /** No pid exits or is reaped twice, and none is reaped that has not exited. */
  ghost predicate Recorded(s: Sys) {
    && Distinct(s.exits) && Distinct(s.reaps)
    && (forall e :: e in s.exits ==> e < s.nextpid)
    && (forall e :: e in s.reaps ==> e in s.exits)
  }

  ghost predicate IsZombie(procs: seq<Proc>, pid: nat) {
    exists p :: 0 <= p < |procs| && procs[p].state == Zombie && procs[p].pid == pid
  }

  /** The exited pids are those of the zombies and the reaped. */
  ghost predicate Accounted(s: Sys) {
    && Shaped(s)
    && (forall p :: 0 <= p < |s.procs| && s.procs[p].state != Unused ==> s.procs[p].pid !in s.reaps)
    && (forall p :: 0 <= p < |s.procs| && s.procs[p].state != Unused ==>
         (s.procs[p].pid in s.exits <==> s.procs[p].state == Zombie))
    && (forall e :: e in s.exits && e !in s.reaps ==> IsZombie(s.procs, e))
  }

  ghost predicate Pids(s: Sys) {
    Fresh(s) && Recorded(s) && Accounted(s)
  }

  ghost predicate Inv(s: Sys) {
    Cpus(s) && ForksOk(s) && Parents(s) && NoneMissed(s) && Stacks(s) && Pids(s)
  }

  // ---------- Steps that change no one's life ----------

  /** The same process, at most running, sleeping or woken instead. */
  predicate Alike(x: Proc, y: Proc) {
    && y.parent == x.parent && y.pid == x.pid && y.kstack == x.kstack
    && (y.state == x.state || (Alive(x) && Alive(y)))
  }

  ghost predicate Quiet(s: Sys, s': Sys) {
    && Shaped(s) && Shaped(s') && |s'.procs| == |s.procs| && s'.init == s.init && s'.forking == s.forking
    && s'.nextpid == s.nextpid && s'.exits == s.exits && s'.reaps == s.reaps
    && forall q :: 0 <= q < |s.procs| ==> Alike(s.procs[q], s'.procs[q])
  }

  lemma QuietForks(s: Sys, s': Sys)
    requires Quiet(s, s') && ForksOk(s)
    ensures ForksOk(s')
  {
    forall p | 0 <= p < |s.procs| && s'.forking[p].Some?
      ensures s'.forking[p].value < |s.procs| && s'.procs[s'.forking[p].value].state == Embryo && Alive(s'.procs[p])
    {
      assert Alike(s.procs[p], s'.procs[p]) && Alike(s.procs[s.forking[p].value], s'.procs[s.forking[p].value]);
    }
  }

  lemma QuietParents(s: Sys, s': Sys)
    requires Quiet(s, s') && Parents(s)
    ensures Parents(s')
  {
    assert Alike(s.procs[s.init], s'.procs[s.init]);
    forall c | 0 <= c < |s.procs|
      ensures s'.procs[c].parent.Some? ==>
                s'.procs[c].parent.value < |s.procs| && Alive(s'.procs[s'.procs[c].parent.value])
    {
      assert Alike(s.procs[c], s'.procs[c]);
      if s.procs[c].parent.Some? {
        assert Alike(s.procs[s.procs[c].parent.value], s'.procs[s.procs[c].parent.value]);
      }
    }
    assert forall c :: 0 <= c < |s.procs| ==> Alike(s.procs[c], s'.procs[c]);
  }

  lemma QuietStacks(s: Sys, s': Sys)
    requires Quiet(s, s') && Stacks(s)
    ensures Stacks(s')
  {
    assert forall c :: 0 <= c < |s.procs| ==> Alike(s.procs[c], s'.procs[c]);
  }

  lemma QuietFresh(s: Sys, s': Sys)
    requires Quiet(s, s') && Fresh(s)
    ensures Fresh(s')
  {
    assert forall c :: 0 <= c < |s.procs| ==> Alike(s.procs[c], s'.procs[c]);
  }

  lemma QuietAccounted(s: Sys, s': Sys)
    requires Quiet(s, s') && Accounted(s)
    ensures Accounted(s')
  {
    forall e | e in s'.exits && e !in s'.reaps
      ensures IsZombie(s'.procs, e)
    {
      var p :| 0 <= p < |s.procs| && s.procs[p].state == Zombie && s.procs[p].pid == e;
      assert Alike(s.procs[p], s'.procs[p]);
    }
    assert forall c :: 0 <= c < |s.procs| ==> Alike(s.procs[c], s'.procs[c]);
  }

  /** Nobody falls asleep in wait who has a zombie child. */
  ghost predicate NoneWaits(s: Sys, s': Sys) {
    && |s'.procs| == |s.procs|
    && forall q :: 0 <= q < |s.procs| && Waiting(s'.procs[q], q) ==> Waiting(s.procs[q], q) || !HasZombie(s.procs, q)
  }

  lemma QuietMissed(s: Sys, s': Sys)
    requires Quiet(s, s') && NoneMissed(s)
    requires NoneWaits(s, s')
    ensures NoneMissed(s')
  {
    forall p, c | 0 <= p < |s.procs| && 0 <= c < |s.procs| && Waiting(s'.procs[p], p) && IsChild(s'.procs[c], p)
      ensures s'.procs[c].state != Zombie
    {
      assert Alike(s.procs[c], s'.procs[c]);
      assert IsChild(s.procs[c], p);
    }
  }

  lemma QuietInv(s: Sys, s': Sys)
    requires Inv(s) && Quiet(s, s') && Cpus(s')
    requires NoneWaits(s, s')
    ensures Inv(s')
  {
    QuietForks(s, s');
    QuietParents(s, s');
    QuietStacks(s, s');
    QuietFresh(s, s');
    QuietAccounted(s, s');
    QuietMissed(s, s');
  }

  lemma SchedCpus(s: Sys, s': Sys, step: Step)
    requires Cpus(s) && SchedStep(s, s', step)
    ensures Cpus(s')
  {
  }

  lemma SchedQuiet(s: Sys, s': Sys, step: Step)
    requires Shaped(s) && SchedStep(s, s', step)
    ensures Quiet(s, s') && NoneWaits(s, s')
  {
  }

  lemma SchedInv(s: Sys, s': Sys, step: Step)
    requires Inv(s) && SchedStep(s, s', step)
    ensures Inv(s')
  {
    SchedCpus(s, s', step);
    SchedQuiet(s, s', step);
    QuietInv(s, s');
  }

  lemma WakeupQuiet(s: Sys, s': Sys, chan: Chan)
    requires Cpus(s) && s.lock == Free && |s'.procs| == |s.procs| && s' == s.(procs := s'.procs)
    requires forall q :: 0 <= q < |s.procs| ==> s'.procs[q] == Woken(s.procs[q], chan)
    ensures Quiet(s, s') && NoneWaits(s, s') && Cpus(s')
  {
  }

  lemma KillQuiet(s: Sys, v: nat)
    requires Cpus(s) && s.lock == Free && v < |s.procs|
    ensures var s' := s.(procs := Killed(s.procs, v)); Quiet(s, s') && NoneWaits(s, s') && Cpus(s')
  {
  }

  /** wait that finds no zombie: p gives up, or goes to sleep with no zombie to miss. */
  lemma WaitQuiet(s: Sys, s': Sys, p: nat, havekids: bool)
    requires Cpus(s) && WaitStep(s, s', p, NoZombie(havekids))
    ensures Quiet(s, s') && NoneWaits(s, s') && Cpus(s')
  {
  }

  // ---------- fork ----------

  lemma ForkCpus(s: Sys, s': Sys, step: Step)
    requires Cpus(s) && ForksOk(s) && ForkStep(s, s', step)
    ensures Cpus(s')
  {
  }

  /** fork works on entry np alone, which is no one's parent. */
  ghost predicate Builds(s: Sys, s': Sys, np: nat) {
    && Shaped(s) && Shaped(s') && np < |s.procs| == |s'.procs| && s'.init == s.init
    && (s.procs[np].state == Unused || s.procs[np].state == Embryo) && s'.procs[np].state != Zombie
    && s'.procs == s.procs[np := s'.procs[np]] && s'.exits == s.exits && s'.reaps == s.reaps
  }

  lemma ForkBuilds(s: Sys, s': Sys, step: Step) returns (np: nat)
    requires Cpus(s) && ForksOk(s) && ForkStep(s, s', step)
    ensures Builds(s, s', np) && np == if step.Alloc? then step.np else s.forking[step.p].value
  {
    np := if step.Alloc? then step.np else s.forking[step.p].value;
  }

  lemma ForkForks(s: Sys, s': Sys, p: nat, np: nat)
    requires ForksOk(s) && Builds(s, s', np) && Runs(s, p) && s'.forking == s.forking[p := s'.forking[p]]
    requires s.forking[p] == (if s.procs[np].state == Unused then None else Some(np))
    requires s'.forking[p].None? || (s'.forking[p] == Some(np) && s'.procs[np].state == Embryo)
    ensures ForksOk(s')
  {
    forall q | 0 <= q < |s.procs| && s'.forking[q].Some?
      ensures s'.forking[q].value < |s.procs| && s'.procs[s'.forking[q].value].state == Embryo && Alive(s'.procs[q])
      ensures q != p ==> s'.forking[q].value != np
    {
    }
  }

  /** The new entry keeps to the rules about parents. */
  predicate GoodChild(s: Sys, s': Sys, np: nat)
    requires Shaped(s) && Shaped(s') && np < |s.procs| == |s'.procs|
  {
    var x := s'.procs[np];
    && (x.parent.Some? ==>
         x.parent.value < |s.procs| && Alive(s.procs[x.parent.value]) && s.forking[x.parent.value] == Some(np))
    && (x.state == Unused ==> x.parent.None?) && !IsChild(x, np)
    && (x.state == Embryo && x.parent.Some? ==> s'.forking[x.parent.value] == Some(np))
    && (Alive(x) ==> x.parent.Some?)
  }

  lemma ForkGoodChild(s: Sys, s': Sys, step: Step, np: nat)
    requires Cpus(s) && ForksOk(s) && Parents(s) && ForkStep(s, s', step)
    requires np == if step.Alloc? then step.np else s.forking[step.p].value
    ensures GoodChild(s, s', np)
    ensures forall q :: 0 <= q < |s.procs| && s.forking[q] != Some(np) && s.forking[q].Some? ==>
              s'.forking[q] == s.forking[q]
  {
  }

  lemma ForkParents(s: Sys, s': Sys, np: nat)
    requires Parents(s) && Builds(s, s', np) && GoodChild(s, s', np)
    requires forall q :: 0 <= q < |s.procs| && s.forking[q] != Some(np) && s.forking[q].Some? ==>
               s'.forking[q] == s.forking[q]
    ensures Parents(s')
  {
    forall c | 0 <= c < |s.procs| && s'.procs[c].parent.Some?
      ensures s'.procs[c].parent.value < |s.procs| && Alive(s'.procs[s'.procs[c].parent.value])
    {
    }
  }

  lemma ForkStacks(s: Sys, s': Sys, step: Step)
    requires Cpus(s) && ForksOk(s) && Parents(s) && Stacks(s) && ForkStep(s, s', step)
    ensures Stacks(s')
  {
  }

  lemma ForkMissed(s: Sys, s': Sys, np: nat)
    requires NoneMissed(s) && Builds(s, s', np) && (Alive(s'.procs[np]) ==> s'.procs[np].state == Runnable)
    ensures NoneMissed(s')
  {
  }

  lemma ForkFresh(s: Sys, s': Sys, step: Step)
    requires Cpus(s) && ForksOk(s) && Fresh(s) && ForkStep(s, s', step)
    ensures Fresh(s')
  {
  }

  lemma ForkRecorded(s: Sys, s': Sys, step: Step)
    requires Cpus(s) && ForksOk(s) && Recorded(s) && ForkStep(s, s', step)
    ensures Recorded(s')
  {
  }

  lemma ForkPid(s: Sys, s': Sys, step: Step, np: nat)
    requires Cpus(s) && ForksOk(s) && Recorded(s) && Accounted(s) && ForkStep(s, s', step)
    requires np == if step.Alloc? then step.np else s.forking[step.p].value
    ensures np < |s.procs| == |s'.procs| && s'.procs[np].pid !in s.exits && s'.procs[np].pid !in s.reaps
    ensures Alive(s'.procs[np]) ==> s'.procs[np].state == Runnable
  {
  }

  lemma ForkAccounted(s: Sys, s': Sys, np: nat)
    requires Accounted(s) && Builds(s, s', np) && s'.procs[np].pid !in s.exits && s'.procs[np].pid !in s.reaps
    ensures Accounted(s')
  {
    forall e | e in s'.exits && e !in s'.reaps
      ensures IsZombie(s'.procs, e)
    {
      var p :| 0 <= p < |s.procs| && s.procs[p].state == Zombie && s.procs[p].pid == e;
      assert s'.procs[p] == s.procs[p];
    }
  }

  lemma ForkInv(s: Sys, s': Sys, step: Step)
    requires Inv(s) && ForkStep(s, s', step)
    ensures Inv(s')
  {
    var np := ForkBuilds(s, s', step);
    ForkCpus(s, s', step);
    ForkForks(s, s', step.p, np);
    ForkGoodChild(s, s', step, np);
    ForkParents(s, s', np);
    ForkStacks(s, s', step);
    ForkPid(s, s', step, np);
    ForkMissed(s, s', np);
    ForkFresh(s, s', step);
    ForkRecorded(s, s', step);
    ForkAccounted(s, s', np);
  }

  // ---------- exit ----------

  /** What exit of p makes of entry q, as far as it matters below. */
  predicate ExitEntry(x: Proc, y: Proc, p: nat, init: nat, q: nat) {
    && y.pid == x.pid && y.kstack == x.kstack && y.chan == x.chan
    && y.parent == (if x.parent == Some(p) then Some(init) else x.parent)
    && if q == p then y.state == Zombie else y.state == x.state || (x.state == Sleeping && y.state == Runnable)
  }

  ghost predicate ExitStep(s: Sys, s': Sys, p: nat)
    requires Shaped(s)
  {
    && Shaped(s') && |s'.procs| == |s.procs| && Runs(s, p) && s.lock == Free && s.forking[p].None? && p != s.init
    && s' == s.(procs := s'.procs, lock := By(p), exits := s.exits + [s.procs[p].pid])
    && forall q :: 0 <= q < |s.procs| ==> ExitEntry(s.procs[q], s'.procs[q], p, s.init, q)
  }

  lemma ExitCpus(s: Sys, s': Sys, p: nat)
    requires Cpus(s) && ExitStep(s, s', p)
    ensures Cpus(s')
  {
    assert forall q :: 0 <= q < |s.procs| ==> ExitEntry(s.procs[q], s'.procs[q], p, s.init, q);
  }

  lemma ExitForks(s: Sys, s': Sys, p: nat)
    requires ForksOk(s) && ExitStep(s, s', p)
    ensures ForksOk(s')
  {
    forall q | 0 <= q < |s.procs| && s.forking[q].Some?
      ensures s'.procs[s.forking[q].value].state == Embryo && Alive(s'.procs[q])
    {
      assert ExitEntry(s.procs[q], s'.procs[q], p, s.init, q);
      assert ExitEntry(s.procs[s.forking[q].value], s'.procs[s.forking[q].value], p, s.init, s.forking[q].value);
    }
  }

  lemma ExitAlive(s: Sys, s': Sys, p: nat, c: nat)
    requires Parents(s) && ExitStep(s, s', p) && c < |s.procs| && s'.procs[c].parent.Some?
    ensures s'.procs[c].parent.value < |s.procs| && Alive(s'.procs[s'.procs[c].parent.value])
  {
    assert ExitEntry(s.procs[c], s'.procs[c], p, s.init, c);
    var q := s.procs[c].parent.value;
    assert ExitEntry(s.procs[q], s'.procs[q], p, s.init, q);
    assert ExitEntry(s.procs[s.init], s'.procs[s.init], p, s.init, s.init);
  }

  /** Children of p are init's now, so no one's parent has exited. */
  lemma ExitParents(s: Sys, s': Sys, p: nat)
    requires Parents(s) && ExitStep(s, s', p)
    ensures Parents(s')
  {
    assert ExitEntry(s.procs[s.init], s'.procs[s.init], p, s.init, s.init);
    forall c | 0 <= c < |s.procs| && s'.procs[c].parent.Some?
      ensures s'.procs[c].parent.value < |s.procs| && Alive(s'.procs[s'.procs[c].parent.value])
    {
      ExitAlive(s, s', p, c);
    }
    ExitHasParent(s, s', p);
  }

  lemma ExitHasParent(s: Sys, s': Sys, p: nat)
    requires HasParent(s) && ExitStep(s, s', p) && s.procs[s.init].parent.None?
    ensures HasParent(s')
  {
    assert forall c :: 0 <= c < |s.procs| ==> ExitEntry(s.procs[c], s'.procs[c], p, s.init, c);
  }

  lemma ExitStacks(s: Sys, s': Sys, p: nat)
    requires Stacks(s) && Parents(s) && ExitStep(s, s', p)
    ensures Stacks(s')
  {
    assert forall q :: 0 <= q < |s.procs| ==> ExitEntry(s.procs[q], s'.procs[q], p, s.init, q);
  }

  /** p's parent is woken before p is a zombie, and init before it gets one. */
  lemma ExitWakes(procs: seq<Proc>, procs': seq<Proc>, p: nat, init: nat, w: nat)
    requires ExitDone(procs, procs', p, init) && w < |procs|
    ensures IsChild(procs[p], w) ==> !Waiting(procs'[w], w)
    ensures w == init && HasZombie(procs, p) ==> !Waiting(procs'[w], w)
  {
  }

  lemma ExitMissed(s: Sys, s': Sys, p: nat)
    requires NoneMissed(s) && Parents(s) && ExitStep(s, s', p) && ExitDone(s.procs, s'.procs, p, s.init)
    ensures NoneMissed(s')
  {
    forall w, c | 0 <= w < |s.procs| && 0 <= c < |s.procs| && Waiting(s'.procs[w], w) && IsChild(s'.procs[c], w)
      ensures s'.procs[c].state != Zombie
    {
      assert ExitEntry(s.procs[w], s'.procs[w], p, s.init, w) && ExitEntry(s.procs[c], s'.procs[c], p, s.init, c);
      ExitWakes(s.procs, s'.procs, p, s.init, w);
      if IsChild(s.procs[c], p) {
        assert s.procs[c].state == Zombie ==> HasZombie(s.procs, p);
      }
    }
  }

  lemma ExitFresh(s: Sys, s': Sys, p: nat)
    requires Fresh(s) && ExitStep(s, s', p)
    ensures Fresh(s')
  {
    assert forall q :: 0 <= q < |s.procs| ==> ExitEntry(s.procs[q], s'.procs[q], p, s.init, q);
  }

  lemma ExitRecorded(s: Sys, s': Sys, p: nat)
    requires Fresh(s) && Recorded(s) && Accounted(s) && ExitStep(s, s', p)
    ensures Recorded(s')
  {
    assert s.procs[p].pid !in s.exits;
  }

  lemma ExitAccounted(s: Sys, s': Sys, p: nat)
    requires Fresh(s) && Accounted(s) && ExitStep(s, s', p)
    ensures Accounted(s')
  {
    forall q | 0 <= q < |s.procs| && s'.procs[q].state != Unused
      ensures s'.procs[q].pid !in s'.reaps && (s'.procs[q].pid in s'.exits <==> s'.procs[q].state == Zombie)
    {
      assert ExitEntry(s.procs[q], s'.procs[q], p, s.init, q);
      assert q != p ==> s.procs[q].pid != s.procs[p].pid;
    }
    forall e | e in s'.exits && e !in s'.reaps
      ensures IsZombie(s'.procs, e)
    {
      if e in s.exits {
        var q :| 0 <= q < |s.procs| && s.procs[q].state == Zombie && s.procs[q].pid == e;
        assert ExitEntry(s.procs[q], s'.procs[q], p, s.init, q);
      } else {
        assert ExitEntry(s.procs[p], s'.procs[p], p, s.init, p);
      }
    }
  }

  lemma ExitEntries(procs: seq<Proc>, procs': seq<Proc>, p: nat, init: nat, q: nat)
    requires ExitDone(procs, procs', p, init) && q < |procs| && procs[p].state == Running
    ensures ExitEntry(procs[q], procs'[q], p, init, q)
  {
  }

  lemma ExitInv(s: Sys, s': Sys, p: nat)
    requires Inv(s) && ExitStep(s, s', p) && ExitDone(s.procs, s'.procs, p, s.init)
    ensures Inv(s')
  {
    ExitCpus(s, s', p);
    ExitForks(s, s', p);
    ExitParents(s, s', p);
    ExitStacks(s, s', p);
    ExitMissed(s, s', p);
    ExitFresh(s, s', p);
    ExitRecorded(s, s', p);
    ExitAccounted(s, s', p);
  }

  // ---------- wait that finds a zombie ----------

  ghost predicate ReapStep(s: Sys, s': Sys, p: nat, c: nat)
    requires Shaped(s)
  {
    && Shaped(s') && Runs(s, p) && s.forking[p].None? && s.lock == (if s.inWait[p] then By(p) else Free)
    && c < |s.procs| && IsChild(s.procs[c], p) && s.procs[c].state == Zombie
    && s' == s.(procs := s.procs[c := Freed(s.procs[c])], lock := Free, inWait := s'.inWait,
       reaps := s.reaps + [s.procs[c].pid], answers := s'.answers)
  }

  lemma ReapCpus(s: Sys, s': Sys, p: nat, c: nat)
    requires Cpus(s) && ReapStep(s, s', p, c)
    ensures Cpus(s') && !s.onCpu[c]
  {
  }

  lemma ReapForks(s: Sys, s': Sys, p: nat, c: nat)
    requires ForksOk(s) && Stacks(s) && ReapStep(s, s', p, c)
    ensures ForksOk(s') && Stacks(s')
  {
  }

  lemma ReapParents(s: Sys, s': Sys, p: nat, c: nat)
    requires Parents(s) && ReapStep(s, s', p, c)
    ensures Parents(s')
  {
  }

  lemma ReapMissed(s: Sys, s': Sys, p: nat, c: nat)
    requires NoneMissed(s) && ReapStep(s, s', p, c)
    ensures NoneMissed(s')
  {
  }

  lemma ReapRecorded(s: Sys, s': Sys, p: nat, c: nat)
    requires Fresh(s) && Recorded(s) && Accounted(s) && ReapStep(s, s', p, c)
    ensures Fresh(s') && Recorded(s')
  {
    assert s.procs[c].pid !in s.reaps && s.procs[c].pid in s.exits;
  }

  lemma ReapAccounted(s: Sys, s': Sys, p: nat, c: nat)
    requires Fresh(s) && Accounted(s) && ReapStep(s, s', p, c)
    ensures Accounted(s')
  {
    forall q | 0 <= q < |s.procs| && s'.procs[q].state != Unused
      ensures s'.procs[q].pid !in s'.reaps
    {
      assert q != c && s.procs[q].pid != s.procs[c].pid;
    }
    forall e | e in s'.exits && e !in s'.reaps
      ensures IsZombie(s'.procs, e)
    {
      var q :| 0 <= q < |s.procs| && s.procs[q].state == Zombie && s.procs[q].pid == e;
      assert s'.procs[q] == s.procs[q];
    }
  }

  lemma ReapInv(s: Sys, s': Sys, p: nat, c: nat)
    requires Inv(s) && ReapStep(s, s', p, c)
    ensures Inv(s')
  {
    ReapCpus(s, s', p, c);
    ReapForks(s, s', p, c);
    ReapParents(s, s', p, c);
    ReapMissed(s, s', p, c);
    ReapRecorded(s, s', p, c);
    ReapAccounted(s, s', p, c);
  }

  // ---------- Every run ----------

  lemma ExitStepInv(s: Sys, s': Sys, p: nat)
    requires Inv(s) && Next(s, s', Exit(p))
    ensures Inv(s')
  {
    forall q | 0 <= q < |s.procs|
      ensures ExitEntry(s.procs[q], s'.procs[q], p, s.init, q)
    {
      ExitEntries(s.procs, s'.procs, p, s.init, q);
    }
    ExitInv(s, s', p);
  }

  lemma WaitStepInv(s: Sys, s': Sys, p: nat, r: WaitResult)
    requires Inv(s) && WaitStep(s, s', p, r)
    ensures Inv(s')
  {
    match r
    case Reaped(c) => ReapInv(s, s', p, c);
    case NoZombie(havekids) =>
      WaitQuiet(s, s', p, havekids);
      QuietInv(s, s');
  }

  lemma StepInv(s: Sys, s': Sys, step: Step)
    requires Inv(s) && Next(s, s', step)
    ensures Inv(s')
  {
    match step
    case Exit(p) => ExitStepInv(s, s', p);
    case Wait(p, r) => WaitStepInv(s, s', p, r);
    case Wakeup(chan) =>
      WakeupQuiet(s, s', chan);
      QuietInv(s, s');
    case Kill(v) =>
      KillQuiet(s, v);
      QuietInv(s, s');
    case Alloc(_, _) => ForkInv(s, s', step);
    case Stack(_) => ForkInv(s, s', step);
    case AllocFail(_) => ForkInv(s, s', step);
    case SetParent(_) => ForkInv(s, s', step);
    case ForkDone(_) => ForkInv(s, s', step);
    case _ => SchedInv(s, s', step);
  }

  lemma {:induction false} RunInv(init: Sys, steps: seq<Step>, s: Sys)
    requires Run(init, steps, s)
    ensures Inv(s)
    decreases |steps|
  {
    if steps != [] {
      var m :| Run(init, steps[..|steps| - 1], m) && Shaped(m) && Next(m, s, steps[|steps| - 1]);
      RunInv(init, steps[..|steps| - 1], m);
      StepInv(m, s, steps[|steps| - 1]);
    }
  }

  /** In every run, a process asleep in wait or waitx has no zombie child, so no exit goes unnoticed. */
  lemma WaiterHasNoZombie(init: Sys, steps: seq<Step>, s: Sys, p: nat, c: nat)
    requires Run(init, steps, s) && p < |s.procs| && c < |s.procs| && Waiting(s.procs[p], p) && IsChild(s.procs[c], p)
    ensures s.procs[c].state != Zombie
  {
    RunInv(init, steps, s);
  }

  /** In every run no process has an exited parent: the children that exit leaves behind are init's. And a
      zombie always has a live parent to reap it. */
  lemma NobodyOrphaned(init: Sys, steps: seq<Step>, s: Sys, c: nat)
    requires Run(init, steps, s) && c < |s.procs|
    ensures s.procs[c].parent.Some? ==> s.procs[c].parent.value < |s.procs| && Alive(s.procs[s.procs[c].parent.value])
    ensures s.procs[c].state == Zombie ==> s.procs[c].parent.Some?
  {
    RunInv(init, steps, s);
  }

  /** In every run no pid is reaped twice, only exited ones are, and an exited one that is not reaped yet
      is still a zombie. */
  lemma ReapedOnce(init: Sys, steps: seq<Step>, s: Sys)
    requires Run(init, steps, s)
    ensures Distinct(s.reaps) && Distinct(s.exits)
    ensures forall e :: e in s.reaps ==> e in s.exits && !IsZombie(s.procs, e)
    ensures forall e :: e in s.exits && e !in s.reaps ==> IsZombie(s.procs, e)
  {
    RunInv(init, steps, s);
  }

  lemma StackOnCpu(s: Sys, p: nat)
    requires Cpus(s) && Stacks(s) && p < |s.procs| && s.onCpu[p]
    ensures s.procs[p].kstack
  {
  }

  lemma ForkFreed(s: Sys, s': Sys, step: Step, p: nat)
    requires Cpus(s) && ForksOk(s) && ForkStep(s, s', step) && p < |s.procs|
    ensures |s'.procs| == |s.procs| && (s.procs[p].kstack && !s'.procs[p].kstack ==> !s.onCpu[p])
  {
  }

  lemma OtherFreed(s: Sys, s': Sys, step: Step, p: nat)
    requires Cpus(s) && Next(s, s', step) && p < |s.procs| && (step.Exit? || step.Wait? || step.Wakeup? || step.Kill?)
    ensures |s'.procs| == |s.procs| && (s.procs[p].kstack && !s'.procs[p].kstack ==> !s.onCpu[p])
  {
  }

  lemma FreedIdle(s: Sys, s': Sys, step: Step, p: nat)
    requires Cpus(s) && ForksOk(s) && Next(s, s', step) && p < |s.procs|
    ensures |s'.procs| == |s.procs| && (s.procs[p].kstack && !s'.procs[p].kstack ==> !s.onCpu[p])
  {
    if step.Exit? || step.Wait? || step.Wakeup? || step.Kill? {
      OtherFreed(s, s', step, p);
    } else if step.Alloc? || step.Stack? || step.AllocFail? || step.SetParent? || step.ForkDone? {
      ForkFreed(s, s', step, p);
    } else {
      SchedQuiet(s, s', step);
      assert Alike(s.procs[p], s'.procs[p]);
    }
  }

  /** In every run the process on a CPU has a kernel stack, and the step that frees a stack finds no CPU on it. */
  lemma StackFreedOffCpu(init: Sys, steps: seq<Step>, s: Sys, s': Sys, step: Step, p: nat)
    requires Run(init, steps, s) && Shaped(s) && Next(s, s', step) && p < |s.procs|
    ensures s.onCpu[p] ==> s.procs[p].kstack
    ensures |s'.procs| == |s.procs| && (s.procs[p].kstack && !s'.procs[p].kstack ==> !s.onCpu[p])
  {
    RunInv(init, steps, s);
    if s.onCpu[p] {
      StackOnCpu(s, p);
    }
    FreedIdle(s, s', step, p);
  }
}
