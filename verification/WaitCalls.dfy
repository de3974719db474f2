/** Why a process sleeps in wait, and what wait returns, in every run; and fork, exit, wait and kill as they are
    coded, taking the steps of these runs. */
module WaitCalls {
  import opened Common
  import opened ProcTable
  import opened WaitExit

  ghost predicate HasChild(procs: seq<Proc>, p: nat) {
    exists c :: 0 <= c < |procs| && IsChild(procs[c], p)
  }

  // ---------- Who sleeps in wait has a reason ----------

  /** Whoever is asleep in wait has a child, and has not been killed. */
  ghost predicate Reasons(s: Sys) {
    && Shaped(s)
    && forall p: nat :: p < |s.procs| && Waiting(s.procs[p], p) ==> HasChild(s.procs, p) && !s.procs[p].killed
  }

  /** Process p, asleep in wait afterwards, was so before and keeps its children and its mark, or has gone to
      sleep with a child and no mark. */
  ghost predicate KeepsReason(s: Sys, s': Sys, p: nat) {
    && |s'.procs| == |s.procs| && p < |s.procs|
    && (Waiting(s'.procs[p], p) ==>
          if Waiting(s.procs[p], p) then
            && s'.procs[p].killed == s.procs[p].killed
            && forall c :: 0 <= c < |s.procs| && IsChild(s.procs[c], p) ==> IsChild(s'.procs[c], p)
          else HasChild(s'.procs, p) && !s'.procs[p].killed)
  }

  lemma ForkReason(s: Sys, s': Sys, step: Step, p: nat)
    requires Cpus(s) && ForksOk(s) && Parents(s) && ForkStep(s, s', step) && p < |s.procs|
    ensures KeepsReason(s, s', p)
  {
    var np := ForkBuilds(s, s', step);
    if Waiting(s'.procs[p], p) {
      forall c | 0 <= c < |s.procs| && IsChild(s.procs[c], p)
        ensures IsChild(s'.procs[c], p)
      {
        assert c == np ==> s.forking[p] == Some(np);
      }
    }
  }

  lemma SchedReason(s: Sys, s': Sys, step: Step, p: nat)
    requires Shaped(s) && SchedStep(s, s', step) && p < |s.procs|
    ensures KeepsReason(s, s', p)
  {
    SchedQuiet(s, s', step);
    forall c | 0 <= c < |s.procs|
      ensures s'.procs[c].parent == s.procs[c].parent
    {
      assert Alike(s.procs[c], s'.procs[c]);
    }
  }

  lemma ExitReason(s: Sys, s': Sys, q: nat, p: nat)
    requires Shaped(s) && Next(s, s', Exit(q)) && p < |s.procs|
    ensures KeepsReason(s, s', p)
  {
    ExitEntries(s.procs, s'.procs, q, s.init, p);
    if Waiting(s'.procs[p], p) {
      forall c | 0 <= c < |s.procs| && IsChild(s.procs[c], p)
        ensures IsChild(s'.procs[c], p)
      {
        ExitEntries(s.procs, s'.procs, q, s.init, c);
      }
    }
  }

  lemma WaitReason(s: Sys, s': Sys, q: nat, r: WaitResult, p: nat)
    requires Shaped(s) && WaitStep(s, s', q, r) && p < |s.procs|
    ensures KeepsReason(s, s', p)
  {
    match r
    case Reaped(_) =>
    case NoZombie(havekids) =>
      if havekids {
        var c :| 0 <= c < |s.procs| && IsChild(s.procs[c], q);
        assert IsChild(s'.procs[c], q);
      }
  }

  lemma StepKeepsReason(s: Sys, s': Sys, step: Step, p: nat)
    requires Cpus(s) && ForksOk(s) && Parents(s) && Next(s, s', step) && p < |s.procs|
    ensures KeepsReason(s, s', p)
  {
    match step
    case Exit(q) => ExitReason(s, s', q, p);
    case Wait(q, r) => WaitReason(s, s', q, r, p);
    case Wakeup(_) =>
    case Kill(_) =>
    case Alloc(_, _) => ForkReason(s, s', step, p);
    case Stack(_) => ForkReason(s, s', step, p);
    case AllocFail(_) => ForkReason(s, s', step, p);
    case SetParent(_) => ForkReason(s, s', step, p);
    case ForkDone(_) => ForkReason(s, s', step, p);
    case _ => SchedReason(s, s', step, p);
  }

  lemma KeptReason(s: Sys, s': Sys, p: nat)
    requires KeepsReason(s, s', p) && Reasons(s) && Waiting(s'.procs[p], p)
    ensures HasChild(s'.procs, p) && !s'.procs[p].killed
  {
    if Waiting(s.procs[p], p) {
      var c :| 0 <= c < |s.procs| && IsChild(s.procs[c], p);
      assert IsChild(s'.procs[c], p);
    }
  }

  lemma StepReasons(s: Sys, s': Sys, step: Step)
    requires Cpus(s) && ForksOk(s) && Parents(s) && Shaped(s') && Reasons(s) && Next(s, s', step)
    ensures Reasons(s')
  {
    forall p: nat | p < |s'.procs| && Waiting(s'.procs[p], p)
      ensures HasChild(s'.procs, p) && !s'.procs[p].killed
    {
      StepKeepsReason(s, s', step, p);
      KeptReason(s, s', p);
    }
  }

  lemma {:induction false} RunReasons(init: Sys, steps: seq<Step>, s: Sys)
    requires Run(init, steps, s)
    ensures Reasons(s)
    decreases |steps|
  {
    if steps != [] {
      var m :| Run(init, steps[..|steps| - 1], m) && Shaped(m) && Next(m, s, steps[|steps| - 1]);
      RunReasons(init, steps[..|steps| - 1], m);
      RunInv(init, steps[..|steps| - 1], m);
      RunInv(init, steps, s);
      StepReasons(m, s, steps[|steps| - 1]);
    }
  }

  /** In every run whoever is asleep in wait or waitx has a child, none of its children is a zombie, and it
      has not been killed. */
  lemma SleeperHasReason(init: Sys, steps: seq<Step>, s: Sys, p: nat)
    requires Run(init, steps, s) && p < |s.procs| && Waiting(s.procs[p], p)
    ensures HasChild(s.procs, p) && !HasZombie(s.procs, p) && !s.procs[p].killed
  {
    RunReasons(init, steps, s);
    RunInv(init, steps, s);
  }

  /** A process sleeps on a channel it has named to sleep, or in wait. */
  ghost predicate ChansOk(s: Sys) {
    && Shaped(s)
    && forall p: nat :: p < |s.procs| && s.procs[p].state == Sleeping ==>
         s.procs[p].chan.OtherChan? || s.procs[p].chan == OfProc(p)
  }

  lemma StepChans(s: Sys, s': Sys, step: Step, p: nat)
    requires Cpus(s) && ForksOk(s) && ChansOk(s) && Next(s, s', step) && Shaped(s') && p < |s'.procs|
    requires s'.procs[p].state == Sleeping
    ensures s'.procs[p].chan.OtherChan? || s'.procs[p].chan == OfProc(p)
  {
    match step
    case Exit(q) => ExitEntries(s.procs, s'.procs, q, s.init, p);
    case _ =>
  }

  /** In every run a process that sleeps has gone to sleep itself, on a channel of its own choice or in wait: no
      other way of giving up the CPU, yield among them, leaves it asleep. */
  lemma {:induction false} SleepsOnChannel(init: Sys, steps: seq<Step>, s: Sys)
    requires Run(init, steps, s)
    ensures ChansOk(s)
    decreases |steps|
  {
    RunInv(init, steps, s);
    if steps != [] {
      var m :| Run(init, steps[..|steps| - 1], m) && Shaped(m) && Next(m, s, steps[|steps| - 1]);
      SleepsOnChannel(init, steps[..|steps| - 1], m);
      RunInv(init, steps[..|steps| - 1], m);
      forall p: nat | p < |s.procs| && s.procs[p].state == Sleeping
        ensures s.procs[p].chan.OtherChan? || s.procs[p].chan == OfProc(p)
      {
        StepChans(m, s, steps[|steps| - 1], p);
      }
    }
  }

  // ---------- What wait returns ----------

  /** Child c of p, a zombie, has been reaped: its entry is free, and no other entry is different. */
  ghost predicate Reaps(procs: seq<Proc>, procs': seq<Proc>, p: nat, c: nat) {
    && c < |procs| == |procs'| && IsChild(procs[c], p) && procs[c].state == Zombie
    && procs'[c].state == Unused && procs'[c].parent.None? && procs'[c].pid == 0 && !procs'[c].kstack
    && !procs'[c].killed
    && forall q :: 0 <= q < |procs| && q != c ==> procs'[q] == procs[q]
  }

  /** In every run a pass of wait returns the pid of a zombie child, and frees that child's entry, exactly if
      there is a zombie child; it returns -1 exactly if there is none, and no child at all or a kill of its
      process; and else it goes to sleep. */
  lemma WaitAnswers(init: Sys, steps: seq<Step>, s: Sys, s': Sys, p: nat, r: WaitResult)
    requires Run(init, steps, s) && Shaped(s) && Next(s, s', Wait(p, r))
    ensures HasZombie(s.procs, p) ==>
              exists c: nat ::
                  && c < |s.procs| && Reaps(s.procs, s'.procs, p, c)
                  && s'.answers == s.answers + [Answer(p, s.procs[c].pid)]
    ensures !HasZombie(s.procs, p) && (!HasChild(s.procs, p) || s.procs[p].killed) ==>
              s'.procs == s.procs && s'.answers == s.answers + [Answer(p, -1)]
    ensures !HasZombie(s.procs, p) && HasChild(s.procs, p) && !s.procs[p].killed ==>
              && s'.answers == s.answers && p < |s'.procs| && Waiting(s'.procs[p], p)
              && forall q :: 0 <= q < |s.procs| && q != p ==> s'.procs[q] == s.procs[q]
  {
    match r
    case Reaped(c) => assert Reaps(s.procs, s'.procs, p, c);
    case NoZombie(_) =>
  }

  // ---------- What exit does to the others ----------

  /** exit of p: the children of p are init's; the parent of p, and init if it gets a zombie, are woken if they
      wait for a child, and nobody else is; nothing else is different but that p is a zombie. */
  lemma ExitEffect(s: Sys, s': Sys, p: nat, q: nat)
    requires Shaped(s) && Next(s, s', Exit(p)) && q < |s.procs|
    ensures |s'.procs| == |s.procs| && s'.procs[p].state == Zombie
    ensures s'.procs[q].parent == if IsChild(s.procs[q], p) then Some(s.init) else s.procs[q].parent
    ensures q != p ==>
              var wakes := s.procs[q].state == Sleeping
                           && (s.procs[q].chan == ParentChan(s.procs[p])
                               || (s.procs[q].chan == OfProc(s.init) && HasZombie(s.procs, p)));
              s'.procs[q].state == if wakes then Runnable else s.procs[q].state
    ensures s'.procs[q] == s.procs[q].(parent := s'.procs[q].parent, state := s'.procs[q].state)
  {
  }

  // ---------- The calls ----------

  lemma RunMore(init: Sys, steps: seq<Step>, s: Sys, step: Step, s': Sys)
    requires Run(init, steps, s) && Shaped(s) && Next(s, s', step)
    ensures Run(init, steps + [step], s')
  {
    assert (steps + [step])[..|steps + [step]| - 1] == steps;
  }

  /** The process table with its lock, the CPUs, and the calls that are under way. */
  class Calls {
    const table: Table
    const initproc: nat
    var nextpid: nat
    ghost var lock: Holder
    ghost var onCpu: seq<bool>
    ghost var forking: seq<Option<nat>>
    ghost var inWait: seq<bool>
    ghost var exits: seq<nat>
    ghost var reaps: seq<nat>
    ghost var answers: seq<Answer>
    ghost var first: Sys
    ghost var steps: seq<Step>

    ghost function S(): Sys
      reads this, table
    {
      Sys(table.procs, lock, onCpu, forking, inWait, initproc, nextpid, exits, reaps, answers)
    }

    ghost predicate Valid()
      reads this, table
    {
      Shaped(S()) && Run(first, steps, S())
    }

    /** The step has been taken, and is on record. */
    ghost predicate Took(step: Step, s: Sys, before: seq<Step>)
      reads this, table
    {
      Shaped(s) && Next(s, S(), step) && steps == before + [step]
    }

    /** After userinit, in a table of n entries. */
    constructor (n: nat, p: nat)
      requires p < n
      ensures Valid() && initproc == p && |table.procs| == n && steps == []
    {
      var unused := Proc(Unused, None, NoChan, false, 0, false);
      var t := new Table(seq(n, i => if i == p then Proc(Runnable, None, NoChan, false, 1, true) else unused));
      table, initproc, nextpid := t, p, 2;
      lock, onCpu, forking, inWait := Free, seq(n, _ => false), seq(n, _ => None), seq(n, _ => false);
      exits, reaps, answers, steps := [], [], [], [];
      new;
      first := S();
    }

    /** Takes a step of the machine for what has been done to the table. */
    ghost method Record(step: Step, s: Sys)
      requires Shaped(s) && Run(first, steps, s) && Next(s, S(), step) && Shaped(S())
      modifies `steps
      ensures Valid() && Took(step, s, old(steps))
    {
      RunMore(first, steps, s, step, S());
      steps := steps + [step];
    }

    /** exit, with the lock taken, up to sched. The init process may not. */
    method Exit(p: nat) returns (panicked: bool)
      requires Valid() && Runs(S(), p) && lock == Free && forking[p].None? && !inWait[p]
      modifies this, table
      ensures Valid() && (panicked <==> p == initproc)
      ensures panicked ==> S() == old(S()) && steps == old(steps)
      ensures !panicked ==> Took(Step.Exit(p), old(S()), old(steps))
    {
      if p == initproc {
        return true;
      }
      ghost var s := S();
      table.Exit(p, initproc);
      lock, exits := By(p), exits + [s.procs[p].pid];
      Record(Step.Exit(p), s);
      panicked := false;
    }

    /** One pass of wait or waitx, from its start or its return from sleep: what it returns, or None if it
        goes to sleep. */
    method Wait(p: nat) returns (r: Option<int>)
      requires Valid() && Runs(S(), p) && forking[p].None? && lock == (if inWait[p] then By(p) else Free)
      modifies this, table
      ensures Valid() && exists w :: Took(Step.Wait(p, w), old(S()), old(steps))
      ensures answers == if r.Some? then old(answers) + [Answer(p, r.value)] else old(answers)
    {
      ghost var s := S();
      var w, pid := table.Scan(p);
      if w.Reaped? {
        lock, inWait, reaps, answers := Free, inWait[p := false], reaps + [pid], answers + [Answer(p, pid)];
        r := Some(pid);
      } else if !w.havekids || table.procs[p].killed {
        lock, inWait, answers := Free, inWait[p := false], answers + [Answer(p, -1)];
        r := Some(-1);
      } else {
        Set(p, table.procs[p].(state := Sleeping, chan := OfProc(p)));
        lock, inWait := By(p), inWait[p := true];
        r := None;
      }
      Record(Step.Wait(p, w), s);
    }

    /** kill: 0 for the first entry with the pid, -1 if there is none. */
    method Kill(pid: nat) returns (r: int)
      requires Valid() && lock == Free
      modifies this, table
      ensures Valid() && (r == 0 || r == -1)
      ensures r == -1 ==> S() == old(S()) && forall q :: 0 <= q < |table.procs| ==> table.procs[q].pid != pid
      ensures r == 0 ==> exists v :: FirstWith(old(table.procs), v, pid) && Took(Step.Kill(v), old(S()), old(steps))
    {
      ghost var s := S();
      ghost var v;
      r, v := table.Kill(pid);
      if r == 0 {
        Record(Step.Kill(v), s);
      }
    }

    method Wakeup(chan: Chan)
      requires Valid() && lock == Free
      modifies this, table
      ensures Valid() && Took(Step.Wakeup(chan), old(S()), old(steps))
    {
      ghost var s := S();
      table.Wakeup1(chan);
      Record(Step.Wakeup(chan), s);
    }

    /** allocproc, called by fork, as far as the lock is held. */
    method Alloc(p: nat) returns (np: Option<nat>)
      requires Valid() && Runs(S(), p) && lock == Free && forking[p].None?
      modifies this, table
      ensures Valid()
      ensures np.None? ==> S() == old(S()) && forall q :: 0 <= q < |table.procs| ==> table.procs[q].state != Unused
      ensures np.Some? ==> Took(Step.Alloc(p, np.value), old(S()), old(steps))
    {
      ghost var s := S();
      np := table.Alloc(nextpid);
      if np.Some? {
        nextpid := nextpid + 1;
        forking := forking[p := np];
        Record(Step.Alloc(p, np.value), s);
      }
    }

    /** Entry q of the table becomes x. */
    method Set(q: nat, x: Proc)
      requires q < |table.procs|
      modifies table
      ensures table.procs == old(table.procs)[q := x]
    {
      table.procs := table.procs[q := x];
    }

    /** kalloc has a kernel stack for the new process. */
    method Stack(p: nat, np: nat)
      requires Valid() && Forks(S(), p) && forking[p] == Some(np)
      modifies `steps, table
      ensures Valid() && Took(Step.Stack(p), old(S()), old(steps))
    {
      ghost var s := S();
      Set(np, table.procs[np].(kstack := true));
      Record(Step.Stack(p), s);
    }

    /** kalloc has none, or copyuvm fails: the entry is given back. */
    method AllocFail(p: nat, np: nat)
      requires Valid() && Forks(S(), p) && forking[p] == Some(np) && table.procs[np].parent.None?
      modifies this, table
      ensures Valid() && Took(Step.AllocFail(p), old(S()), old(steps))
    {
      ghost var s := S();
      Set(np, table.procs[np].(state := Unused, kstack := false));
      forking := forking[p := None];
      Record(Step.AllocFail(p), s);
    }

    method SetParent(p: nat, np: nat)
      requires Valid() && Forks(S(), p) && forking[p] == Some(np) && table.procs[np].kstack
      modifies `steps, table
      ensures Valid() && Took(Step.SetParent(p), old(S()), old(steps))
    {
      ghost var s := S();
      Set(np, table.procs[np].(parent := Some(p)));
      Record(Step.SetParent(p), s);
    }

    /** The end of fork: the child is runnable, and fork returns its pid. */
    method ForkDone(p: nat, np: nat) returns (pid: nat)
      requires Valid() && Forks(S(), p) && forking[p] == Some(np) && lock == Free && table.procs[np].parent == Some(p)
      modifies this, table
      ensures Valid() && Took(Step.ForkDone(p), old(S()), old(steps))
      ensures pid == table.procs[np].pid && table.procs[np].state == Runnable && IsChild(table.procs[np], p)
    {
      ghost var s := S();
      pid := table.procs[np].pid;
      Set(np, table.procs[np].(state := Runnable));
      forking := forking[p := None];
      Record(Step.ForkDone(p), s);
    }

    /** sleep on a channel other than a process's, and yield, up to sched. */
    method Sleep(p: nat, n: nat)
      requires Valid() && Runs(S(), p) && lock == Free
      modifies this, table
      ensures Valid() && Took(Step.Sleep(p, n), old(S()), old(steps))
    {
      ghost var s := S();
      Set(p, table.procs[p].(state := Sleeping, chan := OtherChan(n)));
      lock := By(p);
      Record(Step.Sleep(p, n), s);
    }

    method Yield(p: nat)
      requires Valid() && Runs(S(), p) && lock == Free
      modifies this, table
      ensures Valid() && Took(Step.Yield(p), old(S()), old(steps))
    {
      ghost var s := S();
      Set(p, table.procs[p].(state := Runnable));
      lock := By(p);
      Record(Step.Yield(p), s);
    }

    /** sched, which panics for a process that has not changed its state. */
    method Sched(p: nat) returns (panicked: bool)
      requires Valid() && p < |table.procs| && lock == By(p) && onCpu[p]
      modifies this
      ensures Valid() && (panicked <==> table.procs[p].state == Running)
      ensures panicked ==> S() == old(S()) && steps == old(steps)
      ensures !panicked ==> Took(Step.Switch(p), old(S()), old(steps))
    {
      if table.procs[p].state == Running {
        return true;
      }
      ghost var s := S();
      lock, onCpu := Scheduler, onCpu[p := false];
      Record(Step.Switch(p), s);
      panicked := false;
    }

    /** The scheduler takes the lock, runs a process or lets go of it again. */
    method SchedAcquire()
      requires Valid() && lock == Free
      modifies this
      ensures Valid() && Took(Step.SchedAcquire, old(S()), old(steps))
    {
      ghost var s := S();
      lock := Scheduler;
      Record(Step.SchedAcquire, s);
    }

    method SchedRelease()
      requires Valid() && lock == Scheduler
      modifies this
      ensures Valid() && Took(Step.SchedRelease, old(S()), old(steps))
    {
      ghost var s := S();
      lock := Free;
      Record(Step.SchedRelease, s);
    }

    method Dispatch(p: nat)
      requires Valid() && p < |table.procs| && lock == Scheduler && table.procs[p].state == Runnable
      modifies this, table
      ensures Valid() && Took(Step.Dispatch(p), old(S()), old(steps))
    {
      ghost var s := S();
      Set(p, table.procs[p].(state := Running, chan := NoChan));
      lock, onCpu := By(p), onCpu[p := true];
      Record(Step.Dispatch(p), s);
    }

    method Release(p: nat)
      requires Valid() && Runs(S(), p) && lock == By(p) && !inWait[p]
      modifies this
      ensures Valid() && Took(Step.Release(p), old(S()), old(steps))
    {
      ghost var s := S();
      lock := Free;
      Record(Step.Release(p), s);
    }
  }
}
