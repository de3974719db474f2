/** The calls of log.c and bio.c, as coded, take steps of the log machine, so crash safety holds of every disk
    the code leaves behind. */
module LogCalls {
  import opened Common
  import opened Params
  import opened Blocks
  import opened LogFormat
  import opened CacheMachine
  import opened Bio
  import opened LogRedo
  import opened LogCommit
  import opened LogCode
  import opened LogPasses
  import opened LogView
  import LogSafety
  import M = LogMachine

  /** The machine has come from the first boot, on disk `first`, to st, and has had all these disks. */
  ghost predicate Reached(g: Geometry, first: Disk, steps: seq<M.Step>, st: M.State, disks: seq<Disk>) {
    && GoodGeometry(g, |first|) && GoodHeader(g, |first|, HeaderOf(first[g.start]))
    && Passes(g, M.Boot(g, first), steps, st, disks)
  }

  lemma ReachedMore(g: Geometry, first: Disk, steps: seq<M.Step>, st: M.State, disks: seq<Disk>, more: seq<M.Step>,
                    st': M.State, next: seq<Disk>)
    requires Reached(g, first, steps, st, disks) && Passes(g, st, more, st', next)
    ensures Reached(g, first, steps + more, st', disks + next)
  {
    PassesConcat(g, M.Boot(g, first), steps, st, disks, more, st', next);
  }

  lemma ReachedStep(g: Geometry, first: Disk, steps: seq<M.Step>, st: M.State, disks: seq<Disk>, step: M.Step,
                    st': M.State)
    requires Reached(g, first, steps, st, disks) && M.Next(g, st, step) == M.Ok(st')
    ensures Reached(g, first, steps + [step], st', disks)
  {
    PassesOne(g, st, step, st');
    ReachedMore(g, first, steps, st, disks, [step], st', []);
    assert disks + [] == disks;
  }

  lemma ReachedInv(g: Geometry, first: Disk, steps: seq<M.Step>, st: M.State, disks: seq<Disk>)
    requires Reached(g, first, steps, st, disks)
    ensures LogSafety.Inv(g, st) && LogSafety.WholeOps(st) && |st.disk| == |first| && st.init == Recover(g, first)
  {
    LogSafety.BootInv(g, first);
    LogSafety.RunInv(g, M.Boot(g, first), steps);
    LogSafety.RunFrame(g, M.Boot(g, first), steps);
  }

  /** Disk x recovers to the effect of whole committed transactions, those of some point of the run. */
  ghost predicate RecoversWhole(g: Geometry, first: Disk, steps: seq<M.Step>, x: Disk)
    requires GoodGeometry(g, |first|) && GoodHeader(g, |first|, HeaderOf(first[g.start]))
  {
    && |x| == |first| && GoodHeader(g, |x|, HeaderOf(x[g.start]))
    && exists n: nat :: n <= |steps| && WholeAt(g, first, steps[..n], x)
  }

  ghost predicate WholeAt(g: Geometry, first: Disk, before: seq<M.Step>, x: Disk)
    requires GoodGeometry(g, |first|) && GoodHeader(g, |first|, HeaderOf(first[g.start]))
    requires |x| == |first| && GoodHeader(g, |x|, HeaderOf(x[g.start]))
  {
    var o := M.Run(g, M.Boot(g, first), before);
    && o.Ok? && LogSafety.WholeOps(o.s) && o.s.disk == x
    && forall b: nat :: Home(g, |x|, b) ==>
         Recover(g, x)[b] == LogSafety.Effect(Recover(g, first), LogSafety.Flatten(o.s.done), b)
  }

  lemma VisitedRecovers(g: Geometry, first: Disk, steps: seq<M.Step>, x: Disk)
    requires GoodGeometry(g, |first|) && GoodHeader(g, |first|, HeaderOf(first[g.start]))
    requires Visits(g, M.Boot(g, first), steps, x)
    ensures RecoversWhole(g, first, steps, x)
  {
    var init := M.Boot(g, first);
    var n: nat :| n <= |steps| && M.Run(g, init, steps[..n]).Ok? && M.Run(g, init, steps[..n]).s.disk == x;
    LogSafety.CrashSafety(g, first, steps[..n]);
    assert WholeAt(g, first, steps[..n], x);
  }

  /** The kernel's side of the log: struct log over its cache, with the run of the machine it has taken. */
  class Calls {
    const log: LogDevice
    ghost const first: Disk
    ghost var steps: seq<M.Step>
    ghost var state: M.State
    ghost var who: map<nat, nat>

    ghost predicate Valid()
      reads this, log, log.bc
    {
      && log.Running() && !log.committing
      && Reached(log.g, first, steps, state, log.bc.history)
      && Matches(log.bc.Abs(), log.lh, log.outstanding, who, state)
    }

    /** Crash safety of the code. Every disk a call has ever left behind, the ones in the middle of a commit or
        of a recovery included, recovers to whole committed operations; the present one to those that have
        committed by now. */
    lemma EveryDiskRecovers()
      requires Valid()
      ensures forall i :: 0 <= i < |log.bc.history| ==> RecoversWhole(log.g, first, steps, log.bc.history[i])
      ensures |first| == |log.bc.disk| && WholeAt(log.g, first, steps, log.bc.disk)
    {
      ReachedInv(log.g, first, steps, state, log.bc.history);
      forall i | 0 <= i < |log.bc.history|
        ensures RecoversWhole(log.g, first, steps, log.bc.history[i])
      {
        VisitedRecovers(log.g, first, steps, log.bc.history[i]);
      }
      LogSafety.CrashSafety(log.g, first, steps);
    }

    /** initlog, on a machine that boots for the first time or again: then `before` is the run whose crash left
        this disk. */
    constructor (bc: BCache, g: Geometry, ghost first: Disk, ghost before: seq<M.Step>)
      requires bc.Valid() && Idle(bc.Abs(), []) && bc.history == [bc.disk] && g.size <= |bc.buf| && 1 < |bc.buf|
      requires GoodGeometry(g, |first|) && GoodHeader(g, |first|, HeaderOf(first[g.start]))
      requires M.Run(g, M.Boot(g, first), before).Ok? && M.Run(g, M.Boot(g, first), before).s.disk == bc.disk
      requires GetWord(bc.disk[g.start], 0) <= LOGSIZE || GetWord(bc.disk[g.start], 0) >= 0x8000_0000
      modifies bc
      ensures Valid() && log.bc == bc && log.g == g && this.first == first && fresh(log)
      ensures before <= steps && state.done == M.Run(g, M.Boot(g, first), before).s.done
      ensures GoodHeader(g, |first|, HeaderOf(old(bc.disk)[g.start])) && bc.disk == Recover(g, old(bc.disk))
      ensures log.lh == [] && log.outstanding == 0 && bc.handles == map[]
    {
      this.first := first;
      log := new LogDevice(bc, g);
      steps, state, who := before, M.Run(g, M.Boot(g, first), before).s, map[];
      new;
      ghost var d, st := bc.disk, state;
      BootReached(g, first, before, st, d);
      ReachedInv(g, first, before, st, [d]);
      log.RecoverFromLog();
      RecoveryPasses(g, st);
      steps := before + ([M.Crash, M.ReadHead] + ApplySteps(g, HeaderOf(d[g.start])));
      state := st.(disk := Recover(g, d), cache := map[], lh := [], outstanding := 0, phase := M.Running, ops := map[],
                   cur := []);
      ReachedMore(g, first, before, st, [d], [M.Crash, M.ReadHead] + ApplySteps(g, HeaderOf(d[g.start])), state,
                  ApplyTrace(g, d, HeaderOf(d[g.start])));
      EmptyCaches(bc.Abs(), map[]);
    }

    static lemma BootReached(g: Geometry, first: Disk, before: seq<M.Step>, st: M.State, d: Disk)
      requires GoodGeometry(g, |first|) && GoodHeader(g, |first|, HeaderOf(first[g.start]))
      requires M.Run(g, M.Boot(g, first), before) == M.Ok(st) && st.disk == d
      ensures Reached(g, first, before, st, [d])
    {
      assert before[..|before|] == before;
    }

    /** One pass through the loop of begin_op: the step Begin, or the caller sleeps. */
    method BeginOp() returns (admitted: bool, ghost op: nat)
      requires Valid()
      modifies this, log`outstanding
      ensures Valid() && op == old(state.nextOp) && who == old(who)
      ensures admitted ==> steps == old(steps) + [M.Begin(op)] && op in state.ops
      ensures !admitted ==> steps == old(steps) && M.Next(log.g, old(state), M.Begin(op)) == M.Stuck
    {
      op := state.nextOp;
      ghost var st := state;
      admitted := log.TryBeginOp();
      if admitted {
        state := M.Next(log.g, st, M.Begin(op)).s;
        ReachedStep(log.g, first, steps, st, log.bc.history, M.Begin(op), state);
        steps := steps + [M.Begin(op)];
      }
    }

    /** bread by client h of process p: the step Read. A home block comes with the contents last logged for it. */
    method Bread(h: nat, p: nat, b: nat) returns (r: Option<nat>)
      requires Valid() && h !in log.bc.handles && b < |log.bc.disk| && Unheld(log.bc.Abs(), b)
      modifies this, log.bc
      ensures Valid() && log.bc.disk == old(log.bc.disk) && log.bc.history == old(log.bc.history)
      ensures r.None? ==> steps == old(steps) && who == old(who) && log.bc.Abs() == old(log.bc.Abs())
      ensures r.Some? ==>
                && steps == old(steps) + [M.Read(p, b)] && who == old(who)[h := p]
                && ReadBlock(old(log.bc.Abs()), log.bc.Abs(), h, b, r.value)
      ensures r.Some? && Home(log.g, |log.bc.disk|, b) ==>
                && |first| == |log.bc.disk|
                && log.bc.buf[r.value].data == LogSafety.Effect(Recover(log.g, first), LogSafety.All(state), b)
    {
      ghost var s, st := log.bc.Abs(), state;
      r := log.ReadBuffer(h, b);
      if r.Some? {
        ghost var s' := log.bc.Abs();
        ReadMatches(log.g, s, s', log.lh, log.outstanding, who, st, h, p, b, r.value);
        Step(M.Read(p, b), who[h := p]);
        ReachedInv(log.g, first, steps, state, log.bc.history);
        if Home(log.g, |log.bc.disk|, b) {
          InvUses(s');
          ReadGives(log.g, s', who, state, h, b, r.value);
        }
      }
    }

    /** The machine takes the steps that the code has taken, through the disks it has left since `hist`. */
    ghost method Steps(more: seq<M.Step>, st': M.State, who': map<nat, nat>, hist: seq<Disk>, next: seq<Disk>)
      requires log.Running() && !log.committing && Reached(log.g, first, steps, state, hist)
      requires Passes(log.g, state, more, st', next) && log.bc.history == hist + next
      requires Matches(log.bc.Abs(), log.lh, log.outstanding, who', st')
      modifies this
      ensures Valid() && steps == old(steps) + more && who == who' && state == st'
    {
      ReachedMore(log.g, first, steps, state, hist, more, st', next);
      steps, state, who := steps + more, st', who';
    }

    /** The machine takes the step that the code has taken. */
    ghost method Step(step: M.Step, who': map<nat, nat>)
      requires log.Running() && !log.committing && Reached(log.g, first, steps, state, log.bc.history)
      requires var o := M.Next(log.g, state, step);
               o.Ok? && Matches(log.bc.Abs(), log.lh, log.outstanding, who', o.s)
      modifies this
      ensures Valid() && steps == old(steps) + [step] && who == who' && M.Next(log.g, old(state), step) == M.Ok(state)
    {
      ghost var st := state;
      state := M.Next(log.g, st, step).s;
      ReachedStep(log.g, first, steps, st, log.bc.history, step, state);
      steps, who := steps + [step], who';
    }

    /** The holder changes the data, inside an operation: the step Modify. */
    method Change(h: nat, i: nat, data: Block)
      requires Valid() && h in log.bc.handles && log.bc.handles[h].slot == i && who[h] in state.ops
      requires Home(log.g, |log.bc.disk|, log.bc.buf[i].blockno)
      modifies this, log.bc
      ensures Valid() && log.bc.disk == old(log.bc.disk) && log.bc.history == old(log.bc.history) && who == old(who)
      ensures steps == old(steps) + [M.Modify(who[h], old(log.bc.buf[i].blockno), data)]
    {
      ghost var s, b := log.bc.Abs(), log.bc.buf[i].blockno;
      log.ChangeBuffer(h, i, data);
      InvUses(s);
      ChangeMatches(log.g, s, log.bc.Abs(), log.lh, log.outstanding, who, state, h, b, i, data);
      Step(M.Modify(who[h], b, data), who);
    }

    /** log_write inside an operation: the step LogWrite, which panics when the code does. */
    method LogWrite(h: nat, i: nat) returns (panicked: bool)
      requires Valid() && h in log.bc.handles && log.bc.handles[h].slot == i && who[h] in state.ops
      requires Home(log.g, |log.bc.disk|, log.bc.buf[i].blockno)
      modifies this, log`lh, log.bc
      ensures Valid() && log.bc.disk == old(log.bc.disk) && log.bc.history == old(log.bc.history) && who == old(who)
      ensures panicked <==> M.Next(log.g, old(state), M.LogWrite(who[h], old(log.bc.buf[i].blockno))) == M.Panicked
      ensures steps == if panicked then old(steps) else old(steps) + [M.LogWrite(who[h], old(log.bc.buf[i].blockno))]
    {
      ghost var s, b, lh := log.bc.Abs(), log.bc.buf[i].blockno, log.lh;
      panicked := log.LogWrite(h, i);
      ghost var s' := log.bc.Abs();
      InvUses(s);
      HolderHas(s, h, i);
      WriteMatches(log.g, s, s', lh, log.outstanding, who, state, h, b, i);
      if !panicked {
        Step(M.LogWrite(who[h], b), who);
      }
    }

    /** brelse: the step Release; a buffer that is not pinned is then free to be recycled. */
    method Brelse(h: nat, i: nat)
      requires Valid() && h in log.bc.handles && log.bc.handles[h] == Handle(i, Holding(false))
      modifies this, log.bc
      ensures Valid() && log.bc.disk == old(log.bc.disk) && log.bc.history == old(log.bc.history)
      ensures who == old(who) - {h} && log.bc.handles == old(log.bc.handles) - {h}
      ensures steps == old(steps) + ReleaseSteps(old(who[h]), old(log.bc.buf[i].blockno), old(log.bc.buf[i].dirty))
    {
      ghost var s, b := log.bc.Abs(), log.bc.buf[i].blockno;
      ghost var more := ReleaseSteps(who[h], b, log.bc.buf[i].dirty);
      log.ReleaseBuffer(h, i);
      InvUses(s);
      HolderHas(s, h, i);
      ReleaseMatches(log.g, s, log.bc.Abs(), log.lh, log.outstanding, who, state, h, b, i);
      Steps(more, AfterRelease(state, b), who - {h}, log.bc.history, []);
    }

    /** end_op of operation op, which has logged what it changed: the step End, and when it is the last one out
        the steps of a whole commit. What has been logged is then committed. end_op does not panic. */
    method EndOp(ghost op: nat) returns (panicked: bool)
      requires Valid() && op in state.ops && (log.outstanding == 1 ==> log.bc.handles == map[])
      requires forall h :: h in log.bc.handles && who[h] == op ==> log.bc.handles[h].phase == Holding(false)
      modifies this, log, log.bc
      ensures Valid() && !panicked && log.bc.handles == old(log.bc.handles) && who == old(who)
      ensures steps == old(steps) + EndSteps(log.g, op, old(log.outstanding), old(log.lh))
      ensures LogSafety.All(state) == old(LogSafety.All(state)) && op !in state.ops
      ensures old(log.outstanding) == 1 ==> LogSafety.Flatten(state.done) == LogSafety.All(state)
    {
      ghost var s, st, hist, out, lh := log.bc.Abs(), state, log.bc.history, log.outstanding, log.lh;
      ReachedInv(log.g, first, steps, st, hist);
      panicked := log.EndOp();
      ghost var s' := log.bc.Abs();
      ghost var st', next := EndMatches(log.g, s, s', lh, log.lh, out, who, st, op);
      Steps(EndSteps(log.g, op, out, lh), st', who, hist, next);
    }
  }

  /** end_op, whether or not it commits. */
  lemma EndMatches(g: Geometry, s: Sys, s': Sys, lh: seq<nat>, lh': seq<nat>, out: int, who: map<nat, nat>, st: M.State,
                   op: nat)
    returns (st': M.State, next: seq<Disk>)
    requires GoodGeometry(g, |s.disk|) && GoodHeader(g, |s.disk|, lh) && Inv(s) && |s.stored| == |s.disk|
    requires Matches(s, lh, out, who, st) && LogSafety.Shape(g, st) && op in st.ops
    requires forall h :: h in s.handles && h in who && who[h] == op ==> s.handles[h].phase == Holding(false)
    requires out != 1 ==> s' == s && lh' == lh
    requires out == 1 ==> Idle(s, lh) && Idle(s', []) && lh' == [] && s'.disk == CommitDisk(g, s.disk, s.stored, lh)
    ensures Passes(g, st, EndSteps(g, op, out, lh), st', next)
    ensures next == if out == 1 then CommitWrites(g, s.disk, s.stored, lh) else []
    ensures Matches(s', lh', out - 1, who, st') && op !in st'.ops && LogSafety.All(st') == LogSafety.All(st)
    ensures out == 1 ==> LogSafety.Flatten(st'.done) == LogSafety.All(st')
  {
    InvUses(s);
    EndEnabled(g, s, who, st, op);
    var st1 := M.Next(g, st, M.End(op)).s;
    PassesOne(g, st, M.End(op), st1);
    if out == 1 {
      EndedShape(g, st, st1, op);
      CommitMatches(g, s, s', lh, who, st1);
      st', next := AfterCommit(g, st1, s.stored), CommitWrites(g, s.disk, s.stored, lh);
      PassesConcat(g, st, [M.End(op)], st1, [], CommitSteps(g, lh), st', next);
      assert [] + next == next;
      CommittedAll(g, st1, s.stored);
    } else {
      st', next := st1, [];
    }
  }

  lemma EndedShape(g: Geometry, st: M.State, st1: M.State, op: nat)
    requires LogSafety.Shape(g, st) && op in st.ops && M.Next(g, st, M.End(op)) == M.Ok(st1)
    ensures LogSafety.Shape(g, st1)
  {
    assert st1.ops.Keys == st.ops.Keys - {op};
  }

  function EndSteps(g: Geometry, op: nat, outstanding: int, lh: seq<nat>): seq<M.Step> {
    [M.End(op)] + if outstanding == 1 then CommitSteps(g, lh) else []
  }

  /** Nothing is waiting to be committed when the list is empty. */
  lemma NoneWaiting(cur: seq<M.Write>, lh: seq<nat>)
    requires forall w :: w in cur ==> w.blockno in lh
    ensures lh == [] ==> cur == []
  {
    assert cur != [] ==> cur[0] in cur;
  }

  /** After commit() nothing that was logged is waiting. */
  lemma CommittedAll(g: Geometry, st: M.State, c: Disk)
    requires LogSafety.Shape(g, st) && |c| == |st.disk|
    ensures LogSafety.All(AfterCommit(g, st, c)) == LogSafety.All(st) == LogSafety.Flatten(AfterCommit(g, st, c).done)
  {
    NoneWaiting(st.cur, st.lh);
    assert LogSafety.Flatten(st.done) + [] == LogSafety.Flatten(st.done);
    assert (st.done + [st.cur])[..|st.done|] == st.done;
  }
}
