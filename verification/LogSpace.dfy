/** Log space: what begin_op's reservation guarantees, and exactly when log_write can still panic. */
module LogSpace {
  import opened Params
  import opened LogFormat
  import opened LogMachine
  import opened LogSafety

  /** The entries all running operations may still add: MAXOPBLOCKS less what each has used. */
  ghost function Unused(ops: map<nat, nat>): int {
    if ops == map[] then 0
    else
      var op :| op in ops;
      MAXOPBLOCKS - ops[op] + Unused(ops - {op})
  }

  /** The sum does not depend on the order in which the operations are taken. */
  lemma {:induction false} UnusedAt(ops: map<nat, nat>, op: nat)
    requires op in ops
    ensures Unused(ops) == MAXOPBLOCKS - ops[op] + Unused(ops - {op})
    decreases |ops|
  {
    var first :| first in ops && Unused(ops) == MAXOPBLOCKS - ops[first] + Unused(ops - {first});
    if first != op {
      UnusedAt(ops - {first}, op);
      UnusedAt(ops - {op}, first);
      assert ops - {first} - {op} == ops - {op} - {first};
    }
  }

  lemma UnusedSet(ops: map<nat, nat>, op: nat, used: nat)
    ensures Unused(ops[op := used]) == MAXOPBLOCKS - used + Unused(ops - {op})
  {
    UnusedAt(ops[op := used], op);
    assert ops[op := used] - {op} == ops - {op};
  }

  lemma {:induction false} UnusedBound(ops: map<nat, nat>)
    requires forall op :: op in ops ==> ops[op] <= MAXOPBLOCKS
    ensures 0 <= Unused(ops) <= MAXOPBLOCKS * |ops|
    decreases |ops|
  {
    if ops != map[] {
      var op :| op in ops;
      UnusedAt(ops, op);
      assert ops.Keys == (ops - {op}).Keys + {op};
      UnusedBound(ops - {op});
    }
  }

  /** Entries in the log plus the unused budget of the running operations fit a header. */
  ghost predicate Reserved(s: State) {
    !s.over && (s.phase.Running? || s.phase.WritingLog?) ==>
      && (forall op :: op in s.ops ==> s.ops[op] <= MAXOPBLOCKS)
      && |s.lh| + Unused(s.ops) <= LOGSIZE
  }

  lemma BeginReserved(g: Geometry, s: State, op: nat)
    requires Shape(g, s) && Reserved(s) && Next(g, s, Begin(op)).Ok?
    ensures Reserved(Next(g, s, Begin(op)).s)
  {
    if !s.over {
      UnusedBound(s.ops);
      UnusedSet(s.ops, op, 0);
      assert s.ops - {op} == s.ops;
    }
  }

  lemma LogWriteReserved(g: Geometry, s: State, p: nat, b: nat)
    requires Shape(g, s) && Reserved(s) && Next(g, s, LogWrite(p, b)).Ok?
    ensures Reserved(Next(g, s, LogWrite(p, b)).s)
  {
    var s' := Next(g, s, LogWrite(p, b)).s;
    UnusedSet(s.ops, p, s'.ops[p]);
    UnusedAt(s.ops, p);
  }

  lemma EndReserved(g: Geometry, s: State, op: nat)
    requires Shape(g, s) && Reserved(s) && Next(g, s, End(op)).Ok?
    ensures Reserved(Next(g, s, End(op)).s)
  {
    UnusedAt(s.ops, op);
  }

  lemma StepReserved(g: Geometry, s: State, step: Step)
    requires Shape(g, s) && Reserved(s) && Next(g, s, step).Ok?
    ensures Reserved(Next(g, s, step).s)
  {
    match step
    case Begin(op) => BeginReserved(g, s, op);
    case LogWrite(p, b) => LogWriteReserved(g, s, p, b);
    case End(op) => EndReserved(g, s, op);
    case _ =>
  }

  lemma {:induction false} RunReserved(g: Geometry, s: State, steps: seq<Step>)
    requires Inv(g, s) && Reserved(s) && Run(g, s, steps).Ok?
    ensures Reserved(Run(g, s, steps).s)
    decreases |steps|
  {
    if steps != [] {
      StepInv(g, s, steps[0]);
      StepReserved(g, s, steps[0]);
      RunReserved(g, Next(g, s, steps[0]).s, steps[1..]);
    }
  }

  /** In every run in which no operation adds more than MAXOPBLOCKS entries, the entries in the log and
      the unused budget of all running operations never exceed LOGSIZE, and the list of logged blocks
      has no repetition and stays inside the log. */
  lemma Reservation(g: Geometry, d: Disk, steps: seq<Step>)
    requires GoodGeometry(g, |d|) && GoodHeader(g, |d|, HeaderOf(d[g.start]))
    requires Run(g, Boot(g, d), steps).Ok? && !Run(g, Boot(g, d), steps).s.over
    ensures var s := Run(g, Boot(g, d), steps).s;
            && GoodHeader(g, |d|, s.lh)
            && (s.phase == Running ==> |s.lh| + Unused(s.ops) <= LOGSIZE)
  {
    BootInv(g, d);
    RunInv(g, Boot(g, d), steps);
    RunReserved(g, Boot(g, d), steps);
  }

  // ---------- When log_write panics with "too big a transaction" ----------

  /** Operation p calls log_write for a block that is not in the log yet, within its budget. */
  ghost predicate Adds(s: State, p: nat, b: nat) {
    p in s.ops && s.ops[p] < MAXOPBLOCKS && b !in s.lh
  }

  /** Operation p calls log_write, within its budget, for a block that is in the log already. */
  ghost predicate Repeats(s: State, p: nat, b: nat) {
    p in s.ops && s.ops[p] <= MAXOPBLOCKS && b in s.lh
  }

  /** The test comes before absorption: in every run, whichever block an operation holds and passes to
      log_write, the call panics exactly when the list is as long as lh.block or as the log allows. */
  lemma PanicsWhenFull(g: Geometry, d: Disk, steps: seq<Step>, p: nat, b: nat)
    requires GoodGeometry(g, |d|) && GoodHeader(g, |d|, HeaderOf(d[g.start])) && Run(g, Boot(g, d), steps).Ok?
    requires Next(g, Run(g, Boot(g, d), steps).s, LogWrite(p, b)) != Stuck
    ensures var s := Run(g, Boot(g, d), steps).s;
            Next(g, s, LogWrite(p, b)) == Panicked <==> |s.lh| == LOGSIZE || |s.lh| == g.size - 1
  {
    BootInv(g, d);
    RunInv(g, Boot(g, d), steps);
    NoCommitDuringOperation(g, Run(g, Boot(g, d), steps).s, p, b);
  }

  /** With room for LOGSIZE blocks after the header, an operation that stays within its budget can
      always add a block: log_write then panics only when LOGSIZE blocks are logged. */
  lemma RoomForAll(g: Geometry, d: Disk, steps: seq<Step>, p: nat, b: nat)
    requires GoodGeometry(g, |d|) && GoodHeader(g, |d|, HeaderOf(d[g.start])) && g.size > LOGSIZE
    requires Run(g, Boot(g, d), steps).Ok? && !Run(g, Boot(g, d), steps).s.over
    ensures var s := Run(g, Boot(g, d), steps).s;
            && (Adds(s, p, b) ==> Next(g, s, LogWrite(p, b)) != Panicked)
            && (Next(g, s, LogWrite(p, b)) == Panicked ==> |s.lh| == LOGSIZE)
  {
    BootInv(g, d);
    RunInv(g, Boot(g, d), steps);
    RunReserved(g, Boot(g, d), steps);
    RoomInState(g, Run(g, Boot(g, d), steps).s, p, b);
  }

  lemma RoomInState(g: Geometry, s: State, p: nat, b: nat)
    requires Shape(g, s) && Reserved(s) && !s.over && g.size > LOGSIZE
    ensures Adds(s, p, b) ==> Next(g, s, LogWrite(p, b)) != Panicked
    ensures Next(g, s, LogWrite(p, b)) == Panicked ==> |s.lh| == LOGSIZE
  {
    NoCommitDuringOperation(g, s, p, b);
    if p in s.ops {
      UnusedAt(s.ops, p);
      UnusedBound(s.ops - {p});
    }
  }

  lemma RunCons(g: Geometry, s: State, a: Step, b: seq<Step>)
    requires GoodGeometry(g, |s.disk|) && Next(g, s, a).Ok?
    ensures Run(g, s, [a] + b) == Run(g, Next(g, s, a).s, b)
  {
    assert ([a] + b)[1..] == b;
  }

  lemma {:induction false} RunConcat(g: Geometry, s: State, a: seq<Step>, b: seq<Step>)
    requires GoodGeometry(g, |s.disk|) && Run(g, s, a).Ok?
    ensures Run(g, s, a + b) == Run(g, Run(g, s, a).s, b)
    decreases |a|
  {
    if a == [] {
      assert a + b == b;
    } else {
      assert (a + b)[0] == a[0] && (a + b)[1..] == a[1..] + b;
      RunConcat(g, Next(g, s, a[0]).s, a[1..], b);
    }
  }

  /** The budget operation op has used once k blocks are logged, ten by each operation in turn. */
  function Share(k: nat, op: nat): nat {
    if k <= op * MAXOPBLOCKS then 0
    else if k - op * MAXOPBLOCKS >= MAXOPBLOCKS then MAXOPBLOCKS
    else k - op * MAXOPBLOCKS
  }

  /** Three operations are running and have logged the first k blocks after the log area. */
  ghost predicate Filled(g: Geometry, s: State, k: nat) {
    && GoodGeometry(g, |s.disk|)
    && s.phase == Running && s.outstanding == 3 && !s.over
    && (forall op :: op in s.ops <==> 0 <= op < 3)
    && (forall op: nat :: op < 3 ==> s.ops[op] == Share(k, op))
    && |s.lh| == k
    && (forall i :: 0 <= i < k ==> s.lh[i] == g.start + g.size + i)
    && (forall b: nat :: Free(s, b))
    && (forall b :: b in s.cache ==> !s.cache[b].modified)
  }

  /** One more block: bread, log_write, brelse. */
  function LogOne(g: Geometry, k: nat): seq<Step> {
    var op, b := k / MAXOPBLOCKS, g.start + g.size + k;
    [Read(op, b), LogWrite(op, b), Release(op, b)]
  }

  /** The three steps, one after the other. */
  lemma ThreeSteps(g: Geometry, s: State, s1: State, s2: State, s3: State, op: nat, b: nat)
    requires GoodGeometry(g, |s.disk|) && |s1.disk| == |s2.disk| == |s.disk|
    requires Next(g, s, Read(op, b)) == Ok(s1) && Next(g, s1, LogWrite(op, b)) == Ok(s2)
    requires Next(g, s2, Release(op, b)) == Ok(s3)
    ensures Run(g, s, [Read(op, b), LogWrite(op, b), Release(op, b)]) == Ok(s3)
  {
    RunCons(g, s2, Release(op, b), []);
    RunCons(g, s1, LogWrite(op, b), [Release(op, b)]);
    RunCons(g, s, Read(op, b), [LogWrite(op, b), Release(op, b)]);
    assert [Read(op, b), LogWrite(op, b), Release(op, b)] == [Read(op, b)]
           + ([LogWrite(op, b)] + ([Release(op, b)] + []));
  }

  /** bread, log_write and brelse of a block that is not in the log yet. */
  lemma OneBlock(g: Geometry, s: State, op: nat, b: nat, steps: seq<Step>) returns (s3: State)
    requires steps == [Read(op, b), LogWrite(op, b), Release(op, b)]
    requires GoodGeometry(g, |s.disk|) && s.phase == Running && s.outstanding > 0 && op in s.ops && b !in s.lh
    requires |s.lh| < LOGSIZE && |s.lh| < g.size - 1 && g.start + g.size <= b < |s.disk|
    requires (forall c: nat :: Free(s, c)) && (forall c :: c in s.cache ==> !s.cache[c].modified)
    ensures Run(g, s, steps) == Ok(s3)
    ensures s3.disk == s.disk && s3.phase == Running && s3.outstanding == s.outstanding && s3.lh == s.lh + [b]
    ensures s3.ops == s.ops[op := s.ops[op] + 1] && s3.over == (s.over || s.ops[op] + 1 > MAXOPBLOCKS)
    ensures (forall c: nat :: Free(s3, c)) && (forall c :: c in s3.cache ==> !s3.cache[c].modified)
  {
    assert Free(s, b);
    var s1 := Next(g, s, Read(op, b)).s;
    var s2 := Next(g, s1, LogWrite(op, b)).s;
    s3 := Next(g, s2, Release(op, b)).s;
    ThreeSteps(g, s, s1, s2, s3, op, b);
    forall c: nat
      ensures Free(s3, c)
    {
      assert Free(s, c);
    }
  }

  lemma FillOne(g: Geometry, s: State, k: nat)
    requires Filled(g, s, k) && k < LOGSIZE && k < g.size - 1 && g.start + g.size + k < |s.disk|
    ensures Run(g, s, LogOne(g, k)).Ok? && Filled(g, Run(g, s, LogOne(g, k)).s, k + 1)
  {
    var s3 := OneBlock(g, s, k / MAXOPBLOCKS, g.start + g.size + k, LogOne(g, k));
    FilledNext(g, s, s3, k);
  }

  lemma FilledNext(g: Geometry, s: State, s': State, k: nat)
    requires Filled(g, s, k) && k < LOGSIZE
    requires s'.disk == s.disk && s'.phase == Running && s'.outstanding == 3
    requires var op := k / MAXOPBLOCKS; s'.ops == s.ops[op := s.ops[op] + 1] && s'.over == (s.ops[op] + 1 > MAXOPBLOCKS)
    requires s'.lh == s.lh + [g.start + g.size + k]
    requires forall b: nat :: Free(s', b)
    requires forall b :: b in s'.cache ==> !s'.cache[b].modified
    ensures Filled(g, s', k + 1)
  {
    var op := k / MAXOPBLOCKS;
    assert Share(k + 1, op) == Share(k, op) + 1;
    assert forall other: nat :: other < 3 && other != op ==> Share(k + 1, other) == Share(k, other);
  }

  /** Boot, then three operations begin. */
  function StartSteps(): seq<Step> {
    [ReadHead, Erase, Begin(0), Begin(1), Begin(2)]
  }

  function FillSteps(g: Geometry, start: seq<Step>, k: nat): seq<Step> {
    if k == 0 then start else FillSteps(g, start, k - 1) + LogOne(g, k - 1)
  }

  lemma StartThree(g: Geometry, d: Disk)
    requires GoodGeometry(g, |d|) && HeaderOf(d[g.start]) == []
    ensures Run(g, Boot(g, d), StartSteps()).Ok? && Filled(g, Run(g, Boot(g, d), StartSteps()).s, 0)
  {
    var s0 := Boot(g, d);
    var s1 := Next(g, s0, ReadHead).s;
    var s2 := Next(g, s1, Erase).s;
    var s3 := Next(g, s2, Begin(0)).s;
    var s4 := Next(g, s3, Begin(1)).s;
    var s5 := Next(g, s4, Begin(2)).s;
    RunCons(g, s4, Begin(2), []);
    RunCons(g, s3, Begin(1), [Begin(2)]);
    RunCons(g, s2, Begin(0), [Begin(1), Begin(2)]);
    RunCons(g, s1, Erase, [Begin(0), Begin(1), Begin(2)]);
    RunCons(g, s0, ReadHead, [Erase, Begin(0), Begin(1), Begin(2)]);
    assert StartSteps() == [ReadHead] + ([Erase] + ([Begin(0)] + ([Begin(1)] + ([Begin(2)] + []))));
  }

  /** The steps lead to a state with k blocks logged. */
  ghost predicate FilledBy(g: Geometry, s: State, steps: seq<Step>, k: nat)
    requires GoodGeometry(g, |s.disk|)
  {
    Run(g, s, steps).Ok? && Filled(g, Run(g, s, steps).s, k)
  }

  lemma {:induction false} Fill(g: Geometry, s: State, start: seq<Step>, k: nat)
    requires GoodGeometry(g, |s.disk|) && FilledBy(g, s, start, 0)
    requires k <= LOGSIZE && k <= g.size - 1 && g.start + g.size + k <= |s.disk|
    ensures FilledBy(g, s, FillSteps(g, start, k), k)
    decreases k
  {
    if k > 0 {
      Fill(g, s, start, k - 1);
      FillMore(g, s, FillSteps(g, start, k - 1), FillSteps(g, start, k), k - 1);
    }
  }

  lemma FillMore(g: Geometry, s: State, steps: seq<Step>, steps': seq<Step>, k: nat)
    requires GoodGeometry(g, |s.disk|) && FilledBy(g, s, steps, k) && steps' == steps + LogOne(g, k)
    requires k < LOGSIZE && k < g.size - 1 && g.start + g.size + k < |s.disk|
    ensures FilledBy(g, s, steps', k + 1)
  {
    RunConcat(g, s, steps, LogOne(g, k));
    FillOne(g, Run(g, s, steps).s, k);
  }

  lemma LastBlockPanics(g: Geometry, s: State, steps: seq<Step>, k: nat, p: nat, b: nat)
    requires GoodGeometry(g, |s.disk|) && Run(g, s, steps).Ok? && Filled(g, Run(g, s, steps).s, k)
    requires k == g.size - 1 < LOGSIZE && b == g.start + g.size + k < |s.disk| && p == k / MAXOPBLOCKS
    ensures var o := Run(g, s, steps + [Read(p, b)]);
            o.Ok? && !o.s.over && Adds(o.s, p, b) && Next(g, o.s, LogWrite(p, b)) == Panicked
  {
    var s1 := Run(g, s, steps).s;
    RunConcat(g, s, steps, [Read(p, b)]);
    RunCons(g, s1, Read(p, b), []);
    assert b !in s1.lh;
  }

  /** With at most LOGSIZE blocks in all, header included, three operations that stay within their
      budgets reach the panic: begin_op admits them, and the last block does not fit. */
  lemma PanicReachable(g: Geometry, d: Disk)
    requires GoodGeometry(g, |d|) && HeaderOf(d[g.start]) == [] && g.start + 2 * g.size <= |d|
    requires g.size <= LOGSIZE
    ensures exists steps, p, b ::
              && Run(g, Boot(g, d), steps).Ok?
              && !Run(g, Boot(g, d), steps).s.over
              && Adds(Run(g, Boot(g, d), steps).s, p, b)
              && Next(g, Run(g, Boot(g, d), steps).s, LogWrite(p, b)) == Panicked
  {
    var k := g.size - 1;
    StartThree(g, d);
    Fill(g, Boot(g, d), StartSteps(), k);
    LastBlockPanics(g, Boot(g, d), FillSteps(g, StartSteps(), k), k, k / MAXOPBLOCKS, g.start + g.size + k);
  }

  lemma RepeatPanics(g: Geometry, s: State, steps: seq<Step>, k: nat, b: nat)
    requires GoodGeometry(g, |s.disk|) && Run(g, s, steps).Ok? && Filled(g, Run(g, s, steps).s, k)
    requires 0 < k && (k == LOGSIZE || k == g.size - 1) && b == g.start + g.size < |s.disk|
    ensures var o := Run(g, s, steps + [Read(0, b)]);
            o.Ok? && !o.s.over && Repeats(o.s, 0, b) && Next(g, o.s, LogWrite(0, b)) == Panicked
  {
    var s1 := Run(g, s, steps).s;
    RunConcat(g, s, steps, [Read(0, b)]);
    assert Free(s1, b);
    RunCons(g, s1, Read(0, b), []);
    assert s1.lh[0] == b;
  }

  /** However large the log, three operations that stay within their budgets can fill it, and then
      log_write of a block that is in it already panics, although it needs no room. */
  lemma RepeatPanicReachable(g: Geometry, d: Disk)
    requires GoodGeometry(g, |d|) && HeaderOf(d[g.start]) == [] && g.start + 2 * g.size <= |d|
    requires 2 <= g.size
    ensures exists steps, p, b ::
              && Run(g, Boot(g, d), steps).Ok?
              && !Run(g, Boot(g, d), steps).s.over
              && Repeats(Run(g, Boot(g, d), steps).s, p, b)
              && Next(g, Run(g, Boot(g, d), steps).s, LogWrite(p, b)) == Panicked
  {
    var k := if g.size > LOGSIZE then LOGSIZE else g.size - 1;
    StartThree(g, d);
    Fill(g, Boot(g, d), StartSteps(), k);
    RepeatPanics(g, Boot(g, d), FillSteps(g, StartSteps(), k), k, g.start + g.size);
  }

  /** So begin_op's reservation keeps an operation within its budget from the panic exactly so far: for
      a block new to the log if and only if the log has more than LOGSIZE blocks (mkfs makes it LOGSIZE
      blocks, which is one too few), and for a block already in it if and only if nothing fits the log. */
  lemma PanicIff(g: Geometry, d: Disk)
    requires GoodGeometry(g, |d|) && HeaderOf(d[g.start]) == [] && g.start + 2 * g.size <= |d|
    ensures g.size <= LOGSIZE <==>
            exists steps, p, b ::
              && Run(g, Boot(g, d), steps).Ok?
              && !Run(g, Boot(g, d), steps).s.over
              && Adds(Run(g, Boot(g, d), steps).s, p, b)
              && Next(g, Run(g, Boot(g, d), steps).s, LogWrite(p, b)) == Panicked
    ensures g.size >= 2 <==>
            exists steps, p, b ::
              && Run(g, Boot(g, d), steps).Ok?
              && !Run(g, Boot(g, d), steps).s.over
              && Repeats(Run(g, Boot(g, d), steps).s, p, b)
              && Next(g, Run(g, Boot(g, d), steps).s, LogWrite(p, b)) == Panicked
  {
    if g.size <= LOGSIZE {
      PanicReachable(g, d);
    } else {
      forall steps, p, b | Run(g, Boot(g, d), steps).Ok? && !Run(g, Boot(g, d), steps).s.over
        ensures var s := Run(g, Boot(g, d), steps).s;
                Adds(s, p, b) ==> Next(g, s, LogWrite(p, b)) != Panicked
      {
        RoomForAll(g, d, steps, p, b);
      }
    }
    if g.size >= 2 {
      RepeatPanicReachable(g, d);
    } else {
      forall steps | Run(g, Boot(g, d), steps).Ok?
        ensures Run(g, Boot(g, d), steps).s.lh == []
      {
        BootInv(g, d);
        RunInv(g, Boot(g, d), steps);
      }
    }
  }
}
