/** ide.c: requests queued to a disk that works on one at a time and interrupts when it is done. On an
    error-free disk this does what the direct copy of memide.c does. */
module Ide {
  import opened Common
  import opened Blocks

  datatype Buf = Buf(valid: bool, dirty: bool, blockno: nat, data: Block, qnext: Option<nat>)

  /** What the controller has been told: a sector to read, or one to write and the bytes sent along. */
  datatype Cmd = Read(n: nat) | Write(n: nat, data: Block)

  /** The controller: idle, at work, or done with a command, with the bytes it has read for insl. */
  datatype Ctl = Idle | Busy(cmd: Cmd) | Done(latch: Option<Block>)

  /** The flags ask for nothing: B_VALID set and B_DIRTY clear. */
  predicate Clean(b: Buf) {
    b.valid && !b.dirty
  }

  /** memide.c's iderw: the buffer after it, and the disk. */
  function SyncBuf(disk: seq<Block>, b: Buf): Buf
    requires b.blockno < |disk|
  {
    if b.dirty then b.(dirty := false, valid := true) else b.(data := disk[b.blockno], valid := true)
  }

  function SyncDisk(disk: seq<Block>, b: Buf): (d: seq<Block>)
    requires b.blockno < |disk|
    ensures |d| == |disk|
  {
    if b.dirty then disk[b.blockno := b.data] else disk
  }

  function CmdFor(b: Buf): Cmd {
    if b.dirty then Write(b.blockno, b.data) else Read(b.blockno)
  }

  /** The links from head on are the buffers of q, in this order. */
  ghost predicate Linked(bufs: seq<Buf>, head: Option<nat>, q: seq<nat>) {
    && (forall i :: 0 <= i < |q| ==> q[i] < |bufs|) && Distinct(q)
    && head == (if q == [] then None else Some(q[0]))
    && forall i :: 0 <= i < |q| ==> LinkAt(bufs, q, i)
  }

  ghost predicate LinkAt(bufs: seq<Buf>, q: seq<nat>, i: nat)
    requires i < |q|
  {
    q[i] < |bufs| && bufs[q[i]].qnext == if i + 1 < |q| then Some(q[i + 1]) else None
  }

  /** The driver's state: the queue is well linked, its buffers all ask for something on the disk, and the
      controller is idle, or at work for the first of them, or has just done what it asks. */
  ghost predicate Ok(bufs: seq<Buf>, head: Option<nat>, q: seq<nat>, ctl: Ctl, disk: seq<Block>) {
    Linked(bufs, head, q) && Serves(bufs, q, ctl, disk)
  }

  ghost predicate Serves(bufs: seq<Buf>, q: seq<nat>, ctl: Ctl, disk: seq<Block>) {
    && (forall i :: 0 <= i < |q| ==> q[i] < |bufs| && !Clean(bufs[q[i]]) && bufs[q[i]].blockno < |disk|)
    && (ctl == Idle <==> q == [])
    && (ctl.Busy? ==> ctl.cmd == CmdFor(bufs[q[0]]))
    && (ctl.Done? ==> DoneFor(bufs[q[0]], ctl.latch, disk))
  }

  /** The command for b has been carried out. */
  predicate DoneFor(b: Buf, latch: Option<Block>, disk: seq<Block>)
    requires b.blockno < |disk|
  {
    if b.dirty then disk[b.blockno] == b.data && latch == None else latch == Some(disk[b.blockno])
  }

  lemma AppendLinked(bufs: seq<Buf>, bufs': seq<Buf>, head: Option<nat>, q: seq<nat>, b: nat)
    requires Linked(bufs, head, q) && b < |bufs| && b !in q && |bufs'| == |bufs| && bufs'[b].qnext == None
    requires q != [] ==> bufs'[q[|q| - 1]].qnext == Some(b)
    requires forall i :: 0 <= i < |bufs| && i != b && (q != [] ==> i != q[|q| - 1]) ==> bufs'[i] == bufs[i]
    ensures Linked(bufs', if q == [] then Some(b) else head, q + [b])
  {
    var q' := q + [b];
    forall i | 0 <= i < |q'|
      ensures LinkAt(bufs', q', i)
    {
      if i < |q| {
        assert LinkAt(bufs, q, i);
      }
    }
  }

  lemma PopLinked(bufs: seq<Buf>, bufs': seq<Buf>, q: seq<nat>, b: nat)
    requires Linked(bufs, Some(b), q) && b < |bufs| && |bufs'| == |bufs|
    requires forall i :: 0 <= i < |bufs| && i != b ==> bufs'[i] == bufs[i]
    ensures q != [] && Linked(bufs', bufs[b].qnext, q[1..])
  {
    assert LinkAt(bufs, q, 0);
    forall i | 0 <= i < |q| - 1
      ensures LinkAt(bufs', q[1..], i)
    {
      assert LinkAt(bufs, q, i + 1);
    }
  }

  // ---------- Whole runs ----------

  /** The system seen from outside the driver's code; links are of no account here. `submitted` and
      `completed` record the requests in the order in which they enter and leave the queue, and `ops`
      what a synchronous driver would have done. */
  datatype Sys = Sys(bufs: seq<Buf>, q: seq<nat>, ctl: Ctl, disk: seq<Block>, submitted: seq<nat>, completed: seq<nat>,
    ops: seq<SyncOp>)

  datatype SyncOp = Rw(b: nat) | Client(b: nat, x: Buf)

  datatype Step = Submit(b: nat) | Device | Interrupt | Change(b: nat, x: Buf)

  /** The holder of b's lock calls iderw, the controller works, or the holder of b changes the buffer,
      which it cannot while it waits in iderw. */
  predicate Enabled(s: Sys, step: Step) {
    match step
    case Submit(b) => b < |s.bufs| && b !in s.q && !Clean(s.bufs[b]) && s.bufs[b].blockno < |s.disk|
    case Device =>
        s.ctl.Busy? && s.q != [] && s.q[0] < |s.bufs| && s.bufs[s.q[0]].blockno < |s.disk| && s.ctl.cmd.n < |s.disk|
    case Interrupt => s.ctl.Done? && s.q != [] && s.q[0] < |s.bufs| && (s.bufs[s.q[0]].dirty || s.ctl.latch.Some?)
                      && (|s.q| > 1 ==> s.q[1] < |s.bufs|)
    case Change(b, x) => b < |s.bufs| && b !in s.q
  }

  /** Buffer b after ideintr. */
  function Served(b: Buf, latch: Option<Block>): Buf
    requires b.dirty || latch.Some?
  {
    b.(data := if b.dirty then b.data else latch.value, valid := true, dirty := false)
  }

  function Next(s: Sys, step: Step): Sys
    requires Enabled(s, step)
  {
    match step
    case Submit(b) =>
      s.(q := s.q + [b], submitted := s.submitted + [b], ctl := if s.q == [] then Busy(CmdFor(s.bufs[b])) else s.ctl)
    case Device =>
      var s1 := s.(ops := s.ops + [Rw(s.q[0])]);
      if s.ctl.cmd.Write? then s1.(disk := s.disk[s.ctl.cmd.n := s.ctl.cmd.data], ctl := Done(None))
      else s1.(ctl := Done(Some(s.disk[s.ctl.cmd.n])))
    case Interrupt =>
      s.(bufs := s.bufs[s.q[0] := Served(s.bufs[s.q[0]], s.ctl.latch)], q := s.q[1..],
        completed := s.completed + [s.q[0]],
         ctl := if |s.q| == 1 then Idle else Busy(CmdFor(s.bufs[s.q[1]])))
    case Change(b, x) => s.(bufs := s.bufs[b := x], ops := s.ops + [Client(b, x)])
  }

  ghost predicate Run(init: Sys, steps: seq<Step>, s: Sys)
    decreases |steps|
  {
    if steps == [] then s == init && init.q == [] && init.ctl == Idle && init.submitted == [] && init.completed == []
      && init.ops == []
    else
      var rest, last := steps[..|steps| - 1], steps[|steps| - 1];
      exists m :: Run(init, rest, m) && Enabled(m, last) && s == Next(m, last)
  }

  /** A synchronous driver: memide.c's iderw, and the clients' changes. */
  datatype Sync = Sync(bufs: seq<Buf>, disk: seq<Block>)

  function SyncNext(s: Sync, op: SyncOp): Sync {
    if op.b >= |s.bufs| then s
    else match op
      case Rw(b) =>
        if s.bufs[b].blockno >= |s.disk| then s
        else Sync(s.bufs[b := SyncBuf(s.disk, s.bufs[b])], SyncDisk(s.disk, s.bufs[b]))
      case Client(b, x) => s.(bufs := s.bufs[b := x])
  }

  function SyncRun(s: Sync, ops: seq<SyncOp>): Sync
    decreases |ops|
  {
    if ops == [] then s else SyncNext(SyncRun(s, ops[..|ops| - 1]), ops[|ops| - 1])
  }

  /** The requests of a synchronous run, in order. */
  function Rws(ops: seq<SyncOp>): seq<nat>
    decreases |ops|
  {
    if ops == [] then []
    else Rws(ops[..|ops| - 1]) + if ops[|ops| - 1].Rw? then [ops[|ops| - 1].b] else []
  }

  /** What the system comes to, seen synchronously: a request takes effect when the controller does it. */
  function Abs(s: Sys): Sync
    requires s.ctl.Done? ==> s.q != [] && s.q[0] < |s.bufs| && (s.bufs[s.q[0]].dirty || s.ctl.latch.Some?)
  {
    Sync(if s.ctl.Done? then s.bufs[s.q[0] := Served(s.bufs[s.q[0]], s.ctl.latch)] else s.bufs, s.disk)
  }

  ghost predicate Inv(init: Sys, s: Sys) {
    && Serves(s.bufs, s.q, s.ctl, s.disk) && Distinct(s.q)
    && s.submitted == s.completed + s.q
    && Rws(s.ops) == s.completed + (if s.ctl.Done? then [s.q[0]] else [])
    && Abs(s) == SyncRun(Sync(init.bufs, init.disk), s.ops)
  }

  lemma SubmitInv(init: Sys, s: Sys, b: nat)
    requires Inv(init, s) && Enabled(s, Submit(b))
    ensures Inv(init, Next(s, Submit(b)))
  {
    var s' := Next(s, Submit(b));
    assert s'.submitted == s'.completed + s'.q;
    assert s.q != [] ==> s'.q[0] == s.q[0];
  }

  lemma OpsMore(s: Sync, ops: seq<SyncOp>, op: SyncOp)
    ensures SyncRun(s, ops + [op]) == SyncNext(SyncRun(s, ops), op)
    ensures Rws(ops + [op]) == Rws(ops) + if op.Rw? then [op.b] else []
  {
    assert (ops + [op])[..|ops + [op]| - 1] == ops;
  }

  /** The controller's work is what memide.c would do at this moment. */
  lemma DeviceServes(s: Sys)
    requires Serves(s.bufs, s.q, s.ctl, s.disk) && Enabled(s, Device)
    ensures var s' := Next(s, Device);
            && Serves(s'.bufs, s'.q, s'.ctl, s'.disk)
            && Abs(s') == SyncNext(Sync(s.bufs, s.disk), Rw(s.q[0]))
  {
  }

  lemma DeviceInv(init: Sys, s: Sys)
    requires Inv(init, s) && Enabled(s, Device)
    ensures Inv(init, Next(s, Device))
  {
    DeviceServes(s);
    OpsMore(Sync(init.bufs, init.disk), s.ops, Rw(s.q[0]));
  }

  lemma InterruptServes(s: Sys)
    requires Serves(s.bufs, s.q, s.ctl, s.disk) && Distinct(s.q) && Enabled(s, Interrupt)
    ensures var s' := Next(s, Interrupt); Serves(s'.bufs, s'.q, s'.ctl, s'.disk) && Abs(s') == Abs(s)
  {
    var s' := Next(s, Interrupt);
    forall i | 0 <= i < |s'.q|
      ensures s'.q[i] == s.q[i + 1] && s'.bufs[s'.q[i]] == s.bufs[s.q[i + 1]]
    {
    }
  }

  lemma InterruptInv(init: Sys, s: Sys)
    requires Inv(init, s) && Enabled(s, Interrupt)
    ensures Inv(init, Next(s, Interrupt))
  {
    InterruptServes(s);
    var s' := Next(s, Interrupt);
    assert s'.submitted == s'.completed + s'.q;
    assert s'.completed == s.completed + [s.q[0]];
  }

  lemma ChangeInv(init: Sys, s: Sys, b: nat, x: Buf)
    requires Inv(init, s) && Enabled(s, Change(b, x))
    ensures Inv(init, Next(s, Change(b, x)))
  {
    OpsMore(Sync(init.bufs, init.disk), s.ops, Client(b, x));
    var s' := Next(s, Change(b, x));
    assert forall i :: 0 <= i < |s.q| ==> s'.bufs[s.q[i]] == s.bufs[s.q[i]];
    assert Serves(s'.bufs, s'.q, s'.ctl, s'.disk);
    assert Abs(s') == SyncNext(Abs(s), Client(b, x));
  }

  lemma {:induction false} RunInv(init: Sys, steps: seq<Step>, s: Sys)
    requires Run(init, steps, s)
    ensures Inv(init, s)
    decreases |steps|
  {
    if steps != [] {
      var rest, last := steps[..|steps| - 1], steps[|steps| - 1];
      var m :| Run(init, rest, m) && Enabled(m, last) && s == Next(m, last);
      RunInv(init, rest, m);
      match last {
        case Submit(b) => SubmitInv(init, m, b);
        case Device => DeviceInv(init, m);
        case Interrupt => InterruptInv(init, m);
        case Change(b, x) => ChangeInv(init, m, b, x);
      }
    }
  }

  /** In every run the disk and the buffers, with the request that the controller has done counted as served,
      are those of a synchronous run that serves the same requests in the order in which they were made: the
      requests done so far, each once, are a first part of those made, and what is left is the queue. */
  lemma AsyncRefinesSync(init: Sys, steps: seq<Step>, s: Sys)
    requires Run(init, steps, s)
    ensures s.ctl.Done? ==> s.q != [] && s.q[0] < |s.bufs| && (s.bufs[s.q[0]].dirty || s.ctl.latch.Some?)
    ensures Abs(s) == SyncRun(Sync(init.bufs, init.disk), s.ops)
    ensures Rws(s.ops) == s.completed + if s.ctl.Done? then [s.q[0]] else []
    ensures s.submitted == s.completed + s.q
  {
    RunInv(init, steps, s);
  }

  /** iderw cannot return before its request has been served, and then the next check of the flags lets it. */
  lemma ReturnsWhenServed(init: Sys, steps: seq<Step>, s: Sys, b: nat)
    requires Run(init, steps, s) && b in s.q
    ensures b < |s.bufs| && !Clean(s.bufs[b])
    ensures s.q[0] == b && Enabled(s, Interrupt) ==> b !in Next(s, Interrupt).q && Clean(Next(s, Interrupt).bufs[b])
  {
    RunInv(init, steps, s);
    var i :| 0 <= i < |s.q| && s.q[i] == b;
    assert !Clean(s.bufs[s.q[i]]);
  }

  // ---------- The driver ----------

  /** The buffers without their links. */
  function Erase(bufs: seq<Buf>): (r: seq<Buf>)
    ensures |r| == |bufs| && forall i :: 0 <= i < |r| ==> r[i] == bufs[i].(qnext := None)
  {
    seq(|bufs|, i requires 0 <= i < |bufs| => bufs[i].(qnext := None))
  }

  lemma EraseSame(bufs: seq<Buf>, bufs': seq<Buf>)
    requires |bufs'| == |bufs| && forall i :: 0 <= i < |bufs| ==> bufs'[i] == bufs[i].(qnext := bufs'[i].qnext)
    ensures Erase(bufs') == Erase(bufs)
  {
  }

  lemma ErasePut(bufs: seq<Buf>, b: nat, x: Buf)
    requires b < |bufs|
    ensures Erase(bufs[b := x]) == Erase(bufs)[b := x.(qnext := None)]
  {
  }

  lemma EraseServes(bufs: seq<Buf>, q: seq<nat>, ctl: Ctl, disk: seq<Block>)
    ensures Serves(Erase(bufs), q, ctl, disk) <==> Serves(bufs, q, ctl, disk)
  {
  }

  lemma RunMore(init: Sys, steps: seq<Step>, m: Sys, step: Step)
    requires Run(init, steps, m) && Enabled(m, step)
    ensures Run(init, steps + [step], Next(m, step))
  {
    var all := steps + [step];
    assert all[..|all| - 1] == steps && all[|all| - 1] == step;
    assert Run(init, all[..|all| - 1], m);
  }

  class Driver {
    var bufs: seq<Buf>
    var idequeue: Option<nat>
    var ctl: Ctl
    var disk: seq<Block>
    ghost var q: seq<nat>
    ghost var submitted: seq<nat>
    ghost var completed: seq<nat>
    ghost var ops: seq<SyncOp>
    ghost var init: Sys // the system at first, and what has happened since
    ghost var steps: seq<Step>

    /** The machine's view of this. */
    ghost function S(): Sys
      reads this
    {
      Sys(Erase(bufs), q, ctl, disk, submitted, completed, ops)
    }

    ghost predicate Valid()
      reads this
    {
      Ok(bufs, idequeue, q, ctl, disk) && Run(init, steps, S())
    }

    /** Nothing has been asked for yet. */
    constructor (bufs: seq<Buf>, disk: seq<Block>)
      ensures Valid() && q == [] && ctl == Idle && this.bufs == bufs && this.disk == disk && steps == []
    {
      this.bufs, this.disk, idequeue, ctl := bufs, disk, None, Idle;
      q, submitted, completed, ops, steps := [], [], [], [], [];
      init := Sys(Erase(bufs), [], Idle, disk, [], [], []);
    }

    /** idestart. */
    method Start(b: nat)
      requires b < |bufs|
      modifies `ctl
      ensures ctl == Busy(CmdFor(bufs[b]))
    {
      if bufs[b].dirty {
        ctl := Busy(Write(bufs[b].blockno, bufs[b].data));
      } else {
        ctl := Busy(Read(bufs[b].blockno));
      }
    }

    /** iderw's loop that appends b to the queue. */
    method Append(b: nat)
      requires Linked(bufs, idequeue, q) && b < |bufs| && b !in q
      modifies `bufs, `idequeue, `q
      ensures Linked(bufs, idequeue, q) && q == old(q) + [b] && |bufs| == |old(bufs)|
      ensures forall i :: 0 <= i < |bufs| ==> bufs[i] == old(bufs)[i].(qnext := bufs[i].qnext)
    {
      bufs := bufs[b := bufs[b].(qnext := None)];
      if idequeue.None? {
        idequeue := Some(b);
      } else {
        var p := idequeue.value;
        ghost var k := 0;
        assert LinkAt(old(bufs), q, 0);
        while bufs[p].qnext.Some?
          invariant 0 <= k < |q| && p == q[k] && LinkAt(old(bufs), q, k)
          decreases |q| - k
        {
          p := bufs[p].qnext.value;
          k := k + 1;
          assert LinkAt(old(bufs), q, k);
        }
        bufs := bufs[p := bufs[p].(qnext := Some(b))];
      }
      q := q + [b];
      AppendLinked(old(bufs), bufs, old(idequeue), old(q), b);
    }

    /** The machine has taken this step. */
    ghost predicate Took(step: Step, s: Sys)
      reads this
    {
      Enabled(s, step) && S() == Next(s, step)
    }

    /** iderw's append and start. */
    method Enqueue(b: nat)
      requires Ok(bufs, idequeue, q, ctl, disk) && b < |bufs| && b !in q && !Clean(bufs[b]) && bufs[b].blockno < |disk|
      modifies `bufs, `idequeue, `ctl, `q, `submitted
      ensures Ok(bufs, idequeue, q, ctl, disk) && Took(Step.Submit(b), old(S()))
    {
      Append(b);
      EraseSame(old(bufs), bufs);
      assert q[0] == if old(q) == [] then b else old(q)[0];
      if idequeue == Some(b) {
        Start(b);
      }
      submitted := submitted + [b];
    }

    /** iderw until it waits: the request is last in the queue, and nothing else is different. A buffer that
        asks for nothing is a panic, "iderw: nothing to do". */
    method Submit(b: nat) returns (panicked: bool)
      requires Valid() && b < |bufs| && b !in q && bufs[b].blockno < |disk|
      modifies `bufs, `idequeue, `ctl, `q, `submitted, `steps
      ensures Valid() && (panicked <==> Clean(old(bufs)[b])) && (panicked ==> S() == old(S()))
      ensures !panicked ==> Took(Step.Submit(b), old(S())) && steps == old(steps) + [Step.Submit(b)]
    {
      if bufs[b].valid && !bufs[b].dirty {
        return true;
      }
      RunMore(init, steps, S(), Step.Submit(b));
      Enqueue(b);
      steps := steps + [Step.Submit(b)];
      panicked := false;
    }

    /** The transfer of one command. */
    method Transfer()
      requires Ok(bufs, idequeue, q, ctl, disk) && ctl.Busy?
      modifies `ctl, `disk, `ops
      ensures Ok(bufs, idequeue, q, ctl, disk) && ctl.Done? && Took(Step.Device, old(S()))
      ensures disk == SyncDisk(old(disk), bufs[q[0]])
    {
      if ctl.cmd.Write? {
        disk := disk[ctl.cmd.n := ctl.cmd.data];
        ctl := Done(None);
      } else {
        ctl := Done(Some(disk[ctl.cmd.n]));
      }
      ops := ops + [Rw(q[0])];
    }

    /** The controller carries out its command, before it interrupts. */
    method Device()
      requires Valid() && ctl.Busy?
      modifies `ctl, `disk, `ops, `steps
      ensures Valid() && ctl.Done? && Took(Step.Device, old(S())) && steps == old(steps) + [Step.Device]
      ensures disk == SyncDisk(old(disk), bufs[q[0]])
    {
      RunMore(init, steps, S(), Step.Device);
      Transfer();
      steps := steps + [Step.Device];
    }

    /** The part of ideintr that takes the oldest request off the queue and fills its buffer. */
    method Pop() returns (b: nat)
      requires Ok(bufs, idequeue, q, ctl, disk) && ctl.Done?
      modifies `bufs, `idequeue, `q
      ensures q == old(q)[1..] && b == old(q)[0] && |bufs| == |old(bufs)| && Linked(bufs, idequeue, q)
      ensures b < |bufs| && bufs == old(bufs)[b := Served(old(bufs)[b], ctl.latch)]
    {
      b := idequeue.value;
      assert LinkAt(bufs, q, 0);
      idequeue := bufs[b].qnext;
      q := q[1..];
      if !bufs[b].dirty {
        bufs := bufs[b := bufs[b].(data := ctl.latch.value)];
      }
      bufs := bufs[b := bufs[b].(valid := true, dirty := false)];
      PopLinked(old(bufs), bufs, old(q), b);
    }

    /** ideintr's work on the queue and the controller. */
    method Dequeue() returns (b: nat)
      requires Ok(bufs, idequeue, q, ctl, disk) && ctl.Done?
      modifies `bufs, `idequeue, `ctl, `q, `completed
      ensures Ok(bufs, idequeue, q, ctl, disk) && Took(Step.Interrupt, old(S())) && b == old(q)[0]
      ensures b < |bufs| == |old(bufs)| && bufs[b] == Served(old(bufs)[b], old(ctl).latch)
    {
      ghost var s := S();
      EraseServes(bufs, q, ctl, disk);
      InterruptServes(s);
      b := Pop();
      ErasePut(old(bufs), b, Served(old(bufs)[b], ctl.latch));
      ctl := Idle;
      if idequeue.Some? {
        Start(idequeue.value);
      }
      completed := completed + [b];
      assert S() == Next(s, Step.Interrupt);
      EraseServes(bufs, q, ctl, disk);
    }

    /** ideintr: the oldest request leaves the queue, and its buffer is as memide.c would have left it. */
    method Interrupt() returns (b: nat)
      requires Valid() && ctl.Done?
      modifies `bufs, `idequeue, `ctl, `q, `completed, `steps
      ensures Valid() && Took(Step.Interrupt, old(S())) && steps == old(steps) + [Step.Interrupt]
      ensures b == old(q)[0] && b < |bufs| == |old(bufs)|
      ensures bufs[b] == SyncBuf(disk, old(bufs)[b])
    {
      RunMore(init, steps, S(), Step.Interrupt);
      b := Dequeue();
      steps := steps + [Step.Interrupt];
    }

    /** The holder of buffer b, which does not wait in iderw, changes it. */
    method Change(b: nat, x: Buf)
      requires Valid() && b < |bufs| && b !in q && x.qnext == None
      modifies `bufs, `ops, `steps
      ensures Valid() && Took(Step.Change(b, x), old(S())) && steps == old(steps) + [Step.Change(b, x)]
    {
      ghost var s := S();
      ghost var y := x.(qnext := bufs[b].qnext);
      ErasePut(bufs, b, y);
      bufs := bufs[b := x.(qnext := bufs[b].qnext)];
      ChangeLinked(old(bufs), bufs, idequeue, q, b);
      ops := ops + [Client(b, x)];
      RunMore(init, steps, s, Step.Change(b, x));
      steps := steps + [Step.Change(b, x)];
    }
  }

  lemma ChangeLinked(bufs: seq<Buf>, bufs': seq<Buf>, head: Option<nat>, q: seq<nat>, b: nat)
    requires Linked(bufs, head, q) && b < |bufs| == |bufs'| && b !in q
    requires forall i :: 0 <= i < |bufs| && i != b ==> bufs'[i] == bufs[i]
    ensures Linked(bufs', head, q)
  {
    forall i | 0 <= i < |q|
      ensures LinkAt(bufs', q, i)
    {
      assert LinkAt(bufs, q, i);
    }
  }
}
