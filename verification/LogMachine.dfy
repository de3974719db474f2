/** log.c as a state machine: any number of operations, readers and cache evictions interleaved with
    group commit and with crashes between any two disk writes. */
module LogMachine {
  import opened Common
  import opened Params
  import opened Blocks
  import opened LogFormat

  /** A cached block. `holder` is the process that has the buffer locked. `modified` says the holder
      has changed the data and not yet called log_write. */
  datatype Entry = Entry(data: Block, dirty: bool, holder: Option<nat>, modified: bool)

  /** How far commit() or recover_from_log() has come. Each step to the next phase performs at most
      one disk write. */
  datatype Phase =
    | Running // log.committing == 0
    | WritingLog(k: nat) // write_log has written k log blocks
    | Installing(k: nat) // the header is on disk, install_trans has written k home blocks
    | Erased // the header on disk is empty again, log.committing still 1
    | Booting // after a crash, before read_head
    | Recovering(k: nat) // read_head done, install_trans has written k home blocks

  /** One log_write: which operation logged which contents for which block. */
  datatype Write = Write(op: nat, blockno: nat, data: Block)

  /** `lh` and `outstanding` are the fields of the same name. `ops` maps each operation between
      begin_op and end_op to the number of entries it has added to the log. The last five fields
      are history: nothing reads them. `over` says that some operation added more than MAXOPBLOCKS
      entries. */
  datatype State = State(
    disk: Disk, cache: map<nat, Entry>, lh: seq<nat>, outstanding: int, phase: Phase,
    ops: map<nat, nat>, nextOp: nat, cur: seq<Write>, done: seq<seq<Write>>, init: Disk, over: bool)

  datatype Step =
    | Begin(op: nat)
    | Read(p: nat, b: nat)
    | Modify(p: nat, b: nat, data: Block)
    | LogWrite(p: nat, b: nat)
    | Release(p: nat, b: nat)
    | Evict(b: nat)
    | End(op: nat)
    | WriteLogBlock
    | WriteHead
    | InstallBlock
    | Erase
    | Finish
    | Crash
    | ReadHead

  /** A step that is not enabled (the process sleeps, or the caller breaks the protocol of bio.c and
      log.c) is Stuck; Panicked is a call of panic. */
  datatype Outcome = Ok(s: State) | Stuck | Panicked

  /** What bread of block b delivers. */
  function View(s: State, b: nat): Block
    requires b < |s.disk|
  {
    if b in s.cache then s.cache[b].data else s.disk[b]
  }

  predicate Free(s: State, b: nat) {
    b in s.cache ==> s.cache[b].holder == None
  }

  /** log.lh.block after log_write of block b. */
  function Absorb(lh: seq<nat>, b: nat): seq<nat> {
    if b in lh then lh else lh + [b]
  }

  /** The cache after a bwrite of block b followed by brelse. */
  function Written(s: State, b: nat, data: Block): (s': State)
    requires b < |s.disk|
  {
    s.(disk := s.disk[b := data], cache := s.cache[b := Entry(data, false, None, false)])
  }

  function Next(g: Geometry, s: State, step: Step): (o: Outcome)
    requires GoodGeometry(g, |s.disk|)
    ensures o.Ok? ==> |o.s.disk| == |s.disk| && o.s.init == s.init
  {
    match step
    case Begin(op) =>
      if s.phase != Running || |s.lh| + (s.outstanding + 1) * MAXOPBLOCKS > LOGSIZE || op != s.nextOp then Stuck
      else Ok(s.(outstanding := s.outstanding + 1, ops := s.ops[op := 0], nextOp := op + 1))
    case Read(p, b) =>
      if b >= |s.disk| || !Free(s, b) || s.phase == Booting then Stuck
      else
        var e := if b in s.cache then s.cache[b] else Entry(s.disk[b], false, None, false);
        Ok(s.(cache := s.cache[b := e.(holder := Some(p))]))
    case Modify(p, b, data) =>
      if p !in s.ops || b !in s.cache || s.cache[b].holder != Some(p) || !Home(g, |s.disk|, b) then Stuck
      else Ok(s.(cache := s.cache[b := s.cache[b].(data := data, modified := true)]))
    case LogWrite(p, b) =>
      if p !in s.ops || b !in s.cache || s.cache[b].holder != Some(p) || !Home(g, |s.disk|, b) then Stuck
      else if |s.lh| >= LOGSIZE || |s.lh| >= g.size - 1 then Panicked // "too big a transaction"
      else if s.outstanding < 1 then Panicked // "log_write outside of trans"
      else
        var used := s.ops[p] + if b in s.lh then 0 else 1;
        Ok(s.(lh := Absorb(s.lh, b), cache := s.cache[b := s.cache[b].(dirty := true, modified := false)],
              ops := s.ops[p := used], over := s.over || used > MAXOPBLOCKS,
              cur := s.cur + [Write(p, b, s.cache[b].data)]))
    case Release(p, b) =>
      if b !in s.cache || s.cache[b].holder != Some(p) || s.cache[b].modified then Stuck
      else Ok(s.(cache := s.cache[b := s.cache[b].(holder := None)]))
    case Evict(b) =>
      if b !in s.cache || s.cache[b].holder != None || s.cache[b].dirty then Stuck
      else Ok(s.(cache := s.cache - {b}))
    case End(op) =>
      if op !in s.ops || (exists b | b in s.cache :: s.cache[b].holder == Some(op) && s.cache[b].modified) then Stuck
      else if s.phase != Running then Panicked // "log.committing"
      else
        var n := s.outstanding - 1;
        Ok(s.(outstanding := n, ops := s.ops - {op}, phase := if n == 0 then WritingLog(0) else Running))
    case WriteLogBlock =>
      if !s.phase.WritingLog? || s.phase.k >= |s.lh| then Stuck
      else
        var to, from := g.start + 1 + s.phase.k, s.lh[s.phase.k];
        if to >= |s.disk| || from >= |s.disk| || !Free(s, to) || !Free(s, from) then Stuck
        else Ok(Written(s, to, View(s, from)).(phase := WritingLog(s.phase.k + 1)))
    case WriteHead =>
      if !s.phase.WritingLog? || s.phase.k != |s.lh| || |s.lh| == 0 || !Free(s, g.start) || !Encodable(s.lh) then Stuck
      else Ok(Written(s, g.start, PutHeader(View(s, g.start), s.lh, |s.lh|))
              .(phase := Installing(0), done := s.done + [s.cur], cur := []))
    case InstallBlock =>
      if !(s.phase.Installing? || s.phase.Recovering?) || s.phase.k >= |s.lh| then Stuck
      else
        var from, to := g.start + 1 + s.phase.k, s.lh[s.phase.k];
        if to >= |s.disk| || from >= |s.disk| || !Free(s, to) || !Free(s, from) then Stuck
        else
          var next := if s.phase.Installing? then Installing(s.phase.k + 1) else Recovering(s.phase.k + 1);
          Ok(Written(s, to, View(s, from)).(phase := next))
    case Erase =>
      if !(s.phase.Installing? || s.phase.Recovering?) || s.phase.k != |s.lh| || !Free(s, g.start) then Stuck
      else Ok(Written(s, g.start, PutHeader(View(s, g.start), [], 0))
              .(phase := if s.phase.Installing? then Erased else Running, lh := []))
    case Finish =>
      if s.phase == Erased || (s.phase == WritingLog(0) && s.lh == []) then Ok(s.(phase := Running)) else Stuck
    case Crash =>
      Ok(s.(cache := map[], lh := [], outstanding := 0, phase := Booting, ops := map[], cur := []))
    case ReadHead =>
      if s.phase != Booting then Stuck
      else Ok(s.(phase := Recovering(0), lh := HeaderOf(View(s, g.start))))
  }

  /** The list can be written into a header: it fits lh.block, and its entries fit an int. */
  predicate Encodable(h: seq<nat>) {
    |h| <= LOGSIZE && forall i :: 0 <= i < |h| ==> h[i] < UINT
  }

  /** A kernel that has just booted on disk d. Its initial contents are those recovery will give. */
  function Boot(g: Geometry, d: Disk): State
    requires GoodGeometry(g, |d|) && GoodHeader(g, |d|, HeaderOf(d[g.start]))
  {
    State(d, map[], [], 0, Booting, map[], 0, [], [], Recover(g, d), false)
  }

  /** The outcome of a run: the steps in order, until one is stuck or panics. */
  function Run(g: Geometry, s: State, steps: seq<Step>): (o: Outcome)
    requires GoodGeometry(g, |s.disk|)
    ensures o.Ok? ==> |o.s.disk| == |s.disk| && o.s.init == s.init
    decreases |steps|
  {
    if steps == [] then Ok(s)
    else match Next(g, s, steps[0])
      case Ok(s') => Run(g, s', steps[1..])
      case o => o
  }
}
