/** Crash safety of every run of the log: the disk always recovers to whole committed transactions. */
module LogSafety {
  import opened Common
  import opened Params
  import opened Blocks
  import opened LogFormat
  import opened LogMachine

  // ---------- What a list of writes means ----------

  /** The contents of block b after the writes ws, in order, on top of init. */
  function Effect(init: Disk, ws: seq<Write>, b: nat): Block
    requires b < |init|
  {
    if ws == [] then init[b]
    else if ws[|ws| - 1].blockno == b then ws[|ws| - 1].data
    else Effect(init, ws[..|ws| - 1], b)
  }

  function Flatten(txs: seq<seq<Write>>): seq<Write> {
    if txs == [] then [] else Flatten(txs[..|txs| - 1]) + txs[|txs| - 1]
  }

  /** Every write that has committed or is waiting to. */
  function All(s: State): seq<Write> {
    Flatten(s.done) + s.cur
  }

  lemma {:induction false} EffectUntouched(init: Disk, ws: seq<Write>, more: seq<Write>, b: nat)
    requires b < |init|
    requires forall w :: w in more ==> w.blockno != b
    ensures Effect(init, ws + more, b) == Effect(init, ws, b)
  {
    if more == [] {
      assert ws + more == ws;
    } else {
      var last := more[|more| - 1];
      assert last in more;
      assert (ws + more)[..|ws + more| - 1] == ws + more[..|more| - 1];
      EffectUntouched(init, ws, more[..|more| - 1], b);
    }
  }

  lemma EffectSnoc(init: Disk, ws: seq<Write>, w: Write, b: nat)
    requires b < |init|
    ensures Effect(init, ws + [w], b) == if w.blockno == b then w.data else Effect(init, ws, b)
  {
    assert (ws + [w])[..|ws + [w]| - 1] == ws;
  }

  // ---------- The invariant ----------

  /** Blocks that must stay in the cache: logged and not yet installed. */
  function Pinned(s: State): seq<nat> {
    match s.phase
    case Running => s.lh
    case WritingLog(_) => s.lh
    case Installing(k) => if k <= |s.lh| then s.lh[k..] else []
    case _ => []
  }

  /** Recovering d gives the effect of ws: the listed blocks through the log, the others in place. */
  ghost predicate Recoverable(g: Geometry, d: Disk, init: Disk, ws: seq<Write>)
    requires GoodGeometry(g, |d|) && |init| == |d|
  {
    var h := HeaderOf(d[g.start]);
    && GoodHeader(g, |d|, h)
    && (forall j :: 0 <= j < |h| ==> d[g.start + 1 + j] == Effect(init, ws, h[j]))
    && (forall b: nat :: Home(g, |d|, b) && b !in h ==> d[b] == Effect(init, ws, b))
  }

  ghost predicate Shape(g: Geometry, s: State) {
    && GoodGeometry(g, |s.disk|)
    && |s.init| == |s.disk|
    && GoodHeader(g, |s.disk|, s.lh)
    && s.outstanding == |s.ops|
    && (forall op :: op in s.ops ==> op < s.nextOp)
    && (s.phase != Running ==> s.ops == map[])
    && (!(s.phase.Running? || s.phase.WritingLog?) ==> s.cur == [])
    && (s.phase.WritingLog? || s.phase.Installing? || s.phase.Recovering? ==> s.phase.k <= |s.lh|)
    && (s.phase.Erased? || s.phase.Booting? ==> s.lh == [])
    && (s.phase.Booting? ==> s.cache == map[])
    && (forall w :: w in s.cur ==> w.blockno in s.lh)
  }

  ghost predicate DiskOk(g: Geometry, s: State)
    requires Shape(g, s)
  {
    && Recoverable(g, s.disk, s.init, Flatten(s.done))
    && (s.phase.Running? || s.phase.WritingLog? || s.phase.Erased? ==> HeaderOf(s.disk[g.start]) == [])
    && (s.phase.Installing? || s.phase.Recovering? ==>
          && HeaderOf(s.disk[g.start]) == s.lh
          && forall j :: 0 <= j < s.phase.k ==> s.disk[s.lh[j]] == Effect(s.init, Flatten(s.done), s.lh[j]))
    && (s.phase.WritingLog? ==>
          forall j :: 0 <= j < s.phase.k ==> s.disk[g.start + 1 + j] == Effect(s.init, All(s), s.lh[j]))
  }

  ghost predicate EntryOk(g: Geometry, s: State, b: nat, e: Entry)
    requires Shape(g, s)
  {
    && b < |s.disk|
    && (e.dirty <==> b in Pinned(s))
    && (e.modified ==> e.holder.Some? && e.holder.value in s.ops && Home(g, |s.disk|, b))
    && (!e.modified ==> e.data == if e.dirty then Effect(s.init, All(s), b) else s.disk[b])
  }

  ghost predicate CacheOk(g: Geometry, s: State)
    requires Shape(g, s)
  {
    && (forall b :: b in s.cache ==> EntryOk(g, s, b, s.cache[b]))
    && (forall b :: b in Pinned(s) ==> b in s.cache)
  }

  /** No operation is split: the operations of different transactions differ, and those of committed
      transactions have ended. */
  ghost predicate WholeOps(s: State) {
    && (forall i, w :: 0 <= i < |s.done| && w in s.done[i] ==> w.op < s.nextOp && w.op !in s.ops)
    && (forall w :: w in s.cur ==> w.op < s.nextOp)
    && (forall i, v, w :: 0 <= i < |s.done| && v in s.done[i] && w in s.cur ==> v.op != w.op)
    && (forall i, j, v, w :: 0 <= i < j < |s.done| && v in s.done[i] && w in s.done[j] ==> v.op != w.op)
  }

  ghost predicate Inv(g: Geometry, s: State) {
    Shape(g, s) && DiskOk(g, s) && CacheOk(g, s)
  }

  // ---------- Steps of operations and readers ----------

  lemma BegunShape(g: Geometry, s: State, s': State, op: nat)
    requires Shape(g, s) && s.phase == Running && op == s.nextOp
    requires s' == s.(outstanding := s.outstanding + 1, ops := s.ops[op := 0], nextOp := op + 1)
    ensures Shape(g, s')
  {
    assert s'.ops.Keys == s.ops.Keys + {op};
  }

  lemma BegunCache(g: Geometry, s: State, s': State, op: nat)
    requires Shape(g, s) && CacheOk(g, s) && Shape(g, s')
    requires s' == s.(outstanding := s.outstanding + 1, ops := s.ops[op := 0], nextOp := op + 1)
    ensures CacheOk(g, s')
  {
    assert Pinned(s') == Pinned(s);
    forall b | b in s.cache
      ensures EntryOk(g, s', b, s.cache[b])
    {
      assert EntryOk(g, s, b, s.cache[b]);
    }
  }

  lemma BeginInv(g: Geometry, s: State, op: nat)
    requires Inv(g, s) && Next(g, s, Begin(op)).Ok?
    ensures Inv(g, Next(g, s, Begin(op)).s)
  {
    var s' := Next(g, s, Begin(op)).s;
    BegunShape(g, s, s', op);
    BegunCache(g, s, s', op);
  }

  lemma ReadInv(g: Geometry, s: State, p: nat, b: nat)
    requires Inv(g, s) && Next(g, s, Read(p, b)).Ok?
    ensures Inv(g, Next(g, s, Read(p, b)).s)
  {
    var s' := Next(g, s, Read(p, b)).s;
    assert Pinned(s') == Pinned(s);
    forall c | c in s'.cache
      ensures EntryOk(g, s', c, s'.cache[c])
    {
      assert c in s.cache ==> EntryOk(g, s, c, s.cache[c]);
    }
  }

  lemma ModifyInv(g: Geometry, s: State, p: nat, b: nat, data: Block)
    requires Inv(g, s) && Next(g, s, Modify(p, b, data)).Ok?
    ensures Inv(g, Next(g, s, Modify(p, b, data)).s)
  {
    var s' := Next(g, s, Modify(p, b, data)).s;
    forall c | c in s'.cache
      ensures EntryOk(g, s', c, s'.cache[c])
    {
      assert EntryOk(g, s, c, s.cache[c]);
    }
  }

  lemma ReleaseInv(g: Geometry, s: State, p: nat, b: nat)
    requires Inv(g, s) && Next(g, s, Release(p, b)).Ok?
    ensures Inv(g, Next(g, s, Release(p, b)).s)
  {
    var s' := Next(g, s, Release(p, b)).s;
    forall c | c in s'.cache
      ensures EntryOk(g, s', c, s'.cache[c])
    {
      assert EntryOk(g, s, c, s.cache[c]);
    }
  }

  lemma EvictInv(g: Geometry, s: State, b: nat)
    requires Inv(g, s) && Next(g, s, Evict(b)).Ok?
    ensures Inv(g, Next(g, s, Evict(b)).s)
  {
    var s' := Next(g, s, Evict(b)).s;
    assert EntryOk(g, s, b, s.cache[b]);
    forall c | c in s'.cache
      ensures EntryOk(g, s', c, s'.cache[c])
    {
      assert EntryOk(g, s, c, s.cache[c]);
    }
  }

  lemma EndInv(g: Geometry, s: State, op: nat)
    requires Inv(g, s) && Next(g, s, End(op)).Ok?
    ensures Inv(g, Next(g, s, End(op)).s)
  {
    var s' := Next(g, s, End(op)).s;
    assert s'.ops.Keys == s.ops.Keys - {op};
    assert |s'.ops| == |s'.ops.Keys| && |s.ops| == |s.ops.Keys|;
    forall c | c in s'.cache
      ensures EntryOk(g, s', c, s'.cache[c])
    {
      assert EntryOk(g, s, c, s.cache[c]);
    }
  }

  /** Absorption keeps the list of logged blocks free of repetition and inside the log. */
  lemma AbsorbGood(g: Geometry, n: nat, lh: seq<nat>, b: nat)
    requires GoodHeader(g, n, lh) && Home(g, n, b)
    requires b in lh || (|lh| < LOGSIZE && |lh| < g.size - 1)
    ensures GoodHeader(g, n, Absorb(lh, b))
    ensures b in Absorb(lh, b)
    ensures forall c :: c in Absorb(lh, b) <==> c == b || c in lh
  {
    var h := Absorb(lh, b);
    forall i, j | 0 <= i < j < |h|
      ensures h[i] != h[j]
    {
      assert i < |lh| && h[i] == lh[i];
    }
  }

  lemma LogWriteShape(g: Geometry, s: State, p: nat, b: nat)
    requires Inv(g, s) && Next(g, s, LogWrite(p, b)).Ok?
    ensures Shape(g, Next(g, s, LogWrite(p, b)).s)
    ensures s.phase == Running
  {
    var s' := Next(g, s, LogWrite(p, b)).s;
    assert p in s.ops.Keys;
    AbsorbGood(g, |s.disk|, s.lh, b);
    assert s'.ops.Keys == s.ops.Keys;
    assert |s'.ops| == |s'.ops.Keys| && |s.ops| == |s.ops.Keys|;
  }

  lemma LogWriteInv(g: Geometry, s: State, p: nat, b: nat)
    requires Inv(g, s) && Next(g, s, LogWrite(p, b)).Ok?
    ensures Inv(g, Next(g, s, LogWrite(p, b)).s)
  {
    var s' := Next(g, s, LogWrite(p, b)).s;
    LogWriteShape(g, s, p, b);
    AbsorbGood(g, |s.disk|, s.lh, b);
    var w := Write(p, b, s.cache[b].data);
    assert All(s') == All(s) + [w];
    forall c | c in s'.cache
      ensures EntryOk(g, s', c, s'.cache[c])
    {
      assert EntryOk(g, s, c, s.cache[c]);
      EffectSnoc(s.init, All(s), w, c);
    }
  }

  // ---------- Steps of commit and recovery ----------

  /** When no operation is active, every cached block outside the pinned ones agrees with the disk. */
  lemma ViewOf(g: Geometry, s: State, b: nat)
    requires Inv(g, s) && s.ops == map[] && b < |s.disk|
    ensures View(s, b) == if b in Pinned(s) then Effect(s.init, All(s), b) else s.disk[b]
  {
    if b in s.cache {
      assert EntryOk(g, s, b, s.cache[b]);
    }
  }

  /** A bwrite of a block that is not pinned afterwards keeps the cache in order, if the entries that
      are pinned afterwards were pinned before. */
  lemma WrittenCache(g: Geometry, s: State, s': State, b: nat, data: Block)
    requires Inv(g, s) && s.ops == map[] && Shape(g, s') && s'.ops == map[] && s'.init == s.init
    requires b < |s.disk| && s'.disk == s.disk[b := data]
    requires s'.cache == s.cache[b := Entry(data, false, None, false)]
    requires All(s') == All(s)
    requires forall c :: c in Pinned(s') <==> c in Pinned(s) && c != b
    ensures CacheOk(g, s')
  {
    forall c | c in s'.cache
      ensures EntryOk(g, s', c, s'.cache[c])
    {
      assert c in s.cache ==> EntryOk(g, s, c, s.cache[c]);
    }
  }

  /** Writing a log block changes nothing that recovery looks at while the header is empty. */
  lemma LogBlockHarmless(g: Geometry, d: Disk, to: nat, data: Block, init: Disk, ws: seq<Write>)
    requires GoodGeometry(g, |d|) && |init| == |d| && g.start < to < g.start + g.size
    requires Recoverable(g, d, init, ws) && HeaderOf(d[g.start]) == []
    ensures Recoverable(g, d[to := data], init, ws)
  {
    assert d[to := data][g.start] == d[g.start];
  }

  lemma LogBlockDisk(g: Geometry, s: State, s': State, k: nat, next: nat, to: nat, data: Block)
    requires Shape(g, s) && DiskOk(g, s) && s.phase == WritingLog(k) && next == k + 1 <= |s.lh| && to == g.start + next
    requires data == Effect(s.init, All(s), s.lh[k])
    requires s' == s.(disk := s.disk[to := data], cache := s'.cache, phase := WritingLog(next))
    ensures Shape(g, s') && DiskOk(g, s')
  {
    assert All(s') == All(s);
    LogBlockHarmless(g, s.disk, to, data, s.init, Flatten(s.done));
    assert s'.disk[g.start] == s.disk[g.start];
  }

  /** What the step does. */
  lemma WriteLogBlockIs(g: Geometry, s: State, k: nat, next: nat, to: nat)
    requires GoodGeometry(g, |s.disk|) && Next(g, s, WriteLogBlock).Ok? && k == s.phase.k && next == k + 1
    requires to == g.start + next
    ensures s.phase == WritingLog(k) && k < |s.lh| && s.lh[k] < |s.disk| && to < |s.disk|
    ensures Next(g, s, WriteLogBlock).s == Written(s, to, View(s, s.lh[k])).(phase := WritingLog(next))
  {
  }

  lemma WriteLogBlockDisk(g: Geometry, s: State, s': State, k: nat, next: nat, to: nat)
    requires Inv(g, s) && s.phase == WritingLog(k) && next == k + 1 <= |s.lh| && to == g.start + next < |s.disk|
    requires s' == Written(s, to, View(s, s.lh[k])).(phase := WritingLog(next))
    ensures Shape(g, s') && DiskOk(g, s')
  {
    ViewOf(g, s, s.lh[k]);
    assert s.lh[k] in Pinned(s);
    LogBlockDisk(g, s, s', k, next, to, View(s, s.lh[k]));
  }

  lemma WriteLogBlockCache(g: Geometry, s: State, s': State, k: nat, next: nat, to: nat)
    requires Inv(g, s) && s.phase == WritingLog(k) && next == k + 1 <= |s.lh| && to == g.start + next < |s.disk|
    requires s' == Written(s, to, View(s, s.lh[k])).(phase := WritingLog(next)) && Shape(g, s')
    ensures CacheOk(g, s')
  {
    assert Pinned(s') == Pinned(s) && to !in s.lh;
    WrittenCache(g, s, s', to, View(s, s.lh[k]));
  }

  lemma WriteLogBlockInv(g: Geometry, s: State)
    requires Inv(g, s) && Next(g, s, WriteLogBlock).Ok?
    ensures Inv(g, Next(g, s, WriteLogBlock).s)
  {
    var s', k := Next(g, s, WriteLogBlock).s, s.phase.k;
    var next := k + 1;
    var to := g.start + next;
    WriteLogBlockIs(g, s, k, next, to);
    WriteLogBlockDisk(g, s, s', k, next, to);
    WriteLogBlockCache(g, s, s', k, next, to);
  }

  /** Writing the header block hb commits: what the disk recovers to gains the current transaction. */
  lemma HeadCommits(g: Geometry, s: State, hb: Block)
    requires Inv(g, s) && s.phase == WritingLog(|s.lh|) && HeaderOf(hb) == s.lh
    ensures Recoverable(g, s.disk[g.start := hb], s.init, All(s))
  {
    var d := s.disk[g.start := hb];
    assert d[g.start] == hb;
    assert forall j {:trigger s.lh[j]} :: 0 <= j < |s.lh| ==> d[g.start + 1 + j] == s.disk[g.start + 1 + j];
    forall b: nat | Home(g, |s.disk|, b) && b !in s.lh
      ensures d[b] == Effect(s.init, All(s), b)
    {
      EffectUntouched(s.init, Flatten(s.done), s.cur, b);
    }
  }

  lemma WriteHeadDisk(g: Geometry, s: State, s': State, hb: Block)
    requires Inv(g, s) && s.phase == WritingLog(|s.lh|) && HeaderOf(hb) == s.lh
    requires s' == Written(s, g.start, hb).(phase := Installing(0), done := s.done + [s.cur], cur := [])
    ensures Shape(g, s') && DiskOk(g, s') && All(s') == All(s)
  {
    HeadCommits(g, s, hb);
    assert s'.done[..|s.done|] == s.done;
    assert Flatten(s'.done) == All(s);
  }

  lemma WriteHeadInv(g: Geometry, s: State)
    requires Inv(g, s) && Next(g, s, WriteHead).Ok?
    ensures Inv(g, Next(g, s, WriteHead).s)
  {
    var s' := Next(g, s, WriteHead).s;
    HeaderRoundTrip(View(s, g.start), s.lh);
    WriteHeadDisk(g, s, s', s'.disk[g.start]);
    assert Pinned(s') == s.lh;
    WrittenCache(g, s, s', g.start, s'.disk[g.start]);
  }

  lemma LogBlockNotPinned(g: Geometry, s: State, b: nat)
    requires Shape(g, s) && g.start <= b < g.start + g.size
    ensures b !in Pinned(s)
  {
    assert b !in s.lh;
  }

  lemma InstallBlockValue(g: Geometry, s: State, k: nat, from: nat)
    requires Inv(g, s) && (s.phase == Installing(k) || s.phase == Recovering(k)) && k < |s.lh|
    requires from == g.start + 1 + k
    ensures View(s, from) == Effect(s.init, Flatten(s.done), s.lh[k])
  {
    LogBlockNotPinned(g, s, from);
    ViewOf(g, s, from);
  }

  /** Installing a listed block with the contents its log block holds changes nothing recovery gives. */
  lemma InstallHarmless(g: Geometry, d: Disk, h: seq<nat>, k: nat, init: Disk, ws: seq<Write>)
    requires GoodGeometry(g, |d|) && |init| == |d|
    requires Recoverable(g, d, init, ws) && HeaderOf(d[g.start]) == h && k < |h|
    ensures Recoverable(g, d[h[k] := Effect(init, ws, h[k])], init, ws)
    ensures HeaderOf(d[h[k] := Effect(init, ws, h[k])][g.start]) == h
  {
    var d' := d[h[k] := Effect(init, ws, h[k])];
    assert d'[g.start] == d[g.start];
    forall j | 0 <= j < |h|
      ensures d'[g.start + 1 + j] == Effect(init, ws, h[j])
    {
      assert d'[g.start + 1 + j] == d[g.start + 1 + j];
    }
  }

  lemma InstallBlockDisk(g: Geometry, s: State, s': State, k: nat, next: nat)
    requires Inv(g, s) && next == k + 1 <= |s.lh|
    requires (s.phase == Installing(k) && s'.phase == Installing(next))
             || (s.phase == Recovering(k) && s'.phase == Recovering(next))
    requires s' == Written(s, s.lh[k], Effect(s.init, Flatten(s.done), s.lh[k])).(phase := s'.phase)
    ensures Shape(g, s') && DiskOk(g, s')
  {
    InstallHarmless(g, s.disk, s.lh, k, s.init, Flatten(s.done));
    forall j | 0 <= j < next
      ensures s'.disk[s.lh[j]] == Effect(s.init, Flatten(s.done), s.lh[j])
    {
    }
  }

  /** Installing block lh[k] unpins that block and no other. */
  lemma InstallUnpins(lh: seq<nat>, k: nat)
    requires Distinct(lh) && k < |lh|
    ensures forall c :: c in lh[k + 1..] <==> c in lh[k..] && c != lh[k]
  {
    assert lh[k..] == [lh[k]] + lh[k + 1..];
    assert lh[k] !in lh[k + 1..];
  }

  lemma InstallBlockCache(g: Geometry, s: State, s': State, k: nat, next: nat, data: Block)
    requires Inv(g, s) && Shape(g, s') && next == k + 1 <= |s.lh|
    requires (s.phase == Installing(k) && s'.phase == Installing(next))
             || (s.phase == Recovering(k) && s'.phase == Recovering(next))
    requires s' == Written(s, s.lh[k], data).(phase := s'.phase)
    ensures CacheOk(g, s')
  {
    InstallUnpins(s.lh, k);
    assert s'.lh == s.lh;
    WrittenCache(g, s, s', s.lh[k], data);
  }

  /** What the step does. */
  lemma InstallBlockIs(g: Geometry, s: State, k: nat, next: nat, from: nat)
    requires GoodGeometry(g, |s.disk|) && Next(g, s, InstallBlock).Ok? && k == s.phase.k
    requires next == k + 1 && from == g.start + 1 + k
    ensures var s' := Next(g, s, InstallBlock).s;
            && from < |s.disk| && next <= |s.lh| && s.lh[k] < |s.disk|
            && ((s.phase == Installing(k) && s'.phase == Installing(next))
                || (s.phase == Recovering(k) && s'.phase == Recovering(next)))
            && s' == Written(s, s.lh[k], View(s, from)).(phase := s'.phase)
  {
  }

  lemma InstallBlockInv(g: Geometry, s: State)
    requires Inv(g, s) && Next(g, s, InstallBlock).Ok?
    ensures Inv(g, Next(g, s, InstallBlock).s)
  {
    var s', k := Next(g, s, InstallBlock).s, s.phase.k;
    var from, next := g.start + 1 + k, k + 1;
    InstallBlockIs(g, s, k, next, from);
    InstallBlockValue(g, s, k, from);
    InstallBlockDisk(g, s, s', k, next);
    InstallBlockCache(g, s, s', k, next, View(s, from));
  }

  /** Erasing the header once every listed block is installed changes nothing recovery gives. */
  lemma EraseHarmless(g: Geometry, d: Disk, h: seq<nat>, hb: Block, init: Disk, ws: seq<Write>)
    requires GoodGeometry(g, |d|) && |init| == |d|
    requires Recoverable(g, d, init, ws) && HeaderOf(d[g.start]) == h && HeaderOf(hb) == []
    requires forall j :: 0 <= j < |h| ==> d[h[j]] == Effect(init, ws, h[j])
    ensures Recoverable(g, d[g.start := hb], init, ws)
  {
    var d' := d[g.start := hb];
    assert d'[g.start] == hb;
    forall b: nat | Home(g, |d|, b)
      ensures d'[b] == Effect(init, ws, b)
    {
      if b in h {
        var j :| 0 <= j < |h| && h[j] == b;
      }
    }
  }

  lemma EraseDisk(g: Geometry, s: State, s': State, hb: Block)
    requires Inv(g, s) && (s.phase == Installing(|s.lh|) || s.phase == Recovering(|s.lh|)) && HeaderOf(hb) == []
    requires s' == Written(s, g.start, hb).(phase := if s.phase.Installing? then Erased else Running, lh := [])
    ensures Shape(g, s') && DiskOk(g, s')
  {
    EraseHarmless(g, s.disk, s.lh, hb, s.init, Flatten(s.done));
    assert GoodHeader(g, |s.disk|, []);
  }

  lemma EraseInv(g: Geometry, s: State)
    requires Inv(g, s) && Next(g, s, Erase).Ok?
    ensures Inv(g, Next(g, s, Erase).s)
  {
    var s' := Next(g, s, Erase).s;
    HeaderRoundTrip(View(s, g.start), []);
    EraseDisk(g, s, s', s'.disk[g.start]);
    assert Pinned(s) == [] && Pinned(s') == [];
    WrittenCache(g, s, s', g.start, s'.disk[g.start]);
  }

  lemma FinishInv(g: Geometry, s: State)
    requires Inv(g, s) && Next(g, s, Finish).Ok?
    ensures Inv(g, Next(g, s, Finish).s)
  {
    var s' := Next(g, s, Finish).s;
    forall c | c in s'.cache
      ensures EntryOk(g, s', c, s'.cache[c])
    {
      assert c in s.cache ==> EntryOk(g, s, c, s.cache[c]);
    }
  }

  lemma CrashInv(g: Geometry, s: State)
    requires Inv(g, s)
    ensures Next(g, s, Crash).Ok? && Inv(g, Next(g, s, Crash).s)
  {
    assert GoodHeader(g, |s.disk|, []);
  }

  lemma ReadHeadInv(g: Geometry, s: State)
    requires Inv(g, s) && Next(g, s, ReadHead).Ok?
    ensures Inv(g, Next(g, s, ReadHead).s)
  {
  }

  lemma StepInv(g: Geometry, s: State, step: Step)
    requires Inv(g, s) && Next(g, s, step).Ok?
    ensures Inv(g, Next(g, s, step).s)
  {
    match step
    case Begin(op) => BeginInv(g, s, op);
    case Read(p, b) => ReadInv(g, s, p, b);
    case Modify(p, b, data) => ModifyInv(g, s, p, b, data);
    case LogWrite(p, b) => LogWriteInv(g, s, p, b);
    case Release(p, b) => ReleaseInv(g, s, p, b);
    case Evict(b) => EvictInv(g, s, b);
    case End(op) => EndInv(g, s, op);
    case WriteLogBlock => WriteLogBlockInv(g, s);
    case WriteHead => WriteHeadInv(g, s);
    case InstallBlock => InstallBlockInv(g, s);
    case Erase => EraseInv(g, s);
    case Finish => FinishInv(g, s);
    case Crash => CrashInv(g, s);
    case ReadHead => ReadHeadInv(g, s);
  }

  /** A completed recovery, block by block. */
  lemma RecoverAt(g: Geometry, d: Disk)
    requires GoodGeometry(g, |d|) && GoodHeader(g, |d|, HeaderOf(d[g.start]))
    ensures var h := HeaderOf(d[g.start]);
            && (forall j :: 0 <= j < |h| ==> Recover(g, d)[h[j]] == d[g.start + 1 + j])
            && (forall b: nat :: Home(g, |d|, b) && b !in h ==> Recover(g, d)[b] == d[b])
            && HeaderOf(Recover(g, d)[g.start]) == []
  {
    var h := HeaderOf(d[g.start]);
    InstallAt(g, d, h, |h|);
    assert h[..|h|] == h;
    HeaderRoundTrip(Install(g, d, h, |h|)[g.start], []);
  }

  lemma RecoverableFrom(g: Geometry, d: Disk, init: Disk, h: seq<nat>)
    requires GoodGeometry(g, |d|) && |init| == |d| && h == HeaderOf(d[g.start]) && GoodHeader(g, |d|, h)
    requires forall j :: 0 <= j < |h| ==> init[h[j]] == d[g.start + 1 + j]
    requires forall b: nat :: Home(g, |d|, b) && b !in h ==> init[b] == d[b]
    ensures Recoverable(g, d, init, [])
  {
    forall b: nat | b < |d|
      ensures Effect(init, [], b) == init[b]
    {
    }
  }

  lemma BootRecoverable(g: Geometry, d: Disk)
    requires GoodGeometry(g, |d|) && GoodHeader(g, |d|, HeaderOf(d[g.start]))
    ensures Recoverable(g, d, Recover(g, d), [])
  {
    RecoverAt(g, d);
    RecoverableFrom(g, d, Recover(g, d), HeaderOf(d[g.start]));
  }

  lemma BootInv(g: Geometry, d: Disk)
    requires GoodGeometry(g, |d|) && GoodHeader(g, |d|, HeaderOf(d[g.start]))
    ensures Inv(g, Boot(g, d)) && WholeOps(Boot(g, d))
  {
    BootRecoverable(g, d);
    assert GoodHeader(g, |d|, []);
  }

  lemma StepWholeOps(g: Geometry, s: State, step: Step)
    requires Shape(g, s) && WholeOps(s) && Next(g, s, step).Ok?
    ensures WholeOps(Next(g, s, step).s)
  {
    var s' := Next(g, s, step).s;
    match step
    case WriteHead =>
      CommitWholeOps(s);
    case LogWrite(p, b) =>
      SameWholeOps(s, s', p);
    case _ =>
      SameWholeOps(s, s', s.nextOp);
  }

  /** A step that commits nothing, writes only for the running operation p, and begins at most
      operation nextOp. */
  lemma SameWholeOps(s: State, s': State, p: nat)
    requires WholeOps(s) && s'.done == s.done && s.nextOp <= s'.nextOp
    requires forall w :: w in s'.cur ==> w in s.cur || (w.op == p && p in s.ops && p < s.nextOp)
    requires forall op :: op in s'.ops ==> op in s.ops || op == s.nextOp
    ensures WholeOps(s')
  {
  }

  lemma CommitWholeOps(s: State)
    requires WholeOps(s) && s.ops == map[]
    ensures WholeOps(s.(done := s.done + [s.cur], cur := []))
  {
    var done := s.done + [s.cur];
    assert forall i :: 0 <= i < |s.done| ==> done[i] == s.done[i];
  }

  lemma {:induction false} RunInv(g: Geometry, s: State, steps: seq<Step>)
    requires Inv(g, s) && WholeOps(s) && Run(g, s, steps).Ok?
    ensures Inv(g, Run(g, s, steps).s) && WholeOps(Run(g, s, steps).s)
    decreases |steps|
  {
    if steps != [] {
      StepInv(g, s, steps[0]);
      StepWholeOps(g, s, steps[0]);
      RunInv(g, Next(g, s, steps[0]).s, steps[1..]);
    }
  }

  // ---------- The theorems ----------

  /** Recovering a recoverable disk gives the effect of ws on every home block. */
  lemma RecoverGives(g: Geometry, d: Disk, init: Disk, ws: seq<Write>)
    requires GoodGeometry(g, |d|) && |init| == |d| && Recoverable(g, d, init, ws)
    ensures forall b: nat :: Home(g, |d|, b) ==> Recover(g, d)[b] == Effect(init, ws, b)
  {
    var h := HeaderOf(d[g.start]);
    RecoverAt(g, d);
    forall b: nat | Home(g, |d|, b)
      ensures Recover(g, d)[b] == Effect(init, ws, b)
    {
      if b in h {
        var j :| 0 <= j < |h| && h[j] == b;
      }
    }
  }

  /** In every state of every run, with any number of crashes, recovering the disk as it stands gives
      exactly the effect of the transactions committed so far; those transactions are made of whole
      operations, and none of their operations is still running or writes to a later transaction. */
  lemma CrashSafety(g: Geometry, d: Disk, steps: seq<Step>)
    requires GoodGeometry(g, |d|) && GoodHeader(g, |d|, HeaderOf(d[g.start]))
    requires Run(g, Boot(g, d), steps).Ok?
    ensures var s := Run(g, Boot(g, d), steps).s;
            && |s.disk| == |d|
            && GoodHeader(g, |s.disk|, HeaderOf(s.disk[g.start]))
            && (forall b: nat :: Home(g, |d|, b) ==>
                  Recover(g, s.disk)[b] == Effect(Recover(g, d), Flatten(s.done), b))
            && WholeOps(s)
  {
    BootInv(g, d);
    RunInv(g, Boot(g, d), steps);
    var s := Run(g, Boot(g, d), steps).s;
    RunFrame(g, Boot(g, d), steps);
    RecoverGives(g, s.disk, s.init, Flatten(s.done));
  }

  lemma StepFrame(g: Geometry, s: State, step: Step)
    requires GoodGeometry(g, |s.disk|) && Next(g, s, step).Ok?
    ensures s.done <= Next(g, s, step).s.done
    ensures Next(g, s, step).s.done != s.done ==> step == WriteHead && Next(g, s, step).s.done == s.done + [s.cur]
  {
  }

  /** A run never changes the initial contents, and a committed transaction stays committed. */
  lemma {:induction false} RunFrame(g: Geometry, s: State, steps: seq<Step>)
    requires GoodGeometry(g, |s.disk|) && Run(g, s, steps).Ok?
    ensures var s' := Run(g, s, steps).s; s'.init == s.init && |s'.disk| == |s.disk| && s.done <= s'.done
    decreases |steps|
  {
    if steps != [] {
      StepFrame(g, s, steps[0]);
      RunFrame(g, Next(g, s, steps[0]).s, steps[1..]);
    }
  }

  lemma ViewIsLast(g: Geometry, s: State, b: nat)
    requires Inv(g, s) && Home(g, |s.disk|, b) && !s.phase.Booting? && !s.phase.Recovering?
    requires b in s.cache ==> !s.cache[b].modified
    ensures View(s, b) == Effect(s.init, All(s), b)
  {
    if b in s.cache {
      assert EntryOk(g, s, b, s.cache[b]);
    }
    if b !in s.lh {
      EffectUntouched(s.init, Flatten(s.done), s.cur, b);
      assert b !in Pinned(s);
      assert b !in HeaderOf(s.disk[g.start]);
    } else if s.phase.Installing? && b !in s.lh[s.phase.k..] {
      assert s.lh == s.lh[..s.phase.k] + s.lh[s.phase.k..];
      assert b in s.lh[..s.phase.k];
      assert All(s) == Flatten(s.done);
    }
  }

  /** In every run bread delivers the last contents logged for a block, whatever the cache has evicted and
      however far a commit has come, unless the holder of the buffer is in the middle of changing it. */
  lemma ReadSeesLastWrite(g: Geometry, d: Disk, steps: seq<Step>, b: nat)
    requires GoodGeometry(g, |d|) && GoodHeader(g, |d|, HeaderOf(d[g.start])) && Home(g, |d|, b)
    requires Run(g, Boot(g, d), steps).Ok?
    requires var s := Run(g, Boot(g, d), steps).s;
             !s.phase.Booting? && !s.phase.Recovering? && (b in s.cache ==> !s.cache[b].modified)
    ensures var s := Run(g, Boot(g, d), steps).s; |s.disk| == |d| && View(s, b) == Effect(Recover(g, d), All(s), b)
  {
    BootInv(g, d);
    RunInv(g, Boot(g, d), steps);
    RunFrame(g, Boot(g, d), steps);
    ViewIsLast(g, Run(g, Boot(g, d), steps).s, b);
  }

  lemma NoCommitDuringOperation(g: Geometry, s: State, p: nat, b: nat)
    requires Shape(g, s)
    ensures s.phase != Running ==> s.outstanding == 0
    ensures Next(g, s, End(p)) != Panicked
    ensures Next(g, s, LogWrite(p, b)) == Panicked ==> |s.lh| >= LOGSIZE || |s.lh| >= g.size - 1
  {
    if p in s.ops {
      assert p in s.ops.Keys;
      assert |s.ops| == |s.ops.Keys| > 0;
    }
  }

  /** A commit is in progress only when no operation is, so end_op never finds log.committing set and
      log_write is never called outside a transaction. */
  lemma CommitMeetsNoOperation(g: Geometry, d: Disk, steps: seq<Step>, p: nat, b: nat)
    requires GoodGeometry(g, |d|) && GoodHeader(g, |d|, HeaderOf(d[g.start]))
    requires Run(g, Boot(g, d), steps).Ok?
    ensures var s := Run(g, Boot(g, d), steps).s;
            && (s.phase != Running ==> s.outstanding == 0)
            && Next(g, s, End(p)) != Panicked
            && (Next(g, s, LogWrite(p, b)) == Panicked ==> |s.lh| >= LOGSIZE || |s.lh| >= g.size - 1)
  {
    BootInv(g, d);
    RunInv(g, Boot(g, d), steps);
    NoCommitDuringOperation(g, Run(g, Boot(g, d), steps).s, p, b);
  }

  /** No operation is running, and no transaction is waiting for its header. */
  ghost predicate Settled(s: State) {
    s.ops == map[] && !s.phase.WritingLog?
  }

  /** Until the next begin_op, a settled log commits nothing. */
  lemma {:induction false} SettledRun(g: Geometry, s: State, steps: seq<Step>)
    requires GoodGeometry(g, |s.disk|) && Settled(s) && Run(g, s, steps).Ok?
    requires forall i :: 0 <= i < |steps| ==> !steps[i].Begin?
    ensures Run(g, s, steps).s.done == s.done && WriteHead !in steps
    decreases |steps|
  {
    if steps != [] {
      assert steps == [steps[0]] + steps[1..];
      assert !steps[0].Begin?;
      SettledRun(g, Next(g, s, steps[0]).s, steps[1..]);
    }
  }

  /** What a commit in progress does next, until the next begin_op. */
  lemma CommitStep(g: Geometry, s: State, step: Step)
    requires GoodGeometry(g, |s.disk|) && s.ops == map[] && s.phase.WritingLog? && !step.Begin? && Next(g, s, step).Ok?
    ensures var s' := Next(g, s, step).s;
            if step == WriteHead then Settled(s') && s'.done == s.done + [s.cur]
            else s'.done == s.done && (Settled(s') || (s'.ops == map[] && s'.phase.WritingLog? && s'.cur == s.cur))
  {
  }

  lemma {:induction false} CommitRun(g: Geometry, s: State, steps: seq<Step>)
    requires GoodGeometry(g, |s.disk|) && s.ops == map[] && s.phase.WritingLog? && Run(g, s, steps).Ok?
    requires forall i :: 0 <= i < |steps| ==> !steps[i].Begin?
    ensures Run(g, s, steps).s.done == if WriteHead in steps then s.done + [s.cur] else s.done
    decreases |steps|
  {
    if steps != [] {
      assert steps == [steps[0]] + steps[1..];
      assert !steps[0].Begin?;
      CommitStep(g, s, steps[0]);
      var s' := Next(g, s, steps[0]).s;
      if Settled(s') {
        SettledRun(g, s', steps[1..]);
      } else {
        CommitRun(g, s', steps[1..]);
      }
    }
  }

  lemma CommitOutcome(g: Geometry, s: State, steps: seq<Step>)
    requires Inv(g, s) && WholeOps(s) && s.phase.WritingLog? && Run(g, s, steps).Ok?
    requires forall i :: 0 <= i < |steps| ==> !steps[i].Begin?
    ensures var s' := Run(g, s, steps).s;
            && GoodHeader(g, |s.disk|, HeaderOf(s'.disk[g.start]))
            && (forall b: nat :: Home(g, |s.disk|, b) ==>
                  Recover(g, s'.disk)[b] == Effect(s.init, if WriteHead in steps then All(s) else Flatten(s.done), b))
  {
    var s' := Run(g, s, steps).s;
    RunInv(g, s, steps);
    CommitRun(g, s, steps);
    assert (s.done + [s.cur])[..|s.done|] == s.done;
    RecoverGives(g, s'.disk, s'.init, Flatten(s'.done));
  }

  /** Crash atomicity of one commit. Let any run come to a commit, let it go on for any number of steps,
      crash at any point and let recovery run, crash and restart any number of times: the disk then
      recovers to the old contents if the first write_head did not reach it, and to the contents with the
      whole transaction applied if it did. */
  lemma AllOrNothing(g: Geometry, d: Disk, before: seq<Step>, steps: seq<Step>)
    requires GoodGeometry(g, |d|) && GoodHeader(g, |d|, HeaderOf(d[g.start])) && Run(g, Boot(g, d), before).Ok?
    requires var s := Run(g, Boot(g, d), before).s; s.phase.WritingLog? && |s.disk| == |d| && Run(g, s, steps).Ok?
    requires forall i :: 0 <= i < |steps| ==> !steps[i].Begin?
    ensures var s := Run(g, Boot(g, d), before).s;
            var d' := Run(g, s, steps).s.disk;
            && |d'| == |d| && GoodHeader(g, |d|, HeaderOf(d'[g.start]))
            && (forall b: nat :: Home(g, |d|, b) ==>
                  Recover(g, d')[b] == Effect(Recover(g, d), if WriteHead in steps then All(s) else Flatten(s.done), b))
  {
    BootInv(g, d);
    RunInv(g, Boot(g, d), before);
    RunFrame(g, Boot(g, d), before);
    var s := Run(g, Boot(g, d), before).s;
    RunFrame(g, s, steps);
    CommitOutcome(g, s, steps);
  }
}
