/** log.c as it is coded: write_log, write_head, install_trans, read_head, recover_from_log, commit,
    log_write, begin_op and end_op. */
module LogCode {
  import opened Common
  import opened Params
  import opened Blocks
  import opened LogFormat
  import opened CacheMachine
  import opened Bio
  import opened LogRedo
  import opened LogCommit
  import LogMachine
  import LogPins
  import LogSafety

  /** A block that is not pinned has its stored contents on the disk. */
  lemma UnpinnedOnDisk(s: Sys, b: nat)
    requires ContentsOk(s) && b < |s.disk| && !Pinned(s, b)
    ensures s.disk[b] == s.stored[b]
  {
    if i :| 0 <= i < |s.c.buf| && Labelled(s.c.buf[i], ROOTDEV, b) {
      assert SlotOk(s, i);
    }
  }

  /** What is pinned once install_trans has installed k blocks: in a commit the rest of the list, in
      recovery nothing at all. */
  ghost function Left(lh: seq<nat>, k: nat, commit: bool): seq<nat>
    requires k <= |lh|
  {
    if commit then lh[k..] else []
  }

  /** The loop of write_head. */
  method EncodeHeader(b: Block, h: seq<nat>) returns (hb: Block)
    requires |h| <= LOGSIZE && forall i :: 0 <= i < |h| ==> h[i] < UINT
    ensures hb == PutHeader(b, h, |h|)
  {
    hb := PutWord(b, 0, |h|);
    var i := 0;
    while i < |h|
      invariant i <= |h| && hb == PutHeader(b, h, i)
    {
      hb := PutWord(hb, i + 1, h[i]);
      i := i + 1;
    }
  }

  /** The loop of read_head. A count that is negative as an int lists nothing; one above LOGSIZE would
      run past the end of lh.block. */
  method DecodeHeader(hb: Block) returns (h: seq<nat>)
    requires GetWord(hb, 0) <= LOGSIZE || GetWord(hb, 0) >= 0x8000_0000
    ensures h == HeaderOf(hb)
  {
    var n := GetWord(hb, 0);
    if n >= 0x8000_0000 {
      return [];
    }
    h := [];
    var i := 0;
    while i < n
      invariant i <= n && h == Entries(hb, i)
    {
      h := h + [GetWord(hb, i + 1)];
      i := i + 1;
    }
  }

  lemma HeadDone(s: Sys, s1: Sys, s2: Sys, s3: Sys, b: nat, i: nat, data: Block)
    requires Inv(s) && s.handles == map[] && Inv(s1) && Inv(s2) && b < |s.disk| && !Pinned(s, b)
    requires ReadBlock(s, s1, 0, b, i) && Overwritten(s1, s2, 0, i, data) && Released(s2, s3, 0, i)
    ensures s3.handles == map[] && |s3.c.buf| == |s.c.buf|
    ensures s3.disk == s.disk[b := data] && s3.stored == s.stored[b := data]
    ensures forall x: nat :: Pinned(s3, x) <==> Pinned(s, x)
  {
    ReadKeepsPins(s, s1, 0, b, i);
    OverwriteUnpins(s1, s2, 0, i, data);
    ReleaseKeepsPins(s2, s3, 0, i);
  }

  lemma LookDone(s: Sys, s1: Sys, s2: Sys, b: nat, i: nat)
    requires Inv(s) && s.handles == map[] && Inv(s1) && ReadBlock(s, s1, 0, b, i) && Released(s1, s2, 0, i)
    ensures s2.handles == map[] && |s2.c.buf| == |s.c.buf| && s2.disk == s.disk && s2.stored == s.stored
    ensures forall x: nat :: Pinned(s2, x) <==> Pinned(s, x)
  {
    ReadKeepsPins(s, s1, 0, b, i);
    ReleaseKeepsPins(s1, s2, 0, i);
  }

  /** write_log has copied the first n blocks of the list to the log. */
  ghost predicate LogDone(g: Geometry, d: Disk, st: Disk, lh: seq<nat>, hist: seq<Disk>, n: nat, d': Disk, st': Disk,
                          hist': seq<Disk>) {
    && GoodGeometry(g, |d|) && GoodHeader(g, |d|, lh) && n <= |lh| && |d'| == |d| == |st| == |st'|
    && d' == Logged(g, d, st, lh, n)
    && (forall b: nat :: Home(g, |d|, b) ==> st'[b] == st[b])
    && hist' == hist + LogTrace(g, d, st, lh, n)
  }

  lemma LogDoneMore(g: Geometry, d: Disk, st: Disk, lh: seq<nat>, hist: seq<Disk>, n: nat,
                    d1: Disk, st1: Disk, hist1: seq<Disk>, d2: Disk, st2: Disk, hist2: seq<Disk>)
    requires LogDone(g, d, st, lh, hist, n, d1, st1, hist1) && n < |lh|
    requires d2 == d1[g.start + 1 + n := st1[lh[n]]] && st2 == st1[g.start + 1 + n := st1[lh[n]]]
    requires hist2 == hist1 + [d2]
    ensures LogDone(g, d, st, lh, hist, n + 1, d2, st2, hist2)
  {
  }

  /** struct log. */
  class LogDevice {
    const bc: BCache
    const g: Geometry
    var lh: seq<nat>
    var outstanding: int
    var committing: bool

    constructor (bc: BCache, g: Geometry)
      ensures this.bc == bc && this.g == g && lh == [] && outstanding == 0 && !committing
    {
      this.bc, this.g := bc, g;
      lh, outstanding, committing := [], 0, false;
    }

    /** No client is using the cache, the blocks of `pins` are pinned, and the log geometry is sound. */
    ghost predicate Idling(pins: seq<nat>)
      reads this, bc
    {
      && bc.Valid() && Idle(bc.Abs(), pins)
      && GoodGeometry(g, |bc.disk|) && GoodHeader(g, |bc.disk|, lh)
      && |pins| < |bc.buf|
    }

    /** The log between commits: whoever uses the cache, the blocks of lh are the pinned ones, they are home
        blocks without repetition, and the disk has an empty header. */
    ghost predicate Running()
      reads `lh, bc
    {
      && bc.Valid() && PinsAre(bc.Abs(), lh)
      && GoodGeometry(g, |bc.disk|) && GoodHeader(g, |bc.disk|, lh) && g.size <= |bc.buf|
      && HeaderOf(bc.disk[g.start]) == []
    }

    /** One iteration of write_log: block lh[k] from the cache to log block k. */
    method WriteLogBlock(k: nat)
      requires Idling(lh) && k < |lh|
      modifies bc
      ensures Idling(lh)
      ensures bc.disk == old(bc.disk)[g.start + 1 + k := old(bc.stored)[lh[k]]]
      ensures bc.stored == old(bc.stored)[g.start + 1 + k := old(bc.stored)[lh[k]]]
      ensures bc.history == old(bc.history) + [bc.disk] && |bc.buf| == |old(bc.buf)|
    {
      CopyInto(bc, g.start + 1 + k, lh[k], lh);
    }

    /** One iteration of install_trans: log block k to its home, lh[k]. */
    method InstallBlock(k: nat, ghost pins: seq<nat>)
      requires Idling(pins) && k < |lh| && (lh[k] in pins || |pins| + 1 < |bc.buf|)
      requires forall x :: x in pins ==> x in lh
      modifies bc
      ensures bc.Valid() && bc.handles == map[] && |bc.buf| == |old(bc.buf)|
      ensures forall x: nat :: Pinned(bc.Abs(), x) <==> x in pins && x != lh[k]
      ensures bc.disk == old(bc.disk)[lh[k] := old(bc.disk)[g.start + 1 + k]]
      ensures bc.stored == old(bc.stored)[lh[k] := old(bc.disk)[g.start + 1 + k]]
      ensures bc.history == old(bc.history) + [bc.disk]
    {
      UnpinnedOnDisk(bc.Abs(), g.start + 1 + k);
      CopyOut(bc, g.start + 1 + k, lh[k], pins);
    }

    /** write_log. */
    method WriteLog()
      requires Idling(lh)
      modifies bc
      ensures Idling(lh) && |bc.buf| == |old(bc.buf)|
      ensures bc.disk == Logged(g, old(bc.disk), old(bc.stored), lh, |lh|)
      ensures |bc.stored| == |old(bc.stored)|
      ensures forall b: nat :: Home(g, |bc.disk|, b) ==> bc.stored[b] == old(bc.stored)[b]
      ensures bc.history == old(bc.history) + LogTrace(g, old(bc.disk), old(bc.stored), lh, |lh|)
    {
      ghost var d, st, hist := bc.disk, bc.stored, bc.history;
      var tail := 0;
      while tail < |lh|
        invariant tail <= |lh| && Idling(lh) && |bc.buf| == |old(bc.buf)|
        invariant LogDone(g, d, st, lh, hist, tail, bc.disk, bc.stored, bc.history)
      {
        ghost var d1, st1, hist1 := bc.disk, bc.stored, bc.history;
        WriteLogBlock(tail);
        LogDoneMore(g, d, st, lh, hist, tail, d1, st1, hist1, bc.disk, bc.stored, bc.history);
        tail := tail + 1;
      }
    }

    /** install_trans. */
    method InstallTrans(ghost commit: bool)
      requires Idling(Left(lh, 0, commit)) && (commit || 1 < |bc.buf|)
      modifies bc
      ensures bc.Valid() && Idle(bc.Abs(), []) && |bc.buf| == |old(bc.buf)|
      ensures bc.disk == Install(g, old(bc.disk), lh, |lh|)
      ensures bc.history == old(bc.history) + InstallTrace(g, old(bc.disk), lh, |lh|)
    {
      var tail := 0;
      while tail < |lh|
        invariant tail <= |lh| && Idling(Left(lh, tail, commit)) && |bc.buf| == |old(bc.buf)|
        invariant |bc.disk| == |old(bc.disk)|
        invariant bc.disk == Install(g, old(bc.disk), lh, tail)
        invariant bc.history == old(bc.history) + InstallTrace(g, old(bc.disk), lh, tail)
      {
        LogSafety.InstallUnpins(lh, tail);
        InstallBlock(tail, Left(lh, tail, commit));
        tail := tail + 1;
      }
    }

    /** write_head. */
    method WriteHead(ghost pins: seq<nat>)
      requires Idling(pins) && g.start !in pins
      modifies bc
      ensures Idling(pins) && |bc.buf| == |old(bc.buf)|
      ensures bc.disk == old(bc.disk)[g.start := PutHeader(old(bc.disk)[g.start], lh, |lh|)]
      ensures bc.stored == old(bc.stored)[g.start := PutHeader(old(bc.disk)[g.start], lh, |lh|)]
      ensures bc.history == old(bc.history) + [bc.disk]
    {
      ghost var s := bc.Abs();
      UnpinnedOnDisk(s, g.start);
      NoneHeld(s);
      IdleHasRoom(s, pins);
      var r := bc.Bread(0, g.start);
      var i := r.value;
      ghost var s1 := bc.Abs();
      var hb := EncodeHeader(bc.buf[i].data, lh);
      Overwrite(bc, 0, i, hb);
      ghost var s2 := bc.Abs();
      bc.Brelse(0, i);
      HeadDone(s, s1, s2, bc.Abs(), g.start, i, hb);
    }

    /** read_head. */
    method ReadHead()
      requires bc.Valid() && Idle(bc.Abs(), []) && GoodGeometry(g, |bc.disk|) && 0 < |bc.buf|
      requires GetWord(bc.disk[g.start], 0) <= LOGSIZE || GetWord(bc.disk[g.start], 0) >= 0x8000_0000
      modifies this, bc
      ensures bc.Valid() && Idle(bc.Abs(), []) && |bc.buf| == |old(bc.buf)|
      ensures bc.disk == old(bc.disk) && bc.stored == old(bc.stored) && bc.history == old(bc.history)
      ensures lh == HeaderOf(bc.disk[g.start]) && outstanding == old(outstanding) && committing == old(committing)
    {
      ghost var s := bc.Abs();
      UnpinnedOnDisk(s, g.start);
      NoneHeld(s);
      IdleHasRoom(s, []);
      var r := bc.Bread(0, g.start);
      var i := r.value;
      ghost var s1 := bc.Abs();
      lh := DecodeHeader(bc.buf[i].data);
      bc.Brelse(0, i);
      LookDone(s, s1, bc.Abs(), g.start, i);
    }

    /** write_log and write_head. */
    method WriteListed()
      requires Idling(lh)
      modifies bc
      ensures Idling(lh) && |bc.buf| == |old(bc.buf)| && |bc.disk| == |old(bc.disk)| == |old(bc.stored)|
      ensures bc.disk == HeadDisk(g, old(bc.disk), old(bc.stored), lh)
      ensures bc.history == old(bc.history) + LogTrace(g, old(bc.disk), old(bc.stored), lh, |lh|) + [bc.disk]
    {
      WriteLog();
      WriteHead(lh);
    }

    /** install_trans, log.lh.n = 0, write_head: the end of commit() and of recover_from_log. */
    method Apply(ghost commit: bool)
      requires Idling(if commit then lh else []) && (commit || 1 < |bc.buf|)
      modifies this, bc
      ensures lh == [] && outstanding == old(outstanding) && committing == old(committing)
      ensures Idling([]) && |bc.buf| == |old(bc.buf)|
      ensures bc.disk == ApplyDisk(g, old(bc.disk), old(lh))
      ensures bc.history == old(bc.history) + ApplyTrace(g, old(bc.disk), old(lh))
    {
      assert lh[0..] == lh;
      InstallTrans(commit);
      lh := [];
      WriteHead([]);
    }

    /** The calls of commit() for a transaction that is not empty. */
    method Transact()
      requires Idling(lh)
      modifies this, bc
      ensures lh == [] && outstanding == old(outstanding) && committing == old(committing)
      ensures Idling([]) && |bc.buf| == |old(bc.buf)| && |bc.disk| == |old(bc.disk)| == |old(bc.stored)|
      ensures bc.disk == ApplyDisk(g, HeadDisk(g, old(bc.disk), old(bc.stored), old(lh)), old(lh))
      ensures bc.history == old(bc.history) + CommitTrace(g, old(bc.disk), old(bc.stored), old(lh))
    {
      WriteListed();
      Apply(true);
    }

    /** commit(), called with no operation running and no other process holding a buffer. It never runs
        out of buffers, and a crash after any of its disk writes leaves a disk that recovers to the old
        contents (before the header is written) or to all the new ones (after). */
    method Commit()
      requires Idling(lh) && HeaderOf(bc.disk[g.start]) == []
      modifies this, bc
      ensures lh == [] && outstanding == old(outstanding) && committing == old(committing)
      ensures Idling([]) && |bc.buf| == |old(bc.buf)| && |bc.disk| == |old(bc.disk)|
      ensures HeaderOf(bc.disk[g.start]) == []
      ensures forall b: nat :: Home(g, |bc.disk|, b) ==> bc.disk[b] == old(bc.stored)[b]
      ensures bc.disk == CommitDisk(g, old(bc.disk), old(bc.stored), old(lh))
      ensures bc.history == old(bc.history) + CommitWrites(g, old(bc.disk), old(bc.stored), old(lh))
      ensures forall i :: |old(bc.history)| <= i < |bc.history| ==>
                RecoversTo(g, bc.history[i], if i < |old(bc.history)| + |old(lh)| then old(bc.disk) else old(bc.stored))
    {
      ghost var d, c, h := bc.disk, bc.stored, lh;
      BehindCache(d, c, h);
      if |lh| > 0 {
        CommitAtomic(g, d, c, h);
        Transact();
        ghost var t := CommitTrace(g, d, c, h);
        assert bc.disk == t[|t| - 1];
        forall i | |old(bc.history)| <= i < |bc.history|
          ensures RecoversTo(g, bc.history[i], if i < |old(bc.history)| + |h| then d else c)
        {
          assert bc.history[i] == t[i - |old(bc.history)|];
        }
      } else {
        BehindNothing(d, c);
      }
    }

    lemma BehindNothing(d: Disk, c: Disk)
      requires Behind(g, d, c, [])
      ensures forall b: nat :: Home(g, |d|, b) ==> c[b] == d[b]
    {
    }

    /** Blocks that are not listed are the same on the disk as in the cache. */
    lemma BehindCache(d: Disk, c: Disk, h: seq<nat>)
      requires bc.Valid() && Idle(bc.Abs(), h) && d == bc.disk && c == bc.stored && GoodGeometry(g, |d|)
      ensures Behind(g, d, c, h)
    {
      forall b: nat | Home(g, |d|, b) && b !in h
        ensures c[b] == d[b]
      {
        UnpinnedOnDisk(bc.Abs(), b);
      }
    }

    /** recover_from_log, on a cache nobody uses yet. */
    method RecoverFromLog()
      requires bc.Valid() && Idle(bc.Abs(), []) && GoodGeometry(g, |bc.disk|) && 1 < |bc.buf|
      requires GetWord(bc.disk[g.start], 0) <= LOGSIZE || GetWord(bc.disk[g.start], 0) >= 0x8000_0000
      requires GoodHeader(g, |bc.disk|, HeaderOf(bc.disk[g.start]))
      modifies this, bc
      ensures lh == [] && outstanding == old(outstanding) && committing == old(committing)
      ensures Idling([]) && |bc.buf| == |old(bc.buf)| && (g.size <= |bc.buf| ==> Running())
      ensures bc.disk == Recover(g, old(bc.disk)) && HeaderOf(bc.disk[g.start]) == []
      ensures bc.history == old(bc.history) + ApplyTrace(g, old(bc.disk), HeaderOf(old(bc.disk)[g.start]))
      ensures forall i :: |old(bc.history)| <= i < |bc.history| ==>
                RecoversTo(g, bc.history[i], Recover(g, old(bc.disk)))
    {
      ghost var d := bc.disk;
      RecoveryRestarts(g, d);
      ReadHead();
      Apply(false);
    }

    /** bread by client h while the log is running. */
    method ReadBuffer(h: nat, b: nat) returns (r: Option<nat>)
      requires Running() && h !in bc.handles && b < |bc.disk|
      requires forall i :: 0 <= i < |bc.buf| && Labelled(bc.buf[i], ROOTDEV, b) ==> bc.buf[i].holder == None
      modifies bc
      ensures Running() && bc.disk == old(bc.disk) && bc.stored == old(bc.stored) && bc.history == old(bc.history)
      ensures r.None? ==> bc.Abs() == old(bc.Abs())
      ensures r.Some? ==> ReadBlock(old(bc.Abs()), bc.Abs(), h, b, r.value)
    {
      ghost var s := bc.Abs();
      r := bc.Bread(h, b);
      if r.Some? {
        ReadKeepsPins(s, bc.Abs(), h, b, r.value);
      }
    }

    /** Client h changes the data of buffer i, which it holds. */
    method ChangeBuffer(h: nat, i: nat, data: Block)
      requires Running() && h in bc.handles && bc.handles[h].slot == i && bc.handles[h].phase.Holding?
      requires bc.buf[i].valid
      modifies bc
      ensures Running() && bc.disk == old(bc.disk) && bc.history == old(bc.history)
      ensures CacheMachine.Next(old(bc.Abs()), Change(h, data)) == Ok(bc.Abs())
    {
      ghost var s := bc.Abs();
      bc.SetData(h, i, data);
      LogPins.ClientKeepsPins(s, bc.Abs(), Change(h, data), lh);
    }

    /** brelse by client h, once it has called log_write for what it changed. */
    method ReleaseBuffer(h: nat, i: nat)
      requires Running() && h in bc.handles && bc.handles[h] == Handle(i, Holding(false)) && bc.buf[i].valid
      modifies bc
      ensures Running() && bc.disk == old(bc.disk) && bc.stored == old(bc.stored) && bc.history == old(bc.history)
      ensures Released(old(bc.Abs()), bc.Abs(), h, i)
    {
      ghost var s := bc.Abs();
      bc.Brelse(h, i);
      ReleaseKeepsPins(s, bc.Abs(), h, i);
    }

    /** log_write's loop: the block goes on the list, or is there already. */
    method Enter(b: nat)
      modifies `lh
      ensures lh == LogMachine.Absorb(old(lh), b)
    {
      var k := 0;
      while k < |lh| && lh[k] != b // log absorption
        invariant k <= |lh| && b !in lh[..k]
      {
        k := k + 1;
      }
      if k == |lh| {
        assert lh[..k] == lh;
        lh := lh + [b];
      } else {
        lh := lh[k := b];
      }
    }

    /** log_write by client h, which holds buffer i. On panic nothing has changed. The list stays that of the
        pinned blocks. */
    method LogWrite(h: nat, i: nat) returns (panicked: bool)
      requires bc.Valid() && h in bc.handles && bc.handles[h].slot == i && bc.handles[h].phase.Holding?
      requires bc.buf[i].valid
      modifies `lh, bc
      ensures bc.Valid() && bc.disk == old(bc.disk) && bc.history == old(bc.history)
      ensures panicked <==> |old(lh)| >= LOGSIZE || |old(lh)| >= g.size - 1 || outstanding < 1
      ensures panicked ==> lh == old(lh) && bc.Abs() == old(bc.Abs())
      ensures !panicked ==> lh == LogMachine.Absorb(old(lh), old(bc.buf[i].blockno))
      ensures !panicked ==> CacheMachine.Next(old(bc.Abs()), Pin(h)) == Ok(bc.Abs())
      ensures old(Running()) && Home(g, |bc.disk|, old(bc.buf[i].blockno)) ==> Running()
    {
      if |lh| >= LOGSIZE || |lh| >= g.size - 1 || outstanding < 1 {
        return true;
      }
      ghost var s, lh0, b := bc.Abs(), lh, bc.buf[i].blockno;
      ghost var running := Running() && Home(g, |bc.disk|, b);
      Enter(bc.buf[i].blockno);
      bc.SetDirty(h, i);
      if running {
        LogPins.WriteListed(g, s, bc.Abs(), h, lh0, b);
      }
      return false;
    }

    /** One pass through the loop of begin_op; false means the caller sleeps. */
    method TryBeginOp() returns (admitted: bool)
      modifies `outstanding
      ensures admitted <==> !committing && |lh| + (old(outstanding) + 1) * MAXOPBLOCKS <= LOGSIZE
      ensures outstanding == old(outstanding) + if admitted then 1 else 0
    {
      if committing {
        return false;
      } else if |lh| + (outstanding + 1) * MAXOPBLOCKS > LOGSIZE {
        return false;
      }
      outstanding := outstanding + 1;
      return true;
    }

    /** The end of end_op, for the last operation out: commit(), when no buffer is in use. */
    method CommitLast()
      requires Running() && bc.handles == map[]
      modifies this, bc
      ensures lh == [] && outstanding == old(outstanding) && !committing
      ensures Running() && bc.handles == map[] && |bc.disk| == |old(bc.disk)|
      ensures forall b: nat :: Home(g, |bc.disk|, b) ==> bc.disk[b] == old(bc.stored)[b]
      ensures bc.disk == CommitDisk(g, old(bc.disk), old(bc.stored), old(lh))
      ensures bc.history == old(bc.history) + CommitWrites(g, old(bc.disk), old(bc.stored), old(lh))
      ensures forall i :: |old(bc.history)| <= i < |bc.history| ==>
                RecoversTo(g, bc.history[i], if i < |old(bc.history)| + |old(lh)| then old(bc.disk) else old(bc.stored))
    {
      committing := true;
      Commit();
      committing := false;
    }

    /** end_op. The last operation out commits; then no buffer may be in use. */
    method EndOp() returns (panicked: bool)
      requires Running() && (outstanding == 1 ==> bc.handles == map[])
      modifies this, bc
      ensures panicked == old(committing)
      ensures outstanding == old(outstanding) - 1
      ensures committing == old(committing)
      ensures Running() && bc.handles == old(bc.handles)
      ensures old(outstanding) != 1 || panicked ==>
                lh == old(lh) && bc.Abs() == old(bc.Abs()) && bc.history == old(bc.history)
      ensures old(outstanding) == 1 && !panicked ==>
                && lh == [] && |bc.disk| == |old(bc.disk)|
                && (forall b: nat :: Home(g, |bc.disk|, b) ==> bc.disk[b] == old(bc.stored)[b])
                && bc.disk == CommitDisk(g, old(bc.disk), old(bc.stored), old(lh))
                && bc.history == old(bc.history) + CommitWrites(g, old(bc.disk), old(bc.stored), old(lh))
                && (forall i :: |old(bc.history)| <= i < |bc.history| ==>
                      RecoversTo(g, bc.history[i], if i < |old(bc.history)| + |old(lh)| then old(bc.disk)
                        else old(bc.stored)))
    {
      outstanding := outstanding - 1;
      if committing {
        return true;
      }
      if outstanding == 0 {
        CommitLast();
      }
      return false;
    }
  }
}
