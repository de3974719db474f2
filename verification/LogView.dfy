/** The buffers of bio.c seen as the cache of the log machine: what bread, log_write and brelse do to the one
    are steps of the other. */
module LogView {
  import opened Common
  import opened Params
  import opened Blocks
  import opened CacheMachine
  import opened Bio
  import opened LogCommit
  import opened LogCode
  import opened LogFormat
  import opened LogRedo
  import opened LogPasses
  import CacheSafety
  import LogSafety
  import M = LogMachine

  // ---------- The buffers as the cache of the log machine ----------

  /** A buffer that cannot be taken away: pinned by the log, or locked. Of the others the machine's cache holds
      nothing: they may be evicted at any time. */
  predicate InUse(x: Buf) {
    x.dirty || x.holder.Some?
  }

  /** Slot i as an entry of the machine's cache; `who` names the process behind each client of the cache. */
  ghost predicate EntryIs(s: Sys, who: map<nat, nat>, i: nat, e: M.Entry)
    requires i < |s.c.buf|
  {
    var x := s.c.buf[i];
    && e.data == x.data && e.dirty == x.dirty && e.modified == Modified(s, i)
    && (if x.holder.Some? then x.holder.value in who && e.holder == Some(who[x.holder.value]) else e.holder == None)
  }

  ghost predicate UsedFor(s: Sys, b: nat) {
    exists i :: 0 <= i < |s.c.buf| && Labelled(s.c.buf[i], ROOTDEV, b) && InUse(s.c.buf[i])
  }

  ghost predicate Caches(s: Sys, who: map<nat, nat>, cache: map<nat, M.Entry>) {
    && (forall i: nat :: i < |s.c.buf| && InUse(s.c.buf[i]) ==>
          s.c.buf[i].blockno in cache && EntryIs(s, who, i, cache[s.c.buf[i].blockno]))
    && (forall b :: b in cache ==> UsedFor(s, b))
  }

  ghost predicate UseOk(s: Sys, i: nat)
    requires i < |s.c.buf|
  {
    s.c.buf[i].dev == ROOTDEV && (s.c.buf[i].holder.Some? ==> HeldBy(s, i, s.c.buf[i].holder.value))
  }

  /** What the invariant of the cache says of the buffers in use. */
  ghost predicate UsesOk(s: Sys) {
    Unique(s.c) && forall i: nat :: i < |s.c.buf| && InUse(s.c.buf[i]) ==> UseOk(s, i)
  }

  lemma InvUses(s: Sys)
    requires Inv(s)
    ensures UsesOk(s)
  {
    forall i: nat | i < |s.c.buf| && InUse(s.c.buf[i])
      ensures UseOk(s, i)
    {
      assert SlotOk(s, i);
    }
  }

  /** Between the two states client h, and slot i with block b, have changed, and no other. */
  ghost predicate OneChanged(s: Sys, s': Sys, who: map<nat, nat>, who': map<nat, nat>, h: nat, i: nat, b: nat) {
    && i < |s.c.buf| == |s'.c.buf|
    && (forall j :: 0 <= j < |s.c.buf| && j != i ==> s'.c.buf[j] == s.c.buf[j])
    && (h in s.handles ==> s.handles[h].slot == i)
    && (forall x :: x in s.handles && x != h ==> x in s'.handles && s'.handles[x] == s.handles[x])
    && (forall x :: x in who && x != h ==> x in who' && who'[x] == who[x])
    && Labelled(s'.c.buf[i], ROOTDEV, b) && (Labelled(s.c.buf[i], ROOTDEV, b) || !InUse(s.c.buf[i]))
  }

  /** The other entries of the machine's cache stay as they are. */
  lemma OneCaches(s: Sys, s': Sys, who: map<nat, nat>, who': map<nat, nat>, h: nat, i: nat, b: nat,
                  cache: map<nat, M.Entry>, e: M.Entry)
    requires UsesOk(s) && Unique(s'.c) && Caches(s, who, cache) && OneChanged(s, s', who, who', h, i, b)
    requires InUse(s'.c.buf[i]) ==> EntryIs(s', who', i, e)
    ensures Caches(s', who', if InUse(s'.c.buf[i]) then cache[b := e] else cache - {b})
  {
    var cache' := if InUse(s'.c.buf[i]) then cache[b := e] else cache - {b};
    forall j: nat | j < |s'.c.buf| && InUse(s'.c.buf[j]) && j != i
      ensures s'.c.buf[j].blockno in cache' && EntryIs(s', who', j, cache'[s'.c.buf[j].blockno])
    {
      OtherEntry(s, s', who, who', h, i, b, cache, j);
    }
    forall x | x in cache'
      ensures UsedFor(s', x)
    {
      OtherUsed(s, s', who, who', h, i, b, cache, x);
    }
  }

  lemma OtherEntry(s: Sys, s': Sys, who: map<nat, nat>, who': map<nat, nat>, h: nat, i: nat, b: nat,
                   cache: map<nat, M.Entry>, j: nat)
    requires UsesOk(s) && Unique(s'.c) && Caches(s, who, cache) && OneChanged(s, s', who, who', h, i, b)
    requires j < |s'.c.buf| && InUse(s'.c.buf[j]) && j != i
    ensures s'.c.buf[j].blockno != b && s'.c.buf[j].blockno in cache
    ensures EntryIs(s', who', j, cache[s'.c.buf[j].blockno])
  {
    assert UseOk(s, j) && EntryIs(s, who, j, cache[s.c.buf[j].blockno]);
  }

  lemma OtherUsed(s: Sys, s': Sys, who: map<nat, nat>, who': map<nat, nat>, h: nat, i: nat, b: nat,
                  cache: map<nat, M.Entry>, x: nat)
    requires Caches(s, who, cache) && OneChanged(s, s', who, who', h, i, b)
    requires x in cache || InUse(s'.c.buf[i])
    requires x == b ==> InUse(s'.c.buf[i])
    requires x != b ==> x in cache
    ensures UsedFor(s', x)
  {
    if x == b {
      assert Labelled(s'.c.buf[i], ROOTDEV, x) && InUse(s'.c.buf[i]);
    } else {
      assert UsedFor(s, x);
      var j :| 0 <= j < |s.c.buf| && Labelled(s.c.buf[j], ROOTDEV, x) && InUse(s.c.buf[j]);
      assert Labelled(s'.c.buf[j], ROOTDEV, x) && InUse(s'.c.buf[j]);
    }
  }

  /** Nobody holds block b. */
  ghost predicate Unheld(s: Sys, b: nat) {
    forall j :: 0 <= j < |s.c.buf| && Labelled(s.c.buf[j], ROOTDEV, b) ==> s.c.buf[j].holder == None
  }

  lemma ReadCaches(s: Sys, s': Sys, who: map<nat, nat>, h: nat, p: nat, b: nat, i: nat, cache: map<nat, M.Entry>)
    requires Inv(s) && Inv(s') && Caches(s, who, cache) && ReadBlock(s, s', h, b, i) && h !in s.handles
    requires b < |s.disk| && Unheld(s, b)
    ensures b in cache ==> cache[b].holder == None
    ensures var e := if b in cache then cache[b] else M.Entry(s.disk[b], false, None, false);
            Caches(s', who[h := p], cache[b := e.(holder := Some(p))])
  {
    var e := if b in cache then cache[b] else M.Entry(s.disk[b], false, None, false);
    if !Labelled(s.c.buf[i], ROOTDEV, b) {
      CacheSafety.Unreferenced(s, i);
    }
    ReadEntry(s, s', who, h, b, i, cache);
    InvUses(s);
    OneCaches(s, s', who, who[h := p], h, i, b, cache, e.(holder := Some(p)));
  }

  /** The block is in the machine's cache exactly when it is pinned, and then with its last stored contents. */
  lemma ReadEntry(s: Sys, s': Sys, who: map<nat, nat>, h: nat, b: nat, i: nat, cache: map<nat, M.Entry>)
    requires ContentsOk(s) && Unique(s'.c) && Caches(s, who, cache) && ReadBlock(s, s', h, b, i)
    requires b < |s.disk| && Unheld(s, b)
    ensures b in cache ==> cache[b] == M.Entry(s.stored[b], true, None, false) && s'.c.buf[i].dirty
    ensures b !in cache ==> s.stored[b] == s.disk[b] && !s'.c.buf[i].dirty
  {
    if b in cache {
      assert UsedFor(s, b);
      var j: nat :| j < |s.c.buf| && Labelled(s.c.buf[j], ROOTDEV, b) && InUse(s.c.buf[j]);
      assert SlotOk(s, j) && EntryIs(s, who, j, cache[b]);
      assert j == i;
    } else {
      forall j | 0 <= j < |s.c.buf| && Labelled(s.c.buf[j], ROOTDEV, b)
        ensures !s.c.buf[j].dirty
      {
        assert s.c.buf[j].dirty ==> InUse(s.c.buf[j]);
      }
      UnpinnedOnDisk(s, b);
    }
  }

  /** Client h holds slot i, which has block b. */
  ghost predicate HasBlock(s: Sys, h: nat, i: nat, b: nat) {
    Holds(s, h) && s.handles[h].slot == i && s.c.buf[i].blockno == b
  }

  lemma HolderHas(s: Sys, h: nat, i: nat)
    requires Inv(s) && h in s.handles && s.handles[h].slot == i && s.handles[h].phase.Holding?
    ensures i < |s.c.buf| && HasBlock(s, h, i, s.c.buf[i].blockno)
  {
    assert SlotOk(s, i);
  }

  lemma HolderEntry(s: Sys, who: map<nat, nat>, h: nat, i: nat, b: nat, cache: map<nat, M.Entry>)
    requires UsesOk(s) && Caches(s, who, cache) && HasBlock(s, h, i, b)
    ensures b in cache && h in who && s.c.buf[i].dev == ROOTDEV
    ensures cache[b] == M.Entry(s.c.buf[i].data, s.c.buf[i].dirty, Some(who[h]), s.handles[h].phase.modified)
  {
    assert UseOk(s, i) && EntryIs(s, who, i, cache[b]);
  }

  lemma ChangeCaches(s: Sys, s': Sys, who: map<nat, nat>, h: nat, i: nat, b: nat, data: Block, cache: map<nat, M.Entry>)
    requires UsesOk(s) && Caches(s, who, cache) && HasBlock(s, h, i, b) && b in cache
    requires Next(s, CacheMachine.Change(h, data)) == Ok(s') && Unique(s'.c)
    ensures Caches(s', who, cache[b := cache[b].(data := data, modified := true)])
  {
    HolderEntry(s, who, h, i, b, cache);
    OneCaches(s, s', who, who, h, i, b, cache, cache[b].(data := data, modified := true));
  }

  lemma PinCaches(s: Sys, s': Sys, who: map<nat, nat>, h: nat, i: nat, b: nat, cache: map<nat, M.Entry>)
    requires UsesOk(s) && Caches(s, who, cache) && HasBlock(s, h, i, b) && b in cache
    requires Next(s, Pin(h)) == Ok(s') && Unique(s'.c)
    ensures Caches(s', who, cache[b := cache[b].(dirty := true, modified := false)])
  {
    HolderEntry(s, who, h, i, b, cache);
    OneCaches(s, s', who, who, h, i, b, cache, cache[b].(dirty := true, modified := false));
  }

  lemma ReleaseCaches(s: Sys, s': Sys, who: map<nat, nat>, h: nat, i: nat, b: nat, cache: map<nat, M.Entry>)
    requires UsesOk(s) && Caches(s, who, cache) && HasBlock(s, h, i, b) && b in cache
    requires Released(s, s', h, i) && !s.handles[h].phase.modified && Unique(s'.c)
    ensures Caches(s', who - {h}, if s.c.buf[i].dirty then cache[b := cache[b].(holder := None)] else cache - {b})
  {
    HolderEntry(s, who, h, i, b, cache);
    OneCaches(s, s', who, who - {h}, h, i, b, cache, cache[b].(holder := None));
  }

  /** With no client, the machine's cache is that of the pinned blocks. */
  lemma IdleCaches(s: Sys, who: map<nat, nat>, lh: seq<nat>, cache: map<nat, M.Entry>)
    requires Idle(s, lh) && Caches(s, who, cache) && forall j :: 0 <= j < |lh| ==> lh[j] < |s.stored|
    ensures cache == Pins(lh, s.stored)
  {
    NoneHeld(s);
    forall b: nat
      ensures b in cache <==> b in lh
      ensures b in cache ==> cache[b] == M.Entry(s.stored[b], true, None, false)
    {
      IdleEntry(s, who, lh, cache, b);
    }
  }

  lemma IdleEntry(s: Sys, who: map<nat, nat>, lh: seq<nat>, cache: map<nat, M.Entry>, b: nat)
    requires ContentsOk(s) && PinsAre(s, lh) && Caches(s, who, cache)
    requires forall j :: 0 <= j < |s.c.buf| ==> s.c.buf[j].holder == None
    ensures b in cache <==> b in lh
    ensures b in cache ==> b < |s.stored| && cache[b] == M.Entry(s.stored[b], true, None, false)
  {
    if b in cache {
      assert UsedFor(s, b);
      var j: nat :| j < |s.c.buf| && Labelled(s.c.buf[j], ROOTDEV, b) && InUse(s.c.buf[j]);
      assert SlotOk(s, j) && EntryIs(s, who, j, cache[b]);
      assert Pinned(s, b);
    }
    if b in lh {
      assert Pinned(s, b);
      var j: nat :| j < |s.c.buf| && Labelled(s.c.buf[j], ROOTDEV, b) && s.c.buf[j].dirty;
      assert InUse(s.c.buf[j]);
    }
  }

  lemma EmptyCaches(s: Sys, who: map<nat, nat>)
    requires Idle(s, [])
    ensures Caches(s, who, map[])
  {
    NoneHeld(s);
    forall i: nat | i < |s.c.buf|
      ensures !InUse(s.c.buf[i])
    {
      if s.c.buf[i].dirty {
        assert SlotOk(s, i) && Labelled(s.c.buf[i], ROOTDEV, s.c.buf[i].blockno);
        assert Pinned(s, s.c.buf[i].blockno);
      }
    }
  }

  // ---------- The calls as steps ----------

  /** Between two calls every client holds the buffer it asked for. */
  ghost predicate AllHold(s: Sys, who: map<nat, nat>) {
    forall h :: h in s.handles ==>
      h in who && s.handles[h].phase.Holding? && s.handles[h].slot < |s.c.buf| && s.c.buf[s.handles[h].slot].valid
  }

  /** The cache and the fields of struct log are those of the machine's state. */
  ghost predicate Matches(s: Sys, lh: seq<nat>, outstanding: int, who: map<nat, nat>, st: M.State) {
    && st.disk == s.disk && st.lh == lh && st.outstanding == outstanding && st.phase == M.Running
    && Caches(s, who, st.cache) && AllHold(s, who)
  }

  /** Nobody refers to the slot that bread locks. */
  lemma SlotIsFree(s: Sys, s': Sys, who: map<nat, nat>, h: nat, b: nat, i: nat)
    requires Counted(s) && Locks(s) && AllHold(s, who) && LockedBlock(s, s', h, b, i) && Unheld(s, b)
    ensures forall x :: x in s.handles ==> s.handles[x].slot != i
  {
    if !Labelled(s.c.buf[i], ROOTDEV, b) {
      CacheSafety.Unreferenced(s, i);
    }
  }

  lemma ReadHolds(s: Sys, s': Sys, who: map<nat, nat>, h: nat, p: nat, b: nat, i: nat)
    requires AllHold(s, who) && ReadBlock(s, s', h, b, i) && forall x :: x in s.handles ==> s.handles[x].slot != i
    ensures AllHold(s', who[h := p])
  {
  }

  /** The step Read is enabled, and changes the cache alone. */
  lemma ReadStep(g: Geometry, st: M.State, p: nat, b: nat)
    requires GoodGeometry(g, |st.disk|) && b < |st.disk| && st.phase == M.Running
    requires b in st.cache ==> st.cache[b].holder == None
    ensures var e := if b in st.cache then st.cache[b] else M.Entry(st.disk[b], false, None, false);
            M.Next(g, st, M.Read(p, b)) == M.Ok(st.(cache := st.cache[b := e.(holder := Some(p))]))
  {
  }

  lemma ReadMatches(g: Geometry, s: Sys, s': Sys, lh: seq<nat>, out: int, who: map<nat, nat>, st: M.State,
                    h: nat, p: nat, b: nat, i: nat)
    requires GoodGeometry(g, |s.disk|) && Inv(s) && Inv(s') && Matches(s, lh, out, who, st)
    requires ReadBlock(s, s', h, b, i) && h !in s.handles && b < |s.disk| && Unheld(s, b)
    ensures M.Next(g, st, M.Read(p, b)).Ok? && Matches(s', lh, out, who[h := p], M.Next(g, st, M.Read(p, b)).s)
  {
    ReadCaches(s, s', who, h, p, b, i, st.cache);
    SlotIsFree(s, s', who, h, b, i);
    ReadHolds(s, s', who, h, p, b, i);
    ReadStep(g, st, p, b);
  }

  /** What bread gives of a home block is what was last logged for it. */
  lemma ReadGives(g: Geometry, s: Sys, who: map<nat, nat>, st: M.State, h: nat, b: nat, i: nat)
    requires UsesOk(s) && Caches(s, who, st.cache) && HasBlock(s, h, i, b) && s.handles[h].phase == Holding(false)
    requires LogSafety.Inv(g, st) && st.phase == M.Running && Home(g, |st.disk|, b)
    ensures s.c.buf[i].data == LogSafety.Effect(st.init, LogSafety.All(st), b)
  {
    HolderEntry(s, who, h, i, b, st.cache);
    LogSafety.ViewIsLast(g, st, b);
  }

  lemma ChangeMatches(g: Geometry, s: Sys, s': Sys, lh: seq<nat>, out: int, who: map<nat, nat>, st: M.State,
                      h: nat, b: nat, i: nat, data: Block)
    requires GoodGeometry(g, |s.disk|) && UsesOk(s) && Unique(s'.c) && Matches(s, lh, out, who, st)
    requires HasBlock(s, h, i, b) && Next(s, Change(h, data)) == Ok(s')
    requires h in who && who[h] in st.ops && Home(g, |s.disk|, b)
    ensures var o := M.Next(g, st, M.Modify(who[h], b, data)); o.Ok? && Matches(s', lh, out, who, o.s)
  {
    HolderEntry(s, who, h, i, b, st.cache);
    ChangeCaches(s, s', who, h, i, b, data, st.cache);
  }

  lemma WriteMatches(g: Geometry, s: Sys, s': Sys, lh: seq<nat>, out: int, who: map<nat, nat>, st: M.State,
                     h: nat, b: nat, i: nat)
    requires GoodGeometry(g, |s.disk|) && UsesOk(s) && Matches(s, lh, out, who, st) && HasBlock(s, h, i, b)
    requires h in who && who[h] in st.ops && Home(g, |s.disk|, b)
    ensures M.Next(g, st, M.LogWrite(who[h], b)) == M.Panicked <==> |lh| >= LOGSIZE || |lh| >= g.size - 1 || out < 1
    ensures var o := M.Next(g, st, M.LogWrite(who[h], b));
            o != M.Panicked && Next(s, Pin(h)) == Ok(s') && Unique(s'.c) ==>
            o.Ok? && Matches(s', M.Absorb(lh, b), out, who, o.s)
  {
    HolderEntry(s, who, h, i, b, st.cache);
    if Next(s, Pin(h)) == Ok(s') && Unique(s'.c) {
      PinCaches(s, s', who, h, i, b, st.cache);
    }
  }

  /** The steps of a brelse: a buffer that is not pinned is free to be recycled at once. */
  function ReleaseSteps(p: nat, b: nat, dirty: bool): seq<M.Step> {
    if dirty then [M.Release(p, b)] else [M.Release(p, b), M.Evict(b)]
  }

  /** The state that these steps lead to. */
  function AfterRelease(st: M.State, b: nat): M.State
    requires b in st.cache
  {
    st.(cache := if st.cache[b].dirty then st.cache[b := st.cache[b].(holder := None)] else st.cache - {b})
  }

  lemma ReleasePasses(g: Geometry, st: M.State, p: nat, b: nat)
    requires GoodGeometry(g, |st.disk|) && b in st.cache && st.cache[b].holder == Some(p) && !st.cache[b].modified
    ensures Passes(g, st, ReleaseSteps(p, b, st.cache[b].dirty), AfterRelease(st, b), [])
  {
    var st1 := M.Next(g, st, M.Release(p, b)).s;
    PassesOne(g, st, M.Release(p, b), st1);
    if !st.cache[b].dirty {
      var st' := AfterRelease(st, b);
      assert st1.cache - {b} == st.cache - {b};
      PassesOne(g, st1, M.Evict(b), st');
      PassesConcat(g, st, [M.Release(p, b)], st1, [], [M.Evict(b)], st', []);
      assert [M.Release(p, b)] + [M.Evict(b)] == ReleaseSteps(p, b, false);
    }
  }

  lemma ReleaseMatches(g: Geometry, s: Sys, s': Sys, lh: seq<nat>, out: int, who: map<nat, nat>, st: M.State,
                       h: nat, b: nat, i: nat)
    requires GoodGeometry(g, |s.disk|) && UsesOk(s) && Unique(s'.c) && Matches(s, lh, out, who, st)
    requires HasBlock(s, h, i, b) && s.handles[h].phase == Holding(false) && Released(s, s', h, i) && h in who
    ensures b in st.cache && st.cache[b].dirty == s.c.buf[i].dirty
    ensures Matches(s', lh, out, who - {h}, AfterRelease(st, b))
    ensures Passes(g, st, ReleaseSteps(who[h], b, s.c.buf[i].dirty), AfterRelease(st, b), [])
  {
    HolderEntry(s, who, h, i, b, st.cache);
    ReleaseCaches(s, s', who, h, i, b, st.cache);
    ReleasePasses(g, st, who[h], b);
  }

  /** No process that has logged what it changed stands in the way of its end_op. */
  lemma EndEnabled(g: Geometry, s: Sys, who: map<nat, nat>, st: M.State, op: nat)
    requires UsesOk(s) && Caches(s, who, st.cache) && op in st.ops
    requires forall h :: h in s.handles && h in who && who[h] == op ==> s.handles[h].phase == Holding(false)
    ensures forall b :: b in st.cache ==> !(st.cache[b].holder == Some(op) && st.cache[b].modified)
  {
    forall b | b in st.cache
      ensures !(st.cache[b].holder == Some(op) && st.cache[b].modified)
    {
      assert UsedFor(s, b);
      var i: nat :| i < |s.c.buf| && Labelled(s.c.buf[i], ROOTDEV, b) && InUse(s.c.buf[i]);
      assert UseOk(s, i) && EntryIs(s, who, i, st.cache[b]);
    }
  }

  /** The last operation out: from an idle cache, the steps of commit(). */
  lemma CommitMatches(g: Geometry, s: Sys, s': Sys, lh: seq<nat>, who: map<nat, nat>, st: M.State)
    requires GoodGeometry(g, |s.disk|) && GoodHeader(g, |s.disk|, lh) && Idle(s, lh) && Idle(s', [])
    requires st.disk == s.disk && st.lh == lh && st.phase == M.WritingLog(0) && Caches(s, who, st.cache)
    requires |s.stored| == |s.disk| && s'.disk == CommitDisk(g, s.disk, s.stored, lh)
    ensures GoodHeader(g, |st.disk|, st.lh) && |s.stored| == |st.disk|
    ensures Passes(g, st, CommitSteps(g, lh), AfterCommit(g, st, s.stored), CommitWrites(g, s.disk, s.stored, lh))
    ensures Matches(s', [], st.outstanding, who, AfterCommit(g, st, s.stored))
  {
    IdleCaches(s, who, lh, st.cache);
    CommitPasses(g, st, s.stored);
    EmptyCaches(s', who);
  }
}
