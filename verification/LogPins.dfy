/** The pinned buffers: between commits they are exactly the blocks of log.lh, in every run of any
    number of clients of the buffer cache. */
module LogPins {
  import opened Common
  import opened Params
  import opened LogFormat
  import opened CacheMachine
  import opened CacheSafety
  import opened LogCommit
  import LogMachine

  /** The cache and log.lh.block. */
  datatype Log = Log(s: Sys, lh: seq<nat>)

  /** What clients do between commits: bread, change and brelse, in pieces and interleaved, and log_write
      of a home block. bwrite is left to the log. */
  datatype Step = Client(step: CacheMachine.Step) | Write(h: nat)

  ghost predicate Takes(g: Geometry, w: Log, step: Step, w': Log) {
    match step
    case Client(c) => !c.Store? && !c.Pin? && Next(w.s, c) == Ok(w'.s) && w'.lh == w.lh
    case Write(h) =>
      && Next(w.s, Pin(h)) == Ok(w'.s)
      && Home(g, |w.s.disk|, w.s.c.buf[w.s.handles[h].slot].blockno)
      && |w.lh| < LOGSIZE && |w.lh| < g.size - 1
      && w'.lh == LogMachine.Absorb(w.lh, w.s.c.buf[w.s.handles[h].slot].blockno)
  }

  ghost predicate Listed(g: Geometry, w: Log) {
    Inv(w.s) && PinsAre(w.s, w.lh) && GoodHeader(g, |w.s.disk|, w.lh)
  }

  /** Nothing but recycling, which spares dirty slots, changes a label. */
  lemma SamePins(s: Sys, s': Sys, lh: seq<nat>)
    requires |s'.c.buf| == |s.c.buf| && PinsAre(s, lh)
    requires forall j :: 0 <= j < |s.c.buf| ==> s'.c.buf[j].dirty == s.c.buf[j].dirty
    requires forall j :: 0 <= j < |s.c.buf| && s.c.buf[j].dirty ==>
               s'.c.buf[j].dev == s.c.buf[j].dev && s'.c.buf[j].blockno == s.c.buf[j].blockno
    ensures PinsAre(s', lh)
  {
    forall x: nat
      ensures Pinned(s', x) <==> Pinned(s, x)
    {
      if Pinned(s, x) {
        var j :| 0 <= j < |s.c.buf| && Labelled(s.c.buf[j], ROOTDEV, x) && s.c.buf[j].dirty;
        assert Labelled(s'.c.buf[j], ROOTDEV, x);
      }
      if Pinned(s', x) {
        var j :| 0 <= j < |s'.c.buf| && Labelled(s'.c.buf[j], ROOTDEV, x) && s'.c.buf[j].dirty;
        assert Labelled(s.c.buf[j], ROOTDEV, x);
      }
    }
  }

  lemma ClientKeepsPins(s: Sys, s': Sys, step: CacheMachine.Step, lh: seq<nat>)
    requires Inv(s) && Next(s, step) == Ok(s') && !step.Store? && !step.Pin? && PinsAre(s, lh)
    ensures PinsAre(s', lh)
  {
    if step.StartRead? {
      VictimSpec(s.c, |s.c.order|);
    }
    SamePins(s, s', lh);
  }

  /** log_write pins the block, whether or not it was pinned, and no other. */
  lemma PinAdds(s: Sys, s': Sys, h: nat)
    requires Inv(s) && Next(s, Pin(h)) == Ok(s')
    ensures forall x: nat :: Pinned(s', x) <==> Pinned(s, x) || x == s.c.buf[s.handles[h].slot].blockno
  {
    var i := s.handles[h].slot;
    assert s.c.buf[i].dev == ROOTDEV;
    forall x: nat
      ensures Pinned(s', x) <==> Pinned(s, x) || x == s.c.buf[i].blockno
    {
      if Pinned(s, x) {
        var j :| 0 <= j < |s.c.buf| && Labelled(s.c.buf[j], ROOTDEV, x) && s.c.buf[j].dirty;
        assert Labelled(s'.c.buf[j], ROOTDEV, x) && s'.c.buf[j].dirty;
      }
      if x == s.c.buf[i].blockno {
        assert Labelled(s'.c.buf[i], ROOTDEV, x) && s'.c.buf[i].dirty;
      }
      if Pinned(s', x) {
        var j :| 0 <= j < |s'.c.buf| && Labelled(s'.c.buf[j], ROOTDEV, x) && s'.c.buf[j].dirty;
        assert j != i ==> Labelled(s.c.buf[j], ROOTDEV, x) && s.c.buf[j].dirty;
      }
    }
  }

  /** So the list names it too, once. */
  lemma WriteListed(g: Geometry, s: Sys, s': Sys, h: nat, lh: seq<nat>, b: nat)
    requires Inv(s) && Next(s, Pin(h)) == Ok(s') && b == s.c.buf[s.handles[h].slot].blockno
    requires PinsAre(s, lh) && GoodHeader(g, |s.disk|, lh) && Home(g, |s.disk|, b) && |lh| < LOGSIZE
    requires |lh| < g.size - 1
    ensures PinsAre(s', LogMachine.Absorb(lh, b)) && GoodHeader(g, |s.disk|, LogMachine.Absorb(lh, b))
  {
    PinAdds(s, s', h);
  }

  lemma StepListed(g: Geometry, w: Log, step: Step, w': Log)
    requires Listed(g, w) && Takes(g, w, step, w')
    ensures Listed(g, w')
  {
    match step
    case Client(c) =>
      StepInv(w.s, c);
      ClientKeepsPins(w.s, w'.s, c, w.lh);
    case Write(h) =>
      StepInv(w.s, Pin(h));
      WriteListed(g, w.s, w'.s, h, w.lh, w.s.c.buf[w.s.handles[h].slot].blockno);
  }

  ghost predicate Run(g: Geometry, w: Log, steps: seq<Step>, w': Log)
    decreases |steps|
  {
    if steps == [] then w' == w
    else
      var rest, last := steps[..|steps| - 1], steps[|steps| - 1];
      exists m :: Run(g, w, rest, m) && Takes(g, m, last, w')
  }

  lemma {:induction false} RunListed(g: Geometry, w: Log, steps: seq<Step>, w': Log)
    requires Listed(g, w) && Run(g, w, steps, w')
    ensures Listed(g, w')
    decreases |steps|
  {
    if steps != [] {
      var rest, last := steps[..|steps| - 1], steps[|steps| - 1];
      var m :| Run(g, w, rest, m) && Takes(g, m, last, w');
      RunListed(g, w, rest, m);
      StepListed(g, m, last, w');
    }
  }

  /** Whatever clients have done since the last commit, once none of them holds a buffer the cache is as
      commit() needs it: the list and nothing else is pinned. It then has a slot for bread to recycle
      exactly when the list is shorter than the cache. */
  lemma ReadyToCommit(g: Geometry, w: Log, steps: seq<Step>, w': Log)
    requires Idle(w.s, []) && w.lh == [] && 0 < g.size && Run(g, w, steps, w') && w'.s.handles == map[]
    ensures Idle(w'.s, w'.lh) && GoodHeader(g, |w'.s.disk|, w'.lh)
    ensures (exists i :: 0 <= i < |w'.s.c.buf| && Recyclable(w'.s.c.buf[i])) <==> |w'.lh| < |w'.s.c.buf|
  {
    RunListed(g, w, steps, w');
    if |w'.lh| < |w'.s.c.buf| {
      IdleHasRoom(w'.s, w'.lh);
    } else if i: nat :| i < |w'.s.c.buf| && Recyclable(w'.s.c.buf[i]) {
      PinsFill(w'.s, w'.lh, i);
    }
  }

  /** A clean slot is one that no listed block needs. */
  lemma PinsFill(s: Sys, lh: seq<nat>, i: nat)
    requires PinsAre(s, lh) && Distinct(lh) && i < |s.c.buf| && !s.c.buf[i].dirty
    ensures |lh| < |s.c.buf|
  {
    var xs := s.c.buf[..i] + s.c.buf[i + 1..];
    forall x | x in Elements(lh)
      ensures x in BlocksOf(xs)
    {
      assert Pinned(s, x);
      var j: nat :| j < |s.c.buf| && Labelled(s.c.buf[j], ROOTDEV, x) && s.c.buf[j].dirty;
      assert xs[if j < i then j else j - 1] == s.c.buf[j];
      BlocksOfHas(xs, x);
    }
    SubsetSize(Elements(lh), BlocksOf(xs));
    DistinctSize(lh);
    BlocksOfSize(xs);
  }

  lemma {:induction false} DistinctSize(s: seq<nat>)
    requires Distinct(s)
    ensures |Elements(s)| == |s|
  {
    if s != [] {
      var rest, last := s[..|s| - 1], s[|s| - 1];
      DistinctSize(rest);
      assert s == rest + [last];
      assert Elements(s) == Elements(rest) + {last};
    }
  }

  lemma {:induction false} BlocksOfSize(xs: seq<Buf>)
    ensures |BlocksOf(xs)| <= |xs|
  {
    if xs != [] {
      BlocksOfSize(xs[..|xs| - 1]);
    }
  }
}
