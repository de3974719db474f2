/** log.c as it is coded, over the buffer cache: commit and recovery of one log, with the disk after
    every single write on record. */
module LogCommit {
  import opened Common
  import opened Blocks
  import opened CacheMachine
  import opened CacheSafety
  import opened Bio

  // ---------- Pinned blocks ----------

  /** Some slot holds block b with B_DIRTY set. */
  ghost predicate Pinned(s: Sys, b: nat) {
    exists i :: 0 <= i < |s.c.buf| && Labelled(s.c.buf[i], ROOTDEV, b) && s.c.buf[i].dirty
  }

  /** Exactly the blocks of lh are pinned. */
  ghost predicate PinsAre(s: Sys, lh: seq<nat>) {
    forall x: nat :: Pinned(s, x) <==> x in lh
  }

  lemma ReadKeepsPins(s: Sys, s': Sys, h: nat, b: nat, i: nat)
    requires Inv(s) && Inv(s') && ReadBlock(s, s', h, b, i)
    ensures forall x: nat :: Pinned(s', x) <==> Pinned(s, x)
  {
    forall x: nat
      ensures Pinned(s', x) <==> Pinned(s, x)
    {
      if Pinned(s, x) {
        var j :| 0 <= j < |s.c.buf| && Labelled(s.c.buf[j], ROOTDEV, x) && s.c.buf[j].dirty;
        assert Labelled(s'.c.buf[j], ROOTDEV, x) && s'.c.buf[j].dirty;
      }
      if Pinned(s', x) {
        var j :| 0 <= j < |s'.c.buf| && Labelled(s'.c.buf[j], ROOTDEV, x) && s'.c.buf[j].dirty;
        assert Labelled(s.c.buf[j], ROOTDEV, x) && s.c.buf[j].dirty;
      }
    }
  }

  lemma ReleaseKeepsPins(s: Sys, s': Sys, h: nat, i: nat)
    requires Released(s, s', h, i)
    ensures forall x: nat :: Pinned(s', x) <==> Pinned(s, x)
  {
    assert forall j :: 0 <= j < |s.c.buf| ==>
             s'.c.buf[j].dev == s.c.buf[j].dev && s'.c.buf[j].blockno == s.c.buf[j].blockno
                                              && s'.c.buf[j].dirty == s.c.buf[j].dirty;
    forall x: nat
      ensures Pinned(s', x) <==> Pinned(s, x)
    {
      if Pinned(s, x) {
        var j :| 0 <= j < |s.c.buf| && Labelled(s.c.buf[j], ROOTDEV, x) && s.c.buf[j].dirty;
        assert Labelled(s'.c.buf[j], ROOTDEV, x) && s'.c.buf[j].dirty;
      }
      if Pinned(s', x) {
        var j :| 0 <= j < |s'.c.buf| && Labelled(s'.c.buf[j], ROOTDEV, x) && s'.c.buf[j].dirty;
        assert Labelled(s.c.buf[j], ROOTDEV, x) && s.c.buf[j].dirty;
      }
    }
  }

  /** The client that holds slot i fills it with data and calls bwrite. */
  ghost predicate Overwritten(s: Sys, s': Sys, h: nat, i: nat, data: Block) {
    && i < |s.c.buf| && s.c.buf[i].blockno < |s.disk| == |s.stored| && h in s.handles && s.handles[h].slot == i
    && s' == s.(c := s.c.(buf := s.c.buf[i := s.c.buf[i].(data := data, dirty := false)]),
                disk := s.disk[s.c.buf[i].blockno := data], stored := s.stored[s.c.buf[i].blockno := data],
                handles := s.handles[h := Handle(i, Holding(false))])
  }

  lemma OverwriteUnpins(s: Sys, s': Sys, h: nat, i: nat, data: Block)
    requires Inv(s) && Overwritten(s, s', h, i, data)
    ensures forall x: nat :: Pinned(s', x) <==> Pinned(s, x) && x != s.c.buf[i].blockno
  {
    assert s.c.buf[i].dev == ROOTDEV;
    forall x: nat
      ensures Pinned(s', x) <==> Pinned(s, x) && x != s.c.buf[i].blockno
    {
      if Pinned(s, x) && x != s.c.buf[i].blockno {
        var j :| 0 <= j < |s.c.buf| && Labelled(s.c.buf[j], ROOTDEV, x) && s.c.buf[j].dirty;
        assert Labelled(s'.c.buf[j], ROOTDEV, x) && s'.c.buf[j].dirty;
      }
      if Pinned(s', x) {
        var j :| 0 <= j < |s'.c.buf| && Labelled(s'.c.buf[j], ROOTDEV, x) && s'.c.buf[j].dirty;
        assert j != i;
        assert Labelled(s.c.buf[j], ROOTDEV, x) && s.c.buf[j].dirty;
      }
    }
  }

  /** The first k slots cannot all be pinned by a list with fewer than k blocks. */
  lemma PinsFit(s: Sys, lh: seq<nat>, k: nat)
    requires Unique(s.c) && k <= |s.c.buf|
    requires forall i :: 0 <= i < k ==> s.c.buf[i].dev == ROOTDEV && s.c.buf[i].blockno in lh
    ensures k <= |lh|
  {
    var xs := s.c.buf[..k];
    BlocksSize(xs);
    forall b | b in BlocksOf(xs)
      ensures b in Elements(lh)
    {
      BlocksOfHas(xs, b);
    }
    SubsetSize(BlocksOf(s.c.buf[..k]), Elements(lh));
    ElementsSize(lh);
  }

  ghost function BlocksOf(xs: seq<Buf>): set<nat> {
    if xs == [] then {} else BlocksOf(xs[..|xs| - 1]) + {xs[|xs| - 1].blockno}
  }

  lemma {:induction false} BlocksOfHas(xs: seq<Buf>, b: nat)
    ensures b in BlocksOf(xs) <==> exists i :: 0 <= i < |xs| && xs[i].blockno == b
  {
    if xs != [] {
      var rest := xs[..|xs| - 1];
      BlocksOfHas(rest, b);
      assert forall i :: 0 <= i < |rest| ==> rest[i] == xs[i];
    }
  }

  lemma {:induction false} BlocksSize(xs: seq<Buf>)
    requires forall i, j :: 0 <= i < j < |xs| ==> xs[i].blockno != xs[j].blockno
    ensures |BlocksOf(xs)| == |xs|
  {
    if xs != [] {
      var rest := xs[..|xs| - 1];
      BlocksSize(rest);
      BlocksOfHas(rest, xs[|xs| - 1].blockno);
    }
  }

  ghost function Elements(s: seq<nat>): set<nat> {
    set x | x in s
  }

  lemma {:induction false} ElementsSize(s: seq<nat>)
    ensures |Elements(s)| <= |s|
  {
    if s != [] {
      var rest := s[..|s| - 1];
      ElementsSize(rest);
      assert s == rest + [s[|s| - 1]];
      assert Elements(s) == Elements(rest) + {s[|s| - 1]};
    }
  }

  // ---------- Copying a block ----------

  /** No client refers to any buffer, and exactly the blocks of lh are pinned. */
  ghost predicate Idle(s: Sys, lh: seq<nat>) {
    Inv(s) && s.handles == map[] && PinsAre(s, lh)
  }

  lemma IdleSlot(s: Sys, i: nat)
    requires Inv(s) && s.handles == map[] && i < |s.c.buf|
    ensures s.c.buf[i].refcnt == 0 && s.c.buf[i].holder == None
  {
    assert At(s, i) == {};
    Unreferenced(s, i);
  }

  /** With fewer pinned blocks than slots, an idle cache has a slot to recycle. */
  lemma IdleHasRoom(s: Sys, lh: seq<nat>)
    requires Idle(s, lh) && |lh| < |s.c.buf|
    ensures exists i :: 0 <= i < |s.c.buf| && Recyclable(s.c.buf[i])
  {
    if forall i :: 0 <= i < |s.c.buf| ==> !Recyclable(s.c.buf[i]) {
      forall i: nat | i < |s.c.buf|
        ensures s.c.buf[i].dev == ROOTDEV && s.c.buf[i].blockno in lh
      {
        IdleSlot(s, i);
        assert SlotOk(s, i) && Labelled(s.c.buf[i], ROOTDEV, s.c.buf[i].blockno);
        assert Pinned(s, s.c.buf[i].blockno);
      }
      PinsFit(s, lh, |s.c.buf|);
    }
  }

  /** The only clients are hs and hd, and they hold the buffers of src and dst. */
  ghost predicate BothHeld(s: Sys, hs: nat, si: nat, src: nat, hd: nat, di: nat, dst: nat) {
    && s.handles == map[hs := Handle(si, Holding(false)), hd := Handle(di, Holding(false))] && hs != hd && si != di
    && si < |s.c.buf| && di < |s.c.buf|
    && Labelled(s.c.buf[si], ROOTDEV, src) && Labelled(s.c.buf[di], ROOTDEV, dst)
    && s.c.buf[si].valid && s.c.buf[di].valid
    && src < |s.stored| && s.c.buf[si].data == s.stored[src]
  }

  /** Block src has been copied to block dst on the disk, and dst is no longer pinned. */
  ghost predicate Copied(s: Sys, s': Sys, src: nat, dst: nat) {
    && src < |s.disk| && dst < |s.disk| == |s.stored|
    && s'.handles == map[] && |s'.c.buf| == |s.c.buf|
    && s'.disk == s.disk[dst := s.stored[src]] && s'.stored == s.stored[dst := s.stored[src]]
    && (forall x: nat :: Pinned(s', x) <==> Pinned(s, x) && x != dst)
  }

  lemma OverwriteIs(s: Sys, s1: Sys, s2: Sys, h: nat, i: nat, data: Block)
    requires Inv(s) && h in s.handles && s.handles[h].slot == i && s.handles[h].phase.Holding? && s.c.buf[i].valid
    requires Next(s, Change(h, data)) == Ok(s1) && Next(s1, Store(h)) == Ok(s2)
    ensures Overwritten(s, s2, h, i, data)
  {
    assert SlotOk(s, i);
    var x := s.c.buf[i];
    assert s2.c.buf == s.c.buf[i := x.(data := data, dirty := false)];
  }

  lemma CopyDone(s: Sys, s1: Sys, s2: Sys, s3: Sys, hs: nat, si: nat, src: nat, hd: nat, di: nat, dst: nat)
    requires Inv(s) && BothHeld(s, hs, si, src, hd, di, dst) && src < |s.disk| == |s.stored|
    requires Overwritten(s, s1, hd, di, s.stored[src]) && Released(s1, s2, hs, si) && Released(s2, s3, hd, di)
    ensures Copied(s, s3, src, dst)
  {
    OverwriteUnpins(s, s1, hd, di, s.stored[src]);
    ReleaseKeepsPins(s1, s2, hs, si);
    ReleaseKeepsPins(s2, s3, hd, di);
  }

  /** memmove into a buffer the client holds, and bwrite. */
  method Overwrite(bc: BCache, h: nat, i: nat, data: Block)
    requires bc.Valid() && h in bc.handles && bc.handles[h].slot == i && bc.handles[h].phase.Holding? && bc.buf[i].valid
    modifies bc
    ensures bc.Valid() && Overwritten(old(bc.Abs()), bc.Abs(), h, i, data) && bc.history == old(bc.history) + [bc.disk]
  {
    ghost var s := bc.Abs();
    bc.SetData(h, i, data);
    ghost var s1 := bc.Abs();
    bc.Bwrite(h, i);
    OverwriteIs(s, s1, bc.Abs(), h, i, data);
  }

  /** Releasing one buffer leaves another one held. */
  lemma StillHeld(s: Sys, mid: Sys, hs: nat, si: nat, hd: nat, di: nat)
    requires Released(s, mid, hs, si) && hs != hd && si != di && hd in s.handles && di < |s.c.buf| && s.c.buf[di].valid
    ensures hd in mid.handles && mid.handles[hd] == s.handles[hd] && di < |mid.c.buf| && mid.c.buf[di].valid
  {
  }

  /** brelse of both buffers. */
  method ReleaseBoth(bc: BCache, hs: nat, si: nat, hd: nat, di: nat) returns (ghost mid: Sys)
    requires bc.Valid() && hs != hd && hs in bc.handles && hd in bc.handles && si != di
    requires bc.handles[hs] == Handle(si, Holding(false)) && bc.handles[hd] == Handle(di, Holding(false))
    requires si < |bc.buf| && di < |bc.buf| && bc.buf[si].valid && bc.buf[di].valid
    modifies bc
    ensures bc.Valid() && bc.history == old(bc.history)
    ensures Released(old(bc.Abs()), mid, hs, si) && Released(mid, bc.Abs(), hd, di)
  {
    ghost var s, hist := bc.Abs(), bc.history;
    bc.Brelse(hs, si);
    mid := bc.Abs();
    assert bc.history == hist;
    StillHeld(s, mid, hs, si, hd, di);
    bc.Brelse(hd, di);
    assert bc.history == hist;
  }

  /** memmove, bwrite, brelse, brelse: the end of the loop bodies of write_log and install_trans. */
  method Transfer(bc: BCache, hs: nat, si: nat, src: nat, hd: nat, di: nat, dst: nat)
    requires bc.Valid() && BothHeld(bc.Abs(), hs, si, src, hd, di, dst)
    modifies bc
    ensures bc.Valid() && Copied(old(bc.Abs()), bc.Abs(), src, dst) && bc.history == old(bc.history) + [bc.disk]
  {
    ghost var s := bc.Abs();
    Overwrite(bc, hd, di, bc.buf[si].data);
    ghost var s1 := bc.Abs();
    ghost var s2 := ReleaseBoth(bc, hs, si, hd, di);
    CopyDone(s, s1, s2, bc.Abs(), hs, si, src, hd, di, dst);
  }

  // ---------- Reading two blocks ----------

  /** With one buffer in use, there is still a slot for a second block: it is pinned, or there is one
      slot more than pinned blocks besides the buffer in use. */
  lemma SecondHasRoom(s: Sys, s': Sys, lh: seq<nat>, h: nat, a: nat, i: nat, b: nat)
    requires Idle(s, lh) && Inv(s') && ReadBlock(s, s', h, a, i)
    requires b in lh || |lh| + 1 < |s.c.buf|
    ensures exists j :: 0 <= j < |s'.c.buf| && (Labelled(s'.c.buf[j], ROOTDEV, b) || Recyclable(s'.c.buf[j]))
  {
    ReadKeepsPins(s, s', h, a, i);
    if b in lh {
      assert Pinned(s', b);
    } else if forall j :: 0 <= j < |s'.c.buf| ==> !Recyclable(s'.c.buf[j]) {
      forall j: nat | j < |s'.c.buf|
        ensures s'.c.buf[j].dev == ROOTDEV && s'.c.buf[j].blockno in lh + [a]
      {
        if j != i {
          IdleSlot(s, j);
          assert SlotOk(s', j) && Labelled(s'.c.buf[j], ROOTDEV, s'.c.buf[j].blockno);
          assert Pinned(s', s'.c.buf[j].blockno);
        }
      }
      PinsFit(s', lh + [a], |s'.c.buf|);
    }
  }

  /** The buffers of a and b, read one after the other into an idle cache. */
  ghost predicate TwoRead(s: Sys, s': Sys, a: nat, i: nat, b: nat, j: nat) {
    && s'.handles == map[0 := Handle(i, Holding(false)), 1 := Handle(j, Holding(false))]
    && s'.disk == s.disk && s'.stored == s.stored && |s'.c.buf| == |s.c.buf|
    && i < |s.c.buf| && j < |s.c.buf| && i != j
    && a < |s.stored| && b < |s.stored|
    && Labelled(s'.c.buf[i], ROOTDEV, a) && s'.c.buf[i].valid && s'.c.buf[i].data == s.stored[a]
    && Labelled(s'.c.buf[j], ROOTDEV, b) && s'.c.buf[j].valid && s'.c.buf[j].data == s.stored[b]
    && (forall x: nat :: Pinned(s', x) <==> Pinned(s, x))
  }

  lemma TwoReadIs(s: Sys, s1: Sys, s2: Sys, a: nat, i: nat, b: nat, j: nat)
    requires Inv(s) && Inv(s1) && Inv(s2) && s.handles == map[] && a != b
    requires ReadBlock(s, s1, 0, a, i) && ReadBlock(s1, s2, 1, b, j)
    ensures TwoRead(s, s2, a, i, b, j)
  {
    ReadKeepsPins(s, s1, 0, a, i);
    ReadKeepsPins(s1, s2, 1, b, j);
    assert i != j by {
      assert s1.c.buf[i].refcnt > 0;
    }
  }

  /** Only the client that has read block a holds a buffer. */
  lemma OnlyOneHeld(s: Sys, s1: Sys, h: nat, a: nat, i: nat, b: nat)
    requires Inv(s) && s.handles == map[] && ReadBlock(s, s1, h, a, i) && a != b
    ensures forall j :: 0 <= j < |s1.c.buf| && Labelled(s1.c.buf[j], ROOTDEV, b) ==> s1.c.buf[j].holder == None
  {
    forall j: nat | j < |s1.c.buf| && Labelled(s1.c.buf[j], ROOTDEV, b)
      ensures s1.c.buf[j].holder == None
    {
      if j != i {
        IdleSlot(s, j);
      }
    }
  }

  lemma NoneHeld(s: Sys)
    requires Inv(s) && s.handles == map[]
    ensures forall j :: 0 <= j < |s.c.buf| ==> s.c.buf[j].holder == None
  {
    forall j: nat | j < |s.c.buf|
      ensures s.c.buf[j].holder == None
    {
      IdleSlot(s, j);
    }
  }

  /** bread twice, in a cache with room: neither call panics with "bget: no buffers". */
  method ReadTwo(bc: BCache, a: nat, b: nat, ghost lh: seq<nat>) returns (i: nat, j: nat)
    requires bc.Valid() && Idle(bc.Abs(), lh) && a < |bc.disk| && b < |bc.disk| && a != b
    requires |lh| < |bc.buf| && (b in lh || |lh| + 1 < |bc.buf|)
    modifies bc
    ensures bc.Valid() && TwoRead(old(bc.Abs()), bc.Abs(), a, i, b, j) && bc.history == old(bc.history)
  {
    ghost var s := bc.Abs();
    NoneHeld(s);
    IdleHasRoom(s, lh);
    var r := bc.Bread(0, a);
    i := r.value;
    ghost var s1 := bc.Abs();
    OnlyOneHeld(s, s1, 0, a, i, b);
    SecondHasRoom(s, s1, lh, 0, a, i, b);
    r := bc.Bread(1, b);
    j := r.value;
    TwoReadIs(s, s1, bc.Abs(), a, i, b, j);
  }

  /** bread of dst, then of src, and the copy: a step of write_log. */
  method CopyInto(bc: BCache, dst: nat, src: nat, ghost lh: seq<nat>)
    requires bc.Valid() && Idle(bc.Abs(), lh) && dst < |bc.disk| && src < |bc.disk| && dst != src
    requires |lh| < |bc.buf| && (src in lh || |lh| + 1 < |bc.buf|)
    modifies bc
    ensures bc.Valid() && bc.history == old(bc.history) + [bc.disk]
    ensures Copied(old(bc.Abs()), bc.Abs(), src, dst)
  {
    ghost var s := bc.Abs();
    var to, from := ReadTwo(bc, dst, src, lh);
    ghost var s1 := bc.Abs();
    Transfer(bc, 1, from, src, 0, to, dst);
    CopiedFrom(s, s1, bc.Abs(), src, dst);
  }

  /** bread of src, then of dst, and the copy: a step of install_trans. */
  method CopyOut(bc: BCache, src: nat, dst: nat, ghost lh: seq<nat>)
    requires bc.Valid() && Idle(bc.Abs(), lh) && dst < |bc.disk| && src < |bc.disk| && dst != src
    requires |lh| < |bc.buf| && (dst in lh || |lh| + 1 < |bc.buf|)
    modifies bc
    ensures bc.Valid() && bc.history == old(bc.history) + [bc.disk]
    ensures Copied(old(bc.Abs()), bc.Abs(), src, dst)
  {
    ghost var s := bc.Abs();
    var from, to := ReadTwo(bc, src, dst, lh);
    ghost var s1 := bc.Abs();
    Transfer(bc, 0, from, src, 1, to, dst);
    CopiedFrom(s, s1, bc.Abs(), src, dst);
  }

  lemma CopiedFrom(s: Sys, s1: Sys, s2: Sys, src: nat, dst: nat)
    requires s1.disk == s.disk && s1.stored == s.stored && |s1.c.buf| == |s.c.buf|
    requires forall x: nat :: Pinned(s1, x) <==> Pinned(s, x)
    requires Copied(s1, s2, src, dst)
    ensures Copied(s, s2, src, dst)
  {
  }
}
