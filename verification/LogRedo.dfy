/** The disks that commit() and recover_from_log() pass through, and what each of them recovers to. */
module LogRedo {
  import opened Blocks
  import opened LogFormat
  import opened LogSafety

  /** Recovery of d succeeds and leaves the contents of `target` in every home block. */
  ghost predicate RecoversTo(g: Geometry, d: Disk, target: Disk) {
    && GoodGeometry(g, |d|) && |target| == |d|
    && GoodHeader(g, |d|, HeaderOf(d[g.start]))
    && forall b: nat :: Home(g, |d|, b) ==> Recover(g, d)[b] == target[b]
  }

  /** The disk after write_log has copied the first k blocks of h from the cache contents c. */
  function Logged(g: Geometry, d: Disk, c: Disk, h: seq<nat>, k: nat): (d': Disk)
    requires k <= |h| && g.start + k < |d| == |c|
    requires forall j :: 0 <= j < |h| ==> h[j] < |d|
    ensures |d'| == |d|
  {
    if k == 0 then d else Logged(g, d, c, h, k - 1)[g.start + k := c[h[k - 1]]]
  }

  /** The disks write_log passes through, one for each write. */
  function LogTrace(g: Geometry, d: Disk, c: Disk, h: seq<nat>, k: nat): (t: seq<Disk>)
    requires k <= |h| && g.start + k < |d| == |c|
    requires forall j :: 0 <= j < |h| ==> h[j] < |d|
    ensures |t| == k
  {
    if k == 0 then [] else LogTrace(g, d, c, h, k - 1) + [Logged(g, d, c, h, k)]
  }

  /** The disks install_trans passes through, one for each write. */
  function InstallTrace(g: Geometry, d: Disk, h: seq<nat>, k: nat): (t: seq<Disk>)
    requires k <= |h| && g.start + k < |d|
    requires forall j :: 0 <= j < |h| ==> h[j] < |d|
    ensures |t| == k
  {
    if k == 0 then [] else InstallTrace(g, d, h, k - 1) + [Install(g, d, h, k)]
  }

  lemma {:induction false} LogTraceRecovers(g: Geometry, d: Disk, c: Disk, h: seq<nat>, k: nat)
    requires GoodGeometry(g, |d|) && GoodHeader(g, |d|, h) && k <= |h| && |c| == |d|
    requires HeaderOf(d[g.start]) == []
    ensures forall i :: 0 <= i < k ==> RecoversTo(g, LogTrace(g, d, c, h, k)[i], d)
  {
    if k > 0 {
      LogTraceRecovers(g, d, c, h, k - 1);
      LoggedHarmless(g, d, c, h, k);
    }
  }

  lemma {:induction false} InstallTraceRecovers(g: Geometry, d: Disk, c: Disk, h: seq<nat>, k: nat)
    requires Committed(g, d, c, h) && k <= |h|
    ensures forall i :: 0 <= i < k ==> RecoversTo(g, InstallTrace(g, d, h, k)[i], c)
  {
    if k > 0 {
      InstallTraceRecovers(g, d, c, h, k - 1);
      InstallCommitted(g, d, c, h, k);
      CommittedRecovers(g, Install(g, d, h, k), c, h);
    }
  }

  lemma {:induction false} LoggedAt(g: Geometry, d: Disk, c: Disk, h: seq<nat>, k: nat)
    requires GoodGeometry(g, |d|) && GoodHeader(g, |d|, h) && k <= |h| && |c| == |d|
    ensures forall j :: 0 <= j < k ==> Logged(g, d, c, h, k)[g.start + 1 + j] == c[h[j]]
    ensures forall b :: 0 <= b < |d| && !(g.start < b <= g.start + k) ==> Logged(g, d, c, h, k)[b] == d[b]
  {
    if k > 0 {
      LoggedAt(g, d, c, h, k - 1);
    }
  }

  /** No disk during write_log recovers to anything but the old contents. */
  lemma LoggedHarmless(g: Geometry, d: Disk, c: Disk, h: seq<nat>, k: nat)
    requires GoodGeometry(g, |d|) && GoodHeader(g, |d|, h) && k <= |h| && |c| == |d|
    requires HeaderOf(d[g.start]) == []
    ensures RecoversTo(g, Logged(g, d, c, h, k), d)
  {
    LoggedAt(g, d, c, h, k);
    var d' := Logged(g, d, c, h, k);
    assert d'[g.start] == d[g.start];
    assert GoodHeader(g, |d|, []);
    RecoverAt(g, d');
  }

  /** The cache contents c differ from the disk d in listed blocks only. */
  ghost predicate Behind(g: Geometry, d: Disk, c: Disk, h: seq<nat>) {
    && |c| == |d|
    && forall b: nat :: Home(g, |d|, b) && b !in h ==> c[b] == d[b]
  }

  /** The disk with every log block written and the header block hb, and k blocks installed, recovers to
      the new contents. */
  ghost predicate Committed(g: Geometry, d: Disk, c: Disk, h: seq<nat>) {
    && GoodGeometry(g, |d|) && |c| == |d| && GoodHeader(g, |d|, h)
    && HeaderOf(d[g.start]) == h
    && (forall j :: 0 <= j < |h| ==> d[g.start + 1 + j] == c[h[j]])
    && (forall b: nat :: Home(g, |d|, b) && b !in h ==> d[b] == c[b])
  }

  lemma CommittedRecovers(g: Geometry, d: Disk, c: Disk, h: seq<nat>)
    requires Committed(g, d, c, h)
    ensures RecoversTo(g, d, c)
  {
    RecoverAt(g, d);
    forall b: nat | Home(g, |d|, b)
      ensures Recover(g, d)[b] == c[b]
    {
      if b in h {
        var j :| 0 <= j < |h| && h[j] == b;
      }
    }
  }

  /** Writing the header on top of a complete log commits. */
  lemma HeadCommits(g: Geometry, d: Disk, c: Disk, h: seq<nat>, hb: Block)
    requires GoodGeometry(g, |d|) && GoodHeader(g, |d|, h) && Behind(g, d, c, h) && HeaderOf(hb) == h
    ensures Committed(g, Logged(g, d, c, h, |h|)[g.start := hb], c, h)
  {
    LoggedAt(g, d, c, h, |h|);
    var d1 := Logged(g, d, c, h, |h|);
    var d2 := d1[g.start := hb];
    assert d2[g.start] == hb;
    forall j | 0 <= j < |h|
      ensures d2[g.start + 1 + j] == c[h[j]]
    {
      assert d2[g.start + 1 + j] == d1[g.start + 1 + j];
    }
  }

  /** Installing any number of blocks keeps the disk committed. */
  lemma InstallCommitted(g: Geometry, d: Disk, c: Disk, h: seq<nat>, k: nat)
    requires Committed(g, d, c, h) && k <= |h|
    ensures Committed(g, Install(g, d, h, k), c, h)
  {
    InstallAt(g, d, h, k);
    var d' := Install(g, d, h, k);
    assert g.start !in h[..k];
    assert d'[g.start] == d[g.start];
    forall j | 0 <= j < |h|
      ensures d'[g.start + 1 + j] == c[h[j]]
    {
      assert g.start + 1 + j !in h[..k];
    }
    forall b: nat | Home(g, |d|, b) && b !in h
      ensures d'[b] == c[b]
    {
      assert b !in h[..k];
    }
  }

  /** Once every block is installed, the home blocks hold the new contents, and erasing the header
      leaves it that way. */
  lemma EraseCommitted(g: Geometry, d: Disk, c: Disk, h: seq<nat>, hb: Block)
    requires Committed(g, d, c, h) && HeaderOf(hb) == []
    ensures var d' := Install(g, d, h, |h|)[g.start := hb];
            && HeaderOf(d'[g.start]) == []
            && (forall b: nat :: Home(g, |d|, b) ==> d'[b] == c[b])
            && RecoversTo(g, d', c)
  {
    InstallAt(g, d, h, |h|);
    assert h[..|h|] == h;
    var d1 := Install(g, d, h, |h|);
    var d' := d1[g.start := hb];
    forall b: nat | Home(g, |d|, b)
      ensures d'[b] == c[b]
    {
      if b in h {
        var j :| 0 <= j < |h| && h[j] == b;
      }
    }
    assert GoodHeader(g, |d|, []);
    RecoverAt(g, d');
  }

  /** The disk after write_log and write_head. */
  function HeadDisk(g: Geometry, d: Disk, c: Disk, h: seq<nat>): (d': Disk)
    requires GoodGeometry(g, |d|) && GoodHeader(g, |d|, h) && |c| == |d|
    ensures |d'| == |d|
  {
    var d1 := Logged(g, d, c, h, |h|);
    d1[g.start := PutHeader(d1[g.start], h, |h|)]
  }

  /** The disk after install_trans and the write_head that erases the list. */
  function ApplyDisk(g: Geometry, d: Disk, h: seq<nat>): (d': Disk)
    requires GoodGeometry(g, |d|) && GoodHeader(g, |d|, h)
    ensures |d'| == |d|
  {
    var d1 := Install(g, d, h, |h|);
    d1[g.start := PutHeader(d1[g.start], [], 0)]
  }

  /** The disks that install_trans and the erasing write_head pass through. */
  function ApplyTrace(g: Geometry, d: Disk, h: seq<nat>): (t: seq<Disk>)
    requires GoodGeometry(g, |d|) && GoodHeader(g, |d|, h)
    ensures |t| == |h| + 1
  {
    InstallTrace(g, d, h, |h|) + [ApplyDisk(g, d, h)]
  }

  lemma ApplyRecovers(g: Geometry, d: Disk, c: Disk, h: seq<nat>)
    requires Committed(g, d, c, h)
    ensures forall i :: 0 <= i < |h| + 1 ==> RecoversTo(g, ApplyTrace(g, d, h)[i], c)
    ensures forall b: nat :: Home(g, |d|, b) ==> ApplyDisk(g, d, h)[b] == c[b]
    ensures HeaderOf(ApplyDisk(g, d, h)[g.start]) == []
  {
    var d1 := Install(g, d, h, |h|);
    InstallTraceRecovers(g, d, c, h, |h|);
    HeaderRoundTrip(d1[g.start], []);
    EraseCommitted(g, d, c, h, PutHeader(d1[g.start], [], 0));
  }

  /** Every disk commit() passes through: write_log, write_head, install_trans, write_head. */
  function CommitTrace(g: Geometry, d: Disk, c: Disk, h: seq<nat>): (t: seq<Disk>)
    requires GoodGeometry(g, |d|) && GoodHeader(g, |d|, h) && |c| == |d|
    ensures |t| == 2 * |h| + 2
  {
    LogTrace(g, d, c, h, |h|) + [HeadDisk(g, d, c, h)] + ApplyTrace(g, HeadDisk(g, d, c, h), h)
  }

  /** The disks a whole commit() passes through, and the one it ends with; an empty transaction writes
      nothing. */
  function CommitWrites(g: Geometry, d: Disk, c: Disk, h: seq<nat>): (t: seq<Disk>)
    requires GoodGeometry(g, |d|) && GoodHeader(g, |d|, h) && |c| == |d|
    ensures |t| == if h == [] then 0 else 2 * |h| + 2
  {
    if h == [] then [] else CommitTrace(g, d, c, h)
  }

  function CommitDisk(g: Geometry, d: Disk, c: Disk, h: seq<nat>): (d': Disk)
    requires GoodGeometry(g, |d|) && GoodHeader(g, |d|, h) && |c| == |d|
    ensures |d'| == |d|
  {
    if h == [] then d else ApplyDisk(g, HeadDisk(g, d, c, h), h)
  }

  /** Atomicity: the disks before the header is written recover to the old contents, all later ones to
      the new. At the end the home blocks hold the new contents and the header is empty. */
  lemma CommitAtomic(g: Geometry, d: Disk, c: Disk, h: seq<nat>)
    requires GoodGeometry(g, |d|) && GoodHeader(g, |d|, h) && Behind(g, d, c, h) && HeaderOf(d[g.start]) == []
    ensures var t := CommitTrace(g, d, c, h);
            && (forall i :: 0 <= i < |t| ==> RecoversTo(g, t[i], if i < |h| then d else c))
            && (forall b: nat :: Home(g, |d|, b) ==> t[|t| - 1][b] == c[b])
            && HeaderOf(t[|t| - 1][g.start]) == []
  {
    var d1 := Logged(g, d, c, h, |h|);
    var hb := PutHeader(d1[g.start], h, |h|);
    HeaderRoundTrip(d1[g.start], h);
    var d2 := d1[g.start := hb];
    HeadCommits(g, d, c, h, hb);
    LogTraceRecovers(g, d, c, h, |h|);
    CommittedRecovers(g, d2, c, h);
    ApplyRecovers(g, d2, c, h);
  }

  /** A crash at any point of recovery loses nothing: recovery can start over. */
  lemma RecoveryRestarts(g: Geometry, d: Disk)
    requires GoodGeometry(g, |d|) && GoodHeader(g, |d|, HeaderOf(d[g.start]))
    ensures var t := ApplyTrace(g, d, HeaderOf(d[g.start]));
            && (forall i :: 0 <= i < |t| ==> RecoversTo(g, t[i], Recover(g, d)))
            && t[|t| - 1] == Recover(g, d)
            && HeaderOf(Recover(g, d)[g.start]) == []
  {
    var h := HeaderOf(d[g.start]);
    RecoverAt(g, d);
    assert Committed(g, d, Recover(g, d), h);
    ApplyRecovers(g, d, Recover(g, d), h);
  }
}
