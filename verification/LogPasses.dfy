/** commit() and recover_from_log() as runs of the log machine that pass through every disk the code
    leaves behind. */
module LogPasses {
  import opened Common
  import opened Blocks
  import opened LogFormat
  import opened LogMachine
  import opened LogRedo
  import LogSpace

  /** The run has x on the disk at some point. */
  ghost predicate Visits(g: Geometry, s: State, steps: seq<Step>, x: Disk)
    requires GoodGeometry(g, |s.disk|)
  {
    exists n: nat :: n <= |steps| && Run(g, s, steps[..n]).Ok? && Run(g, s, steps[..n]).s.disk == x
  }

  /** The run leads from s to s', and has each of these disks at some point. */
  ghost predicate Passes(g: Geometry, s: State, steps: seq<Step>, s': State, disks: seq<Disk>) {
    && GoodGeometry(g, |s.disk|)
    && Run(g, s, steps) == Ok(s')
    && forall i :: 0 <= i < |disks| ==> Visits(g, s, steps, disks[i])
  }

  lemma VisitsBefore(g: Geometry, s: State, a: seq<Step>, b: seq<Step>, x: Disk)
    requires GoodGeometry(g, |s.disk|) && Visits(g, s, a, x)
    ensures Visits(g, s, a + b, x)
  {
    var n: nat :| n <= |a| && Run(g, s, a[..n]).Ok? && Run(g, s, a[..n]).s.disk == x;
    assert (a + b)[..n] == a[..n];
  }

  lemma VisitsAfter(g: Geometry, s: State, a: seq<Step>, s1: State, b: seq<Step>, x: Disk)
    requires GoodGeometry(g, |s.disk|) && Run(g, s, a) == Ok(s1) && Visits(g, s1, b, x)
    ensures Visits(g, s, a + b, x)
  {
    var n: nat :| n <= |b| && Run(g, s1, b[..n]).Ok? && Run(g, s1, b[..n]).s.disk == x;
    var k := |a| + n;
    assert (a + b)[..k] == a + b[..n];
    LogSpace.RunConcat(g, s, a, b[..n]);
    assert Run(g, s, (a + b)[..k]).Ok?;
  }

  lemma PassesConcat(g: Geometry, s: State, a: seq<Step>, s1: State, da: seq<Disk>, b: seq<Step>, s2: State,
                     db: seq<Disk>)
    requires Passes(g, s, a, s1, da) && Passes(g, s1, b, s2, db)
    ensures Passes(g, s, a + b, s2, da + db)
  {
    LogSpace.RunConcat(g, s, a, b);
    forall i | 0 <= i < |da + db|
      ensures Visits(g, s, a + b, (da + db)[i])
    {
      if i < |da| {
        VisitsBefore(g, s, a, b, da[i]);
      } else {
        VisitsAfter(g, s, a, s1, b, db[i - |da|]);
      }
    }
  }

  lemma PassesNothing(g: Geometry, s: State)
    requires GoodGeometry(g, |s.disk|)
    ensures Passes(g, s, [], s, [])
  {
  }

  lemma PassesOne(g: Geometry, s: State, step: Step, s': State)
    requires GoodGeometry(g, |s.disk|) && Next(g, s, step) == Ok(s')
    ensures Passes(g, s, [step], s', [])
  {
    assert [step][1..] == [];
  }

  /** A step that writes the disk, and the eviction of the block it wrote. */
  lemma PassesWrite(g: Geometry, s: State, step: Step, s1: State, b: nat, s': State)
    requires GoodGeometry(g, |s.disk|) && Next(g, s, step) == Ok(s1) && Next(g, s1, Evict(b)) == Ok(s')
    ensures Passes(g, s, [step, Evict(b)], s', [s'.disk])
  {
    var steps := [step, Evict(b)];
    assert steps[1..] == [Evict(b)] && steps[1..][1..] == [];
    assert Run(g, s1, [Evict(b)]) == Ok(s');
    assert steps[..2] == steps;
  }

  // ---------- commit() ----------

  /** What the cache holds of an idle system: the pinned blocks, with the contents last logged. */
  function Pins(lh: seq<nat>, c: Disk): map<nat, Entry>
    requires forall j :: 0 <= j < |lh| ==> lh[j] < |c|
  {
    map b | b in lh :: Entry(c[b], true, None, false)
  }

  /** A state of the machine in which commit() can go on: nobody holds a buffer, and the cache has only home
      blocks, so that bwrite followed by an eviction leaves no trace of the log blocks. */
  ghost predicate Quiet(g: Geometry, s: State) {
    && GoodGeometry(g, |s.disk|) && GoodHeader(g, |s.disk|, s.lh)
    && forall b :: b in s.cache ==> Home(g, |s.disk|, b) && s.cache[b].holder == None
  }

  /** write_log's k iterations. */
  function LogSteps(g: Geometry, k: nat): seq<Step> {
    if k == 0 then [] else LogSteps(g, k - 1) + [WriteLogBlock, Evict(g.start + k)]
  }

  lemma LogBlockPasses(g: Geometry, s: State, s': State, k: nat, next: nat, to: nat, data: Block)
    requires Quiet(g, s) && s.phase == WritingLog(k) && next == k + 1 <= |s.lh| && to == g.start + next
    requires s.lh[k] in s.cache && s.cache[s.lh[k]].data == data
    requires s' == s.(disk := s.disk[to := data], phase := WritingLog(next))
    ensures Passes(g, s, [WriteLogBlock, Evict(to)], s', [s'.disk]) && Quiet(g, s')
  {
    var s1 := Written(s, to, data).(phase := WritingLog(next));
    assert s1.cache - {to} == s.cache;
    PassesWrite(g, s, WriteLogBlock, s1, to, s');
  }

  /** The state once write_log has copied k blocks. */
  function LoggedState(g: Geometry, s: State, c: Disk, k: nat): State
    requires k <= |s.lh| && g.start + k < |s.disk| == |c|
    requires forall j :: 0 <= j < |s.lh| ==> s.lh[j] < |s.disk|
  {
    s.(disk := Logged(g, s.disk, c, s.lh, k), phase := WritingLog(k))
  }

  lemma LoggedNext(g: Geometry, s: State, c: Disk, j: nat, k: nat, to: nat)
    requires GoodGeometry(g, |s.disk|) && GoodHeader(g, |s.disk|, s.lh) && |c| == |s.disk| && s.cache == Pins(s.lh, c)
    requires k == j + 1 <= |s.lh| && to == g.start + k && Quiet(g, LoggedState(g, s, c, j))
    ensures var s1, s' := LoggedState(g, s, c, j), LoggedState(g, s, c, k);
            Passes(g, s1, [WriteLogBlock, Evict(to)], s', [s'.disk]) && Quiet(g, s')
  {
    assert s.lh[j] in s.lh;
    LogBlockPasses(g, LoggedState(g, s, c, j), LoggedState(g, s, c, k), j, k, to, c[s.lh[j]]);
  }

  lemma {:induction false} LogPasses(g: Geometry, s: State, c: Disk, k: nat)
    requires Quiet(g, s) && s.phase == WritingLog(0) && |c| == |s.disk| && s.cache == Pins(s.lh, c) && k <= |s.lh|
    ensures Passes(g, s, LogSteps(g, k), LoggedState(g, s, c, k), LogTrace(g, s.disk, c, s.lh, k))
    ensures Quiet(g, LoggedState(g, s, c, k))
  {
    if k == 0 {
      PassesNothing(g, s);
    } else {
      var j, to := k - 1, g.start + k;
      LogPasses(g, s, c, j);
      LoggedNext(g, s, c, j, k, to);
      var s1, s' := LoggedState(g, s, c, j), LoggedState(g, s, c, k);
      var steps, disks := LogSteps(g, j), LogTrace(g, s.disk, c, s.lh, j);
      PassesConcat(g, s, steps, s1, disks, [WriteLogBlock, Evict(to)], s', [s'.disk]);
      assert LogSteps(g, k) == steps + [WriteLogBlock, Evict(to)];
      assert LogTrace(g, s.disk, c, s.lh, k) == disks + [s'.disk];
    }
  }

  lemma HeadPasses(g: Geometry, s: State, s': State)
    requires Quiet(g, s) && s.phase == WritingLog(|s.lh|) && s.lh != [] && Encodable(s.lh)
    requires s' == s.(disk := s.disk[g.start := PutHeader(s.disk[g.start], s.lh, |s.lh|)], phase := Installing(0),
                      done := s.done + [s.cur], cur := [])
    ensures Passes(g, s, [WriteHead, Evict(g.start)], s', [s'.disk]) && Quiet(g, s')
  {
    var s1 := Written(s, g.start, PutHeader(s.disk[g.start], s.lh, |s.lh|))
              .(phase := Installing(0), done := s.done + [s.cur], cur := []);
    assert s1.cache - {g.start} == s.cache;
    PassesWrite(g, s, WriteHead, s1, g.start, s');
  }

  // ---------- install_trans, in a commit and in recovery ----------

  function At(commit: bool, k: nat): Phase {
    if commit then Installing(k) else Recovering(k)
  }

  function InstallSteps(lh: seq<nat>, k: nat): seq<Step>
    requires k <= |lh|
  {
    if k == 0 then [] else InstallSteps(lh, k - 1) + [InstallBlock, Evict(lh[k - 1])]
  }

  function Elements(s: seq<nat>): set<nat> {
    set x | x in s
  }

  /** The state once k blocks are installed. */
  function Installed(g: Geometry, s: State, commit: bool, k: nat): State
    requires k <= |s.lh| && g.start + k < |s.disk|
    requires forall j :: 0 <= j < |s.lh| ==> s.lh[j] < |s.disk|
  {
    s.(disk := Install(g, s.disk, s.lh, k), cache := s.cache - Elements(s.lh[..k]), phase := At(commit, k))
  }

  lemma InstalledNext(g: Geometry, s: State, commit: bool, j: nat, k: nat)
    requires k == j + 1 <= |s.lh| && g.start + k < |s.disk| && forall i :: 0 <= i < |s.lh| ==> s.lh[i] < |s.disk|
    ensures Installed(g, s, commit, k).cache == Installed(g, s, commit, j).cache - {s.lh[j]}
  {
    assert s.lh[..k] == s.lh[..j] + [s.lh[j]];
    assert Elements(s.lh[..k]) == Elements(s.lh[..j]) + {s.lh[j]};
  }

  lemma InstallOnePasses(g: Geometry, s: State, s': State, commit: bool, k: nat, next: nat, from: nat, to: nat)
    requires Quiet(g, s) && s.phase == At(commit, k) && next == k + 1 <= |s.lh| && from == g.start + next
    requires to == s.lh[k]
    requires s' == s.(disk := s.disk[to := s.disk[from]], cache := s.cache - {to}, phase := At(commit, next))
    ensures Passes(g, s, [InstallBlock, Evict(to)], s', [s'.disk]) && Quiet(g, s')
  {
    assert Home(g, |s.disk|, to);
    var s1 := Written(s, to, s.disk[from]).(phase := At(commit, next));
    assert from !in s.cache;
    assert s1.cache - {to} == s.cache - {to};
    PassesWrite(g, s, InstallBlock, s1, to, s');
  }

  lemma {:induction false} InstallPasses(g: Geometry, s: State, commit: bool, k: nat)
    requires Quiet(g, s) && s.phase == At(commit, 0) && k <= |s.lh|
    ensures var s' := Installed(g, s, commit, k);
            Passes(g, s, InstallSteps(s.lh, k), s', InstallTrace(g, s.disk, s.lh, k)) && Quiet(g, s')
  {
    if k == 0 {
      assert s.cache - Elements(s.lh[..0]) == s.cache;
      PassesNothing(g, s);
    } else {
      var j, from := k - 1, g.start + k;
      InstallPasses(g, s, commit, j);
      var s1, s', to := Installed(g, s, commit, j), Installed(g, s, commit, k), s.lh[j];
      InstalledNext(g, s, commit, j, k);
      InstallOnePasses(g, s1, s', commit, j, k, from, to);
      PassesConcat(g, s, InstallSteps(s.lh, j), s1, InstallTrace(g, s.disk, s.lh, j), [InstallBlock, Evict(to)], s',
                   [s'.disk]);
    }
  }

  lemma ErasePasses(g: Geometry, s: State, s': State, commit: bool)
    requires Quiet(g, s) && s.phase == At(commit, |s.lh|)
    requires s' == s.(disk := s.disk[g.start := PutHeader(s.disk[g.start], [], 0)],
                      phase := if commit then Erased else Running, lh := [])
    ensures Passes(g, s, [Erase, Evict(g.start)], s', [s'.disk])
  {
    var s1 := Written(s, g.start, PutHeader(s.disk[g.start], [], 0))
              .(phase := if commit then Erased else Running, lh := []);
    assert s1.cache - {g.start} == s.cache;
    PassesWrite(g, s, Erase, s1, g.start, s');
  }

  /** install_trans and the write_head that erases the list. */
  function ApplySteps(g: Geometry, lh: seq<nat>): seq<Step> {
    InstallSteps(lh, |lh|) + [Erase, Evict(g.start)]
  }

  lemma ApplyPasses(g: Geometry, s: State, commit: bool)
    requires Quiet(g, s) && s.phase == At(commit, 0) && s.cache.Keys <= Elements(s.lh)
    ensures Passes(g, s, ApplySteps(g, s.lh), s.(disk := ApplyDisk(g, s.disk, s.lh), cache := map[],
                                                 phase := if commit then Erased else Running, lh := []),
                   ApplyTrace(g, s.disk, s.lh))
  {
    InstallPasses(g, s, commit, |s.lh|);
    var s1 := Installed(g, s, commit, |s.lh|);
    assert s.lh[..|s.lh|] == s.lh;
    assert s1.cache == map[];
    var s' := s.(disk := ApplyDisk(g, s.disk, s.lh), cache := map[], phase := if commit then Erased else Running,
                 lh := []);
    ErasePasses(g, s1, s', commit);
    PassesConcat(g, s, InstallSteps(s.lh, |s.lh|), s1, InstallTrace(g, s.disk, s.lh, |s.lh|),
                 [Erase, Evict(g.start)], s', [s'.disk]);
  }

  // ---------- The whole of commit() and of recover_from_log() ----------

  function CommitSteps(g: Geometry, lh: seq<nat>): seq<Step> {
    if lh == [] then [Finish]
    else LogSteps(g, |lh|) + [WriteHead, Evict(g.start)] + ApplySteps(g, lh) + [Finish]
  }

  /** The state commit() leads to from one in which it has just been called. */
  function AfterCommit(g: Geometry, s: State, c: Disk): State
    requires GoodGeometry(g, |s.disk|) && GoodHeader(g, |s.disk|, s.lh) && |c| == |s.disk|
  {
    var s' := s.(disk := CommitDisk(g, s.disk, c, s.lh), cache := map[], phase := Running, lh := []);
    if s.lh == [] then s' else s'.(done := s.done + [s.cur], cur := [])
  }

  lemma ListedPasses(g: Geometry, s: State, c: Disk)
    requires Quiet(g, s) && s.phase == WritingLog(0) && |c| == |s.disk| && s.cache == Pins(s.lh, c) && s.lh != []
    ensures var s' := s.(disk := HeadDisk(g, s.disk, c, s.lh), phase := Installing(0), done := s.done + [s.cur],
                         cur := []);
            && Passes(g, s, LogSteps(g, |s.lh|) + [WriteHead, Evict(g.start)], s',
                      LogTrace(g, s.disk, c, s.lh, |s.lh|) + [s'.disk])
            && Quiet(g, s')
  {
    LogPasses(g, s, c, |s.lh|);
    var s1 := LoggedState(g, s, c, |s.lh|);
    var s' := s.(disk := HeadDisk(g, s.disk, c, s.lh), phase := Installing(0), done := s.done + [s.cur], cur := []);
    HeadPasses(g, s1, s');
    PassesConcat(g, s, LogSteps(g, |s.lh|), s1, LogTrace(g, s.disk, c, s.lh, |s.lh|), [WriteHead, Evict(g.start)], s',
                 [s'.disk]);
  }

  lemma CommitPasses(g: Geometry, s: State, c: Disk)
    requires Quiet(g, s) && s.phase == WritingLog(0) && |c| == |s.disk| && s.cache == Pins(s.lh, c)
    ensures Passes(g, s, CommitSteps(g, s.lh), AfterCommit(g, s, c), CommitWrites(g, s.disk, c, s.lh))
  {
    var s' := AfterCommit(g, s, c);
    if s.lh == [] {
      assert s.cache == map[];
      PassesOne(g, s, Finish, s');
    } else {
      ListedPasses(g, s, c);
      var s1 := s.(disk := HeadDisk(g, s.disk, c, s.lh), phase := Installing(0), done := s.done + [s.cur], cur := []);
      ApplyPasses(g, s1, true);
      var s2 := s'.(phase := Erased);
      PassesConcat(g, s, LogSteps(g, |s.lh|) + [WriteHead, Evict(g.start)], s1,
                   LogTrace(g, s.disk, c, s.lh, |s.lh|) + [s1.disk], ApplySteps(g, s.lh), s2,
                   ApplyTrace(g, s1.disk, s.lh));
      PassesOne(g, s2, Finish, s');
      var t := CommitTrace(g, s.disk, c, s.lh);
      PassesConcat(g, s, LogSteps(g, |s.lh|) + [WriteHead, Evict(g.start)] + ApplySteps(g, s.lh), s2, t, [Finish], s',
                   []);
      assert t + [] == t;
    }
  }

  /** A crash, and recovery from it, from whatever state the machine was in. */
  lemma RecoveryPasses(g: Geometry, s: State)
    requires GoodGeometry(g, |s.disk|) && GoodHeader(g, |s.disk|, HeaderOf(s.disk[g.start]))
    ensures Passes(g, s, [Crash, ReadHead] + ApplySteps(g, HeaderOf(s.disk[g.start])),
                   s.(disk := Recover(g, s.disk), cache := map[], lh := [], outstanding := 0, phase := Running,
                      ops := map[], cur := []),
                   ApplyTrace(g, s.disk, HeaderOf(s.disk[g.start])))
  {
    var h := HeaderOf(s.disk[g.start]);
    var s1 := s.(cache := map[], lh := [], outstanding := 0, phase := Booting, ops := map[], cur := []);
    var s2 := s1.(phase := Recovering(0), lh := h);
    PassesOne(g, s, Crash, s1);
    PassesOne(g, s1, ReadHead, s2);
    PassesConcat(g, s, [Crash], s1, [], [ReadHead], s2, []);
    ApplyPasses(g, s2, false);
    var s' := s2.(disk := Recover(g, s.disk), cache := map[], phase := Running, lh := []);
    var t: seq<Disk> := [];
    assert [Crash] + [ReadHead] == [Crash, ReadHead] && t + t == t;
    PassesConcat(g, s, [Crash, ReadHead], s2, t, ApplySteps(g, h), s', ApplyTrace(g, s.disk, h));
    assert t + ApplyTrace(g, s.disk, h) == ApplyTrace(g, s.disk, h);
  }
}
