/** What is left of the link counts in runs that also make entries in removed directories: an inode never
    has fewer links than entries that name it, so that unlink's panic stays out of reach. */
module LinkBounds {
  import opened Common
  import opened Links

  /** What a link of inode i may stand for: an entry after the dots, in any directory, that names it, or the
      ".." of a directory that entry k of its own names. */
  datatype Use = Name(d: nat, k: nat) | Child(d: nat, k: nat)

  predicate IsDir(nodes: seq<Node>, d: nat) {
    d < |nodes| && nodes[d].kind == Dir
  }

  /** Entry k of directory d, after the dots, names inode i. */
  predicate NameAt(nodes: seq<Node>, d: nat, k: nat, i: nat) {
    IsDir(nodes, d) && 2 <= k < |nodes[d].ents| && nodes[d].ents[k].inum == i != 0
  }

  predicate ChildAt(nodes: seq<Node>, d: nat, k: nat) {
    IsDir(nodes, d) && 2 <= k < |nodes[d].ents| && nodes[d].ents[k].inum != 0 && IsDir(nodes, nodes[d].ents[k].inum)
  }

  predicate UseOf(nodes: seq<Node>, u: Use, i: nat) {
    match u
    case Name(d, k) => NameAt(nodes, d, k, i)
    case Child(d, k) => d == i && ChildAt(nodes, d, k)
  }

  function Uses(nodes: seq<Node>, i: nat): set<Use> {
    (set d: nat, k: nat | d < |nodes| && k < |nodes[d].ents| && NameAt(nodes, d, k, i) :: Name(d, k)) +
    (if i < |nodes| then set k: nat | k < |nodes[i].ents| && ChildAt(nodes, i, k) :: Child(i, k) else {})
  }

  lemma UsesAre(nodes: seq<Node>, i: nat, u: Use)
    ensures u in Uses(nodes, i) <==> UseOf(nodes, u, i)
  {
  }

  /** The root has a link of its own, for its "..". */
  function Own(i: nat): nat {
    if i == ROOTINO then 1 else 0
  }

  /** The inode has a link for every use, for every link in progress, and the root one more. */
  ghost predicate Covered(s: Sys, i: nat)
    requires i < |s.nodes| == |s.pending|
  {
    s.nodes[i].nlink >= |Uses(s.nodes, i)| + s.pending[i] + Own(i)
  }

  ghost predicate HasDots(n: Node) {
    n.kind == Dir ==> |n.ents| >= 2 && n.ents[0].inum != 0 && n.ents[1].inum != 0
  }

  ghost predicate Sound(s: Sys) {
    && |s.pending| == |s.nodes| == |s.home| && ROOTINO < |s.nodes| && s.nodes[ROOTINO].kind == Dir
    && s.nodes[0].kind == Free
    && (forall d :: 0 <= d < |s.nodes| ==> HasDots(s.nodes[d]))
    && (forall d: nat, k: nat, i: nat :: NameAt(s.nodes, d, k, i) ==> i < |s.nodes|)
    && (forall i :: 0 <= i < |s.nodes| && s.pending[i] > 0 ==> s.nodes[i].kind == File)
    && (forall i :: 0 <= i < |s.nodes| && s.nodes[i].kind == Free ==> s.nodes[i].nlink == 0)
  }

  ghost predicate Bound(s: Sys) {
    Sound(s) && forall i :: 0 <= i < |s.nodes| ==> Covered(s, i)
  }

  /** The uses after a step are among those before it, less `gone` and with `new`. */
  ghost predicate Among(nodes: seq<Node>, nodes': seq<Node>, i: nat, gone: set<Use>, new': set<Use>) {
    && (forall u :: u in gone ==> UseOf(nodes, u, i))
    && (forall u :: UseOf(nodes', u, i) ==> u in new' || (UseOf(nodes, u, i) && u !in gone))
  }

  lemma AmongSize(nodes: seq<Node>, nodes': seq<Node>, i: nat, gone: set<Use>, new': set<Use>)
    requires Among(nodes, nodes', i, gone, new')
    ensures |Uses(nodes', i)| + |gone| <= |Uses(nodes, i)| + |new'|
  {
    forall u
      ensures u in Uses(nodes', i) <==> UseOf(nodes', u, i)
      ensures u in Uses(nodes, i) <==> UseOf(nodes, u, i)
    {
      UsesAre(nodes', i, u);
      UsesAre(nodes, i, u);
    }
    assert gone <= Uses(nodes, i);
    assert Uses(nodes', i) <= (Uses(nodes, i) - gone) + new';
    SubsetSize(Uses(nodes', i), (Uses(nodes, i) - gone) + new');
    UnionSize(Uses(nodes, i) - gone, new');
    assert Uses(nodes, i) == (Uses(nodes, i) - gone) + gone;
    assert |Uses(nodes, i)| == |Uses(nodes, i) - gone| + |gone|;
  }

  lemma {:induction false} UnionSize(a: set<Use>, b: set<Use>)
    ensures |a + b| <= |a| + |b|
    decreases |b|
  {
    if b == {} {
      assert a + b == a;
    } else {
      var x :| x in b;
      UnionSize(a, b - {x});
      assert a + b == (a + (b - {x})) + {x};
    }
  }

  /** An inode without links has no uses. */
  lemma Unused(s: Sys, i: nat)
    requires i < |s.nodes| == |s.pending| && Covered(s, i) && s.nodes[i].nlink == 0
    ensures s.pending[i] == 0 && i != ROOTINO && forall u :: !UseOf(s.nodes, u, i)
  {
    assert Uses(s.nodes, i) == {};
    forall u
      ensures !UseOf(s.nodes, u, i)
    {
      UsesAre(s.nodes, i, u);
    }
  }

  /** dirlink puts the entry after the dots. */
  lemma AfterDots(s: Sys, dp: nat, name: Name, k: nat)
    requires Sound(s) && Insertable(s, dp, name, k)
    ensures k >= 2 && dp != 0
  {
    assert HasDots(s.nodes[dp]);
  }

  // ---------- The steps ----------

  /** A new entry for a file is one more use of the file. */
  lemma EntryAmong(nodes: seq<Node>, dp: nat, k: nat, e: Dirent, i: nat)
    requires IsDir(nodes, dp) && IsSlot(nodes[dp].ents, k) && e.inum < |nodes| && nodes[e.inum].kind == File
    ensures Among(nodes, WithEntry(nodes, dp, k, e), i, {}, if i == e.inum then {Name(dp, k)} else {})
  {
  }

  lemma EntrySound(s: Sys, s': Sys, dp: nat, k: nat, e: Dirent)
    requires Sound(s) && IsDir(s.nodes, dp) && 2 <= k && IsSlot(s.nodes[dp].ents, k) && e.inum < |s.nodes|
    requires s'.nodes == WithEntry(s.nodes, dp, k, e) && |s'.pending| == |s.pending| && s'.home == s.home
    requires forall i :: 0 <= i < |s.nodes| && s'.pending[i] > 0 ==> s.nodes[i].kind == File
    ensures Sound(s')
  {
    assert HasDots(s.nodes[dp]);
    forall d: nat, l: nat, i: nat | NameAt(s'.nodes, d, l, i)
      ensures i < |s.nodes|
    {
      assert (d, l) != (dp, k) ==> NameAt(s.nodes, d, l, i);
    }
  }

  lemma LinkEndBound(s: Sys, ip: nat, dp: nat, name: Name, k: nat)
    requires Bound(s) && Shaped(s) && Enabled(s, LinkEnd(ip, dp, name, k))
    ensures Bound(Next(s, LinkEnd(ip, dp, name, k)))
  {
    var s', e := Next(s, LinkEnd(ip, dp, name, k)), Dirent(ip, name);
    AfterDots(s, dp, name, k);
    EntrySound(s, s', dp, k, e);
    forall i | 0 <= i < |s.nodes|
      ensures Covered(s', i)
    {
      assert Covered(s, i);
      EntryAmong(s.nodes, dp, k, e, i);
      AmongSize(s.nodes, s'.nodes, i, {}, if i == ip then {Name(dp, k)} else {});
    }
  }

  /** A free inode becomes a file, or one without links is freed: no use appears. */
  lemma NodeAmong(nodes: seq<Node>, ip: nat, n: Node, i: nat)
    requires ip < |nodes| && n.kind != Dir
    ensures Among(nodes, nodes[ip := n], i, {}, {})
  {
  }

  lemma NodeSound(s: Sys, ip: nat, n: Node)
    requires Sound(s) && 0 < ip < |s.nodes| && ip != ROOTINO && n.kind != Dir && s.pending[ip] == 0
    requires n.kind == Free ==> n.nlink == 0
    ensures Sound(s.(nodes := s.nodes[ip := n]))
  {
    var s' := s.(nodes := s.nodes[ip := n]);
    forall d: nat, l: nat, i: nat | NameAt(s'.nodes, d, l, i)
      ensures i < |s.nodes|
    {
      assert NameAt(s.nodes, d, l, i);
    }
  }

  lemma NodeBound(s: Sys, ip: nat, n: Node)
    requires Bound(s) && 0 < ip < |s.nodes| && n.kind != Dir && s.nodes[ip].nlink == 0 && n.nlink == 0
    ensures Bound(s.(nodes := s.nodes[ip := n]))
  {
    var s' := s.(nodes := s.nodes[ip := n]);
    assert Covered(s, ip);
    Unused(s, ip);
    NodeSound(s, ip, n);
    forall i | 0 <= i < |s.nodes|
      ensures Covered(s', i)
    {
      assert Covered(s, i);
      NodeAmong(s.nodes, ip, n, i);
      AmongSize(s.nodes, s'.nodes, i, {}, {});
    }
  }

  /** A file's links and those in progress go up and down together. */
  lemma LinksBound(s: Sys, s': Sys, ip: nat, n: int)
    requires Bound(s) && ip < |s.nodes| && s.nodes[ip].kind == File && s.pending[ip] + n >= 0
    requires s' == s.(nodes := AddLinks(s.nodes, ip, n), pending := s.pending[ip := s.pending[ip] + n])
    ensures Bound(s')
  {
    forall d: nat, l: nat, i: nat | NameAt(s'.nodes, d, l, i)
      ensures i < |s.nodes|
    {
      assert NameAt(s.nodes, d, l, i);
    }
    forall i | 0 <= i < |s.nodes|
      ensures Covered(s', i)
    {
      assert Covered(s, i);
      LinksAmong(s.nodes, ip, n, i);
      AmongSize(s.nodes, s'.nodes, i, {}, {});
    }
  }

  lemma LinksAmong(nodes: seq<Node>, ip: nat, n: int, i: nat)
    requires ip < |nodes|
    ensures Among(nodes, AddLinks(nodes, ip, n), i, {}, {})
  {
  }

  /** create of a file is a free inode taken, and a link that ends at once. */
  lemma CreateFileBound(s: Sys, dp: nat, name: Name, k: nat, ip: nat)
    requires Bound(s) && Shaped(s) && Enabled(s, CreateFile(dp, name, k, ip))
    ensures Bound(Next(s, CreateFile(dp, name, k, ip)))
  {
    var s1 := s.(nodes := s.nodes[ip := Node(File, 0, [])]);
    var s2 := s.(nodes := s.nodes[ip := Node(File, 1, [])], pending := s.pending[ip := s.pending[ip] + 1]);
    NodeBound(s, ip, Node(File, 0, []));
    assert s2 == s1.(nodes := AddLinks(s1.nodes, ip, 1), pending := s1.pending[ip := s1.pending[ip] + 1]);
    LinksBound(s1, s2, ip, 1);
    CreateFileIs(s, s2, dp, name, k, ip);
    LinkEndBound(s2, ip, dp, name, k);
  }

  /** mkdir: the name is a use of the new directory, and its ".." one of the parent. */
  lemma MadeAmong(s: Sys, s': Sys, dp: nat, name: Name, k: nat, ip: nat, i: nat)
    requires Made(s, s', dp, name, k, ip) && 2 <= k && forall d: nat, l: nat :: !NameAt(s.nodes, d, l, ip)
    ensures Among(s.nodes, s'.nodes, i, {}, if i == ip then {Name(dp, k)} else if i == dp then {Child(dp, k)} else {})
  {
    forall u | UseOf(s'.nodes, u, i) && u != Name(dp, k) && u != Child(dp, k)
      ensures UseOf(s.nodes, u, i)
    {
      assert u.d != ip;
      assert s'.nodes[u.d].ents[u.k] == s.nodes[u.d].ents[u.k];
      assert NameAt(s.nodes, u.d, u.k, s.nodes[u.d].ents[u.k].inum);
    }
  }

  lemma MadeSound(s: Sys, s': Sys, dp: nat, name: Name, k: nat, ip: nat)
    requires Sound(s) && Made(s, s', dp, name, k, ip) && 2 <= k && dp != 0 && s.pending[ip] == 0
    ensures Sound(s')
  {
    assert HasDots(s.nodes[dp]);
    forall d: nat, l: nat, i: nat | NameAt(s'.nodes, d, l, i)
      ensures i < |s.nodes|
    {
      assert (d, l) != (dp, k) ==> NameAt(s.nodes, d, l, i);
    }
  }

  lemma CreateDirBound(s: Sys, s': Sys, dp: nat, name: Name, k: nat, ip: nat)
    requires Bound(s) && Made(s, s', dp, name, k, ip)
    ensures Bound(s')
  {
    AfterDots(s, dp, name, k);
    assert Covered(s, ip);
    Unused(s, ip);
    forall d: nat, l: nat
      ensures !NameAt(s.nodes, d, l, ip)
    {
      assert !UseOf(s.nodes, Name(d, l), ip);
    }
    MadeSound(s, s', dp, name, k, ip);
    forall i | 0 <= i < |s.nodes|
      ensures Covered(s', i)
    {
      assert Covered(s, i);
      MadeAmong(s, s', dp, name, k, ip, i);
      AmongSize(s.nodes, s'.nodes, i, {}, if i == ip then {Name(dp, k)} else if i == dp then {Child(dp, k)} else {});
    }
  }

  /** What unlink takes from inode j: the name, and from the parent the ".." of a directory. */
  function GoneUses(nodes: seq<Node>, dp: nat, k: nat, i: nat, j: nat): set<Use>
    requires i < |nodes|
  {
    (if j == i then {Name(dp, k)} else {}) + if j == dp && nodes[i].kind == Dir then {Child(dp, k)} else {}
  }

  lemma GoneAmong(nodes: seq<Node>, dp: nat, k: nat, i: nat, j: nat)
    requires NameAt(nodes, dp, k, i) && i < |nodes|
    ensures Among(nodes, Unlinked(nodes, dp, k), j, GoneUses(nodes, dp, k, i, j), {})
  {
    var nodes' := Unlinked(nodes, dp, k);
    forall d | 0 <= d < |nodes|
      ensures nodes'[d].kind == nodes[d].kind
      ensures nodes'[d].ents == if d == dp then nodes[d].ents[k := Dirent(0, "")] else nodes[d].ents
    {
    }
  }

  lemma UnlinkBound(s: Sys, dp: nat, k: nat)
    requires Bound(s) && Shaped(s) && Enabled(s, Unlink(dp, k))
    ensures Bound(Next(s, Unlink(dp, k)))
  {
    var s', i := Next(s, Unlink(dp, k)), s.nodes[dp].ents[k].inum;
    UnlinkSound(s, s', dp, k, i);
    forall j | 0 <= j < |s.nodes|
      ensures Covered(s', j)
    {
      assert Covered(s, j);
      GoneAmong(s.nodes, dp, k, i, j);
      AmongSize(s.nodes, s'.nodes, j, GoneUses(s.nodes, dp, k, i, j), {});
      assert |GoneUses(s.nodes, dp, k, i, j)| ==
             (if j == i then 1 else 0) + if j == dp && s.nodes[i].kind == Dir then 1 else 0;
    }
  }

  lemma UnlinkSound(s: Sys, s': Sys, dp: nat, k: nat, i: nat)
    requires Bound(s) && NameAt(s.nodes, dp, k, i) && i < |s.nodes| && s' == s.(nodes := Unlinked(s.nodes, dp, k))
    ensures Sound(s')
  {
    Linked1(s, dp, k, i);
    forall d | 0 <= d < |s.nodes|
      ensures s'.nodes[d].kind == s.nodes[d].kind && HasDots(s'.nodes[d])
      ensures s'.nodes[d].ents == if d == dp then s.nodes[d].ents[k := Dirent(0, "")] else s.nodes[d].ents
    {
      assert HasDots(s.nodes[d]);
    }
    forall d: nat, l: nat, j: nat | NameAt(s'.nodes, d, l, j)
      ensures j < |s.nodes|
    {
      assert NameAt(s.nodes, d, l, j);
    }
  }

  /** A named inode has a link, so it is in use. */
  lemma Linked1(s: Sys, dp: nat, k: nat, i: nat)
    requires Bound(s) && NameAt(s.nodes, dp, k, i) && i < |s.nodes|
    ensures s.nodes[i].nlink >= 1 && s.nodes[i].kind != Free
  {
    assert Covered(s, i);
    UsesAre(s.nodes, i, Name(dp, k));
    assert {Name(dp, k)} <= Uses(s.nodes, i);
    SubsetSize({Name(dp, k)}, Uses(s.nodes, i));
  }

  lemma StepBound(s: Sys, step: Step)
    requires Bound(s) && Shaped(s) && Enabled(s, step)
    ensures Bound(Next(s, step))
  {
    match step
    case CreateFile(dp, name, k, ip) => CreateFileBound(s, dp, name, k, ip);
    case CreateDir(dp, name, k, ip) =>
      CreateDirIsMade(s, dp, name, k, ip);
      CreateDirBound(s, MadeDir(s, dp, name, k, ip), dp, name, k, ip);
    case LinkBegin(ip) => LinksBound(s, Next(s, step), ip, 1);
    case LinkEnd(ip, dp, name, k) => LinkEndBound(s, ip, dp, name, k);
    case LinkBad(ip) => LinksBound(s, Next(s, step), ip, -1);
    case Unlink(dp, k) => UnlinkBound(s, dp, k);
    case Reclaim(ip) => NodeBound(s, ip, Node(Free, 0, []));
  }

  lemma InitBound(s: Sys)
    requires Init(s)
    ensures Bound(s)
  {
    forall i | 0 <= i < |s.nodes|
      ensures Covered(s, i)
    {
      forall u
        ensures !UseOf(s.nodes, u, i)
      {
      }
      assert Uses(s.nodes, i) == {};
    }
  }

  /** In every run, whatever directories the entries are made in. */
  lemma {:induction false} RunBound(init: Sys, steps: seq<Step>, s: Sys, linked: bool)
    requires Run(init, steps, s, linked)
    ensures Bound(s)
    decreases |steps|
  {
    if steps == [] {
      InitBound(s);
    } else {
      var rest, last := steps[..|steps| - 1], steps[|steps| - 1];
      var m :| && Run(init, rest, m, linked) && Shaped(m) && Enabled(m, last) && (linked ==> Linked(m, last))
               && s == Next(m, last);
      RunBound(init, rest, m, linked);
      StepBound(m, last);
    }
  }

  /** In every run, also one that has made entries in removed directories, the entry that unlink is about to
      clear names an inode with a link: the panic "unlink: nlink < 1" is out of reach. And the root stays
      linked. */
  lemma UnlinkNeverPanics(init: Sys, steps: seq<Step>, s: Sys, linked: bool)
    requires Run(init, steps, s, linked)
    ensures |s.pending| == |s.nodes| > ROOTINO && Live(s.nodes[ROOTINO])
    ensures forall dp: nat, k: nat, i: nat :: NameAt(s.nodes, dp, k, i) ==> i < |s.nodes| && s.nodes[i].nlink >= 1
  {
    RunBound(init, steps, s, linked);
    assert Covered(s, ROOTINO);
    forall dp: nat, k: nat, i: nat | NameAt(s.nodes, dp, k, i)
      ensures i < |s.nodes| && s.nodes[i].nlink >= 1
    {
      Linked1(s, dp, k, i);
    }
  }
}
