/** sysfile.c: link counts. Directories as lists of entries, and the steps of create, link and unlink. */
module Links {
  import opened Common

  type Name = string  // at most DIRSIZ characters

  /** struct dirent; inum 0 is an empty entry. */
  datatype Dirent = Dirent(inum: nat, name: Name)

  datatype Kind = Free | File | Dir

  datatype Node = Node(kind: Kind, nlink: int, ents: seq<Dirent>)

  const ROOTINO: nat := 1
  const DOT: Name := "."
  const DOTDOT: Name := ".."

  // ---------- Directories ----------

  predicate Matches(e: Dirent, name: Name) {
    e.inum != 0 && e.name == name
  }

  predicate Present(ents: seq<Dirent>, name: Name) {
    exists k :: 0 <= k < |ents| && Matches(ents[k], name)
  }

  /** dirlookup: the first entry with this name. */
  method Dirlookup(ents: seq<Dirent>, name: Name) returns (r: Option<nat>)
    ensures r.Some? <==> Present(ents, name)
    ensures r.Some? ==> r.value < |ents| && Matches(ents[r.value], name)
    ensures r.Some? ==> forall j :: 0 <= j < r.value ==> !Matches(ents[j], name)
  {
    var k := 0;
    while k < |ents|
      invariant k <= |ents| && forall j :: 0 <= j < k ==> !Matches(ents[j], name)
    {
      if ents[k].inum != 0 && ents[k].name == name {
        return Some(k);
      }
      k := k + 1;
    }
    r := None;
  }

  /** Where dirlink puts a new entry: the first empty one, or the end. */
  predicate IsSlot(ents: seq<Dirent>, k: nat) {
    k <= |ents| && (k < |ents| ==> ents[k].inum == 0) && forall j :: 0 <= j < k ==> ents[j].inum != 0
  }

  function Insert(ents: seq<Dirent>, k: nat, e: Dirent): seq<Dirent>
    requires k <= |ents|
  {
    if k < |ents| then ents[k := e] else ents + [e]
  }

  /** dirlink. */
  method Dirlink(ents: seq<Dirent>, name: Name, inum: nat) returns (r: Option<seq<Dirent>>, ghost k: nat)
    ensures r.None? <==> Present(ents, name)
    ensures r.Some? ==> IsSlot(ents, k) && r.value == Insert(ents, k, Dirent(inum, name))
  {
    var found := Dirlookup(ents, name);
    if found.Some? {
      return None, 0;
    }
    var j := 0;
    while j < |ents| && ents[j].inum != 0
      invariant j <= |ents| && forall i :: 0 <= i < j ==> ents[i].inum != 0
    {
      j := j + 1;
    }
    k := j;
    r := Some(if j < |ents| then ents[j := Dirent(inum, name)] else ents + [Dirent(inum, name)]);
  }

  predicate Empty(ents: seq<Dirent>) {
    forall k :: 2 <= k < |ents| ==> ents[k].inum == 0
  }

  /** isdirempty. */
  method IsDirEmpty(ents: seq<Dirent>) returns (r: bool)
    ensures r <==> Empty(ents)
  {
    var k := 2;
    while k < |ents|
      invariant 2 <= k && forall j :: 2 <= j < k && j < |ents| ==> ents[j].inum == 0
    {
      if ents[k].inum != 0 {
        return false;
      }
      k := k + 1;
    }
    r := true;
  }

  // ---------- The law ----------

  predicate Live(n: Node) {
    n.kind == Dir && n.nlink > 0
  }

  /** Entry k of the linked directory d, other than ".", names inode i. */
  predicate RefAt(nodes: seq<Node>, d: nat, k: nat, i: nat) {
    && d < |nodes| && k < |nodes[d].ents| && Live(nodes[d]) && i != 0
    && nodes[d].ents[k].inum == i && nodes[d].ents[k].name != DOT
  }

  function Refs(nodes: seq<Node>, i: nat): set<(nat, nat)> {
    set d: nat, k: nat | d < |nodes| && k < |nodes[d].ents| && RefAt(nodes, d, k, i) :: (d, k)
  }

  /** The inodes, the number of links in progress for each (nlink already counted, the entry not there
      yet), and, as history, where each directory's own entry is. */
  datatype Sys = Sys(nodes: seq<Node>, pending: seq<nat>, home: seq<(nat, nat)>)

  /** nlink is the number of entries in linked directories that name the inode, "." left out, plus the
      links in progress. */
  ghost predicate Counted(s: Sys, i: nat)
    requires i < |s.nodes| == |s.pending|
  {
    s.nodes[i].nlink == |Refs(s.nodes, i)| + s.pending[i]
  }

  ghost predicate AllCounted(s: Sys) {
    |s.pending| == |s.nodes| && forall i :: 0 <= i < |s.nodes| ==> Counted(s, i)
  }

  /** The first two entries of a directory are "." and "..", and no other has these names. */
  predicate DotsOk(s: Sys, d: nat)
    requires d < |s.nodes|
  {
    var ents := s.nodes[d].ents;
    && |ents| >= 2 && ents[0] == Dirent(d, DOT) && ents[1].name == DOTDOT && ents[1].inum != 0
    && forall k :: 2 <= k < |ents| && ents[k].inum != 0 ==> ents[k].name != DOT && ents[k].name != DOTDOT
  }

  /** A linked directory other than the root has its own entry in the directory that its ".." names. */
  predicate HomeOk(s: Sys, c: nat)
    requires c < |s.nodes| == |s.home|
  {
    var (p, k) := s.home[c];
    && p < |s.nodes| && p != c && Live(s.nodes[p]) && 2 <= k < |s.nodes[p].ents| && s.nodes[p].ents[k].inum == c
    && |s.nodes[c].ents| >= 2 && s.nodes[c].ents[1].inum == p
  }

  ghost predicate Shaped(s: Sys) {
    && |s.pending| == |s.nodes| && |s.home| == |s.nodes| && ROOTINO < |s.nodes| && Live(s.nodes[ROOTINO])
    && s.nodes[0].kind == Free
  }

  ghost predicate Dirs(s: Sys) {
    && Shaped(s)
    && (forall d :: 0 <= d < |s.nodes| && Live(s.nodes[d]) ==> DotsOk(s, d))
    && (forall c :: 0 <= c < |s.nodes| && Live(s.nodes[c]) && c != ROOTINO ==> HomeOk(s, c))
    && s.nodes[ROOTINO].ents[1].inum == ROOTINO
  }

  /** No directory has a second name. */
  ghost predicate OneName(s: Sys) {
    && Shaped(s)
    && forall d: nat, k: nat, c: nat :: 2 <= k && RefAt(s.nodes, d, k, c) && c < |s.nodes| && s.nodes[c].kind == Dir ==>
         c != ROOTINO && s.home[c] == (d, k)
  }

  /** What is named or has links is in use, and only files have links in progress. */
  ghost predicate InUse(s: Sys) {
    && Shaped(s)
    && (forall d: nat, k: nat, i: nat :: RefAt(s.nodes, d, k, i) ==> i < |s.nodes|)
    && (forall i :: 0 <= i < |s.nodes| && s.nodes[i].kind == Free ==> s.nodes[i].nlink == 0 && s.pending[i] == 0)
    && (forall i :: 0 <= i < |s.nodes| && s.pending[i] > 0 ==> s.nodes[i].kind == File)
  }

  /** A directory that has been removed but is still there, because someone is in it, holds nothing but
      its dots. */
  predicate RemovedOk(s: Sys, d: nat)
    requires d < |s.nodes|
  {
    DotsOk(s, d) && Empty(s.nodes[d].ents) && s.nodes[d].ents[1].inum < |s.nodes| && s.nodes[d].ents[1].inum != d
  }

  predicate IsRemoved(n: Node) {
    n.kind == Dir && n.nlink <= 0
  }

  ghost predicate Removed(s: Sys) {
    forall d :: 0 <= d < |s.nodes| && IsRemoved(s.nodes[d]) ==> RemovedOk(s, d)
  }

  ghost predicate Inv(s: Sys) {
    Dirs(s) && Removed(s) && OneName(s) && InUse(s) && AllCounted(s)
  }

  // ---------- Steps ----------

  datatype Step =
    | CreateFile(dp: nat, name: Name, k: nat, ip: nat)
    | CreateDir(dp: nat, name: Name, k: nat, ip: nat)
    | LinkBegin(ip: nat)                            // ip->nlink++
    | LinkEnd(ip: nat, dp: nat, name: Name, k: nat) // dirlink
    | LinkBad(ip: nat)                              // or ip->nlink-- again
    | Unlink(dp: nat, k: nat)
    | Reclaim(ip: nat)                              // iput of an inode without links

  /** What dirlink checks; k is the place it has found. */
  ghost predicate Insertable(s: Sys, dp: nat, name: Name, k: nat) {
    dp < |s.nodes| && s.nodes[dp].kind == Dir && !Present(s.nodes[dp].ents, name) && IsSlot(s.nodes[dp].ents, k)
  }

  /** The same below a directory that is linked itself. */
  ghost predicate CanInsert(s: Sys, dp: nat, name: Name, k: nat) {
    Insertable(s, dp, name, k) && Live(s.nodes[dp])
  }

  /** The step makes no entry, or makes it in a directory that is linked itself. No call checks this. */
  predicate Linked(s: Sys, step: Step) {
    match step
    case CreateFile(dp, _, _, _) => dp < |s.nodes| && Live(s.nodes[dp])
    case CreateDir(dp, _, _, _) => dp < |s.nodes| && Live(s.nodes[dp])
    case LinkEnd(_, dp, _, _) => dp < |s.nodes| && Live(s.nodes[dp])
    case _ => true
  }

  predicate MakesEntry(step: Step) {
    step.CreateFile? || step.CreateDir? || step.LinkEnd?
  }

  /** What the calls check. */
  ghost predicate Enabled(s: Sys, step: Step)
    requires Shaped(s)
  {
    match step
    case CreateFile(dp, name, k, ip) => Insertable(s, dp, name, k) && 0 < ip < |s.nodes| && s.nodes[ip].kind == Free
    case CreateDir(dp, name, k, ip) => Insertable(s, dp, name, k) && 0 < ip < |s.nodes| && s.nodes[ip].kind == Free
    case LinkBegin(ip) => ip < |s.nodes| && s.nodes[ip].kind == File
    case LinkEnd(ip, dp, name, k) => Insertable(s, dp, name, k) && ip < |s.nodes| && s.pending[ip] > 0
    case LinkBad(ip) => ip < |s.nodes| && s.pending[ip] > 0
    case Unlink(dp, k) =>
      && dp < |s.nodes| && s.nodes[dp].kind == Dir && 2 <= k < |s.nodes[dp].ents| && s.nodes[dp].ents[k].inum != 0
      && s.nodes[dp].ents[k].inum < |s.nodes|
      && (s.nodes[s.nodes[dp].ents[k].inum].kind == Dir ==> Empty(s.nodes[s.nodes[dp].ents[k].inum].ents))
    case Reclaim(ip) => ip < |s.nodes| && s.nodes[ip].kind != Free && s.nodes[ip].nlink == 0 && s.pending[ip] == 0
  }

  /** An entry is added to directory dp. */
  function WithEntry(nodes: seq<Node>, dp: nat, k: nat, e: Dirent): seq<Node>
    requires dp < |nodes| && k <= |nodes[dp].ents|
  {
    nodes[dp := nodes[dp].(ents := Insert(nodes[dp].ents, k, e))]
  }

  function AddLinks(nodes: seq<Node>, i: nat, n: int): seq<Node>
    requires i < |nodes|
  {
    nodes[i := nodes[i].(nlink := nodes[i].nlink + n)]
  }

  /** Entry k of dp is cleared, with the link of dp that a directory's ".." holds, and then the inode's. */
  function Unlinked(nodes: seq<Node>, dp: nat, k: nat): seq<Node>
    requires dp < |nodes| && k < |nodes[dp].ents| && nodes[dp].ents[k].inum < |nodes|
  {
    var i := nodes[dp].ents[k].inum;
    var n1 := nodes[dp := nodes[dp].(ents := nodes[dp].ents[k := Dirent(0, "")])];
    var n2 := if nodes[i].kind == Dir then AddLinks(n1, dp, -1) else n1;
    AddLinks(n2, i, -1)
  }

  function MadeDir(s: Sys, dp: nat, name: Name, k: nat, ip: nat): Sys
    requires dp < |s.nodes| && ip < |s.nodes| == |s.home| && k <= |s.nodes[dp].ents|
  {
    var n1 := s.nodes[ip := Node(Dir, 1, [Dirent(ip, DOT), Dirent(dp, DOTDOT)])];
    var n2 := AddLinks(n1, dp, 1);
    if ip == dp then s else s.(nodes := WithEntry(n2, dp, k, Dirent(ip, name)), home := s.home[ip := (dp, k)])
  }

  function Next(s: Sys, step: Step): Sys
    requires Shaped(s) && Enabled(s, step)
  {
    match step
    case CreateFile(dp, name, k, ip) =>
        s.(nodes := WithEntry(s.nodes[ip := Node(File, 1, [])], dp, k, Dirent(ip, name)))
    case CreateDir(dp, name, k, ip) => MadeDir(s, dp, name, k, ip)
    case LinkBegin(ip) => s.(nodes := AddLinks(s.nodes, ip, 1), pending := s.pending[ip := s.pending[ip] + 1])
    case LinkEnd(ip, dp, name, k) =>
        s.(nodes := WithEntry(s.nodes, dp, k, Dirent(ip, name)), pending := s.pending[ip := s.pending[ip] - 1])
    case LinkBad(ip) => s.(nodes := AddLinks(s.nodes, ip, -1), pending := s.pending[ip := s.pending[ip] - 1])
    case Unlink(dp, k) => s.(nodes := Unlinked(s.nodes, dp, k))
    case Reclaim(ip) => s.(nodes := s.nodes[ip := Node(Free, 0, [])])
  }

  // ---------- Counting entries ----------

  ghost predicate SameRefs(nodes: seq<Node>, nodes': seq<Node>, i: nat) {
    forall d: nat, k: nat :: RefAt(nodes', d, k, i) <==> RefAt(nodes, d, k, i)
  }

  /** Entry x is one that names i now and did not before; the others do as they did. */
  ghost predicate OneMore(nodes: seq<Node>, nodes': seq<Node>, i: nat, x: (nat, nat)) {
    && RefAt(nodes', x.0, x.1, i) && !RefAt(nodes, x.0, x.1, i)
    && forall d: nat, k: nat :: (d, k) != x ==> (RefAt(nodes', d, k, i) <==> RefAt(nodes, d, k, i))
  }

  lemma SameCount(nodes: seq<Node>, nodes': seq<Node>, i: nat)
    requires SameRefs(nodes, nodes', i)
    ensures Refs(nodes', i) == Refs(nodes, i)
  {
    forall x | x in Refs(nodes, i) || x in Refs(nodes', i)
      ensures x in Refs(nodes, i) && x in Refs(nodes', i)
    {
      var (d, k) := x;
      assert RefAt(nodes', d, k, i) <==> RefAt(nodes, d, k, i);
    }
  }

  lemma CountMore(nodes: seq<Node>, nodes': seq<Node>, i: nat, x: (nat, nat))
    requires OneMore(nodes, nodes', i, x)
    ensures |Refs(nodes', i)| == |Refs(nodes, i)| + 1
  {
    forall y | y in Refs(nodes', i)
      ensures y in Refs(nodes, i) || y == x
    {
      var (d, k) := y;
      assert (d, k) != x ==> (RefAt(nodes', d, k, i) <==> RefAt(nodes, d, k, i));
    }
    forall y | y in Refs(nodes, i)
      ensures y in Refs(nodes', i)
    {
      var (d, k) := y;
      assert (d, k) != x ==> (RefAt(nodes', d, k, i) <==> RefAt(nodes, d, k, i));
    }
    assert Refs(nodes', i) == Refs(nodes, i) + {x};
  }

  /** A new entry counts for the inode it names and for no other. */
  lemma EntryRefs(nodes: seq<Node>, dp: nat, k: nat, e: Dirent, i: nat)
    requires dp < |nodes| && Live(nodes[dp]) && IsSlot(nodes[dp].ents, k) && e.inum != 0 && e.name != DOT
    ensures i == e.inum ==> OneMore(nodes, WithEntry(nodes, dp, k, e), i, (dp, k))
    ensures i != e.inum ==> SameRefs(nodes, WithEntry(nodes, dp, k, e), i)
  {
    var nodes' := WithEntry(nodes, dp, k, e);
    forall d: nat, l: nat | (d, l) != (dp, k)
      ensures RefAt(nodes', d, l, i) <==> RefAt(nodes, d, l, i)
    {
    }
  }

  /** Links that do not bring a directory to life or end it change no count. */
  lemma LinksRefs(nodes: seq<Node>, j: nat, n: int, i: nat)
    requires j < |nodes| && (Live(nodes[j]) <==> Live(AddLinks(nodes, j, n)[j]))
    ensures SameRefs(nodes, AddLinks(nodes, j, n), i)
  {
  }

  /** A file or a free inode names nothing. */
  lemma NodeRefs(nodes: seq<Node>, j: nat, n: Node, i: nat)
    requires j < |nodes| && !Live(nodes[j]) && !Live(n)
    ensures SameRefs(nodes, nodes[j := n], i)
  {
  }

  // ---------- Every step keeps the law ----------

  lemma LinkBeginInv(s: Sys, ip: nat)
    requires Inv(s) && ip < |s.nodes| && s.nodes[ip].kind == File
    ensures Inv(Next(s, LinkBegin(ip)))
  {
    var s' := Next(s, LinkBegin(ip));
    FileLinksInv(s, s', ip, 1);
    forall i | 0 <= i < |s.nodes|
      ensures Counted(s', i)
    {
      assert Counted(s, i);
      LinksRefs(s.nodes, ip, 1, i);
      SameCount(s.nodes, s'.nodes, i);
    }
  }

  lemma LinkBadInv(s: Sys, ip: nat)
    requires Inv(s) && ip < |s.nodes| && s.pending[ip] > 0
    ensures Inv(Next(s, LinkBad(ip)))
  {
    var s' := Next(s, LinkBad(ip));
    FileLinksInv(s, s', ip, -1);
    forall i | 0 <= i < |s.nodes|
      ensures Counted(s', i)
    {
      assert Counted(s, i);
      LinksRefs(s.nodes, ip, -1, i);
      SameCount(s.nodes, s'.nodes, i);
    }
  }

  /** A file's links are no matter of the directories. */
  lemma FileLinksInv(s: Sys, s': Sys, ip: nat, n: int)
    requires Dirs(s) && Removed(s) && OneName(s) && InUse(s) && ip < |s.nodes| && s.nodes[ip].kind == File
    requires s' == s.(nodes := AddLinks(s.nodes, ip, n), pending := s'.pending) && |s'.pending| == |s.pending|
    requires forall i :: 0 <= i < |s.nodes| && i != ip ==> s'.pending[i] == s.pending[i]
    ensures Dirs(s') && Removed(s') && OneName(s') && InUse(s')
  {
    RemovedKept(s, s');
    forall d: nat, k: nat, i: nat | RefAt(s'.nodes, d, k, i)
      ensures RefAt(s.nodes, d, k, i)
    {
    }
  }

  /** A removed directory that nobody touches stays as it is. */
  lemma RemovedKept(s: Sys, s': Sys)
    requires Removed(s) && |s'.nodes| == |s.nodes|
    requires forall d :: 0 <= d < |s.nodes| && IsRemoved(s'.nodes[d]) ==> s'.nodes[d] == s.nodes[d]
    ensures Removed(s')
  {
  }

  /** Linked or not, a directory has its dots. */
  lemma HasDots(s: Sys, d: nat)
    requires Dirs(s) && Removed(s) && d < |s.nodes| && s.nodes[d].kind == Dir
    ensures DotsOk(s, d)
  {
  }

  lemma SlotAfterDots(s: Sys, dp: nat, name: Name, k: nat)
    requires Dirs(s) && CanInsert(s, dp, name, k)
    ensures k >= 2 && name != DOT && name != DOTDOT
  {
    assert DotsOk(s, dp);
    assert Matches(s.nodes[dp].ents[0], DOT) && Matches(s.nodes[dp].ents[1], DOTDOT);
  }

  lemma EntryDirs(s: Sys, s': Sys, dp: nat, name: Name, k: nat, ip: nat)
    requires Dirs(s) && CanInsert(s, dp, name, k) && 0 < ip
    requires s' == s.(nodes := WithEntry(s.nodes, dp, k, Dirent(ip, name)), pending := s'.pending)
    requires |s'.pending| == |s.pending|
    ensures Dirs(s')
  {
    SlotAfterDots(s, dp, name, k);
    forall c | 0 <= c < |s.nodes| && Live(s'.nodes[c]) && c != ROOTINO
      ensures HomeOk(s', c)
    {
      assert Live(s.nodes[c]) && HomeOk(s, c);
      assert s.nodes[s.home[c].0].ents[s.home[c].1].inum != 0;
    }
    forall d | 0 <= d < |s.nodes| && Live(s'.nodes[d])
      ensures DotsOk(s', d)
    {
      assert DotsOk(s, d);
    }
  }

  lemma EntryNames(s: Sys, s': Sys, dp: nat, name: Name, k: nat, ip: nat)
    requires OneName(s) && InUse(s) && CanInsert(s, dp, name, k) && name != DOT
    requires 0 < ip < |s.nodes| && s.nodes[ip].kind == File
    requires s' == s.(nodes := WithEntry(s.nodes, dp, k, Dirent(ip, name)), pending := s'.pending)
    requires |s'.pending| == |s.pending|
    requires forall i :: 0 <= i < |s.nodes| && s'.pending[i] > 0 ==> s.pending[i] > 0
    ensures OneName(s') && InUse(s')
  {
    forall d: nat, l: nat, i: nat | RefAt(s'.nodes, d, l, i)
      ensures i == ip || RefAt(s.nodes, d, l, i)
    {
      EntryRefs(s.nodes, dp, k, Dirent(ip, name), i);
    }
  }

  /** A new entry for a file leaves the tree of directories as it is. */
  lemma EntryInv(s: Sys, s': Sys, dp: nat, name: Name, k: nat, ip: nat)
    requires Dirs(s) && Removed(s) && OneName(s) && InUse(s) && CanInsert(s, dp, name, k)
    requires 0 < ip < |s.nodes| && s.nodes[ip].kind == File
    requires s' == s.(nodes := WithEntry(s.nodes, dp, k, Dirent(ip, name)), pending := s'.pending)
    requires |s'.pending| == |s.pending|
    requires forall i :: 0 <= i < |s.nodes| && s'.pending[i] > 0 ==> s.pending[i] > 0
    ensures Dirs(s') && Removed(s') && OneName(s') && InUse(s')
  {
    SlotAfterDots(s, dp, name, k);
    EntryDirs(s, s', dp, name, k, ip);
    EntryNames(s, s', dp, name, k, ip);
    RemovedKept(s, s');
  }

  lemma LinkEndInv(s: Sys, ip: nat, dp: nat, name: Name, k: nat)
    requires Inv(s) && Enabled(s, LinkEnd(ip, dp, name, k)) && Live(s.nodes[dp])
    ensures Inv(Next(s, LinkEnd(ip, dp, name, k)))
  {
    var s', e := Next(s, LinkEnd(ip, dp, name, k)), Dirent(ip, name);
    SlotAfterDots(s, dp, name, k);
    EntryInv(s, s', dp, name, k, ip);
    forall i | 0 <= i < |s.nodes|
      ensures Counted(s', i)
    {
      assert Counted(s, i);
      EntryRefs(s.nodes, dp, k, e, i);
      if i == ip {
        CountMore(s.nodes, s'.nodes, i, (dp, k));
      } else {
        SameCount(s.nodes, s'.nodes, i);
      }
    }
  }

  /** An inode that is not linked can become a file or be freed. */
  lemma NodeInv(s: Sys, ip: nat, n: Node)
    requires Dirs(s) && Removed(s) && OneName(s) && InUse(s)
    requires 0 < ip < |s.nodes| && !Live(s.nodes[ip]) && s.nodes[ip].nlink == 0 && s.pending[ip] == 0
    requires n == Node(File, 0, []) || n == Node(Free, 0, [])
    ensures var s' := s.(nodes := s.nodes[ip := n]); Dirs(s') && Removed(s') && OneName(s') && InUse(s')
  {
    var s' := s.(nodes := s.nodes[ip := n]);
    RemovedKept(s, s');
    forall d: nat, l: nat, i: nat | RefAt(s'.nodes, d, l, i)
      ensures RefAt(s.nodes, d, l, i)
    {
    }
    forall c | 0 <= c < |s.nodes| && Live(s'.nodes[c]) && c != ROOTINO
      ensures HomeOk(s', c)
    {
      assert HomeOk(s, c);
    }
    assert forall d :: 0 <= d < |s.nodes| && Live(s'.nodes[d]) ==> DotsOk(s, d);
  }

  lemma ReclaimInv(s: Sys, ip: nat)
    requires Inv(s) && Enabled(s, Reclaim(ip))
    ensures Inv(Next(s, Reclaim(ip)))
  {
    NodeInv(s, ip, Node(Free, 0, []));
    NodeCounted(s, ip, Node(Free, 0, []));
  }

  lemma NodeCounted(s: Sys, ip: nat, n: Node)
    requires Inv(s) && ip < |s.nodes| && !Live(s.nodes[ip]) && !Live(n) && n.nlink == s.nodes[ip].nlink
    ensures var s' := s.(nodes := s.nodes[ip := n]); forall i :: 0 <= i < |s.nodes| ==> Counted(s', i)
  {
    var s' := s.(nodes := s.nodes[ip := n]);
    forall i | 0 <= i < |s.nodes|
      ensures Counted(s', i)
    {
      assert Counted(s, i);
      NodeRefs(s.nodes, ip, n, i);
      SameCount(s.nodes, s'.nodes, i);
    }
  }

  lemma TakeInodeInv(s: Sys, ip: nat)
    requires Inv(s) && 0 < ip < |s.nodes| && s.nodes[ip].kind == Free
    ensures Inv(s.(nodes := s.nodes[ip := Node(File, 0, [])]))
  {
    NodeInv(s, ip, Node(File, 0, []));
    NodeCounted(s, ip, Node(File, 0, []));
  }

  lemma CreateFileIs(s: Sys, s2: Sys, dp: nat, name: Name, k: nat, ip: nat)
    requires Shaped(s) && Enabled(s, CreateFile(dp, name, k, ip))
    requires s2 == s.(nodes := s.nodes[ip := Node(File, 1, [])], pending := s.pending[ip := s.pending[ip] + 1])
    ensures Shaped(s2) && Enabled(s2, LinkEnd(ip, dp, name, k))
    ensures Next(s2, LinkEnd(ip, dp, name, k)) == Next(s, CreateFile(dp, name, k, ip))
  {
    assert Next(s2, LinkEnd(ip, dp, name, k)).pending == s.pending;
  }

  lemma FreshFileInv(s: Sys, s2: Sys, ip: nat)
    requires Inv(s) && 0 < ip < |s.nodes| && s.nodes[ip].kind == Free
    requires s2 == s.(nodes := s.nodes[ip := Node(File, 1, [])], pending := s.pending[ip := s.pending[ip] + 1])
    ensures Inv(s2)
  {
    var s1 := s.(nodes := s.nodes[ip := Node(File, 0, [])]);
    TakeInodeInv(s, ip);
    LinkBeginInv(s1, ip);
    assert AddLinks(s1.nodes, ip, 1) == s2.nodes;
    assert Next(s1, LinkBegin(ip)) == s2;
  }

  /** create of a file is a free inode taken, and a link that ends at once. */
  lemma CreateFileInv(s: Sys, s2: Sys, s': Sys, dp: nat, name: Name, k: nat, ip: nat)
    requires Inv(s) && Enabled(s, CreateFile(dp, name, k, ip)) && Live(s.nodes[dp])
    requires s' == Next(s, CreateFile(dp, name, k, ip))
    requires s2 == s.(nodes := s.nodes[ip := Node(File, 1, [])], pending := s.pending[ip := s.pending[ip] + 1])
    ensures Inv(s')
  {
    FreshFileInv(s, s2, ip);
    CreateFileIs(s, s2, dp, name, k, ip);
    LinkEndInv(s2, ip, dp, name, k);
  }

  // ---------- Directories come and go ----------

  lemma NoRefs(s: Sys, i: nat)
    requires Shaped(s) && i < |s.nodes| && Counted(s, i) && s.nodes[i].nlink == 0
    ensures forall d: nat, k: nat :: !RefAt(s.nodes, d, k, i)
  {
    assert Refs(s.nodes, i) == {};
    forall d: nat, k: nat
      ensures !RefAt(s.nodes, d, k, i)
    {
      assert RefAt(s.nodes, d, k, i) ==> (d, k) in Refs(s.nodes, i);
    }
  }

  /** mkdir, inode by inode. */
  ghost predicate Made(s: Sys, s': Sys, dp: nat, name: Name, k: nat, ip: nat) {
    && Shaped(s) && Insertable(s, dp, name, k) && 0 < ip < |s.nodes| && ip != dp && s.nodes[ip].kind == Free
    && |s'.nodes| == |s.nodes| && s'.pending == s.pending && s'.home == s.home[ip := (dp, k)]
    && s'.nodes[ip] == Node(Dir, 1, [Dirent(ip, DOT), Dirent(dp, DOTDOT)])
    && s'.nodes[dp] == Node(Dir, s.nodes[dp].nlink + 1, Insert(s.nodes[dp].ents, k, Dirent(ip, name)))
    && forall d :: 0 <= d < |s.nodes| && d != ip && d != dp ==> s'.nodes[d] == s.nodes[d]
  }

  /** mkdir's two entries that count: the name in dp, and "..". */
  lemma MadeRefs(s: Sys, s': Sys, dp: nat, name: Name, k: nat, ip: nat, d: nat, l: nat, j: nat)
    requires Made(s, s', dp, name, k, ip) && Live(s.nodes[dp]) && name != DOT && 0 < dp
    ensures RefAt(s'.nodes, d, l, j) <==>
              RefAt(s.nodes, d, l, j) || (d == dp && l == k && j == ip) || (d == ip && l == 1 && j == dp)
  {
    assert DOT != DOTDOT;
  }

  lemma MadeHome(s: Sys, s': Sys, dp: nat, name: Name, k: nat, ip: nat, c: nat)
    requires Made(s, s', dp, name, k, ip) && 2 <= k && c < |s.nodes| && c != ip && c != 0 && HomeOk(s, c)
    ensures HomeOk(s', c)
  {
  }

  lemma MadeDots(s: Sys, s': Sys, dp: nat, name: Name, k: nat, ip: nat, d: nat)
    requires Made(s, s', dp, name, k, ip) && 2 <= k && name != DOT && name != DOTDOT && 0 < dp
    requires d < |s.nodes| && (d != ip ==> DotsOk(s, d))
    ensures DotsOk(s', d)
  {
  }

  lemma MadeDirs(s: Sys, s': Sys, dp: nat, name: Name, k: nat, ip: nat)
    requires Dirs(s) && Made(s, s', dp, name, k, ip) && Live(s.nodes[dp])
    ensures Dirs(s')
  {
    SlotAfterDots(s, dp, name, k);
    forall c | 0 <= c < |s.nodes| && Live(s'.nodes[c]) && c != ROOTINO
      ensures HomeOk(s', c)
    {
      if c != ip {
        assert Live(s.nodes[c]);
        MadeHome(s, s', dp, name, k, ip, c);
      }
    }
    forall d | 0 <= d < |s.nodes| && Live(s'.nodes[d])
      ensures DotsOk(s', d)
    {
      MadeDots(s, s', dp, name, k, ip, d);
    }
  }

  lemma MadeNames(s: Sys, s': Sys, dp: nat, name: Name, k: nat, ip: nat)
    requires Dirs(s) && OneName(s) && InUse(s) && Made(s, s', dp, name, k, ip) && Live(s.nodes[dp])
    requires forall d: nat, l: nat :: !RefAt(s.nodes, d, l, ip)
    ensures OneName(s') && InUse(s')
  {
    SlotAfterDots(s, dp, name, k);
    forall d: nat, l: nat, j: nat | RefAt(s'.nodes, d, l, j)
      ensures j < |s.nodes|
      ensures 2 <= l && s'.nodes[j].kind == Dir ==> j != ROOTINO && s'.home[j] == (d, l)
    {
      MadeRefs(s, s', dp, name, k, ip, d, l, j);
    }
  }

  lemma MadeCounted(s: Sys, s': Sys, dp: nat, name: Name, k: nat, ip: nat, i: nat)
    requires Dirs(s) && InUse(s) && Made(s, s', dp, name, k, ip) && Live(s.nodes[dp]) && i < |s.nodes| && Counted(s, i)
    requires forall d: nat, l: nat :: !RefAt(s.nodes, d, l, ip)
    ensures Counted(s', i)
  {
    SlotAfterDots(s, dp, name, k);
    forall d: nat, l: nat
      ensures RefAt(s'.nodes, d, l, i) <==>
                RefAt(s.nodes, d, l, i) || (d == dp && l == k && i == ip) || (d == ip && l == 1 && i == dp)
    {
      MadeRefs(s, s', dp, name, k, ip, d, l, i);
    }
    if i == ip {
      CountMore(s.nodes, s'.nodes, i, (dp, k));
    } else if i == dp {
      CountMore(s.nodes, s'.nodes, i, (ip, 1));
    } else {
      SameCount(s.nodes, s'.nodes, i);
    }
  }

  lemma CreateDirInv(s: Sys, s': Sys, dp: nat, name: Name, k: nat, ip: nat)
    requires Inv(s) && Made(s, s', dp, name, k, ip) && Live(s.nodes[dp])
    ensures Inv(s')
  {
    RemovedKept(s, s');
    assert Counted(s, ip);
    NoRefs(s, ip);
    MadeDirs(s, s', dp, name, k, ip);
    MadeNames(s, s', dp, name, k, ip);
    forall i | 0 <= i < |s.nodes|
      ensures Counted(s', i)
    {
      assert Counted(s, i);
      MadeCounted(s, s', dp, name, k, ip, i);
    }
  }

  /** unlink, inode by inode: entry k of dp named i. */
  ghost predicate Gone(s: Sys, s': Sys, dp: nat, k: nat, i: nat) {
    && Shaped(s) && dp < |s.nodes| && Live(s.nodes[dp]) && 2 <= k < |s.nodes[dp].ents| && s.nodes[dp].ents[k].inum == i
    && 0 < i < |s.nodes| && i != dp && (s.nodes[i].kind == Dir ==> Empty(s.nodes[i].ents))
    && |s'.nodes| == |s.nodes| && s'.pending == s.pending && s'.home == s.home
    && s'.nodes[i] == s.nodes[i].(nlink := s.nodes[i].nlink - 1)
    && s'.nodes[dp] ==
       Node(Dir, s.nodes[dp].nlink - (if s.nodes[i].kind == Dir then 1 else 0), s.nodes[dp].ents[k := Dirent(0, "")])
    && forall d :: 0 <= d < |s.nodes| && d != i && d != dp ==> s'.nodes[d] == s.nodes[d]
  }

  /** The entry that unlink finds counts, so the inode has a link: the panic is out of reach. */
  lemma Named(s: Sys, dp: nat, k: nat)
    requires Inv(s) && dp < |s.nodes| && s.nodes[dp].kind == Dir && 2 <= k < |s.nodes[dp].ents|
    requires s.nodes[dp].ents[k].inum != 0
    ensures Live(s.nodes[dp])
    ensures var i := s.nodes[dp].ents[k].inum;
              i < |s.nodes| && s.nodes[i].nlink >= 1 && s.nodes[i].kind != Free && RefAt(s.nodes, dp, k, i)
  {
    assert IsRemoved(s.nodes[dp]) ==> RemovedOk(s, dp);
    assert DotsOk(s, dp);
    var i := s.nodes[dp].ents[k].inum;
    assert RefAt(s.nodes, dp, k, i);
    assert (dp, k) in Refs(s.nodes, i);
    assert Counted(s, i);
  }

  /** Nobody's ".." names an empty directory. */
  lemma NoChild(s: Sys, i: nat, d: nat)
    requires Dirs(s) && 0 < i < |s.nodes| && i != ROOTINO && Empty(s.nodes[i].ents)
    ensures !RefAt(s.nodes, d, 1, i)
  {
    if d < |s.nodes| && Live(s.nodes[d]) {
      assert d != ROOTINO ==> HomeOk(s, d);
    }
  }

  /** The one entry of a directory that counts, other than a "..", is its own. */
  lemma OnlyName(s: Sys, i: nat, d: nat, l: nat)
    requires Shaped(s) && OneName(s) && i < |s.nodes| && s.nodes[i].kind == Dir && RefAt(s.nodes, d, l, i) && l != 1
    requires DotsOk(s, d)
    ensures s.home[i] == (d, l)
  {
  }

  /** The links of an empty directory and of its parent. */
  lemma DirLinks(s: Sys, dp: nat, k: nat, i: nat)
    requires Inv(s) && RefAt(s.nodes, dp, k, i) && 2 <= k && i < |s.nodes| && Live(s.nodes[i]) && Empty(s.nodes[i].ents)
    ensures i != ROOTINO && i != dp && s.home[i] == (dp, k) && s.nodes[i].nlink == 1
    ensures RefAt(s.nodes, i, 1, dp) && s.nodes[dp].nlink >= 2
  {
    assert DotsOk(s, dp) && DotsOk(s, i);
    assert i != ROOTINO && HomeOk(s, i);
    assert Counted(s, i) && Counted(s, dp);
    OnlyName(s, i, dp, k);
    forall x | x in Refs(s.nodes, i)
      ensures x == (dp, k)
    {
      NoChild(s, i, x.0);
      OnlyName(s, i, x.0, x.1);
    }
    assert Refs(s.nodes, i) == {(dp, k)} by {
      assert (dp, k) in Refs(s.nodes, i);
    }
    ParentNamed(s, i, dp);
  }

  /** The entry that keeps a linked directory: its name, or the root's "..". */
  lemma OwnEntry(s: Sys, dp: nat) returns (x: (nat, nat))
    requires Dirs(s) && 0 < dp < |s.nodes| && Live(s.nodes[dp])
    ensures RefAt(s.nodes, x.0, x.1, dp) && (x.1 >= 2 || x == (dp, 1))
  {
    x := if dp == ROOTINO then (ROOTINO, 1) else s.home[dp];
    assert DotsOk(s, dp);
    if dp != ROOTINO {
      assert HomeOk(s, dp);
      assert DotsOk(s, x.0);
    }
  }

  lemma ParentNamed(s: Sys, i: nat, dp: nat)
    requires Dirs(s) && 0 < dp < |s.nodes| && i != dp && Live(s.nodes[dp]) && RefAt(s.nodes, i, 1, dp) && Counted(s, dp)
    ensures s.nodes[dp].nlink >= 2
  {
    var x := OwnEntry(s, dp);
    TwoRefs(s.nodes, dp, x, (i, 1));
  }

  lemma TwoRefs(nodes: seq<Node>, j: nat, x: (nat, nat), y: (nat, nat))
    requires x != y && RefAt(nodes, x.0, x.1, j) && RefAt(nodes, y.0, y.1, j)
    ensures |Refs(nodes, j)| >= 2
  {
    assert {x, y} <= Refs(nodes, j);
    SubsetSize({x, y}, Refs(nodes, j));
  }

  /** What unlink does to the entries that count: the name goes, and with a directory its "..". */
  lemma GoneRefs(s: Sys, s': Sys, dp: nat, k: nat, i: nat, d: nat, l: nat, j: nat)
    requires Gone(s, s', dp, k, i)
    requires s.nodes[i].kind == Dir ==>
               Live(s.nodes[i]) && DotsOk(s, i) && s.nodes[i].nlink == 1 && s.nodes[i].ents[1].inum == dp
                 && s.nodes[dp].nlink >= 2
    ensures RefAt(s'.nodes, d, l, j) <==>
              RefAt(s.nodes, d, l, j) && !(d == dp && l == k) && !(d == i && l == 1 && s.nodes[i].kind == Dir)
  {
    if d == i && s.nodes[i].kind == Dir && 2 <= l < |s.nodes[i].ents| {
      assert s.nodes[i].ents[l].inum == 0;
    }
  }

  lemma GoneCounted(s: Sys, s': Sys, dp: nat, k: nat, i: nat, j: nat)
    requires Dirs(s) && Gone(s, s', dp, k, i) && RefAt(s.nodes, dp, k, i)
    requires s.nodes[i].kind == Dir ==>
               Live(s.nodes[i]) && s.nodes[i].nlink == 1 && RefAt(s.nodes, i, 1, dp) && s.nodes[dp].nlink >= 2
    requires j < |s.nodes| && Counted(s, j)
    ensures Counted(s', j)
  {
    assert s.nodes[i].kind == Dir ==> DotsOk(s, i);
    forall d: nat, l: nat
      ensures RefAt(s'.nodes, d, l, j) <==>
                RefAt(s.nodes, d, l, j) && !(d == dp && l == k) && !(d == i && l == 1 && s.nodes[i].kind == Dir)
    {
      GoneRefs(s, s', dp, k, i, d, l, j);
    }
    if j == i {
      CountMore(s'.nodes, s.nodes, j, (dp, k));
    } else if j == dp && s.nodes[i].kind == Dir {
      CountMore(s'.nodes, s.nodes, j, (i, 1));
    } else {
      SameCount(s.nodes, s'.nodes, j);
    }
  }

  lemma GoneHome(s: Sys, s': Sys, dp: nat, k: nat, i: nat, c: nat)
    requires Gone(s, s', dp, k, i) && c < |s.nodes| && c != i && c != 0 && HomeOk(s, c)
    requires s.nodes[i].kind == Dir ==> s.nodes[dp].nlink >= 2
    ensures HomeOk(s', c)
  {
  }

  lemma GoneDirs(s: Sys, s': Sys, dp: nat, k: nat, i: nat)
    requires Dirs(s) && Gone(s, s', dp, k, i) && i != ROOTINO
    requires s.nodes[i].kind == Dir ==> s.nodes[i].nlink == 1 && s.nodes[dp].nlink >= 2
    ensures Dirs(s')
  {
    forall c | 0 <= c < |s.nodes| && Live(s'.nodes[c]) && c != ROOTINO
      ensures HomeOk(s', c)
    {
      assert Live(s.nodes[c]);
      GoneHome(s, s', dp, k, i, c);
    }
    forall d | 0 <= d < |s.nodes| && Live(s'.nodes[d])
      ensures DotsOk(s', d)
    {
      assert Live(s.nodes[d]) && DotsOk(s, d);
    }
  }

  lemma UnlinkInv(s: Sys, s': Sys, dp: nat, k: nat, i: nat)
    requires Inv(s) && Gone(s, s', dp, k, i)
    ensures Inv(s')
  {
    Named(s, dp, k);
    if s.nodes[i].kind == Dir {
      DirLinks(s, dp, k, i);
    }
    GoneDirs(s, s', dp, k, i);
    GoneRemoved(s, s', dp, k, i);
    GoneNames(s, s', dp, k, i);
    forall j | 0 <= j < |s.nodes|
      ensures Counted(s', j)
    {
      assert Counted(s, j);
      GoneCounted(s, s', dp, k, i, j);
    }
  }

  lemma GoneRemoved(s: Sys, s': Sys, dp: nat, k: nat, i: nat)
    requires Dirs(s) && Removed(s) && Gone(s, s', dp, k, i)
    requires s.nodes[i].kind == Dir ==> Live(s.nodes[i]) && RefAt(s.nodes, i, 1, dp) && s.nodes[dp].nlink >= 2
    ensures Removed(s')
  {
    forall d | 0 <= d < |s.nodes| && IsRemoved(s'.nodes[d])
      ensures RemovedOk(s', d)
    {
      assert if d == i then DotsOk(s, d) else RemovedOk(s, d);
    }
  }

  lemma GoneNames(s: Sys, s': Sys, dp: nat, k: nat, i: nat)
    requires OneName(s) && InUse(s) && Gone(s, s', dp, k, i) && Shaped(s')
    requires s.nodes[i].kind != Free && (s.nodes[i].kind == Dir ==> s.nodes[dp].nlink >= 2)
    ensures OneName(s') && InUse(s')
  {
    forall d: nat, l: nat, j: nat | RefAt(s'.nodes, d, l, j)
      ensures RefAt(s.nodes, d, l, j)
    {
    }
  }

  lemma CreateDirIsMade(s: Sys, dp: nat, name: Name, k: nat, ip: nat)
    requires Shaped(s) && Enabled(s, CreateDir(dp, name, k, ip))
    ensures Made(s, MadeDir(s, dp, name, k, ip), dp, name, k, ip)
  {
  }

  lemma UnlinkIsGone(s: Sys, dp: nat, k: nat)
    requires Inv(s) && Enabled(s, Unlink(dp, k))
    ensures Gone(s, s.(nodes := Unlinked(s.nodes, dp, k)), dp, k, s.nodes[dp].ents[k].inum)
  {
    var i := s.nodes[dp].ents[k].inum;
    Named(s, dp, k);
    NotItself(s, dp, k, i);
  }

  lemma NotItself(s: Sys, dp: nat, k: nat, i: nat)
    requires Dirs(s) && OneName(s) && RefAt(s.nodes, dp, k, i) && 2 <= k && i < |s.nodes|
    ensures i != dp
  {
    assert i != ROOTINO && s.nodes[i].kind == Dir && Live(s.nodes[i]) ==> HomeOk(s, i);
  }

  lemma StepInv(s: Sys, step: Step)
    requires Inv(s) && Enabled(s, step) && Linked(s, step)
    ensures Inv(Next(s, step))
  {
    match step
    case CreateFile(dp, name, k, ip) =>
      CreateFileInv(s, s.(nodes := s.nodes[ip := Node(File, 1, [])], pending := s.pending[ip := s.pending[ip] + 1]),
        Next(s, step), dp, name, k, ip);
    case CreateDir(dp, name, k, ip) =>
      CreateDirIsMade(s, dp, name, k, ip);
      CreateDirInv(s, MadeDir(s, dp, name, k, ip), dp, name, k, ip);
    case LinkBegin(ip) => LinkBeginInv(s, ip);
    case LinkEnd(ip, dp, name, k) => LinkEndInv(s, ip, dp, name, k);
    case LinkBad(ip) => LinkBadInv(s, ip);
    case Unlink(dp, k) =>
      UnlinkIsGone(s, dp, k);
      UnlinkInv(s, s.(nodes := Unlinked(s.nodes, dp, k)), dp, k, s.nodes[dp].ents[k].inum);
    case Reclaim(ip) => ReclaimInv(s, ip);
  }

  // ---------- Every run ----------

  /** What mkfs leaves without files: the root directory, linked by its own "..". */
  ghost predicate Init(s: Sys) {
    && Shaped(s) && s.nodes[ROOTINO] == Node(Dir, 1, [Dirent(ROOTINO, DOT), Dirent(ROOTINO, DOTDOT)])
    && (forall i :: 0 <= i < |s.nodes| && i != ROOTINO ==> s.nodes[i] == Node(Free, 0, []))
    && (forall i :: 0 <= i < |s.nodes| ==> s.pending[i] == 0)
  }

  lemma InitRefs(s: Sys, i: nat)
    requires Init(s) && i < |s.nodes|
    ensures Counted(s, i)
  {
    forall d: nat, k: nat
      ensures RefAt(s.nodes, d, k, i) <==> d == ROOTINO && k == 1 && i == ROOTINO
    {
    }
    if i == ROOTINO {
      assert Refs(s.nodes, i) == {(ROOTINO, 1)};
    } else {
      assert Refs(s.nodes, i) == {};
    }
  }

  lemma InitInv(s: Sys)
    requires Init(s)
    ensures Inv(s)
  {
    forall i | 0 <= i < |s.nodes|
      ensures Counted(s, i)
    {
      InitRefs(s, i);
    }
  }

  /** The steps lead from init to s; if `linked`, every parent directory is linked itself. */
  ghost predicate Run(init: Sys, steps: seq<Step>, s: Sys, linked: bool)
    decreases |steps|
  {
    if steps == [] then s == init && Init(init)
    else
      var rest, last := steps[..|steps| - 1], steps[|steps| - 1];
      exists m ::
          && Run(init, rest, m, linked) && Shaped(m) && Enabled(m, last) && (linked ==> Linked(m, last))
          && s == Next(m, last)
  }

  lemma {:induction false} RunInv(init: Sys, steps: seq<Step>, s: Sys)
    requires Run(init, steps, s, true)
    ensures Inv(s)
    decreases |steps|
  {
    if steps == [] {
      InitInv(s);
    } else {
      var rest, last := steps[..|steps| - 1], steps[|steps| - 1];
      var m :| Run(init, rest, m, true) && Shaped(m) && Enabled(m, last) && Linked(m, last) && s == Next(m, last);
      RunInv(init, rest, m);
      StepInv(m, last);
    }
  }

  /** In every run whose parent directories are linked, every inode's nlink is the number of entries that
      name it in linked directories, "." left out, plus the links in progress; so it is exactly that number
      when no link is in progress. */
  lemma LinkCounts(init: Sys, steps: seq<Step>, s: Sys, i: nat)
    requires Run(init, steps, s, true) && i < |s.nodes|
    ensures |s.pending| == |s.nodes| && s.nodes[i].nlink == |Refs(s.nodes, i)| + s.pending[i]
  {
    RunInv(init, steps, s);
    assert Counted(s, i);
  }

  // ---------- Below a directory that has been removed ----------

  /** dirlink into a removed directory makes an entry that does not count. */
  lemma DeadRefs(nodes: seq<Node>, dp: nat, k: nat, e: Dirent, i: nat)
    requires dp < |nodes| && !Live(nodes[dp]) && k <= |nodes[dp].ents|
    ensures Refs(WithEntry(nodes, dp, k, e), i) == Refs(nodes, i)
  {
    SameCount(nodes, WithEntry(nodes, dp, k, e), i);
  }

  /** So the new file has a link and no entry, */
  lemma DeadFile(s: Sys, dp: nat, name: Name, k: nat, ip: nat)
    requires Inv(s) && Enabled(s, CreateFile(dp, name, k, ip)) && !Live(s.nodes[dp])
    ensures !Counted(Next(s, CreateFile(dp, name, k, ip)), ip)
  {
    assert Counted(s, ip);
    var nodes := s.nodes[ip := Node(File, 1, [])];
    NodeRefs(s.nodes, ip, Node(File, 1, []), ip);
    SameCount(s.nodes, nodes, ip);
    DeadRefs(nodes, dp, k, Dirent(ip, name), ip);
  }

  /** and so has the old file, once the link is no longer in progress. */
  lemma DeadLink(s: Sys, ip: nat, dp: nat, name: Name, k: nat)
    requires Inv(s) && Enabled(s, LinkEnd(ip, dp, name, k)) && !Live(s.nodes[dp])
    ensures !Counted(Next(s, LinkEnd(ip, dp, name, k)), ip)
  {
    assert Counted(s, ip);
    DeadRefs(s.nodes, dp, k, Dirent(ip, name), ip);
  }

  /** mkdir brings the removed directory back by giving it a link: its ".." counts again. */
  lemma RevivedRefs(s: Sys, s': Sys, dp: nat, name: Name, k: nat, ip: nat, d: nat, l: nat, j: nat)
    requires Made(s, s', dp, name, k, ip) && IsRemoved(s.nodes[dp]) && s.nodes[dp].nlink == 0 && RemovedOk(s, dp)
    requires 2 <= k && name != DOT && j == s.nodes[dp].ents[1].inum
    ensures RefAt(s'.nodes, d, l, j) <==>
              RefAt(s.nodes, d, l, j) || (d == dp && l == 1) || (d == dp && l == k && j == ip)
  {
    assert DOT != DOTDOT;
  }

  /** Its old parent has the same links as before and one entry more. */
  lemma DeadDir(s: Sys, s': Sys, dp: nat, name: Name, k: nat, ip: nat)
    requires Inv(s) && Made(s, s', dp, name, k, ip) && !Live(s.nodes[dp])
    ensures var up := s.nodes[dp].ents[1].inum; up < |s.nodes| && !Counted(s', up)
  {
    assert Counted(s, dp) && IsRemoved(s.nodes[dp]) && RemovedOk(s, dp);
    var up := s.nodes[dp].ents[1].inum;
    assert Matches(s.nodes[dp].ents[0], DOT);
    forall d: nat, l: nat
      ensures RefAt(s'.nodes, d, l, up) <==>
                RefAt(s.nodes, d, l, up) || (d == dp && l == 1) || (d == dp && l == k && up == ip)
    {
      RevivedRefs(s, s', dp, name, k, ip, d, l, up);
    }
    assert Counted(s, up);
    if up == ip {
      TwoRefs(s'.nodes, ip, (dp, 1), (dp, k));
    } else {
      CountMore(s.nodes, s'.nodes, up, (dp, 1));
    }
  }

  /** create, mkdir and link leave every count right exactly when the directory they make the entry in is
      linked itself. */
  lemma ParentMustBeLinked(s: Sys, step: Step)
    requires Inv(s) && Enabled(s, step) && MakesEntry(step)
    ensures AllCounted(Next(s, step)) <==> Linked(s, step)
  {
    if Linked(s, step) {
      StepInv(s, step);
    } else {
      match step
      case CreateFile(dp, name, k, ip) => DeadFile(s, dp, name, k, ip);
      case CreateDir(dp, name, k, ip) =>
        CreateDirIsMade(s, dp, name, k, ip);
        DeadDir(s, MadeDir(s, dp, name, k, ip), dp, name, k, ip);
      case LinkEnd(ip, dp, name, k) => DeadLink(s, ip, dp, name, k);
    }
  }

  lemma RunMore(init: Sys, steps: seq<Step>, m: Sys, step: Step, linked: bool)
    requires Run(init, steps, m, linked) && Shaped(m) && Enabled(m, step) && (linked ==> Linked(m, step))
    ensures Run(init, steps + [step], Next(m, step), linked)
  {
    var all, s := steps + [step], Next(m, step);
    assert all[..|all| - 1] == steps && all[|all| - 1] == step;
    assert Run(init, all[..|all| - 1], m, linked);
  }

  lemma {:induction false} RunAnyway(init: Sys, steps: seq<Step>, s: Sys)
    requires Run(init, steps, s, true)
    ensures Run(init, steps, s, false)
    decreases |steps|
  {
    if steps != [] {
      var rest, last := steps[..|steps| - 1], steps[|steps| - 1];
      var m :| Run(init, rest, m, true) && Shaped(m) && Enabled(m, last) && Linked(m, last) && s == Next(m, last);
      RunAnyway(init, rest, m);
    }
  }

  lemma MkdirExample(init: Sys, m: Sys)
    requires |init.nodes| == 4 && Init(init) && m == MadeDir(init, ROOTINO, "d", 2, 2)
    ensures m.nodes[ROOTINO] == Node(Dir, 2, [Dirent(ROOTINO, DOT), Dirent(ROOTINO, DOTDOT), Dirent(2, "d")])
    ensures m.nodes[2] == Node(Dir, 1, [Dirent(2, DOT), Dirent(ROOTINO, DOTDOT)]) && |m.nodes| == 4
    ensures m.nodes[3] == init.nodes[3]
    ensures m.nodes[0] == init.nodes[0] && m.pending == init.pending && |m.home| == 4
  {
  }

  lemma MkdirRuns(init: Sys, m: Sys, mk: Step)
    requires mk == CreateDir(ROOTINO, "d", 2, 2) && |init.nodes| == 4 && Init(init)
    requires m == MadeDir(init, ROOTINO, "d", 2, 2)
    ensures Run(init, [mk], m, true)
  {
    assert !Present(init.nodes[ROOTINO].ents, "d");
    RunMore(init, [], init, mk, true);
    assert [] + [mk] == [mk];
  }

  /** A directory is made, and removed again while someone is in it: it is not linked any more but still
      there. */
  lemma RemovedDirectory(init: Sys) returns (steps: seq<Step>, s: Sys)
    requires |init.nodes| == 4 && Init(init)
    ensures Run(init, steps, s, true) && |s.nodes| == 4 && s.nodes[3].kind == Free
    ensures s.nodes[2] == Node(Dir, 0, [Dirent(2, DOT), Dirent(ROOTINO, DOTDOT)])
  {
    var mk, rm := CreateDir(ROOTINO, "d", 2, 2), Unlink(ROOTINO, 2);
    var m := MadeDir(init, ROOTINO, "d", 2, 2);
    MkdirExample(init, m);
    MkdirRuns(init, m, mk);
    RunMore(init, [mk], m, rm, true);
    steps, s := [mk] + [rm], Next(m, rm);
  }

  lemma WrongFile(init: Sys, steps: seq<Step>, s: Sys)
    requires Run(init, steps, s, true) && Run(init, steps, s, false) && |s.nodes| == 4 && s.nodes[3].kind == Free
    requires s.nodes[2] == Node(Dir, 0, [Dirent(2, DOT), Dirent(ROOTINO, DOTDOT)])
    ensures exists f :: Run(init, steps + [CreateFile(2, "f", 2, 3)], f, false) && !AllCounted(f)
  {
    RunInv(init, steps, s);
    assert !Present(s.nodes[2].ents, "f");
    RunMore(init, steps, s, CreateFile(2, "f", 2, 3), false);
    ParentMustBeLinked(s, CreateFile(2, "f", 2, 3));
  }

  lemma WrongDir(init: Sys, steps: seq<Step>, s: Sys)
    requires Run(init, steps, s, true) && Run(init, steps, s, false) && |s.nodes| == 4 && s.nodes[3].kind == Free
    requires s.nodes[2] == Node(Dir, 0, [Dirent(2, DOT), Dirent(ROOTINO, DOTDOT)])
    ensures exists d :: Run(init, steps + [CreateDir(2, "f", 2, 3)], d, false) && !AllCounted(d)
  {
    RunInv(init, steps, s);
    assert !Present(s.nodes[2].ents, "f");
    RunMore(init, steps, s, CreateDir(2, "f", 2, 3), false);
    ParentMustBeLinked(s, CreateDir(2, "f", 2, 3));
  }

  /** Two runs to a wrong count: a file, or a directory, is created in the removed directory. */
  lemma WrongCounts(init: Sys) returns (steps: seq<Step>)
    requires |init.nodes| == 4 && Init(init)
    ensures exists f :: Run(init, steps + [CreateFile(2, "f", 2, 3)], f, false) && !AllCounted(f)
    ensures exists d :: Run(init, steps + [CreateDir(2, "f", 2, 3)], d, false) && !AllCounted(d)
  {
    var s;
    steps, s := RemovedDirectory(init);
    RunAnyway(init, steps, s);
    WrongFile(init, steps, s);
    WrongDir(init, steps, s);
  }

  // ---------- The calls ----------

  /** unlink does not touch ".", "..", a name that is not there, or a directory that is not empty. */
  ghost predicate Refused(nodes: seq<Node>, dp: nat, name: Name)
    requires dp < |nodes|
  {
    name == DOT || name == DOTDOT || !Present(nodes[dp].ents, name) || exists k: nat ::
        Found(nodes[dp].ents, name, k) && FullDir(nodes, nodes[dp].ents[k].inum)
  }

  /** Entry k of dp is the first with this name, and what it names is no directory with more than its dots. */
  ghost predicate Removable(nodes: seq<Node>, dp: nat, name: Name, k: nat)
    requires dp < |nodes|
  {
    && Found(nodes[dp].ents, name, k) && k < |nodes[dp].ents| && nodes[dp].ents[k].inum < |nodes|
    && (nodes[nodes[dp].ents[k].inum].kind == Dir ==> Empty(nodes[nodes[dp].ents[k].inum].ents))
  }

  /** k is the first entry with this name. */
  ghost predicate Found(ents: seq<Dirent>, name: Name, k: nat) {
    k < |ents| && Matches(ents[k], name) && forall j :: 0 <= j < k ==> !Matches(ents[j], name)
  }

  predicate IsFile(nodes: seq<Node>, i: nat) {
    i < |nodes| && nodes[i].kind == File
  }

  predicate FullDir(nodes: seq<Node>, i: nat) {
    i < |nodes| && nodes[i].kind == Dir && !Empty(nodes[i].ents)
  }

  /** What is refused, said the other way round. */
  lemma RefusedUnless(s: Sys, dp: nat, name: Name)
    requires Inv(s) && dp < |s.nodes| && s.nodes[dp].kind == Dir
    ensures !Refused(s.nodes, dp, name) <==>
            name != "." && name != ".." && exists j: nat :: Removable(s.nodes, dp, name, j)
  {
    if name != DOT && name != DOTDOT && Present(s.nodes[dp].ents, name) {
      var k := FirstOf(s.nodes[dp].ents, name);
      HasDots(s, dp);
      Named(s, dp, k);
      FoundOnce(s.nodes[dp].ents, name, k);
      FirstDecides(s.nodes, dp, name, k);
    }
  }

  lemma FirstDecides(nodes: seq<Node>, dp: nat, name: Name, k: nat)
    requires dp < |nodes| && Found(nodes[dp].ents, name, k) && nodes[dp].ents[k].inum < |nodes|
    requires forall j: nat :: Found(nodes[dp].ents, name, j) ==> j == k
    requires name != DOT && name != DOTDOT && Present(nodes[dp].ents, name)
    ensures Refused(nodes, dp, name) <==> FullDir(nodes, nodes[dp].ents[k].inum)
    ensures (exists j: nat :: Removable(nodes, dp, name, j)) <==> !FullDir(nodes, nodes[dp].ents[k].inum)
  {
    if !FullDir(nodes, nodes[dp].ents[k].inum) {
      assert Removable(nodes, dp, name, k);
    }
  }

  lemma {:induction false} FirstOf(ents: seq<Dirent>, name: Name) returns (k: nat)
    requires Present(ents, name)
    ensures Found(ents, name, k)
    decreases |ents|
  {
    var init := ents[..|ents| - 1];
    if Present(init, name) {
      k := FirstOf(init, name);
    } else {
      k := |ents| - 1;
      assert forall j :: 0 <= j < |init| ==> !Matches(init[j], name);
    }
  }

  class Inodes {
    var nodes: seq<Node>
    ghost var pending: seq<nat>
    ghost var home: seq<(nat, nat)>

    ghost function S(): Sys
      reads this
    {
      Sys(nodes, pending, home)
    }

    /** ialloc: the first free inode; without one it panics. */
    method Ialloc() returns (r: Option<nat>)
      ensures r.Some? ==> 0 < r.value < |nodes| && nodes[r.value].kind == Free
      ensures r.Some? ==> forall i :: 1 <= i < r.value ==> nodes[i].kind != Free
      ensures r.None? ==> forall i :: 1 <= i < |nodes| ==> nodes[i].kind != Free
    {
      var inum := 1;
      while inum < |nodes|
        invariant 1 <= inum && forall i :: 1 <= i < inum && i < |nodes| ==> nodes[i].kind != Free
      {
        if nodes[inum].kind == Free {
          return Some(inum);
        }
        inum := inum + 1;
      }
      r := None;
    }

    /** The entries of a new directory: "." and "..". */
    method Dots(ip: nat, dp: nat) returns (r: Option<seq<Dirent>>)
      requires 0 < ip && 0 < dp
      ensures r == Some([Dirent(ip, DOT), Dirent(dp, DOTDOT)])
    {
      ghost var k: nat;
      r, k := Dirlink([], DOT, ip);
      assert r.value == [Dirent(ip, DOT)];
      assert !Present([Dirent(ip, DOT)], DOTDOT);
      r, k := Dirlink(r.value, DOTDOT, dp);
      assert r.value == [Dirent(ip, DOT), Dirent(dp, DOTDOT)];
    }

    /** create of a directory, once the name is known to be new: the inode, the parent's link, the dots and
        the entry. */
    method MakeDir(dp: nat, name: Name, ip: nat) returns (panicked: bool, ghost k: nat)
      requires 0 < dp < |nodes| && 0 < ip < |nodes| && ip != dp && !Present(nodes[dp].ents, name) && |home| == |nodes|
      modifies `nodes, `home
      ensures !panicked && IsSlot(old(nodes)[dp].ents, k) && S() == MadeDir(old(S()), dp, name, k, ip)
    {
      nodes := nodes[ip := Node(Dir, 1, [])];
      nodes := nodes[dp := nodes[dp].(nlink := nodes[dp].nlink + 1)];
      var dots := Dots(ip, dp);
      nodes := nodes[ip := nodes[ip].(ents := dots.value)];
      var ents;
      ents, k := Dirlink(nodes[dp].ents, name, ip);
      panicked := ents.None?;
      nodes := nodes[dp := nodes[dp].(ents := ents.value)];
      home := home[ip := (dp, k)];
      assert nodes == MadeDir(old(S()), dp, name, k, ip).nodes;
    }

    /** create of a directory in directory dp. */
    method Mkdir(dp: nat, name: Name) returns (r: Option<nat>, panicked: bool, ghost k: nat)
      requires Inv(S()) && dp < |nodes| && nodes[dp].kind == Dir
      modifies this
      ensures old(Live(nodes[dp])) ==> Inv(S())
      ensures panicked ==> S() == old(S()) && forall i :: 1 <= i < |nodes| ==> nodes[i].kind != Free
      ensures r.None? ==> S() == old(S()) && (panicked || Present(nodes[dp].ents, name))
      ensures r.Some? ==>
                && Enabled(old(S()), CreateDir(dp, name, k, r.value))
                && S() == Next(old(S()), CreateDir(dp, name, k, r.value))
      ensures r.Some? ==>
                && r.value < |nodes| && nodes[r.value] == Node(Dir, 1, [Dirent(r.value, "."), Dirent(dp, "..")])
                && k < |nodes[dp].ents| && nodes[dp].ents[k] == Dirent(r.value, name)
                && nodes[dp].nlink == old(nodes)[dp].nlink + 1
      ensures r.Some? ==> (AllCounted(S()) <==> old(Live(nodes[dp])))
    {
      var found := Dirlookup(nodes[dp].ents, name);
      if found.Some? {
        return None, false, 0;
      }
      r := Ialloc();
      if r.None? {
        return None, true, 0;
      }
      ghost var s := S();
      panicked, k := MakeDir(dp, name, r.value);
      ParentMustBeLinked(s, CreateDir(dp, name, k, r.value));
      if Live(s.nodes[dp]) {
        StepInv(s, CreateDir(dp, name, k, r.value));
      }
    }

    /** create of a file in directory dp; a file of this name that is there already will do. */
    method Mkfile(dp: nat, name: Name) returns (r: Option<nat>, panicked: bool, ghost k: nat)
      requires Inv(S()) && dp < |nodes| && nodes[dp].kind == Dir
      modifies this
      ensures old(Live(nodes[dp])) ==> Inv(S())
      ensures panicked ==> S() == old(S()) && forall i :: 1 <= i < |nodes| ==> nodes[i].kind != Free
      ensures Present(old(nodes)[dp].ents, name) ==> S() == old(S()) && !panicked && Found(nodes[dp].ents, name, k)
      ensures Present(old(nodes)[dp].ents, name) ==>
                r == if IsFile(nodes, nodes[dp].ents[k].inum) then Some(nodes[dp].ents[k].inum) else None
      ensures !Present(old(nodes)[dp].ents, name) && !panicked ==>
                r.Some? && Enabled(old(S()), CreateFile(dp, name, k, r.value))
                  && S() == Next(old(S()), CreateFile(dp, name, k, r.value))
      ensures !Present(old(nodes)[dp].ents, name) && !panicked ==>
                && r.value < |nodes| && nodes[r.value] == Node(File, 1, [])
                && k < |nodes[dp].ents| && nodes[dp].ents[k] == Dirent(r.value, name)
      ensures !Present(old(nodes)[dp].ents, name) && !panicked ==> (AllCounted(S()) <==> old(Live(nodes[dp])))
    {
      ghost var s := S();
      var found := Dirlookup(nodes[dp].ents, name);
      if found.Some? {
        var ip := nodes[dp].ents[found.value].inum;
        r := if ip < |nodes| && nodes[ip].kind == File then Some(ip) else None;
        return r, false, found.value;
      }
      r := Ialloc();
      if r.None? {
        return None, true, 0;
      }
      var ents;
      ents, k := Dirlink(nodes[dp].ents, name, r.value);
      nodes := nodes[r.value := Node(File, 1, [])];
      nodes := nodes[dp := nodes[dp].(ents := ents.value)];
      ParentMustBeLinked(s, CreateFile(dp, name, k, r.value));
      if Live(s.nodes[dp]) {
        StepInv(s, CreateFile(dp, name, k, r.value));
      }
      panicked := false;
    }

    /** The last part of sys_unlink: the entry cleared, the link of ".." and the link of the name gone. */
    method Clear(dp: nat, k: nat)
      requires dp < |nodes| && k < |nodes[dp].ents| && nodes[dp].ents[k].inum < |nodes|
      modifies `nodes
      ensures nodes == Unlinked(old(nodes), dp, k)
    {
      var ip := nodes[dp].ents[k].inum;
      nodes := nodes[dp := nodes[dp].(ents := nodes[dp].ents[k := Dirent(0, "")])];
      if nodes[ip].kind == Dir {
        nodes := nodes[dp := nodes[dp].(nlink := nodes[dp].nlink - 1)];
      }
      nodes := nodes[ip := nodes[ip].(nlink := nodes[ip].nlink - 1)];
    }

    /** sys_unlink up to its changes: the entry, unless the call is refused; `panicked` is the panic for an
        inode without links. */
    method FindUnlink(dp: nat, name: Name) returns (r: Option<nat>, panicked: bool)
      requires Inv(S()) && dp < |nodes| && nodes[dp].kind == Dir
      ensures !panicked && (r.None? <==> Refused(nodes, dp, name))
      ensures r.Some? ==> Found(nodes[dp].ents, name, r.value) && Enabled(S(), Step.Unlink(dp, r.value))
    {
      if name == DOT || name == DOTDOT {
        return None, false;
      }
      r := Dirlookup(nodes[dp].ents, name);
      if r.None? {
        return None, false;
      }
      var k := r.value;
      HasDots(S(), dp);
      Named(S(), dp, k);
      FoundOnce(nodes[dp].ents, name, k);
      var ip := nodes[dp].ents[k].inum;
      panicked := nodes[ip].nlink < 1;
      if nodes[ip].kind == Dir {
        var empty := IsDirEmpty(nodes[ip].ents);
        if !empty {
          return None, panicked;
        }
      }
    }

    /** sys_unlink below directory dp. It never panics. */
    method Unlink(dp: nat, name: Name) returns (r: int, panicked: bool, ghost k: nat)
      requires Inv(S()) && dp < |nodes| && nodes[dp].kind == Dir
      modifies this
      ensures !panicked && Inv(S())
      ensures r == -1 <==> Refused(old(nodes), dp, name)
      ensures r == 0 <==> name != "." && name != ".." && exists j: nat :: Removable(old(nodes), dp, name, j)
      ensures r == -1 ==> S() == old(S())
      ensures r != -1 ==>
                && r == 0 && Found(old(nodes)[dp].ents, name, k) && Enabled(old(S()), Step.Unlink(dp, k))
                && S() == Next(old(S()), Step.Unlink(dp, k))
    {
      RefusedUnless(S(), dp, name);
      var off;
      off, panicked := FindUnlink(dp, name);
      if off.None? {
        return -1, panicked, 0;
      }
      k := off.value;
      ghost var s := S();
      Named(s, dp, k);
      UnlinkIsGone(s, dp, k);
      Clear(dp, off.value);
      UnlinkInv(s, S(), dp, k, s.nodes[dp].ents[k].inum);
      r := 0;
    }

    /** sys_link up to the search for the new name's directory. */
    method LinkBegin(ip: nat) returns (r: int)
      requires Inv(S()) && ip < |nodes| && nodes[ip].kind != Free
      modifies this
      ensures Inv(S())
      ensures r == -1 ==> S() == old(S()) && nodes[ip].kind == Dir
      ensures r != -1 ==> Enabled(old(S()), Step.LinkBegin(ip)) && S() == Next(old(S()), Step.LinkBegin(ip))
    {
      if nodes[ip].kind == Dir {
        return -1;
      }
      ghost var s := S();
      nodes := nodes[ip := nodes[ip].(nlink := nodes[ip].nlink + 1)];
      pending := pending[ip := pending[ip] + 1];
      assert S() == Next(s, Step.LinkBegin(ip));
      LinkBeginInv(s, ip);
      r := 0;
    }

    /** sys_link's `bad`: the link is taken back. */
    method LinkBack(ip: nat)
      requires Inv(S()) && ip < |nodes| && pending[ip] > 0
      modifies this
      ensures Inv(S()) && S() == Next(old(S()), LinkBad(ip))
    {
      ghost var s' := Next(S(), LinkBad(ip));
      LinkBadInv(S(), ip);
      nodes := nodes[ip := nodes[ip].(nlink := nodes[ip].nlink - 1)];
      pending := pending[ip := pending[ip] - 1];
      assert S() == s';
    }

    /** sys_link's dirlink into directory dp. */
    method LinkEntry(ip: nat, dp: nat, name: Name) returns (ok: bool, ghost k: nat)
      requires Inv(S()) && ip < |nodes| && pending[ip] > 0 && dp < |nodes| && nodes[dp].kind == Dir
      modifies this
      ensures !ok || old(Live(nodes[dp])) ==> Inv(S())
      ensures (ok <==> !Present(old(nodes)[dp].ents, name)) && (!ok ==> S() == old(S()))
      ensures ok ==>
                Enabled(old(S()), Step.LinkEnd(ip, dp, name, k)) && S() == Next(old(S()), Step.LinkEnd(ip, dp, name, k))
      ensures ok ==> (AllCounted(S()) <==> old(Live(nodes[dp])))
    {
      var ents;
      ents, k := Dirlink(nodes[dp].ents, name, ip);
      ok := ents.Some?;
      if ok {
        ParentMustBeLinked(S(), Step.LinkEnd(ip, dp, name, k));
        if Live(nodes[dp]) {
          LinkEndInv(S(), ip, dp, name, k);
        }
        nodes := nodes[dp := nodes[dp].(ents := ents.value)];
        pending := pending[ip := pending[ip] - 1];
      }
    }

    /** The rest of sys_link: the entry is made in directory dp, or, if there is no directory or the
        name is taken, the link is taken back. */
    method LinkEnd(ip: nat, dp: Option<nat>, name: Name) returns (r: int, ghost k: nat)
      requires Inv(S()) && ip < |nodes| && pending[ip] > 0
      requires dp.Some? ==> dp.value < |nodes| && nodes[dp.value].kind == Dir
      modifies this
      ensures r == -1 <==> dp.None? || Present(old(nodes)[dp.value].ents, name)
      ensures r == -1 || old(Live(nodes[dp.value])) ==> Inv(S())
      ensures r == -1 ==> S() == Next(old(S()), LinkBad(ip))
      ensures r != -1 ==>
                && Enabled(old(S()), Step.LinkEnd(ip, dp.value, name, k))
                && S() == Next(old(S()), Step.LinkEnd(ip, dp.value, name, k))
      ensures r != -1 ==> (AllCounted(S()) <==> old(Live(nodes[dp.value])))
    {
      var ok := false;
      k := 0;
      if dp.Some? {
        ok, k := LinkEntry(ip, dp.value, name);
      }
      if !ok {
        LinkBack(ip);
      }
      r := if ok then 0 else -1;
    }
  }

  lemma FoundOnce(ents: seq<Dirent>, name: Name, k: nat)
    requires Found(ents, name, k)
    ensures forall j: nat :: Found(ents, name, j) ==> j == k
  {
  }
}
