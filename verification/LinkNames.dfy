/** What names mean: in every run a directory has each name once, create, mkdir and link bind one name, unlink
    removes one, and every other name of every directory means what it did. */
module LinkNames {
  import opened Links
  import LinkBounds

  predicate Has(ents: seq<Dirent>, e: Dirent) {
    exists k :: 0 <= k < |ents| && ents[k] == e
  }

  /** Name n in directory d is inode i's. */
  predicate Names(nodes: seq<Node>, d: nat, n: Name, i: nat) {
    d < |nodes| && nodes[d].kind == Dir && i != 0 && Has(nodes[d].ents, Dirent(i, n))
  }

  ghost predicate NoTwice(ents: seq<Dirent>) {
    forall j, k :: 0 <= j < k < |ents| && ents[j].inum != 0 && ents[k].inum != 0 ==> ents[j].name != ents[k].name
  }

  ghost predicate NamedOnce(nodes: seq<Node>) {
    forall d :: 0 <= d < |nodes| && nodes[d].kind == Dir ==> NoTwice(nodes[d].ents)
  }

  lemma InsertOnce(ents: seq<Dirent>, k: nat, e: Dirent)
    requires NoTwice(ents) && !Present(ents, e.name) && IsSlot(ents, k)
    ensures NoTwice(Insert(ents, k, e))
  {
    assert forall j :: 0 <= j < |ents| && ents[j].inum != 0 ==> !Matches(ents[j], e.name);
  }

  lemma ClearOnce(ents: seq<Dirent>, k: nat)
    requires NoTwice(ents) && k < |ents|
    ensures NoTwice(ents[k := Dirent(0, "")])
  {
  }

  /** The directories after unlink. */
  lemma UnlinkedEnts(nodes: seq<Node>, dp: nat, k: nat, d: nat)
    requires dp < |nodes| && k < |nodes[dp].ents| && nodes[dp].ents[k].inum < |nodes| && d < |nodes|
    ensures |Unlinked(nodes, dp, k)| == |nodes| && Unlinked(nodes, dp, k)[d].kind == nodes[d].kind
    ensures Unlinked(nodes, dp, k)[d].ents == if d == dp then nodes[d].ents[k := Dirent(0, "")] else nodes[d].ents
  {
  }

  lemma StepOnce(s: Sys, step: Step)
    requires Shaped(s) && Enabled(s, step) && NamedOnce(s.nodes)
    ensures NamedOnce(Next(s, step).nodes)
  {
    match step
    case CreateFile(dp, name, k, ip) => InsertOnce(s.nodes[dp].ents, k, Dirent(ip, name));
    case CreateDir(dp, name, k, ip) =>
      InsertOnce(s.nodes[dp].ents, k, Dirent(ip, name));
      assert NoTwice([Dirent(ip, DOT), Dirent(dp, DOTDOT)]);
    case LinkEnd(ip, dp, name, k) => InsertOnce(s.nodes[dp].ents, k, Dirent(ip, name));
    case Unlink(dp, k) =>
      ClearOnce(s.nodes[dp].ents, k);
      forall d | 0 <= d < |s.nodes|
        ensures Next(s, step).nodes[d].kind == s.nodes[d].kind
        ensures Next(s, step).nodes[d].ents ==
                  if d == dp then s.nodes[d].ents[k := Dirent(0, "")] else s.nodes[d].ents
      {
        UnlinkedEnts(s.nodes, dp, k, d);
      }
    case _ =>
  }

  /** In every run, whatever directories entries are made in, no directory has a name twice. */
  lemma {:induction false} NoNameTwice(init: Sys, steps: seq<Step>, s: Sys, linked: bool)
    requires Run(init, steps, s, linked)
    ensures NamedOnce(s.nodes)
    decreases |steps|
  {
    if steps != [] {
      var rest, last := steps[..|steps| - 1], steps[|steps| - 1];
      var m :| && Run(init, rest, m, linked) && Shaped(m) && Enabled(m, last) && (linked ==> Linked(m, last))
               && s == Next(m, last);
      NoNameTwice(init, rest, m, linked);
      StepOnce(m, last);
    }
  }

  /** The entries that Insert leaves. */
  lemma InsertNames(ents: seq<Dirent>, k: nat, e: Dirent, x: Dirent)
    requires IsSlot(ents, k) && x.inum != 0 && e.inum != 0
    ensures Has(Insert(ents, k, e), x) <==> x == e || Has(ents, x)
  {
    var ents' := Insert(ents, k, e);
    if j :| 0 <= j < |ents'| && ents'[j] == x && x != e {
      assert ents[j] == x;
    }
    assert ents'[k] == e;
    if j :| 0 <= j < |ents| && ents[j] == x {
      assert ents'[j] == x;
    }
  }

  /** What a name means in the directory that the entry e has been put into. */
  lemma EntryNames(nodes: seq<Node>, nodes': seq<Node>, dp: nat, k: nat, e: Dirent, n: Name, i: nat)
    requires dp < |nodes| == |nodes'| && nodes[dp].kind == Dir && nodes'[dp].kind == Dir && e.inum != 0
    requires IsSlot(nodes[dp].ents, k) && nodes'[dp].ents == Insert(nodes[dp].ents, k, e)
    requires !Present(nodes[dp].ents, e.name)
    ensures Names(nodes', dp, n, i) <==> if n == e.name then i == e.inum else Names(nodes, dp, n, i)
  {
    if i != 0 {
      InsertNames(nodes[dp].ents, k, e, Dirent(i, n));
      if n == e.name {
        assert forall j :: 0 <= j < |nodes[dp].ents| && nodes[dp].ents[j].inum != 0 ==>
                 !Matches(nodes[dp].ents[j], n);
      }
    }
  }

  lemma SameNames(nodes: seq<Node>, nodes': seq<Node>, d: nat, n: Name, i: nat)
    requires d < |nodes| == |nodes'| && nodes'[d].kind == nodes[d].kind && nodes'[d].ents == nodes[d].ents
    ensures Names(nodes', d, n, i) <==> Names(nodes, d, n, i)
  {
  }

  /** What create, mkdir and link make of name n of directory d. */
  ghost predicate Binds(nodes: seq<Node>, nodes': seq<Node>, dp: nat, name: Name, ip: nat, d: nat, n: Name, i: nat) {
    Names(nodes', d, n, i) <==> if d == dp && n == name then i == ip else Names(nodes, d, n, i)
  }

  /** create of a file, mkdir and link bind the name they are given, and nothing else; a new directory has its
      dots. */
  lemma EntryBinds(init: Sys, steps: seq<Step>, s: Sys, linked: bool, step: Step, d: nat, n: Name, i: nat)
    requires Run(init, steps, s, linked) && Shaped(s) && Enabled(s, step) && MakesEntry(step) && d < |s.nodes|
    ensures var s' := Next(s, step);
            if step.CreateDir? && d == step.ip then
              Names(s'.nodes, d, n, i) <==> (n == DOT && i == step.ip) || (n == DOTDOT && i == step.dp)
            else Binds(s.nodes, s'.nodes, step.dp, step.name, step.ip, d, n, i)
  {
    var s' := Next(s, step);
    LinkBounds.RunBound(init, steps, s, linked);
    assert step.ip != 0;
    if d == step.dp {
      EntryNames(s.nodes, s'.nodes, d, step.k, Dirent(step.ip, step.name), n, i);
    } else if step.CreateDir? && d == step.ip {
      DotNames(s'.nodes, d, step.dp, n, i);
    } else if !(step.CreateFile? && d == step.ip) {
      SameNames(s.nodes, s'.nodes, d, n, i);
    }
  }

  lemma DotNames(nodes: seq<Node>, d: nat, dp: nat, n: Name, i: nat)
    requires d < |nodes| && nodes[d].kind == Dir && nodes[d].ents == [Dirent(d, DOT), Dirent(dp, DOTDOT)]
    requires d != 0 && dp != 0
    ensures Names(nodes, d, n, i) <==> (n == DOT && i == d) || (n == DOTDOT && i == dp)
  {
    var ents := nodes[d].ents;
    assert ents[0] == Dirent(d, DOT) && ents[1] == Dirent(dp, DOTDOT);
  }

  /** unlink removes the name of the entry it clears, in its directory, and no other. */
  lemma UnlinkUnbinds(init: Sys, steps: seq<Step>, s: Sys, linked: bool, dp: nat, k: nat, d: nat, n: Name, i: nat)
    requires Run(init, steps, s, linked) && Shaped(s) && Enabled(s, Unlink(dp, k)) && d < |s.nodes|
    ensures Names(Next(s, Unlink(dp, k)).nodes, d, n, i) <==>
            Names(s.nodes, d, n, i) && !(d == dp && n == s.nodes[dp].ents[k].name)
  {
    NoNameTwice(init, steps, s, linked);
    var nodes' := Next(s, Unlink(dp, k)).nodes;
    UnlinkedEnts(s.nodes, dp, k, d);
    if d == dp {
      ClearNames(s.nodes[d].ents, k, Dirent(i, n));
    }
  }

  lemma ClearNames(ents: seq<Dirent>, k: nat, x: Dirent)
    requires NoTwice(ents) && k < |ents| && ents[k].inum != 0
    ensures x.inum != 0 ==>
              (Has(ents[k := Dirent(0, "")], x) <==> Has(ents, x) && x.name != ents[k].name)
  {
    var ents' := ents[k := Dirent(0, "")];
    if j :| x.inum != 0 && 0 <= j < |ents| && ents'[j] == x {
      assert ents[j] == x && j != k;
    }
    if j :| x.inum != 0 && 0 <= j < |ents| && ents[j] == x && x.name != ents[k].name {
      assert ents'[j] == x;
    }
  }

  /** The other steps bind and remove nothing: an inode that goes back to the free ones takes only its own
      names with it. */
  lemma OthersKeep(s: Sys, step: Step, d: nat, n: Name, i: nat)
    requires Shaped(s) && Enabled(s, step) && !MakesEntry(step) && !step.Unlink? && d < |s.nodes|
    ensures Names(Next(s, step).nodes, d, n, i) <==> Names(s.nodes, d, n, i) && !(step.Reclaim? && d == step.ip)
  {
    if !(step.Reclaim? && d == step.ip) {
      SameNames(s.nodes, Next(s, step).nodes, d, n, i);
    }
  }
}
