/** The process table of proc.c: what wakeup1, exit, wait, kill and allocproc do to it with ptable.lock held. */
module ProcTable {
  import opened Common

  datatype Status = Unused | Embryo | Sleeping | Runnable | Running | Zombie

  /** A sleep channel: none, the address of a process table entry, or another address. */
  datatype Chan = NoChan | OfProc(p: nat) | OtherChan(n: nat)

  datatype Proc = Proc(state: Status, parent: Option<nat>, chan: Chan, killed: bool, pid: nat, kstack: bool)

  function Woken(x: Proc, chan: Chan): Proc {
    if x.state == Sleeping && x.chan == chan then x.(state := Runnable) else x
  }

  /** The channel that a process waits on for its children. */
  function ParentChan(x: Proc): Chan {
    if x.parent.Some? then OfProc(x.parent.value) else NoChan
  }

  predicate IsChild(x: Proc, p: nat) {
    x.parent == Some(p)
  }

  ghost predicate HasZombie(procs: seq<Proc>, p: nat) {
    exists c :: 0 <= c < |procs| && IsChild(procs[c], p) && procs[c].state == Zombie
  }

  /** Table entry x while exit's loop goes through the table: the parent of the exiting process p has been
      woken, init too if the loop has met a zombie child of p, and x, if the loop has passed it and it is
      p's child, is init's now. */
  function Passed(x: Proc, p: nat, init: nat, chan: Chan, zombie: bool, done: bool): Proc {
    var y := Woken(x, chan);
    var z := if zombie then Woken(y, OfProc(init)) else y;
    if done && IsChild(z, p) then z.(parent := Some(init)) else z
  }

  /** The table after the critical section of exit, in which p becomes a zombie. */
  ghost predicate ExitDone(procs: seq<Proc>, procs': seq<Proc>, p: nat, init: nat) {
    && p < |procs| == |procs'|
    && forall q :: 0 <= q < |procs| ==>
         var x := Passed(procs[q], p, init, ParentChan(procs[p]), HasZombie(procs, p), true);
         procs'[q] == if q == p then x.(state := Zombie) else x
  }

  /** What wait does with the table: it takes a zombie child, or finds that there are none. */
  datatype WaitResult = Reaped(child: nat) | NoZombie(havekids: bool)

  ghost predicate WaitFinds(procs: seq<Proc>, p: nat, r: WaitResult) {
    match r
    case Reaped(c) => c < |procs| && IsChild(procs[c], p) && procs[c].state == Zombie
    case NoZombie(havekids) =>
        !HasZombie(procs, p) && (havekids <==> exists c :: 0 <= c < |procs| && IsChild(procs[c], p))
  }

  function Freed(x: Proc): Proc {
    x.(state := Unused, parent := None, killed := false, pid := 0, kstack := false)
  }

  /** Entry v is the first with this pid. */
  predicate FirstWith(procs: seq<Proc>, v: nat, pid: nat) {
    v < |procs| && procs[v].pid == pid && forall q :: 0 <= q < v ==> procs[q].pid != pid
  }

  class Table {
    var procs: seq<Proc>

    constructor (procs: seq<Proc>)
      ensures this.procs == procs
    {
      this.procs := procs;
    }

    /** wakeup1. */
    method Wakeup1(chan: Chan)
      modifies this
      ensures |procs| == |old(procs)|
      ensures forall q :: 0 <= q < |procs| ==> procs[q] == Woken(old(procs)[q], chan)
      ensures forall q :: 0 <= q < |procs| ==>
                procs[q] == if old(procs)[q].state == Sleeping && old(procs)[q].chan == chan then
                              old(procs)[q].(state := Runnable) else old(procs)[q]
    {
      var i := 0;
      while i < |procs|
        invariant i <= |procs| == |old(procs)|
        invariant forall q :: 0 <= q < |procs| ==>
                    procs[q] == if q < i then Woken(old(procs)[q], chan) else old(procs)[q]
      {
        if procs[i].state == Sleeping && procs[i].chan == chan {
          procs := procs[i := procs[i].(state := Runnable)];
        }
        i := i + 1;
      }
    }

    /** exit, from wakeup1 to state = ZOMBIE. */
    method Exit(p: nat, init: nat)
      requires p < |procs| && init != p
      modifies this
      ensures ExitDone(old(procs), procs, p, init)
    {
      ghost var procs0 := procs;
      var chan := if procs[p].parent.Some? then OfProc(procs[p].parent.value) else NoChan;
      Wakeup1(chan);
      var i := 0;
      ghost var zombie := false;
      while i < |procs|
        invariant i <= |procs| == |procs0|
        invariant zombie <==> exists c :: 0 <= c < i && IsChild(procs0[c], p) && procs0[c].state == Zombie
        invariant forall q :: 0 <= q < |procs| ==> procs[q] == Passed(procs0[q], p, init, chan, zombie, q < i)
      {
        if procs[i].parent == Some(p) {
          procs := procs[i := procs[i].(parent := Some(init))];
          if procs[i].state == Zombie {
            Wakeup1(OfProc(init));
            zombie := true;
          }
        }
        i := i + 1;
      }
      procs := procs[p := procs[p].(state := Zombie)];
    }

    /** allocproc's search and what it does with the lock held. */
    method Alloc(pid: nat) returns (np: Option<nat>)
      modifies this
      ensures np.None? ==> procs == old(procs) && forall q :: 0 <= q < |procs| ==> procs[q].state != Unused
      ensures np.Some? ==>
                && np.value < |old(procs)| && old(procs)[np.value].state == Unused
                && procs == old(procs)[np.value := old(procs)[np.value].(state := Embryo, pid := pid)]
      ensures np.Some? ==> forall q :: 0 <= q < np.value ==> procs[q].state != Unused
    {
      var i := 0;
      while i < |procs|
        invariant i <= |procs| && procs == old(procs)
        invariant forall q :: 0 <= q < i ==> procs[q].state != Unused
      {
        if procs[i].state == Unused {
          procs := procs[i := procs[i].(state := Embryo, pid := pid)];
          return Some(i);
        }
        i := i + 1;
      }
      np := None;
    }

    /** The scan of wait and waitx over the table; `pid` is that of the zombie it has found. */
    method Scan(p: nat) returns (r: WaitResult, pid: nat)
      modifies this
      ensures WaitFinds(old(procs), p, r)
      ensures procs == if r.Reaped? then old(procs)[r.child := Freed(old(procs)[r.child])] else old(procs)
      ensures r.Reaped? ==> forall c :: 0 <= c < r.child && IsChild(old(procs)[c], p) ==> old(procs)[c].state != Zombie
      ensures r.Reaped? ==> pid == old(procs)[r.child].pid
    {
      pid := 0;
      var havekids := false;
      var i := 0;
      while i < |procs|
        invariant i <= |procs| && procs == old(procs)
        invariant havekids <==> exists c :: 0 <= c < i && IsChild(procs[c], p)
        invariant forall c :: 0 <= c < i && IsChild(procs[c], p) ==> procs[c].state != Zombie
      {
        if procs[i].parent == Some(p) {
          havekids := true;
          if procs[i].state == Zombie {
            pid := procs[i].pid;
            procs := procs[i := Freed(procs[i])];
            return Reaped(i), pid;
          }
        }
        i := i + 1;
      }
      r := NoZombie(havekids);
    }

    /** kill: the first entry with this pid, whatever its state, is marked and, if it sleeps, runnable. */
    method Kill(pid: nat) returns (r: int, ghost v: nat)
      modifies this
      ensures |procs| == |old(procs)| && (r == 0 || r == -1)
      ensures r == -1 ==> procs == old(procs) && forall q :: 0 <= q < |procs| ==> procs[q].pid != pid
      ensures r == 0 ==> FirstWith(old(procs), v, pid) && procs == Killed(old(procs), v)
      ensures r == 0 ==> procs[v].killed && procs[v].state != Sleeping
      ensures r == 0 ==> procs[v].state == if old(procs)[v].state == Sleeping then Runnable else old(procs)[v].state
      ensures r == 0 ==> procs[v] == old(procs)[v].(killed := procs[v].killed, state := procs[v].state)
      ensures r == 0 ==> forall q :: 0 <= q < |procs| && q != v ==> procs[q] == old(procs)[q]
    {
      v := 0;
      var i := 0;
      while i < |procs|
        invariant i <= |procs| && procs == old(procs)
        invariant forall q :: 0 <= q < i ==> procs[q].pid != pid
      {
        if procs[i].pid == pid {
          procs := procs[i := procs[i].(killed := true)];
          if procs[i].state == Sleeping {
            procs := procs[i := procs[i].(state := Runnable)];
          }
          assert procs == Killed(old(procs), i);
          return 0, i;
        }
        i := i + 1;
      }
      r := -1;
    }
  }

  function Killed(procs: seq<Proc>, v: nat): seq<Proc>
    requires v < |procs|
  {
    procs[v := procs[v].(killed := true, state := if procs[v].state == Sleeping then Runnable else procs[v].state)]
  }
}
