/** The order of the buffer list: brelse keeps it sorted by last release, so bget recycles the buffer that was
    released longest ago. When that was is read off the run, from the reference counts. */
module CacheOrder {
  import opened CacheMachine
  import opened CacheSafety

  // ---------- What brelse does to the list ----------

  /** Slot a is nearer to the front than slot b. */
  ghost predicate Before(order: seq<nat>, a: nat, b: nat) {
    exists j, k :: 0 <= j < k < |order| && order[j] == a && order[k] == b
  }

  lemma BeforeCons(x: nat, rest: seq<nat>, a: nat, b: nat)
    ensures Before([x] + rest, a, b) <==> (x == a && b in rest) || Before(rest, a, b)
  {
    var o := [x] + rest;
    if j, k :| 0 <= j < k < |o| && o[j] == a && o[k] == b {
      assert rest[k - 1] == b;
      if j > 0 {
        assert rest[j - 1] == a;
      }
    }
    if x == a && b in rest {
      var k :| 0 <= k < |rest| && rest[k] == b;
      assert o[0] == a && o[k + 1] == b;
    }
    if j, k :| 0 <= j < k < |rest| && rest[j] == a && rest[k] == b {
      assert o[j + 1] == a && o[k + 1] == b;
    }
  }

  lemma {:induction false} WithoutBefore(order: seq<nat>, i: nat, a: nat, b: nat)
    requires a != i && b != i
    ensures Before(Without(order, i), a, b) <==> Before(order, a, b)
  {
    if order != [] {
      var x, rest := order[0], order[1..];
      assert order == [x] + rest;
      WithoutBefore(rest, i, a, b);
      WithoutSpec(rest, i);
      BeforeCons(x, rest, a, b);
      BeforeCons(x, Without(rest, i), a, b);
    }
  }

  /** The last brelse of a buffer puts it first and leaves the others in their order; one that leaves other
      references leaves the list alone. */
  lemma ReleaseOrder(s: Sys, h: nat)
    requires Next(s, Forget(h)).Ok?
    ensures var order, i := Next(s, Forget(h)).s.c.order, s.handles[h].slot;
            && (s.c.buf[i].refcnt > 1 ==> order == s.c.order)
            && (s.c.buf[i].refcnt == 1 ==>
                  && |order| > 0 && order[0] == i
                  && forall a: nat, b: nat :: a != i && b != i ==> (Before(order, a, b) <==> Before(s.c.order, a, b)))
  {
    var order, i := Next(s, Forget(h)).s.c.order, s.handles[h].slot;
    if s.c.buf[i].refcnt == 1 {
      forall a: nat, b: nat | a != i && b != i
        ensures Before(order, a, b) <==> Before(s.c.order, a, b)
      {
        WithoutBefore(s.c.order, i, a, b);
        BeforeCons(i, Without(s.c.order, i), a, b);
      }
    }
  }

  // ---------- The last release of a slot ----------

  /** Between s and s' the last reference to slot i is dropped. */
  predicate LetGo(s: Sys, s': Sys, i: nat) {
    i < |s.c.buf| == |s'.c.buf| && s.c.buf[i].refcnt > 0 && s'.c.buf[i].refcnt == 0
  }

  /** Step k of the run drops the last reference to slot i. */
  ghost predicate LetGoAt(s: Sys, steps: seq<Step>, k: nat, i: nat) {
    && k < |steps| && Run(s, steps[..k]).Ok? && Run(s, steps[..k + 1]).Ok?
    && LetGo(Run(s, steps[..k]).s, Run(s, steps[..k + 1]).s, i)
  }

  /** The number of the last step that does. A slot that has never been released counts as released before
      the run, the slots in the order of their numbers: binit puts each at the front in turn. */
  ghost function LastRelease(s: Sys, steps: seq<Step>, i: nat): int
    decreases |steps|
  {
    if steps == [] then i - |s.c.buf|
    else if LetGoAt(s, steps, |steps| - 1, i) then |steps| - 1
    else LastRelease(s, steps[..|steps| - 1], i)
  }

  /** That it is the last. */
  lemma {:induction false} LastReleaseIs(s: Sys, steps: seq<Step>, i: nat)
    requires i < |s.c.buf|
    ensures var r := LastRelease(s, steps, i);
            && r < |steps|
            && (r >= 0 ==> LetGoAt(s, steps, r, i))
            && (r < 0 ==> r == i - |s.c.buf|)
            && forall k: nat :: k > r ==> !LetGoAt(s, steps, k, i)
    decreases |steps|
  {
    if steps != [] {
      var rest := steps[..|steps| - 1];
      LastReleaseIs(s, rest, i);
      forall k: nat | k < |rest|
        ensures LetGoAt(s, steps, k, i) <==> LetGoAt(s, rest, k, i)
      {
        assert steps[..k] == rest[..k] && steps[..k + 1] == rest[..k + 1];
      }
    }
  }

  lemma {:induction false} RunLast(s: Sys, steps: seq<Step>)
    requires steps != [] && Run(s, steps).Ok?
    ensures Run(s, steps[..|steps| - 1]).Ok?
    ensures Next(Run(s, steps[..|steps| - 1]).s, steps[|steps| - 1]) == Run(s, steps)
    decreases |steps|
  {
    var rest := steps[..|steps| - 1];
    if rest != [] {
      RunLast(Next(s, steps[0]).s, steps[1..]);
      assert steps[1..][..|steps| - 2] == rest[1..];
    } else {
      assert steps[1..] == [];
    }
  }

  // ---------- The list is sorted by it ----------

  /** Positions later in the list have a smaller key. */
  ghost predicate Sorted(key: seq<int>, order: seq<nat>) {
    && (forall k :: 0 <= k < |order| ==> order[k] < |key|)
    && (forall j, k :: 0 <= j < k < |order| ==> key[order[j]] > key[order[k]])
  }

  lemma SortedCons(key: seq<int>, x: nat, rest: seq<nat>)
    requires Sorted(key, rest) && x < |key|
    requires forall y :: y in rest ==> y < |key| && key[x] > key[y]
    ensures Sorted(key, [x] + rest)
  {
    var o := [x] + rest;
    forall j, k | 0 <= j < k < |o|
      ensures key[o[j]] > key[o[k]]
    {
      assert o[k] == rest[k - 1];
      assert rest[k - 1] in rest;
    }
  }

  lemma SortedTail(key: seq<int>, order: seq<nat>)
    requires Sorted(key, order) && order != []
    ensures Sorted(key, order[1..])
    ensures forall y :: y in order[1..] ==> y < |key| && key[order[0]] > key[y]
  {
    var rest := order[1..];
    assert forall k :: 0 <= k < |rest| ==> rest[k] == order[k + 1];
  }

  lemma {:induction false} WithoutSorted(key: seq<int>, order: seq<nat>, i: nat)
    requires Sorted(key, order)
    ensures Sorted(key, Without(order, i))
  {
    if order != [] {
      SortedTail(key, order);
      WithoutSorted(key, order[1..], i);
      WithoutSpec(order[1..], i);
      if order[0] != i {
        SortedCons(key, order[0], Without(order[1..], i));
      }
    }
  }

  /** Moving slot i to the front, with a new key above all others. */
  lemma FrontSorted(key: seq<int>, key': seq<int>, order: seq<nat>, i: nat)
    requires Sorted(key, order) && i < |key| == |key'|
    requires forall j :: 0 <= j < |key| && j != i ==> key'[j] == key[j] < key'[i]
    ensures Sorted(key', [i] + Without(order, i))
  {
    var rest := Without(order, i);
    WithoutSpec(order, i);
    WithoutSorted(key, order, i);
    assert forall k :: 0 <= k < |rest| ==> rest[k] in rest && key'[rest[k]] == key[rest[k]];
    assert Sorted(key', rest);
    SortedCons(key', i, rest);
  }

  ghost function Keys(s: Sys, steps: seq<Step>): (key: seq<int>)
    ensures |key| == |s.c.buf| && forall i :: 0 <= i < |key| ==> key[i] == LastRelease(s, steps, i)
  {
    seq(|s.c.buf|, i requires 0 <= i < |s.c.buf| => LastRelease(s, steps, i))
  }

  /** Only a brelse that drops the last reference changes the list. */
  lemma StepOrder(s: Sys, step: Step)
    requires Inv(s) && Next(s, step).Ok?
    ensures var s' := Next(s, step).s;
            && |s'.c.buf| == |s.c.buf|
            && if step.Forget? && s.c.buf[s.handles[step.h].slot].refcnt == 1 then
                 var i := s.handles[step.h].slot;
                 && s'.c.order == [i] + Without(s.c.order, i)
                 && forall j :: 0 <= j < |s.c.buf| ==> (LetGo(s, s', j) <==> j == i)
               else s'.c.order == s.c.order && forall j :: 0 <= j < |s.c.buf| ==> !LetGo(s, s', j)
  {
    match step
    case StartRead(h, b) => GetSpec(s.c, ROOTDEV, b);
    case _ =>
  }

  lemma SortedStep(s: Sys, steps: seq<Step>, m: Sys)
    requires Inv(s) && steps != [] && Run(s, steps).Ok? && |m.c.buf| == |s.c.buf| && Inv(m)
    requires Run(s, steps[..|steps| - 1]) == Ok(m) && Sorted(Keys(s, steps[..|steps| - 1]), m.c.order)
    requires Next(m, steps[|steps| - 1]) == Run(s, steps)
    ensures Sorted(Keys(s, steps), Run(s, steps).s.c.order)
  {
    var rest, last, s' := steps[..|steps| - 1], steps[|steps| - 1], Run(s, steps).s;
    var key, key' := Keys(s, rest), Keys(s, steps);
    StepOrder(m, last);
    assert steps[..|rest|] == rest && steps[..|rest| + 1] == steps;
    forall i: nat | i < |key|
      ensures key'[i] == if LetGo(m, s', i) then |rest| else key[i]
      ensures key[i] < |rest|
    {
      LastReleaseIs(s, rest, i);
    }
    if last.Forget? && m.c.buf[m.handles[last.h].slot].refcnt == 1 {
      FrontSorted(key, key', m.c.order, m.handles[last.h].slot);
    } else {
      assert key' == key;
    }
  }

  lemma {:induction false} RunSorted(d: Disk, n: nat, steps: seq<Step>)
    requires Run(Init(d, n), steps).Ok?
    ensures Sorted(Keys(Init(d, n), steps), Run(Init(d, n), steps).s.c.order)
    decreases |steps|
  {
    var s := Init(d, n);
    if steps != [] {
      var rest := steps[..|steps| - 1];
      RunLast(s, steps);
      RunSorted(d, n, rest);
      InitInv(d, n);
      RunInv(s, rest);
      RunSize(s, rest);
      SortedStep(s, steps, Run(s, rest).s);
    }
  }

  lemma OldestVictim(s: Sys, key: seq<int>, j: nat)
    requires GoodOrder(|s.c.buf|, s.c.order) && Sorted(key, s.c.order) && j < |s.c.buf| == |key|
    requires Recyclable(s.c.buf[j])
    ensures var r := Victim(s.c, |s.c.order|);
            && r.Some? && r.value < |s.c.buf| && Recyclable(s.c.buf[r.value])
            && (r.value == j || key[r.value] < key[j])
  {
    VictimSpec(s.c, |s.c.order|);
    assert j in s.c.order && s.c.order[..|s.c.order|] == s.c.order;
    var k :| 0 <= k < |s.c.order| && s.c.order[k] == j;
    var r := Victim(s.c, |s.c.order|);
    var m :| 0 <= m < |s.c.order| && s.c.order[m] == r.value && Recyclable(s.c.buf[s.c.order[m]])
             && forall x :: m < x < |s.c.order| ==> !Recyclable(s.c.buf[s.c.order[x]]);
    assert k <= m;
  }

  /** The block is in no slot. */
  ghost predicate Absent(s: Sys, b: nat) {
    forall i :: 0 <= i < |s.c.buf| ==> !Labelled(s.c.buf[i], ROOTDEV, b)
  }

  /** In every run, when a block is in no slot, bread recycles the slot whose last release is the longest ago
      among those that are neither referenced nor pinned, and it panics exactly if there is no such slot. */
  lemma RecyclesLeastRecentlyUsed(d: Disk, n: nat, steps: seq<Step>, h: nat, b: nat)
    requires Run(Init(d, n), steps).Ok?
    ensures var s := Run(Init(d, n), steps).s;
            && |s.c.buf| == n
            && (h !in s.handles && b < |s.disk| && Absent(s, b) ==>
                  var o := Next(s, StartRead(h, b));
                  && (o == Panicked <==> forall j: nat :: j < n ==> s.c.buf[j].refcnt > 0 || s.c.buf[j].dirty)
                  && (o != Panicked ==>
                        && o.Ok? && h in o.s.handles
                        && var i := o.s.handles[h].slot;
                           && i < n && s.c.buf[i].refcnt == 0 && !s.c.buf[i].dirty
                           && o.s.c.buf[i].dev == ROOTDEV && o.s.c.buf[i].blockno == b
                           && forall j: nat :: j < n && j != i && s.c.buf[j].refcnt == 0 && !s.c.buf[j].dirty ==>
                                LastRelease(Init(d, n), steps, i) < LastRelease(Init(d, n), steps, j)))
  {
    var s := Run(Init(d, n), steps).s;
    InitInv(d, n);
    RunInv(Init(d, n), steps);
    RunSize(Init(d, n), steps);
    RunSorted(d, n, steps);
    GetSpec(s.c, ROOTDEV, b);
    FindSpec(s.c, ROOTDEV, b, 0);
    forall j: nat | j < n && Recyclable(s.c.buf[j])
      ensures var r := Victim(s.c, |s.c.order|);
              r.Some? && r.value < n && (r.value == j || Keys(Init(d, n), steps)[r.value] < Keys(Init(d, n), steps)[j])
    {
      OldestVictim(s, Keys(Init(d, n), steps), j);
    }
  }
}
