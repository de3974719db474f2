/** umalloc.c: the circular, address-ordered free list of section 8.7 of The C Programming Language.
    Addresses count units of sizeof(Header). */
module Umalloc {
  import opened Common
  import opened Params

  const HEADER: nat := 8 // sizeof(Header) in bytes
  const MINCORE: nat := 4096

  datatype Header = Header(ptr: nat, size: nat)

  /** A run of units on the free list. */
  datatype Blk = Blk(at: nat, n: nat)

  /** The free list from base on, the blocks handed out (by the address of their header, with their
      length), and all units got from sbrk. */
  datatype Heap = Heap(base: nat, ring: seq<Blk>, live: map<nat, nat>, arena: set<nat>)

  /** Ascending, and no block ends where the next begins: two free neighbours are always joined. */
  ghost predicate Ordered(ring: seq<Blk>) {
    forall i, j :: 0 <= i < j < |ring| ==> ring[i].at + ring[i].n < ring[j].at
  }

  ghost predicate InFree(ring: seq<Blk>, u: nat) {
    exists i :: 0 <= i < |ring| && ring[i].at <= u < ring[i].at + ring[i].n
  }

  ghost predicate InLive(live: map<nat, nat>, u: nat) {
    exists b :: b in live && b <= u < b + live[b]
  }

  predicate Disjoint(a: nat, n: nat, b: int, m: nat) {
    a + n <= b || b + m <= a
  }

  ghost predicate ListOk(base: nat, ring: seq<Blk>) {
    && |ring| > 0 && ring[0] == Blk(base, 0) && Ordered(ring)
    && forall i :: 1 <= i < |ring| ==> ring[i].n > 0
  }

  ghost predicate LiveOk(base: nat, live: map<nat, nat>) {
    && (forall b :: b in live ==> base < b && live[b] > 0)
    && (forall b, c :: b in live && c in live && b < c ==> b + live[b] <= c)
  }

  ghost predicate Apart(ring: seq<Blk>, live: map<nat, nat>) {
    forall b, i :: b in live && 0 <= i < |ring| ==> b + live[b] <= ring[i].at || ring[i].at + ring[i].n <= b
  }

  /** Every unit got from sbrk is in one free block or one live block, and no other unit is. */
  ghost predicate Conserved(h: Heap) {
    forall u: nat :: u in h.arena <==> InFree(h.ring, u) || InLive(h.live, u)
  }

  ghost predicate Good(h: Heap) {
    ListOk(h.base, h.ring) && LiveOk(h.base, h.live) && Apart(h.ring, h.live) && Conserved(h)
  }

  /** No unit is in two blocks. */
  lemma OneBlockEach(h: Heap, u: nat)
    requires Good(h)
    ensures !(InFree(h.ring, u) && InLive(h.live, u))
    ensures forall i, j :: 0 <= i < j < |h.ring| && h.ring[i].at <= u < h.ring[i].at + h.ring[i].n ==> u < h.ring[j].at
    ensures forall b, c :: b in h.live && c in h.live && b <= u < b + h.live[b] && c <= u < c + h.live[c] ==> b == c
  {
    forall i, j | 0 <= i < j < |h.ring| && h.ring[i].at <= u < h.ring[i].at + h.ring[i].n
      ensures u < h.ring[j].at
    {
      assert h.ring[i].at + h.ring[i].n < h.ring[j].at;
    }
  }

  // ---------- free ----------

  /** Block bp belongs between ring[k] and its successor. */
  ghost predicate Between(ring: seq<Blk>, k: nat, bp: nat) {
    k < |ring| && ring[k].at < bp && (k + 1 < |ring| ==> bp < ring[k + 1].at)
  }

  lemma {:induction false} PlaceFrom(ring: seq<Blk>, bp: nat, i: nat) returns (k: nat)
    requires i < |ring| && ring[i].at < bp
    requires forall j :: i < j < |ring| ==> ring[j].at != bp
    ensures Between(ring, k, bp)
    decreases |ring| - i
  {
    if i + 1 < |ring| && ring[i + 1].at < bp {
      k := PlaceFrom(ring, bp, i + 1);
    } else {
      k := i;
    }
  }

  /** The block after place k is joined with one of n units at bp. */
  predicate JoinsHigh(ring: seq<Blk>, k: nat, bp: nat, n: nat) {
    k + 1 < |ring| && bp + n == ring[k + 1].at
  }

  predicate JoinsLow(ring: seq<Blk>, k: nat, bp: nat)
    requires k < |ring|
  {
    ring[k].at + ring[k].n == bp
  }

  /** Blocks a, ..., c - 1 of the list replaced by one. */
  function Replace(ring: seq<Blk>, a: nat, c: nat, b: Blk): seq<Blk>
    requires a <= c <= |ring|
  {
    ring[..a] + [b] + ring[c..]
  }

  lemma ReplaceList(base: nat, ring: seq<Blk>, a: nat, c: nat, b: Blk)
    requires ListOk(base, ring) && 1 <= a <= c <= |ring| && b.n > 0
    requires forall i :: 0 <= i < a ==> ring[i].at + ring[i].n < b.at
    requires forall i :: c <= i < |ring| ==> b.at + b.n < ring[i].at
    ensures ListOk(base, Replace(ring, a, c, b))
  {
    var ring' := Replace(ring, a, c, b);
    forall i, j | 0 <= i < j < |ring'|
      ensures ring'[i].at + ring'[i].n < ring'[j].at
    {
      assert i < a ==> ring'[i] == ring[i];
      assert i > a ==> ring'[i] == ring[i - a - 1 + c];
      assert j < a ==> ring'[j] == ring[j];
      assert j > a ==> ring'[j] == ring[j - a - 1 + c];
    }
  }

  lemma ReplaceUnits(ring: seq<Blk>, a: nat, c: nat, b: Blk, u: nat)
    requires a <= c <= |ring|
    requires forall i :: a <= i < c && ring[i].at <= u < ring[i].at + ring[i].n ==> b.at <= u < b.at + b.n
    ensures InFree(Replace(ring, a, c, b), u) <==> InFree(ring, u) || b.at <= u < b.at + b.n
  {
    var ring' := Replace(ring, a, c, b);
    assert ring'[a] == b;
    if i :| 0 <= i < |ring| && ring[i].at <= u < ring[i].at + ring[i].n {
      assert i < a ==> ring'[i] == ring[i];
      assert i >= c ==> ring'[i - c + a + 1] == ring[i];
    }
    if i :| 0 <= i < |ring'| && ring'[i].at <= u < ring'[i].at + ring'[i].n {
      assert i < a ==> ring'[i] == ring[i];
      assert i > a ==> ring'[i] == ring[i - a - 1 + c];
    }
  }

  /** The block that n units at bp become at place k, and the places of the list that it takes. */
  function Joined(ring: seq<Blk>, k: nat, bp: nat, n: nat): (int, int, Blk)
    requires k < |ring|
  {
    var n' := if JoinsHigh(ring, k, bp, n) then n + ring[k + 1].n else n;
    var c := if JoinsHigh(ring, k, bp, n) then k + 2 else k + 1;
    if JoinsLow(ring, k, bp) then (k, c, Blk(ring[k].at, ring[k].n + n')) else (k + 1, c, Blk(bp, n'))
  }

  /** The free list after n units at bp go back between ring[k] and its successor. */
  function Put(ring: seq<Blk>, k: nat, bp: nat, n: nat): seq<Blk>
    requires k < |ring|
  {
    var (a, c, b) := Joined(ring, k, bp, n);
    Replace(ring, a, c, b)
  }

  /** What frees: bp is a live block that lies at place k. */
  ghost predicate Freeing(h: Heap, k: nat, bp: nat) {
    Good(h) && bp in h.live && Between(h.ring, k, bp)
  }

  lemma ApartAt(h: Heap, b: nat, i: nat)
    requires Good(h) && b in h.live && i < |h.ring|
    ensures b < h.ring[i].at ==> b + h.live[b] <= h.ring[i].at
    ensures h.ring[i].at <= b ==> h.ring[i].at + h.ring[i].n <= b
  {
  }

  lemma PutList(h: Heap, k: nat, bp: nat)
    requires Freeing(h, k, bp)
    ensures ListOk(h.base, Put(h.ring, k, bp, h.live[bp]))
  {
    var ring, n := h.ring, h.live[bp];
    var (a, c, b) := Joined(ring, k, bp, n);
    ApartAt(h, bp, k);
    if k + 1 < |ring| {
      ApartAt(h, bp, k + 1);
    }
    ReplaceList(h.base, ring, a, c, b);
  }

  lemma PutUnits(h: Heap, k: nat, bp: nat, u: nat)
    requires Freeing(h, k, bp)
    ensures InFree(Put(h.ring, k, bp, h.live[bp]), u) <==> InFree(h.ring, u) || bp <= u < bp + h.live[bp]
  {
    var ring, n := h.ring, h.live[bp];
    var (a, c, b) := Joined(ring, k, bp, n);
    ReplaceUnits(ring, a, c, b, u);
  }

  lemma PutApart(h: Heap, k: nat, bp: nat)
    requires Freeing(h, k, bp)
    ensures Apart(Put(h.ring, k, bp, h.live[bp]), h.live - {bp})
  {
    var ring, n, live := h.ring, h.live[bp], h.live;
    var ring' := Put(ring, k, bp, n);
    forall b, i | b in live - {bp} && 0 <= i < |ring'|
      ensures b + live[b] <= ring'[i].at || ring'[i].at + ring'[i].n <= b
    {
      assert b + live[b] <= bp || bp + n <= b;
      assert b + live[b] <= ring[k].at || ring[k].at + ring[k].n <= b;
      if k + 1 < |ring| {
        assert b + live[b] <= ring[k + 1].at || ring[k + 1].at + ring[k + 1].n <= b;
      }
    }
  }

  /** Giving a block back keeps the heap good: it is no longer live, and its units are free. */
  lemma PutGood(h: Heap, k: nat, bp: nat)
    requires Freeing(h, k, bp)
    ensures Good(Heap(h.base, Put(h.ring, k, bp, h.live[bp]), h.live - {bp}, h.arena))
  {
    PutList(h, k, bp);
    PutApart(h, k, bp);
    forall u: nat
      ensures u in h.arena <==> InFree(Put(h.ring, k, bp, h.live[bp]), u) || InLive(h.live - {bp}, u)
    {
      PutUnits(h, k, bp, u);
      LiveLess(h.live, bp, u);
      OneBlockEach(h, u);
    }
  }

  lemma LiveLess(live: map<nat, nat>, bp: nat, u: nat)
    requires bp in live
    ensures InLive(live, u) <==> InLive(live - {bp}, u) || bp <= u < bp + live[bp]
  {
    if b :| b in live && b <= u < b + live[b] {
      assert b != bp ==> b in live - {bp};
    }
    if b :| b in live - {bp} && b <= u < b + (live - {bp})[b] {
      assert b in live;
    }
  }

  // ---------- The list in memory ----------

  function Next(ring: seq<Blk>, i: nat): nat {
    if i + 1 < |ring| then i + 1 else 0
  }

  /** The headers in memory form the circular list `ring`. */
  ghost predicate Linked(mem: map<nat, Header>, ring: seq<Blk>) {
    |ring| > 0 && forall i :: 0 <= i < |ring| ==> LinkAt(mem, ring, i)
  }

  ghost predicate LinkAt(mem: map<nat, Header>, ring: seq<Blk>, i: nat)
    requires i < |ring|
  {
    ring[i].at in mem && mem[ring[i].at] == Header(ring[Next(ring, i)].at, ring[i].n)
  }

  /** The memory after free puts bp behind p. */
  function FreeMem(mem: map<nat, Header>, p: nat, bp: nat): map<nat, Header>
    requires p in mem && bp in mem && mem[p].ptr in mem
  {
    var next := mem[p].ptr;
    var b := if bp + mem[bp].size == next then Header(mem[next].ptr, mem[bp].size + mem[next].size)
        else Header(next, mem[bp].size);
    if p + mem[p].size == bp then mem[bp := b][p := Header(b.ptr, mem[p].size + b.size)]
    else mem[bp := b][p := Header(bp, mem[p].size)]
  }

  lemma ReplaceLinked(mem: map<nat, Header>, mem': map<nat, Header>, ring: seq<Blk>, a: nat, c: nat, b: Blk)
    requires Linked(mem, ring) && 1 <= a <= c <= |ring|
    requires forall i :: 0 <= i < |ring| && (i < a - 1 || i >= c) ==>
               ring[i].at in mem' && ring[i].at in mem && mem'[ring[i].at] == mem[ring[i].at]
    requires ring[a - 1].at in mem' && mem'[ring[a - 1].at] == Header(b.at, ring[a - 1].n)
    requires b.at in mem' && mem'[b.at] == Header(ring[if c < |ring| then c else 0].at, b.n)
    ensures Linked(mem', Replace(ring, a, c, b))
  {
    var ring' := Replace(ring, a, c, b);
    forall i | 0 <= i < |ring'|
      ensures LinkAt(mem', ring', i)
    {
      if i < a - 1 {
        assert LinkAt(mem, ring, i);
      } else if i > a {
        assert LinkAt(mem, ring, i - a - 1 + c);
      }
      ReplaceAt(ring, a, c, b, i);
      ReplaceAt(ring, a, c, b, Next(ring', i));
    }
  }

  lemma NotOnList(h: Heap, bp: nat)
    requires Good(h) && bp in h.live
    ensures forall i :: 0 <= i < |h.ring| ==> h.ring[i].at != bp
  {
    forall i | 0 <= i < |h.ring|
      ensures h.ring[i].at != bp
    {
      ApartAt(h, bp, i);
    }
  }

  lemma DistinctHeaders(base: nat, ring: seq<Blk>)
    requires ListOk(base, ring)
    ensures forall i, j :: 0 <= i < j < |ring| ==> ring[i].at != ring[j].at
  {
    forall i, j | 0 <= i < j < |ring|
      ensures ring[i].at != ring[j].at
    {
      assert ring[i].at + ring[i].n < ring[j].at;
    }
  }

  /** Free's two joins in memory are what Put does to the list. */
  lemma JoinLinked(mem: map<nat, Header>, ring: seq<Blk>, k: nat, bp: nat, n: nat)
    requires Linked(mem, ring) && k < |ring| && bp in mem && mem[bp].size == n
    requires forall i :: 0 <= i < |ring| ==> ring[i].at != bp
    requires forall i, j :: 0 <= i < j < |ring| ==> ring[i].at != ring[j].at
    requires (k + 1 == |ring| ==> ring[0].at != bp + n) && (k == 0 ==> !JoinsLow(ring, k, bp))
    ensures ring[k].at in mem && mem[ring[k].at].ptr in mem
    ensures Linked(FreeMem(mem, ring[k].at, bp), Put(ring, k, bp, n))
  {
    var p := ring[k].at;
    var (a, c, b) := Joined(ring, k, bp, n);
    assert LinkAt(mem, ring, k) && LinkAt(mem, ring, Next(ring, k));
    forall i | 0 <= i < |ring|
      ensures ring[i].at in mem
    {
      assert LinkAt(mem, ring, i);
    }
    assert JoinsHigh(ring, k, bp, n) <==> bp + n == mem[p].ptr;
    var mem' := FreeMem(mem, p, bp);
    assert mem'[b.at] == Header(ring[if c < |ring| then c else 0].at, b.n);
    if a == k {
      assert LinkAt(mem, ring, a - 1);
    }
    ReplaceLinked(mem, mem', ring, a, c, b);
  }

  lemma PutLinked(h: Heap, mem: map<nat, Header>, k: nat, bp: nat)
    requires Freeing(h, k, bp) && Linked(mem, h.ring) && bp in mem && mem[bp].size == h.live[bp]
    ensures h.ring[k].at in mem && mem[h.ring[k].at].ptr in mem
    ensures Linked(FreeMem(mem, h.ring[k].at, bp), Put(h.ring, k, bp, h.live[bp]))
  {
    NotOnList(h, bp);
    DistinctHeaders(h.base, h.ring);
    JoinLinked(mem, h.ring, k, bp, h.live[bp]);
  }

  lemma ReplaceAt(ring: seq<Blk>, a: nat, c: nat, b: Blk, i: nat)
    requires a <= c <= |ring| && i < |Replace(ring, a, c, b)|
    ensures Replace(ring, a, c, b)[i] == if i < a then ring[i] else if i == a then b else ring[i - a - 1 + c]
  {
  }

  // ---------- malloc ----------

  /** The header of the n units cut from the end of ring[k]. */
  function CutAt(ring: seq<Blk>, k: nat, n: nat): int
    requires k < |ring|
  {
    ring[k].at + ring[k].n - n
  }

  /** The free list after n units are cut from the end of ring[k], or all of it is taken. */
  function Cut(ring: seq<Blk>, k: nat, n: nat): seq<Blk>
    requires k < |ring| && n <= ring[k].n
  {
    if ring[k].n == n then ring[..k] + ring[k + 1..] else ring[k := Blk(ring[k].at, ring[k].n - n)]
  }

  ghost predicate Cutting(h: Heap, k: nat, n: nat) {
    Good(h) && k < |h.ring| && 0 < n <= h.ring[k].n
  }

  lemma CutList(h: Heap, k: nat, n: nat)
    requires Cutting(h, k, n)
    ensures ListOk(h.base, Cut(h.ring, k, n))
  {
    var ring, ring' := h.ring, Cut(h.ring, k, n);
    forall i, j | 0 <= i < j < |ring'|
      ensures ring'[i].at + ring'[i].n < ring'[j].at
    {
      CutIndex(ring, k, n, i);
      CutIndex(ring, k, n, j);
    }
  }

  lemma CutIndex(ring: seq<Blk>, k: nat, n: nat, i: nat)
    requires k < |ring| && n <= ring[k].n && i < |Cut(ring, k, n)|
    ensures Cut(ring, k, n)[i] == if ring[k].n == n && i >= k then ring[i + 1]
                                  else if i == k then Blk(ring[k].at, ring[k].n - n) else ring[i]
  {
  }

  lemma CutUnits(h: Heap, k: nat, n: nat, u: nat)
    requires Cutting(h, k, n)
    ensures InFree(h.ring, u) <==> InFree(Cut(h.ring, k, n), u) || CutAt(h.ring, k, n) <= u < CutAt(h.ring, k, n) + n
  {
    var ring, ring' := h.ring, Cut(h.ring, k, n);
    if i :| 0 <= i < |ring| && ring[i].at <= u < ring[i].at + ring[i].n {
      if ring[k].n != n || i < k {
        CutIndex(ring, k, n, i);
      } else if i > k {
        CutIndex(ring, k, n, i - 1);
      }
    }
    if i :| 0 <= i < |ring'| && ring'[i].at <= u < ring'[i].at + ring'[i].n {
      CutIndex(ring, k, n, i);
    }
  }

  lemma CutLive(h: Heap, k: nat, n: nat)
    requires Cutting(h, k, n)
    ensures CutAt(h.ring, k, n) > h.base && CutAt(h.ring, k, n) !in h.live
    ensures LiveOk(h.base, h.live[CutAt(h.ring, k, n) := n])
  {
    var ring, p, live := h.ring, CutAt(h.ring, k, n), h.live;
    assert k > 0 && ring[0].at + ring[0].n < ring[k].at;
    forall b | b in live
      ensures Disjoint(b, live[b], p, n)
    {
      ApartAt(h, b, k);
    }
  }

  lemma CutApart(h: Heap, k: nat, n: nat)
    requires Cutting(h, k, n) && CutAt(h.ring, k, n) > 0
    ensures Apart(Cut(h.ring, k, n), h.live[CutAt(h.ring, k, n) := n])
  {
    var ring, p, ring', live := h.ring, CutAt(h.ring, k, n), Cut(h.ring, k, n), h.live;
    var live' := live[p := n];
    forall b, i | b in live' && 0 <= i < |ring'|
      ensures b + live'[b] <= ring'[i].at || ring'[i].at + ring'[i].n <= b
    {
      CutIndex(ring, k, n, i);
      var j := if ring[k].n == n && i >= k then i + 1 else i;
      if b == p {
        assert j < k ==> ring[j].at + ring[j].n < ring[k].at;
        assert j > k ==> ring[k].at + ring[k].n < ring[j].at;
      } else {
        ApartAt(h, b, j);
      }
    }
  }

  lemma LiveMore(live: map<nat, nat>, p: nat, n: nat, u: nat)
    requires p !in live
    ensures InLive(live[p := n], u) <==> InLive(live, u) || p <= u < p + n
  {
    LiveLess(live[p := n], p, u);
    assert live[p := n] - {p} == live;
  }

  /** Handing out a block keeps the heap good: its units, free until now, are live. */
  lemma CutGood(h: Heap, k: nat, n: nat)
    requires Cutting(h, k, n)
    ensures CutAt(h.ring, k, n) > h.base && CutAt(h.ring, k, n) !in h.live
    ensures Good(Heap(h.base, Cut(h.ring, k, n), h.live[CutAt(h.ring, k, n) := n], h.arena))
  {
    CutList(h, k, n);
    CutLive(h, k, n);
    CutApart(h, k, n);
    forall u: nat
      ensures u in h.arena <==> InFree(Cut(h.ring, k, n), u) || InLive(h.live[CutAt(h.ring, k, n) := n], u)
    {
      CutUnits(h, k, n, u);
      LiveMore(h.live, CutAt(h.ring, k, n), n, u);
    }
  }

  /** The memory after malloc takes n units of the free block p that follows prev. */
  function CutMem(mem: map<nat, Header>, prev: nat, p: nat, n: nat): map<nat, Header>
    requires prev in mem && p in mem && n <= mem[p].size
  {
    if mem[p].size == n then mem[prev := mem[prev].(ptr := mem[p].ptr)]
    else SetSize(mem[p := mem[p].(size := mem[p].size - n)], p + mem[p].size - n, n)
  }

  /** p->s.size = n, for any p. */
  function SetSize(mem: map<nat, Header>, p: nat, n: nat): map<nat, Header> {
    mem[p := Header(if p in mem then mem[p].ptr else 0, n)]
  }

  lemma CutLinked(mem: map<nat, Header>, ring: seq<Blk>, j: nat, k: nat, n: nat)
    requires Linked(mem, ring) && j < |ring| && k == Next(ring, j) && 0 < k && 0 < n <= ring[k].n
    requires forall i :: 0 <= i < |ring| ==> ring[i].at != CutAt(ring, k, n) || (i == k && ring[k].n == n)
    requires forall a, b :: 0 <= a < b < |ring| ==> ring[a].at != ring[b].at
    ensures ring[j].at in mem && ring[k].at in mem && mem[ring[k].at].size == ring[k].n
    ensures Linked(CutMem(mem, ring[j].at, ring[k].at, n), Cut(ring, k, n))
    ensures CutAt(ring, k, n) in CutMem(mem, ring[j].at, ring[k].at, n)
    ensures CutMem(mem, ring[j].at, ring[k].at, n)[CutAt(ring, k, n)].size == n
  {
    assert LinkAt(mem, ring, j) && LinkAt(mem, ring, k);
    var mem', ring' := CutMem(mem, ring[j].at, ring[k].at, n), Cut(ring, k, n);
    forall i | 0 <= i < |ring'|
      ensures LinkAt(mem', ring', i)
    {
      CutIndex(ring, k, n, i);
      CutIndex(ring, k, n, Next(ring', i));
      assert LinkAt(mem, ring, if ring[k].n == n && i >= k then i + 1 else i);
    }
  }

  // ---------- The allocator ----------

  /** The units for a request, header included; the sum wraps like a 32-bit unsigned. */
  function Units(nbytes: nat): (n: nat)
    ensures 0 < n <= UINT / HEADER
  {
    (nbytes + HEADER - 1) % UINT / HEADER + 1
  }

  /** The units morecore asks for: those that are needed, and no fewer than MINCORE. */
  function CoreUnits(n: nat): (r: nat)
    ensures n <= r && 4096 <= r && (r == n || r == 4096)
  {
    if n < MINCORE then MINCORE else n
  }

  /** morecore's argument to sbrk: the product wraps like a 32-bit unsigned, and sbrk takes it for an int. */
  function SbrkArg(n: nat): int {
    var x := CoreUnits(n) * HEADER % UINT;
    if x < 0x8000_0000 then x else x - UINT
  }

  /** Beyond int the product is a negative number, or zero. */
  lemma SbrkArgIs(n: nat)
    requires n <= UINT / HEADER
    ensures CoreUnits(n) * HEADER < 0x8000_0000 ==> SbrkArg(n) == CoreUnits(n) * HEADER
    ensures CoreUnits(n) * HEADER >= 0x8000_0000 ==> SbrkArg(n) <= 0
  {
  }

  /** A block of this many units has room for the request. */
  predicate Holds(nbytes: nat) {
    (Units(nbytes) - 1) * HEADER >= nbytes
  }

  lemma HoldsIff(nbytes: nat)
    requires nbytes < UINT
    ensures Holds(nbytes) <==> nbytes + HEADER - 1 < UINT
  {
  }

  /** The largest request that malloc can serve from new memory. */
  const MAXREQUEST: nat := 0x7FFF_FFF0

  /** Up to that size, and no further, the block has room and sbrk is asked for all of it. */
  lemma RequestFits(nbytes: nat)
    requires nbytes < UINT
    ensures nbytes <= MAXREQUEST <==> Holds(nbytes) && CoreUnits(Units(nbytes)) * HEADER < 0x8000_0000
  {
    HoldsIff(nbytes);
    if nbytes + HEADER - 1 < UINT {
      assert Units(nbytes) == (nbytes + HEADER - 1) / HEADER + 1;
    }
  }

  /** The largest request for which sbrk is asked for a negative size. */
  const LASTNEGATIVE: nat := 0xFFFF_FFF0

  lemma NegativeRequest(nbytes: nat)
    requires nbytes < UINT
    ensures SbrkArg(Units(nbytes)) < 0 <==> MAXREQUEST < nbytes <= LASTNEGATIVE
  {
    var n := Units(nbytes);
    if nbytes + HEADER - 1 < UINT {
      assert n == (nbytes + HEADER - 1) / HEADER + 1;
    } else {
      assert n == 1;
    }
  }

  /** A process of sz bytes, a multiple of HEADER, loses all of them to a request of 2^32 - sz - HEADER bytes:
      morecore asks sbrk for -sz, and growproc frees everything and fails. */
  lemma WholeSizeRequest(sz: nat, nbytes: nat)
    requires 0 < sz <= 0x8000_0000 && sz % HEADER == 0 && nbytes == UINT - sz - HEADER
    ensures SbrkArg(Units(nbytes)) + sz == 0
  {
    assert nbytes % HEADER == 0;
    assert Units(nbytes) == nbytes / HEADER + 1;
    assert Units(nbytes) * HEADER == UINT - sz;
  }

  /** The largest request whose size does not wrap: sbrk(0) succeeds and gives nothing. From the first
      one that is too large on, sbrk is asked to take memory away. */
  lemma HugeRequest()
    ensures Holds(0xFFFF_FFF8) && SbrkArg(Units(0xFFFF_FFF8)) == 0
    ensures Holds(MAXREQUEST + 1) && SbrkArg(Units(MAXREQUEST + 1)) == -0x8000_0000
  {
    assert Units(0xFFFF_FFF8) == 0x2000_0000;
    assert Units(MAXREQUEST + 1) == 0x1000_0000;
  }

  predicate Within(u: nat, at: nat, n: nat) {
    at <= u < at + n
  }

  ghost function Area(at: nat, n: nat): set<nat> {
    set u: nat | u < at + n && Within(u, at, n)
  }

  /** The units a process has after sbrk(bytes) has answered with the old break, `at`. */
  ghost function AfterSbrk(own: set<nat>, at: nat, bytes: int): set<nat> {
    if bytes >= 0 then own + Area(at, bytes / HEADER)
    else if at + bytes / HEADER >= 0 then set u | u in own && u < at + bytes / HEADER
    else own // the new size wraps, and growproc leaves things as they are
  }

  /** The units a process has after sbrk(bytes) has failed. With a negative size it fails only when that is
      the whole size of the process, and then growproc has freed every page before it reports the failure. */
  ghost function AfterFailure(own: set<nat>, bytes: int): set<nat> {
    if bytes < 0 then {} else own
  }

  /** Whatever sbrk has answered. */
  ghost function Owning(own: set<nat>, core: Option<nat>, bytes: int): set<nat> {
    if core.Some? then AfterSbrk(own, core.value, bytes) else AfterFailure(own, bytes)
  }

  /** All the memory that morecore puts on the list is there exactly when the product fits an int. */
  lemma CoreBacked(arena: set<nat>, own: set<nat>, at: nat, n: nat)
    requires arena <= own && at !in own && n <= UINT / HEADER
    ensures arena + Area(at, CoreUnits(n)) <= AfterSbrk(own, at, SbrkArg(n)) <==> CoreUnits(n) * HEADER < 0x8000_0000
  {
    SbrkArgIs(n);
    if CoreUnits(n) * HEADER < 0x8000_0000 {
      assert SbrkArg(n) / HEADER == CoreUnits(n);
    } else {
      assert at in Area(at, CoreUnits(n));
      assert AfterSbrk(own, at, SbrkArg(n)) <= own + Area(at, 0);
    }
  }

  /** After malloc has had memory from sbrk. */
  lemma MallocBacked(arena: set<nat>, own: set<nat>, arena': set<nat>, own': set<nat>, at: nat, nbytes: nat)
    requires arena <= own && at !in own && nbytes < UINT
    requires arena' == arena + Area(at, CoreUnits(Units(nbytes))) && own' == AfterSbrk(own, at, SbrkArg(Units(nbytes)))
    ensures arena' <= own' && Holds(nbytes) <==> nbytes <= MAXREQUEST
  {
    CoreBacked(arena, own, at, Units(nbytes));
    RequestFits(nbytes);
  }

  /** sbrk's answer is above base, and the units from there on are new to the allocator. */
  ghost predicate FreshCore(h: Heap, at: nat, n: nat) {
    h.base < at && forall u: nat :: at <= u < at + n ==> u !in h.arena
  }

  /** New memory is a live block until it is freed. */
  lemma CoreGood(h: Heap, at: nat, n: nat)
    requires Good(h) && n > 0 && FreshCore(h, at, n)
    ensures at !in h.live && Good(Heap(h.base, h.ring, h.live[at := n], h.arena + Area(at, n)))
  {
    forall b | b in h.live
      ensures Disjoint(b, h.live[b], at, n)
    {
      assert forall u :: b <= u < b + h.live[b] ==> InLive(h.live, u);
      assert b < at + n ==> InLive(h.live, Max(b, at)) || b + h.live[b] <= at;
    }
    forall i | 0 <= i < |h.ring|
      ensures at + n <= h.ring[i].at || h.ring[i].at + h.ring[i].n <= at
    {
      assert h.ring[i].at < at + n && at < h.ring[i].at + h.ring[i].n ==> InFree(h.ring, Max(h.ring[i].at, at));
    }
    forall u: nat
      ensures u in h.arena + Area(at, n) <==> InFree(h.ring, u) || InLive(h.live[at := n], u)
    {
      LiveMore(h.live, at, n, u);
    }
  }

  function Max(a: nat, b: nat): nat {
    if a < b then b else a
  }

  /** mem' has the same contents as mem in every unit of every live block. */
  ghost predicate KeepsLive(mem: map<nat, Header>, mem': map<nat, Header>, live: map<nat, nat>) {
    forall u: nat :: InLive(live, u) ==> (u in mem' <==> u in mem) && (u in mem ==> mem'[u] == mem[u])
  }

  /** A header on the free list is in no live block. */
  lemma ListNotLive(h: Heap, i: nat)
    requires Good(h) && i < |h.ring|
    ensures !InLive(h.live, h.ring[i].at)
  {
    forall b | b in h.live
      ensures !(b <= h.ring[i].at < b + h.live[b])
    {
      ApartAt(h, b, i);
    }
  }

  lemma FreeKeeps(h: Heap, mem: map<nat, Header>, k: nat, bp: nat)
    requires Freeing(h, k, bp) && bp in mem && h.ring[k].at in mem && mem[h.ring[k].at].ptr in mem
    ensures KeepsLive(mem, FreeMem(mem, h.ring[k].at, bp), h.live - {bp})
  {
    forall u: nat | InLive(h.live - {bp}, u)
      ensures u != bp && u != h.ring[k].at
    {
      LiveLess(h.live, bp, u);
      OneBlockEach(h, u);
      ListNotLive(h, k);
    }
  }

  lemma CutKeeps(h: Heap, mem: map<nat, Header>, j: nat, k: nat, n: nat)
    requires Cutting(h, k, n) && j < |h.ring| && h.ring[j].at in mem && h.ring[k].at in mem
    requires mem[h.ring[k].at].size == h.ring[k].n
    ensures KeepsLive(mem, CutMem(mem, h.ring[j].at, h.ring[k].at, n), h.live)
  {
    forall u: nat | InLive(h.live, u)
      ensures u != CutAt(h.ring, k, n) && u != h.ring[j].at && u != h.ring[k].at
    {
      CutUnits(h, k, n, u);
      OneBlockEach(h, u);
      ListNotLive(h, j);
      ListNotLive(h, k);
    }
  }

  ghost predicate SizesKept(mem: map<nat, Header>, live: map<nat, nat>) {
    forall b :: b in live ==> b in mem && mem[b].size == live[b]
  }

  /** How many steps round the list lead from place i to place k. */
  function Steps(ring: seq<Blk>, i: nat, k: nat): int {
    if i <= k then k - i else k + |ring| - i
  }

  lemma SizesStay(mem: map<nat, Header>, mem': map<nat, Header>, live: map<nat, nat>)
    requires SizesKept(mem, live) && KeepsLive(mem, mem', live) && forall b :: b in live ==> live[b] > 0
    ensures SizesKept(mem', live)
  {
    forall b | b in live
      ensures b in mem' && mem'[b].size == live[b]
    {
      assert InLive(live, b);
    }
  }

  /** free's walk stops, at its loop condition or at its break, exactly where bp belongs, and each step
      brings it nearer. */
  lemma WalkStops(h: Heap, bp: nat, i: nat, k: nat)
    requires Good(h) && bp in h.live && i < |h.ring| && Between(h.ring, k, bp)
    ensures var p, next := h.ring[i].at, h.ring[Next(h.ring, i)].at;
            (p < bp < next || (p >= next && (bp > p || bp < next))) <==> i == k
    ensures i != k ==> 0 <= Steps(h.ring, Next(h.ring, i), k) < Steps(h.ring, i, k)
  {
    var ring := h.ring;
    assert h.base < bp;
    assert i < k ==> ring[i + 1].at <= ring[k].at;
    assert k < i ==> ring[k + 1].at <= ring[i].at;
    assert i + 1 < |ring| ==> ring[i].at + ring[i].n < ring[i + 1].at;
    assert i > 0 ==> ring[0].at + ring[0].n < ring[i].at;
  }

  lemma FreeDone(h: Heap, h': Heap, mem: map<nat, Header>, mem': map<nat, Header>, k: nat, bp: nat)
    requires Freeing(h, k, bp) && Linked(mem, h.ring) && SizesKept(mem, h.live)
    requires h.ring[k].at in mem && mem[h.ring[k].at].ptr in mem && mem' == FreeMem(mem, h.ring[k].at, bp)
    requires h' == Heap(h.base, Put(h.ring, k, bp, h.live[bp]), h.live - {bp}, h.arena)
    ensures Good(h') && Linked(mem', h'.ring) && SizesKept(mem', h'.live) && KeepsLive(mem, mem', h'.live)
    ensures k < |h'.ring| && h'.ring[k].at == h.ring[k].at && HasRoom(h'.ring, k, h.live[bp])
  {
    PutGood(h, k, bp);
    PutLinked(h, mem, k, bp);
    FreeKeeps(h, mem, k, bp);
    SizesStay(mem, mem', h'.live);
    PutPlace(h.ring, k, bp, h.live[bp]);
  }

  lemma LinkedNext(mem: map<nat, Header>, ring: seq<Blk>, k: nat)
    requires Linked(mem, ring) && k < |ring|
    ensures ring[k].at in mem && mem[ring[k].at].size == ring[k].n
    ensures mem[ring[k].at].ptr == ring[Next(ring, k)].at && ring[Next(ring, k)].at in mem
  {
    assert LinkAt(mem, ring, k) && LinkAt(mem, ring, Next(ring, k));
  }

  /** The block at place k or the one after it has n units. */
  ghost predicate HasRoom(ring: seq<Blk>, k: nat, n: nat) {
    k < |ring| && (ring[k].n >= n || (k + 1 < |ring| && ring[k + 1].n >= n))
  }

  lemma PutPlace(ring: seq<Blk>, k: nat, bp: nat, n: nat)
    requires k < |ring|
    ensures k < |Put(ring, k, bp, n)| && Put(ring, k, bp, n)[k].at == ring[k].at && HasRoom(Put(ring, k, bp, n), k, n)
  {
    var (a, c, b) := Joined(ring, k, bp, n);
    ReplaceAt(ring, a, c, b, k);
    ReplaceAt(ring, a, c, b, a);
  }

  lemma CutDone(h: Heap, h': Heap, mem: map<nat, Header>, mem': map<nat, Header>, j: nat, k: nat, n: nat, p: nat)
    requires Cutting(h, k, n) && Linked(mem, h.ring) && SizesKept(mem, h.live) && j < |h.ring| && k == Next(h.ring, j)
    requires h.ring[j].at in mem && h.ring[k].at in mem && mem[h.ring[k].at].size == h.ring[k].n
    requires mem' == CutMem(mem, h.ring[j].at, h.ring[k].at, n) && p == CutAt(h.ring, k, n)
    requires h' == Heap(h.base, Cut(h.ring, k, n), h.live[p := n], h.arena)
    ensures p !in h.live && Good(h') && Linked(mem', h'.ring) && SizesKept(mem', h'.live)
    ensures KeepsLive(mem, mem', h.live)
    ensures j < |h'.ring| && h'.ring[j].at == h.ring[j].at
  {
    CutGood(h, k, n);
    DistinctHeaders(h.base, h.ring);
    CutHeaders(h, k, n);
    CutLinked(mem, h.ring, j, k, n);
    CutKeeps(h, mem, j, k, n);
    SizesStay(mem, mem', h.live);
    CutIndex(h.ring, k, n, j);
  }

  lemma CutHeaders(h: Heap, k: nat, n: nat)
    requires Cutting(h, k, n)
    ensures k > 0
    ensures forall i :: 0 <= i < |h.ring| ==> h.ring[i].at != CutAt(h.ring, k, n) || (i == k && h.ring[k].n == n)
  {
    forall i | 0 <= i < |h.ring|
      ensures h.ring[i].at != CutAt(h.ring, k, n) || (i == k && h.ring[k].n == n)
    {
      assert i < k ==> h.ring[i].at + h.ring[i].n < h.ring[k].at;
      assert k < i ==> h.ring[k].at + h.ring[k].n < h.ring[i].at;
    }
  }

  lemma KeepsTwice(mem: map<nat, Header>, mem1: map<nat, Header>, mem2: map<nat, Header>, live: map<nat, nat>)
    requires KeepsLive(mem, mem1, live) && KeepsLive(mem1, mem2, live)
    ensures KeepsLive(mem, mem2, live)
  {
  }

  /** New memory, given a header, as a live block. */
  lemma CoreDone(h: Heap, mem: map<nat, Header>, at: nat, n: nat)
    requires Good(h) && Linked(mem, h.ring) && SizesKept(mem, h.live) && n > 0 && FreshCore(h, at, n)
    ensures var h', mem' := Heap(h.base, h.ring, h.live[at := n], h.arena + Area(at, n)), SetSize(mem, at, n);
            && at !in h.live && Good(h') && Linked(mem', h.ring) && SizesKept(mem', h'.live)
               && KeepsLive(mem, mem', h.live)
  {
    CoreGood(h, at, n);
    var h', mem' := Heap(h.base, h.ring, h.live[at := n], h.arena + Area(at, n)), SetSize(mem, at, n);
    NotOnList(h', at);
    forall i | 0 <= i < |h.ring|
      ensures LinkAt(mem', h.ring, i)
    {
      assert LinkAt(mem, h.ring, i);
    }
    forall u: nat | InLive(h.live, u)
      ensures u != at
    {
      assert u in h.arena;
    }
  }

  ghost predicate AllSmall(ring: seq<Blk>, n: nat) {
    forall t :: 0 <= t < |ring| ==> ring[t].n < n
  }

  /** On the way to place pos, malloc's walk has come to place i: the blocks it has passed are too small. */
  ghost predicate Passed(ring: seq<Blk>, i: nat, pos: nat, n: nat) {
    forall t :: 0 <= t < |ring| && Steps(ring, t, pos) > Steps(ring, i, pos) ==> ring[t].n < n
  }

  /** ring[k] has n units, and the blocks between ring[pos] and it have not. */
  ghost predicate FirstFit(ring: seq<Blk>, pos: nat, k: nat, n: nat) {
    k < |ring| && n <= ring[k].n && Passed(ring, k, pos, n)
  }

  /** A walk that comes to freep without finding room has seen every block. */
  lemma AllSeen(h: Heap, i: nat, pos: nat, n: nat)
    requires Good(h) && i < |h.ring| && pos < |h.ring| && h.ring[i].at == h.ring[pos].at && h.ring[i].n < n
    ensures i == pos && (Passed(h.ring, i, pos, n) ==> AllSmall(h.ring, n))
  {
    DistinctHeaders(h.base, h.ring);
  }

  /** One step of the walk, from a block that is too small or from freep. */
  lemma StepOn(ring: seq<Blk>, i: nat, pos: nat, n: nat)
    requires i < |ring| && pos < |ring|
    ensures i != pos ==> Steps(ring, Next(ring, i), pos) < Steps(ring, i, pos)
    ensures i != pos && ring[i].n < n && Passed(ring, i, pos, n) ==> Passed(ring, Next(ring, i), pos, n)
    ensures i == pos ==> Passed(ring, Next(ring, i), pos, n)
  {
  }

  /** The block whose memory begins at ap is live now, with n units. */
  ghost predicate Gained(live: map<nat, nat>, live': map<nat, nat>, ap: nat, n: nat) {
    exists q: nat :: ap == q + 1 && q !in live && live' == live[q := n]
  }

  /** The block at address `at` is the one before block k of the ring. */
  ghost predicate JustBefore(ring: seq<Blk>, at: nat, k: nat) {
    exists j :: 0 <= j < |ring| && ring[j].at == at && Next(ring, j) == k
  }

  class Allocator {
    const base: nat
    var mem: map<nat, Header>
    var freep: nat // 0 until the first call of malloc
    ghost var h: Heap
    ghost var pos: nat // the place of freep on the list
    ghost var own: set<nat> // the units that are memory of the process

    ghost predicate Valid()
      reads `mem, `freep, `h, `pos
    {
      && 0 < base == h.base && Good(h) && SizesKept(mem, h.live)
      && if freep == 0 then h == Heap(base, [Blk(base, 0)], map[], {})
         else Linked(mem, h.ring) && pos < |h.ring| && h.ring[pos].at == freep
    }

    /** Every unit on the list or handed out is memory of the process. */
    ghost predicate Backed()
      reads this
    {
      h.arena <= own
    }

    constructor (base: nat)
      requires base > 0
      ensures Valid() && freep == 0 && Backed()
    {
      this.base, freep, mem := base, 0, map[];
      h, pos, own := Heap(base, [Blk(base, 0)], map[], {}), 0, {};
    }

    /** free's walk: the place p = ring[k] behind which bp belongs. */
    method FindPlace(bp: nat) returns (p: nat, ghost k: nat)
      requires Valid() && freep != 0 && bp in h.live
      ensures Between(h.ring, k, bp) && p == h.ring[k].at
    {
      NotOnList(h, bp);
      k := PlaceFrom(h.ring, bp, 0);
      p := freep;
      ghost var i: nat := pos;
      assert LinkAt(mem, h.ring, i);
      WalkStops(h, bp, i, k);
      while !(bp > p && bp < mem[p].ptr)
        invariant i < |h.ring| && p == h.ring[i].at && LinkAt(mem, h.ring, i)
        invariant bp > p && bp < mem[p].ptr ==> i == k
        decreases Steps(h.ring, i, k)
      {
        WalkStops(h, bp, i, k);
        if p >= mem[p].ptr && (bp > p || bp < mem[p].ptr) {
          break;
        }
        p := mem[p].ptr;
        i := Next(h.ring, i);
        assert LinkAt(mem, h.ring, i);
        WalkStops(h, bp, i, k);
      }
    }

    /** free's two joins, with the block after bp and with the block p before it. */
    method Join(p: nat, bp: nat)
      requires p in mem && bp in mem && p != bp && mem[p].ptr in mem
      modifies `mem
      ensures mem == FreeMem(old(mem), p, bp)
    {
      var next := mem[p].ptr;
      if bp + mem[bp].size == next {
        mem := mem[bp := Header(mem[next].ptr, mem[bp].size + mem[next].size)];
      } else {
        mem := mem[bp := mem[bp].(ptr := next)];
      }
      if p + mem[p].size == bp {
        mem := mem[p := Header(mem[bp].ptr, mem[p].size + mem[bp].size)];
      } else {
        mem := mem[p := mem[p].(ptr := bp)];
      }
    }

    /** free from its second line on, for the header bp. */
    method Release(bp: nat) returns (ghost k: nat)
      requires Valid() && bp in h.live
      modifies `mem, `freep, `h, `pos
      ensures Valid() && freep != 0
      ensures Between(old(h.ring), k, bp) && h.ring == Put(old(h.ring), k, bp, old(h.live)[bp])
      ensures h.live == old(h.live) - {bp} && h.arena == old(h.arena)
      ensures KeepsLive(old(mem), mem, h.live) && freep == old(h.ring)[k].at
      ensures HasRoom(h.ring, pos, old(h.live)[bp])
    {
      var p;
      p, k := FindPlace(bp);
      LinkedNext(mem, h.ring, k);
      ghost var h0, mem0 := h, mem;
      Join(p, bp);
      freep := p;
      h := Heap(base, Put(h.ring, k, bp, h.live[bp]), h.live - {bp}, h.arena);
      pos := k;
      FreeDone(h0, h, mem0, mem, k, bp);
    }

    /** free: the block is no longer live, its units are free, and every other block keeps its contents. The
        next search begins behind the free block before it. */
    method Free(ap: nat) returns (ghost k: nat)
      requires Valid() && ap > 0 && ap - 1 in h.live
      modifies `mem, `freep, `h, `pos
      ensures Between(old(h.ring), k, ap - 1) && h.ring == Put(old(h.ring), k, ap - 1, old(h.live)[ap - 1])
      ensures Valid() && h.live == old(h.live) - {ap - 1} && h.arena == old(h.arena)
      ensures KeepsLive(old(mem), mem, h.live) && freep == old(h.ring)[k].at
    {
      k := Release(ap - 1);
    }

    /** The header of new memory, which makes it a block like one in use. */
    method Adopt(at: nat, nu: nat)
      requires Valid() && freep != 0 && nu > 0 && FreshCore(h, at, nu)
      modifies `mem, `h
      ensures Valid() && freep != 0 && KeepsLive(old(mem), mem, old(h.live))
      ensures at !in old(h.live) && h.live == old(h.live)[at := nu] && h.arena == old(h.arena) + Area(at, nu)
    {
      CoreDone(h, mem, at, nu);
      mem := SetSize(mem, at, nu);
      h := h.(live := h.live[at := nu], arena := h.arena + Area(at, nu));
    }

    static lemma LiveBack(live: map<nat, nat>, at: nat, nu: nat)
      requires at !in live
      ensures live[at := nu] - {at} == live
    {
    }

    /** The end of morecore: nu units at `at` get a header and are freed. */
    method Donate(at: nat, nu: nat)
      requires Valid() && freep != 0 && nu > 0 && FreshCore(h, at, nu)
      modifies `mem, `freep, `h, `pos
      ensures Valid() && freep != 0 && h.live == old(h.live) && KeepsLive(old(mem), mem, h.live)
      ensures h.arena == old(h.arena) + Area(at, nu) && HasRoom(h.ring, pos, nu)
    {
      ghost var live, mem0 := h.live, mem;
      Adopt(at, nu);
      ghost var mem1 := mem;
      ghost var _ := Release(at);
      LiveBack(live, at, nu);
      KeepsTwice(mem0, mem1, mem, live);
    }

    /** morecore: the memory asked of sbrk is freed, so that the list has room for nu units; `core` is what
        sbrk answers, if it does not fail. */
    method Morecore(nu: nat, core: Option<nat>) returns (r: Option<nat>)
      requires Valid() && freep != 0 && (core.Some? ==> FreshCore(h, core.value, CoreUnits(nu)))
      modifies `mem, `freep, `h, `pos, `own
      ensures Valid() && freep != 0 && h.live == old(h.live) && KeepsLive(old(mem), mem, h.live)
      ensures core.None? ==> r.None? && h == old(h) && mem == old(mem)
      ensures own == Owning(old(own), core, SbrkArg(nu))
      ensures core.Some? ==>
                && r == Some(freep) && h.arena == old(h.arena) + Area(core.value, CoreUnits(nu))
                && HasRoom(h.ring, pos, nu)
    {
      own := Owning(own, core, SbrkArg(nu));
      if core.None? {
        return None;
      }
      Donate(core.value, CoreUnits(nu));
      r := Some(freep);
    }

    /** The first call of malloc: a list of base alone. */
    method Start()
      requires Valid()
      modifies `mem, `freep, `pos
      ensures Valid() && freep != 0 && KeepsLive(old(mem), mem, h.live)
      ensures pos == old(pos) || forall n :: n > 0 ==> AllSmall(h.ring, n)
    {
      if freep == 0 {
        mem := mem[base := Header(base, 0)];
        freep := base;
        pos := 0;
        assert LinkAt(mem, h.ring, 0);
      }
    }

    /** The last n units of the block p, which follows prevp, leave the list. */
    method Split(prevp: nat, p: nat, n: nat) returns (q: nat)
      requires prevp in mem && p in mem && n <= mem[p].size
      modifies `mem
      ensures mem == CutMem(old(mem), prevp, p, n) && q == p + old(mem)[p].size - n
    {
      q := p;
      if mem[p].size == n {
        mem := mem[prevp := mem[prevp].(ptr := mem[p].ptr)];
      } else {
        mem := mem[p := mem[p].(size := mem[p].size - n)];
        q := p + mem[p].size;
        mem := SetSize(mem, q, n);
      }
    }

    /** malloc's way out: n units of the block p, which follows prevp. */
    method Carve(prevp: nat, p: nat, n: nat, ghost j: nat, ghost k: nat) returns (q: nat)
      requires Valid() && freep != 0 && Cutting(h, k, n)
      requires j < |h.ring| && k == Next(h.ring, j) && prevp == h.ring[j].at && p == h.ring[k].at
      modifies `mem, `freep, `h, `pos
      ensures Valid() && freep != 0 && h.arena == old(h.arena) && KeepsLive(old(mem), mem, old(h.live))
      ensures q !in old(h.live) && h.live == old(h.live)[q := n]
      ensures q == CutAt(old(h.ring), k, n) && h.ring == Cut(old(h.ring), k, n) && pos == j && freep == prevp
    {
      LinkedNext(mem, h.ring, j);
      LinkedNext(mem, h.ring, k);
      ghost var h0, mem0 := h, mem;
      q := Split(prevp, p, n);
      h := Heap(base, Cut(h.ring, k, n), h.live[q := n], h.arena);
      freep := prevp;
      pos := j;
      CutDone(h0, h, mem0, mem, j, k, n, q);
    }

    /** malloc's walk from the block after freep to one of n units, p with prevp before it, or back to freep. */
    method Walk(n: nat) returns (found: bool, prevp: nat, p: nat, ghost j: nat, ghost i: nat)
      requires Valid() && freep != 0 && n > 0
      ensures found <==> !AllSmall(h.ring, n)
      ensures found ==>
                Cutting(h, i, n) && j < |h.ring| && i == Next(h.ring, j) && prevp == h.ring[j].at && p == h.ring[i].at
      ensures found ==> Passed(h.ring, i, pos, n)
    {
      LinkedNext(mem, h.ring, pos);
      prevp, p := freep, mem[freep].ptr;
      j, i := pos, Next(h.ring, pos);
      StepOn(h.ring, pos, pos, n);
      LinkedNext(mem, h.ring, i);
      while mem[p].size < n
        invariant j < |h.ring| && i == Next(h.ring, j) && prevp == h.ring[j].at && p == h.ring[i].at && p in mem
        invariant mem[p].size == h.ring[i].n
        invariant Passed(h.ring, i, pos, n)
        decreases Steps(h.ring, i, pos)
      {
        if p == freep {
          AllSeen(h, i, pos, n);
          return false, prevp, p, j, i;
        }
        StepOn(h.ring, i, pos, n);
        LinkedNext(mem, h.ring, i);
        prevp, p := p, mem[p].ptr;
        j, i := i, Next(h.ring, i);
        LinkedNext(mem, h.ring, i);
      }
      found := true;
    }

    /** malloc's loop: a walk, and after a vain one morecore and a walk from the new freep. It asks sbrk for
        memory exactly when no free block is large enough, and never twice. */
    method Search(n: nat, core: Option<nat>)
      returns (found: bool, prevp: nat, p: nat, ghost asked: bool, ghost j: nat, ghost i: nat)
      requires Valid() && freep != 0 && n > 0 && (core.Some? ==> FreshCore(h, core.value, CoreUnits(n)))
      modifies `mem, `freep, `h, `pos, `own
      ensures Valid() && freep != 0 && h.live == old(h.live) && KeepsLive(old(mem), mem, h.live)
      ensures own == if asked then Owning(old(own), core, SbrkArg(n)) else old(own)
      ensures (asked <==> AllSmall(old(h.ring), n)) && (found <==> !asked || core.Some?)
      ensures !asked || !found ==> h == old(h)
      ensures asked && found ==> h.arena == old(h.arena) + Area(core.value, CoreUnits(n))
      ensures found ==>
                Cutting(h, i, n) && j < |h.ring| && i == Next(h.ring, j) && prevp == h.ring[j].at && p == h.ring[i].at
      ensures !asked ==> FirstFit(old(h.ring), old(pos), i, n)
    {
      ghost var mem0, h0 := mem, h;
      asked := false;
      found, prevp, p, j, i := Walk(n);
      while !found
        invariant Valid() && freep != 0 && KeepsLive(mem0, mem, h.live) && h.live == h0.live
        invariant found <==> !AllSmall(h.ring, n)
        invariant found ==>
                    && Cutting(h, i, n) && j < |h.ring| && i == Next(h.ring, j) && prevp == h.ring[j].at
                    && p == h.ring[i].at
        invariant own == if asked then Owning(old(own), core, SbrkArg(n)) else old(own)
        invariant !asked ==> h == h0 && pos == old(pos) && (found ==> Passed(h.ring, i, pos, n))
        invariant asked ==>
                    AllSmall(h0.ring, n) && found && core.Some? && h.arena == h0.arena + Area(core.value, CoreUnits(n))
        decreases !asked
      {
        ghost var mem1 := mem;
        var q := Morecore(n, core);
        asked := true;
        KeepsTwice(mem0, mem1, mem, h.live);
        if q.None? {
          return;
        }
        found, prevp, p, j, i := Walk(n);
      }
    }

    /** malloc: it fails only if sbrk does. The block it returns was not live, has the units asked for,
        and no other block in use is touched. Without help from sbrk it is the end of the first free block
        after freep that is large enough, and the next search begins behind the one before it. With its help,
        the block has room for the request and all memory of all blocks is there exactly if the request is
        no larger than MAXREQUEST. When sbrk fails, nothing is lost unless it has been asked for a negative
        size. */
    method Malloc(nbytes: nat, core: Option<nat>) returns (r: Option<nat>, ghost asked: bool, ghost k: nat)
      requires Valid() && nbytes < UINT
      requires core.Some? ==> FreshCore(h, core.value, CoreUnits(Units(nbytes))) && core.value !in own
      modifies `mem, `freep, `h, `pos, `own
      ensures Valid() && KeepsLive(old(mem), mem, old(h.live))
      ensures (asked <==> AllSmall(old(h.ring), Units(nbytes))) && (r.None? <==> asked && core.None?)
      ensures r.None? ==> h == old(h)
      ensures h.arena == old(h.arena) + if asked && core.Some? then Area(core.value, CoreUnits(Units(nbytes))) else {}
      ensures r.Some? ==> Gained(old(h.live), h.live, r.value, Units(nbytes))
      ensures !asked ==> FirstFit(old(h.ring), old(pos), k, Units(nbytes)) && JustBefore(old(h.ring), freep, k)
      ensures !asked ==>
                r == Some(CutAt(old(h.ring), k, Units(nbytes)) + 1) && h.ring == Cut(old(h.ring), k, Units(nbytes))
      ensures !asked ==> r.value - 1 + Units(nbytes) == old(h.ring)[k].at + old(h.ring)[k].n
      ensures own == if asked then Owning(old(own), core, SbrkArg(Units(nbytes))) else old(own)
      ensures old(Backed()) && asked && core.Some? ==> (Backed() && Holds(nbytes) <==> nbytes <= MAXREQUEST)
      ensures old(Backed()) && asked && core.None? ==>
                (Backed() <==> nbytes <= MAXREQUEST || nbytes > LASTNEGATIVE || h.arena == {})
      ensures old(Backed()) && !asked ==> Backed()
    {
      ghost var arena, own0 := h.arena, own;
      var q;
      q, asked, k := Serve(Units(nbytes), core);
      if asked && core.Some? && arena <= own0 {
        MallocBacked(arena, own0, h.arena, own, core.value, nbytes);
      }
      NegativeRequest(nbytes);
      r := if q.None? then None else Some(q.value + 1);
    }

    /** malloc for n units: the header of the block. */
    method Serve(n: nat, core: Option<nat>) returns (q: Option<nat>, ghost asked: bool, ghost k: nat)
      requires Valid() && n > 0 && (core.Some? ==> FreshCore(h, core.value, CoreUnits(n)))
      modifies `mem, `freep, `h, `pos, `own
      ensures Valid() && KeepsLive(old(mem), mem, old(h.live))
      ensures own == if asked then Owning(old(own), core, SbrkArg(n)) else old(own)
      ensures (asked <==> AllSmall(old(h.ring), n)) && (q.None? <==> asked && core.None?)
      ensures q.None? ==> h == old(h)
      ensures h.arena == old(h.arena) + if asked && core.Some? then Area(core.value, CoreUnits(n)) else {}
      ensures q.Some? ==> q.value !in old(h.live) && h.live == old(h.live)[q.value := n]
      ensures !asked ==> FirstFit(old(h.ring), old(pos), k, n) && JustBefore(old(h.ring), freep, k)
      ensures !asked ==> q == Some(CutAt(old(h.ring), k, n)) && h.ring == Cut(old(h.ring), k, n)
    {
      ghost var mem0, live := mem, h.live;
      Start();
      ghost var mem1 := mem;
      q, asked, k := Take(n, core);
      KeepsTwice(mem0, mem1, mem, live);
    }

    /** malloc's loop and its way out, for n units: the header of the block. */
    method Take(n: nat, core: Option<nat>) returns (q: Option<nat>, ghost asked: bool, ghost k: nat)
      requires Valid() && freep != 0 && n > 0 && (core.Some? ==> FreshCore(h, core.value, CoreUnits(n)))
      modifies `mem, `freep, `h, `pos, `own
      ensures Valid() && KeepsLive(old(mem), mem, old(h.live))
      ensures own == if asked then Owning(old(own), core, SbrkArg(n)) else old(own)
      ensures (asked <==> AllSmall(old(h.ring), n)) && (q.None? <==> asked && core.None?)
      ensures q.None? ==> h == old(h)
      ensures h.arena == old(h.arena) + if asked && core.Some? then Area(core.value, CoreUnits(n)) else {}
      ensures q.Some? ==> q.value !in old(h.live) && h.live == old(h.live)[q.value := n]
      ensures !asked ==> FirstFit(old(h.ring), old(pos), k, n) && JustBefore(old(h.ring), freep, k)
      ensures !asked ==> q == Some(CutAt(old(h.ring), k, n)) && h.ring == Cut(old(h.ring), k, n)
    {
      ghost var mem0, live := mem, h.live;
      var found, prevp, p;
      ghost var j;
      found, prevp, p, asked, j, k := Search(n, core);
      if !found {
        return None, asked, 0;
      }
      ghost var mem1 := mem;
      var b := Carve(prevp, p, n, j, k);
      KeepsTwice(mem0, mem1, mem, live);
      q := Some(b);
    }
  }
}
