/** kalloc.c and vm.c: building, copying and tearing down address spaces. Sizes are in bytes; v is the
    number of a virtual page. */
module Vm {
  import opened Common
  import opened Blocks
  import opened VmState

  /** The page table entry for virtual page v. */
  function At(m: Mem, d: nat, v: nat): Pte {
    Lookup(m, d, v / NENT, v % NENT)
  }

  function ViewAt(m: Mem, d: nat, v: nat): Option<(nat, Page)> {
    View(m, d, v / NENT, v % NENT)
  }

  lemma SamePage(v: nat, w: nat)
    ensures v / NENT == w / NENT && v % NENT == w % NENT <==> v == w
  {
  }

  /** In space d only page v may be mapped differently. */
  ghost predicate SameBut(m: Mem, m': Mem, d: nat, v: nat) {
    && IsDir(m', d)
    && (forall w: nat :: w != v ==> At(m', d, w) == At(m, d, w))
    && (forall w: nat :: w != v && w < KERNPAGES ==> ViewAt(m', d, w) == ViewAt(m, d, w))
  }

  lemma SameIsSameBut(m: Mem, m': Mem, d: nat, v: nat)
    requires Same(m, m', d) && IsDir(m, d)
    ensures SameBut(m, m', d, v) && At(m', d, v) == At(m, d, v)
  {
    forall w: nat
      ensures At(m', d, w) == At(m, d, w)
      ensures w < KERNPAGES ==> ViewAt(m', d, w) == ViewAt(m, d, w)
    {
      if w / NENT >= NENT {
        assert !HasTable(m, d, w / NENT) && !HasTable(m', d, w / NENT);
      }
    }
  }

  lemma MapUserBut(m: Mem, d: nat, v: nat, f: nat, flags: nat)
    requires Good(m) && v < KERNPAGES && HasTable(m, d, v / NENT) && InHand(m, f)
    ensures var m' := MapUser(m, d, v / NENT, v % NENT, f, flags);
            SameBut(m, m', d, v) && At(m', d, v) == Pte(true, f, flags) && ViewAt(m', d, v) == Some((flags, m.pages[f]))
  {
    var m' := MapUser(m, d, v / NENT, v % NENT, f, flags);
    MapUserSees(m, d, v / NENT, v % NENT, f, flags, v / NENT, v % NENT);
    forall w: nat | w != v
      ensures At(m', d, w) == At(m, d, w)
      ensures w < KERNPAGES ==> ViewAt(m', d, w) == ViewAt(m, d, w)
    {
      SamePage(v, w);
      if w / NENT < NENT {
        MapUserSees(m, d, v / NENT, v % NENT, f, flags, w / NENT, w % NENT);
      }
    }
    SetPteHas(m, m', d, v / NENT, v % NENT, Pte(true, f, flags), d, 0);
  }

  lemma MapKernelBut(m: Mem, d: nat, v: nat, frame: nat, flags: nat)
    requires Good(m) && KERNPAGES <= v && HasTable(m, d, v / NENT)
    ensures var m' := MapKernel(m, d, v / NENT, v % NENT, frame, flags);
            SameBut(m, m', d, v) && At(m', d, v) == Pte(true, frame, flags)
  {
    var m' := MapKernel(m, d, v / NENT, v % NENT, frame, flags);
    MapKernelSees(m, d, v / NENT, v % NENT, frame, flags, v / NENT, v % NENT);
    forall w: nat | w != v
      ensures At(m', d, w) == At(m, d, w)
      ensures w < KERNPAGES ==> ViewAt(m', d, w) == ViewAt(m, d, w)
    {
      SamePage(v, w);
      if w / NENT < NENT {
        MapKernelSees(m, d, v / NENT, v % NENT, frame, flags, w / NENT, w % NENT);
      }
    }
    SetPteHas(m, m', d, v / NENT, v % NENT, Pte(true, frame, flags), d, 0);
  }

  function Junk(): Page {
    Data(seq(PGSIZE, _ => 1))
  }

  /** PGROUNDUP, as a number of pages. */
  function PageUp(sz: nat): nat {
    (sz + PGSIZE - 1) / PGSIZE
  }

  /** The pages below it are those that have a byte below sz. */
  lemma PageUpIs(sz: nat, v: nat)
    ensures v < PageUp(sz) <==> v * PGSIZE < sz
  {
  }

  /** The byte at address a of space d, if it is mapped. */
  function ByteAt(m: Mem, d: nat, a: nat): Option<Byte> {
    var x := ViewAt(m, d, a / PGSIZE);
    if x.Some? && x.value.1.Data? && a % PGSIZE < |x.value.1.bytes| then Some(x.value.1.bytes[a % PGSIZE]) else None
  }

  lemma SameByte(m: Mem, d: nat, m': Mem, d': nat, a: nat)
    requires ViewAt(m, d, a / PGSIZE) == ViewAt(m', d', a / PGSIZE)
    ensures ByteAt(m, d, a) == ByteAt(m', d', a)
  {
  }

  /** The address where the page of address a begins. */
  function PageStart(a: nat): nat {
    a / PGSIZE * PGSIZE
  }

  predicate UserIn(o: Owner, d: nat, lo: nat, hi: nat) {
    o.User? && o.d == d && lo <= NENT * o.i + o.j < hi
  }

  /** The user pages that space d maps at lo, ..., hi - 1. */
  function UserPages(m: Mem, d: nat, lo: nat, hi: nat): set<nat> {
    set f | f in m.owner && UserIn(m.owner[f], d, lo, hi)
  }

  /** The user pages of d from lo to v - 1 have been given back, and that is all. */
  ghost predicate Gone(m0: Mem, m: Mem, d: nat, lo: nat, v: nat) {
    && Good(m) && Others(m0, m, d) && IsDir(m, d) && |m.pages| == |m0.pages|
    && m.owner == m0.owner - UserPages(m0, d, lo, v)
    && FreeSet(m) == FreeSet(m0) + UserPages(m0, d, lo, v)
    && (forall w: nat :: if lo <= w < v then !At(m, d, w).present else At(m, d, w) == At(m0, d, w))
    && (forall w: nat :: w < KERNPAGES && !(lo <= w < v) ==> ViewAt(m, d, w) == ViewAt(m0, d, w))
    && (forall i: nat :: HasTable(m, d, i) <==> HasTable(m0, d, i))
  }

  lemma GoneNothing(m: Mem, d: nat, lo: nat)
    requires Good(m) && IsDir(m, d)
    ensures Gone(m, m, d, lo, lo)
  {
    assert UserPages(m, d, lo, lo) == {};
    assert m.owner - {} == m.owner;
  }

  /** A user page is where its owner says. */
  lemma UserPageAt(m: Mem, f: nat)
    requires Good(m) && f in m.owner && m.owner[f].User?
    ensures var o := m.owner[f]; At(m, o.d, NENT * o.i + o.j).present && At(m, o.d, NENT * o.i + o.j).frame == f
  {
    assert FrameOk(m, f);
    PageAt(m.owner[f].i, m.owner[f].j);
  }

  lemma NoPages(m: Mem, d: nat, lo: nat, v: nat, v': nat)
    requires Good(m) && lo <= v <= v' && forall w :: v <= w < v' ==> !At(m, d, w).present
    ensures UserPages(m, d, lo, v') == UserPages(m, d, lo, v)
  {
    forall f | f in m.owner && UserIn(m.owner[f], d, lo, v')
      ensures UserIn(m.owner[f], d, lo, v)
    {
      UserPageAt(m, f);
    }
  }

  /** A page that is not there takes nothing. */
  lemma GoneAbsent(m0: Mem, m: Mem, d: nat, lo: nat, v: nat, v': nat)
    requires Good(m0) && Gone(m0, m, d, lo, v) && lo <= v <= v'
    requires forall w :: v <= w < v' ==> !At(m0, d, w).present
    ensures Gone(m0, m, d, lo, v')
  {
    NoPages(m0, d, lo, v, v');
  }

  lemma GoneHere(m0: Mem, m: Mem, d: nat, lo: nat, v: nat)
    requires Good(m0) && Gone(m0, m, d, lo, v) && lo <= v && !At(m, d, v).present
    ensures Gone(m0, m, d, lo, v + 1)
  {
    assert At(m, d, v) == At(m0, d, v);
    GoneAbsent(m0, m, d, lo, v, v + 1);
  }

  /** deallocuvm's jump: where there is no page table there are no pages up to the next one. */
  lemma GoneJump(m0: Mem, m: Mem, d: nat, lo: nat, v: nat, v': nat)
    requires Good(m0) && Gone(m0, m, d, lo, v) && lo <= v <= v' <= (v / NENT + 1) * NENT && !HasTable(m, d, v / NENT)
    ensures Gone(m0, m, d, lo, v')
  {
    forall w | v <= w < v'
      ensures !At(m0, d, w).present
    {
      assert w / NENT == v / NENT;
    }
    GoneAbsent(m0, m, d, lo, v, v');
  }

  /** The page at v goes back to the free list. */
  function Release(m: Mem, d: nat, v: nat): Mem
    requires HasTable(m, d, v / NENT) && At(m, d, v).frame < |m.pages|
  {
    Push(Unmap(m, d, v / NENT, v % NENT), At(m, d, v).frame, Junk())
  }

  lemma ReleaseGood(m: Mem, d: nat, v: nat)
    requires Good(m) && v < KERNPAGES && HasTable(m, d, v / NENT) && At(m, d, v).present
    ensures var f := At(m, d, v).frame;
            && 0 < f < |m.pages| && f != TableOf(m, d, v / NENT) && f in m.owner
               && m.owner[f] == User(d, v / NENT, v % NENT)
            && Good(Release(m, d, v)) && Others(m, Release(m, d, v), d) && FreeSet(Release(m, d, v)) == FreeSet(m) + {f}
  {
    var m1 := Unmap(m, d, v / NENT, v % NENT);
    OnePage(m, d, v / NENT, d, v / NENT, v % NENT);
    UnmapGood(m, d, v / NENT, v % NENT);
    PushGood(m1, At(m, d, v).frame, Junk());
    OthersTwice(m, m1, Release(m, d, v), d);
  }

  lemma ReleaseSees(m: Mem, d: nat, v: nat)
    requires Good(m) && v < KERNPAGES && HasTable(m, d, v / NENT) && At(m, d, v).present
    requires At(m, d, v).frame < |m.pages|
    ensures SameBut(m, Release(m, d, v), d, v) && !At(Release(m, d, v), d, v).present
  {
    var m1, m2 := Unmap(m, d, v / NENT, v % NENT), Release(m, d, v);
    OnePage(m, d, v / NENT, d, v / NENT, v % NENT);
    UnmapGood(m, d, v / NENT, v % NENT);
    PushGood(m1, At(m, d, v).frame, Junk());
    SetPteHas(m, m1, d, v / NENT, v % NENT, Absent, d, v / NENT);
    SameIsSameBut(m1, m2, d, v);
    UnmapSees(m, d, v / NENT, v % NENT, v / NENT, v % NENT);
    forall w: nat | w != v
      ensures At(m1, d, w) == At(m, d, w)
      ensures w < KERNPAGES ==> ViewAt(m1, d, w) == ViewAt(m, d, w)
    {
      SamePage(v, w);
      if w / NENT < NENT {
        UnmapSees(m, d, v / NENT, v % NENT, w / NENT, w % NENT);
      }
    }
  }

  lemma ReleaseTables(m: Mem, d: nat, v: nat, i: nat)
    requires Good(m) && v < KERNPAGES && HasTable(m, d, v / NENT) && At(m, d, v).present
    requires At(m, d, v).frame < |m.pages|
    ensures HasTable(Release(m, d, v), d, i) <==> HasTable(m, d, i)
  {
    var m1 := Unmap(m, d, v / NENT, v % NENT);
    OnePage(m, d, v / NENT, d, v / NENT, v % NENT);
    assert FrameOk(m, d);
    if i < NENT {
      SetPteHas(m, m1, d, v / NENT, v % NENT, Absent, d, i);
      assert m.pages[d].e[i].present ==> FrameOk(m, m.pages[d].e[i].frame);
    }
  }

  lemma GoneMore(m0: Mem, m: Mem, d: nat, lo: nat, v: nat)
    requires Good(m0) && Gone(m0, m, d, lo, v) && lo <= v < KERNPAGES && HasTable(m, d, v / NENT) && At(m, d, v).present
    ensures At(m, d, v).frame < |m.pages| && Gone(m0, Release(m, d, v), d, lo, v + 1)
  {
    ReleaseGood(m, d, v);
    ReleaseSees(m, d, v);
    forall i: nat
      ensures HasTable(Release(m, d, v), d, i) <==> HasTable(m, d, i)
    {
      ReleaseTables(m, d, v, i);
    }
    OthersTwice(m0, m, Release(m, d, v), d);
    PageGone(m0, m, d, lo, v, At(m, d, v).frame);
    GoneStep(m0, m, Release(m, d, v), d, lo, v, At(m, d, v).frame);
  }

  lemma GoneStep(m0: Mem, m: Mem, m': Mem, d: nat, lo: nat, v: nat, f: nat)
    requires Gone(m0, m, d, lo, v) && lo <= v && Good(m') && Others(m0, m', d) && |m'.pages| == |m.pages|
    requires m'.owner == m.owner - {f} && FreeSet(m') == FreeSet(m) + {f}
    requires UserPages(m0, d, lo, v + 1) == UserPages(m0, d, lo, v) + {f}
    requires SameBut(m, m', d, v) && !At(m', d, v).present && forall i: nat :: HasTable(m', d, i) <==> HasTable(m, d, i)
    ensures Gone(m0, m', d, lo, v + 1)
  {
  }

  lemma PageGone(m0: Mem, m: Mem, d: nat, lo: nat, v: nat, f: nat)
    requires Good(m0) && Good(m) && m.owner == m0.owner - UserPages(m0, d, lo, v) && lo <= v
    requires f in m.owner && m.owner[f] == User(d, v / NENT, v % NENT)
    ensures UserPages(m0, d, lo, v + 1) == UserPages(m0, d, lo, v) + {f}
  {
    forall g | g in m0.owner && UserIn(m0.owner[g], d, lo, v + 1)
      ensures UserIn(m0.owner[g], d, lo, v) || g == f
    {
      UserPageAt(m0, g);
      UserPageAt(m0, f);
    }
  }

  lemma PageAt(i: nat, j: nat)
    requires j < NENT
    ensures (NENT * i + j) / NENT == i && (NENT * i + j) % NENT == j
  {
  }

  /** An entry of kmap: n pages from virtual page v on, mapped to the physical pages from pa on. */
  datatype Region = Region(v: nat, n: nat, pa: nat, perm: nat)

  predicate Covers(r: Region, w: nat) {
    r.v <= w < r.v + r.n
  }

  /** The regions lie in the kernel part and do not overlap. */
  ghost predicate KmapOk(kmap: seq<Region>) {
    && (forall k :: 0 <= k < |kmap| ==>
         0 < kmap[k].n && KERNPAGES <= kmap[k].v && (kmap[k].v + kmap[k].n - 1) / NENT < NENT)
    && (forall k, l, w: nat :: 0 <= k < l < |kmap| && Covers(kmap[k], w) ==> !Covers(kmap[l], w))
  }

  /** The entry that the regions ask for. */
  function KernPte(kmap: seq<Region>, w: nat): Pte {
    if kmap == [] then Absent
    else
      var r := kmap[|kmap| - 1];
      if Covers(r, w) then Pte(true, r.pa + (w - r.v), r.perm) else KernPte(kmap[..|kmap| - 1], w)
  }

  lemma {:induction false} KernPteNone(kmap: seq<Region>, w: nat)
    requires forall k :: 0 <= k < |kmap| ==> !Covers(kmap[k], w)
    ensures KernPte(kmap, w) == Absent
  {
    if kmap != [] {
      KernPteNone(kmap[..|kmap| - 1], w);
    }
  }

  lemma KmapNext(kmap: seq<Region>, k: nat)
    requires KmapOk(kmap) && k < |kmap|
    ensures forall w: nat :: KernPte(kmap[..k + 1], w) ==
                               if Covers(kmap[k], w) then Pte(true, kmap[k].pa + (w - kmap[k].v), kmap[k].perm)
                               else KernPte(kmap[..k], w)
    ensures forall w: nat :: Covers(kmap[k], w) ==> KernPte(kmap[..k], w) == Absent
  {
    assert kmap[..k + 1][..k] == kmap[..k];
    forall w: nat | Covers(kmap[k], w)
      ensures KernPte(kmap[..k], w) == Absent
    {
      KernPteNone(kmap[..k], w);
    }
  }

  /** d is a new space in m, made of pages that were free in m0; all else is as in m0. */
  ghost predicate NewSpace(m0: Mem, m: Mem, d: nat) {
    && d !in m0.owner && IsDir(m, d) && Others(m0, m, d) && |m.pages| == |m0.pages|
    && FreeSet(m) + Space(m, d) == FreeSet(m0) && m.owner - Space(m, d) == m0.owner
  }

  lemma NewDirDone(m0: Mem, m: Mem, d: nat)
    requires Good(m0) && m0.free != [] && d == m0.free[0] && m == m0.(free := m0.free[1..])
    ensures d < |m.pages|
    ensures var m' := m.(pages := m.pages[d := ZeroTable()], owner := m.owner[d := Dir]);
            Good(m') && NewSpace(m0, m', d) && forall w: nat :: At(m', d, w) == Absent
  {
    PopGood(m0);
    var m1 := m.(pages := m.pages[d := ZeroTable()]);
    FillGood(m, d, ZeroTable());
    var m' := m1.(owner := m1.owner[d := Dir]);
    forall f | f in m'.owner
      ensures FrameOk(m', f)
    {
      assert f != d ==> FrameOk(m1, f);
    }
    NewDirOthers(m0, m, m1, m', d);
    assert Space(m', d) == {d} by {
      NewDirSpace(m1, m', d);
    }
    assert m'.owner - {d} == m0.owner;
  }

  lemma NewDirSpace(m: Mem, m': Mem, d: nat)
    requires Good(m) && d !in m.owner && m'.owner == m.owner[d := Dir]
    ensures Space(m', d) == {d}
  {
    forall f | f in m.owner
      ensures !Of(m', f, d)
    {
      assert FrameOk(m, f);
    }
  }

  lemma NewDirOthers(m0: Mem, m: Mem, m1: Mem, m': Mem, d: nat)
    requires Good(m1) && SameAll(m0, m) && SameAll(m, m1) && d !in m0.owner && m' == m1.(owner := m1.owner[d := Dir])
    ensures Others(m0, m', d)
  {
    forall x | IsDir(m0, x) && x != d
      ensures Same(m0, m', x)
    {
      assert Same(m0, m, x) && Same(m, m1, x);
    }
  }

  /** Work on the new space leaves it a new space. */
  lemma NewSpaceStays(m0: Mem, m: Mem, m': Mem, d: nat)
    requires NewSpace(m0, m, d) && Others(m, m', d) && IsDir(m', d) && Conserved(m, {}, m', {}, d)
    ensures NewSpace(m0, m', d)
  {
    OthersTwice(m0, m, m', d);
  }

  lemma OthersNew(m0: Mem, m: Mem, d: nat)
    requires d !in m0.owner && Others(m0, m, d)
    ensures SameAll(m0, m)
  {
  }

  /** A new space that is freed leaves everything as it was. */
  lemma SpaceFreed(m0: Mem, m: Mem, m': Mem, d: nat)
    requires NewSpace(m0, m, d) && Others(m, m', d) && m'.owner == m.owner - Space(m, d)
    requires FreeSet(m') == FreeSet(m) + Space(m, d)
    ensures m'.owner == m0.owner && FreeSet(m') == FreeSet(m0) && SameAll(m0, m')
  {
    OthersTwice(m0, m, m', d);
    OthersNew(m0, m', d);
  }

  lemma SameTwice(m: Mem, m1: Mem, m2: Mem)
    requires SameAll(m, m1) && SameAll(m1, m2)
    ensures SameAll(m, m2)
  {
    forall x | IsDir(m, x)
      ensures Same(m, m2, x)
    {
      assert Same(m, m1, x) && Same(m1, m2, x);
    }
  }

  /** copyuvm's loop has come to page v: the pages below are copies, in pages that were free, of what p has
      there; above them there is nothing but the kernel's part. */
  ghost predicate Copying(m0: Mem, m: Mem, p: nat, d: nat, kmap: seq<Region>, v: nat) {
    && NewSpace(m0, m, d)
    && (forall w: nat :: w < v ==>
         At(m, d, w).present && At(m, d, w).frame in FreeSet(m0) && ViewAt(m, d, w) == ViewAt(m0, p, w))
    && (forall w: nat :: v <= w < KERNPAGES ==> !At(m, d, w).present)
    && (forall w: nat :: KERNPAGES <= w ==> At(m, d, w) == KernPte(kmap, w))
  }

  lemma ParentPage(m0: Mem, m: Mem, p: nat, v: nat)
    requires Good(m) && IsDir(m0, p) && Same(m0, m, p) && v < KERNPAGES && At(m0, p, v).present
    ensures var pte := At(m, p, v);
            && HasTable(m, p, v / NENT) && pte.frame < |m.pages| && IsData(m.pages[pte.frame])
            && pte.frame in m.owner
            && ViewAt(m0, p, v) == Some((pte.flags, m.pages[pte.frame]))
  {
    SameIsSameBut(m0, m, p, v);
    OnePage(m, p, v / NENT, p, v / NENT, v % NENT);
    assert FrameOk(m, At(m, p, v).frame);
    assert View(m, p, v / NENT, v % NENT) == View(m0, p, v / NENT, v % NENT);
  }

  lemma HandBack(m0: Mem, m: Mem, m2: Mem, m': Mem, d: nat, f: nat)
    requires NewSpace(m0, m, d) && SameAll(m, m2) && SameAll(m2, m') && m2.owner == m.owner && m'.owner == m.owner
    requires |m'.pages| == |m.pages|
    requires f in FreeSet(m) && FreeSet(m2) == FreeSet(m) - {f} && FreeSet(m') == FreeSet(m2) + {f}
    ensures NewSpace(m0, m', d)
  {
    SameTwice(m, m2, m');
    OthersTwice(m0, m, m', d);
    assert Same(m, m', d);
    assert Space(m', d) == Space(m, d);
  }

  lemma CopyDone(m0: Mem, m: Mem, m2: Mem, m': Mem, p: nat, d: nat, kmap: seq<Region>, v: nat, f: nat)
    requires Copying(m0, m, p, d, kmap, v) && v < KERNPAGES && SameAll(m, m2) && m2.owner == m.owner
    requires |m2.pages| == |m.pages|
    requires f in FreeSet(m) && FreeSet(m2) == FreeSet(m) - {f}
    requires IsDir(m', d) && Others(m2, m', d) && Conserved(m2, {f}, m', {}, d)
    requires forall w: nat :: w != v ==> At(m', d, w) == At(m2, d, w)
    requires forall w: nat :: w != v && w < KERNPAGES ==> ViewAt(m', d, w) == ViewAt(m2, d, w)
    requires At(m', d, v).present && At(m', d, v).frame == f && ViewAt(m', d, v) == ViewAt(m0, p, v)
    ensures Copying(m0, m', p, d, kmap, v + 1)
  {
    OthersTwice(m0, m, m2, d);
    OthersTwice(m0, m2, m', d);
    assert Space(m2, d) == Space(m, d);
    SameIsSameBut(m, m2, d, v);
  }

  lemma CopyStart(m0: Mem, m: Mem, p: nat, d: nat, kmap: seq<Region>)
    requires NewSpace(m0, m, d) && KmapOk(kmap) && forall w: nat :: At(m, d, w) == KernPte(kmap, w)
    ensures Copying(m0, m, p, d, kmap, 0)
  {
    forall w: nat | w < KERNPAGES
      ensures !At(m, d, w).present
    {
      KernPteNone(kmap, w);
    }
  }

  const USERFLAGS: nat := 6 // PTE_W | PTE_U

  /** allocuvm's loop has come from page lo to page v: these pages are mapped, each to a page of zeroes, and
      nothing else is different; the pages of `hand` are in hand. */
  ghost predicate Growing(m0: Mem, m: Mem, d: nat, lo: nat, v: nat, hand: set<nat>) {
    && IsDir(m0, d) && IsDir(m, d) && Others(m0, m, d) && Conserved(m0, {}, m, hand, d)
    && (forall w: nat :: lo <= w < v ==> At(m, d, w).present && ViewAt(m, d, w) == Some((USERFLAGS, ZeroPage())))
    && (forall w: nat :: !(lo <= w < v) ==> At(m, d, w) == At(m0, d, w))
    && (forall w: nat :: w < KERNPAGES && !(lo <= w < v) ==> ViewAt(m, d, w) == ViewAt(m0, d, w))
  }

  /** What allocuvm does, in bytes: the pages that begin at oldsz or later and below newsz are mapped, writable
      for the user and full of zeroes; every other page, the one with byte oldsz - 1 among them, is as it was. */
  ghost predicate NewBytes(m0: Mem, m: Mem, d: nat, oldsz: nat, newsz: nat) {
    && (forall v: nat :: oldsz <= v * PGSIZE < newsz ==> At(m, d, v).present && At(m, d, v).flags == 6)
    && (forall v: nat :: !(oldsz <= v * PGSIZE < newsz) ==> At(m, d, v) == At(m0, d, v))
    && (forall a: nat :: oldsz <= PageStart(a) < newsz ==> ByteAt(m, d, a) == Some(0))
    && (forall a: nat :: a < KERNPAGES * PGSIZE && !(oldsz <= PageStart(a) < newsz) ==>
         ByteAt(m, d, a) == ByteAt(m0, d, a))
  }

  lemma GrowingBytes(m0: Mem, m: Mem, d: nat, oldsz: nat, newsz: nat)
    requires Growing(m0, m, d, PageUp(oldsz), PageUp(newsz), {})
    ensures NewBytes(m0, m, d, oldsz, newsz)
  {
    forall v: nat
      ensures oldsz <= v * PGSIZE < newsz <==> PageUp(oldsz) <= v < PageUp(newsz)
      ensures oldsz <= v * PGSIZE < newsz ==> At(m, d, v).present && At(m, d, v).flags == 6
      ensures !(oldsz <= v * PGSIZE < newsz) ==> At(m, d, v) == At(m0, d, v)
    {
      PageUpIs(oldsz, v);
      PageUpIs(newsz, v);
    }
    forall a: nat
      ensures oldsz <= PageStart(a) < newsz ==> ByteAt(m, d, a) == Some(0)
      ensures a < KERNPAGES * PGSIZE && !(oldsz <= PageStart(a) < newsz) ==> ByteAt(m, d, a) == ByteAt(m0, d, a)
    {
      PageUpIs(oldsz, a / PGSIZE);
      PageUpIs(newsz, a / PGSIZE);
      if !(oldsz <= PageStart(a) < newsz) && a < KERNPAGES * PGSIZE {
        SameByte(m, d, m0, d, a);
      }
    }
  }

  /** What deallocuvm does, in bytes: the pages that begin at newsz or later and below oldsz are gone; a page
      with a byte below newsz stays, and so does its contents. */
  ghost predicate LessBytes(m0: Mem, m: Mem, d: nat, newsz: nat, oldsz: nat) {
    && (forall v: nat :: newsz <= v * PGSIZE < oldsz ==> !At(m, d, v).present)
    && (forall v: nat :: !(newsz <= v * PGSIZE < oldsz) ==> At(m, d, v) == At(m0, d, v))
    && (forall a: nat :: a < KERNPAGES * PGSIZE && !(newsz <= PageStart(a) < oldsz) ==>
         ByteAt(m, d, a) == ByteAt(m0, d, a))
  }

  lemma GoneBytes(m0: Mem, m: Mem, d: nat, newsz: nat, oldsz: nat)
    requires Gone(m0, m, d, PageUp(newsz), PageUp(oldsz))
    ensures LessBytes(m0, m, d, newsz, oldsz)
  {
    forall v: nat
      ensures newsz <= v * PGSIZE < oldsz ==> !At(m, d, v).present
      ensures !(newsz <= v * PGSIZE < oldsz) ==> At(m, d, v) == At(m0, d, v)
    {
      PageUpIs(oldsz, v);
      PageUpIs(newsz, v);
    }
    forall a: nat | a < KERNPAGES * PGSIZE && !(newsz <= PageStart(a) < oldsz)
      ensures ByteAt(m, d, a) == ByteAt(m0, d, a)
    {
      PageUpIs(oldsz, a / PGSIZE);
      PageUpIs(newsz, a / PGSIZE);
      SameByte(m, d, m0, d, a);
    }
  }

  /** What copyuvm does, in bytes: every byte below sz, and the flags of its page; nothing above. */
  ghost predicate SameBytes(m0: Mem, p: nat, m: Mem, d: nat, sz: nat) {
    && (forall a: nat :: a < sz ==> At(m, d, a / PGSIZE).present && ByteAt(m, d, a) == ByteAt(m0, p, a))
    && (forall a: nat :: a < sz ==> At(m, d, a / PGSIZE).flags == At(m0, p, a / PGSIZE).flags)
    && (forall v: nat :: sz <= v * PGSIZE < KERNPAGES * PGSIZE ==> !At(m, d, v).present)
  }

  lemma CopyingBytes(m0: Mem, m: Mem, p: nat, d: nat, kmap: seq<Region>, sz: nat)
    requires Good(m0) && Copying(m0, m, p, d, kmap, PageUp(sz))
    ensures SameBytes(m0, p, m, d, sz)
  {
    forall a: nat | a < sz
      ensures At(m, d, a / PGSIZE).present && ByteAt(m, d, a) == ByteAt(m0, p, a)
      ensures At(m, d, a / PGSIZE).flags == At(m0, p, a / PGSIZE).flags
    {
      PageUpIs(sz, a / PGSIZE);
      SameByte(m, d, m0, p, a);
    }
    forall v: nat | sz <= v * PGSIZE < KERNPAGES * PGSIZE
      ensures !At(m, d, v).present
    {
      PageUpIs(sz, v);
    }
  }

  /** A page is taken from the free list, and nothing else changes. */
  lemma GrowingTakes(m0: Mem, m: Mem, m2: Mem, d: nat, lo: nat, v: nat, f: nat)
    requires Growing(m0, m, d, lo, v, {}) && v <= KERNPAGES && SameAll(m, m2) && m2.owner == m.owner
    requires |m2.pages| == |m.pages|
    requires f in FreeSet(m) && FreeSet(m2) == FreeSet(m) - {f}
    ensures Growing(m0, m2, d, lo, v, {f})
  {
    OthersTwice(m0, m, m2, d);
    SameIsSameBut(m, m2, d, v);
    assert Space(m2, d) == Space(m, d);
    assert v < KERNPAGES ==> ViewAt(m2, d, v) == ViewAt(m, d, v) by {
      assert Same(m, m2, d);
    }
  }

  lemma GrowingMore(m0: Mem, m: Mem, m2: Mem, m': Mem, d: nat, lo: nat, v: nat, f: nat)
    requires Growing(m0, m, d, lo, v, {}) && lo <= v < KERNPAGES && SameAll(m, m2) && m2.owner == m.owner
    requires |m2.pages| == |m.pages|
    requires f in FreeSet(m) && FreeSet(m2) == FreeSet(m) - {f}
    requires IsDir(m', d) && Others(m2, m', d) && Conserved(m2, {f}, m', {}, d)
    requires forall w: nat :: w != v ==> At(m', d, w) == At(m2, d, w)
    requires forall w: nat :: w != v && w < KERNPAGES ==> ViewAt(m', d, w) == ViewAt(m2, d, w)
    requires At(m', d, v).present && ViewAt(m', d, v) == Some((USERFLAGS, ZeroPage()))
    ensures Growing(m0, m', d, lo, v + 1, {})
  {
    OthersTwice(m0, m, m2, d);
    OthersTwice(m0, m2, m', d);
    assert Space(m2, d) == Space(m, d);
    SameIsSameBut(m, m2, d, v);
  }

  /** Space d maps what it mapped in m0, and no page is lost but those in hand. */
  ghost predicate Restored(m0: Mem, m: Mem, d: nat, hand: set<nat>) {
    && Conserved(m0, {}, m, hand, d)
    && (forall w: nat :: At(m, d, w).present <==> At(m0, d, w).present)
    && (forall w: nat :: At(m, d, w).present ==> At(m, d, w) == At(m0, d, w))
    && (forall w: nat :: w < KERNPAGES ==> ViewAt(m, d, w) == ViewAt(m0, d, w))
  }

  lemma AbsentView(m: Mem, d: nat, w: nat)
    requires !At(m, d, w).present
    ensures ViewAt(m, d, w) == None
  {
  }

  lemma GoneConserves(m: Mem, m': Mem, d: nat, lo: nat, hi: nat)
    requires Gone(m, m', d, lo, hi)
    ensures Conserved(m, {}, m', {}, d)
  {
    assert Space(m', d) == Space(m, d) - UserPages(m, d, lo, hi);
    assert UserPages(m, d, lo, hi) <= Space(m, d);
  }

  lemma GoneInHand(m: Mem, m': Mem, d: nat, lo: nat, hi: nat, f: nat)
    requires Gone(m, m', d, lo, hi) && InHand(m, f)
    ensures InHand(m', f)
  {
    assert f !in FreeSet(m');
  }

  /** The page in hand goes back. */
  lemma RestoredBack(m0: Mem, m: Mem, m': Mem, d: nat, f: nat)
    requires Restored(m0, m, d, {f}) && Others(m0, m, d) && IsDir(m, d) && SameAll(m, m') && m'.owner == m.owner
    requires |m'.pages| == |m.pages|
    requires FreeSet(m') == FreeSet(m) + {f}
    ensures Restored(m0, m', d, {}) && Others(m0, m', d) && IsDir(m', d)
  {
    OthersTwice(m0, m, m', d);
    assert Space(m', d) == Space(m, d);
    assert Same(m, m', d);
    forall w: nat
      ensures At(m', d, w) == At(m, d, w) && (w < KERNPAGES ==> ViewAt(m', d, w) == ViewAt(m, d, w))
    {
      SameIsSameBut(m, m', d, w);
    }
  }

  /** What allocuvm has mapped, deallocuvm takes away. */
  lemma GrowthUndone(m0: Mem, m: Mem, m': Mem, d: nat, lo: nat, v: nat, hi: nat, hand: set<nat>)
    requires Growing(m0, m, d, lo, v, hand) && Gone(m, m', d, lo, hi) && lo <= v <= hi
    requires forall w :: lo <= w < hi ==> !At(m0, d, w).present
    ensures Restored(m0, m', d, hand) && Others(m0, m', d)
  {
    GoneConserves(m, m', d, lo, hi);
    OthersTwice(m0, m, m', d);
    forall w: nat
      ensures At(m', d, w).present <==> At(m0, d, w).present
      ensures At(m', d, w).present ==> At(m', d, w) == At(m0, d, w)
      ensures w < KERNPAGES ==> ViewAt(m', d, w) == ViewAt(m0, d, w)
    {
      if lo <= w < hi {
        AbsentView(m0, d, w);
        AbsentView(m', d, w);
      }
    }
  }

  class Kernel {
    const kmap: seq<Region>
    var free: seq<nat>  // kmem.freelist
    var pages: seq<Page>
    ghost var owner: map<nat, Owner>

    ghost function M(): Mem
      reads this
    {
      Mem(free, pages, owner)
    }

    /** n physical pages, none of them free yet. */
    constructor (kmap: seq<Region>, n: nat)
      ensures this.kmap == kmap && |pages| == n && Good(M()) && FreeSet(M()) == {} && owner == map[]
    {
      this.kmap := kmap;
      free, pages, owner := [], seq(n, _ => ZeroPage()), map[];
    }

    /** freerange: the pages lo, ..., hi - 1 become free. */
    method Freerange(lo: nat, hi: nat)
      requires Good(M()) && lo <= hi && forall f :: lo <= f < hi ==> InHand(M(), f)
      modifies `free, `pages
      ensures Good(M()) && SameAll(old(M()), M())
      ensures forall f :: f in free <==> f in old(free) || lo <= f < hi
    {
      ghost var m0 := M();
      var p := lo;
      while p < hi
        invariant lo <= p <= hi && Good(M()) && SameAll(m0, M()) && |pages| == |m0.pages|
        invariant forall f :: f in free <==> f in m0.free || lo <= f < p
      {
        ghost var m := M();
        assert InHand(m0, p);
        PushGood(m, p, Junk());
        Kfree(p);
        SameTwice(m0, m, M());
        p := p + 1;
      }
    }

    /** kalloc. */
    method Kalloc() returns (r: Option<nat>)
      requires Good(M())
      modifies `free
      ensures r.None? <==> old(free) == []
      ensures r.None? ==> M() == old(M())
      ensures r.Some? ==>
                && r.value == old(free)[0] && free == old(free)[1..] && Good(M()) && InHand(M(), r.value)
                && SameAll(old(M()), M())
      ensures r.Some? ==> FreeSet(M()) == FreeSet(old(M())) - {r.value} && r.value in FreeSet(old(M()))
    {
      if free == [] {
        return None;
      }
      PopGood(M());
      r := Some(free[0]);
      free := free[1..];
    }

    /** kfree: the page, filled with junk, is first in the free list. */
    method Kfree(f: nat)
      requires 0 < f < |pages|
      modifies `free, `pages
      ensures M() == Push(old(M()), f, Junk())
    {
      pages := pages[f := Junk()];
      free := [f] + free;
    }

    /** walkpgdir with alloc == 0: the page table for directory entry i, if there is one. */
    method FindTable(d: nat, i: nat) returns (t: Option<nat>)
      requires Good(M()) && IsDir(M(), d) && i < NENT
      ensures t.Some? <==> HasTable(M(), d, i)
      ensures t.Some? ==> TableOf(M(), d, i) == t.value
    {
      if pages[d].e[i].present {
        assert FrameOk(M(), d);
        assert FrameOk(M(), pages[d].e[i].frame);
        return Some(pages[d].e[i].frame);
      }
      return None;
    }

    /** walkpgdir with alloc != 0: the page table for directory entry i. One that has to be made costs one
        page and changes no mapping; if there is no page, nothing changes. */
    method Walkpgdir(d: nat, i: nat) returns (t: Option<nat>)
      requires Good(M()) && IsDir(M(), d) && i < NENT
      modifies this
      ensures Good(M()) && SameAll(old(M()), M()) && Conserved(old(M()), {}, M(), {}, d)
      ensures t.None? ==> M() == old(M()) && free == []
      ensures t.Some? ==> HasTable(M(), d, i) && TableOf(M(), d, i) == t.value
      ensures forall f :: InHand(old(M()), f) ==> StillInHand(old(M()), M(), f)
    {
      t := FindTable(d, i);
      if t.Some? {
        return;
      }
      ghost var m0 := M();
      assert FrameOk(m0, d);
      assert pages[d].e[i].present ==> FrameOk(m0, pages[d].e[i].frame);
      t := Kalloc();
      if t.Some? {
        AddTableDone(m0, M(), d, i, t.value);
        pages := pages[t.value := ZeroTable()];
        pages := pages[d := Table(pages[d].e[i := Pte(true, t.value, TABLEFLAGS)])];
        owner := owner[t.value := Tab(d, i)];
      }
    }

    /** One round of mappages: page v of space d is mapped to `frame`, unless there is no page left for its
        page table, and then nothing changes. */
    method MapPage(d: nat, v: nat, frame: nat, perm: nat) returns (ok: bool)
      requires Good(M()) && IsDir(M(), d) && v / NENT < NENT && !At(M(), d, v).present
      requires v < KERNPAGES ==> InHand(M(), frame) && IsData(M().pages[frame])
      modifies this
      ensures Good(M()) && Others(old(M()), M(), d) && IsDir(M(), d)
      ensures !ok ==> M() == old(M()) && free == []
      ensures ok ==> SameBut(old(M()), M(), d, v) && At(M(), d, v) == Pte(true, frame, perm)
      ensures ok && v < KERNPAGES ==> ViewAt(M(), d, v) == Some((perm, old(M()).pages[frame]))
      ensures ok ==> Conserved(old(M()), if v < KERNPAGES then {frame} else {}, M(), {}, d)
    {
      ghost var m0 := M();
      var t := Walkpgdir(d, v / NENT);
      if t.None? {
        return false;
      }
      ghost var m := M();
      MapPageDone(m0, m, d, v, frame, perm);
      pages := pages[t.value := Table(pages[t.value].e[v % NENT := Pte(true, frame, perm)])];
      if v < KERNPAGES {
        owner := owner[frame := User(d, v / NENT, v % NENT)];
      }
      ok := true;
    }

    /** mappages for n pages from v on: the pages of the kernel part, or one user page. If it fails, the free
        list is empty and the pages mapped so far stay mapped. */
    method Mappages(d: nat, v: nat, n: nat, pa: nat, perm: nat) returns (ok: bool)
      requires Good(M()) && IsDir(M(), d) && 0 < n && (v + n - 1) / NENT < NENT && (n == 1 || KERNPAGES <= v)
      requires forall w :: v <= w < v + n ==> !At(M(), d, w).present
      requires v < KERNPAGES ==> InHand(M(), pa) && IsData(M().pages[pa])
      modifies this
      ensures Good(M()) && Others(old(M()), M(), d) && IsDir(M(), d)
      ensures !ok ==> free == [] && (n == 1 ==> M() == old(M()))
      ensures forall w: nat :: !(v <= w < v + n) ==> At(M(), d, w) == At(old(M()), d, w)
      ensures forall w: nat :: !(v <= w < v + n) && w < KERNPAGES ==> ViewAt(M(), d, w) == ViewAt(old(M()), d, w)
      ensures ok ==> forall w :: v <= w < v + n ==> At(M(), d, w) == Pte(true, pa + (w - v), perm)
      ensures ok && v < KERNPAGES ==> ViewAt(M(), d, v) == Some((perm, old(M()).pages[pa]))
      ensures Conserved(old(M()), if v < KERNPAGES then {pa} else {}, M(), if v < KERNPAGES && !ok then {pa} else {}, d)
    {
      ghost var m0 := M();
      var k := 0;
      while k < n
        invariant k <= n && Good(M()) && Others(m0, M(), d) && IsDir(M(), d)
        invariant forall w: nat :: !(v <= w < v + k) ==> At(M(), d, w) == At(m0, d, w)
        invariant forall w: nat :: !(v <= w < v + k) && w < KERNPAGES ==> ViewAt(M(), d, w) == ViewAt(m0, d, w)
        invariant forall w :: v <= w < v + k ==> At(M(), d, w) == Pte(true, pa + (w - v), perm)
        invariant k == 0 ==> M() == m0
        invariant k > 0 && v < KERNPAGES ==> ViewAt(M(), d, v) == Some((perm, m0.pages[pa]))
        invariant Conserved(m0, if v < KERNPAGES then {pa} else {}, M(),
                            if v < KERNPAGES && k == 0 then {pa} else {}, d)
      {
        ghost var m := M();
        ok := MapPage(d, v + k, pa + k, perm);
        if !ok {
          return;
        }
        OthersTwice(m0, m, M(), d);
        k := k + 1;
      }
      ok := true;
    }

    /** One round of deallocuvm's loop, and the page where the next one begins. */
    method DeallocNext(d: nat, v: nat, ghost m0: Mem, ghost lo: nat, ghost hi: nat) returns (v': nat, ghost u: nat)
      requires Good(m0) && Gone(m0, M(), d, lo, v) && lo <= v < hi <= KERNPAGES
      modifies this
      ensures v < v' && u == (if v' <= hi then v' else hi) && Gone(m0, M(), d, lo, u)
    {
      var t := FindTable(d, v / NENT);
      v' := v + 1;
      u := v + 1;
      if t.None? {
        v' := (v / NENT + 1) * NENT;
        u := if v' <= hi then v' else hi;
        GoneJump(m0, M(), d, lo, v, u);
      } else {
        DeallocPage(d, v, t.value, m0, lo);
      }
    }

    /** deallocuvm at a page that has a page table, t. */
    method DeallocPage(d: nat, v: nat, t: nat, ghost m0: Mem, ghost lo: nat)
      requires Good(m0) && Gone(m0, M(), d, lo, v) && lo <= v < KERNPAGES && HasTable(M(), d, v / NENT)
      requires TableOf(M(), d, v / NENT) == t
      modifies this
      ensures Gone(m0, M(), d, lo, v + 1)
    {
      if pages[t].e[v % NENT].present {
        GoneMore(m0, M(), d, lo, v);
        ReleasePage(d, v, t);
      } else {
        GoneHere(m0, M(), d, lo, v);
      }
    }

    /** deallocuvm: the user pages from newsz to oldsz go back to the free list, as if each page had been
        looked at, although ranges without a page table are jumped over. */
    method Deallocuvm(d: nat, oldsz: nat, newsz: nat) returns (r: nat)
      requires Good(M()) && IsDir(M(), d) && oldsz <= KERNPAGES * PGSIZE
      modifies this
      ensures newsz >= oldsz ==> r == oldsz && M() == old(M())
      ensures newsz < oldsz ==> r == newsz && Gone(old(M()), M(), d, PageUp(newsz), PageUp(oldsz))
      ensures newsz < oldsz ==> LessBytes(old(M()), M(), d, newsz, oldsz)
    {
      if newsz >= oldsz {
        return oldsz;
      }
      ghost var m0 := M();
      var lo, hi := PageUp(newsz), PageUp(oldsz);
      var v := lo;
      ghost var u := lo;
      GoneNothing(m0, d, lo);
      while v < hi
        invariant lo <= v && u == (if v <= hi then v else hi) && Gone(m0, M(), d, lo, u)
      {
        v, u := DeallocNext(d, v, m0, lo, hi);
      }
      GoneBytes(m0, M(), d, newsz, oldsz);
      r := newsz;
    }

    /** The page of entry v % NENT of table t goes back to the free list. */
    method ReleasePage(d: nat, v: nat, t: nat)
      requires Good(M()) && v < KERNPAGES && HasTable(M(), d, v / NENT) && TableOf(M(), d, v / NENT) == t
      requires At(M(), d, v).present
      requires At(M(), d, v).frame < |pages|
      modifies this
      ensures M() == Release(old(M()), d, v)
    {
      ReleaseGood(M(), d, v);
      var f := pages[t].e[v % NENT].frame;
      Kfree(f);
      pages := pages[t := Table(pages[t].e[v % NENT := Absent])];
      owner := owner - {f};
      assert pages == Release(old(M()), d, v).pages;
    }

    /** freevm: every page of space d goes back to the free list. */
    method Freevm(d: nat)
      requires Good(M()) && IsDir(M(), d)
      modifies this
      ensures Good(M()) && Others(old(M()), M(), d) && |pages| == |old(pages)|
      ensures owner == old(owner) - Space(old(M()), d) && FreeSet(M()) == FreeSet(old(M())) + Space(old(M()), d)
    {
      ghost var m0 := M();
      var _ := Deallocuvm(d, KERNPAGES * PGSIZE, 0);
      ghost var m1 := M();
      DropGood(m1, d);
      owner := owner - Space(m1, d);
      FreeTables(d, m1);
      ghost var m2 := M();
      PushGood(m2, d, Junk());
      Kfree(d);
      FreevmDone(m0, m1, m2, M(), d);
    }

    /** freevm's loop over the page directory. */
    method FreeTables(d: nat, ghost m1: Mem)
      requires Good(m1) && IsDir(m1, d) && M() == m1.(owner := m1.owner - Space(m1, d)) && Good(M())
      modifies `free, `pages
      ensures Good(M()) && Others(m1, M(), d) && |pages| == |m1.pages| && InHand(M(), d)
      ensures FreeSet(M()) == FreeSet(m1) + Tables(m1, d, NENT)
    {
      ghost var m := M();
      SpaceInHand(m1, m, d);
      DropOthers(m1, d);
      assert Tables(m1, d, 0) == {};
      var i := 0;
      while i < NENT
        invariant i <= NENT && owner == m.owner && Good(M()) && Others(m1, M(), d) && |pages| == |m1.pages|
        invariant pages[d] == m1.pages[d]
        invariant FreeSet(M()) == FreeSet(m1) + Tables(m1, d, i)
      {
        TablesMore(m1, d, i);
        if pages[d].e[i].present {
          var t := pages[d].e[i].frame;
          ghost var m2 := M();
          PushGood(m2, t, Junk());
          Kfree(t);
          OthersTwice(m1, m2, M(), d);
        }
        i := i + 1;
      }
      assert d !in Tables(m1, d, NENT) && d !in FreeSet(m1);
      assert d !in FreeSet(M());
    }

    /** setupkvm: a new space with the kernel's mappings and nothing else; if it fails, the free pages are
        what they were. */
    method Setupkvm() returns (r: Option<nat>)
      requires Good(M()) && KmapOk(kmap)
      modifies this
      ensures Good(M()) && SameAll(old(M()), M()) && |pages| == |old(pages)|
      ensures r.None? ==> owner == old(owner) && FreeSet(M()) == FreeSet(old(M()))
      ensures r.Some? ==> NewSpace(old(M()), M(), r.value) && forall w: nat :: At(M(), r.value, w) == KernPte(kmap, w)
    {
      ghost var m0 := M();
      r := Kalloc();
      if r.None? {
        return;
      }
      var d := r.value;
      NewDirDone(m0, M(), d);
      pages := pages[d := ZeroTable()];
      owner := owner[d := Dir];
      var ok := MapKernelPart(d, m0);
      if !ok {
        ghost var m := M();
        Freevm(d);
        SpaceFreed(m0, m, M(), d);
        r := None;
      } else {
        OthersNew(m0, M(), d);
      }
    }

    /** setupkvm's loop over kmap. */
    method MapKernelPart(d: nat, ghost m0: Mem) returns (ok: bool)
      requires Good(m0) && Good(M()) && NewSpace(m0, M(), d) && KmapOk(kmap) && forall w: nat :: At(M(), d, w) == Absent
      modifies this
      ensures Good(M()) && NewSpace(m0, M(), d)
      ensures ok ==> forall w: nat :: At(M(), d, w) == KernPte(kmap, w)
    {
      var k := 0;
      while k < |kmap|
        invariant k <= |kmap| && Good(M()) && NewSpace(m0, M(), d)
        invariant forall w: nat :: At(M(), d, w) == KernPte(kmap[..k], w)
      {
        ghost var m := M();
        KmapNext(kmap, k);
        ok := Mappages(d, kmap[k].v, kmap[k].n, kmap[k].pa, kmap[k].perm);
        NewSpaceStays(m0, m, M(), d);
        if !ok {
          return;
        }
        k := k + 1;
      }
      assert kmap[..k] == kmap;
      ok := true;
    }

    /** One round of copyuvm's loop: page v of space p is copied into the new space d. If a page is missing,
        nothing is lost. */
    method CopyPage(p: nat, d: nat, v: nat, ghost next: nat, ghost m0: Mem) returns (ok: bool)
      requires Good(m0) && Good(M()) && IsDir(m0, p) && Copying(m0, M(), p, d, kmap, v)
      requires next == v + 1 <= KERNPAGES && At(m0, p, v).present
      modifies this
      ensures Good(M()) && NewSpace(m0, M(), d)
      ensures ok ==> Copying(m0, M(), p, d, kmap, next)
    {
      ghost var m := M();
      var pa, flags := ParentEntry(p, d, v, m0);
      var mem := Kalloc();
      if mem.None? {
        return false;
      }
      ok := PlaceCopy(p, d, v, next, mem.value, pa, flags, m0, m);
    }

    /** walkpgdir in the parent, where page v is present. */
    method ParentEntry(p: nat, ghost d: nat, v: nat, ghost m0: Mem) returns (pa: nat, flags: nat)
      requires Good(M()) && IsDir(m0, p) && Copying(m0, M(), p, d, kmap, v) && v < KERNPAGES && At(m0, p, v).present
      ensures pa < |pages| && IsData(pages[pa]) && pa in owner && ViewAt(m0, p, v) == Some((flags, pages[pa]))
    {
      ghost var m := M();
      assert Same(m0, m, p);
      ParentPage(m0, m, p, v);
      pa, flags := Entry(p, v);
    }

    /** The page table entry for page v, which has a page table. */
    method Entry(p: nat, v: nat) returns (pa: nat, flags: nat)
      requires Good(M()) && v < KERNPAGES && HasTable(M(), p, v / NENT)
      ensures pa == At(M(), p, v).frame && flags == At(M(), p, v).flags
    {
      var t := FindTable(p, v / NENT);
      pa, flags := pages[t.value].e[v % NENT].frame, pages[t.value].e[v % NENT].flags;
    }

    /** The copy of page pa into page f, and f into space d. */
    method PlaceCopy(ghost p: nat, d: nat, v: nat, ghost next: nat, f: nat, pa: nat, flags: nat, ghost m0: Mem,
                     ghost m: Mem)
      returns (ok: bool)
      requires Copying(m0, m, p, d, kmap, v) && next == v + 1 <= KERNPAGES
      requires Good(M()) && SameAll(m, M()) && owner == m.owner
      requires |pages| == |m.pages|
      requires InHand(M(), f) && f in FreeSet(m) && FreeSet(M()) == FreeSet(m) - {f}
      requires pa < |pages| && IsData(pages[pa]) && ViewAt(m0, p, v) == Some((flags, pages[pa]))
      modifies this
      ensures Good(M()) && NewSpace(m0, M(), d)
      ensures ok ==> Copying(m0, M(), p, d, kmap, next)
    {
      ghost var m1 := M();
      FillGood(m1, f, pages[pa]);
      pages := pages[f := pages[pa]];
      ghost var m2 := M();
      SameTwice(m, m1, m2);
      SameIsSameBut(m, m2, d, v);
      ok := Mappages(d, v, 1, f, flags);
      if !ok {
        PushGood(m2, f, Junk());
        Kfree(f);
        HandBack(m0, m, m2, M(), d, f);
      } else {
        CopyDone(m0, m, m2, M(), p, d, kmap, v, f);
      }
    }

    /** copyuvm: a new space whose pages below sz have the same bytes and flags as p's, each in a page of its
        own; if it fails, the free pages are what they were, and so is all else. */
    method Copyuvm(p: nat, sz: nat) returns (r: Option<nat>)
      requires Good(M()) && KmapOk(kmap) && IsDir(M(), p) && sz <= KERNPAGES * PGSIZE
      requires forall v: nat :: v * PGSIZE < sz ==> At(M(), p, v).present
      modifies this
      ensures Good(M()) && SameAll(old(M()), M())
      ensures r.None? ==> owner == old(owner) && FreeSet(M()) == FreeSet(old(M()))
      ensures r.Some? ==> Copying(old(M()), M(), p, r.value, kmap, PageUp(sz))
      ensures r.Some? ==> SameBytes(old(M()), p, M(), r.value, sz)
    {
      ghost var m0 := M();
      r := Setupkvm();
      if r.None? {
        return;
      }
      var d := r.value;
      CopyStart(m0, M(), p, d, kmap);
      var v := 0;
      while v < PageUp(sz)
        invariant v <= PageUp(sz) && Good(M()) && Copying(m0, M(), p, d, kmap, v)
      {
        PageUpIs(sz, v);
        var ok := CopyPage(p, d, v, v + 1, m0);
        if !ok {
          ghost var m := M();
          Freevm(d);
          SpaceFreed(m0, m, M(), d);
          return None;
        }
        v := v + 1;
      }
      OthersNew(m0, M(), d);
      CopyingBytes(m0, M(), p, d, kmap, sz);
    }

    /** One round of allocuvm's loop. If it fails nothing is mapped, and `mem` is the page in hand, if kalloc
        had one. */
    method AllocPage(d: nat, v: nat, ghost m0: Mem, ghost lo: nat) returns (ok: bool, mem: Option<nat>)
      requires Good(M()) && Growing(m0, M(), d, lo, v, {}) && lo <= v < KERNPAGES && !At(m0, d, v).present
      modifies this
      ensures Good(M())
      ensures ok ==> Growing(m0, M(), d, lo, v + 1, {})
      ensures !ok ==>
                && Growing(m0, M(), d, lo, v, if mem.Some? then {mem.value} else {})
                && (mem.Some? ==> InHand(M(), mem.value))
    {
      ghost var m := M();
      mem := Kalloc();
      if mem.None? {
        return false, None;
      }
      ghost var m1 := M();
      FillGood(m1, mem.value, ZeroPage());
      pages := pages[mem.value := ZeroPage()];
      ghost var m2 := M();
      SameTwice(m, m1, m2);
      SameIsSameBut(m, m2, d, v);
      GrowingTakes(m0, m, m2, d, lo, v, mem.value);
      ok := Mappages(d, v, 1, mem.value, USERFLAGS);
      if ok {
        GrowingMore(m0, m, m2, M(), d, lo, v, mem.value);
      }
    }

    /** allocuvm's way out when it fails: what it has mapped goes, and then the page in hand. */
    method Undo(d: nat, oldsz: nat, newsz: nat, mem: Option<nat>, ghost m0: Mem, ghost v: nat)
      requires Good(M()) && oldsz < newsz < KERNPAGES * PGSIZE && PageUp(oldsz) <= v <= PageUp(newsz)
      requires Growing(m0, M(), d, PageUp(oldsz), v, if mem.Some? then {mem.value} else {})
      requires mem.Some? ==> InHand(M(), mem.value)
      requires forall w: nat :: PageUp(oldsz) <= w < PageUp(newsz) ==> !At(m0, d, w).present
      modifies this
      ensures Good(M()) && Restored(m0, M(), d, {}) && Others(m0, M(), d) && IsDir(M(), d)
    {
      ghost var m := M();
      var _ := Deallocuvm(d, newsz, oldsz);
      ghost var m1 := M();
      GrowthUndone(m0, m, m1, d, PageUp(oldsz), v, PageUp(newsz), if mem.Some? then {mem.value} else {});
      if mem.Some? {
        GoneInHand(m, m1, d, PageUp(oldsz), PageUp(newsz), mem.value);
        PushGood(m1, mem.value, Junk());
        Kfree(mem.value);
        RestoredBack(m0, m1, M(), d, mem.value);
      }
    }

    /** allocuvm: the pages from oldsz to newsz are mapped, to pages of zeroes; if it fails, space d maps
        exactly what it did. */
    method Allocuvm(d: nat, oldsz: nat, newsz: nat) returns (r: nat, ghost ok: bool)
      requires Good(M()) && IsDir(M(), d)
      requires newsz < KERNPAGES * PGSIZE ==> forall v: nat :: oldsz <= v * PGSIZE < newsz ==> !At(M(), d, v).present
      modifies this
      ensures Good(M()) && Others(old(M()), M(), d) && IsDir(M(), d)
      ensures newsz >= KERNPAGES * PGSIZE || newsz < oldsz ==> M() == old(M())
      ensures r == if !ok then 0 else if newsz < oldsz then oldsz else newsz
      ensures newsz >= KERNPAGES * PGSIZE ==> !ok
      ensures ok && newsz >= oldsz ==> Growing(old(M()), M(), d, PageUp(oldsz), PageUp(newsz), {})
      ensures ok && newsz >= oldsz ==> NewBytes(old(M()), M(), d, oldsz, newsz)
      ensures !ok ==> Restored(old(M()), M(), d, {})
    {
      ghost var m0 := M();
      if newsz >= KERNPAGES * PGSIZE {
        return 0, false;
      }
      if newsz < oldsz {
        return oldsz, true;
      }
      var v, hi := PageUp(oldsz), PageUp(newsz);
      forall w: nat | v <= w < hi
        ensures !At(m0, d, w).present
      {
        PageUpIs(oldsz, w);
        PageUpIs(newsz, w);
      }
      while v < hi
        invariant PageUp(oldsz) <= v <= hi && Good(M()) && Growing(m0, M(), d, PageUp(oldsz), v, {})
      {
        var done, mem := AllocPage(d, v, m0, PageUp(oldsz));
        if !done {
          Undo(d, oldsz, newsz, mem, m0, v);
          return 0, false;
        }
        v := v + 1;
      }
      GrowingBytes(m0, M(), d, oldsz, newsz);
      return newsz, true;
    }
  }

  const TABLEFLAGS: nat := 6 // PTE_W | PTE_U

  /** A page from the free list becomes a page table. */
  lemma AddTableDone(m0: Mem, m: Mem, d: nat, i: nat, t: nat)
    requires Good(m0) && IsDir(m0, d) && i < NENT && !m0.pages[d].e[i].present && m0.free != [] && t == m0.free[0]
    requires m == m0.(free := m0.free[1..]) && InHand(m, t) && Good(m)
    ensures var m' := AddTable(m, d, i, t, TABLEFLAGS);
            && Good(m') && SameAll(m0, m') && Conserved(m0, {}, m', {}, d) && HasTable(m', d, i)
               && TableOf(m', d, i) == t && t != d
            && forall f :: InHand(m0, f) ==> StillInHand(m0, m', f)
  {
    var m' := AddTable(m, d, i, t, TABLEFLAGS);
    PopGood(m0);
    AddTableGood(m, d, i, t, TABLEFLAGS);
    AddTableHas(m, d, i, t, TABLEFLAGS, d, i);
    forall x | IsDir(m0, x)
      ensures Same(m0, m', x)
    {
      AddTableSame(m, d, i, t, TABLEFLAGS, x);
    }
    TakeConserves(m0, m', d, t, Tab(d, i));
  }

  /** A free page becomes the space's own. */
  lemma TakeConserves(m: Mem, m': Mem, d: nat, f: nat, o: Owner)
    requires |m'.pages| == |m.pages| && f !in m.owner && m'.owner == m.owner[f := o] && !o.Dir? && o.d == d
    requires f in FreeSet(m) && FreeSet(m') == FreeSet(m) - {f}
    ensures Conserved(m, {}, m', {}, d)
  {
    OwnerMore(m, m', d, f, o);
  }

  lemma OwnerMore(m: Mem, m': Mem, d: nat, f: nat, o: Owner)
    requires f !in m.owner && m'.owner == m.owner[f := o] && !o.Dir? && o.d == d
    ensures Space(m', d) == Space(m, d) + {f} && m'.owner - Space(m', d) == m.owner - Space(m, d)
  {
    assert forall g :: g != f ==> (Of(m', g, d) <==> Of(m, g, d));
  }

  /** The page table entry for page v is set; the page it maps becomes the space's own if it is a user page. */
  function Mapped(m: Mem, d: nat, v: nat, frame: nat, perm: nat): Mem
    requires HasTable(m, d, v / NENT)
  {
    if v < KERNPAGES then MapUser(m, d, v / NENT, v % NENT, frame, perm)
      else MapKernel(m, d, v / NENT, v % NENT, frame, perm)
  }

  lemma MapPageDone(m0: Mem, m: Mem, d: nat, v: nat, frame: nat, perm: nat)
    requires Good(m0) && IsDir(m0, d) && Good(m) && SameAll(m0, m) && Conserved(m0, {}, m, {}, d)
    requires HasTable(m, d, v / NENT)
    requires !At(m0, d, v).present
    requires v < KERNPAGES ==> InHand(m0, frame) && IsData(m0.pages[frame]) && StillInHand(m0, m, frame)
    ensures var m' := Mapped(m, d, v, frame, perm);
            && Good(m') && Others(m0, m', d) && SameBut(m0, m', d, v) && At(m', d, v) == Pte(true, frame, perm)
            && (v < KERNPAGES ==> ViewAt(m', d, v) == Some((perm, m0.pages[frame])))
            && Conserved(m0, if v < KERNPAGES then {frame} else {}, m', {}, d)
  {
    var m' := Mapped(m, d, v, frame, perm);
    SameIsSameBut(m0, m, d, v);
    if v < KERNPAGES {
      MapUserGood(m, d, v / NENT, v % NENT, frame, perm);
      MapUserBut(m, d, v, frame, perm);
      OwnerMore(m, m', d, frame, User(d, v / NENT, v % NENT));
    } else {
      MapKernelGood(m, d, v / NENT, v % NENT, frame, perm);
      MapKernelBut(m, d, v, frame, perm);
      assert Space(m', d) == Space(m, d);
    }
    OthersTwice(m0, m, m', d);
  }

  predicate StillInHand(m0: Mem, m: Mem, f: nat) {
    InHand(m, f) && f < |m0.pages| && m.pages[f] == m0.pages[f]
  }

  /** The page tables of d's first i directory entries. */
  function Tables(m: Mem, d: nat, i: nat): set<nat> {
    set f | f in m.owner && m.owner[f].Tab? && m.owner[f].d == d && m.owner[f].i < i
  }

  /** Space d, left to itself, is no concern of the others. */
  lemma DropGood(m: Mem, d: nat)
    requires Good(m) && IsDir(m, d)
    ensures Good(m.(owner := m.owner - Space(m, d)))
  {
    var m' := m.(owner := m.owner - Space(m, d));
    forall f | f in m'.owner
      ensures FrameOk(m', f)
    {
      assert FrameOk(m, f);
      assert !Of(m, f, d);
      match m.owner[f] {
        case Dir =>
        case Tab(x, i) => assert FrameOk(m, x);
        case User(x, i, j) => assert FrameOk(m, x);
      }
    }
  }

  lemma DropOthers(m: Mem, d: nat)
    requires Good(m) && IsDir(m, d)
    ensures Others(m, m.(owner := m.owner - Space(m, d)), d)
  {
  }

  lemma SpaceInHand(m: Mem, m': Mem, d: nat)
    requires Good(m) && IsDir(m, d) && m' == m.(owner := m.owner - Space(m, d))
    ensures forall f :: f in Space(m, d) ==> InHand(m', f)
    ensures d in Space(m, d)
  {
    forall f | f in Space(m, d)
      ensures InHand(m', f)
    {
      assert FrameOk(m, f);
    }
  }

  lemma TablesMore(m: Mem, d: nat, i: nat)
    requires Good(m) && IsDir(m, d) && i < NENT
    ensures var p := m.pages[d].e[i];
            && Tables(m, d, i + 1) == Tables(m, d, i) + (if p.present then {p.frame} else {})
            && (p.present ==>
                 p.frame !in Tables(m, d, i) && p.frame in Space(m, d) && p.frame != d && p.frame !in FreeSet(m))
  {
    assert FrameOk(m, d);
    forall f | f in Tables(m, d, i + 1)
      ensures f in Tables(m, d, i) || (m.pages[d].e[i].present && f == m.pages[d].e[i].frame)
    {
      assert FrameOk(m, f);
    }
  }

  lemma FreevmDone(m0: Mem, m1: Mem, m2: Mem, m3: Mem, d: nat)
    requires Good(m0) && IsDir(m0, d) && Gone(m0, m1, d, 0, PageUp(KERNPAGES * PGSIZE)) && Others(m1, m2, d)
    requires m2.owner == m1.owner - Space(m1, d) && FreeSet(m2) == FreeSet(m1) + Tables(m1, d, NENT) && d < |m2.pages|
    requires m3 == Push(m2, d, Junk()) && Good(m3) && SameAll(m2, m3) && FreeSet(m3) == FreeSet(m2) + {d}
    ensures Others(m0, m3, d) && m3.owner == m0.owner - Space(m0, d) && FreeSet(m3) == FreeSet(m0) + Space(m0, d)
  {
    OthersTwice(m0, m1, m2, d);
    OthersTwice(m0, m2, m3, d);
    AllSpace(m0, d);
    var users := UserPages(m0, d, 0, PageUp(KERNPAGES * PGSIZE));
    assert Tables(m1, d, NENT) == Tables(m0, d, NENT);
    assert Space(m1, d) == Space(m0, d) - users;
  }

  /** A space is its directory, its page tables and its user pages. */
  lemma AllSpace(m: Mem, d: nat)
    requires Good(m) && IsDir(m, d)
    ensures Space(m, d) == {d} + Tables(m, d, NENT) + UserPages(m, d, 0, PageUp(KERNPAGES * PGSIZE))
  {
    forall f | f in Space(m, d)
      ensures f == d || f in Tables(m, d, NENT) || f in UserPages(m, d, 0, PageUp(KERNPAGES * PGSIZE))
    {
      assert FrameOk(m, f);
    }
  }
}
