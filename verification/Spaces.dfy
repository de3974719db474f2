/** The address spaces of processes and their sizes: proc.c's growproc, and the calls of fork, exec and
    wait that make and free a space. Between them each space maps exactly the user pages below its size,
    so that mappages and copyuvm never panic. */
module Spaces {
  import opened Common
  import opened Params
  import opened VmState
  import opened Vm

  /** Space d maps the user pages with a byte below sz and no others. */
  ghost predicate Exact(m: Mem, d: nat, sz: nat) {
    forall v: nat :: v < KERNPAGES ==> (At(m, d, v).present <==> v * PGSIZE < sz)
  }

  ghost predicate SpaceOk(m: Mem, d: nat, sz: nat) {
    IsDir(m, d) && sz <= KERNPAGES * PGSIZE && Exact(m, d, sz)
  }

  ghost predicate AllExact(m: Mem, sz: map<nat, nat>) {
    forall d :: d in sz ==> SpaceOk(m, d, sz[d])
  }

  lemma PageHasBytes(m: Mem, d: nat, a: nat)
    requires Good(m) && IsDir(m, d) && a < KERNPAGES * PGSIZE
    ensures ByteAt(m, d, a).Some? <==> At(m, d, a / PGSIZE).present
  {
    if At(m, d, a / PGSIZE).present {
      SameAsItself(m, d);
      ParentPage(m, m, d, a / PGSIZE);
    }
  }

  lemma SameAsItself(m: Mem, d: nat)
    requires IsDir(m, d)
    ensures Same(m, m, d)
  {
  }

  /** Every address below the size of the process has a byte, and every mapped page one below it. */
  lemma EveryByte(m: Mem, d: nat, sz: nat)
    requires Good(m) && SpaceOk(m, d, sz)
    ensures forall a: nat :: a < sz ==> At(m, d, a / PGSIZE).present && ByteAt(m, d, a).Some?
    ensures forall a: nat :: a < KERNPAGES * PGSIZE && ByteAt(m, d, a).Some? ==> PageStart(a) < sz
    ensures forall v: nat :: v < KERNPAGES && At(m, d, v).present ==> v * PGSIZE < sz
  {
    forall a: nat | a < KERNPAGES * PGSIZE
      ensures ByteAt(m, d, a).Some? <==> At(m, d, a / PGSIZE).present
      ensures At(m, d, a / PGSIZE).present <==> PageStart(a) < sz
    {
      PageHasBytes(m, d, a);
    }
  }

  /** Space d has come from size sz to size sz': every byte below sz' is there, those below sz too as they
      were, and those of new pages are zero. */
  ghost predicate Resized(m0: Mem, m: Mem, d: nat, sz: nat, sz': nat) {
    && (forall a: nat :: a < sz' ==> ByteAt(m, d, a).Some?)
    && (forall a: nat :: a < sz && a < sz' ==> ByteAt(m, d, a) == ByteAt(m0, d, a))
    && (forall a: nat :: sz <= PageStart(a) < sz' ==> ByteAt(m, d, a) == Some(0))
  }

  lemma GrownBytes(m0: Mem, m: Mem, d: nat, sz: nat, sz': nat)
    requires NewBytes(m0, m, d, sz, sz') && sz <= sz' < KERNPAGES * PGSIZE && Good(m) && SpaceOk(m, d, sz')
    ensures Resized(m0, m, d, sz, sz')
  {
    EveryByte(m, d, sz');
  }

  lemma ShrunkBytes(m0: Mem, m: Mem, d: nat, sz: nat, sz': nat)
    requires LessBytes(m0, m, d, sz', sz) && sz' < sz <= KERNPAGES * PGSIZE && Good(m) && SpaceOk(m, d, sz')
    ensures Resized(m0, m, d, sz, sz')
  {
    EveryByte(m, d, sz');
  }

  lemma SameOk(m: Mem, m': Mem, d: nat, sz: nat)
    requires SpaceOk(m, d, sz) && Same(m, m', d)
    ensures SpaceOk(m', d, sz)
  {
    SameIsSameBut(m, m', d, 0);
  }

  lemma OthersOk(m: Mem, m': Mem, sz: map<nat, nat>, d: nat)
    requires AllExact(m, sz) && Others(m, m', d)
    ensures forall x :: x in sz && x != d ==> SpaceOk(m', x, sz[x])
  {
    forall x | x in sz && x != d
      ensures SpaceOk(m', x, sz[x])
    {
      assert SpaceOk(m, x, sz[x]);
      SameOk(m, m', x, sz[x]);
    }
  }

  lemma KernelOnly(kmap: seq<Region>, w: nat)
    requires KmapOk(kmap) && w < KERNPAGES
    ensures KernPte(kmap, w) == Absent
  {
    KernPteNone(kmap, w);
  }

  /** setupkvm's space has no user pages. */
  lemma NewOk(m0: Mem, m: Mem, d: nat, kmap: seq<Region>, sz: map<nat, nat>)
    requires AllExact(m0, sz) && KmapOk(kmap) && NewSpace(m0, m, d) && forall w: nat :: At(m, d, w) == KernPte(kmap, w)
    ensures AllExact(m, sz[d := 0]) && d !in sz
  {
    assert d in sz ==> SpaceOk(m0, d, sz[d]);
    OthersOk(m0, m, sz, d);
    forall w: nat | w < KERNPAGES
      ensures !At(m, d, w).present
    {
      KernelOnly(kmap, w);
    }
  }

  /** Copyuvm's has the pages of its parent. */
  lemma CopyOk(m0: Mem, m: Mem, p: nat, d: nat, sz: map<nat, nat>)
    requires AllExact(m0, sz) && p in sz && NewSpace(m0, m, d) && SameBytes(m0, p, m, d, sz[p])
    ensures AllExact(m, sz[d := sz[p]]) && d !in sz
  {
    forall v: nat | v < KERNPAGES && v * PGSIZE < sz[p]
      ensures At(m, d, v).present
    {
      assert v * PGSIZE / PGSIZE == v;
    }
    assert SpaceOk(m0, p, sz[p]);
    assert d in sz ==> SpaceOk(m0, d, sz[d]);
    OthersOk(m0, m, sz, d);
  }

  lemma GrownOk(m0: Mem, m: Mem, d: nat, sz: map<nat, nat>, newsz: nat)
    requires AllExact(m0, sz) && d in sz && sz[d] <= newsz < KERNPAGES * PGSIZE
    requires IsDir(m, d) && Others(m0, m, d) && NewBytes(m0, m, d, sz[d], newsz)
    ensures AllExact(m, sz[d := newsz])
  {
    assert SpaceOk(m0, d, sz[d]);
    OthersOk(m0, m, sz, d);
  }

  lemma RestoredOk(m0: Mem, m: Mem, d: nat, sz: map<nat, nat>)
    requires AllExact(m0, sz) && d in sz && Restored(m0, m, d, {}) && Others(m0, m, d) && IsDir(m, d)
    ensures AllExact(m, sz)
  {
    assert SpaceOk(m0, d, sz[d]);
    OthersOk(m0, m, sz, d);
  }

  lemma ShrunkOk(m0: Mem, m: Mem, d: nat, sz: map<nat, nat>, newsz: nat)
    requires AllExact(m0, sz) && d in sz && newsz < sz[d]
    requires IsDir(m, d) && Others(m0, m, d) && LessBytes(m0, m, d, newsz, sz[d])
    ensures AllExact(m, sz[d := newsz])
    ensures newsz == 0 ==> !AllExact(m, sz)
  {
    assert SpaceOk(m0, d, sz[d]);
    OthersOk(m0, m, sz, d);
    assert newsz == 0 ==> !At(m, d, 0).present;
  }

  /** What allocuvm leaves. */
  lemma ExtendOk(m0: Mem, m: Mem, d: nat, sz: map<nat, nat>, newsz: nat, ok: bool, x: nat)
    requires AllExact(m0, sz) && d in sz && Others(m0, m, d) && IsDir(m, d)
    requires newsz >= KERNPAGES * PGSIZE || newsz < sz[d] ==> m == m0
    requires newsz >= KERNPAGES * PGSIZE ==> !ok
    requires ok && newsz >= sz[d] ==> NewBytes(m0, m, d, sz[d], newsz)
    requires !ok ==> Restored(m0, m, d, {})
    requires x == if !ok then 0 else if newsz < sz[d] then sz[d] else newsz
    ensures AllExact(m, if x == 0 then sz else sz[d := x])
    ensures x != 0 && newsz <= sz[d] ==> sz[d := x] == sz
  {
    assert sz[d := sz[d]] == sz;
    if !ok {
      RestoredOk(m0, m, d, sz);
    } else if newsz >= sz[d] {
      GrownOk(m0, m, d, sz, newsz);
    }
  }

  /** Space d has every byte it had. */
  ghost predicate AllBytes(m0: Mem, m: Mem, d: nat) {
    forall a: nat :: a < KERNPAGES * PGSIZE ==> ByteAt(m, d, a) == ByteAt(m0, d, a)
  }

  lemma RestoredBytes(m0: Mem, m: Mem, d: nat)
    requires Restored(m0, m, d, {})
    ensures AllBytes(m0, m, d)
  {
    forall a: nat | a < KERNPAGES * PGSIZE
      ensures ByteAt(m, d, a) == ByteAt(m0, d, a)
    {
      SameByte(m, d, m0, d, a);
    }
  }

  lemma KeptSize(m: Mem, d: nat, sz: nat)
    requires Good(m) && SpaceOk(m, d, sz)
    ensures Resized(m, m, d, sz, sz)
  {
    EveryByte(m, d, sz);
  }

  /** At size 0 no address has a byte. */
  lemma NothingLeft(m: Mem, d: nat, sz: nat)
    requires Good(m) && SpaceOk(m, d, sz)
    ensures sz == 0 ==> forall a: nat :: a < KERNPAGES * PGSIZE ==> ByteAt(m, d, a) == None
  {
    EveryByte(m, d, sz);
  }

  lemma ExtendBytes(m0: Mem, m: Mem, d: nat, sz: nat, newsz: nat, ok: bool, x: nat)
    requires Good(m0) && Good(m) && SpaceOk(m0, d, sz)
    requires newsz >= KERNPAGES * PGSIZE || newsz < sz ==> m == m0
    requires newsz >= KERNPAGES * PGSIZE ==> !ok
    requires ok && newsz >= sz ==> NewBytes(m0, m, d, sz, newsz)
    requires !ok ==> Restored(m0, m, d, {})
    requires x == (if !ok then 0 else if newsz < sz then sz else newsz) && (x != 0 ==> SpaceOk(m, d, x))
    ensures x == 0 ==> AllBytes(m0, m, d)
    ensures x != 0 ==> Resized(m0, m, d, sz, x)
  {
    if !ok {
      RestoredBytes(m0, m, d);
    } else if newsz < sz {
      KeptSize(m0, d, sz);
    } else if newsz > 0 {
      GrownBytes(m0, m, d, sz, newsz);
    }
  }

  /** growproc's sz + n, as a uint. */
  method NewSize(sz: nat, n: int) returns (newsz: nat)
    requires sz <= KERNPAGES * PGSIZE && -0x8000_0000 <= n < 0x8000_0000
    ensures newsz == if sz + n < 0 then sz + n + UINT else sz + n
    ensures sz + n < 0 ==> newsz >= sz
  {
    newsz := (sz + n) % UINT;
  }

  class Processes {
    const kernel: Kernel
    var sz: map<nat, nat> // p->sz of the process with page directory p->pgdir

    ghost predicate Valid()
      reads this, kernel
    {
      Good(kernel.M()) && KmapOk(kernel.kmap) && AllExact(kernel.M(), sz)
    }

    constructor (kernel: Kernel)
      requires Good(kernel.M()) && KmapOk(kernel.kmap)
      ensures this.kernel == kernel && Valid() && sz == map[]
    {
      this.kernel := kernel;
      sz := map[];
    }

    /** setupkvm, for the first process and for exec. */
    method Create() returns (r: Option<nat>)
      requires Valid()
      modifies this, kernel
      ensures Valid()
      ensures sz == if r.Some? then old(sz)[r.value := 0] else old(sz)
      ensures r.Some? ==> r.value !in old(sz)
    {
      ghost var m0 := kernel.M();
      r := kernel.Setupkvm();
      if r.Some? {
        NewOk(m0, kernel.M(), r.value, kernel.kmap, sz);
        sz := sz[r.value := 0];
      } else {
        AllSame(m0, kernel.M(), sz);
      }
    }

    /** allocuvm for space d, as growproc and exec call it. It never panics with "remap". */
    method Extend(d: nat, newsz: nat) returns (r: int)
      requires Valid() && d in sz
      modifies this, kernel
      ensures Valid() && (r == 0 || r == -1)
      ensures sz == if r == 0 && newsz > old(sz)[d] then old(sz)[d := newsz] else old(sz)
      ensures r == 0 ==> Resized(old(kernel.M()), kernel.M(), d, old(sz)[d], sz[d])
      ensures r == -1 ==> AllBytes(old(kernel.M()), kernel.M(), d)
    {
      ghost var m0 := kernel.M();
      assert SpaceOk(m0, d, sz[d]);
      ghost var ok;
      var x;
      x, ok := kernel.Allocuvm(d, sz[d], newsz);
      ExtendOk(m0, kernel.M(), d, sz, newsz, ok, x);
      assert x != 0 ==> SpaceOk(kernel.M(), d, sz[d := x][d]);
      ExtendBytes(m0, kernel.M(), d, sz[d], newsz, ok, x);
      if x == 0 {
        return -1;
      }
      sz := sz[d := x];
      r := 0;
    }

    /** growproc. After sbrk has asked for the whole size back, deallocuvm answers 0, which growproc takes for
        a failure, and p->sz stays although the pages are gone: then, and only then, a space does not map
        the pages below its size any more. */
    method Growproc(d: nat, n: int) returns (r: int)
      requires Valid() && d in sz && -0x8000_0000 <= n < 0x8000_0000
      modifies this, kernel
      ensures Good(kernel.M()) && KmapOk(kernel.kmap) && (r == 0 || r == -1)
      ensures Valid() <==> !(n < 0 && old(sz)[d] + n == 0)
      ensures r == -1 ==> sz == old(sz)
      ensures r == 0 ==> sz == if old(sz)[d] + n < 0 then old(sz) else old(sz)[d := old(sz)[d] + n]
      ensures r == 0 ==> Resized(old(kernel.M()), kernel.M(), d, old(sz)[d], sz[d])
      ensures r == -1 && !(n < 0 && old(sz)[d] + n == 0) ==> AllBytes(old(kernel.M()), kernel.M(), d)
      ensures n < 0 && old(sz)[d] + n == 0 ==>
                r == -1 && forall a: nat :: a < sz[d] ==> ByteAt(kernel.M(), d, a) == None
    {
      assert SpaceOk(kernel.M(), d, sz[d]);
      var newsz := NewSize(sz[d], n);
      r := 0;
      if n > 0 {
        r := Extend(d, newsz);
      } else if n < 0 {
        r := Shrink(d, newsz);
      } else {
        assert sz[d := sz[d]] == sz;
        KeptSize(kernel.M(), d, sz[d]);
      }
    }

    /** deallocuvm, as growproc calls it. */
    method Shrink(d: nat, newsz: nat) returns (r: int)
      requires Valid() && d in sz
      modifies this, kernel
      ensures Good(kernel.M()) && (r == 0 || r == -1)
      ensures Valid() <==> newsz != 0 || old(sz)[d] == 0
      ensures r == -1 ==> sz == old(sz)
      ensures r == 0 ==> sz == if newsz < old(sz)[d] then old(sz)[d := newsz] else old(sz)
      ensures r == 0 ==> Resized(old(kernel.M()), kernel.M(), d, old(sz)[d], sz[d])
      ensures r == -1 && (newsz != 0 || old(sz)[d] == 0) ==> AllBytes(old(kernel.M()), kernel.M(), d)
      ensures newsz == 0 < old(sz)[d] ==> r == -1 && forall a: nat :: a < sz[d] ==> ByteAt(kernel.M(), d, a) == None
    {
      ghost var m0 := kernel.M();
      assert SpaceOk(m0, d, sz[d]);
      var x := kernel.Deallocuvm(d, sz[d], newsz);
      if newsz < sz[d] {
        ShrunkOk(m0, kernel.M(), d, sz, newsz);
        assert SpaceOk(kernel.M(), d, sz[d := newsz][d]);
        ShrunkBytes(m0, kernel.M(), d, sz[d], newsz);
        NothingLeft(kernel.M(), d, newsz);
      } else {
        KeptSize(m0, d, sz[d]);
      }
      if x == 0 {
        return -1;
      }
      sz := sz[d := x];
      r := 0;
    }

    /** copyuvm, as fork calls it. It never panics with "page not present" or "pte should exist". */
    method Copy(p: nat) returns (r: Option<nat>)
      requires Valid() && p in sz
      modifies this, kernel
      ensures Valid()
      ensures sz == if r.Some? then old(sz)[r.value := old(sz)[p]] else old(sz)
      ensures r.Some? ==> r.value !in old(sz)
      ensures r.Some? ==> SameBytes(old(kernel.M()), p, kernel.M(), r.value, old(sz)[p])
      ensures SameAll(old(kernel.M()), kernel.M())
    {
      ghost var m0 := kernel.M();
      assert SpaceOk(m0, p, sz[p]);
      r := kernel.Copyuvm(p, sz[p]);
      if r.Some? {
        CopyOk(m0, kernel.M(), p, r.value, sz);
        sz := sz[r.value := sz[p]];
      } else {
        AllSame(m0, kernel.M(), sz);
      }
    }

    /** freevm, as wait and exec call it. */
    method Drop(d: nat)
      requires Valid() && d in sz
      modifies this, kernel
      ensures Valid() && sz == old(sz) - {d}
      ensures FreeSet(kernel.M()) == FreeSet(old(kernel.M())) + Space(old(kernel.M()), d)
    {
      ghost var m0 := kernel.M();
      assert SpaceOk(m0, d, sz[d]);
      kernel.Freevm(d);
      OthersOk(m0, kernel.M(), sz, d);
      sz := sz - {d};
    }
  }

  lemma AllSame(m: Mem, m': Mem, sz: map<nat, nat>)
    requires AllExact(m, sz) && SameAll(m, m')
    ensures AllExact(m', sz)
  {
    forall x | x in sz
      ensures SpaceOk(m', x, sz[x])
    {
      assert SpaceOk(m, x, sz[x]);
      SameOk(m, m', x, sz[x]);
    }
  }
}
