/** Physical pages and two-level page tables, and who owns each page. */
module VmState {
  import opened Common
  import opened Blocks

  const NENT: nat := 1024  // entries of a page directory or page table
  const NUSER: nat := 512  // directory entries below KERNBASE
  const KERNPAGES: nat := 524288  // KERNBASE / PGSIZE
  const PGSIZE: nat := 4096

  datatype Pte = Pte(present: bool, frame: nat, flags: nat)

  const Absent: Pte := Pte(false, 0, 0)

  /** A physical page: a page directory or page table, or bytes. */
  datatype Page = Table(e: seq<Pte>) | Data(bytes: seq<Byte>)

  function ZeroTable(): (p: Page)
    ensures IsTable(p) && forall j :: 0 <= j < NENT ==> p.e[j] == Absent
  {
    Table(seq(NENT, _ => Absent))
  }

  function ZeroPage(): Page {
    Data(seq(PGSIZE, _ => 0))
  }

  predicate IsTable(p: Page) {
    p.Table? && |p.e| == NENT
  }

  /** A page of bytes. */
  predicate IsData(p: Page) {
    p.Data? && |p.bytes| == PGSIZE
  }

  /** What a page is in use for: a page directory, the page table of entry i of directory d, or the user
      page mapped by entry j of that table. */
  datatype Owner = Dir | Tab(d: nat, i: nat) | User(d: nat, i: nat, j: nat)

  /** kmem.freelist, the contents of the pages, and the pages in use for address spaces. */
  datatype Mem = Mem(free: seq<nat>, pages: seq<Page>, owner: map<nat, Owner>)

  predicate IsDir(m: Mem, d: nat) {
    d in m.owner && m.owner[d] == Dir && d < |m.pages| && IsTable(m.pages[d])
  }

  /** The page table of entry i of directory d, if there is one. */
  predicate HasTable(m: Mem, d: nat, i: nat) {
    && IsDir(m, d) && i < NENT && m.pages[d].e[i].present
    && m.pages[d].e[i].frame < |m.pages| && IsTable(m.pages[m.pages[d].e[i].frame])
  }

  function TableOf(m: Mem, d: nat, i: nat): nat
    requires HasTable(m, d, i)
  {
    m.pages[d].e[i].frame
  }

  /** The page table entry for page j of the range of directory entry i; absent if there is no table. */
  function Lookup(m: Mem, d: nat, i: nat, j: nat): Pte
    requires j < NENT
  {
    if HasTable(m, d, i) then m.pages[TableOf(m, d, i)].e[j] else Absent
  }

  ghost predicate DirOk(m: Mem, d: nat)
    requires d < |m.pages|
  {
    && IsTable(m.pages[d])
    && forall i :: 0 <= i < NENT && m.pages[d].e[i].present ==>
         m.pages[d].e[i].frame in m.owner && m.owner[m.pages[d].e[i].frame] == Tab(d, i)
  }

  ghost predicate TabOk(m: Mem, t: nat, d: nat, i: nat)
    requires t < |m.pages|
  {
    && HasTable(m, d, i) && TableOf(m, d, i) == t
    && (i < NUSER ==> forall j :: 0 <= j < NENT && m.pages[t].e[j].present ==>
          m.pages[t].e[j].frame in m.owner && m.owner[m.pages[t].e[j].frame] == User(d, i, j))
  }

  predicate UserOk(m: Mem, f: nat, d: nat, i: nat, j: nat)
    requires f < |m.pages|
  {
    && IsData(m.pages[f]) && i < NUSER && j < NENT && HasTable(m, d, i)
    && Lookup(m, d, i, j).present && Lookup(m, d, i, j).frame == f
  }

  ghost predicate FrameOk(m: Mem, f: nat)
    requires f in m.owner
  {
    && 0 < f < |m.pages|
    && match m.owner[f]
       case Dir => DirOk(m, f)
       case Tab(d, i) => TabOk(m, f, d, i)
       case User(d, i, j) => UserOk(m, f, d, i, j)
  }

  /** The free pages differ and are in no one's hands. */
  ghost predicate FreeOk(m: Mem) {
    Distinct(m.free) && forall f :: f in m.free ==> 0 < f < |m.pages| && f !in m.owner
  }

  /** Every page that an address space refers to is its own, and no page has two uses. */
  ghost predicate Good(m: Mem) {
    FreeOk(m) && forall f :: f in m.owner ==> FrameOk(m, f)
  }

  function FreeSet(m: Mem): set<nat> {
    set f | f in m.free
  }

  /** A page that kalloc has returned and nothing refers to yet. */
  predicate InHand(m: Mem, f: nat) {
    0 < f < |m.pages| && f !in m.owner && f !in m.free
  }

  // ---------- What a process sees ----------

  /** The flags and bytes of a user page, if it is mapped. */
  function View(m: Mem, d: nat, i: nat, j: nat): Option<(nat, Page)>
    requires j < NENT
  {
    var p := Lookup(m, d, i, j);
    if p.present && p.frame < |m.pages| then Some((p.flags, m.pages[p.frame])) else None
  }

  /** Directory d maps the same pages, with the same bytes in the user ones. */
  ghost predicate Same(m: Mem, m': Mem, d: nat) {
    && IsDir(m', d)
    && (forall i, j :: 0 <= i < NENT && 0 <= j < NENT ==> Lookup(m', d, i, j) == Lookup(m, d, i, j))
    && (forall i, j :: 0 <= i < NUSER && 0 <= j < NENT ==> View(m', d, i, j) == View(m, d, i, j))
  }

  /** Every address space but d's is as it was. */
  ghost predicate Others(m: Mem, m': Mem, d: nat) {
    forall x :: IsDir(m, x) && x != d ==> Same(m, m', x)
  }

  ghost predicate SameAll(m: Mem, m': Mem) {
    forall x :: IsDir(m, x) ==> Same(m, m', x)
  }

  lemma OthersTwice(m: Mem, m1: Mem, m2: Mem, d: nat)
    requires Others(m, m1, d) && Others(m1, m2, d)
    ensures Others(m, m2, d)
  {
    forall x | IsDir(m, x) && x != d
      ensures Same(m, m2, x)
    {
      assert Same(m, m1, x) && Same(m1, m2, x);
    }
  }

  /** The pages of address space d. */
  ghost predicate Of(m: Mem, f: nat, d: nat) {
    f in m.owner && if m.owner[f] == Dir then f == d else m.owner[f].d == d
  }

  ghost function Space(m: Mem, d: nat): set<nat> {
    set f | f in m.owner && Of(m, f, d)
  }

  /** The free pages, those of space d and those in hand are the same all in all, and every other page is
      in use as before. */
  ghost predicate Conserved(m: Mem, hand: set<nat>, m': Mem, hand': set<nat>, d: nat) {
    && |m'.pages| == |m.pages|
    && FreeSet(m') + Space(m', d) + hand' == FreeSet(m) + Space(m, d) + hand
    && m'.owner - Space(m', d) == m.owner - Space(m, d)
  }

  // ---------- A page table is added ----------

  function AddTable(m: Mem, d: nat, i: nat, t: nat, flags: nat): Mem
    requires IsDir(m, d) && i < NENT && t < |m.pages|
  {
    Mem(m.free, m.pages[t := ZeroTable()][d := Table(m.pages[d].e[i := Pte(true, t, flags)])], m.owner[t := Tab(d, i)])
  }

  lemma AddTableHas(m: Mem, d: nat, i: nat, t: nat, flags: nat, x: nat, k: nat)
    requires Good(m) && IsDir(m, d) && i < NENT && !m.pages[d].e[i].present && InHand(m, t)
    requires IsDir(m, x) && k < NENT
    ensures var m' := AddTable(m, d, i, t, flags);
            && IsDir(m', x) && (HasTable(m', x, k) <==> HasTable(m, x, k) || (x == d && k == i))
            && (HasTable(m, x, k) ==>
                 HasTable(m', x, k) && TableOf(m', x, k) == TableOf(m, x, k)
                 && m'.pages[TableOf(m, x, k)] == m.pages[TableOf(m, x, k)])
  {
    assert FrameOk(m, x);
    if HasTable(m, x, k) {
      assert FrameOk(m, TableOf(m, x, k));
    }
  }

  lemma AddTableSame(m: Mem, d: nat, i: nat, t: nat, flags: nat, x: nat)
    requires Good(m) && IsDir(m, d) && i < NENT && !m.pages[d].e[i].present && InHand(m, t) && IsDir(m, x)
    ensures Same(m, AddTable(m, d, i, t, flags), x)
  {
    var m' := AddTable(m, d, i, t, flags);
    AddTableHas(m, d, i, t, flags, x, 0);
    forall k, j | 0 <= k < NENT && 0 <= j < NENT
      ensures Lookup(m', x, k, j) == Lookup(m, x, k, j)
      ensures k < NUSER ==> View(m', x, k, j) == View(m, x, k, j)
    {
      AddTableHas(m, d, i, t, flags, x, k);
      var p := Lookup(m, x, k, j);
      if p.present && k < NUSER {
        assert FrameOk(m, TableOf(m, x, k));
        assert FrameOk(m, p.frame);
      }
    }
  }

  lemma AddTableGood(m: Mem, d: nat, i: nat, t: nat, flags: nat)
    requires Good(m) && IsDir(m, d) && i < NENT && !m.pages[d].e[i].present && InHand(m, t)
    ensures Good(AddTable(m, d, i, t, flags))
  {
    var m' := AddTable(m, d, i, t, flags);
    forall f | f in m'.owner
      ensures FrameOk(m', f)
    {
      if f != t {
        assert FrameOk(m, f);
        match m.owner[f] {
          case Dir => assert FrameOk(m, d);
          case Tab(x, k) => AddTableHas(m, d, i, t, flags, x, k);
          case User(x, k, j) => AddTableHas(m, d, i, t, flags, x, k);
        }
      }
    }
  }

  // ---------- An entry of a page table changes ----------

  /** Entry j of page table t is p. */
  function SetPte(m: Mem, t: nat, j: nat, p: Pte): seq<Page>
    requires t < |m.pages| && IsTable(m.pages[t]) && j < NENT
  {
    m.pages[t := Table(m.pages[t].e[j := p])]
  }

  /** A table belongs to one directory entry. */
  lemma OneTable(m: Mem, d: nat, i: nat, x: nat, k: nat)
    requires Good(m) && HasTable(m, d, i) && HasTable(m, x, k) && TableOf(m, d, i) == TableOf(m, x, k)
    ensures d == x && i == k
  {
    assert FrameOk(m, d) && FrameOk(m, x);
  }

  /** A directory is not a page table. */
  lemma DirNotTable(m: Mem, d: nat, i: nat, x: nat)
    requires Good(m) && HasTable(m, d, i) && IsDir(m, x)
    ensures TableOf(m, d, i) != x
  {
    assert FrameOk(m, d);
  }

  lemma SetPteHas(m: Mem, m': Mem, d: nat, i: nat, j: nat, p: Pte, x: nat, k: nat)
    requires Good(m) && HasTable(m, d, i) && j < NENT && m'.pages == SetPte(m, TableOf(m, d, i), j, p)
    requires IsDir(m, x) && k < NENT && x in m'.owner && m'.owner[x] == Dir
    ensures IsDir(m', x) && (HasTable(m', x, k) <==> HasTable(m, x, k))
    ensures HasTable(m, x, k) ==> TableOf(m', x, k) == TableOf(m, x, k)
    ensures forall l :: 0 <= l < NENT ==>
              Lookup(m', x, k, l) == if x == d && k == i && l == j then p else Lookup(m, x, k, l)
  {
    DirNotTable(m, d, i, x);
    if HasTable(m, x, k) && TableOf(m, x, k) == TableOf(m, d, i) {
      OneTable(m, d, i, x, k);
    }
  }

  /** A user page belongs to one entry, and is not a page table. */
  lemma OnePage(m: Mem, d: nat, i: nat, x: nat, k: nat, l: nat)
    requires Good(m) && HasTable(m, d, i) && k < NUSER && l < NENT && Lookup(m, x, k, l).present
    ensures Lookup(m, x, k, l).frame in m.owner && m.owner[Lookup(m, x, k, l).frame] == User(x, k, l)
    ensures Lookup(m, x, k, l).frame != TableOf(m, d, i) && Lookup(m, x, k, l).frame < |m.pages|
  {
    assert FrameOk(m, x) && FrameOk(m, d);
    assert FrameOk(m, TableOf(m, x, k));
    assert FrameOk(m, Lookup(m, x, k, l).frame);
  }

  lemma SetPteOthers(m: Mem, m': Mem, d: nat, i: nat, j: nat, p: Pte)
    requires Good(m) && HasTable(m, d, i) && j < NENT && m'.pages == SetPte(m, TableOf(m, d, i), j, p)
    requires forall x :: IsDir(m, x) ==> x in m'.owner && m'.owner[x] == Dir
    ensures Others(m, m', d)
  {
    forall x | IsDir(m, x) && x != d
      ensures Same(m, m', x)
    {
      SetPteHas(m, m', d, i, j, p, x, 0);
      forall k, l | 0 <= k < NENT && 0 <= l < NENT
        ensures Lookup(m', x, k, l) == Lookup(m, x, k, l)
        ensures k < NUSER ==> View(m', x, k, l) == View(m, x, k, l)
      {
        SetPteHas(m, m', d, i, j, p, x, k);
        if k < NUSER && Lookup(m, x, k, l).present {
          OnePage(m, d, i, x, k, l);
        }
      }
    }
  }

  // ---------- A user page is mapped ----------

  function MapUser(m: Mem, d: nat, i: nat, j: nat, f: nat, flags: nat): Mem
    requires HasTable(m, d, i) && j < NENT
  {
    Mem(m.free, SetPte(m, TableOf(m, d, i), j, Pte(true, f, flags)), m.owner[f := User(d, i, j)])
  }

  lemma MapUserGood(m: Mem, d: nat, i: nat, j: nat, f: nat, flags: nat)
    requires Good(m) && HasTable(m, d, i) && i < NUSER && j < NENT && !Lookup(m, d, i, j).present
    requires InHand(m, f) && IsData(m.pages[f])
    ensures Good(MapUser(m, d, i, j, f, flags)) && Others(m, MapUser(m, d, i, j, f, flags), d)
  {
    var m', p := MapUser(m, d, i, j, f, flags), Pte(true, f, flags);
    SetPteOthers(m, m', d, i, j, p);
    assert FrameOk(m, d);
    forall g | g in m'.owner
      ensures FrameOk(m', g)
    {
      SetPteHas(m, m', d, i, j, p, d, i);
      if g != f {
        assert FrameOk(m, g);
        match m.owner[g] {
          case Dir => DirNotTable(m, d, i, g);
          case Tab(x, k) => SetPteHas(m, m', d, i, j, p, x, k);
          case User(x, k, l) => SetPteHas(m, m', d, i, j, p, x, k);
        }
      }
    }
  }

  lemma MapUserSees(m: Mem, d: nat, i: nat, j: nat, f: nat, flags: nat, k: nat, l: nat)
    requires Good(m) && HasTable(m, d, i) && i < NUSER && j < NENT && InHand(m, f) && k < NENT && l < NENT
    ensures var m' := MapUser(m, d, i, j, f, flags);
            && Lookup(m', d, k, l) == (if k == i && l == j then Pte(true, f, flags) else Lookup(m, d, k, l))
            && (k < NUSER ==>
                 View(m', d, k, l) == if k == i && l == j then Some((flags, m.pages[f])) else View(m, d, k, l))
  {
    var m', p := MapUser(m, d, i, j, f, flags), Pte(true, f, flags);
    assert FrameOk(m, d);
    SetPteHas(m, m', d, i, j, p, d, k);
    if k < NUSER && Lookup(m, d, k, l).present {
      OnePage(m, d, i, d, k, l);
    }
  }

  // ---------- A kernel page is mapped ----------

  function MapKernel(m: Mem, d: nat, i: nat, j: nat, frame: nat, flags: nat): Mem
    requires HasTable(m, d, i) && j < NENT
  {
    m.(pages := SetPte(m, TableOf(m, d, i), j, Pte(true, frame, flags)))
  }

  lemma MapKernelGood(m: Mem, d: nat, i: nat, j: nat, frame: nat, flags: nat)
    requires Good(m) && HasTable(m, d, i) && NUSER <= i && j < NENT
    ensures Good(MapKernel(m, d, i, j, frame, flags)) && Others(m, MapKernel(m, d, i, j, frame, flags), d)
  {
    var m', p := MapKernel(m, d, i, j, frame, flags), Pte(true, frame, flags);
    SetPteOthers(m, m', d, i, j, p);
    assert FrameOk(m, d);
    forall g | g in m'.owner
      ensures FrameOk(m', g)
    {
      assert FrameOk(m, g);
      match m.owner[g] {
        case Dir => DirNotTable(m, d, i, g);
        case Tab(x, k) => SetPteHas(m, m', d, i, j, p, x, k);
        case User(x, k, l) => SetPteHas(m, m', d, i, j, p, x, k);
      }
    }
  }

  lemma MapKernelSees(m: Mem, d: nat, i: nat, j: nat, frame: nat, flags: nat, k: nat, l: nat)
    requires Good(m) && HasTable(m, d, i) && NUSER <= i && j < NENT && k < NENT && l < NENT
    ensures var m' := MapKernel(m, d, i, j, frame, flags);
            && Lookup(m', d, k, l) == (if k == i && l == j then Pte(true, frame, flags) else Lookup(m, d, k, l))
            && (k < NUSER ==> View(m', d, k, l) == View(m, d, k, l))
  {
    var m', p := MapKernel(m, d, i, j, frame, flags), Pte(true, frame, flags);
    SetPteHas(m, m', d, i, j, p, d, k);
    if k < NUSER && Lookup(m, d, k, l).present {
      OnePage(m, d, i, d, k, l);
    }
  }

  // ---------- A user page is taken away ----------

  /** The entry is cleared, and its page is in hand. */
  function Unmap(m: Mem, d: nat, i: nat, j: nat): Mem
    requires HasTable(m, d, i) && j < NENT
  {
    Mem(m.free, SetPte(m, TableOf(m, d, i), j, Absent), m.owner - {Lookup(m, d, i, j).frame})
  }

  lemma UnmapGood(m: Mem, d: nat, i: nat, j: nat)
    requires Good(m) && HasTable(m, d, i) && i < NUSER && j < NENT && Lookup(m, d, i, j).present
    ensures InHand(m, Lookup(m, d, i, j).frame) == false && InHand(Unmap(m, d, i, j), Lookup(m, d, i, j).frame)
    ensures Good(Unmap(m, d, i, j)) && Others(m, Unmap(m, d, i, j), d)
  {
    var m', f := Unmap(m, d, i, j), Lookup(m, d, i, j).frame;
    OnePage(m, d, i, d, i, j);
    assert FrameOk(m, f) && FrameOk(m, d);
    SetPteOthers(m, m', d, i, j, Absent);
    forall g | g in m'.owner
      ensures FrameOk(m', g)
    {
      assert FrameOk(m, g);
      match m.owner[g] {
        case Dir => DirNotTable(m, d, i, g);
        case Tab(x, k) => UnmapTab(m, d, i, j, g, x, k);
        case User(x, k, l) => SetPteHas(m, m', d, i, j, Absent, x, k);
      }
    }
  }

  lemma UnmapTab(m: Mem, d: nat, i: nat, j: nat, t: nat, x: nat, k: nat)
    requires Good(m) && HasTable(m, d, i) && i < NUSER && j < NENT && Lookup(m, d, i, j).present
    requires t < |m.pages| && t in m.owner && m.owner[t] == Tab(x, k) && TabOk(m, t, x, k)
    ensures TabOk(Unmap(m, d, i, j), t, x, k)
  {
    var m', f := Unmap(m, d, i, j), Lookup(m, d, i, j).frame;
    OnePage(m, d, i, d, i, j);
    SetPteHas(m, m', d, i, j, Absent, x, k);
    if k < NUSER {
      forall l | 0 <= l < NENT && m'.pages[t].e[l].present
        ensures m'.pages[t].e[l].frame in m'.owner && m'.owner[m'.pages[t].e[l].frame] == User(x, k, l)
      {
        assert Lookup(m', x, k, l) == m'.pages[t].e[l] && Lookup(m, x, k, l) == m.pages[t].e[l];
      }
    }
  }

  lemma UnmapSees(m: Mem, d: nat, i: nat, j: nat, k: nat, l: nat)
    requires Good(m) && HasTable(m, d, i) && i < NUSER && j < NENT && Lookup(m, d, i, j).present && k < NENT && l < NENT
    ensures var m' := Unmap(m, d, i, j);
            && Lookup(m', d, k, l) == (if k == i && l == j then Absent else Lookup(m, d, k, l))
            && (k < NUSER ==> View(m', d, k, l) == if k == i && l == j then None else View(m, d, k, l))
  {
    OnePage(m, d, i, d, i, j);
    SetPteHas(m, Unmap(m, d, i, j), d, i, j, Absent, d, k);
    if k < NUSER && Lookup(m, d, k, l).present {
      OnePage(m, d, i, d, k, l);
    }
  }

  // ---------- The free list ----------

  /** Only pages that no one uses change. */
  lemma IdleSame(m: Mem, m': Mem)
    requires Good(m) && m'.owner == m.owner && |m'.pages| == |m.pages|
    requires forall f :: f in m.owner && f < |m.pages| ==> m'.pages[f] == m.pages[f]
    ensures forall f :: f in m'.owner ==> FrameOk(m', f)
    ensures SameAll(m, m')
  {
    forall x: nat, i: nat | IsDir(m, x) && i < NENT
      ensures IsDir(m', x) && (HasTable(m', x, i) <==> HasTable(m, x, i))
      ensures HasTable(m, x, i) ==> TableOf(m', x, i) == TableOf(m, x, i)
      ensures forall j :: 0 <= j < NENT ==> Lookup(m', x, i, j) == Lookup(m, x, i, j)
    {
      assert FrameOk(m, x);
      if m.pages[x].e[i].present {
        assert FrameOk(m, m.pages[x].e[i].frame);
      }
    }
    forall x: nat, i: nat, j: nat | IsDir(m, x) && i < NUSER && j < NENT
      ensures View(m', x, i, j) == View(m, x, i, j)
    {
      if Lookup(m, x, i, j).present {
        OnePage(m, x, i, x, i, j);
      }
    }
    forall f | f in m'.owner
      ensures FrameOk(m', f)
    {
      assert FrameOk(m, f);
    }
  }

  function Push(m: Mem, f: nat, junk: Page): Mem
    requires f < |m.pages|
  {
    m.(free := [f] + m.free, pages := m.pages[f := junk])
  }

  lemma PushGood(m: Mem, f: nat, junk: Page)
    requires Good(m) && InHand(m, f)
    ensures Good(Push(m, f, junk)) && SameAll(m, Push(m, f, junk))
    ensures FreeSet(Push(m, f, junk)) == FreeSet(m) + {f}
  {
    IdleSame(m, Push(m, f, junk));
  }

  lemma PopGood(m: Mem)
    requires Good(m) && m.free != []
    ensures var m' := m.(free := m.free[1..]);
            && Good(m') && InHand(m', m.free[0]) && FreeSet(m') == FreeSet(m) - {m.free[0]} && SameAll(m, m')
  {
    var m' := m.(free := m.free[1..]);
    IdleSame(m, m');
    assert m.free[0] in m.free;
    assert forall f :: f in m.free <==> f == m.free[0] || f in m'.free;
  }

  /** New contents for a page in hand. */
  lemma FillGood(m: Mem, f: nat, page: Page)
    requires Good(m) && InHand(m, f)
    ensures Good(m.(pages := m.pages[f := page])) && SameAll(m, m.(pages := m.pages[f := page]))
  {
    IdleSame(m, m.(pages := m.pages[f := page]));
  }
}
