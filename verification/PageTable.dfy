/**
 vm.c's two-level page tables as values: what a directory maps, and what one store to a table or to
 the directory does to that map. Addresses are page numbers: the low twelve bits of an entry are its
 permissions, and an entry without PTE_P is Absent.
 */
module PageTable {
  import opened Basics
  import opened Blocks

  const ENTRIES := 1024
  const VPAGES := 0x10_0000
  /** KERNBASE, as a page number: the pages below it belong to the user. */
  const UPAGES := 0x8_0000
  /** PHYSTOP, as a frame number. */
  const RAMTOP := 0xE000

  const PTE_P := 1
  const PTE_W := 2
  const PTE_U := 4

  datatype Pte = Absent | Present(frame: nat, perm: nat)

  type Table = t: seq<Pte> | |t| == ENTRIES witness seq(ENTRIES, i => Absent)

  /** The frames in use as tables or directories, those in use as user pages, and kalloc's free list. */
  datatype Mem = Mem(tab: map<nat, Table>, page: map<nat, seq<Byte>>, free: seq<nat>)

  function NoEntries(): Table {
    seq(ENTRIES, i => Absent)
  }

  /** No frame is in two roles or twice on the free list; all lie between the kernel and PHYSTOP. */
  ghost predicate MemOk(m: Mem, lo: nat) {
    && (forall f :: f in m.tab ==> f !in m.page && f !in m.free && lo <= f < RAMTOP)
    && (forall f :: f in m.page ==> f !in m.free && lo <= f < RAMTOP)
    && (forall f :: f in m.free ==> lo <= f < RAMTOP)
    && (forall i, j :: 0 <= i < j < |m.free| ==> m.free[i] != m.free[j])
    && lo > 0
  }

  /** A directory with its tables, each in one place and hung in with all permissions, so that the entry in the
      table decides alone. */
  ghost predicate Shape(m: Mem, dir: nat) {
    && dir in m.tab
    && (forall d :: 0 <= d < ENTRIES && m.tab[dir][d].Present? ==> m.tab[dir][d].perm == PTE_P + PTE_W + PTE_U)
    && (forall d :: 0 <= d < ENTRIES && m.tab[dir][d].Present? ==> m.tab[dir][d].frame in m.tab && m.tab[dir][d].frame != dir)
    && (forall d, e :: 0 <= d < e < ENTRIES && m.tab[dir][d].Present? && m.tab[dir][e].Present? ==>
          m.tab[dir][d].frame != m.tab[dir][e].frame)
  }

  ghost predicate IsNode(m: Mem, dir: nat, f: nat)
    requires dir in m.tab
  {
    f == dir || exists d :: 0 <= d < ENTRIES && m.tab[dir][d].Present? && m.tab[dir][d].frame == f
  }

  predicate Bit(perm: nat, b: nat)
    requires b > 0
  {
    perm / b % 2 == 1
  }

  /** The hardware lets the user use page v: both levels are present and both let the user. */
  ghost predicate UserMay(m: Mem, dir: nat, v: nat)
    requires Shape(m, dir) && v < VPAGES
  {
    var pde := m.tab[dir][v / ENTRIES];
    && pde.Present? && Bit(pde.perm, PTE_U)
    && var pte := m.tab[pde.frame][v % ENTRIES]; pte.Present? && Bit(pte.perm, PTE_U)
  }

  /** It lets page v be written: both levels are present and both let it. */
  ghost predicate Writable(m: Mem, dir: nat, v: nat)
    requires Shape(m, dir) && v < VPAGES
  {
    var pde := m.tab[dir][v / ENTRIES];
    && pde.Present? && Bit(pde.perm, PTE_W)
    && var pte := m.tab[pde.frame][v % ENTRIES]; pte.Present? && Bit(pte.perm, PTE_W)
  }

  /** What the hardware grants is what the flat map says. */
  lemma Grants(m: Mem, dir: nat, v: nat)
    requires Shape(m, dir) && v < VPAGES
    ensures UserMay(m, dir, v) <==> Flat(m, dir, v).Present? && Bit(Flat(m, dir, v).perm, PTE_U)
    ensures Writable(m, dir, v) <==> Flat(m, dir, v).Present? && Bit(Flat(m, dir, v).perm, PTE_W)
  {
    assert Bit(PTE_P + PTE_W + PTE_U, PTE_U) && Bit(PTE_P + PTE_W + PTE_U, PTE_W);
  }

  /** The flat map: the entry found for page v. */
  ghost function Flat(m: Mem, dir: nat, v: nat): Pte
    requires Shape(m, dir) && v < VPAGES
  {
    var pde := m.tab[dir][v / ENTRIES];
    if pde.Absent? then Absent else m.tab[pde.frame][v % ENTRIES]
  }

  /** Every user page has a frame of its own. */
  ghost predicate UserOk(m: Mem, dir: nat)
    requires Shape(m, dir)
  {
    && (forall v :: 0 <= v < UPAGES && Flat(m, dir, v).Present? ==> Flat(m, dir, v).frame in m.page)
    && (forall v, w :: 0 <= v < w < UPAGES && Flat(m, dir, v).Present? && Flat(m, dir, w).Present? ==>
          Flat(m, dir, v).frame != Flat(m, dir, w).frame)
  }

  // ---- one store ----

  function SetEntry(m: Mem, t: nat, i: nat, e: Pte): Mem
    requires t in m.tab && i < ENTRIES
  {
    m.(tab := m.tab[t := m.tab[t][i := e]])
  }

  /** A store to the table of page v changes the map at v and nowhere else. */
  lemma SetEntryFlat(m: Mem, dir: nat, v: nat, e: Pte)
    requires Shape(m, dir) && v < VPAGES && m.tab[dir][v / ENTRIES].Present?
    ensures var n := SetEntry(m, m.tab[dir][v / ENTRIES].frame, v % ENTRIES, e);
            && Shape(n, dir) && n.tab[dir] == m.tab[dir]
            && forall w :: 0 <= w < VPAGES ==> Flat(n, dir, w) == if w == v then e else Flat(m, dir, w)
  {
    var n := SetEntry(m, m.tab[dir][v / ENTRIES].frame, v % ENTRIES, e);
    forall w | 0 <= w < VPAGES ensures Flat(n, dir, w) == if w == v then e else Flat(m, dir, w) {
      assert w / ENTRIES == v / ENTRIES && w % ENTRIES == v % ENTRIES ==> w == v;
    }
  }

  /** A fresh empty table hung into the directory changes nothing in the map. */
  function AddTable(m: Mem, dir: nat, d: nat): Mem
    requires dir in m.tab && d < ENTRIES && m.free != []
  {
    var f := m.free[0];
    Mem(m.tab[f := NoEntries()][dir := m.tab[dir][d := Present(f, PTE_P + PTE_W + PTE_U)]], m.page, m.free[1..])
  }

  lemma AddTableFlat(m: Mem, lo: nat, dir: nat, d: nat)
    requires MemOk(m, lo) && Shape(m, dir) && d < ENTRIES && m.tab[dir][d].Absent? && m.free != []
    ensures MemOk(AddTable(m, dir, d), lo) && Shape(AddTable(m, dir, d), dir)
    ensures forall w :: 0 <= w < VPAGES ==> Flat(AddTable(m, dir, d), dir, w) == Flat(m, dir, w)
  {
    var n := AddTable(m, dir, d);
    AddTableMemOk(m, lo, dir, d);
    assert m.free[0] in m.free;
    assert forall c :: 0 <= c < ENTRIES && c != d ==> n.tab[dir][c] == m.tab[dir][c];
    forall w | 0 <= w < VPAGES ensures Flat(n, dir, w) == Flat(m, dir, w) {
      if w / ENTRIES != d && m.tab[dir][w / ENTRIES].Present? {
        assert n.tab[m.tab[dir][w / ENTRIES].frame] == m.tab[m.tab[dir][w / ENTRIES].frame];
      }
    }
  }

  lemma AddTableMemOk(m: Mem, lo: nat, dir: nat, d: nat)
    requires MemOk(m, lo) && dir in m.tab && d < ENTRIES && m.free != []
    ensures MemOk(AddTable(m, dir, d), lo)
  {
    var n := AddTable(m, dir, d);
    assert forall f :: f in n.free ==> f in m.free;
    assert m.free[0] in m.free;
    forall j | 0 <= j < |n.free| ensures n.free[j] != m.free[0] {
      assert n.free[j] == m.free[j + 1];
    }
  }

  // ---- what an operation on one directory leaves alone ----

  /** From m to n only dir's own nodes changed, and every frame taken from the free list became one. */
  ghost predicate Grew(m: Mem, n: Mem, dir: nat)
    requires dir in m.tab && dir in n.tab
  {
    && n.page == m.page
    && (forall f :: f in m.tab ==> f in n.tab && (n.tab[f] == m.tab[f] || IsNode(m, dir, f)))
    && (forall f :: f in m.tab ==> (IsNode(m, dir, f) <==> IsNode(n, dir, f)))
    && (forall f :: f in n.tab && f !in m.tab ==> IsNode(n, dir, f))
    && (forall f :: f in n.free ==> f in m.free)
    && (forall f :: f in m.free && f !in n.free ==> f in n.tab)
    && (forall f :: f in n.tab && f !in m.tab ==> f in m.free)
  }

  lemma GrewSame(m: Mem, dir: nat)
    requires dir in m.tab
    ensures Grew(m, m, dir)
  {
  }

  lemma GrewTrans(a: Mem, b: Mem, c: Mem, dir: nat)
    requires dir in a.tab && dir in b.tab && dir in c.tab && Grew(a, b, dir) && Grew(b, c, dir)
    ensures Grew(a, c, dir)
  {
  }

  lemma AddTableGrew(m: Mem, lo: nat, dir: nat, d: nat)
    requires MemOk(m, lo) && Shape(m, dir) && d < ENTRIES && m.tab[dir][d].Absent? && m.free != []
    ensures Grew(m, AddTable(m, dir, d), dir)
  {
    var n := AddTable(m, dir, d);
    var g := m.free[0];
    assert g in m.free && g !in m.tab;
    assert forall f :: f in n.free ==> f in m.free;
    assert forall f :: f in m.free && f != g ==> f in n.free;
    assert forall c :: 0 <= c < ENTRIES && c != d ==> n.tab[dir][c] == m.tab[dir][c];
    assert n.tab[dir][d] == Present(g, PTE_P + PTE_W + PTE_U);
    forall f | f in m.tab ensures IsNode(m, dir, f) <==> IsNode(n, dir, f) {
      if IsNode(m, dir, f) && f != dir {
        var c :| 0 <= c < ENTRIES && m.tab[dir][c].Present? && m.tab[dir][c].frame == f;
        assert n.tab[dir][c].Present? && n.tab[dir][c].frame == f;
      }
    }
  }

  lemma SetEntryGrew(m: Mem, dir: nat, v: nat, e: Pte)
    requires Shape(m, dir) && v < VPAGES && m.tab[dir][v / ENTRIES].Present?
    ensures Grew(m, SetEntry(m, m.tab[dir][v / ENTRIES].frame, v % ENTRIES, e), dir)
  {
  }

  lemma SetEntryMemOk(m: Mem, lo: nat, t: nat, i: nat, e: Pte)
    requires MemOk(m, lo) && t in m.tab && i < ENTRIES
    ensures MemOk(SetEntry(m, t, i, e), lo)
  {
  }

  // ---- mappages ----

  const PGSIZE := 4096

  /** How far page v lies after page a, going round the top of the address space. */
  function Ahead(a: nat, v: nat): (r: nat)
    requires a < VPAGES && v < VPAGES
    ensures r < VPAGES
  {
    if v >= a then v - a else v + VPAGES - a
  }

  /** The k-th page, or frame, from a on, going round. */
  function PageAt(a: nat, k: nat): (r: nat)
    ensures r < VPAGES
  {
    (a + k) % VPAGES
  }

  lemma PageAtNext(a: nat, k: nat)
    ensures (PageAt(a, k) + 1) % VPAGES == PageAt(a, k + 1)
    ensures a < VPAGES ==> PageAt(a, 0) == a
  {
    var q, r := (a + k) / VPAGES, (a + k) % VPAGES;
    assert a + k == q * VPAGES + r;
    if r + 1 == VPAGES {
      assert a + k + 1 == (q + 1) * VPAGES;
    } else {
      assert a + k + 1 == q * VPAGES + (r + 1);
    }
  }

  /** The number of pages mappages visits. */
  function PageCount(va: nat, size: nat): (r: nat)
    requires va < UINT_LIMIT && size < UINT_LIMIT
    ensures 0 < r <= VPAGES
  {
    Ahead(va / PGSIZE, (va + size + UINT_LIMIT - 1) % UINT_LIMIT / PGSIZE) + 1
  }

  /** A range of at least one byte that does not pass the top of memory: exactly the pages it touches,
      also when it ends at the very top. */
  lemma PagesTouched(va: nat, size: nat, v: nat)
    requires va < UINT_LIMIT && 0 < size && va + size <= UINT_LIMIT && size < UINT_LIMIT && v < VPAGES
    ensures Ahead(va / PGSIZE, v) < PageCount(va, size) <==> v * PGSIZE < va + size && va < (v + 1) * PGSIZE
  {
    assert (va + size + UINT_LIMIT - 1) % UINT_LIMIT == va + size - 1 by {
      assert va + size + UINT_LIMIT - 1 == UINT_LIMIT + (va + size - 1);
    }
    var a, l := va / PGSIZE, (va + size - 1) / PGSIZE;
    assert v * PGSIZE <= va + size - 1 <==> v <= l;
    assert va < (v + 1) * PGSIZE <==> a <= v;
  }

  /** A range of no bytes on a page boundary: the whole address space. */
  lemma EmptyRangeIsEverything(va: nat)
    requires va < UINT_LIMIT && va % PGSIZE == 0
    ensures PageCount(va, 0) == VPAGES
  {
    if va == 0 {
      assert (UINT_LIMIT - 1) % UINT_LIMIT / PGSIZE == VPAGES - 1;
    } else {
      assert va + UINT_LIMIT - 1 == UINT_LIMIT + (va - 1);
      assert (va + UINT_LIMIT - 1) % UINT_LIMIT == va - 1;
      assert (va - 1) / PGSIZE == va / PGSIZE - 1;
    }
  }

  /** n maps the first k pages from page a on to the frames from g on, and is as m elsewhere. */
  ghost predicate MapsFirst(m: Mem, n: Mem, dir: nat, a: nat, g: nat, k: nat, perm: nat)
    requires Shape(m, dir) && Shape(n, dir) && a < VPAGES
  {
    forall v :: 0 <= v < VPAGES ==>
      Flat(n, dir, v) == if Ahead(a, v) < k then Present(PageAt(g, Ahead(a, v)), perm) else Flat(m, dir, v)
  }

  lemma MapsNext(m: Mem, n: Mem, t: Mem, dir: nat, a: nat, g: nat, k: nat, perm: nat)
    requires Shape(m, dir) && Shape(n, dir) && Shape(t, dir) && a < VPAGES && k < VPAGES
    requires MapsFirst(m, n, dir, a, g, k, perm)
    requires forall v :: 0 <= v < VPAGES ==>
               Flat(t, dir, v) == if v == PageAt(a, k) then Present(PageAt(g, k), perm) else Flat(n, dir, v)
    ensures MapsFirst(m, t, dir, a, g, k + 1, perm)
  {
    forall v | 0 <= v < VPAGES
      ensures Flat(t, dir, v) == if Ahead(a, v) < k + 1 then Present(PageAt(g, Ahead(a, v)), perm) else Flat(m, dir, v)
    {
      assert Ahead(a, v) == k <==> v == PageAt(a, k);
    }
  }
}
