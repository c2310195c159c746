/**
 setupkvm's kernel map and copyuvm's copy, as facts about flat maps: what the four regions of kmap
 cover, and what a copy in progress looks like beside its parent.
 */
module AddressSpace {
  import opened Basics
  import opened Blocks
  import opened PageTable
  import opened Teardown

  const KERNBASE := 0x8000_0000
  const EXTMEM := 0x10_0000
  const PHYSTOP := 0xE00_0000
  const DEVSPACE := 0xFE00_0000

  datatype Region = Region(virt: nat, start: nat, end: nat, perm: nat)

  /** kmap; `data` is the address of the kernel's first writable page. */
  function Kmap(data: nat): seq<Region>
    requires DataOk(data)
  {
    [Region(KERNBASE, 0, EXTMEM, 2),
     Region(KERNBASE + EXTMEM, EXTMEM, data - KERNBASE, 0),
     Region(data, data - KERNBASE, PHYSTOP, 2),
     Region(DEVSPACE, DEVSPACE, 0, 2)]
  }

  predicate DataOk(data: nat) {
    KERNBASE + EXTMEM < data < KERNBASE + PHYSTOP && data % PGSIZE == 0
  }

  function Size(r: Region): nat {
    (r.end + UINT_LIMIT - r.start) % UINT_LIMIT
  }

  predicate RegionOk(r: Region) {
    r.virt < UINT_LIMIT && r.start < UINT_LIMIT && r.start % PGSIZE == 0 && r.end < UINT_LIMIT && Size(r) < UINT_LIMIT
  }

  ghost predicate Covers(r: Region, v: nat)
    requires RegionOk(r) && v < VPAGES
  {
    Ahead(r.virt / PGSIZE, v) < PageCount(r.virt, Size(r))
  }

  ghost function RegionPte(r: Region, v: nat): Pte
    requires RegionOk(r) && v < VPAGES
  {
    Present(PageAt(r.start / PGSIZE, Ahead(r.virt / PGSIZE, v)), r.perm + 1)
  }

  /** The map after the first j regions. */
  ghost function AfterRegions(ks: seq<Region>, j: nat, v: nat): Pte
    requires j <= |ks| && v < VPAGES && forall r :: r in ks ==> RegionOk(r)
  {
    if j == 0 then Absent
    else if Covers(ks[j - 1], v) then RegionPte(ks[j - 1], v)
    else AfterRegions(ks, j - 1, v)
  }

  lemma KmapOk(data: nat)
    requires DataOk(data)
    ensures |Kmap(data)| == 4 && forall r :: r in Kmap(data) ==> RegionOk(r)
  {
  }

  /** The pages each region covers; the last one ends where the address space does. */
  lemma RegionPages(data: nat, v: nat)
    requires DataOk(data) && v < VPAGES
    ensures forall r :: r in Kmap(data) ==> RegionOk(r)
    ensures Covers(Kmap(data)[0], v) <==> 0x80000 <= v < 0x80100
    ensures Covers(Kmap(data)[1], v) <==> 0x80100 <= v < data / PGSIZE
    ensures Covers(Kmap(data)[2], v) <==> data / PGSIZE <= v < 0x8E000
    ensures Covers(Kmap(data)[3], v) <==> 0xFE000 <= v
  {
    hide Covers;
    var ks := Kmap(data);
    RegionTouches(ks[0], v);
    RegionTouches(ks[1], v);
    RegionTouches(ks[2], v);
    RegionTouches(ks[3], v);
  }

  lemma RegionTouches(r: Region, v: nat)
    requires RegionOk(r) && v < VPAGES && r.virt % PGSIZE == 0 && Size(r) % PGSIZE == 0
    requires 0 < Size(r) && r.virt + Size(r) <= UINT_LIMIT
    ensures Covers(r, v) <==> r.virt / PGSIZE <= v < (r.virt + Size(r)) / PGSIZE
  {
    PagesTouched(r.virt, Size(r), v);
    var a, b := r.virt / PGSIZE, (r.virt + Size(r)) / PGSIZE;
    assert r.virt == a * PGSIZE && r.virt + Size(r) == b * PGSIZE;
  }

  /** No page is in two regions, so mappages never meets a mapped page. */
  lemma RegionsApart(data: nat, i: nat, j: nat, v: nat)
    requires DataOk(data) && i < j < 4 && v < VPAGES
    ensures forall r :: r in Kmap(data) ==> RegionOk(r)
    ensures !(Covers(Kmap(data)[i], v) && Covers(Kmap(data)[j], v))
  {
    RegionPages(data, v);
  }

  lemma {:induction false} UncoveredBefore(data: nat, j: nat, k: nat, v: nat)
    requires DataOk(data) && k <= j < 4 && v < VPAGES && Covers(Kmap(data)[j], v)
    ensures AfterRegions(Kmap(data), k, v).Absent?
  {
    KmapOk(data);
    if k > 0 {
      RegionsApart(data, k - 1, j, v);
      UncoveredBefore(data, j, k - 1, v);
    }
  }

  /** The kernel half of every directory: physical memory in order, devices in place, no user page. */
  lemma KernelMap(data: nat, v: nat)
    requires DataOk(data) && v < VPAGES
    ensures forall r :: r in Kmap(data) ==> RegionOk(r)
    ensures AfterRegions(Kmap(data), 4, v) ==
            if 0x80000 <= v < 0x8E000 then Present(v - 0x80000, if 0x80100 <= v < data / PGSIZE then 1 else 3)
            else if 0xFE000 <= v then Present(v, 3)
            else Absent
  {
    KmapOk(data);
    RegionPages(data, v);
    hide Covers, RegionPte;
    var ks := Kmap(data);
    assert (data - KERNBASE) / PGSIZE == data / PGSIZE - 0x80000;
    forall j | 0 <= j < 4 && Covers(ks[j], v)
      ensures RegionPte(ks[j], v) == Present(v - ks[j].virt / PGSIZE + ks[j].start / PGSIZE, ks[j].perm + 1)
    {
      RegionPteIs(ks[j], v);
    }
    assert AfterRegions(ks, 1, v) == if Covers(ks[0], v) then RegionPte(ks[0], v) else Absent;
    assert AfterRegions(ks, 2, v) == if Covers(ks[1], v) then RegionPte(ks[1], v) else AfterRegions(ks, 1, v);
    assert AfterRegions(ks, 3, v) == if Covers(ks[2], v) then RegionPte(ks[2], v) else AfterRegions(ks, 2, v);
  }

  lemma RegionPteIs(r: Region, v: nat)
    requires RegionOk(r) && v < VPAGES && r.virt / PGSIZE <= v && v - r.virt / PGSIZE + r.start / PGSIZE < VPAGES
    ensures RegionPte(r, v) == Present(v - r.virt / PGSIZE + r.start / PGSIZE, r.perm + 1)
  {
  }

  // ---- other spaces ----

  /** n has all of m's tables and pages as they were, and frees nothing new. */
  ghost predicate Untouched(m: Mem, n: Mem) {
    && (forall f :: f in m.tab ==> f in n.tab && n.tab[f] == m.tab[f])
    && (forall f :: f in m.page ==> f in n.page && n.page[f] == m.page[f])
    && (forall f :: f in n.free ==> f in m.free)
  }

  /** A directory none of whose tables changed maps what it mapped. */
  lemma UntouchedFlat(m: Mem, n: Mem, dir: nat)
    requires Shape(m, dir) && Untouched(m, n)
    ensures Shape(n, dir) && forall w :: 0 <= w < VPAGES ==> Flat(n, dir, w) == Flat(m, dir, w)
  {
  }

  /** d is a directory of frames that were free in m, and every frame taken from m is in it. */
  ghost predicate Beside(m: Mem, n: Mem, d: nat)
    requires Shape(n, d)
  {
    && Untouched(m, n)
    && (forall f :: IsNode(n, d, f) ==> f in m.free && f !in m.tab)
    && (forall f :: f in m.free && f !in n.free ==> IsNode(n, d, f) || IsUser(n, d, f))
    && (forall f :: f in n.tab && f !in m.tab ==> IsNode(n, d, f))
    && (forall f :: f in n.page && f !in m.page ==> IsUser(n, d, f))
  }

  /** Taking the first free frame leaves the others, once each. */
  lemma TakeFirst(m: Mem, lo: nat)
    requires MemOk(m, lo) && m.free != []
    ensures m.free[0] in m.free && m.free[0] !in m.tab && m.free[0] !in m.page && lo <= m.free[0] < RAMTOP
    ensures forall f :: f in m.free[1..] <==> f in m.free && f != m.free[0]
    ensures forall i, j :: 0 <= i < j < |m.free[1..]| ==> m.free[1..][i] != m.free[1..][j]
  {
    var r := m.free[1..];
    assert m.free[0] in m.free;
    forall j | 0 <= j < |r| ensures r[j] == m.free[j + 1] && r[j] != m.free[0] && r[j] in m.free {
    }
    forall f | f in m.free && f != m.free[0] ensures f in r {
      var j :| 0 <= j < |m.free| && m.free[j] == f;
      assert r[j - 1] == f;
    }
  }

  lemma NewDirectory(m: Mem, n: Mem, lo: nat, d: nat)
    requires MemOk(m, lo) && m.free != [] && d == m.free[0]
    requires n == Mem(m.tab[d := NoEntries()], m.page, m.free[1..])
    ensures MemOk(n, lo) && Shape(n, d) && UserOk(n, d) && Beside(m, n, d)
    ensures forall v :: 0 <= v < VPAGES ==> Flat(n, d, v).Absent?
  {
    TakeFirst(m, lo);
    assert MemOk(n, lo);
    hide MemOk;
    assert forall e :: 0 <= e < ENTRIES ==> n.tab[d][e].Absent?;
    assert Shape(n, d);
  }

  lemma GrewBeside(m: Mem, n: Mem, t: Mem, lo: nat, d: nat)
    requires Shape(n, d) && Shape(t, d) && Beside(m, n, d) && Grew(n, t, d) && MemOk(n, lo)
    requires forall f :: IsUser(n, d, f) ==> IsUser(t, d, f)
    ensures Beside(m, t, d)
  {
    forall f | f in m.free && f !in t.free ensures IsNode(t, d, f) || IsUser(t, d, f) {
      if f in n.free {
        assert f !in n.tab;
      } else if IsNode(n, d, f) {
        assert f in n.tab;
      }
    }
  }

  ghost predicate WasAbsent(m: Mem, dir: nat, a: nat, k: nat)
    requires Shape(m, dir) && a < VPAGES
  {
    forall v :: 0 <= v < VPAGES && Ahead(a, v) < k ==> Flat(m, dir, v).Absent?
  }

  /** mappages adds pages to a directory beside m and drops none. */
  lemma MapsBeside(m: Mem, n: Mem, t: Mem, lo: nat, d: nat, a: nat, g: nat, k: nat, perm: nat)
    requires Shape(n, d) && Shape(t, d) && Beside(m, n, d) && Grew(n, t, d) && MemOk(n, lo) && a < VPAGES
    requires MapsFirst(n, t, d, a, g, k, perm) && WasAbsent(n, d, a, k)
    ensures Beside(m, t, d)
  {
    forall f | IsUser(n, d, f) ensures IsUser(t, d, f) {
      var v :| 0 <= v < UPAGES && Flat(n, d, v).Present? && Flat(n, d, v).frame == f;
      assert Flat(t, d, v) == Flat(n, d, v);
    }
    hide MapsFirst, WasAbsent, IsUser;
    GrewBeside(m, n, t, lo, d);
  }

  ghost predicate MapsRegions(n: Mem, d: nat, data: nat, j: nat)
    requires Shape(n, d) && DataOk(data) && j <= 4
  {
    KmapOk(data);
    forall v :: 0 <= v < VPAGES ==> Flat(n, d, v) == AfterRegions(Kmap(data), j, v)
  }

  lemma NextRegion(n: Mem, t: Mem, d: nat, data: nat, j: nat)
    requires Shape(n, d) && Shape(t, d) && DataOk(data) && j < 4 && RegionOk(Kmap(data)[j]) && MapsRegions(n, d, data, j)
    requires var r := Kmap(data)[j];
             MapsFirst(n, t, d, r.virt / PGSIZE, r.start / PGSIZE, PageCount(r.virt, Size(r)), r.perm + 1)
    ensures MapsRegions(t, d, data, j + 1)
  {
    KmapOk(data);
    hide PageCount, PageAt, Ahead, Kmap, RegionOk, Shape;
  }

  /** The regions before the j-th leave its pages alone. */
  lemma RegionUnmapped(n: Mem, d: nat, data: nat, j: nat, k: nat)
    requires Shape(n, d) && DataOk(data) && j < 4 && RegionOk(Kmap(data)[j]) && MapsRegions(n, d, data, j)
    requires k < PageCount(Kmap(data)[j].virt, Size(Kmap(data)[j]))
    ensures Flat(n, d, PageAt(Kmap(data)[j].virt / PGSIZE, k)).Absent?
  {
    var r := Kmap(data)[j];
    var a := r.virt / PGSIZE;
    assert a < VPAGES && k < VPAGES;
    var v := PageAt(a, k);
    assert Ahead(a, v) == k;
    UncoveredBefore(data, j, j, v);
  }

  lemma KernelUserOk(n: Mem, d: nat, data: nat)
    requires Shape(n, d) && DataOk(data) && MapsRegions(n, d, data, 4)
    ensures UserOk(n, d) && forall v :: 0 <= v < UPAGES ==> Flat(n, d, v).Absent?
  {
    hide Kmap, AfterRegions;
    forall v | 0 <= v < UPAGES ensures Flat(n, d, v).Absent? {
      KernelMap(data, v);
    }
  }

  // ---- the copy ----

  /** Page w of the child: its own frame, free before, with the parent's bytes. */
  ghost predicate ChildPage(m: Mem, n: Mem, dir: nat, d: nat, w: nat)
    requires Shape(m, dir) && Shape(n, d) && w < UPAGES
  {
    var p, c := Flat(m, dir, w), Flat(n, d, w);
    && p.Present? && p.frame in m.page
    && c.Present? && c.perm == 7 && c.frame in m.free && c.frame in n.page && n.page[c.frame] == m.page[p.frame]
  }

  /** The copy of dir into d has reached page v. */
  ghost predicate Copying(m: Mem, n: Mem, dir: nat, d: nat, v: nat)
    requires Shape(m, dir) && Shape(n, d)
  {
    && (forall w :: 0 <= w < v && w < UPAGES ==> ChildPage(m, n, dir, d, w))
    && (forall w :: v <= w < UPAGES ==> Flat(n, d, w).Absent?)
    && UserOk(n, d) && Beside(m, n, d)
  }

  /** kalloc gives a frame, memmove fills it: nothing else changes. */
  ghost predicate NewPage(n: Mem, t: Mem, bytes: seq<Byte>) {
    n.free != [] && t == Mem(n.tab, n.page[n.free[0] := bytes], n.free[1..])
  }

  lemma NewPageOk(n: Mem, t: Mem, lo: nat, bytes: seq<Byte>)
    requires MemOk(n, lo) && NewPage(n, t, bytes)
    ensures MemOk(t, lo)
  {
    TakeFirst(n, lo);
  }

  /** The new page is mapped at v: the copy is one page further. */
  lemma CopyStep(m: Mem, n: Mem, t: Mem, u: Mem, lo: nat, dir: nat, d: nat, v: nat)
    requires MemOk(n, lo) && MemOk(t, lo) && Shape(m, dir) && Shape(n, d) && Shape(t, d) && Shape(u, d)
    requires Copying(m, n, dir, d, v) && v < UPAGES && Flat(m, dir, v).Present? && Flat(m, dir, v).frame in m.page
    requires NewPage(n, t, m.page[Flat(m, dir, v).frame]) && Grew(t, u, d)
    requires forall w :: 0 <= w < VPAGES ==> Flat(u, d, w) == if w == v then Present(n.free[0], 7) else Flat(n, d, w)
    ensures Copying(m, u, dir, d, v + 1)
  {
    TakeFirst(n, lo);
    assert n.free[0] in m.free;
    CopyPages(m, n, t, u, dir, d, v);
    CopyBeside(m, n, t, u, lo, dir, d, v, m.page[Flat(m, dir, v).frame]);
  }

  lemma CopyPages(m: Mem, n: Mem, t: Mem, u: Mem, dir: nat, d: nat, v: nat)
    requires Shape(m, dir) && Shape(n, d) && Shape(t, d) && Shape(u, d)
    requires Copying(m, n, dir, d, v) && v < UPAGES && Flat(m, dir, v).Present? && Flat(m, dir, v).frame in m.page
    requires NewPage(n, t, m.page[Flat(m, dir, v).frame]) && u.page == t.page && n.free[0] !in n.page && n.free[0] in m.free
    requires forall w :: 0 <= w < VPAGES ==> Flat(u, d, w) == if w == v then Present(n.free[0], 7) else Flat(n, d, w)
    ensures forall w :: 0 <= w < v + 1 && w < UPAGES ==> ChildPage(m, u, dir, d, w)
    ensures forall w :: v + 1 <= w < UPAGES ==> Flat(u, d, w).Absent?
    ensures UserOk(u, d)
  {
    hide Shape, Beside;
    forall w | 0 <= w < v + 1 && w < UPAGES ensures ChildPage(m, u, dir, d, w) {
      if w < v {
        assert ChildPage(m, n, dir, d, w);
      }
    }
  }

  lemma CopyBeside(m: Mem, n: Mem, t: Mem, u: Mem, lo: nat, dir: nat, d: nat, v: nat, bytes: seq<Byte>)
    requires MemOk(n, lo) && Shape(m, dir) && Shape(n, d) && Shape(t, d) && Shape(u, d) && v < UPAGES
    requires Copying(m, n, dir, d, v) && Grew(t, u, d) && MemOk(t, lo)
    requires NewPage(n, t, bytes)
    requires forall w :: 0 <= w < VPAGES ==> Flat(u, d, w) == if w == v then Present(n.free[0], 7) else Flat(n, d, w)
    ensures Beside(m, u, d)
  {
    TakeFirst(n, lo);
    forall f | IsUser(n, d, f) || f == n.free[0] ensures IsUser(u, d, f) {
      if IsUser(n, d, f) {
        var w :| 0 <= w < UPAGES && Flat(n, d, w).Present? && Flat(n, d, w).frame == f;
        assert w != v && Flat(u, d, w) == Flat(n, d, w);
      } else {
        assert Flat(u, d, v).frame == f;
      }
    }
    assert forall f :: IsNode(t, d, f) <==> IsNode(n, d, f);
    hide Flat, IsUser, Copying;
    BesideStep(m, n, t, u, lo, d, bytes);
  }

  lemma BesideStep(m: Mem, n: Mem, t: Mem, u: Mem, lo: nat, d: nat, bytes: seq<Byte>)
    requires Shape(n, d) && Shape(t, d) && Shape(u, d) && Beside(m, n, d) && Grew(t, u, d)
    requires MemOk(n, lo) && MemOk(t, lo) && n.free != [] && t.tab == n.tab
    requires t.page == n.page[n.free[0] := bytes] && t.free == n.free[1..]
    requires forall f :: IsNode(t, d, f) <==> IsNode(n, d, f)
    requires forall f :: IsUser(n, d, f) || f == n.free[0] ==> IsUser(u, d, f)
    ensures Beside(m, u, d)
  {
    TakeFirst(n, lo);
    forall f | f in m.free && f !in u.free ensures IsNode(u, d, f) || IsUser(u, d, f) {
      if f in t.free {
        assert f !in t.tab;
      } else if f in n.free {
        assert f == n.free[0];
      } else if IsNode(n, d, f) {
        assert f in t.tab;
      }
    }
  }

  /** Freeing a copy restores everything but the order of the free list. */
  ghost predicate RolledBack(m: Mem, n: Mem) {
    n.tab == m.tab && n.page == m.page && forall f :: f in n.free <==> f in m.free
  }

  lemma FreeRollsBack(m: Mem, n: Mem, t: Mem, lo: nat, dir: nat, d: nat, v: nat)
    requires MemOk(m, lo) && MemOk(n, lo) && Shape(m, dir) && Shape(n, d) && Copying(m, n, dir, d, v) && AllFreed(n, t, d)
    ensures RolledBack(m, t)
  {
    CopiesWereFree(m, n, dir, d, v);
    hide Copying, IsUser, IsNode, Shape;
    assert t.tab.Keys == m.tab.Keys;
    assert t.page.Keys == m.page.Keys;
  }

  lemma CopiesWereFree(m: Mem, n: Mem, dir: nat, d: nat, v: nat)
    requires Shape(m, dir) && Shape(n, d) && Copying(m, n, dir, d, v)
    ensures Beside(m, n, d) && forall f :: IsUser(n, d, f) ==> f in m.free && f in n.page
  {
    forall f | IsUser(n, d, f) ensures f in m.free && f in n.page {
      var w :| 0 <= w < UPAGES && Flat(n, d, w).Present? && Flat(n, d, w).frame == f;
      assert w < v && ChildPage(m, n, dir, d, w);
    }
  }

  /** A page that was filled but could not be mapped stays off the free list for good. */
  ghost predicate LostOne(m: Mem, n: Mem) {
    exists g :: && g in m.free && g in n.page && n.tab == m.tab && n.page - {g} == m.page
                && forall f :: f in n.free <==> f in m.free && f != g
  }

  lemma FreeLosesOne(m: Mem, n: Mem, a: Mem, t: Mem, lo: nat, dir: nat, d: nat, v: nat, bytes: seq<Byte>)
    requires MemOk(m, lo) && MemOk(n, lo) && Shape(m, dir) && Shape(n, d) && Copying(m, n, dir, d, v)
    requires NewPage(n, a, bytes) && MemOk(a, lo) && Shape(a, d) && AllFreed(a, t, d)
    ensures LostOne(m, t)
  {
    var g := n.free[0];
    TakeFirst(n, lo);
    CopiesWereFree(m, n, dir, d, v);
    UntouchedFlat(n, a, d);
    assert forall f :: IsNode(a, d, f) <==> IsNode(n, d, f);
    forall f ensures IsUser(a, d, f) <==> IsUser(n, d, f) {
      SameUsers(n, a, d, f);
    }
    LosesOneSets(m, n, a, t, lo, d, bytes);
  }

  lemma LosesOneSets(m: Mem, n: Mem, a: Mem, t: Mem, lo: nat, d: nat, bytes: seq<Byte>)
    requires MemOk(m, lo) && MemOk(n, lo) && Shape(n, d) && Shape(a, d) && Beside(m, n, d) && AllFreed(a, t, d)
    requires NewPage(n, a, bytes) && forall f :: IsUser(n, d, f) ==> f in m.free && f in n.page
    requires forall f :: IsNode(a, d, f) <==> IsNode(n, d, f)
    requires forall f :: IsUser(a, d, f) <==> IsUser(n, d, f)
    ensures LostOne(m, t)
  {
    var g := n.free[0];
    TakeFirst(n, lo);
    assert !IsUser(n, d, g) && !IsNode(n, d, g);
    hide IsUser, IsNode, Shape;
    assert g in t.page;
    assert t.tab == m.tab by {
      assert t.tab.Keys == m.tab.Keys;
    }
    LostPages(m, n, a, t, lo, d, bytes);
    assert forall f :: f in t.free <==> f in m.free && f != g;
  }

  lemma LostPages(m: Mem, n: Mem, a: Mem, t: Mem, lo: nat, d: nat, bytes: seq<Byte>)
    requires MemOk(m, lo) && MemOk(n, lo) && Shape(n, d) && Shape(a, d) && Beside(m, n, d) && AllFreed(a, t, d)
    requires NewPage(n, a, bytes) && forall f :: IsUser(n, d, f) ==> f in m.free && f in n.page
    requires forall f :: IsUser(a, d, f) <==> IsUser(n, d, f)
    ensures t.page - {n.free[0]} == m.page
  {
    hide IsUser, IsNode, Shape;
    var g := n.free[0];
    TakeFirst(n, lo);
    MapsBack(m.page, n.page, t.page, g, bytes, (f: nat) => IsUser(n, d, f));
  }

  lemma MapsBack(mp: map<nat, seq<Byte>>, np: map<nat, seq<Byte>>, tp: map<nat, seq<Byte>>, g: nat, bytes: seq<Byte>, isUser: nat -> bool)
    requires forall f :: f in mp ==> f in np && np[f] == mp[f] && !isUser(f) && f != g
    requires forall f :: f in np && f !in mp ==> isUser(f)
    requires forall f :: f in tp <==> (f in np || f == g) && !isUser(f)
    requires forall f :: f in tp && f in np && f != g ==> tp[f] == np[f]
    ensures tp - {g} == mp
  {
    assert (tp - {g}).Keys == mp.Keys;
  }

  lemma SameUsers(n: Mem, a: Mem, d: nat, f: nat)
    requires Shape(n, d) && Shape(a, d) && forall w :: 0 <= w < VPAGES ==> Flat(a, d, w) == Flat(n, d, w)
    ensures IsUser(a, d, f) <==> IsUser(n, d, f)
  {
    if IsUser(a, d, f) {
      var w :| 0 <= w < UPAGES && Flat(a, d, w).Present? && Flat(a, d, w).frame == f;
      assert Flat(n, d, w).frame == f;
    }
    if IsUser(n, d, f) {
      var w :| 0 <= w < UPAGES && Flat(n, d, w).Present? && Flat(n, d, w).frame == f;
      assert Flat(a, d, w).frame == f;
    }
  }
}
