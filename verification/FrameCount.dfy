/**
 How many frames an address space takes: the directory, one table for each stretch of 1024 pages in
 use, and the pages. Frames move between the free list and these, so the sum stays.
 */
module FrameCount {
  import opened PageTable
  import opened AddressSpace

  /** The directory slots that hold a table. */
  ghost function Tables(m: Mem, dir: nat): set<nat>
    requires dir in m.tab
  {
    set d | 0 <= d < ENTRIES && m.tab[dir][d].Present?
  }

  /** Free frames and dir's tables together. */
  ghost function Held(m: Mem, dir: nat): nat
    requires dir in m.tab
  {
    |m.free| + |Tables(m, dir)|
  }

  lemma SameRowSameTables(m: Mem, n: Mem, dir: nat)
    requires dir in m.tab && dir in n.tab && n.tab[dir] == m.tab[dir]
    ensures Tables(n, dir) == Tables(m, dir)
  {
  }

  /** walkpgdir moves a frame from the free list to the directory. */
  lemma AddTableHeld(m: Mem, lo: nat, dir: nat, d: nat)
    requires MemOk(m, lo) && dir in m.tab && d < ENTRIES && m.tab[dir][d].Absent? && m.free != []
    ensures dir in AddTable(m, dir, d).tab
    ensures Tables(AddTable(m, dir, d), dir) == Tables(m, dir) + {d}
    ensures Held(AddTable(m, dir, d), dir) == Held(m, dir)
  {
    var n := AddTable(m, dir, d);
    assert m.free[0] in m.free;
    assert forall c :: 0 <= c < ENTRIES && c != d ==> n.tab[dir][c] == m.tab[dir][c];
    assert Tables(n, dir) == Tables(m, dir) + {d};
  }

  /** The slots of the first k pages from page a on. */
  ghost function SlotsOf(a: nat, k: nat): set<nat> {
    if k == 0 then {} else SlotsOf(a, k - 1) + {PageAt(a, k - 1) / ENTRIES}
  }

  ghost function Slots(lo: nat, hi: nat): (s: set<nat>)
    requires lo <= hi
    ensures |s| == hi - lo && forall d :: d in s <==> lo <= d < hi
  {
    if lo == hi then {} else Slots(lo, hi - 1) + {hi - 1}
  }

  /** The slots of the kernel half: physical memory and the devices. */
  ghost function KernelSlots(): set<nat> {
    Slots(512, 568) + Slots(1016, 1024)
  }

  /** The slots of the first v user pages. */
  ghost function UserSlots(v: nat): set<nat> {
    Slots(0, (v + ENTRIES - 1) / ENTRIES)
  }

  lemma SpaceSize(v: nat)
    requires v <= UPAGES
    ensures |KernelSlots() + UserSlots(v)| == 64 + (v + ENTRIES - 1) / ENTRIES
    ensures |KernelSlots()| == 64
  {
    hide Slots;
    assert Slots(512, 568) !! Slots(1016, 1024);
    assert KernelSlots() !! UserSlots(v);
  }

  lemma UserSlotsNext(v: nat)
    ensures UserSlots(v + 1) == UserSlots(v) + {v / ENTRIES}
    ensures v / ENTRIES in UserSlots(v) <==> v % ENTRIES != 0
  {
    var q := v / ENTRIES;
    assert v == q * ENTRIES + v % ENTRIES;
    if v % ENTRIES == 0 {
      assert (v + ENTRIES - 1) / ENTRIES == q && (v + 1 + ENTRIES - 1) / ENTRIES == q + 1;
    } else {
      assert (v + ENTRIES - 1) / ENTRIES == q + 1 && (v + 1 + ENTRIES - 1) / ENTRIES == q + 1;
    }
  }

  /** A region of kmap lies in the kernel's slots. */
  lemma {:induction false} RegionSlots(data: nat, j: nat, k: nat)
    requires DataOk(data) && j < 4 && RegionOk(Kmap(data)[j]) && k <= PageCount(Kmap(data)[j].virt, Size(Kmap(data)[j]))
    ensures SlotsOf(Kmap(data)[j].virt / PGSIZE, k) <= KernelSlots()
    ensures forall v :: 0 <= v < UPAGES ==> Ahead(Kmap(data)[j].virt / PGSIZE, v) >= k
    decreases k
  {
    hide Slots, KernelSlots;
    if k > 0 {
      RegionSlots(data, j, k - 1);
      RegionSlot(data, j, k - 1);
    }
    forall v | 0 <= v < UPAGES ensures Ahead(Kmap(data)[j].virt / PGSIZE, v) >= k {
      RegionPages(data, v);
    }
  }

  lemma RegionSlot(data: nat, j: nat, k: nat)
    requires DataOk(data) && j < 4 && RegionOk(Kmap(data)[j]) && k < PageCount(Kmap(data)[j].virt, Size(Kmap(data)[j]))
    ensures PageAt(Kmap(data)[j].virt / PGSIZE, k) / ENTRIES in KernelSlots()
  {
    hide Slots;
    var r := Kmap(data)[j];
    var a := r.virt / PGSIZE;
    assert a < VPAGES && k < VPAGES;
    var v := PageAt(a, k);
    assert Ahead(a, v) == k;
    assert Covers(r, v);
    RegionPages(data, v);
  }

  /** A finished kernel map has a table in each of its slots. */
  lemma KernelTables(n: Mem, d: nat, data: nat)
    requires Shape(n, d) && DataOk(data) && MapsRegions(n, d, data, 4) && Tables(n, d) <= KernelSlots()
    ensures Tables(n, d) == KernelSlots()
  {
    hide Kmap, AfterRegions, Slots;
    forall e | e in KernelSlots() ensures e in Tables(n, d) {
      var v := e * ENTRIES;
      KernelMap(data, v);
      assert Flat(n, d, v).Present?;
    }
  }

  // ---- what a copy needs ----

  /** The frames a copy of v pages takes: directory, 64 kernel tables, pages and their tables. */
  function FramesFor(v: nat): nat {
    65 + v + (v + ENTRIES - 1) / ENTRIES
  }

  lemma FramesNext(v: nat)
    ensures FramesFor(v + 1) == FramesFor(v) + 1 + (if v % ENTRIES == 0 then 1 else 0)
  {
    var q := v / ENTRIES;
    assert v == q * ENTRIES + v % ENTRIES;
    if v % ENTRIES == 0 {
      assert (v + ENTRIES - 1) / ENTRIES == q && (v + 1 + ENTRIES - 1) / ENTRIES == q + 1;
    } else {
      assert (v + ENTRIES - 1) / ENTRIES == q + 1 && (v + 1 + ENTRIES - 1) / ENTRIES == q + 1;
    }
  }

  lemma {:induction false} FramesGrow(v: nat, w: nat)
    requires v < w
    ensures FramesFor(v + 1) <= FramesFor(w)
    decreases w - v
  {
    if v + 1 < w {
      FramesNext(w - 1);
      FramesGrow(v, w - 1);
    }
  }

  /** The first q pages of dir are there, and q is the size of the space or the first page that is not. */
  ghost predicate Leading(m: Mem, dir: nat, size: nat, q: nat)
    requires Shape(m, dir) && size <= UPAGES
  {
    && q <= size && (forall w :: 0 <= w < q ==> Flat(m, dir, w).Present?)
    && (q < size ==> Flat(m, dir, q).Absent?)
  }

  lemma {:induction false} FirstHole(m: Mem, dir: nat, size: nat) returns (q: nat)
    requires Shape(m, dir) && size <= UPAGES
    ensures Leading(m, dir, size, q)
  {
    if size == 0 {
      q := 0;
    } else {
      q := FirstHole(m, dir, size - 1);
      if q == size - 1 && Flat(m, dir, size - 1).Present? {
        q := size;
      }
    }
  }

  /** NoSetup: setupkvm failed; NoPage: kalloc failed; NoTable: mappages failed after kalloc. */
  datatype CopyResult = Copied(dir: nat) | NoSetup | NoPage | NoTable | Panicked

  /** The outcome of copying a space of the given size whose first q pages are there, with n free frames. */
  ghost predicate Outcome(r: CopyResult, n: nat, size: nat, q: nat) {
    && (r.NoSetup? <==> n < FramesFor(0))
    && (r.Copied? <==> q == size && FramesFor(size) <= n)
    && (r.Panicked? <==> q < size && FramesFor(q) <= n)
    && (r.NoPage? <==> exists v :: 0 <= v < q && n == FramesFor(v))
    && (r.NoTable? <==> exists v :: 0 <= v < q && v % ENTRIES == 0 && n == FramesFor(v) + 1)
  }

  /** How each result shows at the page v where the copy stopped. */
  ghost predicate StoppedAt(r: CopyResult, n: nat, size: nat, q: nat, v: nat) {
    match r
    case Copied(_) => v == q == size && FramesFor(v) <= n
    case NoSetup => n < FramesFor(0)
    case NoPage => v < q && n == FramesFor(v)
    case NoTable => v < q && v % ENTRIES == 0 && n == FramesFor(v) + 1
    case Panicked => v == q < size && FramesFor(v) <= n
  }

  lemma FramesApart(v: nat, w: nat)
    ensures v < w ==> FramesFor(v) < FramesFor(w) && (v % ENTRIES == 0 ==> FramesFor(v) + 1 < FramesFor(w))
  {
    if v < w {
      FramesNext(v);
      FramesGrow(v, w);
    }
  }

  /** The five results exclude one another, so where the copy stopped decides all of them. */
  lemma StopIsOutcome(r: CopyResult, n: nat, size: nat, q: nat, v: nat)
    requires q <= size && StoppedAt(r, n, size, q, v)
    ensures Outcome(r, n, size, q)
  {
    hide FramesFor;
    forall w: nat ensures w > 0 ==> FramesFor(0) < FramesFor(w) { FramesApart(0, w); }
    forall w: nat ensures v < w ==> FramesFor(v) < FramesFor(w) && (v % ENTRIES == 0 ==> FramesFor(v) + 1 < FramesFor(w)) {
      FramesApart(v, w);
    }
    forall w: nat ensures w < v ==> FramesFor(w) < FramesFor(v) && (w % ENTRIES == 0 ==> FramesFor(w) + 1 < FramesFor(v)) {
      FramesApart(w, v);
    }
    forall w: nat ensures w < q ==> FramesFor(w) < FramesFor(q) && (w % ENTRIES == 0 ==> FramesFor(w) + 1 < FramesFor(q)) {
      FramesApart(w, q);
    }
  }
}
