/**
 vm.c and the allocator under it: the code, in place on frames of physical memory.
 */
module VirtualMemory {
  import opened Basics
  import opened Blocks
  import opened PageTable
  import opened Teardown
  import opened AddressSpace
  import opened FrameCount

  datatype MapResult = Mapped | NoMemory | Remap

  class Vm {
    var tab: map<nat, Table>
    var page: map<nat, seq<Byte>>
    var free: seq<nat>
    /** The first frame after the kernel image. */
    const lo: nat

    ghost function Now(): Mem
      reads this
    {
      Mem(tab, page, free)
    }

    constructor (m: Mem, lo: nat)
      ensures Now() == m && this.lo == lo
    {
      tab, page, free := m.tab, m.page, m.free;
      this.lo := lo;
    }

    /** kalloc for a table, cleared as walkpgdir and setupkvm do. */
    method KallocTable() returns (f: Option<nat>)
      requires MemOk(Now(), lo)
      modifies this`tab, this`free
      ensures f.None? <==> old(free) == []
      ensures f.None? ==> Now() == old(Now())
      ensures f.Some? ==> && f.value == old(free)[0] && free == old(free)[1..]
                          && tab == old(tab)[f.value := NoEntries()]
    {
      if free == [] {
        return None;
      }
      f := Some(free[0]);
      tab := tab[free[0] := seq(ENTRIES, i => Absent)];
      free := free[1..];
    }

    /** walkpgdir: the table that holds the entry of page v. */
    method Walk(dir: nat, v: nat, alloc: bool) returns (t: Option<nat>)
      requires MemOk(Now(), lo) && Shape(Now(), dir) && v < VPAGES
      modifies this`tab, this`free
      ensures MemOk(Now(), lo) && Shape(Now(), dir) && Grew(old(Now()), Now(), dir)
      ensures forall w :: 0 <= w < VPAGES ==> Flat(Now(), dir, w) == old(Flat(Now(), dir, w))
      ensures t.Some? <==> old(tab)[dir][v / ENTRIES].Present? || (alloc && old(free) != [])
      ensures t.Some? ==> tab[dir][v / ENTRIES].Present? && tab[dir][v / ENTRIES].frame == t.value
      ensures t.None? || !alloc ==> Now() == old(Now())
      ensures Held(Now(), dir) == old(Held(Now(), dir))
      ensures Tables(Now(), dir) == if t.Some? then old(Tables(Now(), dir)) + {v / ENTRIES} else old(Tables(Now(), dir))
    {
      hide Grew, Held, Tables;
      WalkTables(Now(), dir, v / ENTRIES);
      GrewSame(Now(), dir);
      var pde := tab[dir][v / ENTRIES];
      if pde.Present? {
        return Some(pde.frame);
      }
      if !alloc {
        return None;
      }
      ghost var before := Now();
      t := KallocTable();
      if t.Some? {
        AddTableFlat(before, lo, dir, v / ENTRIES);
        AddTableGrew(before, lo, dir, v / ENTRIES);
        AddTableHeld(before, lo, dir, v / ENTRIES);
        tab := tab[dir := tab[dir][v / ENTRIES := Present(t.value, PTE_P + PTE_W + PTE_U)]];
        assert Now() == AddTable(before, dir, v / ENTRIES);
      }
    }

    /** One turn of mappages' loop: page a gets frame g. */
    method MapOne(dir: nat, a: nat, g: nat, perm: nat) returns (r: MapResult)
      requires MemOk(Now(), lo) && Shape(Now(), dir) && a < VPAGES
      modifies this`tab, this`free
      ensures MemOk(Now(), lo) && Shape(Now(), dir) && Grew(old(Now()), Now(), dir)
      ensures forall w :: 0 <= w < VPAGES ==>
                Flat(Now(), dir, w) == if w == a && r.Mapped? then Present(g, perm + PTE_P) else old(Flat(Now(), dir, w))
      ensures r.NoMemory? ==> free == [] && old(Flat(Now(), dir, a)).Absent? && Now() == old(Now())
      ensures !r.NoMemory? ==> (r.Remap? <==> old(Flat(Now(), dir, a)).Present?)
      ensures Held(Now(), dir) == old(Held(Now(), dir)) && (r.NoMemory? ==> a / ENTRIES !in Tables(Now(), dir))
      ensures Tables(Now(), dir) == if r.NoMemory? then old(Tables(Now(), dir)) else old(Tables(Now(), dir)) + {a / ENTRIES}
    {
      hide MemOk, Grew, Held, Tables;
      WalkTables(Now(), dir, a / ENTRIES);
      var t := Walk(dir, a, true);
      if t.None? {
        return NoMemory;
      }
      if tab[t.value][a % ENTRIES].Present? {
        return Remap;
      }
      SetEntryFlat(Now(), dir, a, Present(g, perm + PTE_P));
      SetEntryGrew(Now(), dir, a, Present(g, perm + PTE_P));
      SetEntryMemOk(Now(), lo, t.value, a % ENTRIES, Present(g, perm + PTE_P));
      ghost var mid := Now();
      tab := tab[t.value := tab[t.value][a % ENTRIES := Present(g, perm + PTE_P)]];
      GrewTrans(old(Now()), mid, Now(), dir);
      SameHeld(mid, Now(), dir);
      return Mapped;
    }

    /** mappages. `done` pages were mapped before it returned, ran out of memory, or met a mapped page. */
    method MapPages(dir: nat, va: nat, size: nat, pa: nat, perm: nat) returns (r: MapResult, ghost done: nat)
      requires MemOk(Now(), lo) && Shape(Now(), dir) && va < UINT_LIMIT && size < UINT_LIMIT && pa < UINT_LIMIT && pa % PGSIZE == 0
      modifies this`tab, this`free
      ensures MemOk(Now(), lo) && Shape(Now(), dir) && Grew(old(Now()), Now(), dir)
      ensures done <= PageCount(va, size) && (r.Mapped? <==> done == PageCount(va, size))
      ensures MapsFirst(old(Now()), Now(), dir, va / PGSIZE, pa / PGSIZE, done, perm + PTE_P)
      ensures forall w :: 0 <= w < VPAGES && Ahead(va / PGSIZE, w) < done ==>
                && (UserMay(Now(), dir, w) <==> Bit(perm + PTE_P, PTE_U)) && (Writable(Now(), dir, w) <==> Bit(perm + PTE_P, PTE_W))
      ensures WasAbsent(old(Now()), dir, va / PGSIZE, done)
      ensures r.Remap? ==> old(Flat(Now(), dir, PageAt(va / PGSIZE, done))).Present?
      ensures r.NoMemory? ==> free == [] && (done == 0 ==> Now() == old(Now()))
      ensures Held(Now(), dir) == old(Held(Now(), dir))
      ensures !r.Remap? ==> Tables(Now(), dir) == old(Tables(Now(), dir)) + SlotsOf(va / PGSIZE, done)
      ensures r.NoMemory? ==> PageAt(va / PGSIZE, done) / ENTRIES !in Tables(Now(), dir)
    {
      hide MemOk, Shape, Grew, MapsFirst, Flat, WasAbsent, PageCount, PageAt, Ahead, Held, Tables;
      HasDir(Now(), dir);
      var a := va / PGSIZE;
      var last := (va + size + UINT_LIMIT - 1) % UINT_LIMIT / PGSIZE;
      var g := pa / PGSIZE;
      ghost var m := Now();
      done := 0;
      StartMap(m, dir, a, g, perm + PTE_P);
      PageAtNext(a, 0);
      PageAtNext(g, 0);
      while true
        invariant done < PageCount(va, size) && a == PageAt(va / PGSIZE, done) && g == PageAt(pa / PGSIZE, done)
        invariant MemOk(Now(), lo) && Shape(Now(), dir) && dir in m.tab && dir in tab && Grew(m, Now(), dir)
        invariant MapsFirst(m, Now(), dir, va / PGSIZE, pa / PGSIZE, done, perm + PTE_P)
        invariant WasAbsent(m, dir, va / PGSIZE, done) && (done == 0 ==> Now() == m)
        invariant Held(Now(), dir) == Held(m, dir) && Tables(Now(), dir) == Tables(m, dir) + SlotsOf(va / PGSIZE, done)
        decreases PageCount(va, size) - done
      {
        ghost var n := Now();
        r := MapOne(dir, a, g, perm);
        HasDir(Now(), dir);
        GrewTrans(m, n, Now(), dir);
        StepMap(m, n, Now(), dir, va / PGSIZE, pa / PGSIZE, done, perm + PTE_P, r);
        if !r.Mapped? {
          MappedAccess(m, Now(), dir, va / PGSIZE, pa / PGSIZE, done, perm + PTE_P);
          return;
        }
        done := done + 1;
        CountPages(va, size, done);
        PageAtNext(va / PGSIZE, done - 1);
        PageAtNext(pa / PGSIZE, done - 1);
        if a == last {
          MappedAccess(m, Now(), dir, va / PGSIZE, pa / PGSIZE, done, perm + PTE_P);
          return;
        }
        a := (a + 1) % VPAGES;
        g := (g + 1) % VPAGES;
      }
    }

    /** kfree; false where the code panics. */
    method Kfree(f: nat) returns (ok: bool)
      modifies this`tab, this`page, this`free
      ensures ok <==> lo <= f < RAMTOP
      ensures Now() == if ok then FreeFrame(old(Now()), f) else old(Now())
    {
      if f < lo || f >= RAMTOP {
        return false;
      }
      tab := tab - {f};
      page := page - {f};
      free := [f] + free;
      return true;
    }

    /** deallocuvm's loop body at a present table. */
    method ClearOne(dir: nat, t: nat, v: nat) returns (ok: bool)
      requires MemOk(Now(), lo) && Shape(Now(), dir) && UserOk(Now(), dir) && v < UPAGES
      requires tab[dir][v / ENTRIES].Present? && tab[dir][v / ENTRIES].frame == t
      modifies this`tab, this`page, this`free
      ensures ok && Now() == ClearPage(old(Now()), dir, v)
    {
      var e := tab[t][v % ENTRIES];
      if e.Present? {
        assert e == Flat(Now(), dir, v) && e.frame in page;
        if e.frame == 0 {
          return false;
        }
        ghost var old_ := tab;
        ok := Kfree(e.frame);
        assert tab == old_;
        tab := tab[t := tab[t][v % ENTRIES := Absent]];
      }
      return true;
    }

    /** deallocuvm on user pages: it clears, and returns to the allocator, every page from newsz up to
        oldsz but those its jumps miss, and never panics. */
    method Dealloc(dir: nat, oldsz: nat, newsz: nat) returns (r: nat, ok: bool)
      requires MemOk(Now(), lo) && Shape(Now(), dir) && UserOk(Now(), dir) && oldsz <= UPAGES * PGSIZE
      modifies this`tab, this`page, this`free
      ensures MemOk(Now(), lo) && Shape(Now(), dir) && UserOk(Now(), dir) && ok
      ensures newsz >= oldsz ==> r == oldsz && Now() == old(Now())
      ensures newsz < oldsz ==> r == newsz && ClearedTo(old(Now()), Now(), dir, RoundUp(newsz), RoundUp(oldsz))
    {
      if newsz >= oldsz {
        return oldsz, true;
      }
      ok := DeallocPages(dir, RoundUp(newsz), oldsz);
      r := newsz;
    }

    method DeallocPages(dir: nat, s: nat, oldsz: nat) returns (ok: bool)
      requires MemOk(Now(), lo) && Shape(Now(), dir) && UserOk(Now(), dir)
      requires oldsz <= UPAGES * PGSIZE && s <= RoundUp(oldsz)
      modifies this`tab, this`page, this`free
      ensures MemOk(Now(), lo) && Shape(Now(), dir) && UserOk(Now(), dir) && ok
      ensures ClearedTo(old(Now()), Now(), dir, s, RoundUp(oldsz))
    {
      hide MemOk, Shape, UserOk, Grew, Phase, ClearedTo, Missed, Flat, ClearPage, RoundUp;
      HasDir(Now(), dir);
      ghost var m := Now();
      var v := s;
      ghost var e := RoundUp(oldsz);
      ClearedNothing(m, dir, s);
      StartPhase(tab[dir], s);
      while v * PGSIZE < oldsz
        invariant MemOk(Now(), lo) && Shape(Now(), dir) && UserOk(Now(), dir)
        invariant dir in tab && tab[dir] == m.tab[dir]
        invariant Phase(m.tab[dir], s, v)
        invariant ClearedTo(m, Now(), dir, s, if v < e then v else e)
      {
        Below(v, oldsz);
        var t := Walk(dir, v, false);
        if t.None? {
          JumpOver(m, Now(), dir, s, v, e);
          v := v + 1024;
        } else {
          PhaseStep(m.tab[dir], s, v);
          ClearPageOk(Now(), lo, dir, v);
          ClearedStep(m, Now(), dir, s, v);
          ok := ClearOne(dir, t.value, v);
          HasDir(Now(), dir);
          v := v + 1;
        }
      }
      Below(v, oldsz);
      return true;
    }

    /** freevm: every user frame, every table and the directory go back to the allocator, each once. */
    method FreeVm(dir: nat) returns (ok: bool)
      requires MemOk(Now(), lo) && Shape(Now(), dir) && UserOk(Now(), dir)
      modifies this`tab, this`page, this`free
      ensures ok && MemOk(Now(), lo) && AllFreed(old(Now()), Now(), dir)
    {
      hide MemOk, UserOk, ClearedTo, TablesFreed, AllFreed;
      ghost var m := Now();
      var r;
      r, ok := Dealloc(dir, UPAGES * PGSIZE, 0);
      ghost var a := Now();
      assert RoundUp(0) == 0 && RoundUp(UPAGES * PGSIZE) == UPAGES;
      NoTablesFreed(a, dir);
      var i := 0;
      while i < ENTRIES
        invariant 0 <= i <= ENTRIES && ok && dir in tab && tab[dir] == a.tab[dir]
        invariant MemOk(Now(), lo) && TablesFreed(a, Now(), dir, i)
      {
        TablesFreedStep(a, Now(), lo, dir, i);
        if tab[dir][i].Present? {
          InRam(Now(), lo, tab[dir][i].frame);
          ok := Kfree(tab[dir][i].frame);
        }
        i := i + 1;
      }
      FreedTogether(m, a, Now(), lo, dir);
      InRam(Now(), lo, dir);
      ok := Kfree(dir);
    }

    /** setupkvm. It takes 65 frames and succeeds exactly when there are as many. Otherwise the whole free
        list ends up under a directory that nobody is told of. */
    method SetupKvm(data: nat) returns (d: Option<nat>)
      requires MemOk(Now(), lo) && DataOk(data)
      modifies this`tab, this`free
      ensures MemOk(Now(), lo) && Untouched(old(Now()), Now())
      ensures d.Some? <==> |old(free)| >= FramesFor(0)
      ensures d.Some? ==> && Shape(Now(), d.value) && UserOk(Now(), d.value) && Beside(old(Now()), Now(), d.value)
                          && MapsRegions(Now(), d.value, data, 4)
                          && Tables(Now(), d.value) == KernelSlots() && |free| == |old(free)| - FramesFor(0)
      ensures d.None? ==> free == [] && AllLost(old(Now()), Now())
    {
      hide MemOk, Shape, UserOk, Grew, Beside, MapsRegions, MapsFirst, WasAbsent, PageAt, PageCount, Kmap, AfterRegions;
      hide Held, Tables, SlotsOf, Slots, KernelSlots, AllLost, LowAbsent;
      ghost var m := Now();
      d := KallocTable();
      if d.None? {
        NothingLost(m);
        return;
      }
      var dir := d.value;
      NewDirectory(m, Now(), lo, dir);
      NewDirectoryHeld(m, Now(), dir);
      NoRegions(Now(), dir, data);
      KmapOk(data);
      var ks := Kmap(data);
      var j := 0;
      while j < |ks|
        invariant 0 <= j <= |ks| == 4 && MemOk(Now(), lo) && Shape(Now(), dir) && dir in tab
        invariant Beside(m, Now(), dir) && MapsRegions(Now(), dir, data, j) && LowAbsent(Now(), dir)
        invariant Held(Now(), dir) == |m.free| - 1 && Tables(Now(), dir) <= KernelSlots()
      {
        var k := ks[j];
        assert k in ks;
        ghost var n := Now();
        var r; ghost var done;
        r, done := MapPages(dir, k.virt, Size(k), k.start, k.perm);
        HasDir(Now(), dir);
        MapsBeside(m, n, Now(), lo, dir, k.virt / PGSIZE, k.start / PGSIZE, done, k.perm + PTE_P);
        BesideUntouched(m, Now(), dir);
        RegionSlots(data, j, done);
        StaysLow(n, Now(), dir, k.virt / PGSIZE, k.start / PGSIZE, done, k.perm + PTE_P);
        if r.Remap? {
          RegionUnmapped(n, dir, data, j, done);
          assert false;
        }
        if !r.Mapped? {
          RegionSlot(data, j, done);
          OneShort(Now(), dir, PageAt(k.virt / PGSIZE, done) / ENTRIES);
          LostAll(m, Now(), dir);
          return None;
        }
        NextRegion(n, Now(), dir, data, j);
        j := j + 1;
      }
      BesideUntouched(m, Now(), dir);
      KernelUserOk(Now(), dir, data);
      KernelTables(Now(), dir, data);
      HeldIs(Now(), dir);
    }

    /** One page of copyuvm's loop. */
    method CopyPage(ghost m: Mem, ghost dir: nat, from: nat, d: nat, v: nat) returns (r: CopyResult)
      requires MemOk(Now(), lo) && Shape(m, dir) && Shape(Now(), d) && Copying(m, Now(), dir, d, v) && v < UPAGES
      requires Flat(m, dir, v).Present? && Flat(m, dir, v).frame == from && from in m.page && from in page && page[from] == m.page[from]
      modifies this`tab, this`page, this`free
      ensures MemOk(Now(), lo) && Shape(Now(), d)
      ensures r == Copied(d) || r == NoPage || r == NoTable
      ensures r == Copied(d) ==> Copying(m, Now(), dir, d, v + 1)
      ensures r == Copied(d) ==> SameKernelHalf(old(Now()), Now(), d)
      ensures r == Copied(d) ==> Held(Now(), d) == old(Held(Now(), d)) - 1 && Tables(Now(), d) == old(Tables(Now(), d)) + {v / ENTRIES}
      ensures r == NoPage ==> Now() == old(Now()) && free == []
      ensures r == NoTable ==> |old(free)| == 1 && v / ENTRIES !in old(Tables(Now(), d))
      ensures r == NoTable ==> old(free) != [] && Now() == Mem(old(tab), old(page)[old(free)[0] := m.page[from]], old(free)[1..])
    {
      hide MemOk, UserOk, Copying, Grew, MapsFirst, WasAbsent, Ahead, PageAt, PageCount, Held, Tables, SlotsOf, SameKernelHalf;
      if free == [] {
        return NoPage;
      }
      ghost var n := Now();
      var mem := free[0];
      FreeIsRam(n, lo);
      page := page[mem := page[from]];
      free := free[1..];
      ghost var t := Now();
      NewPageOk(n, t, lo, m.page[from]);
      OneTaken(n, t, d);
      var res; ghost var done;
      OnePage(v, mem);
      res, done := MapPages(d, v * PGSIZE, PGSIZE, mem * PGSIZE, PTE_W + PTE_U);
      OneSlot(v);
      CopyingAbsent(m, n, dir, d, v);
      UntouchedFlat(n, t, d);
      if !res.Mapped? {
        return NoTable;
      }
      OneMapped(t, Now(), d, v, mem, PTE_W + PTE_U + PTE_P);
      CopyStep(m, n, t, Now(), lo, dir, d, v);
      KernelHalfKept(n, t, Now(), d, v);
      return Copied(d);
    }

    /** copyuvm. A copy has the parent's bytes below sz on frames of its own. The number of free frames and
        the first page missing in the parent decide the outcome; running out of memory in the middle undoes
        the copy, but a page that mappages could not map is lost. */
    method CopyUvm(dir: nat, sz: nat, data: nat) returns (r: CopyResult)
      requires MemOk(Now(), lo) && Shape(Now(), dir) && UserOk(Now(), dir) && sz <= UPAGES * PGSIZE && DataOk(data)
      modifies this`tab, this`page, this`free
      ensures MemOk(Now(), lo) && Untouched(old(Now()), Now()) && Shape(Now(), dir) && RoundUp(sz) <= UPAGES
      ensures forall w :: 0 <= w < VPAGES ==> Flat(Now(), dir, w) == old(Flat(Now(), dir, w))
      ensures forall q :: Leading(old(Now()), dir, RoundUp(sz), q) ==> Outcome(r, |old(free)|, RoundUp(sz), q)
      ensures exists q :: Leading(old(Now()), dir, RoundUp(sz), q)
      ensures r.Copied? ==> && Shape(Now(), r.dir) && Copying(old(Now()), Now(), dir, r.dir, RoundUp(sz))
                            && KernelHalf(Now(), r.dir, data)
                            && |free| == |old(free)| - FramesFor(RoundUp(sz))
      ensures r.Copied? ==> forall w :: 0 <= w < RoundUp(sz) ==> UserMay(Now(), r.dir, w) && Writable(Now(), r.dir, w)
      ensures r.Copied? ==> forall w :: RoundUp(sz) <= w < VPAGES ==> !UserMay(Now(), r.dir, w)
      ensures r.NoSetup? ==> free == [] && AllLost(old(Now()), Now())
      ensures r.NoPage? ==> RolledBack(old(Now()), Now())
      ensures r.NoTable? ==> LostOne(old(Now()), Now())
    {
      hide MemOk, Shape, UserOk, Copying, Beside, MapsRegions, Flat, Kmap, RoundUp, AllFreed, RolledBack, LostOne, Untouched;
      hide Held, Tables, Slots, KernelSlots, UserSlots, FramesFor, Outcome, Leading, AllLost, FirstPages, KernelHalf, SameKernelHalf;
      ghost var m := Now();
      Below(0, sz);
      ghost var hole := FirstHole(m, dir, RoundUp(sz));
      var c := SetupKvm(data);
      UntouchedFlat(m, Now(), dir);
      if c.None? {
        Decided(m, dir, RoundUp(sz), NoSetup, 0);
        return NoSetup;
      }
      var d := c.value;
      StartCopy(m, Now(), dir, d, data);
      StartSlots(Now(), d, |m.free|);
      NoPages(m, dir);
      StartKernelHalf(Now(), d, data);
      var v := 0;
      while v * PGSIZE < sz
        invariant v <= RoundUp(sz) && MemOk(Now(), lo) && Shape(Now(), d) && Copying(m, Now(), dir, d, v)
        invariant d in tab && InSlots(Now(), d, |m.free|, v) && FirstPages(m, dir, v) && KernelHalf(Now(), d, data)
      {
        Below(v, sz);
        CopyingUntouched(m, Now(), dir, d, v);
        UntouchedFlat(m, Now(), dir);
        ghost var n := Now();
        FreeFrames(n, d, |m.free|, v);
        var t := Walk(dir, v, false);
        EntryOf(Now(), dir, v);
        if t.None? || tab[t.value][v % ENTRIES].Absent? {
          Decided(m, dir, RoundUp(sz), Panicked, v);
          return Panicked;
        }
        ParentPage(m, Now(), dir, v);
        ghost var from := tab[t.value][v % ENTRIES].frame;
        r := CopyPage(m, dir, tab[t.value][v % ENTRIES].frame, d, v);
        if !r.Copied? {
          assert r.NoTable? ==> NewPage(n, Now(), m.page[from]);
          UserSlotsNext(v);
          Decided(m, dir, RoundUp(sz), r, v);
          UndoCopy(m, n, dir, d, v, r);
          return;
        }
        HasDir(Now(), d);
        MoreSlots(n, Now(), d, |m.free|, v);
        MorePages(m, dir, v);
        KernelHalfStays(n, Now(), d, data);
        v := v + 1;
      }
      Below(v, sz);
      CopyingUntouched(m, Now(), dir, d, v);
      UntouchedFlat(m, Now(), dir);
      FreeFrames(Now(), d, |m.free|, v);
      Decided(m, dir, RoundUp(sz), Copied(d), v);
      ChildAccess(m, Now(), dir, d, v, data);
      return Copied(d);
    }

    /** The label `bad`: n is the memory before the page that failed. */
    method UndoCopy(ghost m: Mem, ghost n: Mem, ghost dir: nat, d: nat, ghost v: nat, ghost r: CopyResult)
      requires MemOk(m, lo) && MemOk(n, lo) && MemOk(Now(), lo) && Shape(m, dir) && Shape(n, d) && Shape(Now(), d)
      requires Copying(m, n, dir, d, v) && v < UPAGES && (r.NoPage? || r.NoTable?)
      requires r.NoPage? ==> Now() == n
      requires r.NoTable? ==> exists bytes :: NewPage(n, Now(), bytes)
      modifies this`tab, this`page, this`free
      ensures MemOk(Now(), lo) && Untouched(m, Now()) && Shape(Now(), dir)
      ensures forall w :: 0 <= w < VPAGES ==> Flat(Now(), dir, w) == Flat(m, dir, w)
      ensures r.NoPage? ==> RolledBack(m, Now())
      ensures r.NoTable? ==> LostOne(m, Now())
    {
      hide MemOk, Shape, UserOk, Copying, Beside, Flat, AllFreed, RolledBack, LostOne, Untouched;
      ghost var a := Now();
      CopyingUser(m, n, a, lo, dir, d, v);
      var ok := FreeVm(d);
      if r.NoPage? {
        FreeRollsBack(m, n, Now(), lo, dir, d, v);
        RolledUntouched(m, Now());
      } else {
        ghost var bytes :| NewPage(n, a, bytes);
        FreeLosesOne(m, n, a, Now(), lo, dir, d, v, bytes);
        LostUntouched(m, Now());
      }
      UntouchedFlat(m, Now(), dir);
    }
  }

  lemma WalkTables(m: Mem, dir: nat, d: nat)
    requires Shape(m, dir) && d < ENTRIES
    ensures dir in m.tab && (d in Tables(m, dir) <==> m.tab[dir][d].Present?)
    ensures d in Tables(m, dir) ==> Tables(m, dir) == Tables(m, dir) + {d}
  {
  }

  lemma SameHeld(m: Mem, n: Mem, dir: nat)
    requires dir in m.tab && dir in n.tab && n.tab[dir] == m.tab[dir] && n.free == m.free
    ensures Held(n, dir) == Held(m, dir) && Tables(n, dir) == Tables(m, dir)
  {
    SameRowSameTables(m, n, dir);
  }

  lemma HeldIs(m: Mem, dir: nat)
    requires dir in m.tab && Tables(m, dir) == KernelSlots()
    ensures |m.free| == Held(m, dir) - 64
  {
    hide Slots, KernelSlots;
    SpaceSize(0);
  }

  /** A table is missing and no frame is left: fewer than 64 tables. */
  lemma OneShort(m: Mem, dir: nat, d: nat)
    requires dir in m.tab && Tables(m, dir) <= KernelSlots() && d in KernelSlots() && d !in Tables(m, dir) && m.free == []
    ensures Held(m, dir) < 64
  {
    hide Slots, KernelSlots;
    SpaceSize(0);
    assert |Tables(m, dir) + {d}| <= |KernelSlots()| by {
      assert KernelSlots() == (Tables(m, dir) + {d}) + (KernelSlots() - (Tables(m, dir) + {d}));
    }
  }

  lemma OneTaken(n: Mem, t: Mem, d: nat)
    requires d in n.tab && t.tab == n.tab && n.free != [] && t.free == n.free[1..]
    ensures Held(t, d) == Held(n, d) - 1 && Tables(t, d) == Tables(n, d)
  {
  }

  lemma OneSlot(v: nat)
    requires v < VPAGES
    ensures SlotsOf(v, 1) == {v / ENTRIES} && SlotsOf(v, 0) == {}
  {
    assert SlotsOf(v, 0) == {};
    assert PageAt(v, 0) == v;
  }

  /** The frames of a copy that has reached page v, of the n that were free. */
  ghost predicate InSlots(m: Mem, d: nat, n: nat, v: nat)
    requires d in m.tab
  {
    Tables(m, d) == KernelSlots() + UserSlots(v) && Held(m, d) + v == n - 1
  }

  lemma StartSlots(m: Mem, d: nat, n: nat)
    requires Shape(m, d) && Tables(m, d) == KernelSlots() && |m.free| == n - FramesFor(0)
    ensures d in m.tab && InSlots(m, d, n, 0)
  {
    hide Slots, KernelSlots;
    SpaceSize(0);
    assert UserSlots(0) == {};
  }

  lemma FreeFrames(m: Mem, d: nat, n: nat, v: nat)
    requires d in m.tab && InSlots(m, d, n, v) && v <= UPAGES
    ensures |m.free| == n - FramesFor(v)
  {
    hide Slots, KernelSlots, UserSlots;
    SpaceSize(v);
  }

  lemma MoreSlots(n: Mem, t: Mem, d: nat, k: nat, v: nat)
    requires d in n.tab && d in t.tab && InSlots(n, d, k, v)
    requires Held(t, d) == Held(n, d) - 1 && Tables(t, d) == Tables(n, d) + {v / ENTRIES}
    ensures InSlots(t, d, k, v + 1)
  {
    hide Slots, KernelSlots, UserSlots;
    UserSlotsNext(v);
  }

  ghost predicate FirstPages(m: Mem, dir: nat, v: nat)
    requires Shape(m, dir) && v <= UPAGES
  {
    forall w :: 0 <= w < v ==> Flat(m, dir, w).Present?
  }

  /** A mapped page grants what mappages was asked for. */
  lemma MappedAccess(m: Mem, n: Mem, dir: nat, a: nat, g: nat, k: nat, perm: nat)
    requires Shape(m, dir) && Shape(n, dir) && a < VPAGES && MapsFirst(m, n, dir, a, g, k, perm)
    ensures forall w :: 0 <= w < VPAGES && Ahead(a, w) < k ==>
              (UserMay(n, dir, w) <==> Bit(perm, PTE_U)) && (Writable(n, dir, w) <==> Bit(perm, PTE_W))
  {
    hide Bit, UserMay, Writable, Flat, Ahead, PageAt;
    forall w | 0 <= w < VPAGES && Ahead(a, w) < k
      ensures (UserMay(n, dir, w) <==> Bit(perm, PTE_U)) && (Writable(n, dir, w) <==> Bit(perm, PTE_W))
    {
      Grants(n, dir, w);
    }
  }

  /** The child's user can use and write its pages, and no others. */
  lemma ChildAccess(m: Mem, n: Mem, dir: nat, d: nat, v: nat, data: nat)
    requires Shape(m, dir) && Shape(n, d) && Copying(m, n, dir, d, v) && DataOk(data) && KernelHalf(n, d, data) && v <= UPAGES
    ensures forall w :: 0 <= w < v ==> UserMay(n, d, w) && Writable(n, d, w)
    ensures forall w :: v <= w < VPAGES ==> !UserMay(n, d, w)
  {
    hide UserMay, Writable, Flat, Shape, UserOk, Beside, AfterRegions, Kmap;
    forall w | 0 <= w < v ensures UserMay(n, d, w) && Writable(n, d, w) {
      Grants(n, d, w);
      assert ChildPage(m, n, dir, d, w);
    }
    forall w | v <= w < VPAGES ensures !UserMay(n, d, w) {
      Grants(n, d, w);
      KernelMap(data, w);
    }
  }

  /** The pages from KERNBASE on are exactly those of kmap. */
  ghost predicate KernelHalf(n: Mem, d: nat, data: nat)
    requires Shape(n, d) && DataOk(data)
  {
    KmapOk(data);
    forall w :: UPAGES <= w < VPAGES ==> Flat(n, d, w) == AfterRegions(Kmap(data), 4, w)
  }

  ghost predicate SameKernelHalf(n: Mem, t: Mem, d: nat)
    requires Shape(n, d) && Shape(t, d)
  {
    forall w :: UPAGES <= w < VPAGES ==> Flat(t, d, w) == Flat(n, d, w)
  }

  lemma KernelHalfKept(n: Mem, t: Mem, u: Mem, d: nat, v: nat)
    requires Shape(n, d) && Shape(t, d) && Shape(u, d) && v < UPAGES
    requires forall w :: 0 <= w < VPAGES ==> Flat(t, d, w) == Flat(n, d, w)
    requires forall w :: 0 <= w < VPAGES && w != v ==> Flat(u, d, w) == Flat(t, d, w)
    ensures SameKernelHalf(n, u, d)
  {
  }

  lemma KernelHalfStays(n: Mem, t: Mem, d: nat, data: nat)
    requires Shape(n, d) && Shape(t, d) && DataOk(data) && KernelHalf(n, d, data) && SameKernelHalf(n, t, d)
    ensures KernelHalf(t, d, data)
  {
  }

  lemma StartKernelHalf(n: Mem, d: nat, data: nat)
    requires Shape(n, d) && DataOk(data) && MapsRegions(n, d, data, 4)
    ensures KernelHalf(n, d, data)
  {
  }

  lemma NoPages(m: Mem, dir: nat)
    requires Shape(m, dir)
    ensures FirstPages(m, dir, 0)
  {
  }

  lemma MorePages(m: Mem, dir: nat, v: nat)
    requires Shape(m, dir) && v < UPAGES && FirstPages(m, dir, v) && Flat(m, dir, v).Present?
    ensures FirstPages(m, dir, v + 1)
  {
  }

  /** Where the copy stopped, and why, decides the outcome. */
  lemma Decided(m: Mem, dir: nat, size: nat, r: CopyResult, v: nat)
    requires Shape(m, dir) && v <= size <= UPAGES
    requires r.NoSetup? || FirstPages(m, dir, v)
    requires match r
             case NoSetup => |m.free| < FramesFor(0)
             case Copied(_) => v == size && FramesFor(v) <= |m.free|
             case Panicked => v < size && Flat(m, dir, v).Absent? && FramesFor(v) <= |m.free|
             case NoPage => v < size && Flat(m, dir, v).Present? && |m.free| == FramesFor(v)
             case NoTable => v < size && Flat(m, dir, v).Present? && v % ENTRIES == 0 && |m.free| == FramesFor(v) + 1
    ensures forall q :: Leading(m, dir, size, q) ==> Outcome(r, |m.free|, size, q)
  {
    forall q | Leading(m, dir, size, q) ensures Outcome(r, |m.free|, size, q) {
      StopIsOutcome(r, |m.free|, size, q, v);
    }
  }

  /** No page below the kernel is mapped. */
  ghost predicate LowAbsent(m: Mem, dir: nat)
    requires Shape(m, dir)
  {
    forall v :: 0 <= v < UPAGES ==> Flat(m, dir, v).Absent?
  }

  lemma StaysLow(n: Mem, t: Mem, dir: nat, a: nat, g: nat, k: nat, perm: nat)
    requires Shape(n, dir) && Shape(t, dir) && a < VPAGES && MapsFirst(n, t, dir, a, g, k, perm) && LowAbsent(n, dir)
    requires forall v :: 0 <= v < UPAGES ==> Ahead(a, v) >= k
    ensures LowAbsent(t, dir)
  {
  }

  lemma NewDirectoryHeld(m: Mem, n: Mem, d: nat)
    requires m.free != [] && d == m.free[0] && n == Mem(m.tab[d := NoEntries()], m.page, m.free[1..]) && Shape(n, d)
    ensures Held(n, d) == |m.free| - 1 && Tables(n, d) == {} && LowAbsent(n, d)
  {
  }

  /** What a failed setupkvm leaves: every frame that was free is now the directory x or one of its
      tables, x is no directory the caller had, and x maps no user page. */
  ghost predicate AllLost(m: Mem, n: Mem) {
    if m.free == [] then n == m
    else exists x :: && x in m.free && x !in m.tab && Shape(n, x) && LowAbsent(n, x)
                     && forall f :: f in m.free ==> IsNode(n, x, f)
  }

  lemma NothingLost(m: Mem)
    requires m.free == []
    ensures AllLost(m, m)
  {
  }

  lemma LostAll(m: Mem, n: Mem, dir: nat)
    requires Shape(n, dir) && Beside(m, n, dir) && LowAbsent(n, dir) && n.free == []
    ensures AllLost(m, n)
  {
    assert IsNode(n, dir, dir);
    forall f | f in m.free ensures IsNode(n, dir, f) {
      assert !IsUser(n, dir, f);
    }
  }

  lemma HasDir(m: Mem, dir: nat)
    requires Shape(m, dir)
    ensures dir in m.tab
  {
  }

  lemma StartMap(m: Mem, dir: nat, a: nat, g: nat, perm: nat)
    requires Shape(m, dir) && a < VPAGES
    ensures Grew(m, m, dir) && MapsFirst(m, m, dir, a, g, 0, perm) && WasAbsent(m, dir, a, 0)
  {
  }

  /** The loop is at the last page exactly when it has visited all but one. */
  lemma CountPages(va: nat, size: nat, done: nat)
    requires va < UINT_LIMIT && size < UINT_LIMIT && 0 < done <= PageCount(va, size)
    ensures PageAt(va / PGSIZE, done - 1) == (va + size + UINT_LIMIT - 1) % UINT_LIMIT / PGSIZE <==> done == PageCount(va, size)
  {
    var a, l := va / PGSIZE, (va + size + UINT_LIMIT - 1) % UINT_LIMIT / PGSIZE;
    assert a < VPAGES && l < VPAGES;
    assert Ahead(a, PageAt(a, done - 1)) == done - 1;
  }

  lemma StepMap(m: Mem, n: Mem, t: Mem, dir: nat, a: nat, g: nat, k: nat, perm: nat, r: MapResult)
    requires Shape(m, dir) && Shape(n, dir) && Shape(t, dir) && a < VPAGES && k < VPAGES
    requires MapsFirst(m, n, dir, a, g, k, perm) && WasAbsent(m, dir, a, k)
    requires forall w :: 0 <= w < VPAGES ==>
               Flat(t, dir, w) == if w == PageAt(a, k) && r.Mapped? then Present(PageAt(g, k), perm) else Flat(n, dir, w)
    requires r.Remap? ==> Flat(n, dir, PageAt(a, k)).Present?
    requires r.Mapped? ==> Flat(n, dir, PageAt(a, k)).Absent?
    ensures MapsFirst(m, t, dir, a, g, if r.Mapped? then k + 1 else k, perm)
    ensures r.Mapped? ==> WasAbsent(m, dir, a, k + 1)
    ensures r.Remap? ==> Flat(m, dir, PageAt(a, k)).Present?
  {
    var v := PageAt(a, k);
    assert Ahead(a, v) == k;
    if r.Mapped? {
      MapsNext(m, n, t, dir, a, g, k, perm);
      forall w | 0 <= w < VPAGES && Ahead(a, w) < k + 1 ensures Flat(m, dir, w).Absent? {
        assert Ahead(a, w) == k ==> w == v;
      }
    }
  }

  /** PGROUNDUP, as a page number. */
  function RoundUp(sz: nat): nat {
    (sz + PGSIZE - 1) / PGSIZE
  }

  lemma Below(v: nat, oldsz: nat)
    requires oldsz <= UPAGES * PGSIZE
    ensures v * PGSIZE < oldsz <==> v < RoundUp(oldsz)
    ensures RoundUp(oldsz) <= UPAGES
  {
    assert oldsz == oldsz / PGSIZE * PGSIZE + oldsz % PGSIZE;
  }

  lemma JumpOver(m: Mem, n: Mem, dir: nat, s: nat, v: nat, e: nat)
    requires Shape(m, dir) && Shape(n, dir) && ClearedTo(m, n, dir, s, v) && Phase(m.tab[dir], s, v)
    requires v < e <= UPAGES && m.tab[dir][v / ENTRIES].Absent?
    ensures Phase(m.tab[dir], s, v + ENTRIES)
    ensures ClearedTo(m, n, dir, s, if v + ENTRIES < e then v + ENTRIES else e)
  {
    var u := if v + ENTRIES < e then v + ENTRIES else e;
    PhaseJump(m.tab[dir], s, v, v);
    forall w | v <= w < u ensures Missed(m.tab[dir], s, w) || Flat(m, dir, w).Absent? {
      PhaseJump(m.tab[dir], s, v, w);
    }
    ClearedJump(m, n, dir, s, v, u);
  }

  lemma NoTablesFreed(m: Mem, dir: nat)
    requires dir in m.tab
    ensures TablesFreed(m, m, dir, 0)
  {
  }

  lemma InRam(m: Mem, lo: nat, f: nat)
    requires MemOk(m, lo) && f in m.tab
    ensures lo <= f < RAMTOP
  {
  }

  lemma NoRegions(m: Mem, d: nat, data: nat)
    requires Shape(m, d) && DataOk(data) && forall v :: 0 <= v < VPAGES ==> Flat(m, d, v).Absent?
    ensures MapsRegions(m, d, data, 0)
  {
  }

  lemma BesideUntouched(m: Mem, n: Mem, d: nat)
    requires Shape(n, d) && Beside(m, n, d)
    ensures Untouched(m, n)
  {
  }

  lemma FreeIsRam(m: Mem, lo: nat)
    requires MemOk(m, lo) && m.free != []
    ensures lo <= m.free[0] < RAMTOP && m.free[0] !in m.page && m.free[0] !in m.tab
  {
    assert m.free[0] in m.free;
  }

  lemma CopyingAbsent(m: Mem, n: Mem, dir: nat, d: nat, v: nat)
    requires Shape(m, dir) && Shape(n, d) && Copying(m, n, dir, d, v) && v < UPAGES
    ensures Flat(n, d, v).Absent?
  {
  }

  lemma OnePage(v: nat, g: nat)
    requires v < VPAGES && g < RAMTOP
    ensures PageAt(v, 0) == v && PageCount(v * PGSIZE, PGSIZE) == 1 && v * PGSIZE < UINT_LIMIT && v * PGSIZE / PGSIZE == v
    ensures g * PGSIZE < UINT_LIMIT && g * PGSIZE / PGSIZE == g && g * PGSIZE % PGSIZE == 0
  {
    var l := v * PGSIZE + PGSIZE + UINT_LIMIT - 1;
    assert l == UINT_LIMIT + (v * PGSIZE + PGSIZE - 1);
    assert l % UINT_LIMIT == v * PGSIZE + PGSIZE - 1;
    assert (v * PGSIZE + PGSIZE - 1) / PGSIZE == v;
  }

  lemma OneMapped(t: Mem, u: Mem, d: nat, v: nat, g: nat, perm: nat)
    requires Shape(t, d) && Shape(u, d) && v < VPAGES && g < RAMTOP && MapsFirst(t, u, d, v, g, 1, perm)
    ensures forall w :: 0 <= w < VPAGES ==> Flat(u, d, w) == if w == v then Present(g, perm) else Flat(t, d, w)
  {
    forall w | 0 <= w < VPAGES ensures Flat(u, d, w) == if w == v then Present(g, perm) else Flat(t, d, w) {
      assert Ahead(v, w) < 1 <==> w == v;
      assert PageAt(g, 0) == g;
    }
  }

  lemma StartCopy(m: Mem, n: Mem, dir: nat, d: nat, data: nat)
    requires Shape(m, dir) && Shape(n, d) && UserOk(n, d) && Beside(m, n, d) && DataOk(data) && MapsRegions(n, d, data, 4)
    ensures Copying(m, n, dir, d, 0)
  {
    hide Beside, UserOk, MapsRegions;
    KernelUserOk(n, d, data);
  }

  lemma CopyingUntouched(m: Mem, n: Mem, dir: nat, d: nat, v: nat)
    requires Shape(m, dir) && Shape(n, d) && Copying(m, n, dir, d, v)
    ensures Untouched(m, n)
  {
  }

  lemma EntryOf(m: Mem, dir: nat, v: nat)
    requires Shape(m, dir) && v < VPAGES
    ensures dir in m.tab
    ensures m.tab[dir][v / ENTRIES].Absent? ==> Flat(m, dir, v).Absent?
    ensures m.tab[dir][v / ENTRIES].Present? ==>
              m.tab[dir][v / ENTRIES].frame in m.tab && Flat(m, dir, v) == m.tab[m.tab[dir][v / ENTRIES].frame][v % ENTRIES]
  {
  }

  lemma ParentPage(m: Mem, n: Mem, dir: nat, v: nat)
    requires Shape(m, dir) && UserOk(m, dir) && Untouched(m, n) && v < UPAGES && Flat(m, dir, v).Present?
    ensures var f := Flat(m, dir, v).frame; f in m.page && f in n.page && n.page[f] == m.page[f]
  {
  }

  lemma CopyingUser(m: Mem, n: Mem, a: Mem, lo: nat, dir: nat, d: nat, v: nat)
    requires MemOk(n, lo) && Shape(m, dir) && Shape(n, d) && Shape(a, d) && Copying(m, n, dir, d, v)
    requires a == n || exists bytes :: NewPage(n, a, bytes)
    ensures UserOk(a, d)
  {
    if a != n {
      TakeFirst(n, lo);
      assert Untouched(n, a);
      UntouchedFlat(n, a, d);
    }
  }

  lemma RolledUntouched(m: Mem, n: Mem)
    requires RolledBack(m, n)
    ensures Untouched(m, n)
  {
  }

  lemma LostUntouched(m: Mem, n: Mem)
    requires LostOne(m, n)
    ensures Untouched(m, n)
  {
    var g :| g in m.free && g in n.page && n.tab == m.tab && n.page - {g} == m.page && forall f :: f in n.free <==> f in m.free && f != g;
    assert forall f :: f in m.page ==> f in n.page - {g};
  }
}
