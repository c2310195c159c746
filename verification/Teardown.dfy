/**
 What deallocuvm's walk clears, with its jumps of 1024 pages over absent tables, and what freeing a
 page does to the flat map.
 */
module Teardown {
  import opened PageTable

  ghost predicate AllAbsent(pd: Table, from: nat, to: nat) {
    forall d :: from <= d < to && d < ENTRIES ==> pd[d].Absent?
  }

  /** A walk that starts at page s inside an absent table jumps to the same offset in later tables, so it
      misses the pages of the first present table that lie below that offset. */
  ghost predicate Missed(pd: Table, s: nat, w: nat) {
    s / ENTRIES < w / ENTRIES && w % ENTRIES < s % ENTRIES && AllAbsent(pd, s / ENTRIES, w / ENTRIES)
  }

  /** A walk that starts on a table boundary misses nothing. */
  lemma AlignedMissesNothing(pd: Table, s: nat, w: nat)
    requires s % ENTRIES == 0 || (s < VPAGES && pd[s / ENTRIES].Present?)
    ensures !Missed(pd, s, w)
  {
  }

  ghost predicate Cleared(pd: Table, s: nat, v: nat, w: nat) {
    s <= w < v && !Missed(pd, s, w)
  }

  /** Where the walk can be: still jumping, or past the first present table and never jumping mid-table. */
  ghost predicate Phase(pd: Table, s: nat, v: nat) {
    && s <= v
    && ((v % ENTRIES == s % ENTRIES && AllAbsent(pd, s / ENTRIES, v / ENTRIES))
        || (Past(pd, s, v) && (v % ENTRIES == 0 || (v < VPAGES && pd[v / ENTRIES].Present?))))
  }

  ghost predicate Past(pd: Table, s: nat, v: nat) {
    exists d :: s / ENTRIES <= d < ENTRIES && d * ENTRIES + s % ENTRIES < v && pd[d].Present?
  }

  lemma PastMissesNothing(pd: Table, s: nat, v: nat, w: nat)
    requires Past(pd, s, v) && v <= w
    ensures !Missed(pd, s, w)
  {
    var d :| s / ENTRIES <= d < ENTRIES && d * ENTRIES + s % ENTRIES < v && pd[d].Present?;
    assert w == w / ENTRIES * ENTRIES + w % ENTRIES;
    assert d <= w / ENTRIES;
  }

  lemma StartPhase(pd: Table, s: nat)
    ensures Phase(pd, s, s)
  {
  }

  /** At a present table the walk clears page v and goes to the next. */
  lemma PhaseStep(pd: Table, s: nat, v: nat)
    requires Phase(pd, s, v) && v < VPAGES && pd[v / ENTRIES].Present?
    ensures !Missed(pd, s, v) && Phase(pd, s, v + 1)
  {
    var d := v / ENTRIES;
    assert v == d * ENTRIES + v % ENTRIES;
    assert v % ENTRIES + 1 < ENTRIES ==> (v + 1) / ENTRIES == d;
    if Past(pd, s, v) {
      PastMissesNothing(pd, s, v, v);
      var c :| s / ENTRIES <= c < ENTRIES && c * ENTRIES + s % ENTRIES < v && pd[c].Present?;
      assert Past(pd, s, v + 1);
    } else {
      assert s / ENTRIES <= d;
      assert Past(pd, s, v + 1);
    }
  }

  /** At an absent table it jumps: what it jumps over is absent, or missed. */
  lemma PhaseJump(pd: Table, s: nat, v: nat, w: nat)
    requires Phase(pd, s, v) && v < VPAGES && pd[v / ENTRIES].Absent?
    ensures Phase(pd, s, v + ENTRIES)
    ensures v <= w < v + ENTRIES ==> w / ENTRIES == v / ENTRIES || Missed(pd, s, w)
  {
    var d := v / ENTRIES;
    assert (v + ENTRIES) / ENTRIES == d + 1 && (v + ENTRIES) % ENTRIES == v % ENTRIES;
    if Past(pd, s, v) {
      var c :| s / ENTRIES <= c < ENTRIES && c * ENTRIES + s % ENTRIES < v && pd[c].Present?;
      assert Past(pd, s, v + ENTRIES);
    }
    if v <= w < v + ENTRIES && w / ENTRIES != d {
      assert w / ENTRIES == d + 1;
      assert w % ENTRIES < v % ENTRIES;
    }
  }

  // ---- freeing ----

  /** kfree: the frame goes to the front of the list, and nothing may look at it again. */
  function FreeFrame(m: Mem, f: nat): Mem {
    Mem(m.tab - {f}, m.page - {f}, [f] + m.free)
  }

  lemma FreeFrameOk(m: Mem, lo: nat, f: nat)
    requires MemOk(m, lo) && (f in m.page || f in m.tab)
    ensures MemOk(FreeFrame(m, f), lo)
    ensures forall g :: g in FreeFrame(m, f).free <==> g == f || g in m.free
  {
    var n := FreeFrame(m, f);
    assert f !in m.free;
    forall i, j | 0 <= i < j < |n.free| ensures n.free[i] != n.free[j] {
      assert n.free[j] == m.free[j - 1];
      if i > 0 {
        assert n.free[i] == m.free[i - 1];
      }
    }
  }

  /** *pte = 0 after kfree of its page. */
  function ClearPage(m: Mem, dir: nat, v: nat): Mem
    requires Shape(m, dir) && v < VPAGES && m.tab[dir][v / ENTRIES].Present?
  {
    var t := m.tab[dir][v / ENTRIES].frame;
    var e := m.tab[t][v % ENTRIES];
    if e.Absent? then m else
      Mem(m.tab[t := m.tab[t][v % ENTRIES := Absent]], m.page - {e.frame}, [e.frame] + m.free)
  }

  ghost predicate IsUserFrame(m: Mem, dir: nat, pd: Table, s: nat, v: nat, f: nat)
    requires Shape(m, dir)
  {
    exists w :: 0 <= w < VPAGES && Cleared(pd, s, v, w) && Flat(m, dir, w).Present? && Flat(m, dir, w).frame == f
  }

  ghost predicate ClearedMap(m: Mem, n: Mem, dir: nat, s: nat, v: nat)
    requires Shape(m, dir) && Shape(n, dir)
  {
    && n.tab[dir] == m.tab[dir]
    && (forall w :: 0 <= w < VPAGES ==> Flat(n, dir, w) == if Cleared(m.tab[dir], s, v, w) then Absent else Flat(m, dir, w))
    && n.tab.Keys == m.tab.Keys
    && (forall f :: f in m.tab && !IsNode(m, dir, f) ==> n.tab[f] == m.tab[f])
  }

  ghost predicate ClearedFrames(m: Mem, n: Mem, dir: nat, s: nat, v: nat)
    requires Shape(m, dir)
  {
    && (forall f :: f in n.free <==> f in m.free || IsUserFrame(m, dir, m.tab[dir], s, v, f))
    && (forall f :: f in n.page <==> f in m.page && !IsUserFrame(m, dir, m.tab[dir], s, v, f))
    && (forall f :: f in n.page && f in m.page ==> n.page[f] == m.page[f])
  }

  /** m after the walk has cleared, from page s up to page v, what it does clear: the map, and the frames
      returned to the allocator. */
  ghost predicate ClearedTo(m: Mem, n: Mem, dir: nat, s: nat, v: nat)
    requires Shape(m, dir) && Shape(n, dir)
  {
    ClearedMap(m, n, dir, s, v) && ClearedFrames(m, n, dir, s, v)
  }

  lemma ClearedNothing(m: Mem, dir: nat, s: nat)
    requires Shape(m, dir)
    ensures ClearedTo(m, m, dir, s, s)
  {
  }

  lemma ClearPageOk(m: Mem, lo: nat, dir: nat, v: nat)
    requires MemOk(m, lo) && Shape(m, dir) && UserOk(m, dir) && v < UPAGES && m.tab[dir][v / ENTRIES].Present?
    ensures MemOk(ClearPage(m, dir, v), lo) && Shape(ClearPage(m, dir, v), dir) && UserOk(ClearPage(m, dir, v), dir)
    ensures ClearPage(m, dir, v).tab[dir] == m.tab[dir]
    ensures forall w :: 0 <= w < VPAGES ==> Flat(ClearPage(m, dir, v), dir, w) == if w == v then Absent else Flat(m, dir, w)
  {
    hide MemOk;
    var t := m.tab[dir][v / ENTRIES].frame;
    SetEntryFlat(m, dir, v, Absent);
    SetEntryMemOk(m, lo, t, v % ENTRIES, Absent);
    var n := SetEntry(m, t, v % ENTRIES, Absent);
    var e := Flat(m, dir, v);
    if e.Present? {
      PageNotTable(m, lo, e.frame);
      FreeFrameOk(n, lo, e.frame);
      assert n.tab - {e.frame} == n.tab;
      assert ClearPage(m, dir, v) == FreeFrame(n, e.frame);
      ClearUserOk(m, ClearPage(m, dir, v), dir, v);
    }
  }

  lemma PageNotTable(m: Mem, lo: nat, f: nat)
    requires MemOk(m, lo) && f in m.page
    ensures f !in m.tab
  {
  }

  lemma ClearUserOk(m: Mem, n: Mem, dir: nat, v: nat)
    requires Shape(m, dir) && Shape(n, dir) && UserOk(m, dir) && v < UPAGES && Flat(m, dir, v).Present?
    requires forall w :: 0 <= w < VPAGES ==> Flat(n, dir, w) == if w == v then Absent else Flat(m, dir, w)
    requires n.page == m.page - {Flat(m, dir, v).frame}
    ensures UserOk(n, dir)
  {
  }

  lemma ClearedNext(pd: Table, s: nat, v: nat, w: nat)
    requires s <= v && !Missed(pd, s, v)
    ensures Cleared(pd, s, v + 1, w) <==> Cleared(pd, s, v, w) || w == v
  {
  }

  /** One more page cleared. */
  lemma ClearedStep(m: Mem, n: Mem, dir: nat, s: nat, v: nat)
    requires Shape(m, dir) && Shape(n, dir) && ClearedTo(m, n, dir, s, v)
    requires s <= v < UPAGES && m.tab[dir][v / ENTRIES].Present? && !Missed(m.tab[dir], s, v)
    requires Shape(ClearPage(n, dir, v), dir) && ClearPage(n, dir, v).tab[dir] == n.tab[dir]
    requires forall w :: 0 <= w < VPAGES ==> Flat(ClearPage(n, dir, v), dir, w) == if w == v then Absent else Flat(n, dir, w)
    ensures ClearedTo(m, ClearPage(n, dir, v), dir, s, v + 1)
  {
    var t := ClearPage(n, dir, v);
    assert ClearedMap(m, t, dir, s, v + 1) by {
      hide ClearedFrames;
      forall w: nat ensures Cleared(m.tab[dir], s, v + 1, w) <==> Cleared(m.tab[dir], s, v, w) || w == v {
        ClearedNext(m.tab[dir], s, v, w);
      }
      assert IsNode(m, dir, m.tab[dir][v / ENTRIES].frame);
    }
    ClearedStepFrames(m, n, dir, s, v);
  }

  lemma ClearedStepFrames(m: Mem, n: Mem, dir: nat, s: nat, v: nat)
    requires Shape(m, dir) && Shape(n, dir) && ClearedMap(m, n, dir, s, v) && ClearedFrames(m, n, dir, s, v)
    requires s <= v < UPAGES && m.tab[dir][v / ENTRIES].Present? && !Missed(m.tab[dir], s, v)
    ensures ClearedFrames(m, ClearPage(n, dir, v), dir, s, v + 1)
  {
    var t := ClearPage(n, dir, v);
    var e := Flat(m, dir, v);
    assert e == Flat(n, dir, v);
    hide Shape, ClearedMap, Flat, Missed, Cleared, IsUserFrame;
    forall f ensures IsUserFrame(m, dir, m.tab[dir], s, v + 1, f) <==>
              IsUserFrame(m, dir, m.tab[dir], s, v, f) || (e.Present? && e.frame == f) {
      UserFrameStep(m, dir, s, v, f);
    }
    assert t.free == if e.Present? then [e.frame] + n.free else n.free;
  }

  lemma UserFrameStep(m: Mem, dir: nat, s: nat, v: nat, f: nat)
    requires Shape(m, dir) && s <= v < UPAGES && !Missed(m.tab[dir], s, v)
    ensures IsUserFrame(m, dir, m.tab[dir], s, v + 1, f) <==>
            IsUserFrame(m, dir, m.tab[dir], s, v, f) || (Flat(m, dir, v).Present? && Flat(m, dir, v).frame == f)
  {
    var pd := m.tab[dir];
    if IsUserFrame(m, dir, pd, s, v, f) {
      var w :| 0 <= w < VPAGES && Cleared(pd, s, v, w) && Flat(m, dir, w).Present? && Flat(m, dir, w).frame == f;
      assert Cleared(pd, s, v + 1, w);
    }
    if Flat(m, dir, v).Present? && Flat(m, dir, v).frame == f {
      assert Cleared(pd, s, v + 1, v);
    }
  }

  /** A jump clears nothing: of the pages below it, those it should have cleared are absent. */
  lemma ClearedJump(m: Mem, n: Mem, dir: nat, s: nat, v: nat, u: nat)
    requires Shape(m, dir) && Shape(n, dir) && ClearedTo(m, n, dir, s, v) && v <= u <= VPAGES
    requires forall w :: v <= w < u ==> Missed(m.tab[dir], s, w) || Flat(m, dir, w).Absent?
    ensures ClearedTo(m, n, dir, s, u)
  {
    var pd := m.tab[dir];
    forall f ensures IsUserFrame(m, dir, pd, s, u, f) <==> IsUserFrame(m, dir, pd, s, v, f) {
      if IsUserFrame(m, dir, pd, s, v, f) {
        var w :| 0 <= w < VPAGES && Cleared(pd, s, v, w) && Flat(m, dir, w).Present? && Flat(m, dir, w).frame == f;
        assert Cleared(pd, s, u, w);
      }
      if IsUserFrame(m, dir, pd, s, u, f) {
        var w :| 0 <= w < VPAGES && Cleared(pd, s, u, w) && Flat(m, dir, w).Present? && Flat(m, dir, w).frame == f;
        assert Cleared(pd, s, v, w);
      }
    }
  }

  /** deallocuvm empties its range exactly when the pages its jumps miss were absent to begin with. */
  lemma DeallocExact(m: Mem, n: Mem, dir: nat, s: nat, e: nat)
    requires Shape(m, dir) && Shape(n, dir) && ClearedTo(m, n, dir, s, e) && e <= UPAGES
    ensures (forall w :: s <= w < e ==> Flat(n, dir, w).Absent?) <==>
            (forall w :: s <= w < e && Missed(m.tab[dir], s, w) ==> Flat(m, dir, w).Absent?)
  {
    forall w | s <= w < e ensures Flat(n, dir, w) == if Missed(m.tab[dir], s, w) then Flat(m, dir, w) else Absent {
      assert Cleared(m.tab[dir], s, e, w) <==> !Missed(m.tab[dir], s, w);
    }
  }

  /** One page, at the start of the second table; the first table is absent. */
  function LonePage(): Mem {
    Mem(map[1 := NoEntries()[1 := Present(2, 7)], 2 := NoEntries()[0 := Present(3, 7)]], map[3 := []], [])
  }

  /** Shrinking from there to a size inside the first table leaves the page where it is. */
  lemma LonePageMissed()
    ensures MemOk(LonePage(), 1) && Shape(LonePage(), 1) && UserOk(LonePage(), 1)
    ensures Flat(LonePage(), 1, ENTRIES).Present? && Missed(LonePage().tab[1], 1, ENTRIES)
  {
    var m := LonePage();
    assert m.tab[1][1] == Present(2, 7) && m.tab[2][0] == Present(3, 7);
    forall v | 0 <= v < VPAGES ensures Flat(m, 1, v).Present? <==> v == ENTRIES {
      assert v / ENTRIES == 1 && v % ENTRIES == 0 <==> v == ENTRIES;
    }
  }

  // ---- the tables themselves ----

  ghost predicate IsTableBelow(m: Mem, dir: nat, i: nat, f: nat)
    requires dir in m.tab
  {
    exists d :: 0 <= d < i && d < ENTRIES && m.tab[dir][d].Present? && m.tab[dir][d].frame == f
  }

  /** n after freevm's second loop has freed the tables of the first i directory entries. */
  ghost predicate TablesFreed(m: Mem, n: Mem, dir: nat, i: nat)
    requires dir in m.tab
  {
    && n.page == m.page
    && (forall f :: f in n.tab <==> f in m.tab && !IsTableBelow(m, dir, i, f))
    && (forall f :: f in n.tab && f in m.tab ==> n.tab[f] == m.tab[f])
    && (forall f :: f in n.free <==> f in m.free || IsTableBelow(m, dir, i, f))
  }

  lemma TablesFreedStep(m: Mem, n: Mem, lo: nat, dir: nat, i: nat)
    requires Shape(m, dir) && MemOk(n, lo) && TablesFreed(m, n, dir, i) && i < ENTRIES
    ensures dir in n.tab && n.tab[dir] == m.tab[dir]
    ensures var pde := m.tab[dir][i];
            && (pde.Absent? ==> TablesFreed(m, n, dir, i + 1))
            && (pde.Present? ==> && pde.frame in n.tab && MemOk(FreeFrame(n, pde.frame), lo)
                                 && TablesFreed(m, FreeFrame(n, pde.frame), dir, i + 1))
  {
    var pde := m.tab[dir][i];
    forall f ensures IsTableBelow(m, dir, i + 1, f) <==> IsTableBelow(m, dir, i, f) || (pde.Present? && pde.frame == f) {
      if IsTableBelow(m, dir, i, f) {
        var d :| 0 <= d < i && d < ENTRIES && m.tab[dir][d].Present? && m.tab[dir][d].frame == f;
        assert IsTableBelow(m, dir, i + 1, f);
      }
      if pde.Present? && pde.frame == f {
        assert IsTableBelow(m, dir, i + 1, f);
      }
    }
    assert !IsTableBelow(m, dir, i, dir);
    if pde.Present? {
      assert !IsTableBelow(m, dir, i, pde.frame);
      FreeFrameOk(n, lo, pde.frame);
    }
  }

  ghost predicate IsUser(m: Mem, dir: nat, f: nat)
    requires Shape(m, dir)
  {
    exists v :: 0 <= v < UPAGES && Flat(m, dir, v).Present? && Flat(m, dir, v).frame == f
  }

  /** n after freevm: the user frames, the tables and the directory are free, and nothing else changed. */
  ghost predicate AllFreed(m: Mem, n: Mem, dir: nat)
    requires Shape(m, dir)
  {
    && (forall f :: f in n.free <==> f in m.free || IsUser(m, dir, f) || IsNode(m, dir, f))
    && (forall f :: f in n.page <==> f in m.page && !IsUser(m, dir, f))
    && (forall f :: f in n.page && f in m.page ==> n.page[f] == m.page[f])
    && (forall f :: f in n.tab <==> f in m.tab && !IsNode(m, dir, f))
    && (forall f :: f in n.tab && f in m.tab ==> n.tab[f] == m.tab[f])
  }

  lemma UserFrames(m: Mem, dir: nat, f: nat)
    requires Shape(m, dir)
    ensures IsUser(m, dir, f) <==> IsUserFrame(m, dir, m.tab[dir], 0, UPAGES, f)
  {
    var pd := m.tab[dir];
    if IsUser(m, dir, f) {
      var v :| 0 <= v < UPAGES && Flat(m, dir, v).Present? && Flat(m, dir, v).frame == f;
      AlignedMissesNothing(pd, 0, v);
      assert Cleared(pd, 0, UPAGES, v);
    }
    if IsUserFrame(m, dir, pd, 0, UPAGES, f) {
      var w :| 0 <= w < VPAGES && Cleared(pd, 0, UPAGES, w) && Flat(m, dir, w).Present? && Flat(m, dir, w).frame == f;
      assert w < UPAGES;
    }
  }

  lemma NodesStay(m: Mem, a: Mem, dir: nat, f: nat)
    requires Shape(m, dir) && Shape(a, dir) && ClearedTo(m, a, dir, 0, UPAGES)
    ensures IsNode(m, dir, f) <==> f == dir || IsTableBelow(a, dir, ENTRIES, f)
  {
  }

  /** User pages, then tables, then the directory: together, everything once. */
  lemma FreedTogether(m: Mem, a: Mem, b: Mem, lo: nat, dir: nat)
    requires Shape(m, dir) && Shape(a, dir) && ClearedTo(m, a, dir, 0, UPAGES)
    requires TablesFreed(a, b, dir, ENTRIES) && dir in b.tab && MemOk(b, lo)
    ensures MemOk(FreeFrame(b, dir), lo) && AllFreed(m, FreeFrame(b, dir), dir)
  {
    assert dir !in b.page && dir !in b.free;
    hide Flat, IsUser, IsUserFrame, IsTableBelow, IsNode, MemOk, Shape;
    FreeFrameOk(b, lo, dir);
    forall f: nat ensures IsNode(m, dir, f) <==> f == dir || IsTableBelow(a, dir, ENTRIES, f) {
      NodesStay(m, a, dir, f);
    }
    forall f ensures IsUser(m, dir, f) <==> IsUserFrame(m, dir, m.tab[dir], 0, UPAGES, f) {
      UserFrames(m, dir, f);
    }
  }
}
