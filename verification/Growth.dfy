/**
 allocuvm: growing a user space page by page, with what it does when memory runs out on the way. A page
 that mappages could not map is not noticed there (vm.c ignores its result), so the outcome depends on
 exactly how many frames are free.
 */
module Growth {
  import opened Basics
  import opened Blocks
  import opened PageTable
  import opened Teardown
  import opened AddressSpace
  import opened FrameCount
  import opened VirtualMemory

  function ZeroPage(): seq<Byte> {
    seq(PGSIZE, i => 0)
  }

  // ---- a space that grows ----

  /** f is the frame of one of the pages from page s up to page v. */
  ghost predicate Behind(n: Mem, dir: nat, s: nat, v: nat, f: nat)
    requires Shape(n, dir)
  {
    exists w :: s <= w < v && w < UPAGES && Flat(n, dir, w).Present? && Flat(n, dir, w).frame == f
  }

  /** Page w is new: a zeroed frame that was free, writable by the user. */
  ghost predicate ZeroedPage(m: Mem, n: Mem, dir: nat, w: nat)
    requires Shape(n, dir) && w < UPAGES
  {
    var c := Flat(n, dir, w);
    c.Present? && c.perm == 7 && c.frame in m.free && c.frame !in m.page && c.frame in n.page && n.page[c.frame] == ZeroPage()
  }

  /** Pages from s up to v are new and all others are as they were. */
  ghost predicate NewPages(m: Mem, n: Mem, dir: nat, s: nat, v: nat)
    requires Shape(m, dir) && Shape(n, dir)
  {
    && s <= v <= UPAGES && UserOk(n, dir)
    && (forall w :: 0 <= w < VPAGES && !(s <= w < v) ==> Flat(n, dir, w) == Flat(m, dir, w))
    && (forall w :: s <= w < v ==> ZeroedPage(m, n, dir, w))
  }

  /** The frames taken: new pages, new tables of dir, and those in lost, which nothing refers to. */
  ghost predicate Taken(m: Mem, n: Mem, dir: nat, s: nat, v: nat, lost: set<nat>)
    requires Shape(m, dir) && Shape(n, dir)
  {
    && (forall f :: f in m.page ==> f in n.page && n.page[f] == m.page[f])
    && (forall f :: f in n.page <==> f in m.page || Behind(n, dir, s, v, f) || f in lost)
    && (forall f :: f in n.free <==> f in m.free && f !in n.tab && !Behind(n, dir, s, v, f) && f !in lost)
    && (forall f :: f in lost ==> f in m.free && f !in m.page && f !in n.tab && !Behind(n, dir, s, v, f))
    && OthersKept(m, n, dir)
  }

  /** Tables of other directories stay, and new tables were free. */
  ghost predicate OthersKept(m: Mem, n: Mem, dir: nat)
    requires dir in m.tab && dir in n.tab
  {
    && (forall f :: f in m.tab ==> f in n.tab && (n.tab[f] == m.tab[f] || IsNode(m, dir, f)))
    && (forall f :: f in m.tab ==> (IsNode(m, dir, f) <==> IsNode(n, dir, f)))
    && (forall f :: f in n.tab && f !in m.tab ==> f in m.free && IsNode(n, dir, f))
  }

  ghost predicate Growing(m: Mem, n: Mem, dir: nat, s: nat, v: nat, lost: set<nat>)
    requires Shape(m, dir) && Shape(n, dir)
  {
    NewPages(m, n, dir, s, v) && Taken(m, n, dir, s, v, lost)
  }

  lemma StartGrowing(m: Mem, lo: nat, dir: nat, s: nat)
    requires MemOk(m, lo) && Shape(m, dir) && UserOk(m, dir) && s <= UPAGES
    ensures Growing(m, m, dir, s, s, {})
  {
  }

  /** One more page. */
  lemma GrowStep(m: Mem, n: Mem, t: Mem, u: Mem, lo: nat, dir: nat, s: nat, v: nat)
    requires MemOk(m, lo) && MemOk(n, lo) && MemOk(u, lo) && Shape(m, dir) && Shape(n, dir) && Shape(t, dir) && Shape(u, dir)
    requires Growing(m, n, dir, s, v, {}) && v < UPAGES && NewPage(n, t, ZeroPage()) && Grew(t, u, dir)
    requires forall w :: 0 <= w < VPAGES ==> Flat(u, dir, w) == if w == v then Present(n.free[0], 7) else Flat(n, dir, w)
    ensures Growing(m, u, dir, s, v + 1, {})
  {
    TakeFirst(n, lo);
    GrowPages(m, n, t, u, lo, dir, s, v);
    forall f ensures Behind(u, dir, s, v + 1, f) <==> Behind(n, dir, s, v, f) || f == n.free[0] {
      BehindNext(n, u, dir, s, v, f);
    }
    forall f | Behind(n, dir, s, v, f) ensures f in n.page {
    }
    assert forall f :: IsNode(t, dir, f) <==> IsNode(n, dir, f);
    hide Flat, Shape, Behind, NewPages, IsNode;
    GrowTaken(m, n, t, u, lo, dir, s, v);
  }

  lemma BehindNext(n: Mem, u: Mem, dir: nat, s: nat, v: nat, f: nat)
    requires Shape(n, dir) && Shape(u, dir) && s <= v < UPAGES && n.free != []
    requires forall w :: 0 <= w < VPAGES ==> Flat(u, dir, w) == if w == v then Present(n.free[0], 7) else Flat(n, dir, w)
    ensures Behind(u, dir, s, v + 1, f) <==> Behind(n, dir, s, v, f) || f == n.free[0]
  {
    if Behind(n, dir, s, v, f) {
      var w :| s <= w < v && w < UPAGES && Flat(n, dir, w).Present? && Flat(n, dir, w).frame == f;
      assert Flat(u, dir, w).frame == f;
    }
    if Behind(u, dir, s, v + 1, f) {
      var w :| s <= w < v + 1 && w < UPAGES && Flat(u, dir, w).Present? && Flat(u, dir, w).frame == f;
      assert w != v ==> Flat(n, dir, w).frame == f;
    }
    assert Flat(u, dir, v).frame == n.free[0];
  }

  lemma GrowPages(m: Mem, n: Mem, t: Mem, u: Mem, lo: nat, dir: nat, s: nat, v: nat)
    requires MemOk(m, lo) && MemOk(n, lo) && Shape(m, dir) && Shape(n, dir) && Shape(t, dir) && Shape(u, dir)
    requires Growing(m, n, dir, s, v, {}) && v < UPAGES && NewPage(n, t, ZeroPage()) && u.page == t.page
    requires forall w :: 0 <= w < VPAGES ==> Flat(u, dir, w) == if w == v then Present(n.free[0], 7) else Flat(n, dir, w)
    ensures NewPages(m, u, dir, s, v + 1)
  {
    TakeFirst(n, lo);
    var g := n.free[0];
    assert g in m.free && g !in m.page;
    hide Shape;
    forall w | s <= w < v + 1 ensures ZeroedPage(m, u, dir, w) {
      if w < v {
        assert ZeroedPage(m, n, dir, w);
      }
    }
  }

  lemma GrowTaken(m: Mem, n: Mem, t: Mem, u: Mem, lo: nat, dir: nat, s: nat, v: nat)
    requires MemOk(m, lo) && MemOk(n, lo) && MemOk(u, lo) && Shape(m, dir) && Shape(n, dir) && Shape(t, dir) && Shape(u, dir)
    requires Taken(m, n, dir, s, v, {}) && NewPage(n, t, ZeroPage()) && Grew(t, u, dir)
    requires forall f :: Behind(u, dir, s, v + 1, f) <==> Behind(n, dir, s, v, f) || f == n.free[0]
    requires forall f :: Behind(n, dir, s, v, f) ==> f in n.page
    requires forall f :: IsNode(t, dir, f) <==> IsNode(n, dir, f)
    ensures Taken(m, u, dir, s, v + 1, {})
  {
    hide Behind, IsNode, Shape, MemOk;
    GrowOthers(m, n, t, u, lo, dir);
    HasDir(t, dir);
    HasDir(u, dir);
    GrowFrames(n, t, u, lo, dir);
    hide Grew, OthersKept, NewPage;
  }

  lemma GrowOthers(m: Mem, n: Mem, t: Mem, u: Mem, lo: nat, dir: nat)
    requires MemOk(n, lo) && Shape(m, dir) && Shape(n, dir) && Shape(t, dir) && Shape(u, dir)
    requires OthersKept(m, n, dir) && NewPage(n, t, ZeroPage()) && Grew(t, u, dir) && forall f :: f in n.free ==> f in m.free
    requires forall f :: IsNode(t, dir, f) <==> IsNode(n, dir, f)
    ensures OthersKept(m, u, dir)
  {
    hide IsNode, Shape;
    TakeFirst(n, lo);
  }

  /** The first free frame became a page and others tables. */
  lemma GrowFrames(n: Mem, t: Mem, u: Mem, lo: nat, dir: nat)
    requires MemOk(n, lo) && MemOk(u, lo) && dir in t.tab && dir in u.tab && NewPage(n, t, ZeroPage()) && Grew(t, u, dir)
    ensures n.free != [] && u.page == n.page[n.free[0] := ZeroPage()] && n.free[0] !in n.page
    ensures forall f :: f in u.free <==> f in n.free && f != n.free[0] && f !in u.tab
    ensures forall f :: f in n.tab ==> f in u.tab
    ensures forall f :: f in u.tab && f !in n.tab ==> f in n.free && f != n.free[0]
  {
    hide IsNode;
    TakeFirst(n, lo);
  }

  // ---- how many frames it takes ----

  /** The frames that mapping the pages from s up to v takes: the pages and the tables that are missing. */
  ghost function Need(m: Mem, dir: nat, s: nat, v: nat): nat
    requires dir in m.tab && s <= v
  {
    v - s + |SlotsOf(s, v - s) - Tables(m, dir)|
  }

  /** Page v is the first of the pages from s on in a table that is missing. */
  ghost predicate Opens(m: Mem, dir: nat, s: nat, v: nat)
    requires dir in m.tab && s <= v
  {
    v / ENTRIES !in Tables(m, dir) && v / ENTRIES !in SlotsOf(s, v - s)
  }

  lemma NeedNext(m: Mem, dir: nat, s: nat, v: nat)
    requires dir in m.tab && s <= v < VPAGES
    ensures SlotsOf(s, v + 1 - s) == SlotsOf(s, v - s) + {v / ENTRIES}
    ensures Need(m, dir, s, v + 1) == Need(m, dir, s, v) + 1 + (if Opens(m, dir, s, v) then 1 else 0)
  {
    assert PageAt(s, v - s) == v;
    var a, b := SlotsOf(s, v - s) - Tables(m, dir), SlotsOf(s, v + 1 - s) - Tables(m, dir);
    if Opens(m, dir, s, v) {
      assert b == a + {v / ENTRIES};
    } else {
      assert b == a;
    }
  }

  lemma {:induction false} NeedGrows(m: Mem, dir: nat, s: nat, v: nat, w: nat)
    requires dir in m.tab && s <= v < w <= VPAGES
    ensures Need(m, dir, s, v + 1) <= Need(m, dir, s, w)
    decreases w - v
  {
    hide Need, Opens;
    if v + 1 < w {
      NeedNext(m, dir, s, w - 1);
      NeedGrows(m, dir, s, v, w - 1);
    }
  }

  /** What n has left of m's free frames. */
  ghost predicate Spent(m: Mem, n: Mem, dir: nat, s: nat, v: nat)
    requires dir in m.tab && dir in n.tab && s <= v
  {
    Tables(n, dir) == Tables(m, dir) + SlotsOf(s, v - s) && Held(n, dir) + (v - s) == Held(m, dir)
  }

  lemma SpentLeaves(m: Mem, n: Mem, dir: nat, s: nat, v: nat)
    requires dir in m.tab && dir in n.tab && s <= v && Spent(m, n, dir, s, v)
    ensures |n.free| == |m.free| - Need(m, dir, s, v)
    ensures v / ENTRIES in Tables(n, dir) <==> !Opens(m, dir, s, v)
  {
    var a := SlotsOf(s, v - s) - Tables(m, dir);
    assert Tables(n, dir) == Tables(m, dir) + a;
  }

  // ---- the outcome ----

  /** Grown: all pages there. Short: the new size is reported, but its last page is not mapped. Refused: 0 is
      reported, after deallocuvm. Remapped: mappages met a page that was there already. */
  datatype GrowResult = Grown | Short | Refused | Remapped

  /** The pages from s up to q are absent, and q is hi or a page that is there. */
  ghost predicate Gap(m: Mem, dir: nat, s: nat, hi: nat, q: nat)
    requires Shape(m, dir) && hi <= UPAGES
  {
    && s <= q <= hi && (forall w :: s <= w < q ==> Flat(m, dir, w).Absent?)
    && (q < hi ==> Flat(m, dir, q).Present?)
  }

  /** There is such a q. */
  lemma {:induction false} FirstTaken(m: Mem, dir: nat, s: nat, hi: nat) returns (q: nat)
    requires Shape(m, dir) && s <= hi <= UPAGES
    ensures Gap(m, dir, s, hi, q)
    decreases hi - s
  {
    if s == hi || Flat(m, dir, s).Present? {
      q := s;
    } else {
      q := FirstTaken(m, dir, s + 1, hi);
    }
  }

  /** A frame is filled for page v, and then there is none for its table. */
  ghost predicate Strands(m: Mem, dir: nat, s: nat, v: nat)
    requires dir in m.tab && s <= v
  {
    Opens(m, dir, s, v) && |m.free| == Need(m, dir, s, v) + 1
  }

  /** The outcome of growing from page s to page hi when pages s up to q are absent; lost is whether a frame
      ends up on no list. */
  ghost predicate GrowthOutcome(m: Mem, dir: nat, s: nat, hi: nat, q: nat, r: GrowResult, lost: bool)
    requires dir in m.tab && s <= q <= hi
  {
    var n := |m.free|;
    && (r.Grown? <==> q == hi && Need(m, dir, s, hi) <= n)
    && (r.Short? <==> q == hi && s < hi && Opens(m, dir, s, hi - 1) && Need(m, dir, s, hi) == n + 1)
    && (r.Remapped? <==> q < hi && Need(m, dir, s, q) < n)
    && (lost <==> exists v :: s <= v < q && Strands(m, dir, s, v))
  }

  /** How each result shows at the page v that growing has come to. */
  ghost predicate EndsAt(m: Mem, dir: nat, s: nat, hi: nat, v: nat, r: GrowResult, lost: bool)
    requires Shape(m, dir) && s <= v <= hi <= UPAGES
  {
    var n := |m.free|;
    && (forall w :: s <= w < v ==> Flat(m, dir, w).Absent?)
    && match r
       case Grown => v == hi && Need(m, dir, s, v) <= n && !lost
       case Short => v + 1 == hi && Flat(m, dir, v).Absent? && Strands(m, dir, s, v) && lost
       case Remapped => v < hi && Flat(m, dir, v).Present? && Need(m, dir, s, v) < n && !lost
       case Refused => if lost then v + 1 < hi && Flat(m, dir, v).Absent? && Strands(m, dir, s, v)
                       else v < hi && n == Need(m, dir, s, v)
  }

  lemma EndsInGap(m: Mem, dir: nat, s: nat, hi: nat, v: nat, q: nat, r: GrowResult, lost: bool)
    requires Shape(m, dir) && s <= v <= hi <= UPAGES && EndsAt(m, dir, s, hi, v, r, lost) && Gap(m, dir, s, hi, q)
    ensures v <= q <= hi && (r.Remapped? ==> q == v) && (r.Short? ==> q == hi) && (lost ==> v < q)
  {
    hide Need, Opens, Shape, Flat, Strands;
  }

  /** At most one page strands its frame, and only where growing stops. */
  lemma StrandsOnce(m: Mem, dir: nat, s: nat, v: nat, w: nat)
    requires dir in m.tab && s <= v <= VPAGES && s <= w < VPAGES && Strands(m, dir, s, w)
    ensures w < v ==> |m.free| < Need(m, dir, s, v)
    ensures v <= w ==> Need(m, dir, s, v) < |m.free|
    ensures v < w ==> Need(m, dir, s, v + 1) < |m.free|
  {
    hide Need, Opens;
    NeedNext(m, dir, s, w);
    if w < v {
      NeedGrows(m, dir, s, w, v);
    } else if v < w {
      NeedGrows(m, dir, s, v, w);
      NeedNext(m, dir, s, v);
    }
  }

  lemma EndIsOutcome(m: Mem, dir: nat, s: nat, hi: nat, v: nat, q: nat, r: GrowResult, lost: bool)
    requires Shape(m, dir) && s <= v <= hi <= UPAGES && EndsAt(m, dir, s, hi, v, r, lost) && Gap(m, dir, s, hi, q)
    ensures dir in m.tab && GrowthOutcome(m, dir, s, hi, q, r, lost)
  {
    hide Need, Opens, Flat, Shape, Gap;
    EndsInGap(m, dir, s, hi, v, q, r, lost);
    HasDir(m, dir);
    if !lost {
      forall w | s <= w < q && Strands(m, dir, s, w) ensures false {
        StrandsOnce(m, dir, s, v, w);
      }
    }
    if v < hi {
      NeedNext(m, dir, s, v);
      NeedGrows(m, dir, s, v, hi);
      if v < q {
        NeedGrows(m, dir, s, v, q);
      }
      NeedNext(m, dir, s, hi - 1);
      if v < hi - 1 {
        NeedGrows(m, dir, s, v, hi - 1);
      }
    } else if s < hi {
      NeedNext(m, dir, s, hi - 1);
    }
  }

  /** An empty directory and one free frame. */
  function OneFrame(): Mem {
    Mem(map[1 := NoEntries()], map[], [2])
  }

  lemma OneFrameOk()
    ensures MemOk(OneFrame(), 1) && Shape(OneFrame(), 1) && UserOk(OneFrame(), 1) && Gap(OneFrame(), 1, 0, 1, 1)
    ensures Tables(OneFrame(), 1) == {}
  {
    assert forall d :: 0 <= d < ENTRIES ==> OneFrame().tab[1][d].Absent?;
  }

  /** Growing it by one page is reported as done, but the page is not there: its frame was needed twice. */
  lemma OneFrameShort(r: GrowResult, lost: bool)
    requires GrowthOutcome(OneFrame(), 1, 0, 1, 1, r, lost)
    ensures r.Short? && lost
  {
    var m := OneFrame();
    OneFrameOk();
    NeedNext(m, 1, 0, 0);
    assert SlotsOf(0, 0) == {} && Need(m, 1, 0, 0) == 0;
    assert Strands(m, 1, 0, 0);
  }

  // ---- giving up ----

  /** The map is as before; of the frames taken only new tables of dir and those in lost are not free again. */
  ghost predicate Restored(m: Mem, n: Mem, dir: nat, lost: set<nat>)
    requires Shape(m, dir) && Shape(n, dir)
  {
    && (forall w :: 0 <= w < VPAGES ==> Flat(n, dir, w) == Flat(m, dir, w))
    && (forall f :: f in n.page <==> f in m.page || f in lost)
    && (forall f :: f in m.page ==> n.page[f] == m.page[f])
    && (forall f :: f in n.free <==> f in m.free && f !in n.tab && f !in lost)
    && OthersKept(m, n, dir)
  }

  /** deallocuvm after a growth that stopped at page v: its jumps miss nothing, since the table of the first
      new page is there. */
  lemma Undone(m: Mem, n: Mem, t: Mem, lo: nat, dir: nat, s: nat, v: nat, hi: nat, lost: set<nat>)
    requires MemOk(m, lo) && MemOk(n, lo) && Shape(m, dir) && Shape(n, dir) && Shape(t, dir) && Growing(m, n, dir, s, v, lost) && v <= hi <= UPAGES
    requires forall w :: s <= w < hi ==> Flat(m, dir, w).Absent?
    requires ClearedTo(n, t, dir, s, hi)
    ensures Restored(m, t, dir, lost)
  {
    hide Behind, IsNode, IsUserFrame, Missed, Cleared, Flat, Shape, UserOk;
    HasDir(n, dir);
    forall w | 0 <= w < VPAGES ensures Flat(t, dir, w) == Flat(m, dir, w) {
      UndoneAt(m, n, t, dir, s, v, hi, w);
    }
    forall f ensures IsUserFrame(n, dir, n.tab[dir], s, hi, f) <==> Behind(n, dir, s, v, f) {
      UndoneFrame(m, n, dir, s, v, hi, f);
    }
    forall f ensures Behind(n, dir, s, v, f) ==> f in m.free && f !in m.page {
      BehindWasFree(m, n, dir, s, v, f);
    }
    UndoneFrames(m, n, t, lo, dir, s, v, hi, lost);
    UndoneOthers(m, n, t, dir, s, hi);
  }

  lemma BehindWasFree(m: Mem, n: Mem, dir: nat, s: nat, v: nat, f: nat)
    requires Shape(m, dir) && Shape(n, dir) && NewPages(m, n, dir, s, v)
    ensures Behind(n, dir, s, v, f) ==> f in m.free && f !in m.page
  {
    if Behind(n, dir, s, v, f) {
      var w :| s <= w < v && w < UPAGES && Flat(n, dir, w).Present? && Flat(n, dir, w).frame == f;
      assert ZeroedPage(m, n, dir, w);
    }
  }

  lemma NotMissed(m: Mem, n: Mem, dir: nat, s: nat, v: nat, w: nat)
    requires Shape(m, dir) && Shape(n, dir) && NewPages(m, n, dir, s, v) && s < v
    ensures !Missed(n.tab[dir], s, w)
  {
    assert ZeroedPage(m, n, dir, s);
    AlignedMissesNothing(n.tab[dir], s, w);
  }

  lemma UndoneAt(m: Mem, n: Mem, t: Mem, dir: nat, s: nat, v: nat, hi: nat, w: nat)
    requires Shape(m, dir) && Shape(n, dir) && Shape(t, dir) && NewPages(m, n, dir, s, v) && v <= hi <= UPAGES
    requires forall w :: s <= w < hi ==> Flat(m, dir, w).Absent?
    requires ClearedMap(n, t, dir, s, hi) && w < VPAGES
    ensures Flat(t, dir, w) == Flat(m, dir, w)
  {
    if s <= w < v {
      NotMissed(m, n, dir, s, v, w);
    }
  }

  lemma UndoneFrame(m: Mem, n: Mem, dir: nat, s: nat, v: nat, hi: nat, f: nat)
    requires Shape(m, dir) && Shape(n, dir) && NewPages(m, n, dir, s, v) && v <= hi <= UPAGES
    requires forall w :: s <= w < hi ==> Flat(m, dir, w).Absent?
    ensures IsUserFrame(n, dir, n.tab[dir], s, hi, f) <==> Behind(n, dir, s, v, f)
  {
    var pd := n.tab[dir];
    if IsUserFrame(n, dir, pd, s, hi, f) {
      var w :| 0 <= w < VPAGES && Cleared(pd, s, hi, w) && Flat(n, dir, w).Present? && Flat(n, dir, w).frame == f;
      assert w < v;
    }
    if Behind(n, dir, s, v, f) {
      var w :| s <= w < v && w < UPAGES && Flat(n, dir, w).Present? && Flat(n, dir, w).frame == f;
      NotMissed(m, n, dir, s, v, w);
      assert Cleared(pd, s, hi, w);
    }
  }

  lemma UndoneFrames(m: Mem, n: Mem, t: Mem, lo: nat, dir: nat, s: nat, v: nat, hi: nat, lost: set<nat>)
    requires MemOk(m, lo) && Shape(m, dir) && Shape(n, dir) && Taken(m, n, dir, s, v, lost)
    requires ClearedFrames(n, t, dir, s, hi) && t.tab.Keys == n.tab.Keys
    requires forall f :: IsUserFrame(n, dir, n.tab[dir], s, hi, f) <==> Behind(n, dir, s, v, f)
    requires forall f :: Behind(n, dir, s, v, f) ==> f in m.free && f !in m.page && f !in n.tab
    ensures forall f :: f in t.page <==> f in m.page || f in lost
    ensures forall f :: f in m.page ==> f in t.page && t.page[f] == m.page[f]
    ensures forall f :: f in t.free <==> f in m.free && f !in t.tab && f !in lost
  {
    hide Behind, IsUserFrame, Shape, OthersKept;
  }

  lemma UndoneOthers(m: Mem, n: Mem, t: Mem, dir: nat, s: nat, hi: nat)
    requires Shape(m, dir) && Shape(n, dir) && Shape(t, dir) && OthersKept(m, n, dir) && ClearedMap(n, t, dir, s, hi)
    ensures OthersKept(m, t, dir)
  {
    assert forall f :: IsNode(t, dir, f) <==> IsNode(n, dir, f);
    hide IsNode, Flat, Shape, Cleared;
  }

  lemma GrowingFacts(m: Mem, n: Mem, dir: nat, s: nat, v: nat, lost: set<nat>)
    requires Shape(m, dir) && Shape(n, dir) && Growing(m, n, dir, s, v, lost)
    ensures s <= v <= UPAGES && UserOk(n, dir) && (v < UPAGES ==> Flat(n, dir, v) == Flat(m, dir, v))
  {
  }

  lemma NewPageFlat(n: Mem, t: Mem, lo: nat, dir: nat)
    requires MemOk(n, lo) && Shape(n, dir) && NewPage(n, t, ZeroPage())
    ensures Shape(t, dir) && forall w :: 0 <= w < VPAGES ==> Flat(t, dir, w) == Flat(n, dir, w)
  {
    TakeFirst(n, lo);
    UntouchedFlat(n, t, dir);
  }

  /** Where mappages maps its one page, or has no table for it, there was none. */
  lemma OneWasAbsent(t: Mem, u: Mem, dir: nat, v: nat)
    requires Shape(t, dir) && v < VPAGES
    requires WasAbsent(t, dir, v, 1) || v / ENTRIES !in Tables(t, dir)
    ensures Flat(t, dir, v).Absent?
  {
    assert Ahead(v, v) == 0;
  }

  lemma SpentMore(m: Mem, n: Mem, u: Mem, dir: nat, s: nat, v: nat)
    requires dir in m.tab && dir in n.tab && dir in u.tab && s <= v < VPAGES && Spent(m, n, dir, s, v)
    requires Tables(u, dir) == Tables(n, dir) + {v / ENTRIES} && Held(u, dir) == Held(n, dir) - 1
    ensures Spent(m, u, dir, s, v + 1)
  {
    hide Tables, Held, SlotsOf;
    NeedNext(m, dir, s, v);
  }

  /** A page filled but not mapped. */
  lemma LoseOne(m: Mem, n: Mem, t: Mem, lo: nat, dir: nat, s: nat, v: nat)
    requires MemOk(m, lo) && MemOk(n, lo) && Shape(m, dir) && Shape(n, dir) && Shape(t, dir) && Growing(m, n, dir, s, v, {})
    requires NewPage(n, t, ZeroPage()) && forall w :: 0 <= w < VPAGES ==> Flat(t, dir, w) == Flat(n, dir, w)
    ensures Growing(m, t, dir, s, v, {n.free[0]})
  {
    hide Flat, Shape, Behind, IsNode, UserOk, OthersKept;
    TakeFirst(n, lo);
    forall f ensures Behind(t, dir, s, v, f) <==> Behind(n, dir, s, v, f) {
      SameBehind(n, t, dir, s, v, f);
    }
    forall f ensures Behind(n, dir, s, v, f) ==> f in n.page {
      BehindWasFree(m, n, dir, s, v, f);
    }
    LoseOnePages(m, n, t, lo, dir, s, v);
    LoseOneOthers(m, n, t, dir);
  }

  lemma SameBehind(n: Mem, t: Mem, dir: nat, s: nat, v: nat, f: nat)
    requires Shape(n, dir) && Shape(t, dir) && forall w :: 0 <= w < VPAGES ==> Flat(t, dir, w) == Flat(n, dir, w)
    ensures Behind(t, dir, s, v, f) <==> Behind(n, dir, s, v, f)
  {
    if Behind(n, dir, s, v, f) {
      var w :| s <= w < v && w < UPAGES && Flat(n, dir, w).Present? && Flat(n, dir, w).frame == f;
      assert Flat(t, dir, w).frame == f;
    }
  }

  lemma LoseOnePages(m: Mem, n: Mem, t: Mem, lo: nat, dir: nat, s: nat, v: nat)
    requires MemOk(n, lo) && Shape(m, dir) && Shape(n, dir) && Shape(t, dir) && NewPages(m, n, dir, s, v)
    requires NewPage(n, t, ZeroPage()) && forall w :: 0 <= w < VPAGES ==> Flat(t, dir, w) == Flat(n, dir, w)
    ensures NewPages(m, t, dir, s, v)
  {
    hide Shape, Flat;
    TakeFirst(n, lo);
    forall w | s <= w < v ensures ZeroedPage(m, t, dir, w) {
      assert ZeroedPage(m, n, dir, w);
    }
  }

  lemma LoseOneOthers(m: Mem, n: Mem, t: Mem, dir: nat)
    requires Shape(m, dir) && Shape(n, dir) && OthersKept(m, n, dir) && t.tab == n.tab
    ensures OthersKept(m, t, dir)
  {
    assert forall f :: IsNode(t, dir, f) <==> IsNode(n, dir, f);
    hide IsNode, Shape;
  }

  // ---- the code ----

  /** One turn of allocuvm's loop, once kalloc has a frame. */
  method GrowPage(vm: Vm, ghost m: Mem, dir: nat, ghost s: nat, v: nat) returns (r: MapResult, ghost lost: set<nat>)
    requires MemOk(m, vm.lo) && MemOk(vm.Now(), vm.lo) && Shape(m, dir) && Shape(vm.Now(), dir) && vm.free != []
    requires Growing(m, vm.Now(), dir, s, v, {}) && v < UPAGES && Spent(m, vm.Now(), dir, s, v)
    modifies vm
    ensures MemOk(vm.Now(), vm.lo) && Shape(vm.Now(), dir)
    ensures r.Remap? <==> Flat(m, dir, v).Present?
    ensures r.Mapped? ==> Growing(m, vm.Now(), dir, s, v + 1, {}) && Spent(m, vm.Now(), dir, s, v + 1)
    ensures r.NoMemory? ==> && Growing(m, vm.Now(), dir, s, v, lost) && |lost| == 1 && vm.free == []
                            && Opens(m, dir, s, v) && |m.free| == Need(m, dir, s, v) + 1
  {
    hide MemOk, Shape, Growing, Grew, MapsFirst, WasAbsent, Ahead, PageAt, PageCount, Held, Tables, SlotsOf, Spent, Opens, Need;
    ghost var n := vm.Now();
    HasDir(m, dir);
    HasDir(n, dir);
    GrowingFacts(m, n, dir, s, v, {});
    SpentLeaves(m, n, dir, s, v);
    lost := {vm.free[0]};
    var mem := vm.free[0];
    FreeIsRam(n, vm.lo);
    vm.page := vm.page[mem := ZeroPage()];
    vm.free := vm.free[1..];
    ghost var t := vm.Now();
    NewPageOk(n, t, vm.lo, ZeroPage());
    OneTaken(n, t, dir);
    NewPageFlat(n, t, vm.lo, dir);
    OnePage(v, mem);
    OneSlot(v);
    ghost var done;
    r, done := vm.MapPages(dir, v * PGSIZE, PGSIZE, mem * PGSIZE, PTE_W + PTE_U);
    HasDir(vm.Now(), dir);
    if !r.Remap? {
      OneWasAbsent(t, vm.Now(), dir, v);
    }
    if r.Mapped? {
      OneMapped(t, vm.Now(), dir, v, mem, PTE_W + PTE_U + PTE_P);
      GrowStep(m, n, t, vm.Now(), vm.lo, dir, s, v);
      SpentMore(m, n, vm.Now(), dir, s, v);
    } else if r.NoMemory? {
      LoseOne(m, n, t, vm.lo, dir, s, v);
    }
  }

  /** allocuvm. How many frames are free decides the outcome; with exactly one too few, when the last page
      needs a table of its own, the new size is reported although that page is missing. After a refusal the
      map is as before, but new tables stay and a page that could not be mapped is lost. */
  method AllocUvm(vm: Vm, dir: nat, oldsz: nat, newsz: nat) returns (r: Option<nat>, ghost how: GrowResult, ghost lost: set<nat>)
    requires MemOk(vm.Now(), vm.lo) && Shape(vm.Now(), dir) && UserOk(vm.Now(), dir) && oldsz < UINT_LIMIT && newsz < UINT_LIMIT
    modifies vm
    ensures newsz >= KERNBASE ==> r == Some(0) && vm.Now() == old(vm.Now())
    ensures newsz < oldsz && newsz < KERNBASE ==> r == Some(oldsz) && vm.Now() == old(vm.Now())
    ensures oldsz <= newsz < KERNBASE ==>
              && MemOk(vm.Now(), vm.lo) && Shape(vm.Now(), dir) && dir in old(vm.Now()).tab
              && RoundUp(oldsz) <= RoundUp(newsz) <= UPAGES && |lost| <= 1
              && r == (match how case Grown => Some(newsz) case Short => Some(newsz) case Refused => Some(0) case Remapped => None)
              && (forall q :: Gap(old(vm.Now()), dir, RoundUp(oldsz), RoundUp(newsz), q) ==>
                    GrowthOutcome(old(vm.Now()), dir, RoundUp(oldsz), RoundUp(newsz), q, how, lost != {}))
              && (exists q :: Gap(old(vm.Now()), dir, RoundUp(oldsz), RoundUp(newsz), q))
              && (how.Grown? ==> && Growing(old(vm.Now()), vm.Now(), dir, RoundUp(oldsz), RoundUp(newsz), {})
                                 && |vm.free| == |old(vm.free)| - Need(old(vm.Now()), dir, RoundUp(oldsz), RoundUp(newsz))
                                 && forall w :: RoundUp(oldsz) <= w < RoundUp(newsz) ==> UserMay(vm.Now(), dir, w) && Writable(vm.Now(), dir, w))
              && (how.Short? ==> && RoundUp(oldsz) < RoundUp(newsz) && |lost| == 1 && vm.free == []
                                 && Growing(old(vm.Now()), vm.Now(), dir, RoundUp(oldsz), RoundUp(newsz) - 1, lost)
                                 && Flat(vm.Now(), dir, RoundUp(newsz) - 1).Absent?)
              && (how.Refused? && Gap(old(vm.Now()), dir, RoundUp(oldsz), RoundUp(newsz), RoundUp(newsz)) ==>
                    Restored(old(vm.Now()), vm.Now(), dir, lost))
  {
    lost, how := {}, Refused;
    if newsz >= KERNBASE { return Some(0), how, lost; }
    if newsz < oldsz { return Some(oldsz), how, lost; }
    Below(0, oldsz);
    Below(0, newsz);
    assert RoundUp(oldsz) <= RoundUp(newsz) by { Rounds(oldsz, newsz); }
    r, how, lost := GrowTo(vm, dir, RoundUp(oldsz), oldsz, newsz);
    if how.Grown? { GrownAccess(old(vm.Now()), vm.Now(), dir, RoundUp(oldsz), RoundUp(newsz)); }
  }

  /** The user can use and write the new pages. */
  lemma GrownAccess(m: Mem, n: Mem, dir: nat, s: nat, v: nat)
    requires Shape(m, dir) && Shape(n, dir) && Growing(m, n, dir, s, v, {})
    ensures v <= UPAGES && forall w :: s <= w < v ==> UserMay(n, dir, w) && Writable(n, dir, w)
  {
    hide UserMay, Writable, Flat, Shape, UserOk, Taken;
    forall w | s <= w < v ensures UserMay(n, dir, w) && Writable(n, dir, w) {
      Grants(n, dir, w);
      assert ZeroedPage(m, n, dir, w);
    }
  }

  lemma Rounds(a: nat, b: nat)
    requires a <= b
    ensures RoundUp(a) <= RoundUp(b)
  {
  }

  /** The loop of allocuvm, from page s on. */
  method GrowTo(vm: Vm, dir: nat, s: nat, oldsz: nat, newsz: nat) returns (r: Option<nat>, ghost how: GrowResult, ghost lost: set<nat>)
    requires MemOk(vm.Now(), vm.lo) && Shape(vm.Now(), dir) && UserOk(vm.Now(), dir)
    requires oldsz <= newsz < KERNBASE && s == RoundUp(oldsz) <= RoundUp(newsz) <= UPAGES
    modifies vm
    ensures MemOk(vm.Now(), vm.lo) && Shape(vm.Now(), dir) && dir in old(vm.Now()).tab && |lost| <= 1
    ensures r == match how case Grown => Some(newsz) case Short => Some(newsz) case Refused => Some(0) case Remapped => None
    ensures forall q :: Gap(old(vm.Now()), dir, s, RoundUp(newsz), q) ==> GrowthOutcome(old(vm.Now()), dir, s, RoundUp(newsz), q, how, lost != {})
    ensures exists q :: Gap(old(vm.Now()), dir, s, RoundUp(newsz), q)
    ensures how.Grown? ==> && Growing(old(vm.Now()), vm.Now(), dir, s, RoundUp(newsz), {})
                           && |vm.free| == |old(vm.free)| - Need(old(vm.Now()), dir, s, RoundUp(newsz))
    ensures how.Short? ==> && s < RoundUp(newsz) && |lost| == 1 && vm.free == []
                           && Growing(old(vm.Now()), vm.Now(), dir, s, RoundUp(newsz) - 1, lost)
                           && Flat(vm.Now(), dir, RoundUp(newsz) - 1).Absent?
    ensures how.Refused? && Gap(old(vm.Now()), dir, s, RoundUp(newsz), RoundUp(newsz)) ==>
              Restored(old(vm.Now()), vm.Now(), dir, lost)
  {
    hide MemOk, Shape, Growing, UserOk, Spent, Opens, Need, Restored, GrowthOutcome, ClearedTo, Flat, RoundUp;
    ghost var m, hi := vm.Now(), RoundUp(newsz);
    HasDir(m, dir);
    ghost var first := FirstTaken(m, dir, s, hi);
    StartGrowing(m, vm.lo, dir, s);
    StartSpent(m, dir, s);
    lost := {};
    var v := s;
    ghost var done := s;
    while v * PGSIZE < newsz
      invariant s <= v <= hi && s <= done && MemOk(vm.Now(), vm.lo) && Shape(vm.Now(), dir) && dir in vm.tab
      invariant Growing(m, vm.Now(), dir, s, done, lost) && |lost| <= 1
      invariant forall w :: s <= w < v ==> Flat(m, dir, w).Absent?
      invariant lost == {} ==> done == v && Spent(m, vm.Now(), dir, s, v)
      invariant lost != {} ==> done + 1 == v && vm.free == [] && Strands(m, dir, s, done)
    {
      Below(v, newsz);
      if lost == {} {
        SpentLeaves(m, vm.Now(), dir, s, v);
      }
      if vm.free == [] {
        how := Refused;
        Decide(m, dir, s, hi, done, how, lost != {});
        GiveUp(vm, m, dir, s, oldsz, newsz, done, lost);
        return Some(0), how, lost;
      }
      var res;
      res, lost := GrowPage(vm, m, dir, s, v);
      HasDir(vm.Now(), dir);
      if res.Remap? {
        how := Remapped;
        Decide(m, dir, s, hi, v, how, false);
        return None, how, {};
      }
      if res.Mapped? {
        done, lost := v + 1, {};
      }
      v := v + 1;
    }
    Below(v, newsz);
    if lost == {} {
      how := Grown;
      SpentLeaves(m, vm.Now(), dir, s, v);
    } else {
      how := Short;
      GrowingFacts(m, vm.Now(), dir, s, done, lost);
    }
    Decide(m, dir, s, hi, done, how, lost != {});
    return Some(newsz), how, lost;
  }

  lemma StartSpent(m: Mem, dir: nat, s: nat)
    requires dir in m.tab
    ensures Spent(m, m, dir, s, s)
  {
    assert SlotsOf(s, 0) == {};
  }

  lemma Decide(m: Mem, dir: nat, s: nat, hi: nat, v: nat, r: GrowResult, lost: bool)
    requires Shape(m, dir) && s <= v <= hi <= UPAGES && EndsAt(m, dir, s, hi, v, r, lost)
    ensures dir in m.tab && forall q :: Gap(m, dir, s, hi, q) ==> GrowthOutcome(m, dir, s, hi, q, r, lost)
  {
    hide EndsAt, GrowthOutcome;
    forall q | Gap(m, dir, s, hi, q) ensures GrowthOutcome(m, dir, s, hi, q, r, lost) {
      EndIsOutcome(m, dir, s, hi, v, q, r, lost);
    }
  }

  /** deallocuvm from the size asked for back to the old one. */
  method GiveUp(vm: Vm, ghost m: Mem, dir: nat, ghost s: nat, oldsz: nat, newsz: nat, ghost done: nat, ghost lost: set<nat>)
    requires MemOk(m, vm.lo) && MemOk(vm.Now(), vm.lo) && Shape(m, dir) && Shape(vm.Now(), dir)
    requires Growing(m, vm.Now(), dir, s, done, lost) && s == RoundUp(oldsz) && oldsz < newsz < KERNBASE && done <= RoundUp(newsz) <= UPAGES
    modifies vm
    ensures MemOk(vm.Now(), vm.lo) && Shape(vm.Now(), dir)
    ensures Gap(m, dir, s, RoundUp(newsz), RoundUp(newsz)) ==> Restored(m, vm.Now(), dir, lost)
  {
    hide MemOk, Shape, Growing, UserOk, Restored, ClearedTo, Flat, RoundUp;
    ghost var n := vm.Now();
    GrowingFacts(m, n, dir, s, done, lost);
    var back, ok := vm.Dealloc(dir, newsz, oldsz);
    if Gap(m, dir, s, RoundUp(newsz), RoundUp(newsz)) {
      Undone(m, n, vm.Now(), vm.lo, dir, s, done, RoundUp(newsz), lost);
    }
  }
}
