/**
 When a de-duplication pass wraps a reference byte, told from the store before it. While every block of
 a plain file lies at a position whose choice is known, the start decides where each position goes, and so
 how many positions share a block when the next one joins it.
 */
module DedupLimit {
  import opened Sharing
  import opened FileStore
  import opened FileSystem
  import opened Dedup
  import opened DedupOutcome

  /** No plain file has a block past position 24. */
  ghost predicate Short(s: Store)
    requires WellFormed(s)
  {
    forall i: nat, k: nat :: Visited(s, i, k) && k < MAXFILE && Ptr(s, i, k) != 0 ==> Known(k)
  }

  /** The pass leaves position (i, k) on block y. */
  ghost predicate Goes(s: Store, i: nat, k: nat, y: nat)
    requires WellFormed(s) && InRange(s) && i < |s.inodes| && k < MAXFILE
  {
    if Known(k) then exists w :: StartWord(s, i, k, w) && Lands(s, w, i, k, y) else y == Ptr(s, i, k)
  }

  lemma GoesOnce(s: Store, i: nat, k: nat, x: nat, y: nat)
    requires WellFormed(s) && InRange(s) && i < |s.inodes| && k < MAXFILE && Goes(s, i, k, x) && Goes(s, i, k, y)
    ensures x == y
  {
    hide StartWord, Lands;
    if Known(k) {
      var v :| StartWord(s, i, k, v) && Lands(s, v, i, k, x);
      var w :| StartWord(s, i, k, w) && Lands(s, w, i, k, y);
      StartWordOnce(s, i, k, v, w);
      LandsOnce(s, v, i, k, x, y);
    }
  }

  /** Position (a, c) points at y when (i, k) has its turn: it went there, or it started there and has not
      moved. */
  ghost predicate Joined(s: Store, i: nat, k: nat, a: nat, c: nat, y: nat)
    requires WellFormed(s) && InRange(s) && a < |s.inodes| && c < MAXFILE
  {
    if Visited(s, a, c) && Less((a, c), (i, k)) then Goes(s, a, c, y) else Ptr(s, a, c) == y
  }

  /** Those positions. */
  ghost function Crowd(s: Store, i: nat, k: nat, y: nat): set<(nat, nat)>
    requires WellFormed(s) && InRange(s)
  {
    set a, c | 0 <= a < |s.inodes| && 0 <= c < MAXFILE && Joined(s, i, k, a, c, y) :: (a, c)
  }

  /** Position (i, k) joins a block that 256 positions share already. */
  ghost predicate Overfills(s: Store, i: nat, k: nat)
    requires WellFormed(s) && InRange(s)
  {
    && Visited(s, i, k) && k < MAXFILE
    && exists y :: Goes(s, i, k, y) && y != Ptr(s, i, k) && |Crowd(s, i, k, y)| == MAXREF + 1
  }

  ghost predicate Overfull(s: Store)
    requires WellFormed(s) && InRange(s)
  {
    exists i: nat, k: nat :: Overfills(s, i, k)
  }

  // ---- the pointers at a turn ----

  /** A position that has had its turn is where it goes. */
  lemma HasGone(trace: seq<Store>, v: seq<(nat, nat)>, g: Geometry, n: nat, i: nat, k: nat)
    requires Turns(trace, v, g) && n < |v| && v[n] == (i, k) && Short(trace[0])
    ensures |trace| == |v| + 1 && Visited(trace[0], i, k) && k < MAXFILE && SameBlocks(trace[0], trace[|v|], g)
    ensures Goes(trace[0], i, k, Ptr(trace[|v|], i, k))
  {
    hide Turns, StartWord, Lands, NoneLater, Near, Less;
    TurnPointers(trace, v, g, n, i, k);
    VisitedIn(trace[0], i, k);
    if Known(k) {
      var w :| StartWord(trace[0], i, k, w);
    } else {
      assert Ptr(trace[0], i, k) == 0;
    }
  }

  /** (i, k) is the next to have its turn. */
  ghost predicate Next(trace: seq<Store>, v: seq<(nat, nat)>, g: Geometry, i: nat, k: nat) {
    Turns(trace, v, g) && var all := Visits(trace[0], |trace[0].inodes|); |v| < |all| && all[|v|] == (i, k)
  }

  /** The positions before it that the pass visits have had theirs, and no others. */
  lemma HadTurn(trace: seq<Store>, v: seq<(nat, nat)>, g: Geometry, i: nat, k: nat, a: nat, c: nat)
    requires Next(trace, v, g, i, k)
    ensures (a, c) in v <==> Visited(trace[0], a, c) && Less((a, c), (i, k))
  {
    var s := trace[0];
    var all := Visits(s, |s.inodes|);
    TurnsInOrder(s, all, |v|);
    if Visited(s, a, c) && Less((a, c), (i, k)) {
      var p := TurnOf(s, a, c);
      hide Visits, Visited;
      assert p < |v| && v[p] == (a, c);
    }
    if (a, c) in v {
      var p :| 0 <= p < |v| && v[p] == (a, c);
      TurnsInOrder(s, all, p);
    }
  }

  lemma JoinedAt(trace: seq<Store>, v: seq<(nat, nat)>, g: Geometry, i: nat, k: nat, a: nat, c: nat, y: nat)
    requires Next(trace, v, g, i, k) && Short(trace[0]) && a < |trace[0].inodes| && c < MAXFILE
    ensures |trace| == |v| + 1 && SameBlocks(trace[0], trace[|v|], g)
    ensures Ptr(trace[|v|], a, c) == y <==> Joined(trace[0], i, k, a, c, y)
  {
    hide IsTrace, Visits, Visited, Goes, Less, SameBlocks, Short;
    TraceLength(trace, v, g);
    UpToTurn(trace, v, g, |v|);
    HadTurn(trace, v, g, i, k, a, c);
    SameInRange(trace[0], trace[|v|], g);
    if (a, c) in v {
      var p :| 0 <= p < |v| && v[p] == (a, c);
      HasGone(trace, v, g, p, a, c);
      if Goes(trace[0], a, c, y) {
        GoesOnce(trace[0], a, c, y, Ptr(trace[|v|], a, c));
      }
    } else {
      TurnsKeep(trace, v, g, 0, |v|);
      assert v[0..|v|] == v;
      PtrKept(trace[0], trace[|v|], g, v, a, c);
    }
  }

  lemma SameInRange(s: Store, t: Store, g: Geometry)
    requires SameBlocks(s, t, g)
    ensures WellFormed(s) && WellFormed(t) && InRange(s) && InRange(t) && |s.inodes| == |t.inodes|
  {
  }

  /** So the positions behind block y are those told from the start. */
  lemma CrowdAt(trace: seq<Store>, v: seq<(nat, nat)>, g: Geometry, i: nat, k: nat, y: nat)
    requires Next(trace, v, g, i, k) && Short(trace[0])
    ensures |trace| == |v| + 1 && SameBlocks(trace[0], trace[|v|], g)
    ensures PtrSet(ViewOf(trace[|v|]).ptrs, y) == Crowd(trace[0], i, k, y)
  {
    TraceLength(trace, v, g);
    hide IsTrace, Visits, SameBlocks, Short, Turns, Joined;
    NextSame(trace, v, g, i, k);
    SameInRange(trace[0], trace[|v|], g);
    var s, t := trace[0], trace[|v|];
    var ptrs := ViewOf(t).ptrs;
    forall a, c | 0 <= a < |s.inodes| && 0 <= c < MAXFILE ensures ptrs[a][c] == y <==> Joined(s, i, k, a, c, y) {
      JoinedAt(trace, v, g, i, k, a, c, y);
      assert ptrs[a][c] == Ptr(t, a, c);
    }
  }

  lemma NextSame(trace: seq<Store>, v: seq<(nat, nat)>, g: Geometry, i: nat, k: nat)
    requires Next(trace, v, g, i, k)
    ensures |trace| == |v| + 1 && SameBlocks(trace[0], trace[|v|], g) && IsTrace(trace, v, g)
  {
    TraceLength(trace, v, g);
    UpToTurn(trace, v, g, |v|);
  }

  // ---- the turns that wrap ----

  lemma TurnKeepsCounts(t: Store, u: Store, g: Geometry, i: nat, k: nat)
    requires Treated(t, u, g, i, k) && Consistent(t, g) && !Wraps(t, u)
    ensures Consistent(u, g)
  {
    hide Wraps, Chosen, Inv;
    if u != t {
      var j, m :| Chosen(t, i, k, j, m) && Merged(t, u, g, i, k, j, m);
      MergeWraps(t, u, g, i, k, j, m);
      MergedCounts(t, u, g, i, k, j, m);
    }
  }

  lemma MergedCounts(t: Store, u: Store, g: Geometry, i: nat, k: nat, j: nat, m: nat)
    requires Merged(t, u, g, i, k, j, m) && Consistent(t, g)
    ensures t.refs[Ptr(t, j, m)] <= MAXREF && |PtrSet(ViewOf(t).ptrs, Ptr(t, j, m))| == t.refs[Ptr(t, j, m)] + 1
    ensures t.refs[Ptr(t, j, m)] < MAXREF ==> Consistent(u, g)
  {
    var v := ViewOf(t);
    assert v.ptrs[i][k] == Ptr(t, i, k) && v.ptrs[j][m] == Ptr(t, j, m);
    Pointed(v, g, j, m);
    MergeKeepsCounts(v, g, i, k, j, m);
  }

  lemma {:induction false} CountsUpTo(trace: seq<Store>, v: seq<(nat, nat)>, g: Geometry, n: nat)
    requires Turns(trace, v, g) && n <= |v| && Consistent(trace[0], g)
    requires forall p :: 0 <= p < n && p < |trace| - 1 ==> !Wraps(trace[p], trace[p + 1])
    ensures |trace| == |v| + 1 && Consistent(trace[n], g)
  {
    hide Wraps, Consistent, Treated, Visits, Shaped;
    TraceLength(trace, v, g);
    if n > 0 {
      CountsUpTo(trace, v, g, n - 1);
      TraceTurn(trace, v, g, n - 1);
      TurnKeepsCounts(trace[n - 1], trace[n], g, v[n - 1].0, v[n - 1].1);
    }
  }

  /** A turn from exact counts wraps if and only if it moves the position to a block with 256 of them. */
  lemma WrapsWhenFull(t: Store, u: Store, g: Geometry, i: nat, k: nat)
    requires Treated(t, u, g, i, k) && Consistent(t, g)
    ensures WellFormed(u) && i < |u.inodes| && k < MAXFILE
    ensures Wraps(t, u) <==> Ptr(u, i, k) != Ptr(t, i, k) && |PtrSet(ViewOf(t).ptrs, Ptr(u, i, k))| == MAXREF + 1
  {
    hide Wraps, Chosen, Inv;
    if u != t {
      var j, m :| Chosen(t, i, k, j, m) && Merged(t, u, g, i, k, j, m);
      MergeWraps(t, u, g, i, k, j, m);
      MergedCounts(t, u, g, i, k, j, m);
      MergedPointers(t, u, g, i, k, j, m);
    } else {
      NoWrap(t);
    }
  }

  lemma TurnsCut(trace: seq<Store>, v: seq<(nat, nat)>, g: Geometry, n: nat)
    requires Turns(trace, v, g) && n <= |v|
    ensures |trace| == |v| + 1 && Turns(trace[..n + 1], v[..n], g) && trace[..n + 1][0] == trace[0]
    ensures n < |v| ==> Next(trace[..n + 1], v[..n], g, v[n].0, v[n].1)
  {
    hide Treated, Shaped, Visits;
    ShapedFormed(trace[0], g);
    var all := Visits(trace[0], |trace[0].inodes|);
    assert n < |v| ==> all[n] == v[n] && v[n] == (v[n].0, v[n].1);
  }

  lemma TurnWraps(trace: seq<Store>, v: seq<(nat, nat)>, g: Geometry, n: nat)
    requires Turns(trace, v, g) && n < |v| && |trace| == |v| + 1 && Consistent(trace[n], g) && Short(trace[0])
    ensures InRange(trace[0])
    ensures Wraps(trace[n], trace[n + 1]) <==> Overfills(trace[0], v[n].0, v[n].1)
  {
    var s, t, u, i, k := trace[0], trace[n], trace[n + 1], v[n].0, v[n].1;
    hide Turns, Next, Wraps, Consistent, Treated, SameBlocks, AsAtStart, Goes, Crowd, Visited, Ptr, PtrSet, ViewOf, Short, InRange, WellFormed, Overfills;
    TurnsCut(trace, v, g, n);
    CrowdsAt(trace[..n + 1], v[..n], g, i, k);
    TurnsCut(trace, v, g, n + 1);
    HasGone(trace[..n + 2], v[..n + 1], g, n, i, k);
    AtTurn(trace, v, g, n, i, k);
    StartAt(s, t, g, i, k);
    WrapsWhenFull(t, u, g, i, k);
    JoinsFull(s, t, i, k, Ptr(u, i, k));
  }

  lemma JoinsFull(s: Store, t: Store, i: nat, k: nat, p: nat)
    requires WellFormed(s) && InRange(s) && WellFormed(t) && Visited(s, i, k) && i < |s.inodes| && k < MAXFILE && Goes(s, i, k, p)
    requires forall y: nat :: |PtrSet(ViewOf(t).ptrs, y)| == |Crowd(s, i, k, y)|
    ensures Overfills(s, i, k) <==> p != Ptr(s, i, k) && |PtrSet(ViewOf(t).ptrs, p)| == MAXREF + 1
  {
    hide Goes, Crowd, PtrSet, ViewOf, Visited, Ptr, InRange, WellFormed;
    assert |PtrSet(ViewOf(t).ptrs, p)| == |Crowd(s, i, k, p)|;
    if Overfills(s, i, k) {
      var y :| Goes(s, i, k, y) && y != Ptr(s, i, k) && |Crowd(s, i, k, y)| == MAXREF + 1;
      GoesOnce(s, i, k, y, p);
    }
  }

  lemma CrowdsAt(trace: seq<Store>, v: seq<(nat, nat)>, g: Geometry, i: nat, k: nat)
    requires Next(trace, v, g, i, k) && Short(trace[0])
    ensures |trace| == |v| + 1 && SameBlocks(trace[0], trace[|v|], g)
    ensures forall y: nat :: |PtrSet(ViewOf(trace[|v|]).ptrs, y)| == |Crowd(trace[0], i, k, y)|
  {
    hide Next, Short, SameBlocks, Crowd, PtrSet, ViewOf;
    CrowdAt(trace, v, g, i, k, 0);
    SameInRange(trace[0], trace[|v|], g);
    forall y: nat ensures |PtrSet(ViewOf(trace[|v|]).ptrs, y)| == |Crowd(trace[0], i, k, y)| {
      CrowdAt(trace, v, g, i, k, y);
    }
  }

  lemma StartAt(s: Store, t: Store, g: Geometry, i: nat, k: nat)
    requires AsAtStart(s, t, g, i, k) && WellFormed(s) && Visited(s, i, k)
    ensures InRange(s) && WellFormed(t) && i < |s.inodes| == |t.inodes| && k < MAXFILE && Ptr(t, i, k) == Ptr(s, i, k)
  {
  }

  lemma {:induction false} FirstWrap(trace: seq<Store>, b: nat) returns (n: nat)
    requires b < |trace| && exists p :: 0 <= p < b && Wraps(trace[p], trace[p + 1])
    ensures n < b && Wraps(trace[n], trace[n + 1]) && forall p :: 0 <= p < n ==> !Wraps(trace[p], trace[p + 1])
  {
    hide Wraps;
    if exists p :: 0 <= p < b - 1 && Wraps(trace[p], trace[p + 1]) {
      n := FirstWrap(trace, b - 1);
    } else {
      n := b - 1;
    }
  }

  /** A pass over a consistent store wraps a byte only if some position joins a block that 256 positions share;
      and if it gets to the end, whenever there is such a position. */
  lemma WrapsExactly(trace: seq<Store>, v: seq<(nat, nat)>, g: Geometry)
    requires Turns(trace, v, g) && Consistent(trace[0], g) && Short(trace[0])
    ensures InRange(trace[0])
    ensures Wrapped(trace) ==> Overfull(trace[0])
    ensures v == Visits(trace[0], |trace[0].inodes|) && Overfull(trace[0]) ==> Wrapped(trace)
  {
    var s := trace[0];
    SoundInRange(s, g);
    TurnsLength(trace, v, g);
    hide Turns, Wraps, Consistent, Short, Visits, InRange, Shaped, WellFormed, Overfills;
    if Wrapped(trace) {
      var n := FirstWrap(trace, |v|);
      CountsUpTo(trace, v, g, n);
      TurnWraps(trace, v, g, n);
    } else if v == Visits(s, |s.inodes|) && Overfull(s) {
      var i: nat, k: nat :| Overfills(s, i, k);
      OverfillsVisited(s, i, k);
      var n := TurnOf(s, i, k);
      CountsUpTo(trace, v, g, n);
      TurnWraps(trace, v, g, n);
    }
  }

  lemma OverfillsVisited(s: Store, i: nat, k: nat)
    requires WellFormed(s) && InRange(s) && Overfills(s, i, k)
    ensures Visited(s, i, k)
  {
  }

  lemma TurnsLength(trace: seq<Store>, v: seq<(nat, nat)>, g: Geometry)
    requires Turns(trace, v, g)
    ensures |trace| == |v| + 1 && Shaped(trace[0], g) && WellFormed(trace[0])
  {
  }

  lemma StuckTurns(trace: seq<Store>, s: Store, g: Geometry)
    requires Shaped(s, g) && |trace| > 0 && trace[0] == s && Stuck(trace, Visits(s, |s.inodes|), g)
    ensures Turns(trace, Visits(s, |s.inodes|)[..|trace| - 1], g)
  {
  }

  /** The pass, with its exact condition told before it: on a consistent store without long files it comes to
      its end with all counts exact if and only if no position joins a block that is full by then. */
  method DedupExactly(fs: FileSystem) returns (ok: bool)
    requires Consistent(fs.State(), fs.g) && Short(fs.State())
    modifies fs
    ensures InRange(old(fs.State()))
    ensures ok && Consistent(fs.State(), fs.g) <==> !Overfull(old(fs.State()))
    ensures ok ==> SameContents(old(fs.State()), fs.State(), fs.g)
  {
    ghost var s := fs.State();
    SoundInRange(s, fs.g);
    hide Turns, Wrapped, Consistent, Short, Visits, InRange, Shaped, WellFormed, Overfull, Stuck, IsTrace, SameContents, Fits;
    ghost var trace;
    ok, trace := DedupPass(fs);
    if ok {
      WholePass(trace, s, fs.g);
      WrapsExactly(trace, Visits(s, |s.inodes|), fs.g);
    } else {
      StuckTurns(trace, s, fs.g);
      WrapsExactly(trace, Visits(s, |s.inodes|)[..|trace| - 1], fs.g);
    }
  }

  lemma WholePass(trace: seq<Store>, s: Store, g: Geometry)
    requires Shaped(s, g) && |trace| > 0 && trace[0] == s && IsTrace(trace, Visits(s, |s.inodes|), g)
    ensures Turns(trace, Visits(s, |s.inodes|), g)
  {
  }
}
