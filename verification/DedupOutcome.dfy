/**
 What a whole de-duplication pass does to each pointer, in terms of the store it starts from, and what
 that means for copies of equal bytes and for later writes.
 */
module DedupOutcome {
  import opened Sharing
  import opened Blocks
  import opened FileStore
  import opened FileOps
  import opened Dedup

  // ---- the order of turns ----

  predicate Less(a: (nat, nat), b: (nat, nat)) {
    a.0 < b.0 || (a.0 == b.0 && a.1 < b.1)
  }

  ghost predicate Visited(s: Store, i: nat, k: nat)
    requires WellFormed(s)
  {
    0 < i < |s.inodes| && s.inodes[i].typ == T_FILE && k < Positions(s, i)
  }

  ghost predicate Ordered(v: seq<(nat, nat)>) {
    forall p, q :: 0 <= p < q < |v| ==> Less(v[p], v[q])
  }

  ghost predicate AllVisited(s: Store, v: seq<(nat, nat)>, lo: nat, hi: nat)
    requires WellFormed(s)
  {
    forall p :: 0 <= p < |v| ==> lo <= v[p].0 < hi && Visited(s, v[p].0, v[p].1)
  }

  lemma OrderedConcat(s: Store, a: seq<(nat, nat)>, b: seq<(nat, nat)>, n: nat)
    requires WellFormed(s) && Ordered(a) && Ordered(b) && AllVisited(s, a, 0, n) && AllVisited(s, b, n, n + 1)
    ensures Ordered(a + b) && AllVisited(s, a + b, 0, n + 1)
  {
    hide Visited;
    var v := a + b;
    forall p, q | 0 <= p < q < |v| ensures Less(v[p], v[q]) {
      assert p < |a| ==> v[p] == a[p] && v[p].0 < n;
      assert q >= |a| ==> v[q] == b[q - |a|] && v[q].0 == n;
    }
  }

  /** Turns come in the order of files and positions, each position of a plain file once. */
  lemma {:induction false} VisitsOrdered(s: Store, n: nat)
    requires WellFormed(s) && n <= |s.inodes|
    ensures Ordered(Visits(s, n)) && AllVisited(s, Visits(s, n), 0, n)
  {
    if n > 0 {
      VisitsOrdered(s, n - 1);
      OrderedConcat(s, Visits(s, n - 1), FileVisits(s, n - 1), n - 1);
    }
  }

  lemma {:induction false} VisitsComplete(s: Store, n: nat, i: nat, k: nat)
    requires WellFormed(s) && i < n <= |s.inodes| && Visited(s, i, k)
    ensures (i, k) in Visits(s, n)
  {
    if i == n - 1 {
      assert FileVisits(s, i)[k] == (i, k);
    } else {
      VisitsComplete(s, n - 1, i, k);
    }
  }

  lemma TurnOf(s: Store, i: nat, k: nat) returns (n: nat)
    requires WellFormed(s) && Visited(s, i, k)
    ensures var v := Visits(s, |s.inodes|);
            && n < |v| && v[n] == (i, k)
            && (forall p :: 0 <= p < n ==> Less(v[p], (i, k)))
            && (forall p :: n < p < |v| ==> Less((i, k), v[p]))
  {
    VisitsOrdered(s, |s.inodes|);
    VisitsComplete(s, |s.inodes|, i, k);
    hide Visits;
    var v := Visits(s, |s.inodes|);
    n :| n < |v| && v[n] == (i, k);
  }

  // ---- what a turn leaves alone ----

  /** Pointers outside these positions are the same, and every position reads the same. */
  ghost predicate SameBut(s: Store, t: Store, g: Geometry, ps: seq<(nat, nat)>) {
    && SameBlocks(s, t, g)
    && forall a, c :: 0 <= a < |s.inodes| && 0 <= c < MAXFILE && (a, c) !in ps ==> Ptr(t, a, c) == Ptr(s, a, c)
  }

  lemma SameButRefl(s: Store, g: Geometry, ps: seq<(nat, nat)>)
    requires Shaped(s, g)
    ensures SameBut(s, s, g, ps)
  {
    SameBlocksRefl(s, g);
  }

  lemma SameButTrans(s: Store, t: Store, u: Store, g: Geometry, ps: seq<(nat, nat)>, qs: seq<(nat, nat)>)
    requires SameBut(s, t, g, ps) && SameBut(t, u, g, qs)
    ensures SameBut(s, u, g, ps + qs)
  {
    SameBlocksTrans(s, t, u, g);
    forall a, c | 0 <= a < |s.inodes| && 0 <= c < MAXFILE && (a, c) !in ps + qs ensures Ptr(u, a, c) == Ptr(s, a, c) {
      assert (a, c) !in ps && (a, c) !in qs;
    }
  }

  lemma TurnKeeps(s: Store, t: Store, g: Geometry, i: nat, k: nat)
    requires Treated(s, t, g, i, k)
    ensures SameBut(s, t, g, [(i, k)])
  {
    if exists j, m :: Chosen(s, i, k, j, m) && Merged(s, t, g, i, k, j, m) {
      var j, m :| Chosen(s, i, k, j, m) && Merged(s, t, g, i, k, j, m);
      ChosenLater(s, i, k, j, m);
      MergedPointers(s, t, g, i, k, j, m);
      MergedSameBlocks(s, t, g, i, k, j, m);
      hide Merged, Chosen, SameBlocks;
    } else {
      SameButRefl(s, g, [(i, k)]);
    }
  }

  lemma TraceTurn(trace: seq<Store>, visits: seq<(nat, nat)>, g: Geometry, n: nat)
    requires IsTrace(trace, visits, g) && n < |visits|
    ensures |trace| == |visits| + 1 && Treated(trace[n], trace[n + 1], g, visits[n].0, visits[n].1)
  {
  }

  /** From turn lo to turn hi only the positions that have their turn can change their pointer. */
  lemma {:induction false} TurnsKeep(trace: seq<Store>, visits: seq<(nat, nat)>, g: Geometry, lo: nat, hi: nat)
    requires IsTrace(trace, visits, g) && lo <= hi <= |visits| && Shaped(trace[lo], g)
    ensures SameBut(trace[lo], trace[hi], g, visits[lo..hi])
    decreases hi - lo
  {
    hide *;
    TraceLength(trace, visits, g);
    if lo == hi {
      SameButRefl(trace[lo], g, visits[lo..hi]);
    } else {
      TurnsKeep(trace, visits, g, lo, hi - 1);
      var last := visits[hi - 1];
      TraceTurn(trace, visits, g, hi - 1);
      TurnKeeps(trace[hi - 1], trace[hi], g, last.0, last.1);
      assert [(last.0, last.1)] == [last];
      SameButTrans(trace[lo], trace[hi - 1], trace[hi], g, visits[lo..hi - 1], [last]);
      assert visits[lo..hi] == visits[lo..hi - 1] + [last];
    }
  }

  // ---- the choice, seen from the start ----

  /** Positions from (i, k) on have their first pointers when (i, k) has its turn. */
  ghost predicate AsAtStart(s: Store, t: Store, g: Geometry, i: nat, k: nat) {
    && SameBlocks(s, t, g)
    && forall a, c :: 0 <= a < |s.inodes| && 0 <= c < MAXFILE && !Less((a, c), (i, k)) ==> Ptr(t, a, c) == Ptr(s, a, c)
  }

  lemma SameDuplicates(s: Store, t: Store, g: Geometry, i: nat, k: nat, j: nat, m: nat)
    requires AsAtStart(s, t, g, i, k) && i < |s.inodes| && k < MAXFILE && !Less((j, m), (i, k))
    ensures Duplicate(t, i, k, j, m) <==> Duplicate(s, i, k, j, m)
  {
    if j < |s.inodes| && m < MAXFILE {
      assert BlockAt(t, i, k) == BlockAt(s, i, k) && BlockAt(t, j, m) == BlockAt(s, j, m);
    }
  }

  /** No later position of a plain file holds another block with the same bytes. */
  ghost predicate NoneLater(s: Store, i: nat, k: nat)
    requires WellFormed(s) && InRange(s)
  {
    NoneNear(s, i, k) && forall j, m :: i < j < |s.inodes| && s.inodes[j].typ == T_FILE && 0 <= m < MAXFILE ==> !Duplicate(s, i, k, j, m)
  }

  lemma SameNear(s: Store, t: Store, g: Geometry, i: nat, k: nat)
    requires AsAtStart(s, t, g, i, k) && i < |s.inodes| && k < MAXFILE
    ensures forall m :: Near(t, i, k, m) <==> Near(s, i, k, m)
    ensures NoneNear(t, i, k) <==> NoneNear(s, i, k)
  {
    forall m: nat | k < m ensures Duplicate(t, i, k, i, m) <==> Duplicate(s, i, k, i, m) {
      SameDuplicates(s, t, g, i, k, i, m);
    }
  }

  lemma SameLater(s: Store, t: Store, g: Geometry, i: nat, k: nat)
    requires AsAtStart(s, t, g, i, k) && i < |s.inodes| && k < MAXFILE
    ensures NoneLater(t, i, k) <==> NoneLater(s, i, k)
  {
    SameNear(s, t, g, i, k);
    forall j: nat, m: nat | i < j ensures Duplicate(t, i, k, j, m) <==> Duplicate(s, i, k, j, m) {
      SameDuplicates(s, t, g, i, k, j, m);
    }
    assert forall j :: 0 <= j < |s.inodes| ==> t.inodes[j].typ == s.inodes[j].typ;
  }

  ghost predicate NonePast(s: Store, w: nat, i: nat, k: nat, j: nat)
    requires WellFormed(s) && InRange(s)
  {
    forall a, c :: j < a < |s.inodes| && s.inodes[a].typ == T_FILE && 0 <= c < MAXFILE ==> !SeenPast(s, w, i, k, a, c)
  }

  /** (j, m) is the last such duplicate of the last later plain file that has one. */
  ghost predicate FarPast(s: Store, w: nat, i: nat, k: nat, j: nat, m: nat)
    requires WellFormed(s) && InRange(s)
  {
    && NoneNear(s, i, k) && i < j < |s.inodes| && s.inodes[j].typ == T_FILE && SeenPast(s, w, i, k, j, m)
    && NonePast(s, w, i, k, j) && forall c :: m < c < MAXFILE ==> !SeenPast(s, w, i, k, j, c)
  }

  /** Far and NoneAbove with the word named. */
  lemma FarIsPast(s: Store, i: nat, k: nat)
    requires WellFormed(s) && InRange(s) && i < |s.inodes| && Known(k)
    ensures forall j: nat, m: nat :: Far(s, i, k, j, m) <==> FarPast(s, WordOf(s, i, k), i, k, j, m)
    ensures NoneAbove(s, i, k, i) <==> NonePast(s, WordOf(s, i, k), i, k, i)
  {
    var w := WordOf(s, i, k);
    hide Duplicate, NoneNear, SeenPast;
    forall j: nat ensures NoneAbove(s, i, k, j) <==> NonePast(s, w, i, k, j) {
      AboveIsPast(s, i, k, j);
    }
    hide WordOf;
    forall j: nat, m: nat ensures Found(s, i, k, j, m) <==> LastPast(s, w, i, k, j, m) {
      FoundIsLast(s, i, k, j, m);
    }
  }

  lemma AboveIsPast(s: Store, i: nat, k: nat, j: nat)
    requires WellFormed(s) && InRange(s) && i < |s.inodes| && Known(k)
    ensures NoneAbove(s, i, k, j) <==> NonePast(s, WordOf(s, i, k), i, k, j)
  {
    hide SeenPast, WordOf;
    var w := WordOf(s, i, k);
    assert Compared(s, i, k, w);
    if NonePast(s, w, i, k, j) {
      forall a | j < a < |s.inodes| && s.inodes[a].typ == T_FILE ensures Missed(s, i, k, a) {
        assert NoPast(s, w, i, k, a);
      }
    }
    if NoneAbove(s, i, k, j) {
      forall a, c | j < a < |s.inodes| && s.inodes[a].typ == T_FILE && 0 <= c < MAXFILE ensures !SeenPast(s, w, i, k, a, c) {
        assert Missed(s, i, k, a);
        var x :| Compared(s, i, k, x) && NoPast(s, x, i, k, a);
      }
    }
  }

  lemma FoundIsLast(s: Store, i: nat, k: nat, j: nat, m: nat)
    requires WellFormed(s) && InRange(s) && i < |s.inodes| && Known(k)
    ensures Found(s, i, k, j, m) <==> LastPast(s, WordOf(s, i, k), i, k, j, m)
  {
    hide SeenPast, WordOf;
    assert Compared(s, i, k, WordOf(s, i, k));
  }

  lemma SamePast(s: Store, t: Store, g: Geometry, w: nat, i: nat, k: nat)
    requires AsAtStart(s, t, g, i, k) && i < |s.inodes| && k < MAXFILE
    ensures forall j: nat, m: nat :: FarPast(t, w, i, k, j, m) <==> FarPast(s, w, i, k, j, m)
    ensures NonePast(t, w, i, k, i) <==> NonePast(s, w, i, k, i)
  {
    SameNear(s, t, g, i, k);
    assert forall j :: 0 <= j < |s.inodes| ==> t.inodes[j].typ == s.inodes[j].typ;
    forall j: nat, m: nat | i < j ensures SeenPast(t, w, i, k, j, m) <==> SeenPast(s, w, i, k, j, m) {
      SameDuplicates(s, t, g, i, k, j, m);
    }
    hide SeenPast, NoneNear, AsAtStart;
    forall j: nat | i <= j ensures NonePast(t, w, i, k, j) <==> NonePast(s, w, i, k, j) {
      SameNonePast(s, t, w, i, k, j);
    }
  }

  lemma SameNonePast(s: Store, t: Store, w: nat, i: nat, k: nat, j: nat)
    requires WellFormed(s) && InRange(s) && WellFormed(t) && InRange(t) && |s.inodes| == |t.inodes| && i <= j
    requires forall a :: 0 <= a < |s.inodes| ==> t.inodes[a].typ == s.inodes[a].typ
    requires forall a: nat, c: nat :: i < a ==> (SeenPast(t, w, i, k, a, c) <==> SeenPast(s, w, i, k, a, c))
    ensures NonePast(t, w, i, k, j) <==> NonePast(s, w, i, k, j)
  {
    hide SeenPast;
  }

  /** Where position (i, k) goes when the search compares with w: to the last duplicate later in its file, or
      else to the last one of the last later plain file that is not w, or else nowhere. */
  ghost predicate Lands(s: Store, w: nat, i: nat, k: nat, p: nat)
    requires WellFormed(s) && InRange(s) && i < |s.inodes| && k < MAXFILE
  {
    && (forall m :: Near(s, i, k, m) ==> p == Ptr(s, i, m))
    && (forall j, m :: FarPast(s, w, i, k, j, m) ==> p == Ptr(s, j, m))
    && (NoneNear(s, i, k) && NonePast(s, w, i, k, i) ==> p == Ptr(s, i, k))
  }

  /** For some word the search in file j takes m, or finds nothing. */
  ghost predicate FoundSome(s: Store, i: nat, k: nat, j: nat, m: nat)
    requires WellFormed(s) && InRange(s)
  {
    exists w: int :: LastPast(s, w, i, k, j, m)
  }

  ghost predicate MissedSome(s: Store, i: nat, k: nat, j: nat)
    requires WellFormed(s) && InRange(s)
  {
    exists w: int :: NoPast(s, w, i, k, j)
  }

  ghost predicate MissedAbove(s: Store, i: nat, k: nat, j: nat)
    requires WellFormed(s) && InRange(s)
  {
    forall c :: j < c < |s.inodes| && s.inodes[c].typ == T_FILE ==> MissedSome(s, i, k, c)
  }

  ghost predicate Reaches(s: Store, i: nat, k: nat, j: nat, m: nat)
    requires WellFormed(s) && InRange(s)
  {
    i < j < |s.inodes| && s.inodes[j].typ == T_FILE && FoundSome(s, i, k, j, m) && MissedAbove(s, i, k, j)
  }

  /** Where position (i, k) goes, wherever it is: with one word for each file searched, it goes to the last
      duplicate of the last later plain file that has one other than its word, and stays only if none has. */
  ghost predicate LandsAny(s: Store, i: nat, k: nat, p: nat)
    requires WellFormed(s) && InRange(s) && i < |s.inodes| && k < MAXFILE
  {
    && (forall m :: Near(s, i, k, m) ==> p == Ptr(s, i, m))
    && (NoneNear(s, i, k) ==>
          || (p == Ptr(s, i, k) && (p == 0 || MissedAbove(s, i, k, i)))
          || exists j, m :: Reaches(s, i, k, j, m) && p == Ptr(s, j, m))
  }

  /** A duplicate later in the file, or two different ones in one later plain file: the position moves. */
  lemma TwoMove(s: Store, i: nat, k: nat, p: nat, j: nat, m: nat, c: nat)
    requires WellFormed(s) && InRange(s) && i < |s.inodes| && k < MAXFILE && LandsAny(s, i, k, p)
    requires i < j < |s.inodes| && s.inodes[j].typ == T_FILE
    requires Duplicate(s, i, k, j, m) && Duplicate(s, i, k, j, c) && Ptr(s, j, m) != Ptr(s, j, c)
    ensures p != Ptr(s, i, k)
  {
    forall w: int ensures !NoPast(s, w, i, k, j) {
      TwoAreSeen(s, w, i, k, j, m, c);
    }
    assert !MissedSome(s, i, k, j);
    hide NoPast, NoneNear;
    if NoneNear(s, i, k) {
      ReachesOther(s, i, k, p);
    } else {
      var d := LastNear(s, i, k, MAXFILE);
    }
  }

  lemma ReachesOther(s: Store, i: nat, k: nat, p: nat)
    requires WellFormed(s) && InRange(s) && i < |s.inodes| && k < MAXFILE
    requires exists j, m :: Reaches(s, i, k, j, m) && p == Ptr(s, j, m)
    ensures p != Ptr(s, i, k)
  {
    var j, m :| Reaches(s, i, k, j, m) && p == Ptr(s, j, m);
    var w: int :| LastPast(s, w, i, k, j, m);
  }

  /** One of the three cases holds, so that block is one only. */
  lemma LandsOnce(s: Store, w: nat, i: nat, k: nat, p: nat, q: nat)
    requires WellFormed(s) && InRange(s) && i < |s.inodes| && k < MAXFILE && Lands(s, w, i, k, p) && Lands(s, w, i, k, q)
    ensures p == q
  {
    if !NoneNear(s, i, k) {
      var m := LastNear(s, i, k, MAXFILE);
    } else if !NonePast(s, w, i, k, i) {
      var a, c :| i < a < |s.inodes| && s.inodes[a].typ == T_FILE && 0 <= c < MAXFILE && SeenPast(s, w, i, k, a, c);
      var j, m := LastFar(s, w, i, k, |s.inodes|, a, c);
    }
  }

  /** w is the word the search from (i, k) compares with in the pass, told from the store before it. Position
      k - 12 has had its turn by then. */
  ghost predicate StartWord(s: Store, i: nat, k: nat, w: nat)
    requires WellFormed(s) && InRange(s) && i < |s.inodes| && k < MAXFILE && Known(k)
  {
    if k < NDIRECT then w == 0
    else if k == 2 * NDIRECT then w == s.inodes[i].addrs[NDIRECT]
    else Lands(s, 0, i, k - NDIRECT, w)
  }

  lemma StartWordOnce(s: Store, i: nat, k: nat, w: nat, x: nat)
    requires WellFormed(s) && InRange(s) && i < |s.inodes| && k < MAXFILE && Known(k)
    requires StartWord(s, i, k, w) && StartWord(s, i, k, x)
    ensures w == x
  {
    if NDIRECT <= k < 2 * NDIRECT {
      LandsOnce(s, 0, i, k - NDIRECT, w, x);
    }
  }

  /** One near duplicate or one far duplicate is taken, never two. */
  lemma ChosenOnce(s: Store, i: nat, k: nat, j: nat, m: nat, a: nat, c: nat)
    requires WellFormed(s) && InRange(s) && Known(k) && Chosen(s, i, k, j, m) && Chosen(s, i, k, a, c)
    ensures j == a && m == c
  {
  }

  // ---- the whole pass ----

  lemma BeforeTurn(trace: seq<Store>, v: seq<(nat, nat)>, g: Geometry, n: nat, i: nat, k: nat)
    requires IsTrace(trace, v, g) && n < |v| && Shaped(trace[0], g) && forall p :: 0 <= p < n ==> Less(v[p], (i, k))
    ensures AsAtStart(trace[0], trace[n], g, i, k)
  {
    hide *;
    TraceLength(trace, v, g);
    TurnsKeep(trace, v, g, 0, n);
    StartKept(trace[0], trace[n], g, v[0..n], i, k);
  }

  lemma AfterTurn(trace: seq<Store>, v: seq<(nat, nat)>, g: Geometry, n: nat, i: nat, k: nat)
    requires IsTrace(trace, v, g) && n < |v| && Shaped(trace[n + 1], g) && i < |trace[n + 1].inodes| && k < MAXFILE
    requires forall p :: n < p < |v| ==> Less((i, k), v[p])
    ensures WellFormed(trace[n + 1]) && WellFormed(trace[|v|]) && i < |trace[|v|].inodes|
    ensures Ptr(trace[|v|], i, k) == Ptr(trace[n + 1], i, k)
  {
    hide *;
    TraceLength(trace, v, g);
    TurnsKeep(trace, v, g, n + 1, |v|);
    NotLater(v, n, i, k);
    PtrKept(trace[n + 1], trace[|v|], g, v[n + 1..|v|], i, k);
  }

  lemma UpToTurn(trace: seq<Store>, v: seq<(nat, nat)>, g: Geometry, n: nat)
    requires IsTrace(trace, v, g) && n <= |v| && Shaped(trace[0], g)
    ensures SameBlocks(trace[0], trace[n], g) && Shaped(trace[n], g) && |trace[n].inodes| == |trace[0].inodes|
  {
    hide *;
    TraceLength(trace, v, g);
    TurnsKeep(trace, v, g, 0, n);
    ButSame(trace[0], trace[n], g, v[0..n]);
  }

  /** The first turns of a pass; all of them, or those before a panic. */
  ghost predicate Turns(trace: seq<Store>, v: seq<(nat, nat)>, g: Geometry) {
    |trace| > 0 && Shaped(trace[0], g) && v <= Visits(trace[0], |trace[0].inodes|) && IsTrace(trace, v, g)
  }

  lemma TurnsInOrder(s: Store, v: seq<(nat, nat)>, n: nat)
    requires WellFormed(s) && v <= Visits(s, |s.inodes|) && n < |v|
    ensures Ordered(v) && Visited(s, v[n].0, v[n].1)
    ensures forall p :: 0 <= p < n ==> Less(v[p], v[n])
    ensures forall p :: n < p < |v| ==> Less(v[n], v[p])
  {
    VisitsOrdered(s, |s.inodes|);
    hide Visits, Visited;
    var all := Visits(s, |s.inodes|);
    assert forall p :: 0 <= p < |v| ==> v[p] == all[p];
  }

  /** The store at the turn of (i, k), the store after it, and what the later turns leave of both. */
  lemma AtTurn(trace: seq<Store>, v: seq<(nat, nat)>, g: Geometry, n: nat, i: nat, k: nat)
    requires Turns(trace, v, g) && n < |v| && v[n] == (i, k)
    ensures |trace| == |v| + 1 && Visited(trace[0], i, k)
    ensures Treated(trace[n], trace[n + 1], g, i, k) && AsAtStart(trace[0], trace[n], g, i, k)
    ensures SameBlocks(trace[0], trace[|v|], g) && SameBlocks(trace[0], trace[n + 1], g)
    ensures Ptr(trace[|v|], i, k) == Ptr(trace[n + 1], i, k)
  {
    TraceLength(trace, v, g);
    TurnsInOrder(trace[0], v, n);
    VisitedIn(trace[0], i, k);
    hide Shaped, SameBlocks, AsAtStart, Treated, IsTrace, Visits, Visited;
    TraceTurn(trace, v, g, n);
    BeforeTurn(trace, v, g, n, i, k);
    UpToTurn(trace, v, g, n + 1);
    UpToTurn(trace, v, g, |v|);
    AfterTurn(trace, v, g, n, i, k);
  }

  lemma VisitedIn(s: Store, i: nat, k: nat)
    requires WellFormed(s) && Visited(s, i, k)
    ensures i < |s.inodes| && k < MAXFILE
  {
  }

  lemma StartKept(s: Store, t: Store, g: Geometry, ps: seq<(nat, nat)>, i: nat, k: nat)
    requires SameBut(s, t, g, ps) && forall p :: 0 <= p < |ps| ==> Less(ps[p], (i, k))
    ensures AsAtStart(s, t, g, i, k)
  {
  }

  lemma ButSame(s: Store, t: Store, g: Geometry, ps: seq<(nat, nat)>)
    requires SameBut(s, t, g, ps)
    ensures SameBlocks(s, t, g) && Shaped(t, g) && |t.inodes| == |s.inodes| && WellFormed(t)
  {
  }

  lemma NotLater(v: seq<(nat, nat)>, n: nat, i: nat, k: nat)
    requires n < |v| && forall p :: n < p < |v| ==> Less((i, k), v[p])
    ensures (i, k) !in v[n + 1..|v|]
  {
  }

  lemma PtrKept(s: Store, t: Store, g: Geometry, ps: seq<(nat, nat)>, i: nat, k: nat)
    requires SameBut(s, t, g, ps) && (i, k) !in ps && i < |s.inodes| && k < MAXFILE
    ensures WellFormed(s) && WellFormed(t) && i < |t.inodes| && Ptr(t, i, k) == Ptr(s, i, k)
  {
  }

  /** What position (i, k) points at after these turns, and what its search has compared with. */
  lemma TurnLands(trace: seq<Store>, v: seq<(nat, nat)>, g: Geometry, n: nat, i: nat, k: nat)
    requires Turns(trace, v, g) && n < |v| && v[n] == (i, k)
    ensures |trace| == |v| + 1 && Visited(trace[0], i, k) && SameBlocks(trace[0], trace[|v|], g)
    ensures var s, f := trace[0], trace[|v|];
            && (forall m :: Near(s, i, k, m) ==> Ptr(f, i, k) == Ptr(s, i, m))
            && (NoneLater(s, i, k) ==> Ptr(f, i, k) == Ptr(s, i, k))
            && (Known(k) ==> Lands(s, WordOf(f, i, k), i, k, Ptr(f, i, k)))
            && LandsAny(s, i, k, Ptr(f, i, k))
  {
    AtTurn(trace, v, g, n, i, k);
    var s, t, u := trace[0], trace[n], trace[n + 1];
    if Known(k) {
      WordStays(trace, v, g, n, i, k);
    }
    hide IsTrace, Visits, Lands, LandsAny;
    TurnPointer(s, t, u, g, i, k);
  }

  /** The word compared at a turn is not changed by the pass any more. */
  lemma WordStays(trace: seq<Store>, v: seq<(nat, nat)>, g: Geometry, n: nat, i: nat, k: nat)
    requires Turns(trace, v, g) && n < |v| && v[n] == (i, k) && Known(k)
    ensures |trace| == |v| + 1 && i < |trace[0].inodes|
    ensures SameBlocks(trace[0], trace[n], g) && SameBlocks(trace[0], trace[|v|], g)
    ensures WordOf(trace[|v|], i, k) == WordOf(trace[n], i, k)
  {
    hide SameBlocks, IsTrace, Visits, WordOf, SameBut;
    TraceLength(trace, v, g);
    TurnsInOrder(trace[0], v, n);
    UpToTurn(trace, v, g, n);
    UpToTurn(trace, v, g, |v|);
    TurnsKeep(trace, v, g, n, |v|);
    NotBack(v, n, i, k);
    VisitedIn(trace[0], i, k);
    WordKept(trace[n], trace[|v|], g, v[n..|v|], i, k);
  }

  lemma NotBack(v: seq<(nat, nat)>, n: nat, i: nat, k: nat)
    requires Ordered(v) && n < |v| && v[n] == (i, k)
    ensures NDIRECT <= k ==> (i, k - NDIRECT) !in v[n..|v|]
  {
    forall p | n <= p < |v| ensures NDIRECT <= k ==> v[p] != (i, k - NDIRECT) {
      assert p > n ==> Less(v[n], v[p]);
    }
  }

  lemma WordKept(s: Store, t: Store, g: Geometry, ps: seq<(nat, nat)>, i: nat, k: nat)
    requires SameBut(s, t, g, ps) && i < |s.inodes| && k < MAXFILE && Known(k) && (NDIRECT <= k ==> (i, k - NDIRECT) !in ps)
    ensures WellFormed(s) && WellFormed(t) && i < |t.inodes| && WordOf(t, i, k) == WordOf(s, i, k)
  {
    if NDIRECT <= k < 2 * NDIRECT {
      assert Ptr(t, i, k - NDIRECT) == Ptr(s, i, k - NDIRECT);
    }
  }

  /** A direct position has its turn before the positions in the table. */
  lemma TurnBefore(s: Store, v: seq<(nat, nat)>, n: nat, i: nat, k: nat) returns (p: nat)
    requires WellFormed(s) && v <= Visits(s, |s.inodes|) && n < |v| && v[n] == (i, k) && NDIRECT <= k < 2 * NDIRECT
    ensures p < n && v[p] == (i, k - NDIRECT)
  {
    TurnsInOrder(s, v, n);
    p := TurnOf(s, i, k - NDIRECT);
    var all := Visits(s, |s.inodes|);
    hide Visits;
    assert all[n] == (i, k);
  }

  /** The word left after the turn is the one told from the start. */
  lemma WordIsStart(trace: seq<Store>, v: seq<(nat, nat)>, g: Geometry, n: nat, i: nat, k: nat)
    requires Turns(trace, v, g) && n < |v| && v[n] == (i, k) && Known(k)
    ensures |trace| == |v| + 1 && SameBlocks(trace[0], trace[|v|], g) && Visited(trace[0], i, k)
    ensures StartWord(trace[0], i, k, WordOf(trace[|v|], i, k))
  {
    hide Lands, LandsAny, IsTrace, Visits;
    TurnLands(trace, v, g, n, i, k);
    if NDIRECT <= k < 2 * NDIRECT {
      var p := TurnBefore(trace[0], v, n, i, k);
      TurnLands(trace, v, g, p, i, k - NDIRECT);
    }
  }

  /** Where a pointer of a plain file is once its turn is over, told from the store before the pass: at the
      last duplicate later in its file, or else, up to position 24, at the last one of the last later plain
      file that has one past the word compared, or else where it was. */
  lemma TurnPointers(trace: seq<Store>, v: seq<(nat, nat)>, g: Geometry, n: nat, i: nat, k: nat)
    requires Turns(trace, v, g) && n < |v| && v[n] == (i, k)
    ensures |trace| == |v| + 1 && Visited(trace[0], i, k) && SameBlocks(trace[0], trace[|v|], g)
    ensures var s, p := trace[0], Ptr(trace[|v|], i, k);
            && (forall m :: Near(s, i, k, m) ==> p == Ptr(s, i, m))
            && (NoneLater(s, i, k) ==> p == Ptr(s, i, k))
            && (Known(k) ==> (exists w :: StartWord(s, i, k, w)) && forall w :: StartWord(s, i, k, w) ==> Lands(s, w, i, k, p))
            && LandsAny(s, i, k, p)
  {
    hide Lands, LandsAny, StartWord, IsTrace, Visits, WordOf, Near, NoneLater, Ptr;
    TurnLands(trace, v, g, n, i, k);
    if Known(k) {
      var s, f := trace[0], trace[|v|];
      WordIsStart(trace, v, g, n, i, k);
      forall w | StartWord(s, i, k, w) ensures Lands(s, w, i, k, Ptr(f, i, k)) {
        StartWordOnce(s, i, k, w, WordOf(f, i, k));
      }
    }
  }

  lemma ShapedFormed(s: Store, g: Geometry)
    requires Shaped(s, g)
    ensures WellFormed(s)
  {
  }

  /** Where every pointer of a plain file is after the pass. */
  lemma PassPointers(trace: seq<Store>, g: Geometry, i: nat, k: nat)
    requires |trace| > 0 && Shaped(trace[0], g) && IsTrace(trace, Visits(trace[0], |trace[0].inodes|), g)
    requires Visited(trace[0], i, k)
    ensures SameBlocks(trace[0], trace[|trace| - 1], g)
    ensures var s, p := trace[0], Ptr(trace[|trace| - 1], i, k);
            && (forall m :: Near(s, i, k, m) ==> p == Ptr(s, i, m))
            && (NoneLater(s, i, k) ==> p == Ptr(s, i, k))
            && (Known(k) ==> (exists w :: StartWord(s, i, k, w)) && forall w :: StartWord(s, i, k, w) ==> Lands(s, w, i, k, p))
            && LandsAny(s, i, k, p)
  {
    hide Lands, LandsAny, StartWord, IsTrace, Visits, Near, NoneLater, Ptr, SameBlocks, Visited, Shaped;
    ShapedFormed(trace[0], g);
    TraceLength(trace, Visits(trace[0], |trace[0].inodes|), g);
    var n := TurnOf(trace[0], i, k);
    TurnPointers(trace, Visits(trace[0], |trace[0].inodes|), g, n, i, k);
  }

  lemma TurnPointer(s: Store, t: Store, u: Store, g: Geometry, i: nat, k: nat)
    requires AsAtStart(s, t, g, i, k) && Treated(t, u, g, i, k)
    ensures WellFormed(u) && i < |u.inodes|
    ensures forall m :: Near(s, i, k, m) ==> Ptr(u, i, k) == Ptr(s, i, m)
    ensures NoneLater(s, i, k) ==> Ptr(u, i, k) == Ptr(s, i, k)
    ensures Known(k) ==> Lands(s, WordOf(t, i, k), i, k, Ptr(u, i, k))
    ensures LandsAny(s, i, k, Ptr(u, i, k))
  {
    TurnLandsAny(s, t, u, g, i, k);
    hide LandsAny;
    StartFacts(s, t, g, i, k);
    SameNear(s, t, g, i, k);
    SameLater(s, t, g, i, k);
    if Known(k) {
      FarIsPast(t, i, k);
      SamePast(s, t, g, WordOf(t, i, k), i, k);
    }
    hide Merged, AsAtStart, Near, NoneNear, NoneAbove, Far, FarPast, NonePast, NoneLater, Shaped, WordOf;
    if exists j, m :: Chosen(t, i, k, j, m) && Merged(t, u, g, i, k, j, m) {
      var j, m :| Chosen(t, i, k, j, m) && Merged(t, u, g, i, k, j, m);
      TurnMerged(s, t, u, g, i, k, j, m);
    } else {
      TurnAlone(t, i, k);
    }
  }

  lemma TurnLandsAny(s: Store, t: Store, u: Store, g: Geometry, i: nat, k: nat)
    requires AsAtStart(s, t, g, i, k) && Treated(t, u, g, i, k)
    ensures WellFormed(u) && i < |u.inodes| && LandsAny(s, i, k, Ptr(u, i, k))
  {
    StartFacts(s, t, g, i, k);
    SameNear(s, t, g, i, k);
    SameSeen(s, t, g, i, k);
    SameAny(s, t, i, k);
    hide AsAtStart, Near, NoneNear, SeenPast, LastPast, NoPast, Merged, Shaped, Compared, LandsAny, Chosen, Reaches, MissedAbove;
    if exists j, m :: Chosen(t, i, k, j, m) && Merged(t, u, g, i, k, j, m) {
      var j, m :| Chosen(t, i, k, j, m) && Merged(t, u, g, i, k, j, m);
      ChosenLater(t, i, k, j, m);
      ChosenPtr(s, t, u, g, i, k, j, m);
      AnyMerged(s, t, i, k, j, m);
    } else {
      TurnAlone(t, i, k);
      AnyAlone(s, t, i, k);
    }
  }

  lemma AnyMerged(s: Store, t: Store, i: nat, k: nat, j: nat, m: nat)
    requires WellFormed(s) && InRange(s) && WellFormed(t) && InRange(t) && i < |s.inodes| == |t.inodes| && k < MAXFILE
    requires (forall c :: Near(t, i, k, c) <==> Near(s, i, k, c)) && (NoneNear(t, i, k) <==> NoneNear(s, i, k))
    requires Reaches(t, i, k, j, m) <==> Reaches(s, i, k, j, m)
    requires Chosen(t, i, k, j, m) && j < |s.inodes| && m < MAXFILE
    ensures LandsAny(s, i, k, Ptr(s, j, m))
  {
    hide Near, NoneNear, Reaches, Far;
    if Far(t, i, k, j, m) {
      FarReaches(t, i, k, j, m);
      NoNearThen(s, i, k);
    } else {
      OnlyNear(s, i, k, m);
    }
  }

  lemma AnyAlone(s: Store, t: Store, i: nat, k: nat)
    requires WellFormed(s) && InRange(s) && WellFormed(t) && InRange(t) && i < |s.inodes| == |t.inodes| && k < MAXFILE
    requires forall c :: Near(t, i, k, c) <==> Near(s, i, k, c)
    requires MissedAbove(t, i, k, i) <==> MissedAbove(s, i, k, i)
    requires Ptr(t, i, k) == Ptr(s, i, k) && (forall m :: !Near(t, i, k, m)) && (Ptr(t, i, k) == 0 || NoneAbove(t, i, k, i))
    ensures LandsAny(s, i, k, Ptr(s, i, k))
  {
    hide Near, NoneNear, MissedAbove;
    if Ptr(t, i, k) != 0 { AboveMissed(t, i, k, i); }
  }

  lemma NoNearThen(s: Store, i: nat, k: nat)
    requires WellFormed(s) && InRange(s) && NoneNear(s, i, k)
    ensures forall m :: !Near(s, i, k, m)
  {
  }

  lemma OnlyNear(s: Store, i: nat, k: nat, m: nat)
    requires WellFormed(s) && InRange(s) && Near(s, i, k, m)
    ensures !NoneNear(s, i, k) && forall c :: Near(s, i, k, c) ==> c == m
  {
  }

  lemma AboveMissed(t: Store, i: nat, k: nat, j: nat)
    requires WellFormed(t) && InRange(t) && i < |t.inodes| && NoneAbove(t, i, k, j)
    ensures MissedAbove(t, i, k, j)
  {
    hide NoPast, Compared;
    forall c | j < c < |t.inodes| && t.inodes[c].typ == T_FILE ensures MissedSome(t, i, k, c) {
      assert Missed(t, i, k, c);
    }
  }

  lemma FarReaches(t: Store, i: nat, k: nat, j: nat, m: nat)
    requires WellFormed(t) && InRange(t) && i < |t.inodes| && Far(t, i, k, j, m)
    ensures Reaches(t, i, k, j, m) && NoneNear(t, i, k)
  {
    hide NoPast, LastPast, Compared, NoneNear;
    AboveMissed(t, i, k, j);
  }

  lemma SameSeen(s: Store, t: Store, g: Geometry, i: nat, k: nat)
    requires AsAtStart(s, t, g, i, k) && i < |s.inodes| && k < MAXFILE
    ensures WellFormed(s) && InRange(s) && WellFormed(t) && InRange(t) && |s.inodes| == |t.inodes|
    ensures forall a :: 0 <= a < |s.inodes| ==> t.inodes[a].typ == s.inodes[a].typ
    ensures forall w: int, j: nat, m: nat :: i < j ==> (SeenPast(t, w, i, k, j, m) <==> SeenPast(s, w, i, k, j, m))
  {
    forall w: int, j: nat, m: nat | i < j ensures SeenPast(t, w, i, k, j, m) <==> SeenPast(s, w, i, k, j, m) {
      SameDuplicates(s, t, g, i, k, j, m);
    }
  }

  lemma SameAny(s: Store, t: Store, i: nat, k: nat)
    requires WellFormed(s) && InRange(s) && WellFormed(t) && InRange(t) && |s.inodes| == |t.inodes|
    requires forall a :: 0 <= a < |s.inodes| ==> t.inodes[a].typ == s.inodes[a].typ
    requires forall w: int, j: nat, m: nat :: i < j ==> (SeenPast(t, w, i, k, j, m) <==> SeenPast(s, w, i, k, j, m))
    ensures MissedAbove(t, i, k, i) <==> MissedAbove(s, i, k, i)
    ensures forall j: nat, m: nat :: Reaches(t, i, k, j, m) <==> Reaches(s, i, k, j, m)
  {
    hide SeenPast;
    forall w: int, j: nat | i < j ensures NoPast(t, w, i, k, j) <==> NoPast(s, w, i, k, j) {
    }
    forall w: int, j: nat, m: nat | i < j ensures LastPast(t, w, i, k, j, m) <==> LastPast(s, w, i, k, j, m) {
    }
    hide NoPast, LastPast;
    forall j: nat | i < j ensures MissedSome(t, i, k, j) <==> MissedSome(s, i, k, j) {
    }
    forall j: nat, m: nat | i < j ensures FoundSome(t, i, k, j, m) <==> FoundSome(s, i, k, j, m) {
    }
    hide MissedSome, FoundSome;
    forall j: nat | i <= j ensures MissedAbove(t, i, k, j) <==> MissedAbove(s, i, k, j) {
    }
  }

  lemma StartFacts(s: Store, t: Store, g: Geometry, i: nat, k: nat)
    requires AsAtStart(s, t, g, i, k) && i < |s.inodes| && k < MAXFILE
    ensures WellFormed(s) && WellFormed(t) && InRange(s) && InRange(t) && |s.inodes| == |t.inodes| && Ptr(t, i, k) == Ptr(s, i, k)
  {
  }

  /** A position left alone has no near duplicate and, where the word is known, no far one. */
  lemma TurnAlone(t: Store, i: nat, k: nat)
    requires WellFormed(t) && InRange(t) && i < |t.inodes| && k < MAXFILE
    requires Ptr(t, i, k) == 0 || (NoneNear(t, i, k) && NoneAbove(t, i, k, i))
    ensures forall m :: !Near(t, i, k, m)
    ensures Known(k) ==> forall j, m :: !Far(t, i, k, j, m)
  {
  }

  lemma TurnMerged(s: Store, t: Store, u: Store, g: Geometry, i: nat, k: nat, j: nat, m: nat)
    requires AsAtStart(s, t, g, i, k) && i < |s.inodes| && k < MAXFILE
    requires Chosen(t, i, k, j, m) && Merged(t, u, g, i, k, j, m)
    requires forall c :: Near(t, i, k, c) <==> Near(s, i, k, c)
    requires NoneNear(t, i, k) <==> NoneNear(s, i, k)
    requires NoneLater(t, i, k) <==> NoneLater(s, i, k)
    requires Known(k) ==> (forall a: nat, c: nat :: Far(t, i, k, a, c) <==> FarPast(s, WordOf(t, i, k), i, k, a, c))
                          && (NoneAbove(t, i, k, i) <==> NonePast(s, WordOf(t, i, k), i, k, i))
    ensures WellFormed(u) && i < |u.inodes| && !NoneLater(s, i, k)
    ensures forall c :: Near(s, i, k, c) ==> Ptr(u, i, k) == Ptr(s, i, c)
    ensures Known(k) ==> Lands(s, WordOf(t, i, k), i, k, Ptr(u, i, k))
  {
    hide Merged, AsAtStart, NoneNear, NoneAbove, NoneLater, Far, NonePast, WordOf;
    StartFacts(s, t, g, i, k);
    ChosenLater(t, i, k, j, m);
    ChosenPtr(s, t, u, g, i, k, j, m);
    forall c | Near(s, i, k, c) ensures Ptr(u, i, k) == Ptr(s, i, c) {
      NearIsIt(t, i, k, j, m, c);
    }
    if Known(k) {
      var w := WordOf(t, i, k);
      forall a: nat, c: nat | FarPast(s, w, i, k, a, c) ensures Ptr(u, i, k) == Ptr(s, a, c) {
        ChosenOnce(t, i, k, j, m, a, c);
      }
      ChosenSomewhere(t, i, k, j, m);
    }
  }

  lemma ChosenSomewhere(t: Store, i: nat, k: nat, j: nat, m: nat)
    requires WellFormed(t) && InRange(t) && i < |t.inodes| && Known(k) && Chosen(t, i, k, j, m)
    ensures !(NoneNear(t, i, k) && NoneAbove(t, i, k, i))
  {
    if Far(t, i, k, j, m) {
      FoundIsLast(t, i, k, j, m);
      AboveIsPast(t, i, k, i);
    }
  }

  lemma ChosenLater(t: Store, i: nat, k: nat, j: nat, m: nat)
    requires WellFormed(t) && InRange(t) && Chosen(t, i, k, j, m)
    ensures !NoneLater(t, i, k) && j < |t.inodes| && m < MAXFILE && Less((i, k), (j, m)) && Duplicate(t, i, k, j, m)
  {
  }

  lemma ChosenPtr(s: Store, t: Store, u: Store, g: Geometry, i: nat, k: nat, j: nat, m: nat)
    requires AsAtStart(s, t, g, i, k) && i < |s.inodes| && k < MAXFILE && j < |t.inodes| && m < MAXFILE
    requires Less((i, k), (j, m)) && Merged(t, u, g, i, k, j, m)
    ensures WellFormed(u) && i < |u.inodes| && j < |s.inodes| && Ptr(u, i, k) == Ptr(s, j, m)
  {
    MergedPointers(t, u, g, i, k, j, m);
  }

  lemma NearIsIt(s: Store, i: nat, k: nat, j: nat, m: nat, c: nat)
    requires WellFormed(s) && InRange(s) && Chosen(s, i, k, j, m) && Near(s, i, k, c)
    ensures j == i && m == c
  {
  }

  // ---- what the pass leaves apart, and what a later write does ----

  /** A position is moved to the block of the last duplicate m in its file. Up to position 24 the two end on one
      block if and only if m itself finds no further duplicate: none later in the file, and none in a later
      plain file past the word compared. */
  lemma TwinsSplit(trace: seq<Store>, g: Geometry, i: nat, k: nat, m: nat)
    requires |trace| > 0 && Shaped(trace[0], g) && IsTrace(trace, Visits(trace[0], |trace[0].inodes|), g)
    requires Visited(trace[0], i, k) && InRange(trace[0]) && Near(trace[0], i, k, m) && Known(m)
    ensures var s, f := trace[0], trace[|trace| - 1];
            && WellFormed(f) && i < |f.inodes|
            && (Ptr(f, i, k) == Ptr(f, i, m) <==>
                NoneNear(s, i, m) && forall w :: StartWord(s, i, m, w) ==> NonePast(s, w, i, m, i))
  {
    var s, f := trace[0], trace[|trace| - 1];
    assert Visited(s, i, m) by { HeldVisited(s, i, k, m); }
    PassPointers(trace, g, i, k);
    PassPointers(trace, g, i, m);
    hide IsTrace, Visits, StartWord, NoneLater, LandsAny;
    assert Ptr(f, i, k) == Ptr(s, i, m);
    var w :| StartWord(s, i, m, w);
    forall x | StartWord(s, i, m, x) ensures x == w {
      StartWordOnce(s, i, m, w, x);
    }
    assert Lands(s, w, i, m, Ptr(f, i, m));
    hide Lands, Near, NoneNear, NonePast, SeenPast, Duplicate;
    StaysIf(s, w, i, m, Ptr(f, i, m));
  }

  /** A position stays exactly when the search finds nothing. */
  lemma StaysIf(s: Store, w: nat, i: nat, k: nat, p: nat)
    requires WellFormed(s) && InRange(s) && i < |s.inodes| && k < MAXFILE && Lands(s, w, i, k, p)
    ensures p == Ptr(s, i, k) <==> NoneNear(s, i, k) && NonePast(s, w, i, k, i)
  {
    if !NoneNear(s, i, k) {
      var c := LastNear(s, i, k, MAXFILE);
    } else if !NonePast(s, w, i, k, i) {
      var a, c :| i < a < |s.inodes| && s.inodes[a].typ == T_FILE && 0 <= c < MAXFILE && SeenPast(s, w, i, k, a, c);
      var j, d := LastFar(s, w, i, k, |s.inodes|, a, c);
    }
  }

  /** A position that holds a block is one the pass visits. */
  lemma HeldVisited(s: Store, i: nat, k: nat, m: nat)
    requires WellFormed(s) && Visited(s, i, k) && m < MAXFILE && Ptr(s, i, m) != 0
    ensures Visited(s, i, m)
  {
  }

  lemma {:induction false} LastNear(s: Store, i: nat, k: nat, b: nat) returns (m: nat)
    requires WellFormed(s) && InRange(s) && !NoneNear(s, i, k) && b <= MAXFILE
    requires forall c :: b <= c < MAXFILE ==> !Duplicate(s, i, k, i, c)
    ensures Near(s, i, k, m)
    decreases b
  {
    if k < b - 1 && Duplicate(s, i, k, i, b - 1) {
      m := b - 1;
    } else {
      var c :| k < c < MAXFILE && Duplicate(s, i, k, i, c);
      m := LastNear(s, i, k, b - 1);
    }
  }

  /** A position with such a duplicate in a later plain file has a last one. */
  lemma {:induction false} LastFar(s: Store, w: nat, i: nat, k: nat, b: nat, a: nat, c: nat) returns (j: nat, m: nat)
    requires WellFormed(s) && InRange(s) && NoneNear(s, i, k)
    requires i < a < b <= |s.inodes| && s.inodes[a].typ == T_FILE && c < MAXFILE && SeenPast(s, w, i, k, a, c)
    requires NonePast(s, w, i, k, b - 1)
    ensures FarPast(s, w, i, k, j, m)
    decreases b
  {
    var l := b - 1;
    if s.inodes[l].typ == T_FILE && exists d :: 0 <= d < MAXFILE && SeenPast(s, w, i, k, l, d) {
      j := l;
      m := LastIn(s, w, i, k, j, MAXFILE);
    } else {
      j, m := LastFar(s, w, i, k, b - 1, a, c);
    }
  }

  lemma {:induction false} LastIn(s: Store, w: nat, i: nat, k: nat, j: nat, b: nat) returns (m: nat)
    requires WellFormed(s) && InRange(s) && b <= MAXFILE && exists d :: 0 <= d < MAXFILE && SeenPast(s, w, i, k, j, d)
    requires forall c :: b <= c < MAXFILE ==> !SeenPast(s, w, i, k, j, c)
    ensures m < MAXFILE && SeenPast(s, w, i, k, j, m) && forall c :: m < c < MAXFILE ==> !SeenPast(s, w, i, k, j, c)
    decreases b
  {
    if SeenPast(s, w, i, k, j, b - 1) {
      m := b - 1;
    } else {
      m := LastIn(s, w, i, k, j, b - 1);
    }
  }

  /** After a merge inside one file, writing either position also writes the other. */
  lemma MergedThenWritten(s: Store, t: Store, w: Store, g: Geometry, i: nat, k: nat, m: nat, off: nat, src: seq<Byte>)
    requires Merged(s, t, g, i, k, i, m) && InRange(s) && Duplicate(s, i, k, i, m) && Consistent(t, g)
    requires WroteBlock(t, w, g, i, k, off, src)
    ensures WellFormed(w) && InRange(w) && i < |w.inodes|
    ensures BlockAt(w, i, k) == Overwrite(BlockAt(s, i, k), off, src)
    ensures BlockAt(w, i, m) == Overwrite(BlockAt(s, i, m), off, src)
  {
    MergedPointers(s, t, g, i, k, i, m);
    MergedSameBlocks(s, t, g, i, k, i, m);
    ConsistentIsPrivate(t, g, i);
    hide WroteCounts;
    assert Alias(t, i, k, m);
  }
}
