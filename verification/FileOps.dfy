/**
 The steps of fs.c on the store as a value: allocating a block for a file, copy on write and
 overwriting, with what each does to the pointers, the counts and the bytes of every file.
 */
module FileOps {
  import opened Sharing
  import opened Blocks
  import opened FileStore

  // ---- balloc and bmap ----

  /** A block taken from the free list and zeroed. */
  function AllocBlock(s: Store, b: nat): Store
    requires b < |s.used| && b < |s.disk|
  {
    s.(used := s.used[b := true], disk := s.disk[b := ZeroBlock()])
  }

  ghost predicate Fresh(s: Store, g: Geometry, b: nat) {
    g.first <= b < g.limit && b < |s.used| && !s.used[b]
  }

  lemma AllocBlockView(s: Store, g: Geometry, b: nat)
    requires SoundStore(s, g) && Fresh(s, g, b)
    ensures Framed(AllocBlock(s, b), g)
    ensures ViewOf(AllocBlock(s, b)) == ViewOf(s).(used := s.used[b := true])
  {
    forall i | 0 <= i < |s.inodes| && s.inodes[i].addrs[NDIRECT] != 0 ensures s.inodes[i].addrs[NDIRECT] != b {
      assert ViewOf(s).tbls[i] == s.inodes[i].addrs[NDIRECT];
    }
    ViewSetBlock(s, b, ZeroBlock());
    var t := s.(disk := s.disk[b := ZeroBlock()]);
    var u := AllocBlock(s, b);
    assert AllPtrs(u) == AllPtrs(t) by {
      forall a | 0 <= a < |s.inodes| ensures AllPtrs(u)[a] == AllPtrs(t)[a] {
        assert forall c :: 0 <= c < MAXFILE ==> Ptr(u, a, c) == Ptr(t, a, c);
      }
    }
  }

  ghost predicate SameInodes(s: Store, t: Store) {
    && |t.inodes| == |s.inodes|
    && forall j :: 0 <= j < |s.inodes| ==> t.inodes[j].typ == s.inodes[j].typ && t.inodes[j].size == s.inodes[j].size
  }

  /** What an allocation for file i may and may not do: pointers other than (i, k) stay, and every
      file keeps its bytes, since an absent block reads as zeros. */
  ghost predicate SameFiles(s: Store, t: Store, g: Geometry) {
    && SoundStore(s, g) && SoundStore(t, g)
    && SameInodes(s, t) && InRange(s) && InRange(t)
    && (forall j, k :: 0 <= j < |s.inodes| && 0 <= k < MAXFILE ==> BlockAt(t, j, k) == BlockAt(s, j, k))
  }

  ghost predicate Grown(s: Store, t: Store, g: Geometry) {
    && SameFiles(s, t, g)
    && t.refs == s.refs
    && (forall b :: 0 <= b < g.size && s.used[b] ==> t.used[b])
    && (Consistent(s, g) ==> Consistent(t, g))
  }

  /** The effect of bmap(i, k) returning addr. */
  ghost predicate MappedTo(s: Store, t: Store, g: Geometry, i: nat, k: nat, addr: nat) {
    && i < |s.inodes| && k < MAXFILE
    && Grown(s, t, g)
    && addr == Ptr(t, i, k) != 0
    && (Ptr(s, i, k) != 0 ==> t == s)
    && (Ptr(s, i, k) == 0 ==> Fresh(s, g, addr))
    && (forall j, m :: 0 <= j < |s.inodes| && 0 <= m < MAXFILE && (j, m) != (i, k) ==> Ptr(t, j, m) == Ptr(s, j, m))
    && (forall j :: 0 <= j < |s.inodes| && s.inodes[j].addrs[NDIRECT] != 0 ==>
          t.inodes[j].addrs[NDIRECT] == s.inodes[j].addrs[NDIRECT])
    && (forall j :: 0 <= j < |s.inodes| && s.inodes[j].addrs[NDIRECT] == 0 && t.inodes[j].addrs[NDIRECT] != 0 ==>
          Fresh(s, g, t.inodes[j].addrs[NDIRECT]))
  }

  lemma MapDirect(s: Store, g: Geometry, i: nat, k: nat, b: nat)
    requires SoundStore(s, g) && Fresh(s, g, b) && i < |s.inodes| && k < NDIRECT && Ptr(s, i, k) == 0
    ensures MappedTo(s, SetAddr(AllocBlock(s, b), i, k, b), g, i, k, b)
  {
    var u := AllocBlock(s, b);
    var t := SetAddr(u, i, k, b);
    AllocBlockView(s, g, b);
    ViewSetDirect(u, i, k, b);
    assert ViewOf(t) == AddData(ViewOf(s), i, k, b);
    AddDataSound(ViewOf(s), g, i, k, b);
    if Consistent(s, g) { AddDataKeepsInv(ViewOf(s), g, i, k, b); }
    PointersAfter(s, t, g, i, k, b);
  }

  lemma MapIndirectView(s: Store, g: Geometry, i: nat, j: nat, b: nat)
    requires SoundStore(s, g) && Fresh(s, g, b) && i < |s.inodes| && j < NINDIRECT
    requires s.inodes[i].addrs[NDIRECT] != 0
    ensures Framed(SetTableWord(AllocBlock(s, b), s.inodes[i].addrs[NDIRECT], j, b), g)
    ensures ViewOf(SetTableWord(AllocBlock(s, b), s.inodes[i].addrs[NDIRECT], j, b)) == AddData(ViewOf(s), i, NDIRECT + j, b)
  {
    AllocBlockView(s, g, b);
    assert Shape(ViewOf(AllocBlock(s, b)), g);
    ViewSetWord(AllocBlock(s, b), g, i, j, b);
  }

  lemma MapIndirect(s: Store, g: Geometry, i: nat, j: nat, b: nat)
    requires SoundStore(s, g) && Fresh(s, g, b) && i < |s.inodes| && j < NINDIRECT
    requires s.inodes[i].addrs[NDIRECT] != 0 && Ptr(s, i, NDIRECT + j) == 0
    ensures MappedTo(s, SetTableWord(AllocBlock(s, b), s.inodes[i].addrs[NDIRECT], j, b), g, i, NDIRECT + j, b)
  {
    var u := AllocBlock(s, b);
    var t := SetTableWord(u, s.inodes[i].addrs[NDIRECT], j, b);
    MapIndirectView(s, g, i, j, b);
    assert ViewOf(s).ptrs[i][NDIRECT + j] == 0;
    assert AllTbls(s)[i] == s.inodes[i].addrs[NDIRECT];
    AddDataSound(ViewOf(s), g, i, NDIRECT + j, b);
    if Consistent(s, g) { AddDataKeepsInv(ViewOf(s), g, i, NDIRECT + j, b); }
    PointersAfter(s, t, g, i, NDIRECT + j, b);
  }

  /** Shared tail of the two lemmas above. */
  lemma PointersAfter(s: Store, t: Store, g: Geometry, i: nat, k: nat, b: nat)
    requires SoundStore(s, g) && Framed(t, g) && Fresh(s, g, b) && i < |s.inodes| && k < MAXFILE
    requires Ptr(s, i, k) == 0 && Sound(ViewOf(t), g)
    requires ViewOf(t) == AddData(ViewOf(s), i, k, b)
    requires Consistent(s, g) ==> Inv(ViewOf(t), g)
    requires SameInodes(s, t)
    requires t.disk[b] == ZeroBlock()
    requires forall c :: 0 <= c < g.size && c != b && !IsTable(ViewOf(s).tbls, c) ==> t.disk[c] == s.disk[c]
    ensures MappedTo(s, t, g, i, k, b)
  {
    var v, w := ViewOf(s), ViewOf(t);
    SoundInRange(s, g);
    SoundInRange(t, g);
    assert w.tbls == v.tbls;
    forall a, c | 0 <= a < |s.inodes| && 0 <= c < MAXFILE
      ensures Ptr(t, a, c) == if (a, c) == (i, k) then b else Ptr(s, a, c)
      ensures BlockAt(t, a, c) == BlockAt(s, a, c)
    {
      assert w.ptrs[a][c] == Ptr(t, a, c) && v.ptrs[a][c] == Ptr(s, a, c);
      if Ptr(s, a, c) != 0 {
        assert !IsTable(v.tbls, v.ptrs[a][c]);
      }
    }
    forall j | 0 <= j < |s.inodes| ensures t.inodes[j].addrs[NDIRECT] == s.inodes[j].addrs[NDIRECT] {
      assert w.tbls[j] == v.tbls[j];
    }
  }

  /** Installing a fresh indirect table changes no pointer and no byte. */
  lemma MapTable(s: Store, g: Geometry, i: nat, b: nat)
    requires SoundStore(s, g) && Fresh(s, g, b) && i < |s.inodes| && s.inodes[i].addrs[NDIRECT] == 0
    ensures Grown(s, SetAddr(AllocBlock(s, b), i, NDIRECT, b), g)
    ensures AllPtrs(SetAddr(AllocBlock(s, b), i, NDIRECT, b)) == AllPtrs(s)
  {
    var u := AllocBlock(s, b);
    var t := SetAddr(u, i, NDIRECT, b);
    AllocBlockView(s, g, b);
    ViewSetTable(u, i, b);
    assert ViewOf(t) == AddTable(ViewOf(s), i, b);
    AddTableSound(ViewOf(s), g, i, b);
    if Consistent(s, g) { AddTableKeepsInv(ViewOf(s), g, i, b); }
    SoundInRange(s, g);
    SoundInRange(t, g);
    forall a, c | 0 <= a < |s.inodes| && 0 <= c < MAXFILE
      ensures BlockAt(t, a, c) == BlockAt(s, a, c)
    {
      assert AllPtrs(t)[a][c] == Ptr(t, a, c) && AllPtrs(s)[a][c] == Ptr(s, a, c);
    }
  }

  /** The table is installed first, then the data block. */
  lemma MapTableThenIndirect(s: Store, t: Store, u: Store, g: Geometry, i: nat, k: nat, b: nat, addr: nat)
    requires SoundStore(s, g) && Fresh(s, g, b) && i < |s.inodes| && NDIRECT <= k < MAXFILE
    requires s.inodes[i].addrs[NDIRECT] == 0
    requires t == SetAddr(AllocBlock(s, b), i, NDIRECT, b)
    requires MappedTo(t, u, g, i, k, addr) && Ptr(t, i, k) == 0
    ensures MappedTo(s, u, g, i, k, addr)
  {
    MapTable(s, g, i, b);
    forall a, c | 0 <= a < |s.inodes| && 0 <= c < MAXFILE
      ensures Ptr(t, a, c) == Ptr(s, a, c)
    {
      assert AllPtrs(t)[a][c] == Ptr(t, a, c) && AllPtrs(s)[a][c] == Ptr(s, a, c);
    }
  }

  // ---- copy on write ----

  /** The effect of replaceBlk(i, x, b) on the inode and its table. */
  ghost predicate Redirected(s: Store, t: Store, i: nat, x: nat, b: nat) {
    && i < |s.inodes| && WellFormed(s) && |s.disk| == |t.disk|
    && t.used == s.used && t.refs == s.refs && |t.inodes| == |s.inodes|
    && (forall j :: 0 <= j < |s.inodes| && j != i ==> t.inodes[j] == s.inodes[j])
    && t.inodes[i].typ == s.inodes[i].typ && t.inodes[i].size == s.inodes[i].size
    && |t.inodes[i].addrs| == NDIRECT + 1 && t.inodes[i].addrs[NDIRECT] == s.inodes[i].addrs[NDIRECT]
    && (forall k :: 0 <= k < NDIRECT ==>
          t.inodes[i].addrs[k] == if s.inodes[i].addrs[k] == x then b else s.inodes[i].addrs[k])
    && var tbl := s.inodes[i].addrs[NDIRECT];
    && (forall c :: 0 <= c < |s.disk| && (tbl == 0 || c != tbl) ==> t.disk[c] == s.disk[c])
    && (tbl != 0 ==> forall j :: 0 <= j < NINDIRECT ==>
          Word(t.disk[tbl], j) == if Word(s.disk[tbl], j) == x then b else Word(s.disk[tbl], j))
  }

  lemma RedirectView(s: Store, t: Store, g: Geometry, i: nat, x: nat, b: nat)
    requires Framed(s, g) && GeometryOk(g) && Shape(ViewOf(s), g) && x != 0 && Redirected(s, t, i, x, b)
    ensures Framed(t, g)
    ensures ViewOf(t) == ViewOf(s).(ptrs := AllPtrs(s)[i := Redirect(AllPtrs(s)[i], x, b)])
  {
    assert WellFormed(t);
    var q := AllPtrs(s)[i := Redirect(AllPtrs(s)[i], x, b)];
    forall a | 0 <= a < |s.inodes| ensures AllPtrs(t)[a] == q[a] {
      assert a != i && ViewOf(s).tbls[i] != 0 ==> ViewOf(s).tbls[a] != ViewOf(s).tbls[i];
      forall c | 0 <= c < MAXFILE ensures AllPtrs(t)[a][c] == q[a][c] {
        assert AllPtrs(s)[a][c] == Ptr(s, a, c) && AllPtrs(t)[a][c] == Ptr(t, a, c);
      }
    }
    assert AllTbls(t) == AllTbls(s);
  }

  /** The store after the copy-on-write branch of writei and the overwrite that follows it: u is the
      store with one reference dropped and b allocated, t has the pointers redirected. */
  ghost predicate CowWritten(s: Store, t: Store, w: Store, g: Geometry, i: nat, k: nat, b: nat, x: Block) {
    && SoundStore(s, g) && i < |s.inodes| && k < MAXFILE && Ptr(s, i, k) != 0
    && Ptr(s, i, k) < |s.refs| && s.refs[Ptr(s, i, k)] > 0 && Fresh(s, g, b)
    && Redirected(AllocBlock(s.(refs := s.refs[Ptr(s, i, k) := s.refs[Ptr(s, i, k)] - 1]), b), t, i, Ptr(s, i, k), b)
    && b < |t.disk| && w == t.(disk := t.disk[b := x])
  }

  /** One reference dropped: no pointer moves. */
  lemma DropRefSound(s: Store, g: Geometry, i: nat, k: nat)
    requires SoundStore(s, g) && i < |s.inodes| && k < MAXFILE && Ptr(s, i, k) < |s.refs| && s.refs[Ptr(s, i, k)] > 0
    ensures var r := s.(refs := s.refs[Ptr(s, i, k) := s.refs[Ptr(s, i, k)] - 1]);
            SoundStore(r, g) && ViewOf(r) == ViewOf(s).(refs := r.refs)
  {
    var p := Ptr(s, i, k);
    var r := s.(refs := s.refs[p := s.refs[p] - 1]);
    assert AllPtrs(r) == AllPtrs(s) by {
      forall a | 0 <= a < |s.inodes| ensures AllPtrs(r)[a] == AllPtrs(s)[a] {
        assert forall c :: 0 <= c < MAXFILE ==> Ptr(r, a, c) == Ptr(s, a, c);
      }
    }
    assert ViewOf(r) == ViewOf(s).(refs := s.refs[p := s.refs[p] - 1]);
  }

  lemma CowView(s: Store, t: Store, w: Store, g: Geometry, i: nat, k: nat, b: nat, x: Block)
    requires CowWritten(s, t, w, g, i, k, b, x)
    ensures SoundStore(w, g)
    ensures ViewOf(w) == Cow(ViewOf(s), i, Ptr(s, i, k), b)
  {
    var p := Ptr(s, i, k);
    assert ViewOf(s).ptrs[i][k] == p;
    var r := s.(refs := s.refs[p := s.refs[p] - 1]);
    DropRefSound(s, g, i, k);
    AllocBlockView(r, g, b);
    var u := AllocBlock(r, b);
    assert Shape(ViewOf(u), g) by { hide Ptr; }
    RedirectView(u, t, g, i, p, b);
    CowSound(ViewOf(s), g, i, k, b);
    hide Redirected, Ptr;
    assert ViewOf(t) == Cow(ViewOf(s), i, p, b);
    CowTables(s, t, g, b);
    ViewSetBlock(t, b, x);
  }

  lemma CowTables(s: Store, t: Store, g: Geometry, b: nat)
    requires SoundStore(s, g) && WellFormed(t) && Fresh(s, g, b) && AllTbls(t) == AllTbls(s)
    ensures forall j :: 0 <= j < |t.inodes| && t.inodes[j].addrs[NDIRECT] != 0 ==> t.inodes[j].addrs[NDIRECT] != b
  {
    forall j | 0 <= j < |t.inodes| && t.inodes[j].addrs[NDIRECT] != 0 ensures t.inodes[j].addrs[NDIRECT] != b {
      assert ViewOf(s).tbls[j] == AllTbls(t)[j] == t.inodes[j].addrs[NDIRECT];
    }
  }

  // ---- writing one block ----

  /** Writing logical block k of inode i damages nothing else: the block is absent, unshared, or the
      file points at it only here. */
  ghost predicate SafeAt(s: Store, i: nat, k: nat)
    requires WellFormed(s) && i < |s.inodes| && k < MAXFILE && Ptr(s, i, k) < |s.refs|
  {
    Ptr(s, i, k) == 0 || s.refs[Ptr(s, i, k)] == 0 || PointsOnce(ViewOf(s), i, k)
  }

  /** Block x has a reference byte that no longer matches its pointers, and file i cannot mend it
      since it does not point there. */
  ghost predicate Leaked(s: Store, g: Geometry, i: nat, x: nat) {
    && SoundStore(s, g) && i < |s.inodes| && g.first <= x < g.limit
    && s.used[x] && !IsTable(ViewOf(s).tbls, x)
    && |PtrSet(AllPtrs(s), x)| != s.refs[x] + 1
    && forall k :: 0 <= k < MAXFILE ==> Ptr(s, i, k) != x
  }

  lemma LeakedInconsistent(s: Store, g: Geometry, i: nat, x: nat)
    requires Leaked(s, g, i, x)
    ensures !Consistent(s, g)
  {
    assert !BlockOk(ViewOf(s), x);
  }

  lemma PtrSetSame(p: seq<seq<nat>>, q: seq<seq<nat>>, x: nat)
    requires |p| == |q| && forall i :: 0 <= i < |p| ==> |p[i]| == |q[i]|
    requires forall i, k :: 0 <= i < |p| && 0 <= k < |p[i]| ==> (p[i][k] == x <==> q[i][k] == x)
    ensures PtrSet(p, x) == PtrSet(q, x)
  {
    forall i: nat, k: nat ensures (i, k) in PtrSet(p, x) <==> (i, k) in PtrSet(q, x) {
      if i < |p| && k < |p[i]| {
        PtrSetMember(p, x, i, k);
        PtrSetMember(q, x, i, k);
      }
    }
    forall e: (nat, nat) ensures e in PtrSet(p, x) <==> e in PtrSet(q, x) {
      assert e == (e.0, e.1);
    }
  }

  /** The effect of writing chunk x over logical block k of inode i, when it is safe. */
  ghost predicate BlockWritten(s: Store, w: Store, g: Geometry, i: nat, k: nat, x: Block) {
    && Consistent(s, g) && Consistent(w, g) && |w.inodes| == |s.inodes| && i < |s.inodes| && k < MAXFILE
    && InRange(s) && InRange(w)
    && BlockAt(w, i, k) == x
    && (forall j, m :: 0 <= j < |s.inodes| && 0 <= m < MAXFILE && (j, m) != (i, k) ==> BlockAt(w, j, m) == BlockAt(s, j, m))
    && (forall j, m :: 0 <= j < |s.inodes| && 0 <= m < MAXFILE && (j, m) != (i, k) ==> Ptr(w, j, m) == Ptr(s, j, m))
  }

  lemma OverwriteUnshared(s: Store, g: Geometry, i: nat, k: nat, x: Block)
    requires SoundStore(s, g) && i < |s.inodes| && k < MAXFILE && Ptr(s, i, k) != 0
    ensures Ptr(s, i, k) < |s.disk| && Ptr(s, i, k) < |s.refs|
    ensures SoundStore(s.(disk := s.disk[Ptr(s, i, k) := x]), g)
    ensures ViewOf(s.(disk := s.disk[Ptr(s, i, k) := x])) == ViewOf(s)
    ensures Consistent(s, g) && s.refs[Ptr(s, i, k)] == 0 ==>
              BlockWritten(s, s.(disk := s.disk[Ptr(s, i, k) := x]), g, i, k, x)
  {
    var p := Ptr(s, i, k);
    assert AllPtrs(s)[i][k] == p;
    var w := s.(disk := s.disk[p := x]);
    forall j | 0 <= j < |s.inodes| && s.inodes[j].addrs[NDIRECT] != 0 ensures s.inodes[j].addrs[NDIRECT] != p {
      assert ViewOf(s).tbls[j] == s.inodes[j].addrs[NDIRECT];
    }
    ViewSetBlock(s, p, x);
    SoundInRange(s, g);
    SoundInRange(w, g);
    if Consistent(s, g) && s.refs[p] == 0 {
      forall j, m | 0 <= j < |s.inodes| && 0 <= m < MAXFILE && (j, m) != (i, k)
        ensures Ptr(w, j, m) == Ptr(s, j, m) && BlockAt(w, j, m) == BlockAt(s, j, m)
      {
        assert AllPtrs(s)[j][m] == Ptr(s, j, m) && AllPtrs(w)[j][m] == Ptr(w, j, m);
        if Ptr(s, j, m) == p {
          SoleOwner(ViewOf(s), g, i, k, j, m);
        }
      }
      assert AllPtrs(w)[i][k] == Ptr(w, i, k);
    }
  }

  lemma CowWrites(s: Store, t: Store, w: Store, g: Geometry, i: nat, k: nat, b: nat, x: Block)
    requires CowWritten(s, t, w, g, i, k, b, x) && Consistent(s, g) && PointsOnce(ViewOf(s), i, k)
    ensures BlockWritten(s, w, g, i, k, x)
  {
    var v := ViewOf(s);
    CowView(s, t, w, g, i, k, b, x);
    CowKeepsCounts(v, g, i, k, b);
    SoundInRange(s, g);
    SoundInRange(w, g);
    forall j, m | 0 <= j < |s.inodes| && 0 <= m < MAXFILE
      ensures Ptr(w, j, m) == if (j, m) == (i, k) then b else Ptr(s, j, m)
      ensures (j, m) != (i, k) ==> BlockAt(w, j, m) == BlockAt(s, j, m)
    {
      assert v.ptrs[j][m] == Ptr(s, j, m) && ViewOf(w).ptrs[j][m] == Ptr(w, j, m);
      assert v.ptrs[i][k] == Ptr(s, i, k);
      if (j, m) != (i, k) && Ptr(s, j, m) != 0 {
        assert v.used[v.ptrs[j][m]] by { Pointed(v, g, j, m); }
        assert v.tbls[i] == s.inodes[i].addrs[NDIRECT];
      }
    }
  }

  lemma CowLeaks(s: Store, t: Store, w: Store, g: Geometry, i: nat, k: nat, b: nat, x: Block)
    requires CowWritten(s, t, w, g, i, k, b, x) && Consistent(s, g) && !PointsOnce(ViewOf(s), i, k)
    ensures Leaked(w, g, i, Ptr(s, i, k))
  {
    var v, p := ViewOf(s), Ptr(s, i, k);
    CowView(s, t, w, g, i, k, b, x);
    assert v.ptrs[i][k] == p;
    Pointed(v, g, i, k);
    hide PtrSet, Redirected;
    CowDropsTwo(v, i, k, b);
    forall c | 0 <= c < MAXFILE ensures Ptr(w, i, c) != p {
      assert AllPtrs(w)[i][c] == Ptr(w, i, c);
    }
  }

  /** No step of writing file i repairs a leaked block. */
  lemma LeakPersists(s: Store, w: Store, g: Geometry, i: nat, x: nat)
    requires Leaked(s, g, i, x) && SoundStore(w, g) && |w.inodes| == |s.inodes|
    requires w.used[x] && w.refs[x] == s.refs[x]
    requires !IsTable(ViewOf(w).tbls, x)
    requires forall j, m :: 0 <= j < |s.inodes| && 0 <= m < MAXFILE ==> (Ptr(w, j, m) == x <==> Ptr(s, j, m) == x)
    ensures Leaked(w, g, i, x)
  {
    assert forall j, m :: 0 <= j < |s.inodes| && 0 <= m < MAXFILE ==>
        AllPtrs(s)[j][m] == Ptr(s, j, m) && AllPtrs(w)[j][m] == Ptr(w, j, m);
    PtrSetSame(AllPtrs(s), AllPtrs(w), x);
  }

  // ---- what a step does to every block of every file ----

  /** Positions a and b of file i are behind one block. */
  ghost predicate Alias(s: Store, i: nat, a: nat, b: nat)
    requires WellFormed(s) && i < |s.inodes| && a < MAXFILE && b < MAXFILE
  {
    a == b || (Ptr(s, i, a) != 0 && Ptr(s, i, a) == Ptr(s, i, b))
  }

  /** The blocks file i would overwrite in place belong to no other file. The counts may be off. */
  ghost predicate Private(s: Store, g: Geometry, i: nat) {
    && SoundStore(s, g) && i < |s.inodes|
    && forall k, j, m :: 0 <= k < MAXFILE && InPlace(s, i, k) && 0 <= j < |s.inodes| && j != i && 0 <= m < MAXFILE ==>
         Ptr(s, j, m) != Ptr(s, i, k)
  }

  ghost predicate InPlace(s: Store, i: nat, k: nat)
    requires WellFormed(s) && i < |s.inodes| && k < MAXFILE
  {
    Ptr(s, i, k) != 0 && Ptr(s, i, k) < |s.refs| && s.refs[Ptr(s, i, k)] == 0
  }

  lemma ConsistentIsPrivate(s: Store, g: Geometry, i: nat)
    requires Consistent(s, g) && i < |s.inodes|
    ensures Private(s, g, i)
  {
    ConsistentIsSound(s, g);
    forall k, j, m | 0 <= k < MAXFILE && InPlace(s, i, k) && 0 <= j < |s.inodes| && j != i && 0 <= m < MAXFILE
      ensures Ptr(s, j, m) != Ptr(s, i, k)
    {
      assert ViewOf(s).ptrs[i][k] == Ptr(s, i, k) && ViewOf(s).ptrs[j][m] == Ptr(s, j, m);
      if Ptr(s, j, m) == Ptr(s, i, k) {
        SoleOwner(ViewOf(s), g, i, k, j, m);
      }
    }
  }

  /** Which positions of file i share a block is the same in both stores. */
  ghost predicate SameAliases(s: Store, t: Store, i: nat)
    requires WellFormed(s) && WellFormed(t) && i < |s.inodes| && i < |t.inodes|
  {
    forall a, b :: 0 <= a < MAXFILE && 0 <= b < MAXFILE ==> (Alias(t, i, a, b) <==> Alias(s, i, a, b))
  }

  /** Block k of file i became x, and so did every position of the file behind the same block; no other
      position of any file changed. */
  ghost predicate WroteThrough(s: Store, w: Store, i: nat, k: nat, x: Block) {
    && WellFormed(s) && WellFormed(w) && InRange(s) && InRange(w) && |w.inodes| == |s.inodes|
    && i < |s.inodes| && k < MAXFILE && SameAliases(s, w, i)
    && (forall m :: 0 <= m < MAXFILE ==> BlockAt(w, i, m) == if Alias(s, i, k, m) then x else BlockAt(s, i, m))
    && (forall j, m :: 0 <= j < |s.inodes| && j != i && 0 <= m < MAXFILE ==> BlockAt(w, j, m) == BlockAt(s, j, m))
  }

  /** A fresh block is nobody's. */
  lemma FreshUnpointed(s: Store, g: Geometry, b: nat)
    requires SoundStore(s, g) && Fresh(s, g, b)
    ensures b != 0 && forall j, m :: 0 <= j < |s.inodes| && 0 <= m < MAXFILE ==> Ptr(s, j, m) != b
    ensures forall j :: 0 <= j < |s.inodes| && s.inodes[j].addrs[NDIRECT] != 0 ==> s.inodes[j].addrs[NDIRECT] != b
  {
    forall j, m | 0 <= j < |s.inodes| && 0 <= m < MAXFILE ensures Ptr(s, j, m) != b {
      assert ViewOf(s).ptrs[j][m] == Ptr(s, j, m);
    }
    forall j | 0 <= j < |s.inodes| && s.inodes[j].addrs[NDIRECT] != 0 ensures s.inodes[j].addrs[NDIRECT] != b {
      assert ViewOf(s).tbls[j] == s.inodes[j].addrs[NDIRECT];
    }
  }

  lemma MapKeepsPrivate(s: Store, t: Store, g: Geometry, i: nat, k: nat, addr: nat)
    requires MappedTo(s, t, g, i, k, addr)
    ensures SameAliases(s, t, i) && (Private(s, g, i) ==> Private(t, g, i))
  {
    if Ptr(s, i, k) == 0 {
      FreshUnpointed(s, g, addr);
    }
  }

  lemma OverwriteThrough(s: Store, w: Store, g: Geometry, i: nat, k: nat, x: Block)
    requires Private(s, g, i) && k < MAXFILE && Ptr(s, i, k) != 0 && Ptr(s, i, k) < |s.refs| && Ptr(s, i, k) < |s.disk|
    requires s.refs[Ptr(s, i, k)] == 0 && w == s.(disk := s.disk[Ptr(s, i, k) := x])
    ensures WroteThrough(s, w, i, k, x) && Private(w, g, i)
  {
    OverwriteUnshared(s, g, i, k, x);
    RefsInRange(s, g);
    RefsInRange(w, g);
    assert forall j, m :: 0 <= j < |s.inodes| && 0 <= m < MAXFILE ==> ViewOf(w).ptrs[j][m] == Ptr(w, j, m) && ViewOf(s).ptrs[j][m] == Ptr(s, j, m);
  }

  lemma CowPointers(s: Store, t: Store, w: Store, g: Geometry, i: nat, k: nat, b: nat, x: Block)
    requires CowWritten(s, t, w, g, i, k, b, x)
    ensures SoundStore(w, g) && |w.inodes| == |s.inodes|
    ensures forall j, m :: 0 <= j < |s.inodes| && 0 <= m < MAXFILE ==>
              Ptr(w, j, m) == if j == i && Ptr(s, j, m) == Ptr(s, i, k) then b else Ptr(s, j, m)
  {
    CowView(s, t, w, g, i, k, b, x);
    hide Redirected;
    var v := ViewOf(s);
    assert v.ptrs[i][k] == Ptr(s, i, k);
    forall j, m | 0 <= j < |s.inodes| && 0 <= m < MAXFILE
      ensures Ptr(w, j, m) == if j == i && Ptr(s, j, m) == Ptr(s, i, k) then b else Ptr(s, j, m)
    {
      assert v.ptrs[j][m] == Ptr(s, j, m) && ViewOf(w).ptrs[j][m] == Ptr(w, j, m);
    }
  }

  /** The exact effect of copy on write on every position of every file, whatever the counts. */
  lemma CowThrough(s: Store, t: Store, w: Store, g: Geometry, i: nat, k: nat, b: nat, x: Block)
    requires CowWritten(s, t, w, g, i, k, b, x)
    ensures WroteThrough(s, w, i, k, x) && (Private(s, g, i) ==> Private(w, g, i))
  {
    CowPointers(s, t, w, g, i, k, b, x);
    FreshUnpointed(s, g, b);
    RefsInRange(s, g);
    RefsInRange(w, g);
    CowDisk(s, t, w, g, i, k, b, x);
    hide Redirected;
  }

  /** Copy on write touches no data block but the new one. */
  lemma CowDisk(s: Store, t: Store, w: Store, g: Geometry, i: nat, k: nat, b: nat, x: Block)
    requires CowWritten(s, t, w, g, i, k, b, x)
    ensures |w.disk| == |s.disk| && b < |w.disk| && w.disk[b] == x && |w.refs| == |s.refs|
    ensures forall c :: 0 <= c < |s.refs| && c != Ptr(s, i, k) ==> w.refs[c] == s.refs[c]
    ensures forall j, m :: 0 <= j < |s.inodes| && 0 <= m < MAXFILE && Ptr(s, j, m) != 0 && Ptr(s, j, m) < |s.disk| && Ptr(s, j, m) != b ==>
              w.disk[Ptr(s, j, m)] == s.disk[Ptr(s, j, m)]
  {
    forall j, m | 0 <= j < |s.inodes| && 0 <= m < MAXFILE && Ptr(s, j, m) != 0 && Ptr(s, j, m) < |s.disk| && Ptr(s, j, m) != b
      ensures w.disk[Ptr(s, j, m)] == s.disk[Ptr(s, j, m)]
    {
      assert ViewOf(s).ptrs[j][m] == Ptr(s, j, m) && ViewOf(s).tbls[i] == s.inodes[i].addrs[NDIRECT];
    }
  }

  /** Copy on write leaves the rest of the file alone if and only if the file points at the block once,
      or the bytes written are those already there. */
  lemma CowElsewhere(s: Store, t: Store, w: Store, g: Geometry, i: nat, k: nat, b: nat, x: Block)
    requires CowWritten(s, t, w, g, i, k, b, x)
    ensures WellFormed(w) && InRange(w) && InRange(s) && i < |w.inodes|
    ensures (forall m :: 0 <= m < MAXFILE && m != k ==> BlockAt(w, i, m) == BlockAt(s, i, m)) <==>
            PointsOnce(ViewOf(s), i, k) || x == BlockAt(s, i, k)
  {
    CowThrough(s, t, w, g, i, k, b, x);
    hide Redirected;
    var v := ViewOf(s);
    assert forall m :: 0 <= m < MAXFILE ==> v.ptrs[i][m] == Ptr(s, i, m);
    if !PointsOnce(v, i, k) {
      var m :| 0 <= m < MAXFILE && m != k && v.ptrs[i][m] == v.ptrs[i][k];
      assert BlockAt(w, i, m) == x && BlockAt(s, i, m) == BlockAt(s, i, k);
    }
  }

  /** Mapping, then a change of the block mapped. */
  lemma ThroughAfterMap(s: Store, t: Store, w: Store, g: Geometry, i: nat, k: nat, x: Block)
    requires WroteThrough(t, w, i, k, x) && MappedTo(s, t, g, i, k, Ptr(t, i, k))
    ensures WroteThrough(s, w, i, k, x) && t.disk[Ptr(t, i, k)] == BlockAt(s, i, k)
  {
    MapKeepsPrivate(s, t, g, i, k, Ptr(t, i, k));
    assert BlockAt(t, i, k) == BlockAt(s, i, k);
  }

  // ---- one iteration of writei ----

  /** The bytes of every file after one iteration of writei. */
  ghost predicate WroteBytes(s: Store, w: Store, g: Geometry, i: nat, k: nat, off: nat, src: seq<Byte>)
    requires SoundStore(s, g) && InRange(s) && i < |s.inodes| && k < MAXFILE && off + |src| <= BSIZE
  {
    Private(s, g, i) ==> Private(w, g, i) && WroteThrough(s, w, i, k, Overwrite(BlockAt(s, i, k), off, src))
  }

  /** The counts after one iteration: exact when the block was safe to write, a leak that stays otherwise. */
  ghost predicate WroteCounts(s: Store, w: Store, g: Geometry, i: nat, k: nat)
    requires WellFormed(s) && WellFormed(w) && i < |s.inodes| == |w.inodes| && k < MAXFILE
    requires forall m :: 0 <= m < MAXFILE ==> Ptr(s, i, m) < |s.refs| && Ptr(w, i, m) < |w.refs|
  {
    && (Consistent(s, g) && SafeAt(s, i, k) ==>
          Consistent(w, g) && forall m :: 0 <= m < MAXFILE && m != k ==> (SafeAt(w, i, m) <==> SafeAt(s, i, m)))
    && (Consistent(s, g) && !SafeAt(s, i, k) ==> Leaked(w, g, i, Ptr(s, i, k)))
    && (forall x :: Leaked(s, g, i, x) ==> Leaked(w, g, i, x))
  }

  /** Positions a and b of file i are behind one block without references. */
  ghost predicate Doubled(s: Store, i: nat, a: nat, b: nat)
    requires WellFormed(s)
  {
    i < |s.inodes| && a < b < MAXFILE && InPlace(s, i, a) && Ptr(s, i, a) == Ptr(s, i, b)
  }

  ghost predicate HasDouble(s: Store, i: nat)
    requires WellFormed(s)
  {
    exists a: nat, b: nat :: Doubled(s, i, a, b)
  }

  /** An unsafe write leaves the file with such a block, and none of its writes takes one away. */
  ghost predicate WroteDoubles(s: Store, w: Store, g: Geometry, i: nat, k: nat)
    requires WellFormed(s) && WellFormed(w) && i < |s.inodes| && k < MAXFILE
    requires forall m :: 0 <= m < MAXFILE ==> Ptr(s, i, m) < |s.refs|
  {
    && (Consistent(s, g) && !SafeAt(s, i, k) ==> HasDouble(w, i))
    && (HasDouble(s, i) ==> HasDouble(w, i))
  }

  /** What one iteration of writei does to logical block k: the block, and every position of the file
      behind it, gets the bytes; the counts stay exact when it is safe, and a leak that stays appears
      when it is not. */
  ghost predicate WroteBlock(s: Store, w: Store, g: Geometry, i: nat, k: nat, off: nat, src: seq<Byte>) {
    && SoundStore(s, g) && SoundStore(w, g) && SameInodes(s, w)
    && i < |s.inodes| && k < MAXFILE && off + |src| <= BSIZE && InRange(s) && InRange(w)
    && (forall m :: 0 <= m < MAXFILE ==> Ptr(s, i, m) < |s.refs| && Ptr(w, i, m) < |w.refs|)
    && WroteBytes(s, w, g, i, k, off, src) && WroteCounts(s, w, g, i, k) && WroteDoubles(s, w, g, i, k)
  }

  lemma RefsInRange(s: Store, g: Geometry)
    requires SoundStore(s, g)
    ensures InRange(s) && |s.refs| == NREFS
    ensures forall j, m :: 0 <= j < |s.inodes| && 0 <= m < MAXFILE ==> Ptr(s, j, m) < NREFS
  {
    SoundInRange(s, g);
    assert forall j, m :: 0 <= j < |s.inodes| && 0 <= m < MAXFILE ==> ViewOf(s).ptrs[j][m] == Ptr(s, j, m);
  }

  /** Safety of the other blocks of the file is not affected by a safe write. */
  lemma SafeElsewhere(s: Store, w: Store, g: Geometry, i: nat, k: nat, m: nat)
    requires Consistent(s, g) && SoundStore(w, g) && |w.inodes| == |s.inodes|
    requires i < |s.inodes| && k < MAXFILE && m < MAXFILE && m != k
    requires forall c :: 0 <= c < MAXFILE && c != k ==> Ptr(w, i, c) == Ptr(s, i, c)
    requires Ptr(w, i, k) == Ptr(s, i, k) || Fresh(s, g, Ptr(w, i, k))
    requires Ptr(s, i, m) < |s.refs| && Ptr(s, i, k) < |s.refs| && Ptr(w, i, m) < |w.refs|
    requires SafeAt(s, i, k)
    requires Ptr(s, i, m) != Ptr(s, i, k) ==> w.refs[Ptr(s, i, m)] == s.refs[Ptr(s, i, m)]
    ensures SafeAt(w, i, m) <==> SafeAt(s, i, m)
  {
    var q := Ptr(s, i, m);
    assert forall c :: 0 <= c < MAXFILE ==> ViewOf(s).ptrs[i][c] == Ptr(s, i, c) && ViewOf(w).ptrs[i][c] == Ptr(w, i, c);
    if q != 0 {
      Pointed(ViewOf(s), g, i, m);
      if Ptr(s, i, k) == q {
        if s.refs[q] == 0 {
          SoleOwner(ViewOf(s), g, i, k, i, m);
        }
      }
      assert forall c :: 0 <= c < MAXFILE ==> (Ptr(w, i, c) == q <==> Ptr(s, i, c) == q);
    }
  }

  lemma LeaksAfterMap(s: Store, t: Store, g: Geometry, i: nat, k: nat, addr: nat, x: nat)
    requires MappedTo(s, t, g, i, k, addr) && Leaked(s, g, i, x)
    ensures Leaked(t, g, i, x)
  {
    assert !IsTable(ViewOf(t).tbls, x) by {
      forall j | 0 <= j < |t.inodes| ensures ViewOf(t).tbls[j] != x {
        assert ViewOf(s).tbls[j] != x;
        assert ViewOf(t).tbls[j] == t.inodes[j].addrs[NDIRECT] && ViewOf(s).tbls[j] == s.inodes[j].addrs[NDIRECT];
      }
    }
    LeakPersists(s, t, g, i, x);
  }

  lemma LeaksAfterCow(s: Store, t: Store, w: Store, g: Geometry, i: nat, k: nat, b: nat, y: Block, x: nat)
    requires CowWritten(s, t, w, g, i, k, b, y) && Leaked(s, g, i, x)
    ensures Leaked(w, g, i, x)
  {
    CowView(s, t, w, g, i, k, b, y);
    forall j, m | 0 <= j < |s.inodes| && 0 <= m < MAXFILE ensures Ptr(w, j, m) == x <==> Ptr(s, j, m) == x {
      assert ViewOf(s).ptrs[j][m] == Ptr(s, j, m) && ViewOf(w).ptrs[j][m] == Ptr(w, j, m);
    }
    LeakPersists(s, w, g, i, x);
  }

  lemma DoublesAfterOverwrite(s: Store, t: Store, w: Store, g: Geometry, i: nat, k: nat)
    requires SoundStore(t, g) && SoundStore(w, g) && i < |t.inodes| && k < MAXFILE && MappedTo(s, t, g, i, k, Ptr(t, i, k))
    requires |w.inodes| == |t.inodes| && ViewOf(w) == ViewOf(t)
    ensures WellFormed(s) && (HasDouble(s, i) ==> HasDouble(w, i))
  {
    if HasDouble(s, i) {
      var a: nat, b: nat :| Doubled(s, i, a, b);
      assert Doubled(t, i, a, b);
      assert forall m :: 0 <= m < MAXFILE ==> ViewOf(w).ptrs[i][m] == Ptr(w, i, m) && ViewOf(t).ptrs[i][m] == Ptr(t, i, m);
      assert Doubled(w, i, a, b);
    }
  }

  lemma DoublesAfterCow(s: Store, u: Store, w: Store, g: Geometry, i: nat, k: nat, b: nat, y: Block)
    requires CowWritten(s, u, w, g, i, k, b, y)
    ensures WellFormed(s) && WellFormed(w) && (HasDouble(s, i) ==> HasDouble(w, i))
  {
    CowPointers(s, u, w, g, i, k, b, y);
    CowDisk(s, u, w, g, i, k, b, y);
    if HasDouble(s, i) {
      var p: nat, q: nat :| Doubled(s, i, p, q);
      hide Redirected;
      assert Doubled(w, i, p, q);
    }
  }

  /** Copy on write of a block the file points at twice makes one. */
  lemma CowDoubles(s: Store, u: Store, w: Store, g: Geometry, i: nat, k: nat, b: nat, y: Block)
    requires Consistent(s, g) && CowWritten(s, u, w, g, i, k, b, y) && !PointsOnce(ViewOf(s), i, k)
    ensures WellFormed(w) && HasDouble(w, i)
  {
    CowPointers(s, u, w, g, i, k, b, y);
    CowDisk(s, u, w, g, i, k, b, y);
    FreeHasNoRefs(s, g, b);
    RefsInRange(w, g);
    FreshUnpointed(s, g, b);
    var v := ViewOf(s);
    var m :| 0 <= m < |v.ptrs[i]| && m != k && v.ptrs[i][m] == v.ptrs[i][k];
    assert v.ptrs[i][m] == Ptr(s, i, m) && v.ptrs[i][k] == Ptr(s, i, k);
    assert if m < k then Doubled(w, i, m, k) else Doubled(w, i, k, m);
  }

  lemma MapThenOverwrite(s: Store, t: Store, w: Store, g: Geometry, i: nat, k: nat, off: nat, src: seq<Byte>)
    requires off + |src| <= BSIZE && i < |s.inodes| && k < MAXFILE && SoundStore(t, g) && i < |t.inodes|
    requires MappedTo(s, t, g, i, k, Ptr(t, i, k)) && Ptr(t, i, k) < |t.refs| && Ptr(t, i, k) < |t.disk|
    requires t.refs[Ptr(t, i, k)] == 0
    requires w == t.(disk := t.disk[Ptr(t, i, k) := Overwrite(t.disk[Ptr(t, i, k)], off, src)])
    ensures WroteBlock(s, w, g, i, k, off, src)
  {
    MappedBasics(s, t, g, i, k, Ptr(t, i, k));
    OverwriteUnshared(t, g, i, k, Overwrite(t.disk[Ptr(t, i, k)], off, src));
    RefsInRange(s, g);
    RefsInRange(w, g);
    if Consistent(s, g) {
      MapThenOverwriteExact(s, t, w, g, i, k, Overwrite(t.disk[Ptr(t, i, k)], off, src));
    }
    LeaksAfterOverwrite(s, t, w, g, i, k);
    DoublesAfterOverwrite(s, t, w, g, i, k);
    BytesAfterOverwrite(s, t, w, g, i, k, off, src);
    assert WroteCounts(s, w, g, i, k) && WroteDoubles(s, w, g, i, k) by { hide Leaked, SafeAt, MappedTo, Sound, Overwrite, HasDouble; }
    hide WroteCounts, WroteBytes, WroteDoubles, MappedTo;
  }

  lemma BytesAfterOverwrite(s: Store, t: Store, w: Store, g: Geometry, i: nat, k: nat, off: nat, src: seq<Byte>)
    requires off + |src| <= BSIZE && i < |s.inodes| && k < MAXFILE && SoundStore(t, g) && i < |t.inodes|
    requires MappedTo(s, t, g, i, k, Ptr(t, i, k)) && Ptr(t, i, k) < |t.refs| && Ptr(t, i, k) < |t.disk|
    requires t.refs[Ptr(t, i, k)] == 0
    requires w == t.(disk := t.disk[Ptr(t, i, k) := Overwrite(t.disk[Ptr(t, i, k)], off, src)])
    ensures SoundStore(s, g) && InRange(s) && WroteBytes(s, w, g, i, k, off, src)
  {
    MappedBasics(s, t, g, i, k, Ptr(t, i, k));
    RefsInRange(s, g);
    if Private(s, g, i) {
      MapKeepsPrivate(s, t, g, i, k, Ptr(t, i, k));
      hide Sound, Private;
      OverwriteThrough(t, w, g, i, k, Overwrite(t.disk[Ptr(t, i, k)], off, src));
      ThroughAfterMap(s, t, w, g, i, k, Overwrite(t.disk[Ptr(t, i, k)], off, src));
    }
  }

  lemma BytesAfterCow(s: Store, t: Store, u: Store, w: Store, g: Geometry, i: nat, k: nat, b: nat, off: nat, src: seq<Byte>)
    requires off + |src| <= BSIZE && i < |s.inodes| && k < MAXFILE && SoundStore(t, g) && i < |t.inodes|
    requires MappedTo(s, t, g, i, k, Ptr(t, i, k)) && Ptr(t, i, k) < |t.disk|
    requires CowWritten(t, u, w, g, i, k, b, Overwrite(t.disk[Ptr(t, i, k)], off, src))
    ensures SoundStore(s, g) && InRange(s) && WroteBytes(s, w, g, i, k, off, src)
  {
    MappedBasics(s, t, g, i, k, Ptr(t, i, k));
    RefsInRange(s, g);
    MapKeepsPrivate(s, t, g, i, k, Ptr(t, i, k));
    hide Sound, Private, Redirected;
    CowThrough(t, u, w, g, i, k, b, Overwrite(t.disk[Ptr(t, i, k)], off, src));
    ThroughAfterMap(s, t, w, g, i, k, Overwrite(t.disk[Ptr(t, i, k)], off, src));
  }

  lemma MapThenOverwriteExact(s: Store, t: Store, w: Store, g: Geometry, i: nat, k: nat, y: Block)
    requires i < |s.inodes| && k < MAXFILE && SoundStore(t, g) && i < |t.inodes| && Consistent(s, g) && SoundStore(w, g)
    requires MappedTo(s, t, g, i, k, Ptr(t, i, k)) && Ptr(t, i, k) < |t.refs| && Ptr(t, i, k) < |t.disk|
    requires t.refs[Ptr(t, i, k)] == 0 && w == t.(disk := t.disk[Ptr(t, i, k) := y])
    requires BlockWritten(t, w, g, i, k, y) && ViewOf(w) == ViewOf(t)
    requires forall m :: 0 <= m < MAXFILE ==> Ptr(s, i, m) < |s.refs| && Ptr(w, i, m) < |w.refs|
    ensures SafeAt(s, i, k) && BlockWritten(s, w, g, i, k, y) && BlockAt(t, i, k) == BlockAt(s, i, k)
    ensures forall m :: 0 <= m < MAXFILE && m != k ==> (SafeAt(w, i, m) <==> SafeAt(s, i, m))
  {
    assert forall m :: 0 <= m < MAXFILE ==> ViewOf(w).ptrs[i][m] == Ptr(w, i, m) && ViewOf(t).ptrs[i][m] == Ptr(t, i, m);
    forall m | 0 <= m < MAXFILE && m != k ensures SafeAt(w, i, m) <==> SafeAt(s, i, m) {
      SafeElsewhere(s, w, g, i, k, m);
    }
  }

  lemma LeaksAfterOverwrite(s: Store, t: Store, w: Store, g: Geometry, i: nat, k: nat)
    requires SoundStore(t, g) && SoundStore(w, g) && i < |t.inodes| && k < MAXFILE && MappedTo(s, t, g, i, k, Ptr(t, i, k))
    requires |w.inodes| == |t.inodes| && ViewOf(w) == ViewOf(t)
    ensures forall x :: Leaked(s, g, i, x) ==> Leaked(w, g, i, x)
  {
    forall x | Leaked(s, g, i, x) ensures Leaked(w, g, i, x) {
      LeaksAfterMap(s, t, g, i, k, Ptr(t, i, k), x);
      hide MappedTo;
      assert forall j, m :: 0 <= j < |t.inodes| && 0 <= m < MAXFILE ==> ViewOf(w).ptrs[j][m] == Ptr(w, j, m) && ViewOf(t).ptrs[j][m] == Ptr(t, j, m);
      LeakPersists(t, w, g, i, x);
    }
  }

  lemma FreeHasNoRefs(s: Store, g: Geometry, b: nat)
    requires Consistent(s, g) && Fresh(s, g, b)
    ensures s.refs[b] == 0
  {
    assert BlockOk(ViewOf(s), b);
  }

  /** Copy on write of a block that has a reference: exact, or a leak. */
  lemma CowOutcome(s: Store, u: Store, w: Store, g: Geometry, i: nat, k: nat, b: nat, y: Block)
    requires Consistent(s, g) && CowWritten(s, u, w, g, i, k, b, y) && SoundStore(w, g) && |w.inodes| == |s.inodes|
    requires forall m :: 0 <= m < MAXFILE ==> Ptr(s, i, m) < |s.refs| && Ptr(w, i, m) < |w.refs|
    ensures PointsOnce(ViewOf(s), i, k) ==>
              BlockWritten(s, w, g, i, k, y) && forall m :: 0 <= m < MAXFILE && m != k ==> (SafeAt(w, i, m) <==> SafeAt(s, i, m))
    ensures !PointsOnce(ViewOf(s), i, k) ==> Leaked(w, g, i, Ptr(s, i, k))
  {
    hide Redirected;
    if PointsOnce(ViewOf(s), i, k) {
      CowView(s, u, w, g, i, k, b, y);
      CowWrites(s, u, w, g, i, k, b, y);
      assert ViewOf(s).ptrs[i][k] == Ptr(s, i, k);
      assert ViewOf(w).ptrs[i][k] == Ptr(w, i, k) == b;
      forall m | 0 <= m < MAXFILE && m != k ensures SafeAt(w, i, m) <==> SafeAt(s, i, m) {
        SafeElsewhere(s, w, g, i, k, m);
      }
    } else {
      CowLeaks(s, u, w, g, i, k, b, y);
    }
  }

  lemma CowSameInodes(s: Store, u: Store, w: Store, g: Geometry, i: nat, k: nat, b: nat, y: Block)
    requires CowWritten(s, u, w, g, i, k, b, y)
    ensures SameInodes(s, w)
  {
  }

  lemma MappedBasics(s: Store, t: Store, g: Geometry, i: nat, k: nat, addr: nat)
    requires MappedTo(s, t, g, i, k, addr)
    ensures SoundStore(s, g) && SameInodes(s, t) && t.refs == s.refs && (Ptr(s, i, k) != 0 ==> t == s)
    ensures Ptr(s, i, k) == 0 ==> Fresh(s, g, addr)
  {
  }

  lemma MapThenCowExact(s: Store, t: Store, u: Store, w: Store, g: Geometry, i: nat, k: nat, b: nat, y: Block)
    requires i < |s.inodes| && k < MAXFILE && SoundStore(t, g) && i < |t.inodes| && Consistent(s, g)
    requires MappedTo(s, t, g, i, k, Ptr(t, i, k)) && Ptr(t, i, k) < |t.disk| && CowWritten(t, u, w, g, i, k, b, y)
    requires SoundStore(w, g) && |w.inodes| == |s.inodes| && Ptr(s, i, k) < |s.refs|
    requires forall m :: 0 <= m < MAXFILE ==> Ptr(s, i, m) < |s.refs| && Ptr(w, i, m) < |w.refs|
    ensures t == s
    ensures SafeAt(s, i, k) ==>
              BlockWritten(s, w, g, i, k, y) && forall m :: 0 <= m < MAXFILE && m != k ==> (SafeAt(w, i, m) <==> SafeAt(s, i, m))
    ensures !SafeAt(s, i, k) ==> Leaked(w, g, i, Ptr(s, i, k))
  {
    MappedBasics(s, t, g, i, k, Ptr(t, i, k));
    hide Redirected, BlockWritten, Leaked, MappedTo, Sound;
    if Ptr(s, i, k) == 0 { FreeHasNoRefs(s, g, Ptr(t, i, k)); }
    assert t == s;
    CowOutcome(s, u, w, g, i, k, b, y);
  }

  lemma MapThenCow(s: Store, t: Store, u: Store, w: Store, g: Geometry, i: nat, k: nat, b: nat, off: nat, src: seq<Byte>)
    requires off + |src| <= BSIZE && i < |s.inodes| && k < MAXFILE && SoundStore(t, g) && i < |t.inodes|
    requires MappedTo(s, t, g, i, k, Ptr(t, i, k)) && Ptr(t, i, k) < |t.disk|
    requires CowWritten(t, u, w, g, i, k, b, Overwrite(t.disk[Ptr(t, i, k)], off, src))
    ensures WroteBlock(s, w, g, i, k, off, src)
  {
    var y := Overwrite(t.disk[Ptr(t, i, k)], off, src);
    CowSameInodes(t, u, w, g, i, k, b, y);
    MappedBasics(s, t, g, i, k, Ptr(t, i, k));
    hide Redirected, BlockWritten, Leaked, MappedTo, Sound, Overwrite, SafeAt, Inv, WroteBytes;
    BytesAfterCow(s, t, u, w, g, i, k, b, off, src);
    CowView(t, u, w, g, i, k, b, y);
    RefsInRange(s, g);
    RefsInRange(w, g);
    CountsAfterCow(s, t, u, w, g, i, k, b, y);
    DoublesAfterWrite(s, t, u, w, g, i, k, b, y);
    hide WroteCounts, WroteDoubles;
  }

  lemma CountsAfterCow(s: Store, t: Store, u: Store, w: Store, g: Geometry, i: nat, k: nat, b: nat, y: Block)
    requires i < |s.inodes| == |w.inodes| && k < MAXFILE && SoundStore(t, g) && i < |t.inodes| && SoundStore(s, g)
    requires MappedTo(s, t, g, i, k, Ptr(t, i, k)) && Ptr(t, i, k) < |t.disk| && CowWritten(t, u, w, g, i, k, b, y)
    requires SoundStore(w, g) && forall m :: 0 <= m < MAXFILE ==> Ptr(s, i, m) < |s.refs| && Ptr(w, i, m) < |w.refs|
    ensures WroteCounts(s, w, g, i, k)
  {
    if Consistent(s, g) {
      MapThenCowExact(s, t, u, w, g, i, k, b, y);
    }
    LeaksAfterWrite(s, t, u, w, g, i, k, b, y);
    hide MappedTo, CowWritten, Leaked, SafeAt, Sound;
  }

  lemma DoublesAfterWrite(s: Store, t: Store, u: Store, w: Store, g: Geometry, i: nat, k: nat, b: nat, y: Block)
    requires i < |s.inodes| == |w.inodes| && k < MAXFILE && SoundStore(t, g) && i < |t.inodes| && SoundStore(s, g)
    requires MappedTo(s, t, g, i, k, Ptr(t, i, k)) && Ptr(t, i, k) < |t.disk| && CowWritten(t, u, w, g, i, k, b, y)
    requires SoundStore(w, g) && forall m :: 0 <= m < MAXFILE ==> Ptr(s, i, m) < |s.refs| && Ptr(w, i, m) < |w.refs|
    ensures WroteDoubles(s, w, g, i, k)
  {
    DoublesAfterOverwrite(s, t, t, g, i, k);
    DoublesAfterCow(t, u, w, g, i, k, b, y);
    hide MappedTo, HasDouble, Sound, Redirected, Inv;
    if Consistent(s, g) && !SafeAt(s, i, k) {
      MapThenCowExact(s, t, u, w, g, i, k, b, y);
      CowDoubles(s, u, w, g, i, k, b, y);
    }
  }

  lemma LeaksAfterWrite(s: Store, t: Store, u: Store, w: Store, g: Geometry, i: nat, k: nat, b: nat, y: Block)
    requires SoundStore(t, g) && i < |t.inodes| && k < MAXFILE && MappedTo(s, t, g, i, k, Ptr(t, i, k))
    requires CowWritten(t, u, w, g, i, k, b, y)
    ensures forall x :: Leaked(s, g, i, x) ==> Leaked(w, g, i, x)
  {
    forall x | Leaked(s, g, i, x) ensures Leaked(w, g, i, x) {
      LeaksAfterMap(s, t, g, i, k, Ptr(t, i, k), x);
      hide MappedTo;
      LeaksAfterCow(t, u, w, g, i, k, b, y, x);
    }
  }
}
