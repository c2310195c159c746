/**
 file.c: the de-duplication pass and its accounting.
 */
module Dedup {
  import opened Basics
  import opened Sharing
  import opened Blocks
  import opened FileStore
  import opened FileOps
  import opened FileSystem

  // ---- what a merge leaves alone ----

  ghost predicate Shaped(s: Store, g: Geometry) {
    Framed(s, g) && GeometryOk(g) && Shape(ViewOf(s), g)
  }

  /** Every file reads the same, block for block, and no block appeared or vanished. */
  ghost predicate SameBlocks(s: Store, t: Store, g: Geometry) {
    && Shaped(s, g) && Shaped(t, g) && SameInodes(s, t) && InRange(s) && InRange(t)
    && (forall j, k :: 0 <= j < |s.inodes| && 0 <= k < MAXFILE ==>
          BlockAt(t, j, k) == BlockAt(s, j, k) && (Ptr(t, j, k) == 0 <==> Ptr(s, j, k) == 0))
    && (forall j :: 0 <= j < |s.inodes| ==> t.inodes[j].addrs[NDIRECT] == s.inodes[j].addrs[NDIRECT])
  }

  lemma SameBlocksRefl(s: Store, g: Geometry)
    requires Shaped(s, g)
    ensures SameBlocks(s, s, g)
  {
    SoundInRange(s, g);
  }

  lemma SameBlocksTrans(s: Store, t: Store, u: Store, g: Geometry)
    requires SameBlocks(s, t, g) && SameBlocks(t, u, g)
    ensures SameBlocks(s, u, g)
  {
    forall j, k | 0 <= j < |s.inodes| && 0 <= k < MAXFILE
      ensures BlockAt(u, j, k) == BlockAt(s, j, k) && (Ptr(u, j, k) == 0 <==> Ptr(s, j, k) == 0)
    {
      assert BlockAt(u, j, k) == BlockAt(t, j, k);
    }
  }

  /** Same blocks, same bytes. */
  lemma SameBlocksSameFiles(s: Store, t: Store, g: Geometry, i: nat)
    requires SameBlocks(s, t, g) && i < |s.inodes|
    ensures Content(t, i) == Content(s, i)
  {
    FlatEqual(s, t, i);
  }

  // ---- positions that hold the same bytes ----

  /** All file positions whose block holds exactly the bytes c. */
  ghost function Holders(s: Store, c: Block): set<(nat, nat)>
    requires WellFormed(s) && InRange(s)
  {
    set i, k | 0 <= i < |s.inodes| && 0 <= k < MAXFILE && Ptr(s, i, k) != 0 && BlockAt(s, i, k) == c :: (i, k)
  }

  /** No block's bytes occur at more positions than a reference byte can count. */
  ghost predicate Fits(s: Store)
    requires WellFormed(s) && InRange(s)
  {
    forall c :: |Holders(s, c)| <= MAXREF + 1
  }

  lemma HoldersSame(s: Store, t: Store, g: Geometry, c: Block)
    requires SameBlocks(s, t, g)
    ensures Holders(t, c) == Holders(s, c)
  {
    forall i: nat, k: nat ensures (i, k) in Holders(t, c) <==> (i, k) in Holders(s, c) {
    }
    forall e: (nat, nat) ensures e in Holders(t, c) <==> e in Holders(s, c) {
      assert e == (e.0, e.1);
    }
  }

  lemma FitsKept(s: Store, t: Store, g: Geometry)
    requires SameBlocks(s, t, g) && Fits(s)
    ensures Fits(t)
  {
    forall c ensures |Holders(t, c)| <= MAXREF + 1 {
      HoldersSame(s, t, g, c);
    }
  }

  /** When the bytes fit, the byte a merge bumps is not full. */
  lemma FitsNoOverflow(s: Store, g: Geometry, i: nat, k: nat, j: nat, m: nat)
    requires Consistent(s, g) && InRange(s) && Fits(s)
    requires i < |s.inodes| && k < MAXFILE && j < |s.inodes| && m < MAXFILE
    requires Ptr(s, i, k) != 0 && Ptr(s, j, m) != 0 && Ptr(s, i, k) != Ptr(s, j, m)
    requires BlockAt(s, i, k) == BlockAt(s, j, m)
    ensures Ptr(s, j, m) < |s.refs| && s.refs[Ptr(s, j, m)] < MAXREF
  {
    var y, c := Ptr(s, j, m), BlockAt(s, j, m);
    var v := ViewOf(s);
    assert v.ptrs[j][m] == y && v.ptrs[i][k] == Ptr(s, i, k);
    Pointed(v, g, j, m);
    var p := PtrSet(v.ptrs, y);
    forall e | e in p ensures e in Holders(s, c) {
      assert v.ptrs[e.0][e.1] == Ptr(s, e.0, e.1) == y;
      assert e == (e.0, e.1);
    }
    PtrSetMember(v.ptrs, y, i, k);
    assert (i, k) in Holders(s, c);
    SubsetCard(p + {(i, k)}, Holders(s, c));
  }

  // ---- one merge on the store ----

  /** The pointer at (i, k) set to y: in the inode, or in its table block. */
  function SetPointer(s: Store, i: nat, k: nat, y: nat): Store
    requires i < |s.inodes| && |s.inodes[i].addrs| == NDIRECT + 1 && k < MAXFILE && y < UINT_LIMIT
    requires k >= NDIRECT ==> s.inodes[i].addrs[NDIRECT] < |s.disk|
  {
    if k < NDIRECT then SetAddr(s, i, k, y)
    else SetTableWord(s, s.inodes[i].addrs[NDIRECT], k - NDIRECT, y)
  }

  lemma SetPointerView(s: Store, g: Geometry, i: nat, k: nat, y: nat)
    requires Shaped(s, g) && i < |s.inodes| && k < MAXFILE && Ptr(s, i, k) != 0 && y < UINT_LIMIT
    ensures Framed(SetPointer(s, i, k, y), g)
    ensures ViewOf(SetPointer(s, i, k, y)) == ViewOf(s).(ptrs := SetPtr(AllPtrs(s), i, k, y))
  {
    if k < NDIRECT {
      ViewSetDirect(s, i, k, y);
    } else {
      ViewSetWord(s, g, i, k - NDIRECT, y);
    }
  }

  lemma BookkeepingView(s: Store, used: seq<bool>, refs: seq<nat>)
    requires WellFormed(s)
    ensures WellFormed(s.(used := used, refs := refs))
    ensures ViewOf(s.(used := used, refs := refs)) == ViewOf(s).(used := used, refs := refs)
  {
    var t := s.(used := used, refs := refs);
    forall a | 0 <= a < |s.inodes| ensures AllPtrs(t)[a] == AllPtrs(s)[a] {
      assert forall c :: 0 <= c < MAXFILE ==> Ptr(t, a, c) == Ptr(s, a, c);
    }
    assert AllPtrs(t) == AllPtrs(s);
    assert AllTbls(t) == AllTbls(s);
  }

  /** The store after deletedups has redirected (i, k) to the block behind (j, m). */
  ghost predicate Merged(s: Store, t: Store, g: Geometry, i: nat, k: nat, j: nat, m: nat) {
    && Shaped(s, g) && Shaped(t, g)
    && i < |s.inodes| && k < MAXFILE && j < |s.inodes| && m < MAXFILE
    && Ptr(s, i, k) != 0 && Ptr(s, j, m) != 0 && Ptr(s, i, k) != Ptr(s, j, m)
    && Ptr(s, i, k) < |s.refs| && Ptr(s, i, k) < |s.used| && Ptr(s, j, m) < |s.refs|
    && ViewOf(t) == Merge(ViewOf(s), i, k, Ptr(s, j, m))
    && SameInodes(s, t)
    && (forall c :: 0 <= c < g.size && !IsTable(AllTbls(s), c) ==> t.disk[c] == s.disk[c])
  }

  lemma MergeStore(s: Store, g: Geometry, i: nat, k: nat, j: nat, m: nat, used: seq<bool>, refs: seq<nat>)
    requires Shaped(s, g) && i < |s.inodes| && k < MAXFILE && j < |s.inodes| && m < MAXFILE
    requires Ptr(s, i, k) != 0 && Ptr(s, j, m) != 0 && Ptr(s, i, k) != Ptr(s, j, m)
    requires Ptr(s, i, k) < |s.refs| && Ptr(s, i, k) < |s.used| && Ptr(s, j, m) < |s.refs|
    requires used == Merge(ViewOf(s), i, k, Ptr(s, j, m)).used
    requires refs == Merge(ViewOf(s), i, k, Ptr(s, j, m)).refs
    ensures Merged(s, SetPointer(s, i, k, Ptr(s, j, m)).(used := used, refs := refs), g, i, k, j, m)
  {
    var y := Ptr(s, j, m);
    assert ViewOf(s).ptrs[i][k] == Ptr(s, i, k) && ViewOf(s).ptrs[j][m] == y;
    SetPointerView(s, g, i, k, y);
    var u := SetPointer(s, i, k, y);
    BookkeepingView(u, used, refs);
    MergeShape(ViewOf(s), g, i, k, j, m);
    assert AllTbls(s)[i] == s.inodes[i].addrs[NDIRECT];
  }

  /** Merging positions that hold equal bytes changes what no file reads. */
  lemma MergedSameBlocks(s: Store, t: Store, g: Geometry, i: nat, k: nat, j: nat, m: nat)
    requires Merged(s, t, g, i, k, j, m) && InRange(s) && BlockAt(s, i, k) == BlockAt(s, j, m)
    ensures SameBlocks(s, t, g)
  {
    SoundInRange(t, g);
    var v, w := ViewOf(s), ViewOf(t);
    forall a, c | 0 <= a < |s.inodes| && 0 <= c < MAXFILE
      ensures BlockAt(t, a, c) == BlockAt(s, a, c) && (Ptr(t, a, c) == 0 <==> Ptr(s, a, c) == 0)
    {
      assert v.ptrs[a][c] == Ptr(s, a, c) && w.ptrs[a][c] == Ptr(t, a, c);
      assert v.ptrs[i][k] == Ptr(s, i, k) && v.ptrs[j][m] == Ptr(s, j, m);
      assert Ptr(t, a, c) == if (a, c) == (i, k) then Ptr(s, j, m) else Ptr(s, a, c);
      if Ptr(s, a, c) != 0 {
        assert !IsTable(v.tbls, v.ptrs[a][c]);
        assert !IsTable(v.tbls, v.ptrs[j][m]);
      }
    }
    forall a | 0 <= a < |s.inodes| ensures t.inodes[a].addrs[NDIRECT] == s.inodes[a].addrs[NDIRECT] {
      assert w.tbls[a] == v.tbls[a];
    }
  }

  // ---- accounting ----

  /** Free blocks, as getFreeBlocks counts them. */
  ghost function FreeBlocks(used: seq<bool>): nat {
    if used == [] then 0 else FreeBlocks(used[..|used| - 1]) + (if used[|used| - 1] then 0 else 1)
  }

  /** Sum of all extra references. */
  ghost function Saved(refs: seq<nat>): nat {
    if refs == [] then 0 else Saved(refs[..|refs| - 1]) + refs[|refs| - 1]
  }

  lemma {:induction false} FreeUpdate(used: seq<bool>, b: nat, x: bool)
    requires b < |used|
    ensures FreeBlocks(used[b := x]) == FreeBlocks(used) + (if used[b] then 1 else 0) - (if x then 1 else 0)
  {
    var n := |used| - 1;
    if b == n {
      assert used[b := x][..n] == used[..n];
    } else {
      assert used[b := x][..n] == used[..n][b := x];
      FreeUpdate(used[..n], b, x);
    }
  }

  lemma {:induction false} SavedUpdate(refs: seq<nat>, b: nat, x: nat)
    requires b < |refs|
    ensures Saved(refs[b := x]) == Saved(refs) - refs[b] + x
  {
    var n := |refs| - 1;
    if b == n {
      assert refs[b := x][..n] == refs[..n];
    } else {
      assert refs[b := x][..n] == refs[..n][b := x];
      SavedUpdate(refs[..n], b, x);
    }
  }

  /** Blocks in use plus extra references: what the files would take without sharing. */
  ghost function LogicalTotal(s: Store): int {
    |s.used| - FreeBlocks(s.used) + Saved(s.refs)
  }

  lemma MergeAccounts(s: Store, t: Store, g: Geometry, i: nat, k: nat, j: nat, m: nat)
    requires Consistent(s, g) && Merged(s, t, g, i, k, j, m) && s.refs[Ptr(s, j, m)] < MAXREF
    ensures LogicalTotal(t) == LogicalTotal(s)
    ensures FreeBlocks(t.used) >= FreeBlocks(s.used)
  {
    var v, x, y := ViewOf(s), Ptr(s, i, k), Ptr(s, j, m);
    assert v.ptrs[i][k] == x && v.ptrs[j][m] == y;
    Pointed(v, g, i, k);
    hide Inv, Shape, FreeBlocks, Saved;
    BumpAccounts(s.used, s.refs, t.used, t.refs, x, y);
  }

  /** One reference more for y; one less for x, or its block free. */
  lemma BumpAccounts(used: seq<bool>, refs: seq<nat>, used1: seq<bool>, refs1: seq<nat>, x: nat, y: nat)
    requires x < |used| && used[x] && x < |refs| && y < |refs|
    requires var bumped := refs[y := refs[y] + 1];
             if bumped[x] > 0 then used1 == used && refs1 == bumped[x := bumped[x] - 1]
             else used1 == used[x := false] && refs1 == bumped
    ensures |used1| == |used| && Saved(refs1) - FreeBlocks(used1) == Saved(refs) - FreeBlocks(used)
    ensures FreeBlocks(used1) >= FreeBlocks(used)
  {
    hide FreeBlocks, Saved;
    var bumped: seq<nat> := refs[y := refs[y] + 1];
    SavedUpdate(refs, y, refs[y] + 1);
    if bumped[x] > 0 {
      SavedUpdate(bumped, x, bumped[x] - 1);
    } else {
      FreeUpdate(used, x, false);
    }
  }

  /** getFreeBlocks: the bitmap scanned block by block. */
  method GetFreeBlocks(fs: FileSystem) returns (count: nat)
    ensures count == FreeBlocks(fs.used)
  {
    count := 0;
    var b := 0;
    while b < |fs.used|
      invariant count == FreeBlocks(fs.used[..if b < |fs.used| then b else |fs.used|])
    {
      var bi := 0;
      while bi < BPB && b + bi < |fs.used|
        invariant 0 <= bi <= BPB && (bi < BPB ==> b + bi <= |fs.used|)
        invariant b + bi <= |fs.used|
        invariant count == FreeBlocks(fs.used[..b + bi])
      {
        assert fs.used[..b + bi + 1][..b + bi] == fs.used[..b + bi];
        if !fs.used[b + bi] {
          count := count + 1;
        }
        bi := bi + 1;
      }
      b := b + BPB;
    }
    assert fs.used[..|fs.used|] == fs.used;
  }

  lemma {:induction false} SavedConcat(a: seq<nat>, b: seq<nat>)
    ensures Saved(a + b) == Saved(a) + Saved(b)
  {
    if b == [] {
      assert a + b == a;
    } else {
      var n := |b| - 1;
      assert (a + b)[..|a + b| - 1] == a + b[..n];
      SavedConcat(a, b[..n]);
    }
  }

  /** The counting part of getSharedBlocksRate, both reference blocks in one loop. */
  method SharedTotals(fs: FileSystem, nblocks: int) returns (saved: nat, total: int)
    ensures saved == Saved(fs.Refs())
    ensures total == nblocks - FreeBlocks(fs.used) + Saved(fs.Refs())
  {
    var free := GetFreeBlocks(fs);
    total := nblocks - free;
    saved := 0;
    var i := 0;
    ghost var lo: seq<nat>, hi: seq<nat> := fs.ref1, fs.ref2;
    while i < BSIZE
      invariant 0 <= i <= BSIZE
      invariant saved == Saved(lo[..i]) + Saved(hi[..i])
    {
      assert lo[..i + 1][..i] == lo[..i] && hi[..i + 1][..i] == hi[..i];
      if fs.ref1[i] > 0 {
        saved := saved + fs.ref1[i];
      }
      if fs.ref2[i] > 0 {
        saved := saved + fs.ref2[i];
      }
      i := i + 1;
    }
    assert lo[..BSIZE] == lo && hi[..BSIZE] == hi && lo + hi == fs.Refs();
    SavedConcat(lo, hi);
    total := total + saved;
  }

  // ---- the pass ----

  method Blkcmp(b1: Block, b2: Block) returns (same: bool)
    ensures same <==> b1 == b2
  {
    var i := 0;
    while i < BSIZE
      invariant 0 <= i <= BSIZE
      invariant forall m :: 0 <= m < i ==> b1[m] == b2[m]
    {
      if b1[i] != b2[i] { return false; }
      i := i + 1;
    }
    return true;
  }

  /** Logical block k of file i as the pass reads it, through the inode or the cached table. */
  method ReadPtr(fs: FileSystem, i: nat, k: nat) returns (p: nat)
    requires WellFormed(fs.State()) && i < |fs.inodes| && k < MAXFILE
    requires k >= NDIRECT ==> fs.inodes[i].addrs[NDIRECT] != 0
    ensures p == Ptr(fs.State(), i, k)
  {
    if k < NDIRECT {
      p := fs.inodes[i].addrs[k];
    } else {
      p := Word(fs.disk[fs.inodes[i].addrs[NDIRECT]], k - NDIRECT);
    }
  }

  /** Position (j, m) holds another block with the same bytes as position (i, k). */
  ghost predicate Duplicate(s: Store, i: nat, k: nat, j: nat, m: nat)
    requires WellFormed(s) && InRange(s)
  {
    && i < |s.inodes| && k < MAXFILE && j < |s.inodes| && m < MAXFILE
    && Ptr(s, i, k) != 0 && Ptr(s, j, m) != 0 && Ptr(s, i, k) != Ptr(s, j, m)
    && BlockAt(s, i, k) == BlockAt(s, j, m)
  }

  /** The pointer store of deletedups, in the inode or in its table. */
  method StorePtr(fs: FileSystem, i: nat, k: nat, y: nat)
    requires WellFormed(fs.State()) && i < |fs.inodes| && k < MAXFILE && y < UINT_LIMIT
    requires k >= NDIRECT ==> fs.inodes[i].addrs[NDIRECT] != 0
    modifies fs`inodes, fs`disk
    ensures fs.State() == SetPointer(old(fs.State()), i, k, y)
  {
    if k < NDIRECT {
      fs.inodes := fs.inodes[i := SetInodeAddr(fs.inodes[i], k, y)];
    } else {
      var tbl := fs.inodes[i].addrs[NDIRECT];
      fs.disk := fs.disk[tbl := SetWord(fs.disk[tbl], k - NDIRECT, y)];
    }
  }

  /** The counting part of deletedups: y gains a reference, x loses one or is freed. */
  method CountMerge(fs: FileSystem, x: nat, y: nat) returns (ok: bool)
    requires x < NREFS && y < NREFS && x < |fs.used| && x != y
    modifies fs`ref1, fs`ref2, fs`used
    ensures ok <==> old(fs.Refs())[x] > 0 || old(fs.used)[x]
    ensures var bumped := old(fs.Refs())[y := (old(fs.Refs())[y] + 1) % 256];
            if bumped[x] > 0 then fs.used == old(fs.used) && fs.Refs() == bumped[x := bumped[x] - 1]
            else fs.used == old(fs.used)[x := false] && fs.Refs() == bumped
  {
    fs.UpdateBlkRef(y, 1);
    assert fs.Refs() == old(fs.Refs())[y := (old(fs.Refs())[y] + 1) % 256];
    ghost var bumped := fs.Refs();
    var ref := fs.GetBlkRef(x);
    if ref > 0 {
      fs.UpdateBlkRef(x, -1);
      assert fs.Refs() == bumped[x := bumped[x] - 1];
      ok := true;
    } else {
      ok := fs.Bfree(x);
    }
  }

  /** deletedups: (i, k) comes to share the block behind (j, m). Not ok is the panic on freeing a
      free block. The counts survive exactly when the bumped byte is below 255. */
  method DeleteDups(fs: FileSystem, i: nat, k: nat, j: nat, m: nat) returns (ok: bool)
    requires Shaped(fs.State(), fs.g) && InRange(fs.State()) && Duplicate(fs.State(), i, k, j, m)
    modifies fs
    ensures Merged(old(fs.State()), fs.State(), fs.g, i, k, j, m)
    ensures SameBlocks(old(fs.State()), fs.State(), fs.g)
    ensures ok <==> old(fs.Refs())[old(Ptr(fs.State(), i, k))] > 0 || old(fs.used)[old(Ptr(fs.State(), i, k))]
    ensures old(Consistent(fs.State(), fs.g)) ==>
              ok && (Consistent(fs.State(), fs.g) <==> old(fs.Refs())[old(Ptr(fs.State(), j, m))] < MAXREF)
  {
    hide Shape, Merged, SameBlocks, Counts, BlockOk;
    ghost var s := fs.State();
    PtrBounds(s, fs.g, i, k);
    PtrBounds(s, fs.g, j, m);
    var x := ReadPtr(fs, i, k);
    var y := ReadPtr(fs, j, m);
    StorePtr(fs, i, k, y);
    ok := CountMerge(fs, x, y);
    assert AllPtrs(s)[i][k] == x && AllPtrs(s)[j][m] == y;
    MergeStore(s, fs.g, i, k, j, m, fs.used, fs.Refs());
    MergedSameBlocks(s, fs.State(), fs.g, i, k, j, m);
    if Consistent(s, fs.g) {
      MergeKeepsCounts(ViewOf(s), fs.g, i, k, j, m);
    }
  }

  lemma PtrBounds(s: Store, g: Geometry, i: nat, k: nat)
    requires Shaped(s, g) && i < |s.inodes| && k < MAXFILE
    ensures Ptr(s, i, k) < g.limit && |s.used| == |s.disk| == g.size && |s.refs| == NREFS
    ensures k >= NDIRECT && Ptr(s, i, k) != 0 ==> s.inodes[i].addrs[NDIRECT] != 0
  {
    assert AllPtrs(s)[i][k] == Ptr(s, i, k);
  }

  /** The search inside one file: the last position after k with a duplicate block. */
  method FindInFile(fs: FileSystem, i: nat, k: nat) returns (r: Option<nat>)
    requires Shaped(fs.State(), fs.g) && InRange(fs.State())
    requires i < |fs.inodes| && k < MAXFILE && Ptr(fs.State(), i, k) != 0
    ensures r.Some? ==> k < r.value && Duplicate(fs.State(), i, k, i, r.value)
    ensures forall m :: k < m < MAXFILE && Duplicate(fs.State(), i, k, i, m) ==> r.Some? && m <= r.value
  {
    ghost var s := fs.State();
    PtrBounds(s, fs.g, i, k);
    var indirects := if fs.inodes[i].addrs[NDIRECT] != 0 then NINDIRECT else 0;
    var x := ReadPtr(fs, i, k);
    var m := NDIRECT + indirects - 1;
    while m > k
      invariant k <= m < NDIRECT + indirects
      invariant forall c :: m < c < MAXFILE ==> !Duplicate(s, i, k, i, c)
    {
      PtrBounds(s, fs.g, i, m);
      var y := ReadPtr(fs, i, m);
      if y != 0 && x != y {
        var same := Blkcmp(fs.disk[x], fs.disk[y]);
        if same { return Some(m); }
      }
      m := m - 1;
    }
    return None;
  }

  /** getNextInode: the next plain file after nextInum. */
  method GetNextInode(fs: FileSystem, nextInum: nat) returns (r: Option<nat>)
    ensures r.Some? ==> nextInum < r.value < |fs.inodes| && fs.inodes[r.value].typ == T_FILE
    ensures forall j :: nextInum < j < |fs.inodes| && fs.inodes[j].typ == T_FILE ==> r.Some? && r.value <= j
  {
    var inum := nextInum + 1;
    while inum < |fs.inodes|
      invariant nextInum < inum
      invariant forall j :: nextInum < j < inum && j < |fs.inodes| ==> fs.inodes[j].typ != T_FILE
    {
      if fs.inodes[inum].typ == T_FILE { return Some(inum); }
      inum := inum + 1;
    }
    return None;
  }

  /** getPrevInode: the last plain file up to prevInum, above nextInum; the cursor moves below it. */
  method GetPrevInode(fs: FileSystem, prevInum: int, nextInum: nat) returns (r: Option<nat>, prev: int)
    requires prevInum < |fs.inodes|
    ensures r.Some? ==> nextInum < r.value <= prevInum && fs.inodes[r.value].typ == T_FILE && prev == r.value - 1
    ensures forall j :: nextInum < j <= prevInum && fs.inodes[j].typ == T_FILE ==> r.Some? && j <= r.value
  {
    prev := prevInum;
    while prev > nextInum
      invariant prev <= prevInum
      invariant forall j :: nextInum < j <= prevInum && prev < j ==> fs.inodes[j].typ != T_FILE
    {
      if fs.inodes[prev].typ == T_FILE {
        return Some(prev), prev - 1;
      }
      prev := prev - 1;
    }
    return None, prev;
  }

  /** `ip1->addrs` is also compared when position k lies in the table, at the offset into the table. Up to
      the 13 words of the inode that word is known; further on it is whatever lies in memory there. */
  predicate Known(k: nat) {
    k <= 2 * NDIRECT
  }

  /** That word; for a direct position it is the position's own block, which is no duplicate. */
  ghost function WordOf(s: Store, i: nat, k: nat): nat
    requires WellFormed(s) && i < |s.inodes| && Known(k)
  {
    if k < NDIRECT then 0 else s.inodes[i].addrs[k - NDIRECT]
  }

  /** The search from position k in one file may compare with w. */
  ghost predicate Compared(s: Store, i: nat, k: nat, w: int)
    requires WellFormed(s) && i < |s.inodes|
  {
    Known(k) ==> w == WordOf(s, i, k)
  }

  /** A duplicate that is not block w. */
  ghost predicate SeenPast(s: Store, w: int, i: nat, k: nat, j: nat, m: nat)
    requires WellFormed(s) && InRange(s)
  {
    Duplicate(s, i, k, j, m) && Ptr(s, j, m) != w
  }

  /** m is the last of them in file j. */
  ghost predicate LastPast(s: Store, w: int, i: nat, k: nat, j: nat, m: nat)
    requires WellFormed(s) && InRange(s)
  {
    SeenPast(s, w, i, k, j, m) && forall c :: m < c < MAXFILE ==> !SeenPast(s, w, i, k, j, c)
  }

  ghost predicate NoPast(s: Store, w: int, i: nat, k: nat, j: nat)
    requires WellFormed(s) && InRange(s)
  {
    forall m :: 0 <= m < MAXFILE ==> !SeenPast(s, w, i, k, j, m)
  }

  /** One word cannot hide two blocks. */
  lemma TwoAreSeen(s: Store, w: int, i: nat, k: nat, j: nat, m: nat, c: nat)
    requires WellFormed(s) && InRange(s) && Duplicate(s, i, k, j, m) && Duplicate(s, i, k, j, c) && Ptr(s, j, m) != Ptr(s, j, c)
    ensures !NoPast(s, w, i, k, j)
  {
    assert SeenPast(s, w, i, k, j, m) || SeenPast(s, w, i, k, j, c);
  }

  /** The search in one later file, from its last block down: the last duplicate that is not the word it
      compares with, or none if there is none. */
  method FindInOther(fs: FileSystem, i: nat, k: nat, j: nat) returns (r: Option<nat>, ghost w: int)
    requires Shaped(fs.State(), fs.g) && InRange(fs.State())
    requires i < |fs.inodes| && k < MAXFILE && j < |fs.inodes| && Ptr(fs.State(), i, k) != 0
    ensures Compared(fs.State(), i, k, w)
    ensures r.Some? ==> LastPast(fs.State(), w, i, k, j, r.value)
    ensures r.None? ==> NoPast(fs.State(), w, i, k, j)
  {
    ghost var s := fs.State();
    PtrBounds(s, fs.g, i, k);
    var x := ReadPtr(fs, i, k);
    var indirects := if fs.inodes[j].addrs[NDIRECT] != 0 then NINDIRECT else 0;
    var stray: nat := *;
    if k < NDIRECT {
      stray := x;
    } else if k - NDIRECT <= NDIRECT {
      stray := fs.inodes[i].addrs[k - NDIRECT];
    }
    w := if k < NDIRECT then 0 else stray;
    var m := NDIRECT + indirects - 1;
    while m >= 0
      invariant -1 <= m < NDIRECT + indirects
      invariant forall c :: m < c < MAXFILE ==> !SeenPast(s, w, i, k, j, c)
    {
      PtrBounds(s, fs.g, j, m);
      var y := ReadPtr(fs, j, m);
      if x != y && y != stray && y != 0 {
        var same := Blkcmp(fs.disk[x], fs.disk[y]);
        if same { return Some(m), w; }
      }
      m := m - 1;
    }
    return None, w;
  }

  /** How far the pass has come from store s: no file reads differently, and the counts are exact
      unless a merge has bumped a full byte. */
  ghost predicate Kept(s: Store, t: Store, g: Geometry, wrapped: bool) {
    && SameBlocks(s, t, g)
    && (Consistent(s, g) && !wrapped ==>
          Consistent(t, g) && LogicalTotal(t) == LogicalTotal(s) && FreeBlocks(t.used) >= FreeBlocks(s.used))
    && (Consistent(s, g) && wrapped ==> (exists b :: Overrun(ViewOf(t), g, b)) && !Fits(s))
  }

  lemma KeptStep(s: Store, t: Store, u: Store, g: Geometry, wrapped: bool, i: nat, k: nat, j: nat, m: nat)
    requires Kept(s, t, g, wrapped) && Merged(t, u, g, i, k, j, m) && SameBlocks(t, u, g)
    requires Duplicate(t, i, k, j, m)
    requires t.refs[Ptr(t, i, k)] > 0 || t.used[Ptr(t, i, k)]
    requires Consistent(t, g) ==> (Consistent(u, g) <==> t.refs[Ptr(t, j, m)] < MAXREF)
    ensures Kept(s, u, g, wrapped || t.refs[Ptr(t, j, m)] == MAXREF)
  {
    SameBlocksTrans(s, t, u, g);
    var v := ViewOf(t);
    assert v.ptrs[i][k] == Ptr(t, i, k) && v.ptrs[j][m] == Ptr(t, j, m);
    assert t.refs[Ptr(t, j, m)] <= MAXREF;
    if Consistent(s, g) {
      if wrapped {
        var b :| Overrun(v, g, b);
        OverrunStays(v, g, i, k, Ptr(t, j, m), b);
      } else if t.refs[Ptr(t, j, m)] == MAXREF {
        MergeOverruns(v, g, i, k, j, m);
        if Fits(s) {
          FitsKept(s, t, g);
          FitsNoOverflow(t, g, i, k, j, m);
        }
      } else {
        MergeAccounts(t, u, g, i, k, j, m);
      }
    }
  }

  lemma OverrunInconsistent(s: Store, g: Geometry)
    requires Framed(s, g) && exists b :: Overrun(ViewOf(s), g, b)
    ensures !Consistent(s, g)
  {
    var b :| Overrun(ViewOf(s), g, b);
    OverrunNotOk(ViewOf(s), g, b);
  }

  // ---- which duplicate the pass takes ----

  /** The search in file j takes position m, or finds nothing, for some word it may compare with. */
  ghost predicate Found(s: Store, i: nat, k: nat, j: nat, m: nat)
    requires WellFormed(s) && InRange(s) && i < |s.inodes|
  {
    exists w :: Compared(s, i, k, w) && LastPast(s, w, i, k, j, m)
  }

  ghost predicate Missed(s: Store, i: nat, k: nat, j: nat)
    requires WellFormed(s) && InRange(s) && i < |s.inodes|
  {
    exists w :: Compared(s, i, k, w) && NoPast(s, w, i, k, j)
  }

  /** m is the last later position of the same file with a duplicate. */
  ghost predicate Near(s: Store, i: nat, k: nat, m: nat)
    requires WellFormed(s) && InRange(s)
  {
    k < m && Duplicate(s, i, k, i, m) && forall c :: m < c < MAXFILE ==> !Duplicate(s, i, k, i, c)
  }

  ghost predicate NoneNear(s: Store, i: nat, k: nat)
    requires WellFormed(s) && InRange(s)
  {
    forall m :: k < m < MAXFILE ==> !Duplicate(s, i, k, i, m)
  }

  ghost predicate NoneAbove(s: Store, i: nat, k: nat, j: nat)
    requires WellFormed(s) && InRange(s) && i < |s.inodes|
  {
    forall c :: j < c < |s.inodes| && s.inodes[c].typ == T_FILE ==> Missed(s, i, k, c)
  }

  /** (j, m) is what the search takes in the last later plain file where it finds something. */
  ghost predicate Far(s: Store, i: nat, k: nat, j: nat, m: nat)
    requires WellFormed(s) && InRange(s)
  {
    && NoneNear(s, i, k) && i < j < |s.inodes| && s.inodes[j].typ == T_FILE && Found(s, i, k, j, m)
    && NoneAbove(s, i, k, j)
  }

  ghost predicate Chosen(s: Store, i: nat, k: nat, j: nat, m: nat)
    requires WellFormed(s) && InRange(s)
  {
    (j == i && Near(s, i, k, m)) || Far(s, i, k, j, m)
  }

  /** One block's turn: merged with the chosen duplicate, or left alone because there is none. */
  ghost predicate Treated(s: Store, t: Store, g: Geometry, i: nat, k: nat) {
    && Shaped(s, g) && InRange(s) && i < |s.inodes| && k < MAXFILE
    && ((t == s && (Ptr(s, i, k) == 0 || (NoneNear(s, i, k) && NoneAbove(s, i, k, i))))
        || exists j, m :: Chosen(s, i, k, j, m) && Merged(s, t, g, i, k, j, m))
  }

  /** The turn ends in the panic on freeing a free block. */
  ghost predicate Jams(s: Store, i: nat, k: nat)
    requires WellFormed(s) && InRange(s)
  {
    && (exists j, m :: Chosen(s, i, k, j, m))
    && i < |s.inodes| && k < MAXFILE && Ptr(s, i, k) < |s.refs| && Ptr(s, i, k) < |s.used|
    && s.refs[Ptr(s, i, k)] == 0 && !s.used[Ptr(s, i, k)]
  }

  /** A reference byte went from 255 to 0. */
  ghost predicate Wraps(s: Store, t: Store) {
    exists b :: 0 <= b < |s.refs| && b < |t.refs| && s.refs[b] == MAXREF && t.refs[b] == 0
  }

  lemma MergeWraps(s: Store, t: Store, g: Geometry, i: nat, k: nat, j: nat, m: nat)
    requires Merged(s, t, g, i, k, j, m)
    ensures Wraps(s, t) <==> s.refs[Ptr(s, j, m)] == MAXREF
  {
    var v, x, y := ViewOf(s), Ptr(s, i, k), Ptr(s, j, m);
    assert v.ptrs[i][k] == x && v.ptrs[j][m] == y;
    assert t.refs == Merge(v, i, k, y).refs;
    assert s.refs[y] <= MAXREF;
  }

  lemma MergedPointers(s: Store, t: Store, g: Geometry, i: nat, k: nat, j: nat, m: nat)
    requires Merged(s, t, g, i, k, j, m)
    ensures forall a, c :: 0 <= a < |s.inodes| && 0 <= c < MAXFILE ==>
              Ptr(t, a, c) == if (a, c) == (i, k) then Ptr(s, j, m) else Ptr(s, a, c)
  {
    var v, w := ViewOf(s), ViewOf(t);
    forall a, c | 0 <= a < |s.inodes| && 0 <= c < MAXFILE
      ensures Ptr(t, a, c) == if (a, c) == (i, k) then Ptr(s, j, m) else Ptr(s, a, c)
    {
      assert v.ptrs[a][c] == Ptr(s, a, c) && w.ptrs[a][c] == Ptr(t, a, c) && v.ptrs[j][m] == Ptr(s, j, m);
    }
  }

  // ---- the loops ----

  /** The body of dedup's block loop: position k of file i is merged with the last duplicate later in
      the file, or else with one in the last later file that has one. */
  method DedupBlock(fs: FileSystem, i: nat, k: nat, ghost s: Store, ghost wrapped: bool)
    returns (ok: bool, ghost wrapped': bool)
    requires Kept(s, fs.State(), fs.g, wrapped) && i < |fs.inodes| && k < MAXFILE
    requires k >= NDIRECT ==> fs.inodes[i].addrs[NDIRECT] != 0
    modifies fs
    ensures ok ==> Kept(s, fs.State(), fs.g, wrapped') && Treated(old(fs.State()), fs.State(), fs.g, i, k)
    ensures ok ==> (wrapped' <==> wrapped || Wraps(old(fs.State()), fs.State()))
    ensures !ok ==> InRange(old(fs.State())) && Jams(old(fs.State()), i, k)
    ensures !ok && Consistent(s, fs.g) ==> wrapped && !Fits(s)
  {
    hide LogicalTotal, Fits, Overrun, Consistent, Merged, Wraps;
    wrapped' := wrapped;
    ghost var t := fs.State();
    NoWrap(t);
    var x := ReadPtr(fs, i, k);
    if x == 0 { return true, wrapped; }
    PtrBounds(t, fs.g, i, k);
    var near := FindInFile(fs, i, k);
    if near.Some? {
      ok, wrapped' := MergeOne(fs, i, k, i, near.value, s, wrapped);
      return;
    }
    forall m | k < m < MAXFILE ensures !Duplicate(t, i, k, i, m) {
      assert !Duplicate(fs.State(), i, k, i, m);
    }
    var prev := |fs.inodes| - 1;
    while true
      invariant fs.State() == t && prev < |fs.inodes|
      invariant forall c :: i < c < |t.inodes| && prev < c && t.inodes[c].typ == T_FILE ==> Missed(t, i, k, c)
      decreases prev
    {
      var r, prev' := GetPrevInode(fs, prev, i);
      if r.None? { break; }
      var far, w := FindInOther(fs, i, k, r.value);
      if far.Some? {
        assert Found(t, i, k, r.value, far.value);
        ok, wrapped' := MergeOne(fs, i, k, r.value, far.value, s, wrapped);
        return;
      }
      prev := prev';
    }
    ok := true;
  }

  lemma NoWrap(s: Store)
    ensures !Wraps(s, s)
  {
  }

  /** deletedups on the chosen duplicate. */
  method MergeOne(fs: FileSystem, i: nat, k: nat, j: nat, m: nat, ghost s: Store, ghost wrapped: bool)
    returns (ok: bool, ghost wrapped': bool)
    requires Kept(s, fs.State(), fs.g, wrapped) && Chosen(fs.State(), i, k, j, m)
    modifies fs
    ensures ok ==> Kept(s, fs.State(), fs.g, wrapped') && Treated(old(fs.State()), fs.State(), fs.g, i, k)
    ensures ok ==> (wrapped' <==> wrapped || Wraps(old(fs.State()), fs.State()))
    ensures !ok ==> InRange(old(fs.State())) && Jams(old(fs.State()), i, k)
    ensures !ok && Consistent(s, fs.g) ==> wrapped && !Fits(s)
  {
    hide LogicalTotal, Fits, Overrun, Consistent, Merged, Wraps;
    wrapped' := wrapped;
    ghost var t := fs.State();
    PtrBounds(t, fs.g, i, k);
    PtrBounds(t, fs.g, j, m);
    ok := DeleteDups(fs, i, k, j, m);
    if ok {
      KeptStep(s, t, fs.State(), fs.g, wrapped, i, k, j, m);
      MergeWraps(t, fs.State(), fs.g, i, k, j, m);
      wrapped' := wrapped || t.refs[Ptr(t, j, m)] == MAXREF;
    }
  }

  /** The number of block positions the pass looks at in file i. */
  ghost function Positions(s: Store, i: nat): nat
    requires WellFormed(s) && i < |s.inodes|
  {
    if s.inodes[i].addrs[NDIRECT] != 0 then NDIRECT + NINDIRECT else NDIRECT
  }

  ghost function FileVisits(s: Store, i: nat): seq<(nat, nat)>
    requires WellFormed(s) && i < |s.inodes|
  {
    if i > 0 && s.inodes[i].typ == T_FILE then seq(Positions(s, i), k => (i, k)) else []
  }

  /** Every block position of every plain file below n, file by file. */
  ghost function Visits(s: Store, n: nat): seq<(nat, nat)>
    requires WellFormed(s) && n <= |s.inodes|
  {
    if n == 0 then [] else Visits(s, n - 1) + FileVisits(s, n - 1)
  }

  /** The stores between the turns of these positions. */
  ghost predicate IsTrace(trace: seq<Store>, visits: seq<(nat, nat)>, g: Geometry) {
    && |trace| == |visits| + 1
    && forall n :: 0 <= n < |visits| ==> Treated(trace[n], trace[n + 1], g, visits[n].0, visits[n].1)
  }

  ghost predicate Wrapped(trace: seq<Store>) {
    exists n :: 0 <= n < |trace| - 1 && Wraps(trace[n], trace[n + 1])
  }

  /** The pass panics at the turn behind the last of these stores. */
  ghost predicate Stuck(trace: seq<Store>, visits: seq<(nat, nat)>, g: Geometry) {
    && 0 < |trace| <= |visits| && IsTrace(trace, visits[..|trace| - 1], g)
    && var t, p := trace[|trace| - 1], visits[|trace| - 1];
       WellFormed(t) && InRange(t) && Jams(t, p.0, p.1)
  }

  lemma StuckLater(trace: seq<Store>, visits: seq<(nat, nat)>, more: seq<(nat, nat)>, g: Geometry)
    requires Stuck(trace, visits, g) && visits <= more
    ensures Stuck(trace, more, g)
  {
    assert more[..|trace| - 1] == visits[..|trace| - 1];
  }

  lemma StuckHere(trace: seq<Store>, seen: seq<(nat, nat)>, rest: seq<(nat, nat)>, g: Geometry)
    requires IsTrace(trace, seen, g) && rest != []
    requires WellFormed(trace[|seen|]) && InRange(trace[|seen|]) && Jams(trace[|seen|], rest[0].0, rest[0].1)
    ensures Stuck(trace, seen + rest, g)
  {
    assert (seen + rest)[..|seen|] == seen;
  }

  /** One more turn. */
  lemma TraceGrows(trace: seq<Store>, visits: seq<(nat, nat)>, g: Geometry, t: Store, i: nat, k: nat)
    requires IsTrace(trace, visits, g) && Treated(trace[|visits|], t, g, i, k)
    ensures IsTrace(trace + [t], visits + [(i, k)], g)
    ensures Wrapped(trace + [t]) <==> Wrapped(trace) || Wraps(trace[|visits|], t)
  {
    hide Treated, Wraps;
    var u := trace + [t];
    forall n | 0 <= n < |visits| + 1
      ensures Treated(u[n], u[n + 1], g, (visits + [(i, k)])[n].0, (visits + [(i, k)])[n].1)
    {
      assert n < |visits| ==> Treated(trace[n], trace[n + 1], g, visits[n].0, visits[n].1);
    }
    if Wrapped(trace) {
      var n :| 0 <= n < |trace| - 1 && Wraps(trace[n], trace[n + 1]);
      assert Wraps(u[n], u[n + 1]);
    }
    if Wraps(trace[|visits|], t) {
      assert Wraps(u[|visits|], u[|visits| + 1]);
    }
    if Wrapped(u) {
      var n :| 0 <= n < |u| - 1 && Wraps(u[n], u[n + 1]);
      assert n < |visits| ==> Wraps(trace[n], trace[n + 1]);
    }
  }

  /** All blocks of one file. */
  method DedupFile(fs: FileSystem, i: nat, ghost s: Store, ghost before: seq<Store>, ghost visits: seq<(nat, nat)>)
    returns (ok: bool, ghost trace: seq<Store>)
    requires |before| > 0 && before[|before| - 1] == fs.State() && IsTrace(before, visits, fs.g)
    requires Kept(s, fs.State(), fs.g, Wrapped(before)) && 0 < i < |fs.inodes| && fs.inodes[i].typ == T_FILE
    modifies fs
    ensures ok ==> Kept(s, fs.State(), fs.g, Wrapped(trace)) && |trace| > 0 && trace[|trace| - 1] == fs.State()
    ensures ok ==> SameInodes(s, fs.State()) && WellFormed(s)
    ensures ok ==> i < |s.inodes| && trace[0] == before[0] && IsTrace(trace, visits + FileVisits(s, i), fs.g)
    ensures !ok ==> WellFormed(s) && i < |s.inodes| && Stuck(trace, visits + FileVisits(s, i), fs.g) && trace[0] == before[0]
    ensures !ok && Consistent(s, fs.g) ==> !Fits(s) && Wrapped(trace)
  {
    hide Kept, LogicalTotal, Fits, Overrun, Consistent, IsTrace, Wrapped, Treated, Wraps, Merged, Stuck, Jams, InRange, SameBlocks;
    KeptInode(s, fs.State(), fs.g, Wrapped(before), i);
    trace := before;
    ghost var seen := visits;
    assert visits + [] == visits;
    var indirects1 := if fs.inodes[i].addrs[NDIRECT] != 0 then NINDIRECT else 0;
    var k := 0;
    TraceLength(before, visits, fs.g);
    while k < NDIRECT + indirects1
      invariant 0 <= k <= NDIRECT + indirects1
      invariant Kept(s, fs.State(), fs.g, Wrapped(trace))
      invariant |trace| == |seen| + 1 && trace[|seen|] == fs.State() && trace[0] == before[0]
      invariant seen == visits + seq(k, c => (i, c)) && IsTrace(trace, seen, fs.g)
      invariant |fs.inodes| == |s.inodes| && SameInodes(s, fs.State()) && (indirects1 != 0 <==> s.inodes[i].addrs[NDIRECT] != 0)
    {
      KeptInode(s, fs.State(), fs.g, Wrapped(trace), i);
      ghost var w;
      ok, w := DedupBlock(fs, i, k, s, Wrapped(trace));
      if !ok {
        StuckIn(s, i, k, trace, visits, seen, fs.g);
        return;
      }
      TraceGrows(trace, seen, fs.g, fs.State(), i, k);
      trace := trace + [fs.State()];
      seen := seen + [(i, k)];
      k := k + 1;
      KeptInode(s, fs.State(), fs.g, Wrapped(trace), i);
    }
    ok := true;
  }

  /** A panic at position k of file i. */
  lemma StuckIn(s: Store, i: nat, k: nat, trace: seq<Store>, visits: seq<(nat, nat)>, seen: seq<(nat, nat)>, g: Geometry)
    requires WellFormed(s) && 0 < i < |s.inodes| && s.inodes[i].typ == T_FILE && k < Positions(s, i)
    requires seen == visits + seq(k, c => (i, c)) && IsTrace(trace, seen, g)
    requires WellFormed(trace[|seen|]) && InRange(trace[|seen|]) && Jams(trace[|seen|], i, k)
    ensures Stuck(trace, visits + FileVisits(s, i), g)
  {
    var v := FileVisits(s, i);
    assert v[..k] == seq(k, c => (i, c));
    assert seen + v[k..] == visits + v;
    StuckHere(trace, seen, v[k..], g);
  }

  lemma TraceLength(trace: seq<Store>, visits: seq<(nat, nat)>, g: Geometry)
    requires IsTrace(trace, visits, g)
    ensures |trace| == |visits| + 1
  {
  }

  lemma KeptInode(s: Store, t: Store, g: Geometry, wrapped: bool, i: nat)
    requires Kept(s, t, g, wrapped) && (i < |t.inodes| || i < |s.inodes|)
    ensures WellFormed(s) && WellFormed(t) && i < |s.inodes| == |t.inodes|
    ensures t.inodes[i].addrs[NDIRECT] == s.inodes[i].addrs[NDIRECT] && SameInodes(s, t)
  {
  }

  lemma PassDone(s: Store, t: Store, g: Geometry, wrapped: bool)
    requires Kept(s, t, g, wrapped)
    ensures SameContents(s, t, g)
    ensures Consistent(s, g) ==> (Consistent(t, g) <==> !wrapped)
  {
    forall j | 0 <= j < |s.inodes| ensures Content(t, j) == Content(s, j) {
      SameBlocksSameFiles(s, t, g, j);
    }
    if Consistent(s, g) && wrapped {
      OverrunInconsistent(t, g);
    }
  }

  /** Inodes that are no plain files are not visited. */
  lemma {:induction false} VisitsSkip(s: Store, a: nat, b: nat)
    requires WellFormed(s) && a <= b <= |s.inodes| && forall j :: a <= j < b ==> s.inodes[j].typ != T_FILE || j == 0
    ensures Visits(s, b) == Visits(s, a)
    decreases b - a
  {
    if a < b {
      VisitsSkip(s, a, b - 1);
      assert Visits(s, b - 1) + [] == Visits(s, b - 1);
    }
  }

  lemma StartTrace(s: Store, g: Geometry)
    requires SameBlocks(s, s, g)
    ensures WellFormed(s) && InRange(s) && IsTrace([s], Visits(s, if 0 < |s.inodes| then 1 else 0), g)
    ensures !Wrapped([s]) && Kept(s, s, g, false)
  {
    if 0 < |s.inodes| {
      assert Visits(s, 1) == Visits(s, 0) + FileVisits(s, 0) == [];
    }
  }

  lemma SkipTo(s: Store, t: Store, a: nat, b: nat)
    requires WellFormed(s) && SameInodes(s, t) && (a < b || a == b == 0) && b <= |s.inodes|
    requires forall j :: a < j < b ==> j < |t.inodes| && t.inodes[j].typ != T_FILE
    ensures Visits(s, b) == Visits(s, if a < |s.inodes| then a + 1 else 0)
  {
    if a < b {
      forall j | a + 1 <= j < b ensures s.inodes[j].typ != T_FILE {
        assert t.inodes[j].typ == s.inodes[j].typ;
      }
      VisitsSkip(s, a + 1, b);
    }
  }

  lemma VisitsNext(s: Store, i: nat)
    requires WellFormed(s) && i < |s.inodes|
    ensures Visits(s, i + 1) == Visits(s, i) + FileVisits(s, i)
  {
  }

  lemma {:induction false} VisitsPrefix(s: Store, a: nat, b: nat)
    requires WellFormed(s) && a <= b <= |s.inodes|
    ensures Visits(s, a) <= Visits(s, b)
    decreases b - a
  {
    if a < b {
      VisitsPrefix(s, a, b - 1);
    }
  }

  lemma StuckInFile(s: Store, i: nat, trace: seq<Store>, g: Geometry)
    requires WellFormed(s) && i < |s.inodes| && Stuck(trace, Visits(s, i) + FileVisits(s, i), g)
    ensures Stuck(trace, Visits(s, |s.inodes|), g)
  {
    hide Stuck, Visits, FileVisits, WellFormed;
    VisitsNext(s, i);
    VisitsPrefix(s, i + 1, |s.inodes|);
    StuckLater(trace, Visits(s, i + 1), Visits(s, |s.inodes|), g);
  }

  lemma FinishedPass(s: Store, t: Store, g: Geometry, wrapped: bool)
    requires Kept(s, t, g, wrapped)
    ensures InRange(s)
    ensures Consistent(s, g) && Fits(s) ==>
              Consistent(t, g) && LogicalTotal(t) == LogicalTotal(s) && FreeBlocks(t.used) >= FreeBlocks(s.used)
  {
  }

  /** The loop over the plain files. */
  method DedupFiles(fs: FileSystem) returns (ok: bool, ghost trace: seq<Store>)
    requires Shaped(fs.State(), fs.g)
    modifies fs
    ensures WellFormed(old(fs.State())) && InRange(old(fs.State()))
    ensures ok ==> && |trace| > 0 && trace[0] == old(fs.State()) && trace[|trace| - 1] == fs.State()
                   && Kept(old(fs.State()), fs.State(), fs.g, Wrapped(trace))
                   && IsTrace(trace, Visits(old(fs.State()), |old(fs.inodes)|), fs.g)
    ensures !ok ==> Stuck(trace, Visits(old(fs.State()), |old(fs.inodes)|), fs.g) && trace[0] == old(fs.State())
    ensures !ok && Consistent(old(fs.State()), fs.g) ==> !Fits(old(fs.State())) && Wrapped(trace)
  {
    hide Kept, SameBlocks, Shaped, Fits, Consistent, IsTrace, Wrapped, Treated, Visits, FileVisits, Stuck, Jams, InRange;
    ghost var s := fs.State();
    SameBlocksRefl(s, fs.g);
    StartTrace(s, fs.g);
    trace := [s];
    var nextInum := 0;
    while true
      invariant nextInum < |s.inodes| || nextInum == 0
      invariant SameInodes(s, fs.State()) && |trace| > 0 && trace[0] == s && trace[|trace| - 1] == fs.State()
      invariant Kept(s, fs.State(), fs.g, Wrapped(trace))
      invariant IsTrace(trace, Visits(s, if nextInum < |s.inodes| then nextInum + 1 else 0), fs.g)
      decreases |s.inodes| - nextInum
    {
      var ip1 := GetNextInode(fs, nextInum);
      if ip1.None? { break; }
      SkipTo(s, fs.State(), nextInum, ip1.value);
      ghost var seen := Visits(s, ip1.value);
      nextInum := ip1.value;
      ok, trace := DedupFile(fs, nextInum, s, trace, seen);
      if !ok {
        StuckInFile(s, nextInum, trace, fs.g);
        return;
      }
      VisitsNext(s, nextInum);
    }
    ok := true;
    SkipTo(s, fs.State(), nextInum, |s.inodes|);
  }

  /** The whole pass: one turn for every block position of every plain file, in order. Whatever happens
      to the counts, every file reads the same afterwards. The counts stay exact if and only if no turn
      wraps a reference byte, which cannot happen while no block's bytes occur more than 256 times;
      then nothing panics, the logical total is unchanged and no free block is lost. A panic is the freeing of
      a free block, and comes only after such a turn. */
  method DedupPass(fs: FileSystem) returns (ok: bool, ghost trace: seq<Store>)
    requires Shaped(fs.State(), fs.g)
    modifies fs
    ensures WellFormed(old(fs.State())) && InRange(old(fs.State()))
    ensures ok ==> && |trace| > 0 && trace[0] == old(fs.State()) && trace[|trace| - 1] == fs.State()
                   && IsTrace(trace, Visits(old(fs.State()), |old(fs.inodes)|), fs.g)
    ensures !ok ==> Stuck(trace, Visits(old(fs.State()), |old(fs.inodes)|), fs.g) && trace[0] == old(fs.State())
    ensures !ok && Consistent(old(fs.State()), fs.g) ==> Wrapped(trace)
    ensures ok ==> SameContents(old(fs.State()), fs.State(), fs.g)
    ensures ok && Consistent(old(fs.State()), fs.g) ==> (Consistent(fs.State(), fs.g) <==> !Wrapped(trace))
    ensures Consistent(old(fs.State()), fs.g) && Fits(old(fs.State())) ==>
              && ok && Consistent(fs.State(), fs.g)
              && LogicalTotal(fs.State()) == LogicalTotal(old(fs.State()))
              && FreeBlocks(fs.used) >= FreeBlocks(old(fs.used))
  {
    hide Kept, SameBlocks, Shaped, Fits, Consistent, IsTrace, Wrapped, Visits, SameContents, LogicalTotal, Stuck;
    ghost var s := fs.State();
    ok, trace := DedupFiles(fs);
    if ok {
      PassDone(s, fs.State(), fs.g, Wrapped(trace));
      FinishedPass(s, fs.State(), fs.g, Wrapped(trace));
    }
  }

  /** Every file reads the same, byte for byte, through its direct and indirect pointers. */
  ghost predicate SameContents(s: Store, t: Store, g: Geometry) {
    && SameBlocks(s, t, g)
    && forall j :: 0 <= j < |s.inodes| ==> Content(t, j) == Content(s, j)
  }
}
