/**
 The bookkeeping behind block sharing: which file positions point at which disk block, the
 allocation bitmap, and the table of extra references (one byte a block).

 Everything here is about the pointers alone; FileStore.dfy puts the bytes underneath.
 */
module Sharing {

  const NDIRECT := 12
  const NINDIRECT := 128
  const MAXFILE := NDIRECT + NINDIRECT
  /** Number of reference-count bytes: two blocks of 512. */
  const NREFS := 1024
  /** Largest value of a reference-count byte. */
  const MAXREF := 255

  /** Blocks below `first` hold metadata; files get blocks below `limit`. With `limit == size` that is every
      block balloc can hand out; with the start of the log as `limit` a store stops before its files reach it. */
  datatype Geometry = Geometry(first: nat, limit: nat, size: nat)

  ghost predicate GeometryOk(g: Geometry) {
    0 < g.first <= g.limit <= g.size && g.limit <= NREFS
  }

  /** `ptrs[i][k]` is the block behind logical block k of inode i (0 when absent),
      `tbls[i]` the block holding inode i's indirect table (0 when absent). */
  datatype View = View(used: seq<bool>, refs: seq<nat>, ptrs: seq<seq<nat>>, tbls: seq<nat>)

  /** All file positions that point at block b. */
  ghost function PtrSet(ptrs: seq<seq<nat>>, b: nat): set<(nat, nat)> {
    set i, k | 0 <= i < |ptrs| && 0 <= k < |ptrs[i]| && ptrs[i][k] == b :: (i, k)
  }

  ghost predicate IsTable(tbls: seq<nat>, b: nat) {
    exists i :: 0 <= i < |tbls| && tbls[i] == b
  }

  /** Index ranges, and tables that are shared with nothing. */
  ghost predicate Shape(v: View, g: Geometry) {
    && |v.used| == g.size
    && |v.refs| == NREFS
    && |v.ptrs| == |v.tbls|
    && (forall b :: 0 <= b < g.first && b < |v.used| ==> v.used[b])
    && (forall b :: 0 <= b < NREFS ==> v.refs[b] <= MAXREF)
    && (forall i :: 0 <= i < |v.ptrs| ==> |v.ptrs[i]| == MAXFILE)
    && (forall i, k :: 0 <= i < |v.ptrs| && 0 <= k < MAXFILE ==> v.ptrs[i][k] == 0 || g.first <= v.ptrs[i][k] < g.limit)
    && (forall i :: 0 <= i < |v.tbls| ==> v.tbls[i] == 0 || g.first <= v.tbls[i] < g.limit)
    && (forall i, k :: 0 <= i < |v.ptrs| && NDIRECT <= k < MAXFILE && v.tbls[i] == 0 ==> v.ptrs[i][k] == 0)
    && (forall i, j :: 0 <= i < |v.tbls| && 0 <= j < |v.tbls| && i != j && v.tbls[i] != 0 ==> v.tbls[i] != v.tbls[j])
    && (forall i, j, k :: 0 <= i < |v.tbls| && 0 <= j < |v.ptrs| && 0 <= k < MAXFILE && v.tbls[i] != 0 ==>
          v.ptrs[j][k] != v.tbls[i])
  }

  /** A table block carries no extra reference; a data block in use has one pointer more than its
      reference byte says; a free block has neither pointers nor references. */
  ghost predicate BlockOk(v: View, b: nat)
    requires b < |v.used| && b < |v.refs|
  {
    if IsTable(v.tbls, b) then v.used[b] && v.refs[b] == 0
    else if v.used[b] then |PtrSet(v.ptrs, b)| == v.refs[b] + 1
    else PtrSet(v.ptrs, b) == {} && v.refs[b] == 0
  }

  ghost predicate Counts(v: View, g: Geometry)
    requires GeometryOk(g) && Shape(v, g)
  {
    forall b :: g.first <= b < g.limit ==> BlockOk(v, b)
  }

  /** The pointer-count invariant of the whole store. */
  ghost predicate Inv(v: View, g: Geometry) {
    GeometryOk(g) && Shape(v, g) && Counts(v, g)
  }

  /** Every block that is pointed at is in use. Weaker than Inv: the counts may be off. */
  ghost predicate Sound(v: View, g: Geometry) {
    && GeometryOk(g) && Shape(v, g)
    && (forall i, k :: 0 <= i < |v.ptrs| && 0 <= k < MAXFILE && v.ptrs[i][k] != 0 ==> v.used[v.ptrs[i][k]])
    && (forall i :: 0 <= i < |v.tbls| && v.tbls[i] != 0 ==> v.used[v.tbls[i]])
  }

  function SetPtr(ptrs: seq<seq<nat>>, i: nat, k: nat, b: nat): seq<seq<nat>>
    requires i < |ptrs| && k < |ptrs[i]|
  {
    var row: seq<nat> := ptrs[i][k := b];
    ptrs[i := row]
  }

  // ---- pointer sets under a single pointer update ----

  lemma PtrSetMember(ptrs: seq<seq<nat>>, b: nat, i: nat, k: nat)
    requires i < |ptrs| && k < |ptrs[i]|
    ensures (i, k) in PtrSet(ptrs, b) <==> ptrs[i][k] == b
  {
  }

  /** The pointer set of b after position (i, k) is redirected to y. */
  ghost function UpdatedPtrSet(ptrs: seq<seq<nat>>, i: nat, k: nat, y: nat, b: nat): set<(nat, nat)>
    requires i < |ptrs| && k < |ptrs[i]|
  {
    if b == y then PtrSet(ptrs, b) + {(i, k)}
    else if b == ptrs[i][k] then PtrSet(ptrs, b) - {(i, k)} else PtrSet(ptrs, b)
  }

  lemma PtrSetUpdateSet(ptrs: seq<seq<nat>>, i: nat, k: nat, y: nat, b: nat)
    requires i < |ptrs| && k < |ptrs[i]| && ptrs[i][k] != y
    ensures PtrSet(SetPtr(ptrs, i, k, y), b) == UpdatedPtrSet(ptrs, i, k, y, b)
  {
    var q := SetPtr(ptrs, i, k, y);
    assert |q| == |ptrs|;
    forall j: nat, m: nat
      ensures (j, m) in PtrSet(q, b) <==> (j, m) in UpdatedPtrSet(ptrs, i, k, y, b)
    {
      if j < |q| && m < |q[j]| {
        assert |q[j]| == |ptrs[j]|;
        PtrSetMember(q, b, j, m);
        PtrSetMember(ptrs, b, j, m);
        assert q[j][m] == if j == i && m == k then y else ptrs[j][m];
      }
    }
    forall p: (nat, nat)
      ensures p in PtrSet(q, b) <==> p in UpdatedPtrSet(ptrs, i, k, y, b)
    {
      assert p == (p.0, p.1);
    }
  }

  lemma PtrSetUpdate(ptrs: seq<seq<nat>>, i: nat, k: nat, y: nat, b: nat)
    requires i < |ptrs| && k < |ptrs[i]| && ptrs[i][k] != y
    ensures PtrSet(SetPtr(ptrs, i, k, y), b) == UpdatedPtrSet(ptrs, i, k, y, b)
    ensures b == y ==> |PtrSet(SetPtr(ptrs, i, k, y), b)| == |PtrSet(ptrs, b)| + 1
    ensures b == ptrs[i][k] ==> |PtrSet(SetPtr(ptrs, i, k, y), b)| == |PtrSet(ptrs, b)| - 1
  {
    PtrSetUpdateSet(ptrs, i, k, y, b);
    PtrSetMember(ptrs, b, i, k);
  }

  // ---- the operations on pointers ----

  /** file.c deletedups: position (i, k) is redirected to block y. The reference byte is bumped
      modulo 256, the old block loses a reference or is freed. */
  function Merge(v: View, i: nat, k: nat, y: nat): View
    requires i < |v.ptrs| && k < |v.ptrs[i]| && y < |v.refs|
    requires v.ptrs[i][k] < |v.refs| && v.ptrs[i][k] < |v.used|
  {
    var x := v.ptrs[i][k];
    var bumped := v.refs[y := (v.refs[y] + 1) % 256];
    var moved := SetPtr(v.ptrs, i, k, y);
    if bumped[x] > 0 then v.(refs := bumped[x := bumped[x] - 1], ptrs := moved)
    else v.(used := v.used[x := false], refs := bumped, ptrs := moved)
  }

  /** fs.c itrunc, one pointer: drop a reference or free the block. */
  function Drop(v: View, i: nat, k: nat): View
    requires i < |v.ptrs| && k < |v.ptrs[i]|
    requires v.ptrs[i][k] < |v.refs| && v.ptrs[i][k] < |v.used|
  {
    var x := v.ptrs[i][k];
    var cleared := SetPtr(v.ptrs, i, k, 0);
    if v.refs[x] > 0 then v.(refs := v.refs[x := v.refs[x] - 1], ptrs := cleared)
    else v.(used := v.used[x := false], ptrs := cleared)
  }

  /** fs.c itrunc, the indirect table itself. */
  function DropTable(v: View, i: nat): View
    requires i < |v.tbls| && v.tbls[i] < |v.used|
  {
    v.(used := v.used[v.tbls[i] := false], tbls := v.tbls[i := 0])
  }

  /** fs.c bmap: a fresh block for an empty position. */
  function AddData(v: View, i: nat, k: nat, b: nat): View
    requires i < |v.ptrs| && k < |v.ptrs[i]| && b < |v.used|
  {
    v.(used := v.used[b := true], ptrs := SetPtr(v.ptrs, i, k, b))
  }

  /** fs.c bmap: a fresh block for the indirect table. */
  function AddTable(v: View, i: nat, b: nat): View
    requires i < |v.tbls| && b < |v.used|
  {
    v.(used := v.used[b := true], tbls := v.tbls[i := b])
  }

  /** Every occurrence of `old` in one file's pointers becomes `new_` (fs.c replaceBlk). */
  function Redirect(p: seq<nat>, old_: nat, new_: nat): (q: seq<nat>)
    ensures |q| == |p|
    ensures forall k :: 0 <= k < |p| ==> q[k] == if p[k] == old_ then new_ else p[k]
  {
    seq(|p|, k requires 0 <= k < |p| => if p[k] == old_ then new_ else p[k])
  }

  /** fs.c writei, copy on write: one reference dropped, all occurrences redirected. */
  function Cow(v: View, i: nat, old_: nat, new_: nat): View
    requires i < |v.ptrs| && old_ < |v.refs| && v.refs[old_] > 0 && new_ < |v.used|
  {
    v.(used := v.used[new_ := true], refs := v.refs[old_ := v.refs[old_] - 1],
       ptrs := v.ptrs[i := Redirect(v.ptrs[i], old_, new_)])
  }

  /** Position k is the only place where inode i points at its block. */
  ghost predicate PointsOnce(v: View, i: nat, k: nat)
    requires i < |v.ptrs| && k < |v.ptrs[i]|
  {
    forall m :: 0 <= m < |v.ptrs[i]| && m != k ==> v.ptrs[i][m] != v.ptrs[i][k]
  }

  // ---- what the operations keep ----

  /** A block some position points at is no table, is in use, and has refs + 1 pointers. */
  lemma Pointed(v: View, g: Geometry, i: nat, k: nat)
    requires Inv(v, g) && i < |v.ptrs| && k < MAXFILE && v.ptrs[i][k] != 0
    ensures g.first <= v.ptrs[i][k] < g.limit
    ensures !IsTable(v.tbls, v.ptrs[i][k])
    ensures v.used[v.ptrs[i][k]]
    ensures |PtrSet(v.ptrs, v.ptrs[i][k])| == v.refs[v.ptrs[i][k]] + 1
  {
    var x := v.ptrs[i][k];
    PtrSetMember(v.ptrs, x, i, k);
    assert BlockOk(v, x);
  }

  /** Without extra references a block has a single owner. */
  lemma SoleOwner(v: View, g: Geometry, i: nat, k: nat, j: nat, m: nat)
    requires Inv(v, g) && i < |v.ptrs| && k < MAXFILE && v.ptrs[i][k] != 0
    requires v.refs[v.ptrs[i][k]] == 0
    requires j < |v.ptrs| && m < MAXFILE && v.ptrs[j][m] == v.ptrs[i][k]
    ensures i == j && k == m
  {
    Pointed(v, g, i, k);
    var s := PtrSet(v.ptrs, v.ptrs[i][k]);
    PtrSetMember(v.ptrs, v.ptrs[i][k], i, k);
    PtrSetMember(v.ptrs, v.ptrs[i][k], j, m);
    assert |s - {(i, k)}| == 0;
    assert (j, m) in s;
  }

  lemma InvIsSound(v: View, g: Geometry)
    requires Inv(v, g)
    ensures Sound(v, g)
  {
    forall i, k | 0 <= i < |v.ptrs| && 0 <= k < MAXFILE && v.ptrs[i][k] != 0 ensures v.used[v.ptrs[i][k]] {
      Pointed(v, g, i, k);
    }
    forall i | 0 <= i < |v.tbls| && v.tbls[i] != 0 ensures v.used[v.tbls[i]] {
      assert BlockOk(v, v.tbls[i]);
    }
  }

  lemma MergeShape(v: View, g: Geometry, i: nat, k: nat, j: nat, m: nat)
    requires GeometryOk(g) && Shape(v, g)
    requires i < |v.ptrs| && k < MAXFILE && j < |v.ptrs| && m < MAXFILE
    requires v.ptrs[i][k] != 0 && v.ptrs[j][m] != 0
    ensures Shape(Merge(v, i, k, v.ptrs[j][m]), g)
  {
    var w := Merge(v, i, k, v.ptrs[j][m]);
    assert forall a, c :: 0 <= a < |w.ptrs| && 0 <= c < MAXFILE ==>
        w.ptrs[a][c] == if a == i && c == k then v.ptrs[j][m] else v.ptrs[a][c];
  }

  /** Block b is in use by file positions, refs + 1 of them. */
  ghost predicate DataBlock(v: View, b: nat) {
    b < |v.used| && b < |v.refs| && v.used[b] && !IsTable(v.tbls, b) && |PtrSet(v.ptrs, b)| == v.refs[b] + 1
  }

  /** One block after a merge into y: only y itself can go wrong, and only by overflow. */
  lemma MergeBlockOk(v: View, i: nat, k: nat, y: nat, b: nat)
    requires i < |v.ptrs| && k < |v.ptrs[i]| && v.ptrs[i][k] != y
    requires DataBlock(v, v.ptrs[i][k]) && DataBlock(v, y) && v.refs[y] <= MAXREF
    requires b < |v.used| && b < |v.refs| && BlockOk(v, b)
    ensures BlockOk(Merge(v, i, k, y), b) <==> b != y || v.refs[y] < MAXREF
  {
    PtrSetUpdate(v.ptrs, i, k, y, b);
  }

  /** A merge keeps the pointer counts exactly when the byte it bumps is not already full. */
  lemma MergeKeepsCounts(v: View, g: Geometry, i: nat, k: nat, j: nat, m: nat)
    requires Inv(v, g)
    requires i < |v.ptrs| && k < MAXFILE && j < |v.ptrs| && m < MAXFILE
    requires v.ptrs[i][k] != 0 && v.ptrs[j][m] != 0 && v.ptrs[i][k] != v.ptrs[j][m]
    ensures Inv(Merge(v, i, k, v.ptrs[j][m]), g) <==> v.refs[v.ptrs[j][m]] < MAXREF
    ensures v.used[v.ptrs[i][k]]
  {
    var y := v.ptrs[j][m];
    MergeShape(v, g, i, k, j, m);
    Pointed(v, g, i, k);
    Pointed(v, g, j, m);
    forall b | g.first <= b < g.limit
      ensures BlockOk(Merge(v, i, k, y), b) <==> b != y || v.refs[y] < MAXREF
    {
      assert BlockOk(v, b);
      MergeBlockOk(v, i, k, y, b);
    }
    assert BlockOk(Merge(v, i, k, y), y) <==> v.refs[y] < MAXREF;
  }

  /** A block whose reference byte has wrapped: far more pointers than references. */
  ghost predicate Overrun(v: View, g: Geometry, b: nat) {
    && g.first <= b < g.limit && b < |v.refs| && b < |v.used| && !IsTable(v.tbls, b)
    && |PtrSet(v.ptrs, b)| >= v.refs[b] + (if v.used[b] then 257 else 256)
  }

  lemma OverrunNotOk(v: View, g: Geometry, b: nat)
    requires Overrun(v, g, b)
    ensures !BlockOk(v, b)
  {
  }

  /** Bumping a full byte overruns its block ... */
  lemma MergeOverruns(v: View, g: Geometry, i: nat, k: nat, j: nat, m: nat)
    requires Inv(v, g)
    requires i < |v.ptrs| && k < MAXFILE && j < |v.ptrs| && m < MAXFILE
    requires v.ptrs[i][k] != 0 && v.ptrs[j][m] != 0 && v.ptrs[i][k] != v.ptrs[j][m]
    requires v.refs[v.ptrs[j][m]] == MAXREF
    ensures Overrun(Merge(v, i, k, v.ptrs[j][m]), g, v.ptrs[j][m])
  {
    Pointed(v, g, j, m);
    PtrSetUpdate(v.ptrs, i, k, v.ptrs[j][m], v.ptrs[j][m]);
  }

  /** ... and no later merge mends it, short of the panic on freeing a free block. */
  lemma OverrunStays(v: View, g: Geometry, i: nat, k: nat, y: nat, b: nat)
    requires Overrun(v, g, b) && i < |v.ptrs| && k < |v.ptrs[i]| && v.ptrs[i][k] != y && y < |v.refs|
    requires v.ptrs[i][k] < |v.refs| && v.ptrs[i][k] < |v.used|
    requires v.refs[v.ptrs[i][k]] > 0 || v.used[v.ptrs[i][k]]
    ensures Overrun(Merge(v, i, k, y), g, b)
  {
    PtrSetUpdate(v.ptrs, i, k, y, b);
  }

  lemma DropBlockOk(v: View, i: nat, k: nat, b: nat)
    requires i < |v.ptrs| && k < |v.ptrs[i]| && v.ptrs[i][k] != 0 && b != 0
    requires DataBlock(v, v.ptrs[i][k])
    requires b < |v.used| && b < |v.refs| && BlockOk(v, b)
    ensures BlockOk(Drop(v, i, k), b)
  {
    PtrSetUpdate(v.ptrs, i, k, 0, b);
  }

  lemma DropKeepsInv(v: View, g: Geometry, i: nat, k: nat)
    requires Inv(v, g) && i < |v.ptrs| && k < MAXFILE && v.ptrs[i][k] != 0
    ensures Inv(Drop(v, i, k), g)
    ensures v.used[v.ptrs[i][k]]
  {
    var w := Drop(v, i, k);
    Pointed(v, g, i, k);
    assert forall a, c :: 0 <= a < |w.ptrs| && 0 <= c < MAXFILE ==>
        w.ptrs[a][c] == if a == i && c == k then 0 else v.ptrs[a][c];
    forall b | g.first <= b < g.limit ensures BlockOk(w, b) {
      assert BlockOk(v, b);
      DropBlockOk(v, i, k, b);
    }
  }

  lemma DropTableKeepsInv(v: View, g: Geometry, i: nat)
    requires Inv(v, g) && i < |v.tbls| && v.tbls[i] != 0
    requires forall k :: NDIRECT <= k < MAXFILE ==> v.ptrs[i][k] == 0
    ensures v.tbls[i] < |v.used| && v.used[v.tbls[i]]
    ensures Inv(DropTable(v, i), g)
  {
    var w := DropTable(v, i);
    var t := v.tbls[i];
    assert BlockOk(v, t);
    forall b | g.first <= b < g.limit ensures BlockOk(w, b) {
      assert BlockOk(v, b);
      if b == t {
        assert !IsTable(w.tbls, b);
        assert PtrSet(w.ptrs, b) == {};
      } else {
        assert IsTable(v.tbls, b) <==> IsTable(w.tbls, b) by {
          if IsTable(v.tbls, b) {
            var j :| 0 <= j < |v.tbls| && v.tbls[j] == b;
            assert w.tbls[j] == b;
          }
        }
      }
    }
  }

  lemma AddDataKeepsInv(v: View, g: Geometry, i: nat, k: nat, b: nat)
    requires Inv(v, g) && i < |v.ptrs| && k < MAXFILE && v.ptrs[i][k] == 0
    requires g.first <= b < g.limit && !v.used[b]
    requires k >= NDIRECT ==> v.tbls[i] != 0
    ensures Inv(AddData(v, i, k, b), g)
  {
    var w := AddData(v, i, k, b);
    assert BlockOk(v, b);
    assert forall a, c :: 0 <= a < |w.ptrs| && 0 <= c < MAXFILE ==>
        w.ptrs[a][c] == if a == i && c == k then b else v.ptrs[a][c];
    InvIsSound(v, g);
    AddDataSound(v, g, i, k, b);
    forall c | g.first <= c < g.limit ensures BlockOk(w, c) {
      PtrSetUpdate(v.ptrs, i, k, b, c);
      assert BlockOk(v, c);
    }
  }

  lemma AddTableKeepsInv(v: View, g: Geometry, i: nat, b: nat)
    requires Inv(v, g) && i < |v.tbls| && v.tbls[i] == 0
    requires g.first <= b < g.limit && !v.used[b]
    ensures Inv(AddTable(v, i, b), g)
  {
    var w := AddTable(v, i, b);
    assert BlockOk(v, b);
    InvIsSound(v, g);
    AddTableSound(v, g, i, b);
    forall c | g.first <= c < g.limit ensures BlockOk(w, c) {
      assert BlockOk(v, c);
      if c == b {
        assert w.tbls[i] == b;
      } else {
        assert IsTable(v.tbls, c) <==> IsTable(w.tbls, c) by {
          if IsTable(v.tbls, c) {
            var j :| 0 <= j < |v.tbls| && v.tbls[j] == c;
            assert w.tbls[j] == c;
          }
        }
      }
    }
  }

  lemma AddDataSound(v: View, g: Geometry, i: nat, k: nat, b: nat)
    requires Sound(v, g) && i < |v.ptrs| && k < MAXFILE && v.ptrs[i][k] == 0
    requires g.first <= b < g.limit && !v.used[b]
    requires k >= NDIRECT ==> v.tbls[i] != 0
    ensures Sound(AddData(v, i, k, b), g)
  {
    var w := AddData(v, i, k, b);
    assert forall a, c :: 0 <= a < |w.ptrs| && 0 <= c < MAXFILE ==>
        w.ptrs[a][c] == if a == i && c == k then b else v.ptrs[a][c];
  }

  lemma AddTableSound(v: View, g: Geometry, i: nat, b: nat)
    requires Sound(v, g) && i < |v.tbls| && v.tbls[i] == 0
    requires g.first <= b < g.limit && !v.used[b]
    ensures Sound(AddTable(v, i, b), g)
  {
  }

  lemma CowSound(v: View, g: Geometry, i: nat, k: nat, b: nat)
    requires Sound(v, g) && i < |v.ptrs| && k < MAXFILE && v.ptrs[i][k] != 0
    requires v.refs[v.ptrs[i][k]] > 0
    requires g.first <= b < g.limit && !v.used[b]
    ensures Sound(Cow(v, i, v.ptrs[i][k], b), g)
  {
  }

  lemma CowOnce(v: View, i: nat, k: nat, b: nat)
    requires i < |v.ptrs| && k < |v.ptrs[i]| && PointsOnce(v, i, k)
    ensures v.ptrs[i := Redirect(v.ptrs[i], v.ptrs[i][k], b)] == SetPtr(v.ptrs, i, k, b)
  {
    assert Redirect(v.ptrs[i], v.ptrs[i][k], b) == v.ptrs[i][k := b];
  }

  lemma CowBlockOk(v: View, i: nat, k: nat, b: nat, c: nat)
    requires i < |v.ptrs| && k < |v.ptrs[i]| && PointsOnce(v, i, k) && v.ptrs[i][k] != b
    requires DataBlock(v, v.ptrs[i][k]) && v.refs[v.ptrs[i][k]] > 0
    requires b < |v.used| && b < |v.refs| && !v.used[b] && BlockOk(v, b)
    requires c < |v.used| && c < |v.refs| && BlockOk(v, c)
    ensures BlockOk(Cow(v, i, v.ptrs[i][k], b), c)
  {
    CowOnce(v, i, k, b);
    PtrSetUpdate(v.ptrs, i, k, b, c);
  }

  /** Redirecting two positions while dropping one reference leaves the new block miscounted. */
  lemma CowTwice(v: View, g: Geometry, i: nat, k: nat, b: nat)
    requires i < |v.ptrs| && k < |v.ptrs[i]| && !PointsOnce(v, i, k)
    requires v.ptrs[i][k] < |v.refs| && v.refs[v.ptrs[i][k]] > 0 && b < |v.used| && b < |v.refs|
    requires v.refs[b] == 0 && b != v.ptrs[i][k] && !IsTable(v.tbls, b)
    ensures !BlockOk(Cow(v, i, v.ptrs[i][k], b), b)
  {
    var w := Cow(v, i, v.ptrs[i][k], b);
    var m :| 0 <= m < |v.ptrs[i]| && m != k && v.ptrs[i][m] == v.ptrs[i][k];
    PtrSetMember(w.ptrs, b, i, k);
    PtrSetMember(w.ptrs, b, i, m);
    SubsetCard({(i, k), (i, m)}, PtrSet(w.ptrs, b));
  }

  /** Redirecting two positions takes two pointers, and the last one of file i, from the old block. */
  lemma CowDropsTwo(v: View, i: nat, k: nat, b: nat)
    requires i < |v.ptrs| && k < |v.ptrs[i]| && !PointsOnce(v, i, k)
    requires v.ptrs[i][k] < |v.refs| && v.refs[v.ptrs[i][k]] > 0 && b < |v.used| && b != v.ptrs[i][k]
    ensures |PtrSet(Cow(v, i, v.ptrs[i][k], b).ptrs, v.ptrs[i][k])| + 2 <= |PtrSet(v.ptrs, v.ptrs[i][k])|
    ensures forall c :: 0 <= c < |v.ptrs[i]| ==> Cow(v, i, v.ptrs[i][k], b).ptrs[i][c] != v.ptrs[i][k]
  {
    var p := v.ptrs[i][k];
    var m :| 0 <= m < |v.ptrs[i]| && m != k && v.ptrs[i][m] == p;
    var before, after := PtrSet(v.ptrs, p), PtrSet(Cow(v, i, p, b).ptrs, p);
    assert after <= before - {(i, k)} - {(i, m)};
    PtrSetMember(v.ptrs, p, i, k);
    PtrSetMember(v.ptrs, p, i, m);
    SubsetCard(after, before - {(i, k)} - {(i, m)});
  }

  /** Copy on write keeps the pointer counts exactly when the file points at the block once. */
  lemma CowKeepsCounts(v: View, g: Geometry, i: nat, k: nat, b: nat)
    requires Inv(v, g) && i < |v.ptrs| && k < MAXFILE && v.ptrs[i][k] != 0
    requires v.refs[v.ptrs[i][k]] > 0
    requires g.first <= b < g.limit && !v.used[b]
    ensures Inv(Cow(v, i, v.ptrs[i][k], b), g) <==> PointsOnce(v, i, k)
  {
    InvIsSound(v, g);
    CowSound(v, g, i, k, b);
    assert BlockOk(v, b);
    Pointed(v, g, i, k);
    if PointsOnce(v, i, k) {
      forall c | g.first <= c < g.limit ensures BlockOk(Cow(v, i, v.ptrs[i][k], b), c) {
        assert BlockOk(v, c);
        CowBlockOk(v, i, k, b, c);
      }
    } else {
      CowTwice(v, g, i, k, b);
    }
  }

  lemma SubsetCard<T>(a: set<T>, b: set<T>)
    requires a <= b
    ensures |a| <= |b|
  {
    assert |b| == |a| + |b - a| by { assert b == a + (b - a); }
  }
}
