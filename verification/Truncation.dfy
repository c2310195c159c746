/**
 What dropping the pointers of one file, one after another, does to bitmap and reference bytes, and when
 it comes to a block it has freed already. The counts may be off.
 */
module Truncation {
  import opened Sharing
  import opened FileStore
  import opened Blocks
  import opened FileOps
  import opened FileWrites

  /** How often block b is among the first n pointers. */
  ghost function Times(p: seq<nat>, b: nat, n: nat): nat
    requires n <= |p|
  {
    if n == 0 then 0 else Times(p, b, n - 1) + if p[n - 1] == b then 1 else 0
  }

  /** Dropping these pointers drops b more often than it is counted. */
  ghost predicate Overdrawn(p: seq<nat>, refs: seq<nat>, b: nat) {
    0 < b < |refs| && Times(p, b, |p|) > refs[b] + 1
  }

  /** Bitmap and bytes after the first n pointers are dropped: a block loses a reference for each, and is
      freed with the last. */
  ghost predicate Drawn(used0: seq<bool>, refs0: seq<nat>, used: seq<bool>, refs: seq<nat>, p: seq<nat>, n: nat)
    requires n <= |p|
  {
    && |used| == |used0| && |refs| == |refs0|
    && (forall b :: 0 < b < |refs0| ==> Times(p, b, n) <= refs0[b] + 1)
    && (forall b :: 0 <= b < |refs0| ==>
          refs[b] == if b == 0 then refs0[0] else if Times(p, b, n) < refs0[b] then refs0[b] - Times(p, b, n) else 0)
    && (forall b :: 0 <= b < |used0| ==>
          used[b] == (used0[b] && !(0 < b < |refs0| && Times(p, b, n) == refs0[b] + 1)))
  }

  lemma DrawnStart(used: seq<bool>, refs: seq<nat>, p: seq<nat>)
    ensures Drawn(used, refs, used, refs, p, 0)
  {
  }

  lemma DrawnNone(used0: seq<bool>, refs0: seq<nat>, used: seq<bool>, refs: seq<nat>, p: seq<nat>, n: nat)
    requires n < |p| && p[n] == 0 && Drawn(used0, refs0, used, refs, p, n)
    ensures Drawn(used0, refs0, used, refs, p, n + 1)
  {
    assert forall b :: 0 < b < |refs0| ==> Times(p, b, n + 1) == Times(p, b, n);
  }

  /** One more pointer. */
  lemma DrawnOne(used0: seq<bool>, refs0: seq<nat>, used: seq<bool>, refs: seq<nat>, p: seq<nat>, n: nat)
    requires n < |p| && 0 < p[n] < |refs0| && p[n] < |used0| && used0[p[n]] && Drawn(used0, refs0, used, refs, p, n)
    ensures refs[p[n]] > 0 ==> Drawn(used0, refs0, used, refs[p[n] := refs[p[n]] - 1], p, n + 1)
    ensures refs[p[n]] == 0 && used[p[n]] ==> Drawn(used0, refs0, used[p[n] := false], refs, p, n + 1)
    ensures refs[p[n]] == 0 && !used[p[n]] ==> Overdrawn(p, refs0, p[n])
  {
    assert forall b :: 0 < b < |refs0| ==> Times(p, b, n + 1) == Times(p, b, n) + if b == p[n] then 1 else 0;
    if refs[p[n]] == 0 && !used[p[n]] {
      TimesGrow(p, p[n], n + 1, |p|);
    }
  }

  lemma {:induction false} TimesGrow(p: seq<nat>, b: nat, n: nat, m: nat)
    requires n <= m <= |p|
    ensures Times(p, b, n) <= Times(p, b, m)
    decreases m
  {
    if n < m {
      TimesGrow(p, b, n, m - 1);
    }
  }

  /** All pointers dropped without a panic: none was overdrawn. */
  lemma DrawnAll(used0: seq<bool>, refs0: seq<nat>, used: seq<bool>, refs: seq<nat>, p: seq<nat>)
    requires Drawn(used0, refs0, used, refs, p, |p|)
    ensures forall b :: !Overdrawn(p, refs0, b)
  {
  }

  lemma {:induction false} TimesNone(p: seq<nat>, b: nat, n: nat)
    requires n <= |p| && forall k :: 0 <= k < n ==> p[k] != b
    ensures Times(p, b, n) == 0
  {
    if n > 0 {
      TimesNone(p, b, n - 1);
    }
  }

  lemma {:induction false} TimesOnce(p: seq<nat>, b: nat, n: nat, k: nat)
    requires k < n <= |p| && p[k] == b
    ensures Times(p, b, n) >= 1
  {
    if k < n - 1 {
      TimesOnce(p, b, n - 1, k);
    }
  }

  lemma {:induction false} TimesTwice(p: seq<nat>, b: nat, n: nat, j: nat, k: nat)
    requires j < k < n <= |p| && p[j] == p[k] == b
    ensures Times(p, b, n) >= 2
  {
    if k < n - 1 {
      TimesTwice(p, b, n - 1, j, k);
    } else {
      TimesOnce(p, b, n - 1, j);
    }
  }

  /** The pointers of file i, in the order itrunc drops them. */
  ghost function FilePtrs(s: Store, i: nat): (p: seq<nat>)
    requires WellFormed(s) && i < |s.inodes|
    ensures |p| == MAXFILE && forall k :: 0 <= k < MAXFILE ==> p[k] == Ptr(s, i, k)
  {
    seq(MAXFILE, k requires 0 <= k < MAXFILE => Ptr(s, i, k))
  }

  ghost predicate TruncPanics(s: Store, i: nat)
    requires WellFormed(s) && i < |s.inodes|
  {
    exists b :: Overdrawn(FilePtrs(s, i), s.refs, b)
  }

  /** Bitmap and bytes after file i is truncated: a block is freed exactly when the file held it as often as
      it was counted, or as its table. */
  ghost predicate Truncated(s: Store, i: nat, used: seq<bool>, refs: seq<nat>)
    requires WellFormed(s) && i < |s.inodes|
  {
    var p, tbl := FilePtrs(s, i), s.inodes[i].addrs[NDIRECT];
    && |used| == |s.used| && |refs| == |s.refs|
    && (forall b :: 0 <= b < |s.refs| ==>
          refs[b] == if b == 0 then s.refs[0] else if Times(p, b, MAXFILE) < s.refs[b] then s.refs[b] - Times(p, b, MAXFILE) else 0)
    && (forall b :: 0 <= b < |s.used| ==>
          (used[b] <==> s.used[b] && (tbl == 0 || b != tbl) && !(0 < b < |s.refs| && Times(p, b, MAXFILE) == s.refs[b] + 1)))
  }

  lemma TruncatedWith(s: Store, i: nat, used: seq<bool>, refs: seq<nat>)
    requires WellFormed(s) && i < |s.inodes| && Drawn(s.used, s.refs, used, refs, FilePtrs(s, i), MAXFILE)
    requires s.inodes[i].addrs[NDIRECT] < |used|
    ensures var tbl := s.inodes[i].addrs[NDIRECT]; Truncated(s, i, if tbl == 0 then used else used[tbl := false], refs)
    ensures !TruncPanics(s, i)
  {
    DrawnAll(s.used, s.refs, used, refs, FilePtrs(s, i));
  }

  /** Without a table the positions behind the direct ones are empty. */
  lemma NoTableDrawn(s: Store, i: nat, used: seq<bool>, refs: seq<nat>)
    requires WellFormed(s) && i < |s.inodes| && s.inodes[i].addrs[NDIRECT] == 0
    requires Drawn(s.used, s.refs, used, refs, FilePtrs(s, i), NDIRECT)
    ensures Drawn(s.used, s.refs, used, refs, FilePtrs(s, i), MAXFILE)
  {
    for n := NDIRECT to MAXFILE
      invariant Drawn(s.used, s.refs, used, refs, FilePtrs(s, i), n)
    {
      DrawnNone(s.used, s.refs, used, refs, FilePtrs(s, i), n);
    }
  }

  /** The table is not among the pointers, so it is still in use when they are dropped. */
  lemma TableLeft(s: Store, g: Geometry, i: nat, used: seq<bool>, refs: seq<nat>)
    requires SoundStore(s, g) && i < |s.inodes| && s.inodes[i].addrs[NDIRECT] != 0
    requires Drawn(s.used, s.refs, used, refs, FilePtrs(s, i), MAXFILE)
    ensures var tbl := s.inodes[i].addrs[NDIRECT]; tbl < |used| && used[tbl]
  {
    var p, tbl := FilePtrs(s, i), s.inodes[i].addrs[NDIRECT];
    assert ViewOf(s).tbls[i] == tbl;
    forall k | 0 <= k < MAXFILE ensures p[k] != tbl {
      assert ViewOf(s).ptrs[i][k] == p[k];
    }
    TimesNone(p, tbl, MAXFILE);
  }

  lemma SoundUsed(s: Store, g: Geometry, i: nat)
    requires SoundStore(s, g) && i < |s.inodes|
    ensures s.inodes[i].addrs[NDIRECT] < |s.used|
  {
    assert ViewOf(s).tbls[i] == s.inodes[i].addrs[NDIRECT];
  }

  lemma PtrInUse(s: Store, g: Geometry, i: nat, k: nat)
    requires SoundStore(s, g) && i < |s.inodes| && k < MAXFILE && Ptr(s, i, k) != 0
    ensures Ptr(s, i, k) < |s.refs| && Ptr(s, i, k) < |s.used| && s.used[Ptr(s, i, k)]
  {
    assert ViewOf(s).ptrs[i][k] == Ptr(s, i, k);
  }

  /** What an unsafe write leaves is such a file. */
  lemma DoublePanics(s: Store, i: nat)
    requires WellFormed(s) && i < |s.inodes| && HasDouble(s, i)
    ensures TruncPanics(s, i)
  {
    var a: nat, b: nat :| Doubled(s, i, a, b);
    var p := FilePtrs(s, i);
    TimesTwice(p, p[a], |p|, a, b);
    assert Overdrawn(p, s.refs, p[a]);
  }

  /** The positions of file i among the first n that point at b. */
  ghost function Here(i: nat, p: seq<nat>, b: nat, n: nat): set<(nat, nat)>
    requires n <= |p|
  {
    set k | 0 <= k < n && p[k] == b :: (i, k)
  }

  lemma {:induction false} TimesIsHere(i: nat, p: seq<nat>, b: nat, n: nat)
    requires n <= |p|
    ensures Times(p, b, n) == |Here(i, p, b, n)|
  {
    if n > 0 {
      TimesIsHere(i, p, b, n - 1);
      var h := Here(i, p, b, n - 1);
      assert Here(i, p, b, n) == if p[n - 1] == b then h + {(i, n - 1)} else h;
    } else {
      assert Here(i, p, b, n) == {};
    }
  }

  /** Exact counts are never overdrawn. */
  lemma ConsistentTruncates(s: Store, g: Geometry, i: nat)
    requires Consistent(s, g) && i < |s.inodes|
    ensures !TruncPanics(s, i)
  {
    var p, v := FilePtrs(s, i), ViewOf(s);
    if b :| Overdrawn(p, s.refs, b) {
      TimesIsHere(i, p, b, |p|);
      assert forall k :: 0 <= k < MAXFILE ==> v.ptrs[i][k] == p[k];
      assert Here(i, p, b, |p|) <= PtrSet(v.ptrs, b);
      assert PtrSet(v.ptrs, b) == Here(i, p, b, |p|) + (PtrSet(v.ptrs, b) - Here(i, p, b, |p|));
      var h :| h in Here(i, p, b, |p|);
      Pointed(v, g, i, h.1);
    }
  }

  /** After a write the truncation of the file panics if and only if the write was unsafe. */
  lemma UnsafeWritePanics(s: Store, t: Store, g: Geometry, i: nat, off: nat, src: seq<Byte>)
    requires WroteFile(s, t, g, i, off, src)
    ensures TruncPanics(t, i) <==> !WriteSafe(s, i, off, |src|)
  {
    hide TruncPanics, HasDouble, BytesWritten, Flat, Inv;
    if WriteSafe(s, i, off, |src|) {
      ConsistentTruncates(t, g, i);
    } else {
      DoublePanics(t, i);
    }
  }
}
