/**
 What a write means, byte for byte: which bytes of the file change, also when the file holds a block
 at several positions, and when the reference bytes stay exact.
 */
module FileWrites {
  import opened Sharing
  import opened Blocks
  import opened FileStore
  import opened FileOps

  /** f with src laid over it from off on. */
  function Splice(f: seq<Byte>, off: nat, src: seq<Byte>): (r: seq<Byte>)
    requires off + |src| <= |f|
    ensures |r| == |f|
    ensures forall j :: 0 <= j < |f| ==> r[j] == if off <= j < off + |src| then src[j - off] else f[j]
  {
    f[..off] + src + f[off + |src|..]
  }

  function Min(a: nat, b: nat): nat { if a < b then a else b }

  /** Every block a write of n bytes at off touches may be written without damage. */
  ghost predicate WriteSafe(s: Store, i: nat, off: nat, n: nat)
    requires WellFormed(s) && i < |s.inodes| && off + n <= MAXFILE * BSIZE
    requires forall k :: 0 <= k < MAXFILE ==> Ptr(s, i, k) < |s.refs|
  {
    n > 0 ==> forall k :: 0 <= k < MAXFILE && off / BSIZE <= k && k * BSIZE < off + n ==> SafeAt(s, i, k)
  }

  // ---- every byte of the file ----

  /** Byte j of file i lies behind the same block byte as a byte of position k that has been written. */
  ghost predicate Hits(s: Store, i: nat, off: nat, n: nat, j: nat, k: nat)
    requires WellFormed(s) && i < |s.inodes| && j < MAXFILE * BSIZE && k < MAXFILE
  {
    Alias(s, i, j / BSIZE, k) && off <= k * BSIZE + j % BSIZE < off + n
  }

  /** The last such position: blocks are written in ascending order. */
  ghost predicate LastHit(s: Store, i: nat, off: nat, n: nat, j: nat, k: nat)
    requires WellFormed(s) && i < |s.inodes| && j < MAXFILE * BSIZE && k < MAXFILE
  {
    Hits(s, i, off, n, j, k) && forall c :: k < c < MAXFILE ==> !Hits(s, i, off, n, j, c)
  }

  ghost predicate Untouched(s: Store, i: nat, off: nat, n: nat, j: nat)
    requires WellFormed(s) && i < |s.inodes| && j < MAXFILE * BSIZE
  {
    forall k :: 0 <= k < MAXFILE ==> !Hits(s, i, off, n, j, k)
  }

  /** Byte j after the first n bytes of src have been written at off. */
  ghost predicate ByteWritten(s: Store, f: seq<Byte>, i: nat, off: nat, src: seq<Byte>, n: nat, j: nat)
    requires WellFormed(s) && InRange(s) && i < |s.inodes| && j < MAXFILE * BSIZE == |f| && n <= |src|
  {
    && (Untouched(s, i, off, n, j) ==> f[j] == Flat(s, i)[j])
    && (forall k :: 0 <= k < MAXFILE && LastHit(s, i, off, n, j, k) ==> f[j] == src[k * BSIZE + j % BSIZE - off])
  }

  ghost predicate BytesWritten(s: Store, f: seq<Byte>, i: nat, off: nat, src: seq<Byte>, n: nat)
    requires WellFormed(s) && InRange(s) && i < |s.inodes| && |f| == MAXFILE * BSIZE && n <= |src|
  {
    forall j :: 0 <= j < MAXFILE * BSIZE ==> ByteWritten(s, f, i, off, src, n, j)
  }

  /** Where block arithmetic puts the chunk of one iteration. */
  lemma ChunkPlace(off: nat, tot: nat, c: nat, k: nat, r: nat)
    requires (off + tot) % BSIZE + c <= BSIZE && r < BSIZE
    ensures var o := off + tot;
            off + tot <= k * BSIZE + r < off + tot + c <==> k == o / BSIZE && o % BSIZE <= r < o % BSIZE + c
  {
    var o := off + tot;
    assert o == o / BSIZE * BSIZE + o % BSIZE;
    if k < o / BSIZE {
      assert k * BSIZE + BSIZE <= o / BSIZE * BSIZE;
    } else if k > o / BSIZE {
      assert k * BSIZE >= o / BSIZE * BSIZE + BSIZE;
    }
  }

  /** A byte behind the chunk written now. */
  lemma ByteHit(s: Store, f: seq<Byte>, i: nat, off: nat, src: seq<Byte>, tot: nat, c: nat, j: nat, next: nat)
    requires WellFormed(s) && InRange(s) && i < |s.inodes| && j < MAXFILE * BSIZE == |f| && tot + c <= |src|
    requires next < MAXFILE && next == (off + tot) / BSIZE && (off + tot) % BSIZE + c <= BSIZE
    requires Alias(s, i, j / BSIZE, next) && (off + tot) % BSIZE <= j % BSIZE < (off + tot) % BSIZE + c
    requires f[j] == src[tot + (j % BSIZE - (off + tot) % BSIZE)]
    ensures ByteWritten(s, f, i, off, src, tot + c, j)
  {
    var o, r, n := off + tot, j % BSIZE, tot + c;
    assert o == next * BSIZE + o % BSIZE;
    assert Hits(s, i, off, n, j, next);
    assert next * BSIZE + r - off == tot + (r - o % BSIZE);
    forall k | next < k < MAXFILE ensures !Hits(s, i, off, n, j, k) {
      assert k * BSIZE >= next * BSIZE + BSIZE;
    }
  }

  /** A byte not behind it. */
  lemma ByteMissed(s: Store, f: seq<Byte>, h: seq<Byte>, i: nat, off: nat, src: seq<Byte>, tot: nat, c: nat, j: nat, next: nat)
    requires WellFormed(s) && InRange(s) && i < |s.inodes| && j < MAXFILE * BSIZE == |f| == |h| && tot + c <= |src|
    requires next < MAXFILE && next == (off + tot) / BSIZE && (off + tot) % BSIZE + c <= BSIZE
    requires !(Alias(s, i, j / BSIZE, next) && (off + tot) % BSIZE <= j % BSIZE < (off + tot) % BSIZE + c)
    requires ByteWritten(s, f, i, off, src, tot, j) && h[j] == f[j]
    ensures ByteWritten(s, h, i, off, src, tot + c, j)
  {
    var n := tot + c;
    forall k | 0 <= k < MAXFILE ensures Hits(s, i, off, n, j, k) <==> Hits(s, i, off, tot, j, k) {
      ChunkPlace(off, tot, c, k, j % BSIZE);
    }
    assert Untouched(s, i, off, n, j) <==> Untouched(s, i, off, tot, j);
    assert forall k :: 0 <= k < MAXFILE ==> (LastHit(s, i, off, n, j, k) <==> LastHit(s, i, off, tot, j, k));
  }

  /** One byte under a write through to all positions behind one block. */
  lemma ByteThrough(t: Store, w: Store, i: nat, k: nat, q: nat, piece: seq<Byte>, j: nat)
    requires WellFormed(t) && InRange(t) && i < |t.inodes| && k < MAXFILE && q + |piece| <= BSIZE && j < MAXFILE * BSIZE
    requires WroteThrough(t, w, i, k, Overwrite(BlockAt(t, i, k), q, piece))
    ensures Flat(w, i)[j] == if Alias(t, i, k, j / BSIZE) && q <= j % BSIZE < q + |piece| then piece[j % BSIZE - q] else Flat(t, i)[j]
  {
    assert Alias(t, i, k, j / BSIZE) ==> BlockAt(t, i, j / BSIZE) == BlockAt(t, i, k);
  }

  lemma AliasesAgree(s: Store, t: Store, i: nat, a: nat, b: nat)
    requires WellFormed(s) && WellFormed(t) && i < |s.inodes| && i < |t.inodes| && a < MAXFILE && b < MAXFILE && SameAliases(s, t, i)
    ensures Alias(t, i, a, b) <==> Alias(s, i, b, a)
  {
  }

  /** One iteration, on all bytes of the file. */
  lemma BytesStep(s: Store, t: Store, w: Store, i: nat, off: nat, src: seq<Byte>, tot: nat, c: nat, next: nat)
    requires WellFormed(s) && InRange(s) && i < |s.inodes| && tot + c <= |src|
    requires next < MAXFILE && next == (off + tot) / BSIZE && (off + tot) % BSIZE + c <= BSIZE
    requires WellFormed(t) && InRange(t) && i < |t.inodes| && SameAliases(s, t, i) && BytesWritten(s, Flat(t, i), i, off, src, tot)
    requires WellFormed(w) && InRange(w) && i < |w.inodes|
    requires WroteThrough(t, w, i, next, Overwrite(BlockAt(t, i, next), (off + tot) % BSIZE, src[tot..tot + c]))
    ensures BytesWritten(s, Flat(w, i), i, off, src, tot + c)
  {
    hide ByteWritten, Alias, SameAliases, WroteThrough, Ptr, BlockAt, Flat, WellFormed, InRange;
    var n := tot + c;
    forall j | 0 <= j < MAXFILE * BSIZE ensures ByteWritten(s, Flat(w, i), i, off, src, n, j) {
      var q, piece := (off + tot) % BSIZE, src[tot..tot + c];
      ByteThrough(t, w, i, next, q, piece, j);
      AliasesAgree(s, t, i, next, j / BSIZE);
      assert ByteWritten(s, Flat(t, i), i, off, src, tot, j);
      if Alias(s, i, j / BSIZE, next) && q <= j % BSIZE < q + c {
        ByteHit(s, Flat(w, i), i, off, src, tot, c, j, next);
      } else {
        ByteMissed(s, Flat(t, i), Flat(w, i), i, off, src, tot, c, j, next);
      }
    }
  }

  lemma OthersStep(s: Store, t: Store, w: Store, i: nat, k: nat, x: Block)
    requires WellFormed(s) && InRange(s) && WroteThrough(t, w, i, k, x) && |s.inodes| == |t.inodes|
    requires forall j :: 0 <= j < |s.inodes| && j != i ==> Flat(t, j) == Flat(s, j)
    ensures forall j :: 0 <= j < |s.inodes| && j != i ==> Flat(w, j) == Flat(s, j)
  {
    forall j | 0 <= j < |s.inodes| && j != i ensures Flat(w, j) == Flat(s, j) {
      FlatEqual(t, w, j);
    }
  }

  // ---- between two iterations ----

  ghost predicate SafeRange(s: Store, i: nat, lo: nat, hi: nat)
    requires WellFormed(s) && i < |s.inodes| && hi <= MAXFILE
    requires forall k :: 0 <= k < MAXFILE ==> Ptr(s, i, k) < |s.refs|
  {
    forall k :: lo <= k < hi ==> SafeAt(s, i, k)
  }

  ghost predicate Writing(s: Store, t: Store, g: Geometry, i: nat, off: nat, src: seq<Byte>, tot: nat, next: nat) {
    && SoundStore(s, g) && SoundStore(t, g) && SameInodes(s, t) && i < |s.inodes|
    && InRange(s) && InRange(t) && tot <= |src| && off + |src| <= MAXFILE * BSIZE
    && (forall k :: 0 <= k < MAXFILE ==> Ptr(s, i, k) < |s.refs| && Ptr(t, i, k) < |t.refs|)
    && off / BSIZE <= next <= MAXFILE
  }

  /** The bytes of all files, whatever the counts. */
  ghost predicate Through(s: Store, t: Store, g: Geometry, i: nat, off: nat, src: seq<Byte>, tot: nat)
    requires WellFormed(s) && InRange(s) && WellFormed(t) && InRange(t) && i < |s.inodes| == |t.inodes| && tot <= |src|
  {
    && Private(t, g, i) && SameAliases(s, t, i)
    && BytesWritten(s, Flat(t, i), i, off, src, tot)
    && (forall j :: 0 <= j < |s.inodes| && j != i ==> Flat(t, j) == Flat(s, j))
  }

  /** The counts are exact and the blocks ahead as safe as they were. */
  ghost predicate Intact(s: Store, t: Store, g: Geometry, i: nat, next: nat)
    requires WellFormed(s) && WellFormed(t) && i < |s.inodes| && i < |t.inodes|
    requires forall k :: 0 <= k < MAXFILE ==> Ptr(s, i, k) < |s.refs| && Ptr(t, i, k) < |t.refs|
  {
    && Consistent(t, g)
    && (forall k :: next <= k < MAXFILE ==> (SafeAt(t, i, k) <==> SafeAt(s, i, k)))
  }

  /** The counts after one more block: exact, or with a leak that no later block mends. */
  ghost predicate CountsAt(s: Store, t: Store, g: Geometry, i: nat, lo: nat, next: nat)
    requires WellFormed(s) && WellFormed(t) && i < |s.inodes| && i < |t.inodes| && next <= MAXFILE
    requires forall k :: 0 <= k < MAXFILE ==> Ptr(s, i, k) < |s.refs| && Ptr(t, i, k) < |t.refs|
  {
    if SafeRange(s, i, lo, next) then Intact(s, t, g, i, next) else HasDouble(t, i) && exists x :: Leaked(t, g, i, x)
  }

  /** Between two iterations of writei: the blocks below next are done. */
  ghost predicate Progress(s: Store, t: Store, g: Geometry, i: nat, off: nat, src: seq<Byte>, tot: nat, next: nat) {
    && Consistent(s, g) && Writing(s, t, g, i, off, src, tot, next) && Through(s, t, g, i, off, src, tot)
    && CountsAt(s, t, g, i, off / BSIZE, next)
  }

  lemma WriteStart(s: Store, g: Geometry, i: nat, off: nat, src: seq<Byte>)
    requires Consistent(s, g) && i < |s.inodes| && off + |src| <= MAXFILE * BSIZE
    ensures Progress(s, s, g, i, off, src, 0, off / BSIZE)
  {
    ConsistentIsSound(s, g);
    RefsInRange(s, g);
    ConsistentIsPrivate(s, g, i);
  }

  lemma ProgressFacts(s: Store, t: Store, g: Geometry, i: nat, off: nat, src: seq<Byte>, tot: nat, next: nat)
    requires Progress(s, t, g, i, off, src, tot, next)
    ensures SoundStore(t, g) && i < |t.inodes| && off + |src| <= MAXFILE * BSIZE
  {
  }

  lemma ProgressStep(s: Store, t: Store, w: Store, g: Geometry, i: nat, off: nat, src: seq<Byte>, tot: nat, m: nat, next: nat)
    requires Progress(s, t, g, i, off, src, tot, next)
    requires tot + m <= |src| && next < MAXFILE && next == (off + tot) / BSIZE && (off + tot) % BSIZE + m <= BSIZE
    requires WroteBlock(t, w, g, i, next, (off + tot) % BSIZE, src[tot..tot + m])
    ensures Progress(s, w, g, i, off, src, tot + m, next + 1)
  {
    ThroughStep(s, t, w, g, i, off, src, tot, m, next);
    WritingStep(s, t, w, g, i, off, src, tot, m, next);
    hide HasDouble, Through, CountsAt, WroteBytes, Leaked, SafeAt, SoundStore, Consistent, InRange;
    CountStep(s, t, w, g, i, off / BSIZE, next, (off + tot) % BSIZE, src[tot..tot + m]);
  }

  lemma WritingStep(s: Store, t: Store, w: Store, g: Geometry, i: nat, off: nat, src: seq<Byte>, tot: nat, m: nat, next: nat)
    requires Writing(s, t, g, i, off, src, tot, next) && tot + m <= |src| && next < MAXFILE
    requires WroteBlock(t, w, g, i, next, (off + tot) % BSIZE, src[tot..tot + m])
    ensures Writing(s, w, g, i, off, src, tot + m, next + 1)
  {
    hide HasDouble, WroteBytes, Leaked, SafeAt, Inv, Sound;
  }

  lemma CountStep(s: Store, t: Store, w: Store, g: Geometry, i: nat, lo: nat, next: nat, off: nat, src: seq<Byte>)
    requires WroteBlock(t, w, g, i, next, off, src) && WellFormed(s) && i < |s.inodes| && lo <= next
    requires forall k :: 0 <= k < MAXFILE ==> Ptr(s, i, k) < |s.refs|
    requires CountsAt(s, t, g, i, lo, next)
    ensures CountsAt(s, w, g, i, lo, next + 1)
  {
    hide HasDouble, WroteBytes, SafeAt, Inv, Sound;
    if SafeRange(s, i, lo, next + 1) {
      assert SafeRange(s, i, lo, next);
      assert SafeAt(t, i, next);
      assert Consistent(w, g);
    } else if SafeRange(s, i, lo, next) {
      assert !SafeAt(t, i, next);
      assert Leaked(w, g, i, Ptr(t, i, next));
    } else {
      var x :| Leaked(t, g, i, x);
      assert Leaked(w, g, i, x);
    }
  }

  lemma ThroughStep(s: Store, t: Store, w: Store, g: Geometry, i: nat, off: nat, src: seq<Byte>, tot: nat, m: nat, next: nat)
    requires Progress(s, t, g, i, off, src, tot, next)
    requires tot + m <= |src| && next < MAXFILE && next == (off + tot) / BSIZE && (off + tot) % BSIZE + m <= BSIZE
    requires WroteBlock(t, w, g, i, next, (off + tot) % BSIZE, src[tot..tot + m])
    ensures Through(s, w, g, i, off, src, tot + m)
  {
    hide HasDouble, Leaked, Intact, SafeRange, SafeAt, BytesWritten, Sound, Inv, WroteCounts, WroteDoubles;
    var y := Overwrite(BlockAt(t, i, next), (off + tot) % BSIZE, src[tot..tot + m]);
    BytesStep(s, t, w, i, off, src, tot, m, next);
    OthersStep(s, t, w, i, next, y);
    assert SameAliases(s, w, i) by {
      hide Flat, Overwrite, Private;
      assert SameAliases(t, w, i);
    }
  }

  /** One iteration finishes its block or the write. */
  lemma NextBlock(off: nat, n: nat, tot: nat, m: nat)
    requires tot < n && m == Min(n - tot, BSIZE - (off + tot) % BSIZE)
    ensures 0 < m <= n - tot && (off + tot) % BSIZE + m <= BSIZE
    ensures tot + m < n ==> (off + tot + m) / BSIZE == (off + tot) / BSIZE + 1
    ensures tot + m == n ==> (off + n - 1) / BSIZE == (off + tot) / BSIZE
  {
  }

  /** Growing a file's size touches neither pointers nor blocks. */
  lemma SizeOnly(s: Store, g: Geometry, i: nat, n: nat)
    requires SoundStore(s, g) && i < |s.inodes| && n <= MAXFILE * BSIZE
    ensures var t := s.(inodes := s.inodes[i := s.inodes[i].(size := n)]);
            && SoundStore(t, g) && InRange(s) && InRange(t) && (Consistent(t, g) <==> Consistent(s, g))
            && forall j :: 0 <= j < |s.inodes| ==> Flat(t, j) == Flat(s, j)
  {
    var t := s.(inodes := s.inodes[i := s.inodes[i].(size := n)]);
    assert AllPtrs(t) == AllPtrs(s) by {
      forall a | 0 <= a < |s.inodes| ensures AllPtrs(t)[a] == AllPtrs(s)[a] {
        assert forall c :: 0 <= c < MAXFILE ==> Ptr(t, a, c) == Ptr(s, a, c);
      }
    }
    assert AllTbls(t) == AllTbls(s);
    assert ViewOf(t) == ViewOf(s);
    SoundInRange(s, g);
    SoundInRange(t, g);
    forall j | 0 <= j < |s.inodes| ensures Flat(t, j) == Flat(s, j) {
      assert forall c :: 0 <= c < MAXFILE ==> AllPtrs(t)[j][c] == Ptr(t, j, c) && AllPtrs(s)[j][c] == Ptr(s, j, c);
      FlatEqual(s, t, j);
    }
  }

  lemma SizeDoubles(s: Store, i: nat, n: nat)
    requires WellFormed(s) && i < |s.inodes| && HasDouble(s, i) && n <= MAXFILE * BSIZE
    ensures var t := s.(inodes := s.inodes[i := s.inodes[i].(size := n)]); WellFormed(t) && HasDouble(t, i)
  {
    var t := s.(inodes := s.inodes[i := s.inodes[i].(size := n)]);
    var a: nat, b: nat :| Doubled(s, i, a, b);
    assert Ptr(t, i, a) == Ptr(s, i, a) && Ptr(t, i, b) == Ptr(s, i, b);
    assert Doubled(t, i, a, b);
  }

  /** What a completed write means. Every byte of the file is accounted for and no other file changes a
      byte, whether or not the file holds a block twice; the counts stay exact if and only if every
      shared block written is pointed at once, and then exactly the bytes written change; otherwise the
      file is left with a block twice that has no reference. */
  ghost predicate WroteFile(s: Store, t: Store, g: Geometry, i: nat, off: nat, src: seq<Byte>) {
    && Consistent(s, g) && SoundStore(t, g) && i < |s.inodes| && |t.inodes| == |s.inodes|
    && off + |src| <= MAXFILE * BSIZE && InRange(s) && InRange(t)
    && (forall k :: 0 <= k < MAXFILE ==> Ptr(s, i, k) < |s.refs|)
    && (forall j :: 0 <= j < |s.inodes| && j != i ==> Flat(t, j) == Flat(s, j))
    && BytesWritten(s, Flat(t, i), i, off, src, |src|)
    && (Consistent(t, g) <==> WriteSafe(s, i, off, |src|))
    && (WriteSafe(s, i, off, |src|) ==> Flat(t, i) == Splice(Flat(s, i), off, src))
    && (!WriteSafe(s, i, off, |src|) ==> HasDouble(t, i))
    && t.inodes[i].typ == s.inodes[i].typ
    && t.inodes[i].size == (if |src| > 0 && off + |src| > s.inodes[i].size then off + |src| else s.inodes[i].size)
    && (forall j :: 0 <= j < |s.inodes| && j != i ==> t.inodes[j].typ == s.inodes[j].typ && t.inodes[j].size == s.inodes[j].size)
  }

  lemma WriteDone(s: Store, t: Store, w: Store, g: Geometry, i: nat, off: nat, src: seq<Byte>, next: nat)
    requires Progress(s, t, g, i, off, src, |src|, next)
    requires next == if |src| == 0 then off / BSIZE else (off + |src| - 1) / BSIZE + 1
    requires w == if |src| > 0 && off + |src| > t.inodes[i].size
                  then t.(inodes := t.inodes[i := t.inodes[i].(size := off + |src|)]) else t
    ensures WroteFile(s, w, g, i, off, src)
  {
    SizeOnly(t, g, i, w.inodes[i].size);
    WriteCounts(s, t, g, i, off, src, next);
    if HasDouble(t, i) { SizeDoubles(t, i, w.inodes[i].size); }
    hide HasDouble, BytesWritten, Private, SameAliases, Flat, Splice, Sound, Inv, CountsAt, WriteSafe;
  }

  lemma WriteCounts(s: Store, t: Store, g: Geometry, i: nat, off: nat, src: seq<Byte>, next: nat)
    requires Progress(s, t, g, i, off, src, |src|, next)
    requires next == if |src| == 0 then off / BSIZE else (off + |src| - 1) / BSIZE + 1
    ensures Consistent(t, g) <==> WriteSafe(s, i, off, |src|)
    ensures WriteSafe(s, i, off, |src|) ==> Flat(t, i) == Splice(Flat(s, i), off, src)
    ensures !WriteSafe(s, i, off, |src|) ==> HasDouble(t, i)
  {
    hide HasDouble, BytesWritten, Private, SameAliases, Flat, Splice, Sound, Inv, SafeAt;
    assert WriteSafe(s, i, off, |src|) <==> SafeRange(s, i, off / BSIZE, next);
    if !WriteSafe(s, i, off, |src|) {
      var x :| Leaked(t, g, i, x);
      LeakedInconsistent(t, g, i, x);
    } else {
      SafeIsSplice(s, Flat(t, i), g, i, off, src);
    }
  }

  /** In a consistent store a safe position shares its block with no other position of the file. */
  lemma SafeIsAlone(s: Store, g: Geometry, i: nat, m: nat, k: nat)
    requires Consistent(s, g) && i < |s.inodes| && m < MAXFILE && k < MAXFILE && Ptr(s, i, k) < |s.refs|
    requires SafeAt(s, i, k) && Alias(s, i, m, k)
    ensures m == k
  {
    assert ViewOf(s).ptrs[i][k] == Ptr(s, i, k) && ViewOf(s).ptrs[i][m] == Ptr(s, i, m);
    if m != k && s.refs[Ptr(s, i, k)] == 0 {
      SoleOwner(ViewOf(s), g, i, k, i, m);
    }
  }

  lemma SafeIsSplice(s: Store, f: seq<Byte>, g: Geometry, i: nat, off: nat, src: seq<Byte>)
    requires Consistent(s, g) && i < |s.inodes| && InRange(s) && off + |src| <= MAXFILE * BSIZE == |f|
    requires forall k :: 0 <= k < MAXFILE ==> Ptr(s, i, k) < |s.refs|
    requires WriteSafe(s, i, off, |src|) && BytesWritten(s, f, i, off, src, |src|)
    ensures f == Splice(Flat(s, i), off, src)
  {
    forall j | 0 <= j < MAXFILE * BSIZE ensures f[j] == Splice(Flat(s, i), off, src)[j] {
      var m := j / BSIZE;
      assert ByteWritten(s, f, i, off, src, |src|, j);
      assert j == m * BSIZE + j % BSIZE;
      forall k | 0 <= k < MAXFILE && Hits(s, i, off, |src|, j, k) ensures k == m {
        InsideTouches(off, |src|, k, j % BSIZE);
        SafeIsAlone(s, g, i, m, k);
      }
      if off <= j < off + |src| {
        assert LastHit(s, i, off, |src|, j, m);
      } else {
        assert Untouched(s, i, off, |src|, j);
      }
    }
  }

  lemma InsideTouches(off: nat, n: nat, k: nat, r: nat)
    requires r < BSIZE && off <= k * BSIZE + r < off + n
    ensures n > 0 && off / BSIZE <= k && k * BSIZE < off + n
  {
  }

  /** A write acts as an overwrite of the flat bytes if and only if, wherever the file sees a block at
      several positions, the last byte written there is the one an overwrite would leave. */
  lemma OverwriteExactly(s: Store, t: Store, g: Geometry, i: nat, off: nat, src: seq<Byte>)
    requires WroteFile(s, t, g, i, off, src)
    ensures Flat(t, i) == Splice(Flat(s, i), off, src) <==>
            forall j, k :: 0 <= j < MAXFILE * BSIZE && 0 <= k < MAXFILE && LastHit(s, i, off, |src|, j, k) ==>
              src[k * BSIZE + j % BSIZE - off] == Splice(Flat(s, i), off, src)[j]
  {
    var f, h := Flat(t, i), Splice(Flat(s, i), off, src);
    forall j | 0 <= j < MAXFILE * BSIZE
      ensures f[j] == h[j] <==> forall k :: 0 <= k < MAXFILE && LastHit(s, i, off, |src|, j, k) ==> src[k * BSIZE + j % BSIZE - off] == h[j]
    {
      assert ByteWritten(s, f, i, off, src, |src|, j);
      assert j == j / BSIZE * BSIZE + j % BSIZE;
      assert off <= j < off + |src| ==> Hits(s, i, off, |src|, j, j / BSIZE);
      if Untouched(s, i, off, |src|, j) {
        assert forall k :: 0 <= k < MAXFILE ==> !LastHit(s, i, off, |src|, j, k);
      } else {
        var k := TheLastHit(s, i, off, |src|, j, MAXFILE);
      }
    }
    if forall j, k :: 0 <= j < MAXFILE * BSIZE && 0 <= k < MAXFILE && LastHit(s, i, off, |src|, j, k) ==> src[k * BSIZE + j % BSIZE - off] == h[j] {
      assert f == h;
    }
  }

  lemma {:induction false} TheLastHit(s: Store, i: nat, off: nat, n: nat, j: nat, b: nat) returns (k: nat)
    requires WellFormed(s) && i < |s.inodes| && j < MAXFILE * BSIZE && b <= MAXFILE
    requires !Untouched(s, i, off, n, j) && forall c :: b <= c < MAXFILE ==> !Hits(s, i, off, n, j, c)
    ensures k < MAXFILE && LastHit(s, i, off, n, j, k)
    decreases b
  {
    if Hits(s, i, off, n, j, b - 1) {
      k := b - 1;
    } else {
      k := TheLastHit(s, i, off, n, j, b - 1);
    }
  }

  lemma SliceOfPrefix(f: seq<Byte>, n: nat, a: nat, b: nat)
    requires a <= b <= n <= |f|
    ensures f[..n][a..b] == f[a..b]
  {
  }

  /** What was written is what is read back, and the bytes in front of it are the old ones. */
  lemma ReadAfterWrite(s: Store, t: Store, g: Geometry, i: nat, off: nat, src: seq<Byte>)
    requires WroteFile(s, t, g, i, off, src) && WriteSafe(s, i, off, |src|) && off <= s.inodes[i].size
    requires |src| > 0
    ensures off + |src| <= t.inodes[i].size
    ensures Content(t, i)[off..off + |src|] == src
    ensures Content(t, i)[..off] == Content(s, i)[..off]
  {
    var f, h := Flat(s, i), Flat(t, i);
    assert h == Splice(f, off, src);
    SliceOfPrefix(h, t.inodes[i].size, off, off + |src|);
    SliceOfPrefix(h, t.inodes[i].size, 0, off);
    SliceOfPrefix(f, s.inodes[i].size, 0, off);
    assert h[off..off + |src|] == src;
    assert h[0..off] == f[0..off];
  }
}
