/**
 How many free blocks a read or a write takes, told from the store it starts from: the kernel panics
 exactly when there are fewer. A position of the file is paid for once, where it is absent, and a shared
 block once for all positions of the file behind it; the indirect table is paid for by the first
 position that needs it.
 */
module FileSpace {
  import opened Sharing
  import opened Blocks
  import opened FileStore
  import opened FileOps
  import opened FileWrites

  /** The blocks balloc can hand out below the limit. */
  ghost function FreeSet(used: seq<bool>, limit: nat): set<nat> {
    set b | 0 <= b < limit && b < |used| && !used[b]
  }

  lemma TakesOne(used: seq<bool>, limit: nat, b: nat)
    requires b < limit && b < |used| && !used[b]
    ensures FreeSet(used[b := true], limit) == FreeSet(used, limit) - {b}
    ensures |FreeSet(used[b := true], limit)| == |FreeSet(used, limit)| - 1
  {
    assert FreeSet(used[b := true], limit) == FreeSet(used, limit) - {b};
  }

  /** Free blocks have no references, as in every consistent store. */
  ghost predicate FreeClean(s: Store, g: Geometry) {
    forall b :: b in FreeSet(s.used, g.limit) ==> b < |s.refs| && s.refs[b] == 0
  }

  lemma ConsistentIsClean(s: Store, g: Geometry)
    requires Consistent(s, g)
    ensures FreeClean(s, g)
  {
    forall b | b in FreeSet(s.used, g.limit) ensures b < |s.refs| && s.refs[b] == 0 {
      FreeHasNoRefs(s, g, b);
    }
  }

  // ---- one block ----

  lemma MappedFacts(s: Store, t: Store, g: Geometry, i: nat, k: nat, addr: nat)
    requires MappedTo(s, t, g, i, k, addr)
    ensures SoundStore(s, g) && SoundStore(t, g) && WellFormed(t) && i < |t.inodes| && addr == Ptr(t, i, k) != 0
  {
  }

  ghost predicate NoTable(s: Store, i: nat)
    requires WellFormed(s) && i < |s.inodes|
  {
    s.inodes[i].addrs[NDIRECT] == 0
  }

  /** What bmap allocates for position k. */
  ghost function MapNeed(s: Store, i: nat, k: nat): nat
    requires WellFormed(s) && i < |s.inodes| && k < MAXFILE
  {
    if Ptr(s, i, k) != 0 then 0 else if k >= NDIRECT && NoTable(s, i) then 2 else 1
  }

  /** What bmap leaves of the space, and whether the file has a table then. */
  ghost predicate SpaceMapped(s: Store, t: Store, g: Geometry, i: nat, k: nat) {
    && WellFormed(s) && WellFormed(t) && i < |s.inodes| && i < |t.inodes| && k < MAXFILE
    && FreeSet(t.used, g.limit) <= FreeSet(s.used, g.limit)
    && |FreeSet(t.used, g.limit)| + MapNeed(s, i, k) == |FreeSet(s.used, g.limit)|
    && (NoTable(t, i) <==> NoTable(s, i) && k < NDIRECT)
  }

  /** What one iteration of writei allocates: a copy when the block is there and has references. */
  ghost function BlockNeed(s: Store, i: nat, k: nat): nat
    requires WellFormed(s) && i < |s.inodes| && k < MAXFILE && Ptr(s, i, k) < |s.refs|
  {
    MapNeed(s, i, k) + (if Ptr(s, i, k) != 0 && s.refs[Ptr(s, i, k)] > 0 then 1 else 0)
  }

  ghost predicate PtrsCounted(s: Store, i: nat)
    requires WellFormed(s) && i < |s.inodes|
  {
    forall m :: 0 <= m < MAXFILE ==> Ptr(s, i, m) < |s.refs|
  }

  /** What an iteration leaves of pointers, references and space. */
  ghost predicate SpaceAfter(s: Store, w: Store, g: Geometry, i: nat, k: nat)
    requires WellFormed(s) && WellFormed(w) && i < |s.inodes| && i < |w.inodes| && k < MAXFILE
    requires PtrsCounted(s, i) && PtrsCounted(w, i)
  {
    && FreeClean(w, g) && |FreeSet(w.used, g.limit)| + BlockNeed(s, i, k) == |FreeSet(s.used, g.limit)|
    && Ptr(w, i, k) != 0 && w.refs[Ptr(w, i, k)] == 0 && |w.refs| == |s.refs|
    && (forall m :: 0 <= m < MAXFILE && !Alias(s, i, k, m) ==> Ptr(w, i, m) == Ptr(s, i, m) && w.refs[Ptr(s, i, m)] == s.refs[Ptr(s, i, m)])
    && (forall b :: 0 <= b < |s.refs| && s.refs[b] == 0 ==> w.refs[b] == 0)
    && (NoTable(w, i) <==> NoTable(s, i) && k < NDIRECT)
  }

  lemma SpaceOverwrite(s: Store, t: Store, w: Store, g: Geometry, i: nat, k: nat)
    requires SoundStore(s, g) && SoundStore(t, g) && SoundStore(w, g) && i < |s.inodes| && k < MAXFILE
    requires |w.inodes| == |t.inodes| == |s.inodes| && MappedTo(s, t, g, i, k, Ptr(t, i, k)) && FreeClean(s, g)
    requires ViewOf(w) == ViewOf(t) && PtrsCounted(s, i) && PtrsCounted(w, i)
    requires Ptr(t, i, k) < |t.refs| && t.refs[Ptr(t, i, k)] == 0
    requires SpaceMapped(s, t, g, i, k)
    ensures SpaceAfter(s, w, g, i, k)
  {
    assert forall m :: 0 <= m < MAXFILE ==> ViewOf(w).ptrs[i][m] == Ptr(w, i, m) && ViewOf(t).ptrs[i][m] == Ptr(t, i, m);
    assert ViewOf(w).tbls[i] == w.inodes[i].addrs[NDIRECT] && ViewOf(t).tbls[i] == t.inodes[i].addrs[NDIRECT];
    hide Sound;
  }

  /** A block just mapped has no references, so a copy means nothing was mapped. */
  lemma CopyMapsNothing(s: Store, t: Store, g: Geometry, i: nat, k: nat)
    requires SoundStore(s, g) && SoundStore(t, g) && i < |s.inodes| == |t.inodes| && k < MAXFILE
    requires MappedTo(s, t, g, i, k, Ptr(t, i, k)) && FreeClean(s, g)
    requires Ptr(t, i, k) < |t.refs| && t.refs[Ptr(t, i, k)] > 0
    ensures t == s
  {
    var p := Ptr(t, i, k);
    assert p !in FreeSet(s.used, g.limit);
  }

  lemma SpaceCopy(s: Store, u: Store, w: Store, g: Geometry, i: nat, k: nat, b: nat, x: Block)
    requires CowWritten(s, u, w, g, i, k, b, x) && FreeClean(s, g) && SoundStore(w, g) && |w.inodes| == |s.inodes|
    requires PtrsCounted(s, i) && PtrsCounted(w, i)
    ensures SpaceAfter(s, w, g, i, k)
  {
    CowPointers(s, u, w, g, i, k, b, x);
    CowDisk(s, u, w, g, i, k, b, x);
    CowUsed(s, u, w, g, i, k, b, x);
    FreshUnpointed(s, g, b);
    TakesOne(s.used, g.limit, b);
    assert b in FreeSet(s.used, g.limit);
    assert Ptr(w, i, k) == b;
    hide CowWritten, Sound, MapNeed, FreeSet;
    assert BlockNeed(s, i, k) == 1 by { CopyNeedsOne(s, i, k); }
  }

  lemma CopyNeedsOne(s: Store, i: nat, k: nat)
    requires WellFormed(s) && i < |s.inodes| && k < MAXFILE && Ptr(s, i, k) < |s.refs| && Ptr(s, i, k) != 0 && s.refs[Ptr(s, i, k)] > 0
    ensures BlockNeed(s, i, k) == 1
  {
  }

  lemma CowUsed(s: Store, u: Store, w: Store, g: Geometry, i: nat, k: nat, b: nat, x: Block)
    requires CowWritten(s, u, w, g, i, k, b, x)
    ensures Ptr(s, i, k) != 0 && Ptr(s, i, k) < |s.refs| && s.refs[Ptr(s, i, k)] > 0 && Fresh(s, g, b)
    ensures WellFormed(s) && w.used == s.used[b := true] && w.refs == s.refs[Ptr(s, i, k) := s.refs[Ptr(s, i, k)] - 1]
    ensures i < |w.inodes| && |w.inodes[i].addrs| == NDIRECT + 1 && w.inodes[i].addrs[NDIRECT] == s.inodes[i].addrs[NDIRECT]
    ensures k >= NDIRECT ==> s.inodes[i].addrs[NDIRECT] != 0
  {
  }

  /** There is room for one iteration of writei. */
  ghost predicate CanWrite(s: Store, g: Geometry, i: nat, k: nat) {
    && WellFormed(s) && i < |s.inodes| && k < MAXFILE && PtrsCounted(s, i)
    && BlockNeed(s, i, k) <= |FreeSet(s.used, g.limit)|
  }

  ghost predicate SpaceWritten(s: Store, w: Store, g: Geometry, i: nat, k: nat) {
    && WellFormed(s) && WellFormed(w) && i < |s.inodes| && i < |w.inodes| && k < MAXFILE
    && PtrsCounted(s, i) && PtrsCounted(w, i) && SpaceAfter(s, w, g, i, k)
  }

  lemma CannotMap(s: Store, g: Geometry, i: nat, k: nat)
    requires SoundStore(s, g) && i < |s.inodes| && k < MAXFILE && |FreeSet(s.used, g.limit)| < MapNeed(s, i, k)
    ensures !CanWrite(s, g, i, k)
  {
  }

  lemma WritesShared(s: Store, t: Store, g: Geometry, i: nat, k: nat)
    requires SoundStore(s, g) && SoundStore(t, g) && i < |s.inodes| == |t.inodes| && k < MAXFILE
    requires MappedTo(s, t, g, i, k, Ptr(t, i, k)) && FreeClean(s, g)
    requires Ptr(t, i, k) < |t.refs| && t.refs[Ptr(t, i, k)] > 0
    ensures t == s && (CanWrite(s, g, i, k) <==> |FreeSet(t.used, g.limit)| > 0)
  {
    CopyMapsNothing(s, t, g, i, k);
    RefsInRange(s, g);
  }

  lemma WritesInPlace(s: Store, t: Store, g: Geometry, i: nat, k: nat)
    requires SoundStore(s, g) && SoundStore(t, g) && i < |s.inodes| == |t.inodes| && k < MAXFILE
    requires MappedTo(s, t, g, i, k, Ptr(t, i, k)) && SpaceMapped(s, t, g, i, k)
    requires Ptr(t, i, k) < |t.refs| && t.refs[Ptr(t, i, k)] == 0
    ensures CanWrite(s, g, i, k)
  {
    RefsInRange(s, g);
    hide FreeSet, Sound;
  }

  lemma WrittenInPlace(s: Store, t: Store, w: Store, g: Geometry, i: nat, k: nat, x: Block)
    requires SoundStore(s, g) && SoundStore(t, g) && i < |s.inodes| == |t.inodes| && k < MAXFILE
    requires MappedTo(s, t, g, i, k, Ptr(t, i, k)) && FreeClean(s, g) && SpaceMapped(s, t, g, i, k)
    requires Ptr(t, i, k) < |t.refs| && t.refs[Ptr(t, i, k)] == 0 && Ptr(t, i, k) < |t.disk|
    requires w == t.(disk := t.disk[Ptr(t, i, k) := x])
    ensures SpaceWritten(s, w, g, i, k)
  {
    RefsInRange(s, g);
    MappedPtr(s, t, g, i, k);
    OverwriteUnshared(t, g, i, k, x);
    RefsInRange(w, g);
    SpaceOverwrite(s, t, w, g, i, k);
  }

  lemma MappedPtr(s: Store, t: Store, g: Geometry, i: nat, k: nat)
    requires SoundStore(t, g) && i < |s.inodes| == |t.inodes| && k < MAXFILE && MappedTo(s, t, g, i, k, Ptr(t, i, k))
    ensures Ptr(t, i, k) != 0
  {
  }

  lemma WrittenCopy(s: Store, u: Store, w: Store, g: Geometry, i: nat, k: nat, b: nat, x: Block)
    requires CowWritten(s, u, w, g, i, k, b, x) && FreeClean(s, g)
    ensures SpaceWritten(s, w, g, i, k)
  {
    CowPointers(s, u, w, g, i, k, b, x);
    RefsInRange(s, g);
    RefsInRange(w, g);
    SpaceCopy(s, u, w, g, i, k, b, x);
  }

  // ---- a range of blocks ----

  /** Some position of the range is behind the block of position k. */
  ghost predicate AliasIn(s: Store, i: nat, lo: nat, hi: nat, k: nat)
    requires WellFormed(s) && i < |s.inodes| && k < MAXFILE && hi <= MAXFILE
  {
    exists m :: lo <= m < hi && Alias(s, i, k, m)
  }

  /** Position k is the first of the range that needs the table. */
  predicate FirstIndirect(lo: nat, k: nat) {
    k == if lo < NDIRECT then NDIRECT else lo
  }

  /** What position k adds to a read from position lo on. */
  ghost function ReadPos(s: Store, i: nat, lo: nat, k: nat): nat
    requires WellFormed(s) && i < |s.inodes| && k < MAXFILE
  {
    if Ptr(s, i, k) != 0 then 0 else if FirstIndirect(lo, k) && NoTable(s, i) then 2 else 1
  }

  /** And to a write. */
  ghost function WritePos(s: Store, i: nat, lo: nat, k: nat): nat
    requires WellFormed(s) && i < |s.inodes| && k < MAXFILE && Ptr(s, i, k) < |s.refs|
  {
    ReadPos(s, i, lo, k) + (if Ptr(s, i, k) != 0 && s.refs[Ptr(s, i, k)] > 0 && !AliasIn(s, i, lo, k, k) then 1 else 0)
  }

  /** The free blocks a read of positions lo up to hi takes: absent blocks are filled in on the way. */
  ghost function ReadNeed(s: Store, i: nat, lo: nat, hi: nat): nat
    requires WellFormed(s) && i < |s.inodes| && hi <= MAXFILE
  {
    if hi <= lo then 0 else ReadNeed(s, i, lo, hi - 1) + ReadPos(s, i, lo, hi - 1)
  }

  /** The free blocks a write of positions lo up to hi takes. */
  ghost function WriteNeed(s: Store, i: nat, lo: nat, hi: nat): nat
    requires WellFormed(s) && i < |s.inodes| && hi <= MAXFILE && PtrsCounted(s, i)
  {
    if hi <= lo then 0 else WriteNeed(s, i, lo, hi - 1) + WritePos(s, i, lo, hi - 1)
  }

  lemma {:induction false} WriteNeedGrows(s: Store, i: nat, lo: nat, mid: nat, hi: nat)
    requires WellFormed(s) && i < |s.inodes| && mid <= hi <= MAXFILE && PtrsCounted(s, i)
    ensures WriteNeed(s, i, lo, mid) <= WriteNeed(s, i, lo, hi)
    decreases hi
  {
    if mid < hi {
      WriteNeedGrows(s, i, lo, mid, hi - 1);
    }
  }

  lemma {:induction false} ReadNeedGrows(s: Store, i: nat, lo: nat, mid: nat, hi: nat)
    requires WellFormed(s) && i < |s.inodes| && mid <= hi <= MAXFILE
    ensures ReadNeed(s, i, lo, mid) <= ReadNeed(s, i, lo, hi)
    decreases hi
  {
    if mid < hi {
      ReadNeedGrows(s, i, lo, mid, hi - 1);
    }
  }

  /** A write takes at least what a read of the same range takes. */
  lemma {:induction false} ReadTakesLess(s: Store, i: nat, lo: nat, hi: nat)
    requires WellFormed(s) && i < |s.inodes| && hi <= MAXFILE && PtrsCounted(s, i)
    ensures ReadNeed(s, i, lo, hi) <= WriteNeed(s, i, lo, hi)
    decreases hi
  {
    if lo < hi {
      ReadTakesLess(s, i, lo, hi - 1);
    }
  }

  // ---- the account of a write ----

  ghost predicate Unmoved(s: Store, t: Store, i: nat, k: nat)
    requires WellFormed(s) && WellFormed(t) && i < |s.inodes| && i < |t.inodes| && k < MAXFILE
    requires Ptr(s, i, k) < |s.refs| && |s.refs| == |t.refs|
  {
    Ptr(t, i, k) == Ptr(s, i, k) && t.refs[Ptr(s, i, k)] == s.refs[Ptr(s, i, k)]
  }

  /** Between two iterations: positions lo up to next are paid for. */
  ghost predicate Paid(s: Store, t: Store, g: Geometry, i: nat, lo: nat, next: nat)
    requires WellFormed(s) && WellFormed(t) && i < |s.inodes| && i < |t.inodes| && lo <= next <= MAXFILE
    requires PtrsCounted(s, i) && PtrsCounted(t, i)
  {
    && FreeClean(t, g) && |t.refs| == |s.refs|
    && |FreeSet(t.used, g.limit)| + WriteNeed(s, i, lo, next) == |FreeSet(s.used, g.limit)|
    && (forall m :: lo <= m < next ==> Ptr(t, i, m) != 0 && t.refs[Ptr(t, i, m)] == 0)
    && (forall k :: next <= k < MAXFILE ==> AliasIn(s, i, lo, next, k) || Unmoved(s, t, i, k))
    && (NoTable(t, i) <==> NoTable(s, i) && (next <= NDIRECT || next == lo))
  }

  lemma PaidStart(s: Store, g: Geometry, i: nat, lo: nat)
    requires WellFormed(s) && i < |s.inodes| && lo <= MAXFILE && PtrsCounted(s, i) && FreeClean(s, g)
    ensures Paid(s, s, g, i, lo, lo)
  {
    hide FreeSet, FreeClean;
  }

  /** What the next iteration takes is what the account says. */
  lemma NeedAgrees(s: Store, t: Store, g: Geometry, i: nat, lo: nat, next: nat)
    requires WellFormed(s) && WellFormed(t) && i < |s.inodes| && i < |t.inodes| && lo <= next < MAXFILE
    requires PtrsCounted(s, i) && PtrsCounted(t, i) && Paid(s, t, g, i, lo, next) && SameAliases(s, t, i)
    ensures BlockNeed(t, i, next) == WritePos(s, i, lo, next)
  {
    hide FreeSet, FreeClean, Ptr;
    if AliasIn(s, i, lo, next, next) {
      var m :| lo <= m < next && Alias(s, i, next, m);
      assert Alias(t, i, next, m);
      assert Alias(s, i, next, m) && m != next;
    } else {
      assert Unmoved(s, t, i, next);
    }
  }

  lemma PaidStep(s: Store, t: Store, w: Store, g: Geometry, i: nat, lo: nat, next: nat)
    requires WellFormed(s) && WellFormed(t) && WellFormed(w) && i < |s.inodes| && i < |t.inodes| && i < |w.inodes| && lo <= next < MAXFILE
    requires PtrsCounted(s, i) && PtrsCounted(t, i) && PtrsCounted(w, i) && Paid(s, t, g, i, lo, next)
    requires SameAliases(s, t, i) && SameAliases(s, w, i) && SpaceAfter(t, w, g, i, next)
    ensures Paid(s, w, g, i, lo, next + 1)
  {
    hide FreeSet, FreeClean, Ptr, BlockNeed, WritePos;
    NeedAgrees(s, t, g, i, lo, next);
    forall m | lo <= m < next + 1 ensures Ptr(w, i, m) != 0 && w.refs[Ptr(w, i, m)] == 0 {
      assert Alias(t, i, next, m) <==> Alias(s, i, next, m);
      assert Alias(w, i, next, m) <==> Alias(s, i, next, m);
    }
    forall k | next + 1 <= k < MAXFILE ensures AliasIn(s, i, lo, next + 1, k) || Unmoved(s, w, i, k) {
      if AliasIn(s, i, lo, next, k) {
        var m :| lo <= m < next && Alias(s, i, k, m);
        assert lo <= m < next + 1 && Alias(s, i, k, m);
      } else if Alias(s, i, k, next) {
        assert lo <= next < next + 1 && Alias(s, i, k, next);
      } else {
        assert Alias(t, i, next, k) <==> Alias(s, i, next, k);
        assert Unmoved(s, t, i, k);
      }
    }
  }

  // ---- the account of a read ----

  ghost predicate ReadPaid(s: Store, t: Store, g: Geometry, i: nat, lo: nat, next: nat)
    requires WellFormed(s) && WellFormed(t) && i < |s.inodes| && i < |t.inodes| && lo <= next <= MAXFILE
  {
    && |FreeSet(t.used, g.limit)| + ReadNeed(s, i, lo, next) == |FreeSet(s.used, g.limit)|
    && (forall k :: next <= k < MAXFILE ==> Ptr(t, i, k) == Ptr(s, i, k))
    && (NoTable(t, i) <==> NoTable(s, i) && (next <= NDIRECT || next == lo))
  }

  lemma ReadPaidStep(s: Store, t: Store, u: Store, g: Geometry, i: nat, lo: nat, next: nat)
    requires WellFormed(s) && WellFormed(t) && WellFormed(u) && i < |s.inodes| && i < |t.inodes| && i < |u.inodes| && lo <= next < MAXFILE
    requires ReadPaid(s, t, g, i, lo, next) && MappedTo(t, u, g, i, next, Ptr(u, i, next))
    requires SpaceMapped(t, u, g, i, next)
    ensures ReadPaid(s, u, g, i, lo, next + 1)
  {
    ReadNeedAgrees(s, t, g, i, lo, next);
    hide FreeSet, MapNeed, ReadPos, Sound;
  }

  lemma ReadNeedAgrees(s: Store, t: Store, g: Geometry, i: nat, lo: nat, next: nat)
    requires WellFormed(s) && WellFormed(t) && i < |s.inodes| && i < |t.inodes| && lo <= next < MAXFILE
    requires ReadPaid(s, t, g, i, lo, next)
    ensures MapNeed(t, i, next) == ReadPos(s, i, lo, next)
  {
    hide FreeSet;
  }

  // ---- room for a whole read or write ----

  /** The first block position after those a transfer of n bytes at off touches. */
  function EndBlock(off: nat, n: nat): nat {
    if n == 0 then off / BSIZE else (off + n - 1) / BSIZE + 1
  }

  lemma EndOfWrite(off: nat, n: nat)
    ensures EndBlock(off, n) == if n == 0 then off / BSIZE else (off + n - 1) / BSIZE + 1
  {
  }

  lemma NextIsInside(off: nat, n: nat, tot: nat)
    requires tot < n && off + n <= MAXFILE * BSIZE
    ensures (off + tot) / BSIZE < EndBlock(off, n) <= MAXFILE
  {
  }

  /** The free blocks below the limit suffice for a write of positions lo up to hi. */
  ghost predicate FitsIn(s: Store, g: Geometry, i: nat, lo: nat, hi: nat) {
    && WellFormed(s) && i < |s.inodes| && hi <= MAXFILE && PtrsCounted(s, i)
    && WriteNeed(s, i, lo, hi) <= |FreeSet(s.used, g.limit)|
  }

  ghost predicate WritePaid(s: Store, t: Store, g: Geometry, i: nat, lo: nat, next: nat) {
    && WellFormed(s) && WellFormed(t) && i < |s.inodes| && i < |t.inodes| && lo <= next <= MAXFILE
    && PtrsCounted(s, i) && PtrsCounted(t, i) && Paid(s, t, g, i, lo, next) && SameAliases(s, t, i)
  }

  lemma ProgressRange(s: Store, t: Store, g: Geometry, i: nat, off: nat, src: seq<Byte>, tot: nat, next: nat)
    requires Progress(s, t, g, i, off, src, tot, next)
    ensures SoundStore(s, g) && SoundStore(t, g) && i < |s.inodes| && i < |t.inodes| && off / BSIZE <= next <= MAXFILE
    ensures SameAliases(s, t, i) && PtrsCounted(s, i) && PtrsCounted(t, i)
  {
  }

  lemma WriteAccount(s: Store, g: Geometry, i: nat, lo: nat)
    requires SoundStore(s, g) && i < |s.inodes| && lo <= MAXFILE && PtrsCounted(s, i) && FreeClean(s, g)
    ensures WritePaid(s, s, g, i, lo, lo)
  {
    PaidStart(s, g, i, lo);
  }

  /** Room for the next iteration is room for the range up to it; without it the write does not fit. */
  lemma AccountAt(s: Store, t: Store, g: Geometry, i: nat, lo: nat, next: nat, hi: nat)
    requires WritePaid(s, t, g, i, lo, next) && next < hi <= MAXFILE
    ensures FreeClean(t, g) && (!CanWrite(t, g, i, next) ==> !FitsIn(s, g, i, lo, hi))
  {
    NeedAgrees(s, t, g, i, lo, next);
    WriteNeedGrows(s, i, lo, next + 1, hi);
    hide FreeSet, BlockNeed, WritePos;
  }

  lemma AccountStep(s: Store, t: Store, w: Store, g: Geometry, i: nat, lo: nat, next: nat)
    requires WritePaid(s, t, g, i, lo, next) && next < MAXFILE && SpaceWritten(t, w, g, i, next) && WellFormed(w) && i < |w.inodes|
    requires SameAliases(s, w, i)
    ensures WritePaid(s, w, g, i, lo, next + 1)
  {
    PaidStep(s, t, w, g, i, lo, next);
  }

  lemma AccountDone(s: Store, t: Store, g: Geometry, i: nat, lo: nat, next: nat)
    requires WritePaid(s, t, g, i, lo, next)
    ensures FitsIn(s, g, i, lo, next)
  {
  }

  /** The free blocks below the limit suffice for a read of positions lo up to hi. */
  ghost predicate ReadsIn(s: Store, g: Geometry, i: nat, lo: nat, hi: nat) {
    WellFormed(s) && i < |s.inodes| && hi <= MAXFILE && ReadNeed(s, i, lo, hi) <= |FreeSet(s.used, g.limit)|
  }

  ghost predicate ReadAccount(s: Store, t: Store, g: Geometry, i: nat, lo: nat, next: nat) {
    && WellFormed(s) && WellFormed(t) && i < |s.inodes| && i < |t.inodes| && lo <= next <= MAXFILE
    && ReadPaid(s, t, g, i, lo, next)
  }

  lemma ReadAccountStart(s: Store, g: Geometry, i: nat, lo: nat)
    requires SoundStore(s, g) && i < |s.inodes| && lo <= MAXFILE
    ensures ReadAccount(s, s, g, i, lo, lo)
  {
  }

  lemma ReadAccountAt(s: Store, t: Store, g: Geometry, i: nat, lo: nat, next: nat, hi: nat)
    requires ReadAccount(s, t, g, i, lo, next) && next < hi <= MAXFILE
    ensures |FreeSet(t.used, g.limit)| < MapNeed(t, i, next) ==> !ReadsIn(s, g, i, lo, hi)
  {
    ReadNeedAgrees(s, t, g, i, lo, next);
    ReadNeedGrows(s, i, lo, next + 1, hi);
    hide FreeSet, MapNeed, ReadPos;
  }

  lemma ReadAccountStep(s: Store, t: Store, u: Store, g: Geometry, i: nat, lo: nat, next: nat, addr: nat)
    requires ReadAccount(s, t, g, i, lo, next) && next < MAXFILE && MappedTo(t, u, g, i, next, addr) && SpaceMapped(t, u, g, i, next)
    ensures ReadAccount(s, u, g, i, lo, next + 1)
  {
    MappedFacts(t, u, g, i, next, addr);
    ReadPaidStep(s, t, u, g, i, lo, next);
  }

  lemma ReadAccountDone(s: Store, t: Store, g: Geometry, i: nat, lo: nat, next: nat)
    requires ReadAccount(s, t, g, i, lo, next)
    ensures ReadsIn(s, g, i, lo, next)
  {
  }
}
