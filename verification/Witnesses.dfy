/**
 Small stores on which the promises of the pass and of copy on write do not hold, taken through the
 operations themselves.
 */
module Witnesses {
  import opened Sharing
  import opened Blocks
  import opened FileStore
  import opened FileOps
  import opened FileWrites
  import opened FileSpace
  import opened Mkfs
  import opened FileSystem
  import opened Dedup
  import opened DedupOutcome
  import opened DedupLimit
  import opened Truncation

  const SMALL := Geometry(31, 60, 64)

  /** A file with up to two blocks. */
  function TwoBlocks(a: nat, b: nat): Inode {
    Inode(T_FILE, 2 * BSIZE, [a, b, 0, 0, 0, 0, 0, 0, 0, 0, 0, 0, 0])
  }

  /** Blocks 31 to n - 1 in use, once each, and all of them zero. */
  function Zeroed(n: nat, inodes: seq<Inode>): Store {
    Store(UsedBelow(64, n), NoRefs(), seq(64, b => ZeroBlock()), inodes)
  }

  /** One file with the same bytes in both its blocks. */
  function Twins(): Store {
    Zeroed(33, [NoFile(), TwoBlocks(31, 32)])
  }

  /** The same, and a later file with these bytes too. */
  function ThreeCopies(): Store {
    Zeroed(34, [NoFile(), TwoBlocks(31, 32), TwoBlocks(33, 0)])
  }

  lemma TwinsPointers(s: Store)
    requires s == Twins()
    ensures WellFormed(s) && forall i, k :: 0 <= i < 2 && 0 <= k < MAXFILE ==>
              Ptr(s, i, k) == if i == 1 && k < 2 then 31 + k else 0
  {
  }

  lemma ThreeCopiesPointers(s: Store)
    requires s == ThreeCopies()
    ensures WellFormed(s) && forall i, k :: 0 <= i < 3 && 0 <= k < MAXFILE ==>
              Ptr(s, i, k) == if i == 1 && k < 2 then 31 + k else if i == 2 && k == 0 then 33 else 0
  {
  }

  ghost predicate Held(s: Store, b: nat)
    requires WellFormed(s)
  {
    exists i, k :: 0 <= i < |s.inodes| && 0 <= k < MAXFILE && Ptr(s, i, k) == b
  }

  /** Blocks handed out once each make exact counts. */
  lemma OnceIsConsistent(s: Store, n: nat)
    requires 31 <= n <= 60 && s == Zeroed(n, s.inodes) && WellFormed(s)
    requires forall i :: 0 <= i < |s.inodes| ==> s.inodes[i].addrs[NDIRECT] == 0 && s.inodes[i].size <= MAXFILE * BSIZE
    requires forall i, k :: 0 <= i < |s.inodes| && 0 <= k < MAXFILE ==> Ptr(s, i, k) == 0 || 31 <= Ptr(s, i, k) < n
    requires forall i, k, j, m ::
               (0 <= i < |s.inodes| && 0 <= k < MAXFILE && 0 <= j < |s.inodes| && 0 <= m < MAXFILE
                && Ptr(s, i, k) == Ptr(s, j, m) != 0) ==> i == j && k == m
    requires forall b :: 31 <= b < n ==> Held(s, b)
    ensures Consistent(s, SMALL)
  {
    var v := ViewOf(s);
    assert forall i, k :: 0 <= i < |s.inodes| && 0 <= k < MAXFILE ==> v.ptrs[i][k] == Ptr(s, i, k);
    assert Shape(v, SMALL);
    forall b | 31 <= b < 60 ensures BlockOk(v, b) {
      assert !IsTable(v.tbls, b);
      if b < n {
        assert Held(s, b);
        var i, k :| 0 <= i < |s.inodes| && 0 <= k < MAXFILE && Ptr(s, i, k) == b;
        assert PtrSet(v.ptrs, b) == {(i, k)};
      } else {
        assert PtrSet(v.ptrs, b) == {};
      }
    }
  }

  lemma TwinsConsistent(s: Store)
    requires s == Twins()
    ensures Consistent(s, SMALL) && Shaped(s, SMALL) && InRange(s)
  {
    TwinsPointers(s);
    assert Ptr(s, 1, 0) == 31 && Ptr(s, 1, 1) == 32;
    assert Held(s, 31) && Held(s, 32);
    OnceIsConsistent(s, 33);
  }

  lemma ThreeCopiesConsistent(s: Store)
    requires s == ThreeCopies()
    ensures Consistent(s, SMALL) && Shaped(s, SMALL) && InRange(s)
  {
    ThreeCopiesPointers(s);
    assert Ptr(s, 1, 0) == 31 && Ptr(s, 1, 1) == 32 && Ptr(s, 2, 0) == 33;
    assert Held(s, 31) && Held(s, 32) && Held(s, 33);
    OnceIsConsistent(s, 34);
  }

  lemma SmallFits(s: Store)
    requires s == Twins() || s == ThreeCopies()
    ensures WellFormed(s) && InRange(s) && Fits(s)
    ensures |s.refs| == NREFS && forall b :: 0 <= b < NREFS ==> s.refs[b] <= MAXREF
  {
    if s == Twins() { TwinsPointers(s); } else { ThreeCopiesPointers(s); }
    forall c ensures |Holders(s, c)| <= MAXREF + 1 {
      FewHolders(Holders(s, c), {(1, 0), (1, 1), (2, 0)});
    }
  }

  lemma FewHolders(a: set<(nat, nat)>, b: set<(nat, nat)>)
    requires a <= b
    ensures |a| <= |b|
  {
    assert b == a + (b - a);
  }

  // ---- the pass leaves equal blocks of one file apart ----

  /** Whatever the pass does from here, the two equal blocks of file 1 end on different disk blocks: the
      first is merged with the second, and then the second with the later file's. */
  lemma ThreeCopiesSplit(trace: seq<Store>)
    requires |trace| > 0 && trace[0] == ThreeCopies()
    requires WellFormed(trace[0]) && IsTrace(trace, Visits(trace[0], |trace[0].inodes|), SMALL)
    ensures Consistent(trace[0], SMALL) && InRange(trace[0]) && BlockAt(trace[0], 1, 0) == BlockAt(trace[0], 1, 1)
    ensures var f := trace[|trace| - 1];
            WellFormed(f) && |f.inodes| == 3 && Ptr(f, 1, 0) == 32 && Ptr(f, 1, 1) == 33
  {
    var s := trace[0];
    ThreeCopiesConsistent(s);
    ThreeCopiesPointers(s);
    assert Ptr(s, 1, 0) == 31 && Ptr(s, 1, 1) == 32 && Ptr(s, 2, 0) == 33;
    assert Duplicate(s, 1, 0, 1, 1) && Duplicate(s, 1, 1, 2, 0);
    assert Near(s, 1, 0, 1);
    assert FarPast(s, 0, 1, 1, 2, 0);
    assert StartWord(s, 1, 1, 0);
    assert Visited(s, 1, 0) && Visited(s, 1, 1);
    PassPointers(trace, SMALL, 1, 0);
    PassPointers(trace, SMALL, 1, 1);
  }

  method PassOnThreeCopies() returns (fs: FileSystem)
    ensures var f := fs.State();
            && Consistent(f, SMALL) && SameContents(ThreeCopies(), f, SMALL)
            && |f.inodes| == 3 && Ptr(f, 1, 0) == 32 && Ptr(f, 1, 1) == 33
  {
    hide Consistent, ThreeCopies, Fits, Shaped, SameContents, IsTrace, Visits, Ptr, WellFormed, InRange, Wrapped, LogicalTotal, FreeBlocks;
    ThreeCopiesConsistent(ThreeCopies());
    SmallFits(ThreeCopies());
    fs := new FileSystem(SMALL, ThreeCopies());
    var ok, trace := DedupPass(fs);
    ThreeCopiesSplit(trace);
  }

  // ---- a duplicate the search skips ----

  /** A file with block 31 at positions 0 and 12, its table in block 33, and a later file with block 32; the
      bytes of blocks 31 and 32 are equal. */
  function Skipping(): Store {
    Store(UsedBelow(64, 34), NoRefs()[31 := 1], seq(64, b => ZeroBlock())[33 := SetWord(ZeroBlock(), 0, 31)],
          [NoFile(), Inode(T_FILE, 13 * BSIZE, [31, 0, 0, 0, 0, 0, 0, 0, 0, 0, 0, 0, 33]), TwoBlocks(32, 0)])
  }

  lemma SkippingTable(s: Store)
    requires s == Skipping()
    ensures WellFormed(s) && forall j :: 0 <= j < NINDIRECT ==> Word(s.disk[33], j) == if j == 0 then 31 else 0
  {
    forall j | 0 <= j < NINDIRECT ensures Word(s.disk[33], j) == if j == 0 then 31 else 0 {
      WordSetWord(ZeroBlock(), 0, 31, j);
      WordZero(j);
    }
  }

  lemma SkippingPointers(s: Store)
    requires s == Skipping()
    ensures WellFormed(s) && |s.inodes| == 3 && forall i, k :: 0 <= i < 3 && 0 <= k < MAXFILE ==>
              Ptr(s, i, k) == if i == 1 && (k == 0 || k == 12) then 31 else if i == 2 && k == 0 then 32 else 0
  {
    SkippingTable(s);
    hide Word, SetWord;
  }

  lemma SkippingView(s: Store)
    requires s == Skipping()
    ensures WellFormed(s) && ViewOf(s).used == UsedBelow(64, 34) && ViewOf(s).refs == NoRefs()[31 := 1] && ViewOf(s).tbls == [0, 33, 0]
    ensures |ViewOf(s).ptrs| == 3 && forall i :: 0 <= i < 3 ==> |ViewOf(s).ptrs[i]| == MAXFILE
    ensures forall i, k :: 0 <= i < 3 && 0 <= k < MAXFILE ==>
              ViewOf(s).ptrs[i][k] == if i == 1 && (k == 0 || k == 12) then 31 else if i == 2 && k == 0 then 32 else 0
    ensures Framed(s, SMALL)
  {
    hide SetWord, Word, Ptr;
    SkippingPointers(s);
    var v := ViewOf(s);
    assert forall i, k :: 0 <= i < 3 && 0 <= k < MAXFILE ==> v.ptrs[i][k] == Ptr(s, i, k);
  }

  lemma SkippingConsistent(s: Store)
    requires s == Skipping()
    ensures Consistent(s, SMALL) && Shaped(s, SMALL) && InRange(s)
  {
    hide Skipping, ViewOf, BlockOk, Framed;
    SkippingView(s);
    var v := ViewOf(s);
    assert Shape(v, SMALL);
    forall c | 31 <= c < 60 ensures BlockOk(v, c) {
      SkippingCount(v, c);
    }
    SoundInRange(s, SMALL);
  }

  lemma SkippingCount(v: View, c: nat)
    requires |v.ptrs| == 3 && v.tbls == [0, 33, 0] && (forall i :: 0 <= i < 3 ==> |v.ptrs[i]| == MAXFILE) && 31 <= c < 60
    requires forall i, k :: 0 <= i < 3 && 0 <= k < MAXFILE ==>
               v.ptrs[i][k] == if i == 1 && (k == 0 || k == 12) then 31 else if i == 2 && k == 0 then 32 else 0
    requires v.used == UsedBelow(64, 34) && v.refs == NoRefs()[31 := 1]
    ensures BlockOk(v, c)
  {
    assert IsTable(v.tbls, c) <==> c == 33 by { assert v.tbls[1] == 33; }
    if c == 31 {
      assert PtrSet(v.ptrs, c) == {(1, 0), (1, 12)};
    } else if c == 32 {
      assert PtrSet(v.ptrs, c) == {(2, 0)};
    } else {
      assert PtrSet(v.ptrs, c) == {};
    }
  }

  /** The first position goes to block 32; so the thirteenth is compared with that number, skips it, and stays
      on block 31. */
  lemma SkippingSplit(trace: seq<Store>)
    requires |trace| > 0 && trace[0] == Skipping()
    requires WellFormed(trace[0]) && IsTrace(trace, Visits(trace[0], |trace[0].inodes|), SMALL)
    ensures Consistent(trace[0], SMALL) && InRange(trace[0]) && Ptr(trace[0], 1, 0) == Ptr(trace[0], 1, 12) == 31
    ensures BlockAt(trace[0], 1, 12) == BlockAt(trace[0], 2, 0)
    ensures var f := trace[|trace| - 1];
            WellFormed(f) && |f.inodes| == 3 && Ptr(f, 1, 0) == 32 == Ptr(f, 2, 0) && Ptr(f, 1, 12) == 31
  {
    hide IsTrace, Visits, SetWord, Word;
    var s, f := trace[0], trace[|trace| - 1];
    SkippingConsistent(s);
    SkippingPointers(s);
    SkippingChoice(s);
    PassPointers(trace, SMALL, 1, 0);
    PassPointers(trace, SMALL, 1, 12);
    PassPointers(trace, SMALL, 2, 0);
    var w :| StartWord(s, 1, 12, w);
    assert StartWord(s, 1, 0, 0);
    LandsOnce(s, 0, 1, 0, w, Ptr(f, 1, 0));
  }

  lemma SkippingChoice(s: Store)
    requires s == Skipping() && WellFormed(s) && InRange(s)
    ensures Visited(s, 1, 0) && Visited(s, 1, 12) && Visited(s, 2, 0)
    ensures BlockAt(s, 1, 12) == BlockAt(s, 2, 0)
    ensures FarPast(s, 0, 1, 0, 2, 0) && NoneNear(s, 1, 12) && NonePast(s, 32, 1, 12, 1) && NoneLater(s, 2, 0)
  {
    SkippingPointers(s);
    hide SetWord, Word, Ptr;
    assert Duplicate(s, 1, 0, 2, 0);
  }

  lemma SkippingFits(s: Store)
    requires s == Skipping()
    ensures WellFormed(s) && InRange(s) && Fits(s) && |s.refs| == NREFS && forall b :: 0 <= b < NREFS ==> s.refs[b] <= MAXREF
  {
    SkippingConsistent(s);
    SkippingPointers(s);
    hide SetWord, Word;
    forall c ensures |Holders(s, c)| <= MAXREF + 1 {
      FewHolders(Holders(s, c), {(1, 0), (1, 12), (2, 0)});
    }
  }

  method PassOnSkipping() returns (fs: FileSystem)
    ensures var f := fs.State();
            && Consistent(f, SMALL) && SameContents(Skipping(), f, SMALL)
            && |f.inodes| == 3 && Ptr(f, 1, 0) == 32 && Ptr(f, 1, 12) == 31
  {
    hide Consistent, Skipping, Fits, Shaped, SameContents, IsTrace, Visits, Ptr, WellFormed, InRange, Wrapped, LogicalTotal, FreeBlocks;
    SkippingConsistent(Skipping());
    SkippingFits(Skipping());
    fs := new FileSystem(SMALL, Skipping());
    var ok, trace := DedupPass(fs);
    SkippingSplit(trace);
  }

  // ---- copy on write after a merge inside one file ----

  /** When the first n blocks are used, at most the rest is free. */
  lemma {:induction false} FreeLeft(used: seq<bool>, n: nat)
    requires n <= |used| && forall b :: 0 <= b < n ==> used[b]
    ensures FreeBlocks(used) <= |used| - n
  {
    if |used| > n {
      FreeLeft(used[..|used| - 1], n);
    } else if |used| > 0 {
      FreeLeft(used[..|used| - 1], n - 1);
    }
  }

  lemma {:induction false} FreeAbove(used: seq<bool>, n: nat)
    requires used == UsedBelow(|used|, n)
    ensures n <= |used| ==> FreeBlocks(used) == |used| - n
    ensures n >= |used| ==> FreeBlocks(used) == 0
  {
    if |used| > 0 {
      assert used[..|used| - 1] == UsedBelow(|used| - 1, n);
      FreeAbove(used[..|used| - 1], n);
    }
  }

  lemma RoomLeft(s: Store, t: Store)
    requires s == Twins() && SoundStore(t, SMALL) && FreeBlocks(t.used) >= FreeBlocks(s.used)
    ensures |t.used| == 64 && exists b :: 0 <= b < 60 && !t.used[b]
  {
    FreeAbove(s.used, 33);
    if forall b :: 0 <= b < 60 ==> t.used[b] {
      FreeLeft(t.used, 60);
    }
  }

  /** The pass puts both blocks of the twins on block 32. */
  lemma TwinsMerged(trace: seq<Store>)
    requires |trace| > 0 && trace[0] == Twins()
    requires WellFormed(trace[0]) && IsTrace(trace, Visits(trace[0], |trace[0].inodes|), SMALL)
    ensures SameBlocks(trace[0], trace[|trace| - 1], SMALL)
    ensures var f := trace[|trace| - 1]; WellFormed(f) && |f.inodes| == 2 && Ptr(f, 1, 0) == 32 && Ptr(f, 1, 1) == 32
  {
    var s := trace[0];
    TwinsConsistent(s);
    TwinsPointers(s);
    assert Ptr(s, 1, 0) == 31 && Ptr(s, 1, 1) == 32;
    assert Duplicate(s, 1, 0, 1, 1);
    assert Near(s, 1, 0, 1);
    assert NoneLater(s, 1, 1);
    assert Visited(s, 1, 0) && Visited(s, 1, 1);
    PassPointers(trace, SMALL, 1, 0);
    PassPointers(trace, SMALL, 1, 1);
  }

  /** Byte x of src is read in both blocks. */
  ghost predicate ReadTwice(w: Store, off: nat, src: seq<Byte>, x: nat)
    requires WellFormed(w) && InRange(w) && 1 < |w.inodes| && off + |src| <= BSIZE && x < |src|
  {
    Flat(w, 1)[off + x] == Flat(w, 1)[BSIZE + off + x] == src[x]
  }

  /** Writing one of two positions behind one block writes both and leaves a wrong count. */
  lemma TwinWritten(s: Store, t: Store, w: Store, off: nat, src: seq<Byte>)
    requires SameBlocks(s, t, SMALL) && s == Twins() && Consistent(t, SMALL) && Ptr(t, 1, 0) == Ptr(t, 1, 1) == 32
    requires WroteFile(t, w, SMALL, 1, off, src) && 0 < |src| && off + |src| <= BSIZE
    ensures WellFormed(w) && InRange(w) && |w.inodes| == 2 && !Consistent(w, SMALL) && TruncPanics(w, 1)
    ensures forall x :: 0 <= x < |src| ==> ReadTwice(w, off, src, x)
  {
    TwinUnsafe(t);
    hide Twins, SameBlocks, Inv, Sound, SafeAt, HasDouble, TruncPanics;
    assert !WriteSafe(t, 1, off, |src|);
    UnsafeWritePanics(t, w, SMALL, 1, off, src);
    forall x | 0 <= x < |src| ensures ReadTwice(w, off, src, x) {
      TwinByte(t, Flat(w, 1), off, src, x, 0);
      TwinByte(t, Flat(w, 1), off, src, x, 1);
    }
  }

  lemma TwinUnsafe(t: Store)
    requires Consistent(t, SMALL) && 1 < |t.inodes| && Ptr(t, 1, 0) == Ptr(t, 1, 1) == 32
    ensures |t.refs| == NREFS && !SafeAt(t, 1, 0)
  {
    var v := ViewOf(t);
    assert v.ptrs[1][0] == v.ptrs[1][1] == 32;
    if t.refs[32] == 0 {
      SoleOwner(v, SMALL, 1, 0, 1, 1);
    }
  }

  lemma TwinByte(t: Store, f: seq<Byte>, off: nat, src: seq<Byte>, x: nat, k: nat)
    requires WellFormed(t) && InRange(t) && 1 < |t.inodes| && Ptr(t, 1, 0) == Ptr(t, 1, 1) == 32 && |f| == MAXFILE * BSIZE
    requires BytesWritten(t, f, 1, off, src, |src|) && x < |src| && off + |src| <= BSIZE && k < 2
    ensures f[k * BSIZE + off + x] == src[x]
  {
    hide Ptr, WellFormed, InRange, Flat;
    var j := k * BSIZE + off + x;
    assert j / BSIZE == k && j % BSIZE == off + x;
    assert ByteWritten(t, f, 1, off, src, |src|, j);
    assert LastHit(t, 1, off, |src|, j, 0);
  }

  lemma TwinFits(t: Store, off: nat, n: nat)
    requires Consistent(t, SMALL) && 1 < |t.inodes| && Ptr(t, 1, 0) == 32 && 0 < n && off + n <= BSIZE
    requires |t.used| == 64 && exists b :: 0 <= b < 60 && !t.used[b]
    ensures FitsIn(t, SMALL, 1, off / BSIZE, EndBlock(off, n))
  {
    ConsistentIsSound(t, SMALL);
    RefsInRange(t, SMALL);
    assert off / BSIZE == 0 && EndBlock(off, n) == 1;
    var b :| 0 <= b < 60 && !t.used[b];
    assert b in FreeSet(t.used, 60);
    assert WriteNeed(t, 1, 0, 0) == 0;
    assert WriteNeed(t, 1, 0, 1) == WritePos(t, 1, 0, 0);
  }

  /** A consistent store, the pass, and one write of src into the first block of the file: the second
      block, which held zeros and was not written, reads src as well, and the counts are off. */
  method WriteAfterPass(off: nat, src: seq<Byte>) returns (fs: FileSystem)
    requires 0 < |src| && off + |src| <= BSIZE
    ensures fresh(fs) && fs.g == SMALL && SoundStore(fs.State(), SMALL)
    ensures var w := fs.State();
            && WellFormed(w) && InRange(w) && |w.inodes| == 2 && !Consistent(w, SMALL) && TruncPanics(w, 1)
            && forall x :: 0 <= x < |src| ==> ReadTwice(w, off, src, x)
  {
    hide Consistent, Twins, Fits, Shaped, SameBlocks, SameContents, IsTrace, Visits, Ptr, WellFormed, InRange;
    hide SoundStore, Wrapped, LogicalTotal, FreeBlocks, FitsIn, EndBlock, WroteFile, TruncPanics, ReadTwice;
    ghost var s := Twins();
    TwinsConsistent(s);
    SmallFits(s);
    fs := new FileSystem(SMALL, Twins());
    var done, trace := DedupPass(fs);
    ghost var t := fs.State();
    TwinsMerged(trace);
    TwinsSize(s, t);
    ConsistentIsSound(t, SMALL);
    RoomLeft(s, t);
    TwinFits(t, off, |src|);
    var r := fs.Writei(1, src, off);
    TwinWritten(s, t, fs.State(), off, src);
    WroteSound(t, fs.State(), off, src);
  }

  lemma TwinsSize(s: Store, t: Store)
    requires s == Twins() && SameBlocks(s, t, SMALL)
    ensures |t.inodes| == 2 && t.inodes[1].typ == T_FILE && t.inodes[1].size == 2 * BSIZE
  {
  }

  lemma WroteSound(t: Store, w: Store, off: nat, src: seq<Byte>)
    requires WroteFile(t, w, SMALL, 1, off, src)
    ensures SoundStore(w, SMALL)
  {
  }

  /** Truncating the file then is the panic on freeing a free block. */
  method TruncAfterWrite(off: nat, src: seq<Byte>) returns (panicked: bool)
    requires 0 < |src| && off + |src| <= BSIZE
    ensures panicked
  {
    hide SoundStore, Consistent, TruncPanics, WellFormed, InRange, ReadTwice, Truncated;
    var fs := WriteAfterPass(off, src);
    panicked := fs.Itrunc(1);
  }

  // ---- a reference byte that is full ----

  /** A file with one block of its own, and 64 later files with 4 pointers each to block 31; all bytes are
      zero. */
  function Crowded(): Store {
    Store(UsedBelow(64, 33), seq(NREFS, b => if b == 31 then MAXREF else 0), seq(64, b => ZeroBlock()), seq(66, i => CrowdedInode(i)))
  }

  function CrowdedInode(i: int): Inode {
    if i == 0 then NoFile()
    else if i == 1 then Inode(T_FILE, BSIZE, [32, 0, 0, 0, 0, 0, 0, 0, 0, 0, 0, 0, 0])
    else Inode(T_FILE, 4 * BSIZE, [31, 31, 31, 31, 0, 0, 0, 0, 0, 0, 0, 0, 0])
  }

  lemma CrowdedPointers(s: Store)
    requires s == Crowded()
    ensures WellFormed(s) && |s.inodes| == 66 && forall i, k :: 0 <= i < 66 && 0 <= k < MAXFILE ==>
              Ptr(s, i, k) == if i >= 2 && k < 4 then 31 else if i == 1 && k == 0 then 32 else 0
  {
  }

  /** Positions below m of the files from lo up to n. */
  ghost function Grid(lo: nat, n: nat, m: nat): set<(nat, nat)> {
    set i, k | lo <= i < n && 0 <= k < m :: (i, k)
  }

  ghost function Column(n: nat, m: nat): set<(nat, nat)> {
    set k | 0 <= k < m :: (n, k)
  }

  lemma {:induction false} ColumnSize(n: nat, m: nat)
    ensures |Column(n, m)| == m
  {
    if m > 0 {
      ColumnSize(n, m - 1);
      assert Column(n, m) == Column(n, m - 1) + {(n, m - 1)};
    }
  }

  lemma GridSplits(lo: nat, n: nat, m: nat)
    requires lo < n
    ensures |Grid(lo, n, m)| == |Grid(lo, n - 1, m)| + |Column(n - 1, m)|
  {
    assert Grid(lo, n, m) == Grid(lo, n - 1, m) + Column(n - 1, m);
    assert Grid(lo, n - 1, m) !! Column(n - 1, m);
  }

  lemma OneMore(a: nat, m: nat)
    ensures (a + 1) * m == a * m + m
  {
  }

  lemma {:induction false} GridSize(lo: nat, n: nat, m: nat)
    requires lo <= n
    ensures |Grid(lo, n, m)| == (n - lo) * m
  {
    if n > lo {
      GridSize(lo, n - 1, m);
      ColumnSize(n - 1, m);
      GridSplits(lo, n, m);
      OneMore(n - 1 - lo, m);
    } else {
      assert Grid(lo, n, m) == {};
    }
  }

  lemma CrowdedShape(s: Store)
    requires s == Crowded()
    ensures Shaped(s, SMALL) && InRange(s) && forall i :: 0 <= i < 66 ==> ViewOf(s).tbls[i] == 0
    ensures forall i, k :: 0 <= i < 66 && 0 <= k < MAXFILE ==>
              ViewOf(s).ptrs[i][k] == if i >= 2 && k < 4 then 31 else if i == 1 && k == 0 then 32 else 0
  {
    CrowdedPointers(s);
    var v := ViewOf(s);
    assert forall i, k :: 0 <= i < 66 && 0 <= k < MAXFILE ==> v.ptrs[i][k] == Ptr(s, i, k);
    assert forall i :: 0 <= i < 66 ==> v.tbls[i] == 0;
    assert Shape(v, SMALL);
    SoundInRange(s, SMALL);
  }

  lemma CrowdedCount(v: View, c: nat)
    requires |v.ptrs| == |v.tbls| == 66 && (forall i :: 0 <= i < 66 ==> v.tbls[i] == 0 && |v.ptrs[i]| == MAXFILE)
    requires forall i, k :: 0 <= i < 66 && 0 <= k < MAXFILE ==>
               v.ptrs[i][k] == if i >= 2 && k < 4 then 31 else if i == 1 && k == 0 then 32 else 0
    requires v.used == UsedBelow(64, 33) && |v.refs| == NREFS && 31 <= c < 60
    requires v.refs[31] == MAXREF && forall b :: 31 < b < 60 ==> v.refs[b] == 0
    ensures BlockOk(v, c)
  {
    assert !IsTable(v.tbls, c);
    if c == 31 {
      assert PtrSet(v.ptrs, c) == Grid(2, 66, 4);
      GridSize(2, 66, 4);
    } else if c == 32 {
      assert PtrSet(v.ptrs, c) == {(1, 0)};
    } else {
      assert PtrSet(v.ptrs, c) == {};
    }
  }

  lemma CrowdedConsistent(s: Store)
    requires s == Crowded()
    ensures Consistent(s, SMALL)
  {
    CrowdedShape(s);
    CrowdedRefs();
    var v := ViewOf(s);
    hide Crowded, ViewOf, Shape, BlockOk, UsedBelow;
    assert v.used == UsedBelow(64, 33) && v.refs == s.refs && |v.ptrs| == |v.tbls| == 66 by { CrowdedView(s); }
    forall c | 31 <= c < 60 ensures BlockOk(v, c) {
      CrowdedCount(v, c);
    }
  }

  lemma CrowdedView(s: Store)
    requires s == Crowded()
    ensures WellFormed(s) && ViewOf(s).used == UsedBelow(64, 33) && ViewOf(s).refs == s.refs
    ensures |ViewOf(s).ptrs| == |ViewOf(s).tbls| == 66 && forall i :: 0 <= i < 66 ==> |ViewOf(s).ptrs[i]| == MAXFILE
  {
  }

  lemma CrowdedRefs()
    ensures var s := Crowded(); |s.refs| == NREFS && s.refs[31] == MAXREF && s.used[32]
    ensures var s := Crowded(); (forall b :: 0 <= b < NREFS && b != 31 ==> s.refs[b] == 0) && forall b :: 0 <= b < NREFS ==> s.refs[b] <= MAXREF
  {
  }

  /** The lone block is to be merged with the last pointer of the last file. */
  lemma CrowdedChoice(s: Store)
    requires s == Crowded()
    ensures Shaped(s, SMALL) && InRange(s) && Visited(s, 1, 0) && Far(s, 1, 0, 65, 3)
  {
    CrowdedShape(s);
    CrowdedPointers(s);
    hide Crowded;
    CrowdedFiles(s);
    assert forall j, m :: 0 <= j < 66 && 0 <= m < MAXFILE && Ptr(s, j, m) != 0 ==> BlockAt(s, j, m) == ZeroBlock();
    assert Duplicate(s, 1, 0, 65, 3);
    assert FarPast(s, 0, 1, 0, 65, 3);
    FarIsPast(s, 1, 0);
  }

  lemma CrowdedFiles(s: Store)
    requires s == Crowded()
    ensures |s.inodes| == 66 && (forall i :: 0 < i < 66 ==> s.inodes[i].typ == T_FILE) && s.disk == seq(64, b => ZeroBlock())
  {
  }

  lemma FirstVisit(s: Store)
    requires s == Crowded()
    ensures WellFormed(s) && Visits(s, |s.inodes|) != [] && Visits(s, |s.inodes|)[0] == (1, 0)
  {
    CrowdedChoice(s);
    var n := TurnOf(s, 1, 0);
    VisitsOrdered(s, |s.inodes|);
    hide Visits, Crowded;
    var v := Visits(s, |s.inodes|);
    assert Visited(s, v[0].0, v[0].1);
    assert !Less(v[0], (1, 0));
  }

  /** Behind the first position nothing differs from anything later. */
  lemma NothingElse(s: Store, t: Store, i: nat, k: nat, j: nat, m: nat)
    requires s == Crowded() && AsAtStart(s, t, SMALL, i, k) && i < |s.inodes| && k < MAXFILE && Less((1, 0), (i, k))
    ensures WellFormed(t) && InRange(t) && !Chosen(t, i, k, j, m)
  {
    StartFacts(s, t, SMALL, i, k);
    CrowdedPointers(s);
    hide Crowded;
    if Chosen(t, i, k, j, m) {
      ChosenLater(t, i, k, j, m);
      SameDuplicates(s, t, SMALL, i, k, j, m);
    }
  }

  /** So only the first turn changes the store. */
  lemma {:induction false} CrowdedStays(trace: seq<Store>, v: seq<(nat, nat)>, n: nat)
    requires Turns(trace, v, SMALL) && trace[0] == Crowded() && 1 <= n <= |v|
    ensures |trace| == |v| + 1 && trace[n] == trace[1]
  {
    hide Crowded, Turns;
    TurnsLength(trace, v, SMALL);
    if n > 1 {
      CrowdedStays(trace, v, n - 1);
      LaterTurn(trace, v, n - 1);
    }
  }

  lemma LaterTurn(trace: seq<Store>, v: seq<(nat, nat)>, n: nat)
    requires Turns(trace, v, SMALL) && trace[0] == Crowded() && 1 <= n < |v|
    ensures |trace| == |v| + 1 && trace[n + 1] == trace[n]
  {
    hide Crowded, Visits, IsTrace;
    var s, i, k := trace[0], v[n].0, v[n].1;
    FirstVisit(s);
    TurnsInOrder(s, v, n);
    AtTurn(trace, v, SMALL, n, i, k);
    VisitedIn(s, i, k);
    forall j: nat, m: nat ensures WellFormed(trace[n]) && InRange(trace[n]) && !Chosen(trace[n], i, k, j, m) {
      NothingElse(s, trace[n], i, k, j, m);
    }
  }

  lemma FirstTurn(trace: seq<Store>, v: seq<(nat, nat)>)
    requires Turns(trace, v, SMALL) && trace[0] == Crowded() && |v| > 0
    ensures |trace| == |v| + 1 && Merged(trace[0], trace[1], SMALL, 1, 0, 65, 3)
  {
    hide Crowded, Visits, Merged, IsTrace, Far, Near;
    var s := trace[0];
    CrowdedChoice(s);
    FirstVisit(s);
    CrowdedPointers(s);
    AtTurn(trace, v, SMALL, 0, 1, 0);
    ChosenSomewhere(s, 1, 0, 65, 3);
    assert Ptr(s, 1, 0) == 32;
    var j, m :| Chosen(s, 1, 0, j, m) && Merged(s, trace[1], SMALL, 1, 0, j, m);
    ChosenOnce(s, 1, 0, j, m, 65, 3);
  }

  /** The pass comes to its end: the lone block is in use, and no later turn frees anything. */
  lemma NeverStuck(trace: seq<Store>)
    requires |trace| > 0 && trace[0] == Crowded()
    ensures WellFormed(trace[0]) && !Stuck(trace, Visits(trace[0], |trace[0].inodes|), SMALL)
  {
    var s := trace[0];
    CrowdedChoice(s);
    FirstVisit(s);
    CrowdedRefs();
    CrowdedPointers(s);
    hide Crowded;
    var all := Visits(s, |s.inodes|);
    if Stuck(trace, all, SMALL) {
      var n := |trace| - 1;
      StuckTurns(trace, s, SMALL);
      if n > 0 {
        TurnsInOrder(s, all, n);
        VisitedIn(s, all[n].0, all[n].1);
        NextTurn(trace, s, all, n);
        var j, m :| Chosen(trace[n], all[n].0, all[n].1, j, m);
        NothingElse(s, trace[n], all[n].0, all[n].1, j, m);
      }
    }
  }

  lemma NextTurn(trace: seq<Store>, s: Store, all: seq<(nat, nat)>, n: nat)
    requires WellFormed(s) && all == Visits(s, |s.inodes|) && n < |all| && Turns(trace, all[..n], SMALL) && trace[0] == s
    ensures |trace| == n + 1 && AsAtStart(s, trace[n], SMALL, all[n].0, all[n].1)
  {
    hide Visits;
    TurnsInOrder(s, all, n);
    TraceLength(trace, all[..n], SMALL);
    TurnsKeep(trace, all[..n], SMALL, 0, n);
    StartKept(s, trace[n], SMALL, all[..n][0..n], all[n].0, all[n].1);
  }

  lemma CrowdedBytes(s: Store, t: Store)
    requires s == Crowded() && Merged(s, t, SMALL, 1, 0, 65, 3)
    ensures |t.refs| == NREFS && t.refs[31] == 0 && |t.used| == 64 && t.used[31] && Wraps(s, t)
  {
    CrowdedPointers(s);
    CrowdedRefs();
    assert ViewOf(s).ptrs[1][0] == 32 && ViewOf(s).ptrs[65][3] == 31;
    assert t.refs == Merge(ViewOf(s), 1, 0, 31).refs && t.used == Merge(ViewOf(s), 1, 0, 31).used;
    assert s.refs[31] == MAXREF;
  }

  lemma CrowdedAfter(s: Store, t: Store)
    requires s == Crowded() && Merged(s, t, SMALL, 1, 0, 65, 3)
    ensures WellFormed(t) && |t.inodes| == 66
    ensures forall i, k :: 0 <= i < 66 && 0 <= k < MAXFILE ==>
              Ptr(t, i, k) == if (i >= 2 && k < 4) || (i == 1 && k == 0) then 31 else 0
  {
    CrowdedPointers(s);
    MergedPointers(s, t, SMALL, 1, 0, 65, 3);
    hide Crowded;
  }

  lemma CrowdedSet(t: Store)
    requires WellFormed(t) && |t.inodes| == 66
    requires forall i, k :: 0 <= i < 66 && 0 <= k < MAXFILE ==>
               Ptr(t, i, k) == if (i >= 2 && k < 4) || (i == 1 && k == 0) then 31 else 0
    ensures |PtrSet(ViewOf(t).ptrs, 31)| == 257
  {
    var p := ViewOf(t).ptrs;
    assert forall i, k :: 0 <= i < 66 && 0 <= k < MAXFILE ==> p[i][k] == Ptr(t, i, k);
    assert PtrSet(p, 31) == Grid(2, 66, 4) + {(1, 0)};
    GridSize(2, 66, 4);
  }

  lemma CrowdedSound(s: Store, t: Store)
    requires s == Crowded() && Merged(s, t, SMALL, 1, 0, 65, 3)
    ensures SoundStore(t, SMALL)
  {
    CrowdedBytes(s, t);
    CrowdedAfter(s, t);
    var v := ViewOf(t);
    assert forall i, k :: 0 <= i < 66 && 0 <= k < MAXFILE ==> v.ptrs[i][k] == Ptr(t, i, k);
    CrowdedShape(s);
    hide Crowded;
    assert v.tbls == ViewOf(s).tbls;
  }

  /** What every pass over the crowded store leaves. */
  lemma CrowdedPassed(trace: seq<Store>)
    requires |trace| > 0 && trace[0] == Crowded() && WellFormed(trace[0])
    requires IsTrace(trace, Visits(trace[0], |trace[0].inodes|), SMALL)
    ensures Merged(trace[0], trace[|trace| - 1], SMALL, 1, 0, 65, 3) && Wrapped(trace)
  {
    hide Crowded, Visits, Merged, Wraps;
    var s := trace[0];
    FirstVisit(s);
    CrowdedChoice(s);
    var v := Visits(s, |s.inodes|);
    FirstTurn(trace, v);
    CrowdedStays(trace, v, |v|);
    CrowdedBytes(s, trace[1]);
    assert Wraps(trace[0], trace[0 + 1]);
  }

  /** The pass over a consistent store wraps a byte: every file reads the same, but 257 positions now point at
      a block whose byte is 0. */
  method PassOnCrowded() returns (fs: FileSystem)
    ensures fresh(fs) && fs.g == SMALL && WellFormed(Crowded()) && InRange(Crowded()) && Overfull(Crowded())
    ensures SameContents(Crowded(), fs.State(), SMALL) && !Consistent(fs.State(), SMALL)
    ensures fs.Refs()[31] == 0 && |PtrSet(ViewOf(fs.State()).ptrs, 31)| == 257
    ensures Merged(Crowded(), fs.State(), SMALL, 1, 0, 65, 3)
  {
    hide Consistent, Crowded, Shaped, SameContents, Ptr, WellFormed, InRange, Merged, Visits, IsTrace, Wrapped, Jams, Overfull, Fits, PtrSet, ViewOf, Short;
    ghost var s := Crowded();
    CrowdedConsistent(s);
    CrowdedShape(s);
    CrowdedRefs();
    fs := new FileSystem(SMALL, Crowded());
    var ok, trace := DedupPass(fs);
    NeverStuck(trace);
    CrowdedPassed(trace);
    CrowdedBytes(s, fs.State());
    CrowdedAfter(s, fs.State());
    CrowdedSet(fs.State());
    CrowdedIsShort(s);
    WholePass(trace, s, SMALL);
    WrapsExactly(trace, Visits(s, |s.inodes|), SMALL);
  }

  lemma CrowdedIsShort(s: Store)
    requires s == Crowded()
    ensures WellFormed(s) && Short(s)
  {
    CrowdedPointers(s);
  }

  /** The store the pass leaves. */
  ghost predicate Passed(t: Store) {
    && SoundStore(t, SMALL) && |t.refs| == NREFS && t.refs[31] == 0 && |t.used| == 64 && t.used[31] && |t.inodes| == 66
    && forall i, k :: 0 <= i < 66 && 0 <= k < MAXFILE ==>
         Ptr(t, i, k) == if (i >= 2 && k < 4) || (i == 1 && k == 0) then 31 else 0
  }

  lemma CrowdedLeaves(t: Store)
    requires Merged(Crowded(), t, SMALL, 1, 0, 65, 3)
    ensures Passed(t) && SoundStore(t, SMALL) && |t.inodes| == 66
  {
    CrowdedSound(Crowded(), t);
    CrowdedAfter(Crowded(), t);
    CrowdedBytes(Crowded(), t);
    hide Crowded, Merged, SoundStore;
  }

  /** Truncating the first file then frees the block under all the others ... */
  method TruncLone() returns (fs: FileSystem, panicked: bool)
    ensures !panicked && 31 < |fs.used| && !fs.used[31]
    ensures WellFormed(fs.State()) && |fs.inodes| == 66 && forall i :: 2 <= i < 66 ==> Ptr(fs.State(), i, 0) == 31
  {
    hide Consistent, Crowded, SameContents, Merged, Overfull, PtrSet, Passed, Truncated, TruncPanics, Ptr, Sound, WellFormed, InRange, Flat;
    fs := PassOnCrowded();
    ghost var t := fs.State();
    CrowdedLeaves(t);
    LoneTimes(t);
    panicked := fs.Itrunc(1);
    LoneFreed(t, fs.used, fs.Refs());
    LoneOthers(t, fs.State());
  }

  /** ... and truncating one of those panics. */
  method TruncSharer() returns (fs: FileSystem, panicked: bool)
    ensures panicked
  {
    hide Consistent, Crowded, SameContents, Merged, Overfull, PtrSet, Passed, Truncated, TruncPanics, Ptr, Sound, WellFormed, InRange, Flat;
    fs := PassOnCrowded();
    ghost var t := fs.State();
    CrowdedLeaves(t);
    SharerDoubled(t);
    panicked := fs.Itrunc(2);
  }

  lemma SharerDoubled(t: Store)
    requires Passed(t)
    ensures WellFormed(t) && 2 < |t.inodes| && TruncPanics(t, 2)
  {
    assert Doubled(t, 2, 0, 1);
    DoublePanics(t, 2);
  }

  lemma LoneFreed(t: Store, used: seq<bool>, refs: seq<nat>)
    requires Passed(t) && WellFormed(t) && 1 < |t.inodes| && Truncated(t, 1, used, refs)
    ensures |used| == 64 && !used[31]
  {
    LoneTimes(t);
  }

  lemma LoneOthers(t: Store, u: Store)
    requires Passed(t) && |u.inodes| == |t.inodes| && u.disk == t.disk
    requires forall j :: 0 <= j < |t.inodes| && j != 1 ==> u.inodes[j] == t.inodes[j]
    requires u.inodes[1] == Inode(t.inodes[1].typ, 0, seq(NDIRECT + 1, k => 0))
    ensures WellFormed(u) && |u.inodes| == 66 && forall i :: 2 <= i < 66 ==> Ptr(u, i, 0) == 31
  {
    assert forall i :: 2 <= i < 66 ==> Ptr(u, i, 0) == Ptr(t, i, 0);
  }

  lemma LoneTimes(t: Store)
    requires Passed(t)
    ensures WellFormed(t) && 1 < |t.inodes| && Times(FilePtrs(t, 1), 31, MAXFILE) == 1 && !TruncPanics(t, 1)
  {
    var p := FilePtrs(t, 1);
    hide SoundStore;
    assert WellFormed(t) && p[0] == 31;
    forall b: nat | b != 0 ensures Times(p, b, MAXFILE) == if b == 31 then 1 else 0 {
      OneTime(p, b, MAXFILE);
    }
  }

  lemma {:induction false} OneTime(p: seq<nat>, b: nat, n: nat)
    requires 1 <= n <= |p| && b != 0 && forall k :: 0 < k < n ==> p[k] == 0
    ensures Times(p, b, n) == if p[0] == b then 1 else 0
  {
    if n > 1 {
      OneTime(p, b, n - 1);
    } else {
      assert Times(p, b, 0) == 0;
    }
  }
}
