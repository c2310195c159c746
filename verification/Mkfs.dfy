/**
 The image mkfs builds and every run starts from. Blocks are handed out by a counter and the bitmap is
 written last, from that counter; until then the counter stands for the bitmap.
 */
module Mkfs {
  import opened Basics
  import opened Sharing
  import opened Blocks
  import opened FileStore
  import opened FileOps
  import opened FileWrites
  import opened FileSpace

  function UsedBelow(size: nat, n: nat): (u: seq<bool>)
    ensures |u| == size && forall b :: 0 <= b < size ==> u[b] == (b < n)
  {
    seq(size, b => b < n)
  }

  function NoRefs(): (r: seq<nat>)
    ensures |r| == NREFS && forall b :: 0 <= b < NREFS ==> r[b] == 0
  {
    seq(NREFS, b => 0)
  }

  function NoFile(): Inode {
    Inode(0, 0, seq(NDIRECT + 1, k => 0))
  }

  ghost predicate ZeroFrom(disk: seq<Block>, n: nat) {
    forall b :: n <= b < |disk| ==> disk[b] == ZeroBlock()
  }

  /** An image under construction with n blocks handed out. */
  ghost predicate Building(s: Store, g: Geometry, n: nat) {
    && Consistent(s, g) && g.first <= n <= g.limit
    && s.used == UsedBelow(g.size, n) && s.refs == NoRefs() && ZeroFrom(s.disk, n)
  }

  /** The image before any file: no pointer at all. */
  lemma EmptyBuilding(s: Store, g: Geometry)
    requires GeometryOk(g) && s.used == UsedBelow(g.size, g.first) && s.refs == NoRefs()
    requires |s.disk| == g.size && ZeroFrom(s.disk, 0)
    requires forall i :: 0 <= i < |s.inodes| ==> s.inodes[i] == NoFile()
    ensures Building(s, g, g.first)
  {
    assert WellFormed(s);
    var v := ViewOf(s);
    forall i, k | 0 <= i < |s.inodes| && 0 <= k < MAXFILE ensures v.ptrs[i][k] == 0 {
      assert v.ptrs[i][k] == Ptr(s, i, k);
    }
    assert Shape(v, g);
    forall b | g.first <= b < g.limit ensures BlockOk(v, b) {
      assert !IsTable(v.tbls, b);
      assert PtrSet(v.ptrs, b) == {};
    }
  }

  /** Counting freeblock up is an allocation, since the block is zero already. */
  lemma NextIsFresh(s: Store, g: Geometry, n: nat)
    requires Building(s, g, n) && n < g.limit
    ensures SoundStore(s, g) && Fresh(s, g, n) && n < |s.disk| && n < |s.used| && n < UINT_LIMIT
    ensures s.(used := UsedBelow(g.size, n + 1)) == AllocBlock(s, n)
  {
    ConsistentIsSound(s, g);
    assert UsedBelow(g.size, n + 1) == s.used[n := true];
    assert s.disk == s.disk[n := ZeroBlock()];
  }

  predicate Addressed(s: Store, i: nat)
    requires i < |s.inodes|
  {
    |s.inodes[i].addrs| == NDIRECT + 1 && s.inodes[i].addrs[NDIRECT] < |s.disk|
  }

  lemma BuildingFacts(s: Store, g: Geometry, n: nat, i: nat)
    requires Building(s, g, n) && i < |s.inodes|
    ensures Consistent(s, g) && Addressed(s, i) && 0 < g.first <= n <= g.limit <= |s.disk| && g.limit < UINT_LIMIT
    ensures g.limit <= g.size && g.limit <= NREFS
  {
  }

  lemma BuildingClean(s: Store, g: Geometry, n: nat)
    requires Building(s, g, n)
    ensures FreeClean(s, g)
  {
    ConsistentIsClean(s, g);
  }

  lemma ProgressInodes(s: Store, t: Store, g: Geometry, i: nat, off: nat, src: seq<Byte>, tot: nat, next: nat)
    requires Progress(s, t, g, i, off, src, tot, next)
    ensures SameInodes(s, t)
  {
  }

  /** What the counter has not reached is what balloc could hand out. */
  lemma {:induction false} LeftOver(size: nat, limit: nat, n: nat)
    requires n <= limit <= size
    ensures |FreeSet(UsedBelow(size, n), limit)| == limit - n
    decreases limit - n
  {
    if n < limit {
      assert UsedBelow(size, n + 1) == UsedBelow(size, n)[n := true];
      TakesOne(UsedBelow(size, n), limit, n);
      LeftOver(size, limit, n + 1);
    } else {
      assert FreeSet(UsedBelow(size, n), limit) == {};
    }
  }

  /** What a position needs, by what iappend looks at. */
  lemma NeedAt(s: Store, g: Geometry, n: nat, i: nat, k: nat)
    requires Building(s, g, n) && i < |s.inodes| && k < MAXFILE && Addressed(s, i)
    ensures WellFormed(s) && (NoTable(s, i) <==> s.inodes[i].addrs[NDIRECT] == 0)
    ensures k < NDIRECT ==> MapNeed(s, i, k) == if s.inodes[i].addrs[k] != 0 then 0 else 1
    ensures k >= NDIRECT && s.inodes[i].addrs[NDIRECT] == 0 ==> MapNeed(s, i, k) == 2
    ensures k >= NDIRECT && s.inodes[i].addrs[NDIRECT] != 0 ==>
              MapNeed(s, i, k) == if Word(s.disk[s.inodes[i].addrs[NDIRECT]], k - NDIRECT) != 0 then 0 else 1
  {
    hide Inv, Sound;
  }

  /** A new table has no position filled. */
  lemma NeedUnderTable(s: Store, g: Geometry, n: nat, i: nat, k: nat)
    requires Building(s, g, n) && n < g.limit && i < |s.inodes| && NDIRECT <= k < MAXFILE && Addressed(s, i)
    requires s.inodes[i].addrs[NDIRECT] == 0
    ensures var t := SetAddr(s.(used := UsedBelow(g.size, n + 1)), i, NDIRECT, n);
            Building(t, g, n + 1) && MapNeed(t, i, k) == 1 && MapNeed(s, i, k) == 2
  {
    TableBuilding(s, g, n, i, k);
    hide Inv, Sound, MappedTo;
    assert Word(s.disk[n], k - NDIRECT) == 0 by { WordZero(k - NDIRECT); }
  }

  lemma SpaceCounted(s: Store, t: Store, g: Geometry, n: nat, m: nat, i: nat, k: nat)
    requires Building(s, g, n) && Building(t, g, m) && i < |s.inodes| == |t.inodes| && k < MAXFILE
    requires m == n + MapNeed(s, i, k) && (NoTable(t, i) <==> NoTable(s, i) && k < NDIRECT)
    ensures SpaceMapped(s, t, g, i, k)
  {
    LeftOver(g.size, g.limit, n);
    LeftOver(g.size, g.limit, m);
    hide Inv, Sound, MapNeed;
  }

  /** Everything pointed at has been handed out. */
  lemma PointersBelow(s: Store, g: Geometry, n: nat, i: nat)
    requires Building(s, g, n) && i < |s.inodes|
    ensures s.inodes[i].addrs[NDIRECT] < n
    ensures forall k :: 0 <= k < MAXFILE ==> Ptr(s, i, k) < n
  {
    ConsistentIsSound(s, g);
    assert ViewOf(s).tbls[i] == s.inodes[i].addrs[NDIRECT];
    forall k | 0 <= k < MAXFILE ensures Ptr(s, i, k) < n {
      assert ViewOf(s).ptrs[i][k] == Ptr(s, i, k);
    }
  }

  /** With all reference bytes 0 every write is safe. */
  lemma UnsharedIsSafe(s: Store, g: Geometry, n: nat, i: nat, off: nat, len: nat)
    requires Building(s, g, n) && i < |s.inodes| && off + len <= MAXFILE * BSIZE
    ensures forall k :: 0 <= k < MAXFILE ==> Ptr(s, i, k) < |s.refs|
    ensures WriteSafe(s, i, off, len)
  {
    PointersBelow(s, g, n, i);
  }

  /** The next free block entered in the table of file i. */
  lemma IndirectBuilding(s: Store, g: Geometry, n: nat, i: nat, j: nat)
    requires Building(s, g, n) && n < g.limit && n < UINT_LIMIT && i < |s.inodes| && j < NINDIRECT && Addressed(s, i)
    requires s.inodes[i].addrs[NDIRECT] != 0 && Word(s.disk[s.inodes[i].addrs[NDIRECT]], j) == 0
    ensures var t := SetTableWord(s.(used := UsedBelow(g.size, n + 1)), s.inodes[i].addrs[NDIRECT], j, n);
            Building(t, g, n + 1) && MappedTo(s, t, g, i, NDIRECT + j, n)
  {
    NextIsFresh(s, g, n);
    PointersBelow(s, g, n, i);
    MapIndirect(s, g, i, j, n);
    hide SetWord, Inv, Sound;
  }

  /** The same as the direct pointer k of file i. */
  lemma DirectBuilding(s: Store, g: Geometry, n: nat, i: nat, k: nat)
    requires Building(s, g, n) && n < g.limit && i < |s.inodes| && k < NDIRECT && Addressed(s, i)
    requires s.inodes[i].addrs[k] == 0
    ensures var t := SetAddr(s.(used := UsedBelow(g.size, n + 1)), i, k, n);
            Building(t, g, n + 1) && MappedTo(s, t, g, i, k, n)
  {
    NextIsFresh(s, g, n);
    MapDirect(s, g, i, k, n);
    hide Inv, Sound;
  }

  /** The same as the table of file i: not yet a position. */
  lemma TableBuilding(s: Store, g: Geometry, n: nat, i: nat, k: nat)
    requires Building(s, g, n) && n < g.limit && i < |s.inodes| && NDIRECT <= k < MAXFILE && Addressed(s, i)
    requires s.inodes[i].addrs[NDIRECT] == 0
    ensures var t := SetAddr(s.(used := UsedBelow(g.size, n + 1)), i, NDIRECT, n);
            && Building(t, g, n + 1)
            && forall u, x :: MappedTo(t, u, g, i, k, x) ==> MappedTo(s, u, g, i, k, x)
  {
    NextIsFresh(s, g, n);
    MapTable(s, g, i, n);
    var t := SetAddr(s.(used := UsedBelow(g.size, n + 1)), i, NDIRECT, n);
    assert AllPtrs(t)[i][k] == Ptr(t, i, k) && AllPtrs(s)[i][k] == Ptr(s, i, k);
    hide Inv, Sound, MappedTo;
    forall u, x | MappedTo(t, u, g, i, k, x) ensures MappedTo(s, u, g, i, k, x) {
      MapTableThenIndirect(s, t, u, g, i, k, n, x);
    }
  }

  /** A block that is there is found. */
  lemma MappedSame(s: Store, g: Geometry, n: nat, i: nat, k: nat)
    requires Building(s, g, n) && i < |s.inodes| && k < MAXFILE && Addressed(s, i)
    ensures k < NDIRECT && s.inodes[i].addrs[k] != 0 ==> MappedTo(s, s, g, i, k, s.inodes[i].addrs[k])
    ensures var tbl := s.inodes[i].addrs[NDIRECT];
            k >= NDIRECT && tbl != 0 && Word(s.disk[tbl], k - NDIRECT) != 0 ==>
              MappedTo(s, s, g, i, k, Word(s.disk[tbl], k - NDIRECT))
  {
    ConsistentIsSound(s, g);
    RefsInRange(s, g);
  }

  /** A size written at the end of an append, or when the root directory is rounded up. */
  lemma SizeBuilding(s: Store, g: Geometry, n: nat, i: nat, size: nat)
    requires Building(s, g, n) && i < |s.inodes| && size <= MAXFILE * BSIZE
    ensures Building(s.(inodes := s.inodes[i := s.inodes[i].(size := size)]), g, n)
  {
    ConsistentIsSound(s, g);
    SizeOnly(s, g, i, size);
  }

  /** Behind the end of every file there are only zeros. */
  ghost predicate ZeroTails(s: Store) {
    && WellFormed(s) && InRange(s)
    && forall i, j :: 0 <= i < |s.inodes| && s.inodes[i].size <= j < MAXFILE * BSIZE ==> Flat(s, i)[j] == 0
  }

  function Zeros(n: nat): (z: seq<Byte>)
    ensures |z| == n && forall j :: 0 <= j < n ==> z[j] == 0
  {
    seq(n, j => 0)
  }

  lemma EmptyTails(s: Store, g: Geometry)
    requires Framed(s, g) && forall i :: 0 <= i < |s.inodes| ==> s.inodes[i] == NoFile()
    ensures ZeroTails(s)
  {
    assert forall i, k :: 0 <= i < |s.inodes| && 0 <= k < MAXFILE ==> Ptr(s, i, k) == 0;
  }

  /** What an append means: the file's bytes are the old ones followed by data, no other file changes. */
  ghost predicate Appended(s: Store, t: Store, i: nat, data: seq<Byte>) {
    && WellFormed(s) && WellFormed(t) && InRange(s) && InRange(t) && i < |s.inodes| == |t.inodes|
    && (forall j :: 0 <= j < |s.inodes| ==>
          s.inodes[j].size <= MAXFILE * BSIZE && t.inodes[j].size <= MAXFILE * BSIZE && t.inodes[j].typ == s.inodes[j].typ)
    && Content(t, i) == Content(s, i) + data
    && (forall j :: 0 <= j < |s.inodes| && j != i ==> Content(t, j) == Content(s, j))
  }

  lemma WroteIsAppended(s: Store, t: Store, g: Geometry, n: nat, i: nat, data: seq<Byte>)
    requires Building(s, g, n) && i < |s.inodes| && WroteFile(s, t, g, i, s.inodes[i].size, data)
    ensures Consistent(t, g) && Appended(s, t, i, data)
  {
    var off := s.inodes[i].size;
    UnsharedIsSafe(s, g, n, i, off, |data|);
    var f, h := Flat(s, i), Flat(t, i);
    assert h == Splice(f, off, data);
    assert h[..off + |data|] == f[..off] + data;
    hide BytesWritten, Flat, Inv, Sound, WriteSafe;
    forall j | 0 <= j < |s.inodes| && j != i ensures Content(t, j) == Content(s, j) {
      assert Flat(t, j) == Flat(s, j);
    }
  }

  lemma TailsFollow(s: Store, t: Store, g: Geometry, n: nat, i: nat, data: seq<Byte>)
    requires Building(s, g, n) && i < |s.inodes| && WroteFile(s, t, g, i, s.inodes[i].size, data) && ZeroTails(s)
    ensures ZeroTails(t)
  {
    UnsharedIsSafe(s, g, n, i, s.inodes[i].size, |data|);
    assert Flat(t, i) == Splice(Flat(s, i), s.inodes[i].size, data);
    forall a, j | 0 <= a < |t.inodes| && t.inodes[a].size <= j < MAXFILE * BSIZE ensures Flat(t, a)[j] == 0 {
      if a != i {
        assert Flat(t, a) == Flat(s, a);
      }
      assert Flat(s, a)[j] == 0;
    }
  }

  /** A larger size shows zeros. */
  lemma SizeAppends(s: Store, g: Geometry, i: nat, size: nat)
    requires SoundStore(s, g) && ZeroTails(s) && i < |s.inodes| && s.inodes[i].size <= size <= MAXFILE * BSIZE
    ensures var t := s.(inodes := s.inodes[i := s.inodes[i].(size := size)]);
            ZeroTails(t) && Appended(s, t, i, Zeros(size - s.inodes[i].size))
  {
    var t := s.(inodes := s.inodes[i := s.inodes[i].(size := size)]);
    SizeOnly(s, g, i, size);
    hide Sound, Inv;
    assert Flat(t, i)[..size] == Flat(s, i)[..s.inodes[i].size] + Zeros(size - s.inodes[i].size);
  }

  lemma TypeView(s: Store, i: nat, typ: nat)
    requires WellFormed(s) && i < |s.inodes|
    ensures var t := s.(inodes := s.inodes[i := s.inodes[i].(typ := typ)]);
            WellFormed(t) && ViewOf(t) == ViewOf(s) && forall a, c :: 0 <= a < |s.inodes| && 0 <= c < MAXFILE ==> Ptr(t, a, c) == Ptr(s, a, c)
  {
    var t := s.(inodes := s.inodes[i := s.inodes[i].(typ := typ)]);
    forall a | 0 <= a < |s.inodes| ensures AllPtrs(t)[a] == AllPtrs(s)[a] {
      assert forall c :: 0 <= c < MAXFILE ==> Ptr(t, a, c) == Ptr(s, a, c);
    }
    assert AllTbls(t) == AllTbls(s);
  }

  /** A type given to an inode. */
  lemma TypeOnly(s: Store, g: Geometry, n: nat, i: nat, typ: nat)
    requires Building(s, g, n) && ZeroTails(s) && i < |s.inodes|
    ensures var t := s.(inodes := s.inodes[i := s.inodes[i].(typ := typ)]);
            Building(t, g, n) && ZeroTails(t)
  {
    hide Inv, Sound;
    var t := s.(inodes := s.inodes[i := s.inodes[i].(typ := typ)]);
    TypeView(s, i, typ);
    assert InRange(t);
    forall a | 0 <= a < |s.inodes| ensures Flat(t, a) == Flat(s, a) {
      FlatEqual(s, t, a);
    }
  }

  class Image {
    const g: Geometry
    var disk: seq<Block>
    var inodes: seq<Inode>
    var freeinode: nat
    /** usedblocks too: the two counters start equal and move together. */
    var freeblock: nat

    ghost function State(): Store
      reads this
    {
      Store(UsedBelow(g.size, freeblock), NoRefs(), disk, inodes)
    }

    ghost predicate Valid()
      reads this
    {
      Building(State(), g, freeblock)
    }

    /** Between two appends. */
    ghost predicate Clean()
      reads this
    {
      Valid() && ZeroTails(State())
    }

    /** All sectors zero, no inode in use. */
    constructor (g: Geometry, ninodes: nat)
      requires GeometryOk(g)
      ensures Clean() && this.g == g && freeinode == 1 && freeblock == g.first
      ensures inodes == seq(ninodes, i => NoFile())
    {
      this.g := g;
      disk := seq(g.size, b => ZeroBlock());
      inodes := seq(ninodes, i => NoFile());
      freeinode, freeblock := 1, g.first;
      new;
      EmptyBuilding(State(), g);
      EmptyTails(State(), g);
    }

    /** ialloc: the next inode number, with no block; a number past the table is the failed write. */
    method Ialloc(typ: nat) returns (r: Option<nat>)
      requires Clean() && forall i :: freeinode <= i < |inodes| ==> inodes[i] == NoFile()
      modifies this`inodes, this`freeinode
      ensures Clean() && forall i :: freeinode <= i < |inodes| ==> inodes[i] == NoFile()
      ensures r.None? <==> old(freeinode) >= |old(inodes)|
      ensures r.None? ==> inodes == old(inodes) && freeinode == old(freeinode)
      ensures r.Some? ==> r.value == old(freeinode) && freeinode == old(freeinode) + 1
      ensures r.Some? ==> inodes == old(inodes)[r.value := NoFile().(typ := typ)]
    {
      if freeinode >= |inodes| { return None; }
      ghost var s := State();
      r := Some(freeinode);
      inodes := inodes[freeinode := NoFile().(typ := typ)];
      TypeOnly(s, g, freeblock, freeinode, typ);
      freeinode := freeinode + 1;
    }

    /** The direct half of iappend's block lookup. */
    method PlaceDirect(i: nat, fbn: nat) returns (x: Option<nat>)
      requires Valid() && i < |inodes| && fbn < NDIRECT
      modifies this`inodes, this`freeblock
      ensures x.None? <==> g.limit - old(freeblock) < MapNeed(old(State()), i, fbn)
      ensures x.Some? ==> Valid() && MappedTo(old(State()), State(), g, i, fbn, x.value)
      ensures x.Some? ==> freeblock == old(freeblock) + MapNeed(old(State()), i, fbn)
      ensures |inodes| == |old(inodes)| && |inodes[i].addrs| == |old(inodes)[i].addrs| == NDIRECT + 1
      ensures inodes[i].addrs[NDIRECT] == old(inodes)[i].addrs[NDIRECT]
    {
      hide Building, MappedTo, Consistent, WellFormed, Ptr, UsedBelow, NoRefs, MapNeed;
      ghost var s := State();
      BuildingFacts(s, g, freeblock, i);
      NeedAt(s, g, freeblock, i, fbn);
      if inodes[i].addrs[fbn] != 0 {
        MappedSame(s, g, freeblock, i, fbn);
        return Some(inodes[i].addrs[fbn]);
      }
      if freeblock == g.limit { return None; }
      var a := freeblock;
      freeblock := freeblock + 1;
      inodes := inodes[i := SetInodeAddr(inodes[i], fbn, a)];
      assert State() == SetAddr(s.(used := UsedBelow(g.size, freeblock)), i, fbn, a);
      DirectBuilding(s, g, a, i, fbn);
      return Some(a);
    }

    /** The indirect half, once the table is there. */
    method PlaceIndirect(i: nat, j: nat) returns (x: Option<nat>)
      requires Valid() && i < |inodes| && j < NINDIRECT && Addressed(State(), i) && inodes[i].addrs[NDIRECT] != 0
      modifies this`disk, this`freeblock
      ensures x.None? <==> g.limit - old(freeblock) < MapNeed(old(State()), i, NDIRECT + j)
      ensures x.Some? ==> Valid() && MappedTo(old(State()), State(), g, i, NDIRECT + j, x.value)
      ensures x.Some? ==> freeblock == old(freeblock) + MapNeed(old(State()), i, NDIRECT + j)
    {
      hide Building, MappedTo, Consistent, WellFormed, Ptr, UsedBelow, NoRefs, SetWord, Word, MapNeed;
      ghost var s := State();
      BuildingFacts(s, g, freeblock, i);
      NeedAt(s, g, freeblock, i, NDIRECT + j);
      var tbl := inodes[i].addrs[NDIRECT];
      if Word(disk[tbl], j) != 0 {
        MappedSame(s, g, freeblock, i, NDIRECT + j);
        return Some(Word(disk[tbl], j));
      }
      if freeblock == g.limit { return None; }
      var a := freeblock;
      freeblock := freeblock + 1;
      disk := disk[tbl := SetWord(disk[tbl], j, a)];
      assert State() == SetTableWord(s.(used := UsedBelow(g.size, freeblock)), tbl, j, a);
      IndirectBuilding(s, g, a, i, j);
      return Some(a);
    }

    /** The block of position fbn, the next free one when there is none, its table first when needed. */
    method Place(i: nat, fbn: nat) returns (x: Option<nat>)
      requires Valid() && i < |inodes| && fbn < MAXFILE
      modifies this`disk, this`inodes, this`freeblock
      ensures x.None? <==> g.limit - old(freeblock) < MapNeed(old(State()), i, fbn)
      ensures x.Some? ==> Valid() && MappedTo(old(State()), State(), g, i, fbn, x.value)
      ensures x.Some? ==> freeblock == old(freeblock) + MapNeed(old(State()), i, fbn)
      ensures x.Some? ==> SpaceMapped(old(State()), State(), g, i, fbn)
    {
      hide Building, MappedTo, Consistent, WellFormed, Ptr, UsedBelow, NoRefs, Word, MapNeed, SpaceMapped;
      ghost var s, n := State(), freeblock;
      BuildingFacts(s, g, n, i);
      NeedAt(s, g, n, i, fbn);
      if fbn < NDIRECT {
        x := PlaceDirect(i, fbn);
      } else {
        if inodes[i].addrs[NDIRECT] == 0 {
          if freeblock == g.limit { return None; }
          TableBuilding(s, g, freeblock, i, fbn);
          NeedUnderTable(s, g, freeblock, i, fbn);
          inodes := inodes[i := SetInodeAddr(inodes[i], NDIRECT, freeblock)];
          freeblock := freeblock + 1;
        }
        x := PlaceIndirect(i, fbn - NDIRECT);
      }
      if x.Some? {
        BuildingFacts(State(), g, freeblock, i);
        NeedAt(State(), g, freeblock, i, fbn);
        SpaceCounted(s, State(), g, n, freeblock, i, fbn);
      }
    }

    /** One iteration of iappend. */
    method AppendBlock(i: nat, fbn: nat, off: nat, src: seq<Byte>) returns (ok: bool)
      requires Valid() && i < |inodes| && fbn < MAXFILE && off + |src| <= BSIZE
      modifies this`disk, this`inodes, this`freeblock
      ensures ok <==> CanWrite(old(State()), g, i, fbn)
      ensures ok ==> Valid() && WroteBlock(old(State()), State(), g, i, fbn, off, src)
      ensures ok ==> SpaceWritten(old(State()), State(), g, i, fbn)
    {
      hide Inv, Sound, WroteBlock, MappedTo, CanWrite, SpaceWritten, SpaceMapped, MapNeed, FreeSet, FreeClean;
      ghost var s := State();
      ConsistentIsSound(s, g);
      ConsistentIsClean(s, g);
      BuildingFacts(s, g, freeblock, i);
      LeftOver(g.size, g.limit, freeblock);
      var x := Place(i, fbn);
      if x.None? {
        CannotMap(s, g, i, fbn);
        return false;
      }
      ghost var t := State();
      MappedFacts(s, t, g, i, fbn, x.value);
      ConsistentIsSound(t, g);
      PointersBelow(t, g, freeblock, i);
      assert Ptr(t, i, fbn) < freeblock && t.refs == NoRefs();
      MappedBasics(s, t, g, i, fbn, x.value);
      WritesInPlace(s, t, g, i, fbn);
      disk := disk[x.value := Overwrite(disk[x.value], off, src)];
      MapThenOverwrite(s, t, State(), g, i, fbn, off, src);
      OverwriteUnshared(t, g, i, fbn, disk[x.value]);
      WrittenInPlace(s, t, State(), g, i, fbn, disk[x.value]);
      ok := true;
    }

    /** The loop of iappend. */
    method AppendBlocks(i: nat, data: seq<Byte>, start: nat) returns (ok: bool, ghost next: nat)
      requires Valid() && Progress(State(), State(), g, i, start, data, 0, start / BSIZE)
      modifies this`disk, this`inodes, this`freeblock
      ensures ok <==> FitsIn(old(State()), g, i, start / BSIZE, EndBlock(start, |data|))
      ensures ok ==> Valid() && Progress(old(State()), State(), g, i, start, data, |data|, next)
      ensures ok ==> next == EndBlock(start, |data|)
    {
      hide Building, Progress, WroteBlock, CanWrite, SpaceWritten, WritePaid, FitsIn, FreeClean;
      ghost var s := State();
      var off, n, p := start, |data|, 0;
      next := off / BSIZE;
      ProgressRange(s, s, g, i, start, data, 0, next);
      BuildingClean(s, g, freeblock);
      WriteAccount(s, g, i, next);
      while p < n
        invariant p <= n && off == start + p && Valid()
        invariant Progress(s, State(), g, i, start, data, p, next) && WritePaid(s, State(), g, i, start / BSIZE, next)
        invariant p < n ==> next == off / BSIZE
        invariant n == 0 ==> next == start / BSIZE
        invariant n > 0 && p == n ==> next == (start + n - 1) / BSIZE + 1
      {
        var fbn := off / BSIZE;
        var n1 := Min(n - p, (fbn + 1) * BSIZE - off);
        NextBlock(start, n, p, n1);
        ProgressFacts(s, State(), g, i, start, data, p, next);
        ghost var t := State();
        ProgressRange(s, t, g, i, start, data, p, next);
        NextIsInside(start, n, p);
        AccountAt(s, t, g, i, start / BSIZE, next, EndBlock(start, n));
        ok := AppendBlock(i, fbn, off - fbn * BSIZE, data[p..p + n1]);
        if !ok { return; }
        ProgressStep(s, t, State(), g, i, start, data, p, n1, next);
        ProgressRange(s, State(), g, i, start, data, p + n1, next + 1);
        AccountStep(s, t, State(), g, i, start / BSIZE, next);
        next := next + 1;
        off, p := off + n1, p + n1;
      }
      ok := true;
      AccountDone(s, State(), g, i, start / BSIZE, next);
    }

    /** iappend: data at the end of file i. Not ok is a full disk, or the failed assertion behind the last of
        MAXFILE blocks, once those are written. */
    method Iappend(i: nat, data: seq<Byte>) returns (ok: bool)
      requires Clean() && i < |inodes|
      modifies this`disk, this`inodes, this`freeblock
      ensures var off := old(inodes)[i].size;
              ok <==> off + |data| <= MAXFILE * BSIZE && FitsIn(old(State()), g, i, off / BSIZE, EndBlock(off, |data|))
      ensures ok ==> Clean() && Appended(old(State()), State(), i, data)
    {
      hide Building, Progress, WroteBlock, WroteFile, Appended, ZeroTails, FitsIn;
      ghost var s := State();
      var off, n := inodes[i].size, |data|;
      BuildingFacts(s, g, freeblock, i);
      var fits := Min(n, MAXFILE * BSIZE - off);
      var part := data[..fits];
      WriteStart(s, g, i, off, part);
      ghost var next: nat;
      ok, next := AppendBlocks(i, part, off);
      if !ok { return; }
      if fits < n { return false; }
      assert part == data;
      ghost var t := State();
      ProgressInodes(s, t, g, i, off, data, n, next);
      inodes := inodes[i := inodes[i].(size := off + n)];
      SizeBuilding(t, g, freeblock, i, off + n);
      WriteDone(s, t, State(), g, i, off, data, next);
      WroteIsAppended(s, State(), g, old(freeblock), i, data);
      TailsFollow(s, State(), g, old(freeblock), i, data);
    }

    /** The size of the root directory rounded up, by a whole block when it is a multiple already. */
    method RoundRoot(root: nat)
      requires Clean() && root < |inodes| && inodes[root].size < MAXFILE * BSIZE
      modifies this`inodes
      ensures Clean() && |inodes| == |old(inodes)| && inodes[root].size % BSIZE == 0
      ensures old(inodes)[root].size < inodes[root].size <= old(inodes)[root].size + BSIZE
      ensures Appended(old(State()), State(), root, Zeros(inodes[root].size - old(inodes)[root].size))
    {
      ghost var s := State();
      var off := inodes[root].size;
      off := (off / BSIZE + 1) * BSIZE;
      SizeBuilding(State(), g, freeblock, root, off);
      ConsistentIsSound(s, g);
      SizeAppends(s, g, root, off);
      inodes := inodes[root := inodes[root].(size := off)];
    }

    /** balloc: one bit after another for the blocks handed out. The finished image is a consistent
        store with the files as built. */
    method Finish() returns (s: Store)
      requires Valid()
      ensures Consistent(s, g) && s.inodes == inodes && s.disk == disk && s == State()
    {
      var bits := seq(g.size, b => false);
      for b := 0 to freeblock
        invariant bits == UsedBelow(g.size, b)
      {
        bits := bits[b := true];
      }
      s := Store(bits, NoRefs(), disk, inodes);
    }
  }
}
