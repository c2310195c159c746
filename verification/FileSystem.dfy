/**
 fs.c: block allocation, reference bytes, and reading, writing and truncating a file whose blocks
 may be shared. One object holds the bitmap, the reference bytes, the disk blocks and the inodes;
 the kernel's cached copies are the only copies here.
 */
module FileSystem {
  import opened Basics
  import opened Sharing
  import opened Blocks
  import opened FileStore
  import opened FileOps
  import opened FileWrites
  import opened FileSpace
  import opened Truncation

  /** Bitmap bits in one bitmap block. */
  const BPB := BSIZE * 8

  /** `Panic` is the kernel stopping: out of range, or no block left below the limit. */
  datatype Mapping = Mapped(addr: nat) | MapPanic
  /** A device inode is handed to its driver. */
  datatype ReadResult = Data(bytes: seq<Byte>) | ReadDevice | ReadError | ReadPanic
  datatype WriteResult = Written(n: nat) | WriteDevice | WriteError | WritePanic

  lemma ReadStart(s: Store, g: Geometry)
    requires Consistent(s, g)
    ensures SameFiles(s, s, g) && InRange(s)
  {
    ConsistentIsSound(s, g);
    RefsInRange(s, g);
  }

  lemma SameFilesSound(s: Store, t: Store, g: Geometry)
    requires SameFiles(s, t, g)
    ensures SoundStore(t, g) && SoundStore(s, g) && |t.inodes| == |s.inodes| && InRange(s)
  {
  }

  lemma FlatSlice(s: Store, i: nat, o: nat, m: nat)
    requires WellFormed(s) && InRange(s) && i < |s.inodes| && o % BSIZE + m <= BSIZE && o + m <= MAXFILE * BSIZE
    requires o / BSIZE < MAXFILE
    ensures BlockAt(s, i, o / BSIZE)[o % BSIZE..o % BSIZE + m] == Flat(s, i)[o..o + m]
  {
    var x, y := BlockAt(s, i, o / BSIZE)[o % BSIZE..o % BSIZE + m], Flat(s, i)[o..o + m];
    forall j | 0 <= j < m ensures x[j] == y[j] {
      assert (o + j) / BSIZE == o / BSIZE && (o + j) % BSIZE == o % BSIZE + j;
    }
  }

  lemma SameFilesTrans(s: Store, t: Store, u: Store, g: Geometry)
    requires SameFiles(s, t, g) && SameFiles(t, u, g)
    ensures SameFiles(s, u, g)
  {
    forall j, k | 0 <= j < |s.inodes| && 0 <= k < MAXFILE ensures BlockAt(u, j, k) == BlockAt(s, j, k) {
      assert BlockAt(u, j, k) == BlockAt(t, j, k);
    }
  }

  /** The block bmap returns holds the bytes of the file at o. */
  lemma ReadStep(s: Store, t: Store, u: Store, g: Geometry, i: nat, o: nat, m: nat, addr: nat)
    requires SameFiles(s, t, g) && Consistent(t, g) && i < |s.inodes| && MappedTo(t, u, g, i, o / BSIZE, addr)
    requires o % BSIZE + m <= BSIZE && o + m <= MAXFILE * BSIZE
    ensures SameFiles(s, u, g) && Consistent(u, g) && addr < |u.disk| && InRange(s)
    ensures u.disk[addr][o % BSIZE..o % BSIZE + m] == Flat(s, i)[o..o + m]
  {
    SameFilesTrans(s, t, u, g);
    assert BlockAt(u, i, o / BSIZE) == BlockAt(s, i, o / BSIZE);
    FlatSlice(s, i, o, m);
  }

  lemma SliceGrows(f: seq<Byte>, off: nat, tot: nat, m: nat)
    requires off + tot + m <= |f|
    ensures f[off..off + tot] + f[off + tot..off + tot + m] == f[off..off + (tot + m)]
  {
  }

  /** View v is that of s with the first n pointers of file i dropped. */
  ghost predicate Dropped(s: Store, v: View, i: nat, n: nat)
    requires WellFormed(s)
  {
    && |v.ptrs| == |s.inodes|
    && (forall a :: 0 <= a < |s.inodes| ==> |v.ptrs[a]| == MAXFILE)
    && forall a, c :: 0 <= a < |s.inodes| && 0 <= c < MAXFILE ==>
         v.ptrs[a][c] == if a == i && c < n then 0 else Ptr(s, a, c)
  }

  /** Without a table the direct pointers are all there is. */
  lemma NoTableDropped(s: Store, v: View, i: nat)
    requires WellFormed(s) && i < |s.inodes| && s.inodes[i].addrs[NDIRECT] == 0 && Dropped(s, v, i, NDIRECT)
    ensures Dropped(s, v, i, MAXFILE)
  {
  }

  lemma TruncView(s: Store, t: Store, v: View, i: nat)
    requires WellFormed(s) && i < |s.inodes| && |t.inodes| == |s.inodes| && t.disk == s.disk
    requires forall j :: 0 <= j < |s.inodes| && j != i ==> t.inodes[j] == s.inodes[j]
    requires t.inodes[i].addrs == seq(NDIRECT + 1, k => 0)
    requires |v.tbls| == |s.inodes| && v.used == t.used && v.refs == t.refs
    requires forall j :: 0 <= j < |s.inodes| ==> v.tbls[j] == if j == i then 0 else s.inodes[j].addrs[NDIRECT]
    requires Dropped(s, v, i, MAXFILE)
    ensures WellFormed(t) && ViewOf(t) == v
  {
    assert 0 <= s.inodes[i].addrs[NDIRECT] < |s.disk|;
    forall a | 0 <= a < |s.inodes| ensures AllPtrs(t)[a] == v.ptrs[a] {
      assert forall c :: 0 <= c < MAXFILE ==> Ptr(t, a, c) == v.ptrs[a][c];
    }
    assert AllTbls(t) == v.tbls;
  }

  lemma TruncKeepsOthers(s: Store, t: Store, g: Geometry, i: nat)
    requires Consistent(s, g) && Consistent(t, g) && |t.inodes| == |s.inodes| && t.disk == s.disk
    requires forall j :: 0 <= j < |s.inodes| && j != i ==> t.inodes[j] == s.inodes[j]
    ensures InRange(s) && InRange(t)
    ensures forall j :: 0 <= j < |s.inodes| && j != i ==> Flat(t, j) == Flat(s, j)
  {
    SoundInRange(s, g);
    SoundInRange(t, g);
    forall j | 0 <= j < |s.inodes| && j != i ensures Flat(t, j) == Flat(s, j) {
      FlatEqual(s, t, j);
    }
  }

  lemma NoneSpare(used: seq<bool>, limit: nat)
    ensures |FreeSet(used, limit)| == 0 <==> forall b :: 0 <= b < limit && b < |used| ==> used[b]
  {
    if |FreeSet(used, limit)| == 0 {
      forall b | 0 <= b < limit && b < |used| ensures used[b] {
        assert b !in FreeSet(used, limit);
      }
    } else {
      var b :| b in FreeSet(used, limit);
    }
  }

  lemma CowHolds(s: Store, u: Store, m: Store, g: Geometry, i: nat, k: nat, b: nat, x: Block)
    requires CowWritten(s, u, m, g, i, k, b, x)
    ensures b < |m.disk| && m.disk[b] == x
  {
  }

  /** Copied bytes overwritten at once. */
  lemma CowThenWritten(s: Store, u: Store, m: Store, w: Store, g: Geometry, i: nat, k: nat, b: nat, x: Block, y: Block)
    requires CowWritten(s, u, m, g, i, k, b, x) && b < |m.disk| && w == m.(disk := m.disk[b := y])
    ensures CowWritten(s, u, w, g, i, k, b, y)
  {
    assert u.disk[b := x][b := y] == u.disk[b := y];
  }

  /** One byte of a reference block counted up or down, as an unsigned char. */
  function Bump(x: Block, b: nat, flag: int): Block
    requires b < BSIZE
  {
    var up: nat := x[b];
    if flag == 1 then x[b := (up + 1) % 256]
    else if flag == -1 && x[b] > 0 then x[b := x[b] - 1]
    else x
  }

  class FileSystem {
    const g: Geometry
    var used: seq<bool>
    var ref1: Block
    var ref2: Block
    var disk: seq<Block>
    var inodes: seq<Inode>

    ghost function State(): Store
      reads this
    {
      Store(used, Refs(), disk, inodes)
    }

    /** One reference byte a block, in two blocks of the disk. */
    function Refs(): seq<nat>
      reads this
    {
      ref1 + ref2
    }

    constructor (g: Geometry, s: Store)
      requires |s.refs| == NREFS && forall b :: 0 <= b < NREFS ==> s.refs[b] <= MAXREF
      ensures this.g == g && State() == s
    {
      this.g := g;
      used, disk, inodes := s.used, s.disk, s.inodes;
      ref1 := seq(BSIZE, b requires 0 <= b < BSIZE => s.refs[b]);
      ref2 := seq(BSIZE, b requires 0 <= b < BSIZE => s.refs[BSIZE + b]);
      new;
      assert Refs() == s.refs;
    }

    /** No block below the limit is free. */
    ghost predicate Full()
      reads this
    {
      forall b :: 0 <= b < g.limit && b < |used| ==> used[b]
    }

    /** How many are. */
    ghost function Spare(): nat
      reads this
    {
      |FreeSet(used, g.limit)|
    }

    // ---- blocks ----

    /** The lowest free block of the whole device, marked and zeroed. Nothing keeps it out of the
        log area: that happens exactly when no lower block is free. */
    method Balloc() returns (r: Option<nat>)
      requires |used| == |disk| == g.size
      modifies this`used, this`disk
      ensures r.None? ==> State() == old(State()) && forall b :: 0 <= b < g.size ==> used[b]
      ensures r.Some? ==>
                && r.value < g.size && !old(used)[r.value]
                && (forall b :: 0 <= b < r.value ==> old(used)[b])
                && State() == AllocBlock(old(State()), r.value)
      ensures r.Some? && g.limit <= g.size ==>
                (r.value < g.limit <==> exists b :: 0 <= b < g.limit && !old(used)[b])
    {
      var b := 0;
      while b < g.size
        invariant State() == old(State())
        invariant forall c :: 0 <= c < b && c < g.size ==> used[c]
      {
        var bi := 0;
        while bi < BPB && b + bi < g.size
          invariant State() == old(State())
          invariant 0 <= bi <= BPB
          invariant forall c :: 0 <= c < b + bi && c < g.size ==> used[c]
        {
          if !used[b + bi] {
            used := used[b + bi := true];
            disk := disk[b + bi := ZeroBlock()];
            return Some(b + bi);
          }
          bi := bi + 1;
        }
        b := b + BPB;
      }
      return None;
    }

    /** balloc as its callers use it. Below the limit it is balloc with its panic; the model stops when the block
        lies beyond. */
    method Take() returns (r: Option<nat>)
      requires SoundStore(State(), g)
      modifies this`used, this`disk
      ensures r.None? ==> Full()
      ensures r.Some? ==> Fresh(old(State()), g, r.value) && State() == AllocBlock(old(State()), r.value)
      ensures r.Some? <==> !old(Full())
      ensures r.Some? <==> old(Spare()) > 0
      ensures r.Some? ==> FreeSet(used, g.limit) == FreeSet(old(used), g.limit) - {r.value} && Spare() == old(Spare()) - 1
    {
      NoneSpare(used, g.limit);
      r := Balloc();
      if r.Some? && r.value >= g.limit {
        r := None;
      } else if r.Some? {
        TakesOne(old(used), g.limit, r.value);
      }
    }

    /** Clears a bitmap bit; not ok is the panic on freeing a free block. */
    method Bfree(b: nat) returns (ok: bool)
      requires b < |used|
      modifies this`used
      ensures ok == old(used)[b]
      ensures used == old(used)[b := false]
    {
      ok := used[b];
      if ok {
        used := used[b := false];
      }
    }

    /** The byte of a block, in the first reference block or, 512 further on, in the second. From 1024 on
        the code reads through a pointer it has not set: any byte. */
    method GetBlkRef(sector: nat) returns (ref: Byte)
      ensures sector < NREFS ==> ref == Refs()[sector]
    {
      if sector < BSIZE {
        ref := ref1[sector];
      } else if sector < 2 * BSIZE {
        ref := ref2[sector - BSIZE];
      } else {
        ref := *;
      }
    }

    /** A reference byte wraps from 255 to 0 when bumped and stays at 0 when dropped; blocks from 1024
        on have none. */
    method UpdateBlkRef(sector: nat, flag: int)
      modifies this`ref1, this`ref2
      ensures forall b :: 0 <= b < NREFS && b != sector ==> Refs()[b] == old(Refs())[b]
      ensures sector < NREFS && flag == 1 ==> Refs()[sector] == (old(Refs())[sector] + 1) % 256
      ensures sector < NREFS && flag == -1 && old(Refs())[sector] > 0 ==> Refs()[sector] == old(Refs())[sector] - 1
      ensures sector < NREFS && flag == -1 && old(Refs())[sector] == 0 ==> Refs()[sector] == 0
      ensures sector < NREFS && flag != 1 && flag != -1 ==> Refs()[sector] == old(Refs())[sector]
    {
      if sector < BSIZE {
        ref1 := Bump(ref1, sector, flag);
      } else if sector < BSIZE * 2 {
        ref2 := Bump(ref2, sector - BSIZE, flag);
      }
    }

    // ---- the blocks of a file ----

    /** bmap below the direct pointers. */
    method BmapDirect(i: nat, bn: nat) returns (r: Mapping)
      requires SoundStore(State(), g) && i < |inodes| && bn < NDIRECT
      modifies this`used, this`disk, this`inodes
      ensures r.MapPanic? ==> Full() && Ptr(old(State()), i, bn) == 0
      ensures r.Mapped? ==> MappedTo(old(State()), State(), g, i, bn, r.addr)
      ensures r.MapPanic? <==> old(Spare()) < MapNeed(old(State()), i, bn)
      ensures r.Mapped? ==> SpaceMapped(old(State()), State(), g, i, bn)
    {
      ghost var s := State();
      RefsInRange(s, g);
      var addr := inodes[i].addrs[bn];
      if addr == 0 {
        var fresh_ := Take();
        if fresh_.None? { return MapPanic; }
        addr := fresh_.value;
        inodes := inodes[i := SetInodeAddr(inodes[i], bn, addr)];
        MapDirect(s, g, i, bn, addr);
      }
      return Mapped(addr);
    }

    /** bmap's indirect entry, once the table is there. */
    method BmapIndirect(i: nat, j: nat) returns (r: Mapping)
      requires SoundStore(State(), g) && i < |inodes| && j < NINDIRECT && inodes[i].addrs[NDIRECT] != 0
      modifies this`used, this`disk
      ensures r.MapPanic? ==> Full() && Ptr(old(State()), i, NDIRECT + j) == 0
      ensures r.Mapped? ==> MappedTo(old(State()), State(), g, i, NDIRECT + j, r.addr)
      ensures r.MapPanic? <==> old(Spare()) < MapNeed(old(State()), i, NDIRECT + j)
      ensures r.Mapped? ==> SpaceMapped(old(State()), State(), g, i, NDIRECT + j)
    {
      ghost var t := State();
      RefsInRange(t, g);
      var tbl := inodes[i].addrs[NDIRECT];
      var addr := Word(disk[tbl], j);
      if addr == 0 {
        var fresh_ := Take();
        if fresh_.None? { return MapPanic; }
        addr := fresh_.value;
        disk := disk[tbl := SetWord(disk[tbl], j, addr)];
        MapIndirect(t, g, i, j, addr);
      }
      return Mapped(addr);
    }

    /** The block behind logical block bn of file i, allocated when there is none. */
    method Bmap(i: nat, bn: nat) returns (r: Mapping)
      requires SoundStore(State(), g) && i < |inodes|
      modifies this`used, this`disk, this`inodes
      ensures r.MapPanic? <==> bn >= MAXFILE || old(Spare()) < MapNeed(old(State()), i, bn)
      ensures r.MapPanic? ==> bn >= MAXFILE || (Full() && Ptr(old(State()), i, bn) == 0)
      ensures r.Mapped? ==> MappedTo(old(State()), State(), g, i, bn, r.addr)
      ensures r.Mapped? ==> SpaceMapped(old(State()), State(), g, i, bn)
    {
      hide MappedTo, Sound;
      if bn < NDIRECT {
        r := BmapDirect(i, bn);
        return;
      }
      var j := bn - NDIRECT;
      if j >= NINDIRECT { return MapPanic; }
      if inodes[i].addrs[NDIRECT] == 0 {
        ghost var s := State();
        var fresh_ := Take();
        if fresh_.None? { return MapPanic; }
        inodes := inodes[i := SetInodeAddr(inodes[i], NDIRECT, fresh_.value)];
        FreshUnpointed(s, g, fresh_.value);
        MapTable(s, g, i, fresh_.value);
        ghost var t := State();
        assert AllPtrs(t)[i][bn] == Ptr(t, i, bn) && AllPtrs(s)[i][bn] == Ptr(s, i, bn);
        r := BmapIndirect(i, j);
        if r.Mapped? {
          MapTableThenIndirect(s, t, State(), g, i, bn, fresh_.value, r.addr);
        }
      } else {
        r := BmapIndirect(i, j);
      }
    }

    /** Every occurrence of old_ among the file's pointers becomes new_. */
    method ReplaceBlk(i: nat, old_: nat, new_: nat)
      requires WellFormed(State()) && i < |inodes| && old_ != 0 && new_ < UINT_LIMIT
      modifies this`inodes, this`disk
      ensures Redirected(old(State()), State(), i, old_, new_)
    {
      var k := 0;
      while k < NDIRECT
        invariant 0 <= k <= NDIRECT
        invariant |inodes| == |old(inodes)| && disk == old(disk)
        invariant forall j :: 0 <= j < |inodes| && j != i ==> inodes[j] == old(inodes)[j]
        invariant inodes[i].typ == old(inodes)[i].typ && inodes[i].size == old(inodes)[i].size
        invariant |inodes[i].addrs| == NDIRECT + 1
        invariant forall m :: 0 <= m < |inodes[i].addrs| ==>
            inodes[i].addrs[m] == if m < k && old(inodes)[i].addrs[m] == old_ then new_ else old(inodes)[i].addrs[m]
      {
        if inodes[i].addrs[k] != 0 && inodes[i].addrs[k] == old_ {
          inodes := inodes[i := SetInodeAddr(inodes[i], k, new_)];
        }
        k := k + 1;
      }
      var tbl := inodes[i].addrs[NDIRECT];
      if tbl != 0 {
        ghost var table, mid := disk[tbl], inodes;
        var j := 0;
        while j < NINDIRECT
          invariant 0 <= j <= NINDIRECT && inodes == mid
          invariant |disk| == |old(disk)|
          invariant forall c :: 0 <= c < |disk| && c != tbl ==> disk[c] == old(disk)[c]
          invariant forall m :: 0 <= m < NINDIRECT ==>
              Word(disk[tbl], m) == if m < j && Word(table, m) == old_ then new_ else Word(table, m)
        {
          if Word(disk[tbl], j) != 0 && Word(disk[tbl], j) == old_ {
            forall m | 0 <= m < NINDIRECT
              ensures Word(SetWord(disk[tbl], j, new_), m) == if m == j then new_ else Word(disk[tbl], m)
            {
              WordSetWord(disk[tbl], j, new_, m);
            }
            disk := disk[tbl := SetWord(disk[tbl], j, new_)];
          }
          j := j + 1;
        }
      }
    }

    /** The copy-on-write branch: file i gets a private copy of the block behind its position k. The
        ghost result is the store before the copied bytes are put in. */
    method Unshare(i: nat, ghost k: nat, shared: nat) returns (r: Option<nat>, ghost u: Store)
      requires SoundStore(State(), g) && i < |inodes| && k < MAXFILE && shared == Ptr(State(), i, k) != 0
      requires shared < |Refs()| && Refs()[shared] > 0 && shared < |disk|
      modifies this`used, this`ref1, this`ref2, this`disk, this`inodes
      ensures r.None? ==> Full()
      ensures r.None? <==> old(Full())
      ensures r.None? <==> old(Spare()) == 0
      ensures r.Some? ==> CowWritten(old(State()), u, State(), g, i, k, r.value, old(disk)[shared])
    {
      ghost var t := State();
      u := t;
      RefsInRange(t, g);
      DropRefSound(t, g, i, k);
      UpdateBlkRef(shared, -1);
      assert Refs() == t.refs[shared := t.refs[shared] - 1];
      var tmp := disk[shared];
      r := Take();
      if r.None? { return; }
      AllocBlockView(t.(refs := t.refs[shared := t.refs[shared] - 1]), g, r.value);
      ReplaceBlk(i, shared, r.value);
      u := State();
      disk := disk[r.value := tmp];
    }

    /** One iteration of writei: logical block k gets src at offset off, after a private copy is made
        of a block that has extra references. */
    method WriteBlock(i: nat, k: nat, off: nat, src: seq<Byte>) returns (ok: bool)
      requires SoundStore(State(), g) && i < |inodes| && k < MAXFILE && off + |src| <= BSIZE
      modifies this`used, this`ref1, this`ref2, this`disk, this`inodes
      ensures !ok ==> Full() && (Ptr(old(State()), i, k) == 0 || old(Full()))
      ensures ok ==> WroteBlock(old(State()), State(), g, i, k, off, src)
      ensures FreeClean(old(State()), g) ==> (ok <==> CanWrite(old(State()), g, i, k))
      ensures ok && FreeClean(old(State()), g) ==> SpaceWritten(old(State()), State(), g, i, k)
    {
      hide MappedTo, WroteBlock, Sound, Framed, CowWritten, FreeClean, CanWrite, SpaceWritten, SpaceMapped, MapNeed, FreeSet, Full;
      ghost var s := State();
      var m := Bmap(i, k);
      if m.MapPanic? {
        CannotMap(s, g, i, k);
        return false;
      }
      var sector := m.addr;
      ghost var t := State();
      MappedFacts(s, t, g, i, k, sector);
      MappedBasics(s, t, g, i, k, sector);
      RefsInRange(t, g);
      var ref := GetBlkRef(sector);
      if ref > 0 {
        if FreeClean(s, g) { WritesShared(s, t, g, i, k); }
        var copy, u := Unshare(i, k, sector);
        if copy.None? { return false; }
        ghost var b := t.disk[sector];
        sector := copy.value;
        ghost var mid := State();
        CowHolds(t, u, mid, g, i, k, sector, b);
        disk := disk[sector := Overwrite(disk[sector], off, src)];
        CowThenWritten(t, u, mid, State(), g, i, k, sector, b, Overwrite(b, off, src));
        MapThenCow(s, t, u, State(), g, i, k, sector, off, src);
        if FreeClean(s, g) { WrittenCopy(s, u, State(), g, i, k, sector, Overwrite(b, off, src)); }
      } else {
        disk := disk[sector := Overwrite(disk[sector], off, src)];
        MapThenOverwrite(s, t, State(), g, i, k, off, src);
        WritesInPlace(s, t, g, i, k);
        if FreeClean(s, g) { WrittenInPlace(s, t, State(), g, i, k, disk[sector]); }
      }
      return true;
    }

    /** The loop of writei. */
    method WriteBlocks(i: nat, src: seq<Byte>, off: nat) returns (ok: bool, ghost next: nat)
      requires Progress(State(), State(), g, i, off, src, 0, off / BSIZE) && FreeClean(State(), g)
      modifies this`used, this`ref1, this`ref2, this`disk, this`inodes
      ensures !ok ==> Full()
      ensures ok ==> Progress(old(State()), State(), g, i, off, src, |src|, next)
      ensures ok ==> next == EndBlock(off, |src|)
      ensures ok <==> FitsIn(old(State()), g, i, off / BSIZE, EndBlock(off, |src|))
    {
      hide Progress, WroteBlock, FreeClean, CanWrite, SpaceWritten, WritePaid, FitsIn;
      ghost var s := State();
      var n := |src|;
      var tot, o := 0, off;
      next := off / BSIZE;
      ProgressRange(s, s, g, i, off, src, 0, next);
      WriteAccount(s, g, i, next);
      while tot < n
        invariant tot <= n && o == off + tot
        invariant Progress(s, State(), g, i, off, src, tot, next) && WritePaid(s, State(), g, i, off / BSIZE, next)
        invariant tot < n ==> next == o / BSIZE
        invariant n == 0 ==> next == off / BSIZE
        invariant n > 0 && tot == n ==> next == (off + n - 1) / BSIZE + 1
      {
        var m := Min(n - tot, BSIZE - o % BSIZE);
        NextBlock(off, n, tot, m);
        ProgressFacts(s, State(), g, i, off, src, tot, next);
        ghost var t := State();
        ProgressRange(s, t, g, i, off, src, tot, next);
        NextIsInside(off, n, tot);
        AccountAt(s, t, g, i, off / BSIZE, next, EndBlock(off, n));
        ok := WriteBlock(i, o / BSIZE, o % BSIZE, src[tot..tot + m]);
        if !ok { return; }
        ProgressStep(s, t, State(), g, i, off, src, tot, m, next);
        ProgressRange(s, State(), g, i, off, src, tot + m, next + 1);
        AccountStep(s, t, State(), g, i, off / BSIZE, next);
        next := next + 1;
        tot, o := tot + m, o + m;
      }
      ok := true;
      AccountDone(s, State(), g, i, off / BSIZE, next);
    }

    /** Writes src at byte off of file i. No other file changes a byte, every byte of file i is accounted
        for, and the store stays consistent exactly when the file points at each shared block it writes
        only once; then exactly the bytes written change. */
    method Writei(i: nat, src: seq<Byte>, off: nat) returns (r: WriteResult)
      requires Consistent(State(), g) && i < |inodes|
      requires off < UINT_LIMIT && |src| < UINT_LIMIT
      modifies this`used, this`ref1, this`ref2, this`disk, this`inodes
      ensures r.WriteDevice? <==> old(inodes)[i].typ == T_DEV
      ensures r.WriteError? <==>
                !r.WriteDevice? && (off > old(inodes)[i].size || off + |src| >= UINT_LIMIT || off + |src| > MAXFILE * BSIZE)
      ensures r.WriteError? || r.WriteDevice? ==> State() == old(State())
      ensures !r.WriteError? && !r.WriteDevice? ==> (r.Written? <==> FitsIn(old(State()), g, i, off / BSIZE, EndBlock(off, |src|)))
      ensures r.WritePanic? ==> Full()
      ensures r.Written? ==> WroteFile(old(State()), State(), g, i, off, src) && r.n == |src|
    {
      hide Progress, WroteFile, Consistent, SoundStore, FreeClean, FitsIn, EndBlock;
      ghost var s := State();
      var n := |src|;
      if inodes[i].typ == T_DEV { return WriteDevice; }
      if off > inodes[i].size || (off + n) % UINT_LIMIT < off { return WriteError; }
      if off + n > MAXFILE * BSIZE { return WriteError; }
      WriteStart(s, g, i, off, src);
      ConsistentIsClean(s, g);
      var ok, next := WriteBlocks(i, src, off);
      if !ok { return WritePanic; }
      ghost var t := State();
      ProgressFacts(s, t, g, i, off, src, n, next);
      var o := off + n;
      if n > 0 && o > inodes[i].size {
        inodes := inodes[i := inodes[i].(size := o)];
      }
      EndOfWrite(off, n);
      WriteDone(s, t, State(), g, i, off, src, next);
      return Written(n);
    }

    /** The loop of readi. */
    method ReadBlocks(i: nat, off: nat, n: nat) returns (ok: bool, dst: seq<Byte>)
      requires Consistent(State(), g) && SameFiles(State(), State(), g) && i < |inodes|
      requires off + n <= MAXFILE * BSIZE
      modifies this`used, this`disk, this`inodes
      ensures !ok ==> Full()
      ensures ok ==> Consistent(State(), g) && SameFiles(old(State()), State(), g)
      ensures ok ==> dst == Flat(old(State()), i)[off..off + n]
      ensures ok <==> ReadsIn(old(State()), g, i, off / BSIZE, EndBlock(off, n))
    {
      hide SameFiles, Consistent, MappedTo, Flat, ReadAccount, ReadsIn, SpaceMapped, MapNeed, FreeSet;
      ghost var s := State();
      SameFilesSound(s, s, g);
      var tot, o := 0, off;
      ghost var next: nat := off / BSIZE;
      ReadAccountStart(s, g, i, next);
      dst := [];
      while tot < n
        invariant tot <= n && o == off + tot && |dst| == tot
        invariant ReadAccount(s, State(), g, i, off / BSIZE, next)
        invariant tot < n ==> next == o / BSIZE
        invariant tot == n ==> next == EndBlock(off, n)
        invariant Consistent(State(), g) && SameFiles(s, State(), g)
        invariant dst == Flat(s, i)[off..off + tot]
      {
        var m := Min(n - tot, BSIZE - o % BSIZE);
        NextBlock(off, n, tot, m);
        ghost var t := State();
        SameFilesSound(s, t, g);
        NextIsInside(off, n, tot);
        ReadAccountAt(s, t, g, i, off / BSIZE, next, EndBlock(off, n));
        var p := Bmap(i, o / BSIZE);
        if p.MapPanic? { return false, []; }
        ReadAccountStep(s, t, State(), g, i, off / BSIZE, next, p.addr);
        next := next + 1;
        ReadStep(s, t, State(), g, i, o, m, p.addr);
        SliceGrows(Flat(s, i), off, tot, m);
        dst := dst + disk[p.addr][o % BSIZE..o % BSIZE + m];
        tot, o := tot + m, o + m;
      }
      ok := true;
      ReadAccountDone(s, State(), g, i, off / BSIZE, next);
    }

    /** Reads up to n bytes from byte off of file i: exactly the bytes of the file, and no file
        changes (a block missing below the size is filled in with zeros on the way). */
    method Readi(i: nat, off: nat, n: nat) returns (r: ReadResult)
      requires Consistent(State(), g) && i < |inodes|
      requires off < UINT_LIMIT && n < UINT_LIMIT
      modifies this`used, this`disk, this`inodes
      ensures r.ReadDevice? <==> old(inodes)[i].typ == T_DEV
      ensures r.ReadError? <==> !r.ReadDevice? && (off > old(inodes)[i].size || off + n >= UINT_LIMIT)
      ensures r.ReadError? || r.ReadDevice? ==> State() == old(State())
      ensures !r.ReadError? && !r.ReadDevice? ==>
                (r.Data? <==> ReadsIn(old(State()), g, i, off / BSIZE, EndBlock(off, Min(off + n, old(inodes)[i].size) - off)))
      ensures r.ReadPanic? ==> Full()
      ensures r.Data? ==> Consistent(State(), g) && SameFiles(old(State()), State(), g)
      ensures r.Data? ==> r.bytes == Content(old(State()), i)[off..Min(off + n, old(inodes)[i].size)]
    {
      ReadStart(State(), g);
      if inodes[i].typ == T_DEV { return ReadDevice; }
      if off > inodes[i].size || (off + n) % UINT_LIMIT < off { return ReadError; }
      var len := if off + n > inodes[i].size then inodes[i].size - off else n;
      var ok, dst := ReadBlocks(i, off, len);
      if !ok { return ReadPanic; }
      SliceOfPrefix(Flat(old(State()), i), old(inodes)[i].size, off, off + len);
      return Data(dst);
    }

    /** itrunc for one pointer: a reference is dropped, or the block is freed. The ghost view is the
        store with the pointers dropped so far already gone. */
    method DropBlock(ghost v: View, ghost i: nat, ghost k: nat, b: nat) returns (ok: bool)
      requires v.used == used && v.refs == Refs() && b < |v.refs| && b < |v.used|
      requires i < |v.ptrs| && k < |v.ptrs[i]| == MAXFILE && v.ptrs[i][k] == b != 0
      modifies this`used, this`ref1, this`ref2
      ensures ok <==> old(Refs())[b] > 0 || old(used)[b]
      ensures ok ==> used == Drop(v, i, k).used && Refs() == Drop(v, i, k).refs
      ensures Inv(v, g) ==> ok && Inv(Drop(v, i, k), g)
    {
      if Inv(v, g) { DropKeepsInv(v, g, i, k); }
      var ref := GetBlkRef(b);
      if ref > 0 {
        UpdateBlkRef(b, -1);
        assert Refs() == old(Refs())[b := old(Refs())[b] - 1];
        ok := true;
      } else {
        ok := Bfree(b);
      }
    }

    /** One pointer of file i in the order of itrunc. */
    method DropAt(ghost s: Store, ghost v: View, ghost i: nat, ghost k: nat, b: nat) returns (ok: bool)
      requires SoundStore(s, g) && i < |s.inodes| && k < MAXFILE && b == Ptr(s, i, k) != 0
      requires v.used == used && v.refs == Refs() && i < |v.ptrs| && |v.ptrs[i]| == MAXFILE && v.ptrs[i][k] == b
      requires Drawn(s.used, s.refs, used, Refs(), FilePtrs(s, i), k)
      modifies this`used, this`ref1, this`ref2
      ensures !ok ==> TruncPanics(s, i)
      ensures ok ==> && b < |v.refs| && b < |v.used| && used == Drop(v, i, k).used && Refs() == Drop(v, i, k).refs
                     && Drawn(s.used, s.refs, used, Refs(), FilePtrs(s, i), k + 1)
      ensures Inv(v, g) ==> ok && Inv(Drop(v, i, k), g)
    {
      hide Inv, Sound, Ptr;
      PtrInUse(s, g, i, k);
      DrawnOne(s.used, s.refs, used, Refs(), FilePtrs(s, i), k);
      hide Drawn;
      ok := DropBlock(v, i, k, b);
    }

    /** The direct pointers of itrunc. */
    method TruncDirect(i: nat, ghost v0: View) returns (ok: bool, ghost v: View)
      requires SoundStore(State(), g) && i < |inodes| && v0 == ViewOf(State())
      modifies this`used, this`ref1, this`ref2, this`inodes
      ensures !ok ==> TruncPanics(old(State()), i)
      ensures Inv(v0, g) ==> ok && Inv(v, g)
      ensures ok ==> v.used == used && v.refs == Refs() && v.tbls == v0.tbls
      ensures ok ==> Dropped(old(State()), v, i, NDIRECT)
      ensures ok ==> Drawn(old(used), old(Refs()), used, Refs(), FilePtrs(old(State()), i), NDIRECT)
      ensures |inodes| == |old(inodes)| && forall j :: 0 <= j < |inodes| && j != i ==> inodes[j] == old(inodes)[j]
      ensures inodes[i].typ == old(inodes)[i].typ && |inodes[i].addrs| == NDIRECT + 1
      ensures ok ==> forall m :: 0 <= m < NDIRECT ==> inodes[i].addrs[m] == 0
      ensures inodes[i].addrs[NDIRECT] == old(inodes)[i].addrs[NDIRECT]
    {
      hide Inv, Sound, Drawn, TruncPanics;
      ghost var s := State();
      v := v0;
      var k := 0;
      DrawnStart(used, Refs(), FilePtrs(s, i));
      while k < NDIRECT
        invariant 0 <= k <= NDIRECT
        invariant v.used == used && v.refs == Refs() && v.tbls == v0.tbls && (Inv(v0, g) ==> Inv(v, g))
        invariant Dropped(s, v, i, k) && Drawn(s.used, s.refs, used, Refs(), FilePtrs(s, i), k)
        invariant |inodes| == |s.inodes| && forall j :: 0 <= j < |inodes| && j != i ==> inodes[j] == s.inodes[j]
        invariant inodes[i].typ == s.inodes[i].typ && |inodes[i].addrs| == NDIRECT + 1
        invariant forall m :: 0 <= m <= NDIRECT ==> inodes[i].addrs[m] == if m < k then 0 else s.inodes[i].addrs[m]
      {
        assert v.ptrs[i][k] == Ptr(s, i, k);
        if inodes[i].addrs[k] != 0 {
          ok := DropAt(s, v, i, k, inodes[i].addrs[k]);
          if !ok { return; }
          v := Drop(v, i, k);
          inodes := inodes[i := SetInodeAddr(inodes[i], k, 0)];
        } else {
          DrawnNone(s.used, s.refs, used, Refs(), FilePtrs(s, i), k);
        }
        k := k + 1;
      }
      ok := true;
    }

    /** The entries of the indirect table; they stay in the table block, which is freed next. */
    method TruncIndirect(i: nat, tbl: nat, ghost s: Store, ghost v0: View) returns (ok: bool, ghost v: View)
      requires SoundStore(s, g) && i < |s.inodes| && tbl == s.inodes[i].addrs[NDIRECT] != 0 && disk == s.disk
      requires v0.used == used && v0.refs == Refs() && Dropped(s, v0, i, NDIRECT)
      requires Drawn(s.used, s.refs, used, Refs(), FilePtrs(s, i), NDIRECT)
      modifies this`used, this`ref1, this`ref2
      ensures !ok ==> TruncPanics(s, i)
      ensures Inv(v0, g) ==> ok && Inv(v, g)
      ensures ok ==> v.used == used && v.refs == Refs() && v.tbls == v0.tbls && Dropped(s, v, i, MAXFILE)
      ensures ok ==> Drawn(s.used, s.refs, used, Refs(), FilePtrs(s, i), MAXFILE)
    {
      hide Inv, Sound, Drawn, TruncPanics;
      v := v0;
      var j := 0;
      while j < NINDIRECT
        invariant 0 <= j <= NINDIRECT
        invariant v.used == used && v.refs == Refs() && v.tbls == v0.tbls && (Inv(v0, g) ==> Inv(v, g))
        invariant Dropped(s, v, i, NDIRECT + j) && Drawn(s.used, s.refs, used, Refs(), FilePtrs(s, i), NDIRECT + j)
      {
        assert v.ptrs[i][NDIRECT + j] == Ptr(s, i, NDIRECT + j);
        if Word(disk[tbl], j) != 0 {
          ok := DropAt(s, v, i, NDIRECT + j, Word(disk[tbl], j));
          if !ok { return; }
          v := Drop(v, i, NDIRECT + j);
        } else {
          DrawnNone(s.used, s.refs, used, Refs(), FilePtrs(s, i), NDIRECT + j);
        }
        j := j + 1;
      }
      ok := true;
    }

    /** Truncates file i. The panic on freeing a free block comes if and only if the file holds some block
        more often than it is counted; else exactly the blocks it held as often as counted are freed. From
        exact counts there is no panic, no freed block is pointed at by another file, and every count is
        exact again. */
    method Itrunc(i: nat) returns (panicked: bool)
      requires SoundStore(State(), g) && i < |inodes|
      modifies this`used, this`ref1, this`ref2, this`inodes
      ensures panicked <==> TruncPanics(old(State()), i)
      ensures |inodes| == |old(inodes)|
      ensures forall j :: 0 <= j < |inodes| && j != i ==> inodes[j] == old(inodes)[j]
      ensures !panicked ==> Truncated(old(State()), i, used, Refs())
      ensures !panicked ==> inodes[i] == Inode(old(inodes)[i].typ, 0, seq(NDIRECT + 1, k => 0))
      ensures old(Consistent(State(), g)) ==>
                && !panicked && Consistent(State(), g) && InRange(old(State())) && InRange(State())
                && forall j :: 0 <= j < |inodes| && j != i ==> Flat(State(), j) == Flat(old(State()), j)
    {
      hide Inv, Sound, AllPtrs, Ptr, Drawn, TruncPanics, Truncated;
      ghost var s := State();
      var ok, v := TruncDirect(i, ViewOf(s));
      if !ok { return true; }
      var tbl := inodes[i].addrs[NDIRECT];
      if tbl != 0 {
        ok, v := TruncIndirect(i, tbl, s, v);
        if !ok { return true; }
        TableLeft(s, g, i, used, Refs());
        if Inv(v, g) { DropTableKeepsInv(v, g, i); }
        TruncatedWith(s, i, used, Refs());
        ok := Bfree(tbl);
        if !ok { return true; }
        v := DropTable(v, i);
        inodes := inodes[i := SetInodeAddr(inodes[i], NDIRECT, 0)];
      } else {
        NoTableDropped(s, v, i);
        NoTableDrawn(s, i, used, Refs());
        SoundUsed(s, g, i);
        TruncatedWith(s, i, used, Refs());
      }
      inodes := inodes[i := inodes[i].(size := 0)];
      assert inodes[i].addrs == seq(NDIRECT + 1, k => 0);
      TruncView(s, State(), v, i);
      if Consistent(s, g) { TruncKeepsOthers(s, State(), g, i); }
      return false;
    }
  }
}
