/**
 The file store as a value: bitmap, reference bytes, disk blocks and inodes, with files read
 through 12 direct pointers and one indirect table that itself lives in a disk block.
 */
module FileStore {
  import opened Basics
  import opened Sharing
  import opened Blocks

  const T_FILE := 2
  const T_DEV := 3

  datatype Inode = Inode(typ: nat, size: nat, addrs: seq<nat>)

  datatype Store = Store(used: seq<bool>, refs: seq<nat>, disk: seq<Block>, inodes: seq<Inode>)

  ghost predicate WellFormed(s: Store) {
    forall i :: 0 <= i < |s.inodes| ==>
      |s.inodes[i].addrs| == NDIRECT + 1 && s.inodes[i].addrs[NDIRECT] < |s.disk|
  }

  /** The block behind logical block k of inode i, 0 when there is none. */
  ghost function Ptr(s: Store, i: nat, k: nat): nat
    requires WellFormed(s) && i < |s.inodes| && k < MAXFILE
  {
    var a := s.inodes[i].addrs;
    if k < NDIRECT then a[k]
    else if a[NDIRECT] == 0 then 0
    else Word(s.disk[a[NDIRECT]], k - NDIRECT)
  }

  ghost function PtrsOf(s: Store, i: nat): (p: seq<nat>)
    requires WellFormed(s) && i < |s.inodes|
    ensures |p| == MAXFILE && forall k :: 0 <= k < MAXFILE ==> p[k] == Ptr(s, i, k)
  {
    seq(MAXFILE, k requires 0 <= k < MAXFILE => Ptr(s, i, k))
  }

  ghost function AllPtrs(s: Store): (p: seq<seq<nat>>)
    requires WellFormed(s)
    ensures |p| == |s.inodes| && forall i :: 0 <= i < |p| ==> p[i] == PtrsOf(s, i)
  {
    seq(|s.inodes|, i requires 0 <= i < |s.inodes| => PtrsOf(s, i))
  }

  ghost function AllTbls(s: Store): (p: seq<nat>)
    requires WellFormed(s)
    ensures |p| == |s.inodes| && forall i :: 0 <= i < |p| ==> p[i] == s.inodes[i].addrs[NDIRECT]
  {
    seq(|s.inodes|, i requires 0 <= i < |s.inodes| => s.inodes[i].addrs[NDIRECT])
  }

  ghost function ViewOf(s: Store): View
    requires WellFormed(s)
  {
    View(s.used, s.refs, AllPtrs(s), AllTbls(s))
  }

  ghost predicate Framed(s: Store, g: Geometry) {
    && WellFormed(s) && |s.disk| == g.size
    && forall i :: 0 <= i < |s.inodes| ==> s.inodes[i].size <= MAXFILE * BSIZE
  }

  /** Pointers in range, tables unshared, everything pointed at in use. */
  ghost predicate SoundStore(s: Store, g: Geometry) {
    Framed(s, g) && Sound(ViewOf(s), g)
  }

  /** The above, and every reference byte is exact. */
  ghost predicate Consistent(s: Store, g: Geometry) {
    Framed(s, g) && Inv(ViewOf(s), g)
  }

  lemma ConsistentIsSound(s: Store, g: Geometry)
    requires Consistent(s, g)
    ensures SoundStore(s, g)
  {
    InvIsSound(ViewOf(s), g);
  }

  // ---- file contents ----

  /** Logical block k of inode i; an absent block reads as zeros. */
  ghost function BlockAt(s: Store, i: nat, k: nat): Block
    requires WellFormed(s) && i < |s.inodes| && k < MAXFILE && Ptr(s, i, k) < |s.disk|
  {
    if Ptr(s, i, k) == 0 then ZeroBlock() else s.disk[Ptr(s, i, k)]
  }

  ghost predicate InRange(s: Store)
    requires WellFormed(s)
  {
    forall i, k :: 0 <= i < |s.inodes| && 0 <= k < MAXFILE ==> Ptr(s, i, k) < |s.disk|
  }

  lemma SoundInRange(s: Store, g: Geometry)
    requires Framed(s, g) && GeometryOk(g) && Shape(ViewOf(s), g)
    ensures InRange(s)
  {
    forall i, k | 0 <= i < |s.inodes| && 0 <= k < MAXFILE ensures Ptr(s, i, k) < |s.disk| {
      assert ViewOf(s).ptrs[i][k] == Ptr(s, i, k);
    }
  }

  /** The whole byte range of inode i, up to the largest possible file. */
  ghost function Flat(s: Store, i: nat): (f: seq<Byte>)
    requires WellFormed(s) && InRange(s) && i < |s.inodes|
    ensures |f| == MAXFILE * BSIZE
    ensures forall j :: 0 <= j < MAXFILE * BSIZE ==> f[j] == BlockAt(s, i, j / BSIZE)[j % BSIZE]
  {
    seq(MAXFILE * BSIZE, j requires 0 <= j < MAXFILE * BSIZE => BlockAt(s, i, j / BSIZE)[j % BSIZE])
  }

  /** What a reader of inode i can see. */
  ghost function Content(s: Store, i: nat): seq<Byte>
    requires WellFormed(s) && InRange(s) && i < |s.inodes| && s.inodes[i].size <= MAXFILE * BSIZE
  {
    Flat(s, i)[..s.inodes[i].size]
  }

  /** Equal blocks make equal flat contents. */
  lemma FlatEqual(s: Store, t: Store, i: nat)
    requires WellFormed(s) && InRange(s) && WellFormed(t) && InRange(t)
    requires i < |s.inodes| && i < |t.inodes|
    requires forall k :: 0 <= k < MAXFILE ==> BlockAt(s, i, k) == BlockAt(t, i, k)
    ensures Flat(s, i) == Flat(t, i)
  {
  }

  // ---- elementary updates and the pointers they move ----

  function SetInodeAddr(ip: Inode, k: nat, b: nat): (r: Inode)
    requires k < |ip.addrs|
    ensures r.typ == ip.typ && r.size == ip.size && r.addrs == ip.addrs[k := b]
  {
    var row: seq<nat> := ip.addrs[k := b];
    Inode(ip.typ, ip.size, row)
  }

  function SetAddr(s: Store, i: nat, k: nat, b: nat): Store
    requires i < |s.inodes| && k < |s.inodes[i].addrs|
  {
    s.(inodes := s.inodes[i := SetInodeAddr(s.inodes[i], k, b)])
  }

  function SetTableWord(s: Store, t: nat, j: nat, b: nat): Store
    requires t < |s.disk| && j < NINDIRECT && b < UINT_LIMIT
  {
    var table := SetWord(s.disk[t], j, b);
    s.(disk := s.disk[t := table])
  }

  lemma ViewSetDirect(s: Store, i: nat, k: nat, b: nat)
    requires WellFormed(s) && i < |s.inodes| && k < NDIRECT
    ensures WellFormed(SetAddr(s, i, k, b))
    ensures ViewOf(SetAddr(s, i, k, b)) == ViewOf(s).(ptrs := SetPtr(AllPtrs(s), i, k, b))
  {
    var t := SetAddr(s, i, k, b);
    forall a | 0 <= a < |s.inodes| ensures AllPtrs(t)[a] == SetPtr(AllPtrs(s), i, k, b)[a] {
      assert forall c :: 0 <= c < MAXFILE ==> Ptr(t, a, c) == if a == i && c == k then b else Ptr(s, a, c);
    }
  }

  lemma ViewSetWord(s: Store, g: Geometry, i: nat, j: nat, b: nat)
    requires Framed(s, g) && GeometryOk(g) && Shape(ViewOf(s), g)
    requires i < |s.inodes| && j < NINDIRECT && b < UINT_LIMIT
    requires s.inodes[i].addrs[NDIRECT] != 0
    ensures WellFormed(SetTableWord(s, s.inodes[i].addrs[NDIRECT], j, b))
    ensures ViewOf(SetTableWord(s, s.inodes[i].addrs[NDIRECT], j, b))
            == ViewOf(s).(ptrs := SetPtr(AllPtrs(s), i, NDIRECT + j, b))
  {
    var t := SetTableWord(s, s.inodes[i].addrs[NDIRECT], j, b);
    forall a | 0 <= a < |s.inodes| ensures AllPtrs(t)[a] == SetPtr(AllPtrs(s), i, NDIRECT + j, b)[a] {
      assert a != i ==> ViewOf(s).tbls[a] != ViewOf(s).tbls[i];
      forall c | 0 <= c < MAXFILE ensures Ptr(t, a, c) == if a == i && c == NDIRECT + j then b else Ptr(s, a, c) {
        if c >= NDIRECT {
          WordSetWord(s.disk[s.inodes[i].addrs[NDIRECT]], j, b, c - NDIRECT);
        }
      }
    }
    assert AllTbls(t) == AllTbls(s);
  }

  /** A zeroed block installed as the table of an inode that had none. */
  lemma ViewSetTable(s: Store, i: nat, b: nat)
    requires WellFormed(s) && i < |s.inodes| && 0 < b < |s.disk| && s.inodes[i].addrs[NDIRECT] == 0
    requires s.disk[b] == ZeroBlock()
    ensures WellFormed(SetAddr(s, i, NDIRECT, b))
    ensures ViewOf(SetAddr(s, i, NDIRECT, b)) == ViewOf(s).(tbls := AllTbls(s)[i := b])
  {
    var t := SetAddr(s, i, NDIRECT, b);
    forall a | 0 <= a < |s.inodes| ensures AllPtrs(t)[a] == AllPtrs(s)[a] {
      forall c | 0 <= c < MAXFILE ensures Ptr(t, a, c) == Ptr(s, a, c) {
        if c >= NDIRECT {
          WordZero(c - NDIRECT);
        }
      }
    }
  }

  /** Overwriting a block that is nobody's table moves no pointer. */
  lemma ViewSetBlock(s: Store, b: nat, x: Block)
    requires WellFormed(s) && b < |s.disk|
    requires forall i :: 0 <= i < |s.inodes| && s.inodes[i].addrs[NDIRECT] != 0 ==> s.inodes[i].addrs[NDIRECT] != b
    ensures WellFormed(s.(disk := s.disk[b := x]))
    ensures ViewOf(s.(disk := s.disk[b := x])) == ViewOf(s)
  {
    var t := s.(disk := s.disk[b := x]);
    forall a | 0 <= a < |s.inodes| ensures AllPtrs(t)[a] == AllPtrs(s)[a] {
      assert forall c :: 0 <= c < MAXFILE ==> Ptr(t, a, c) == Ptr(s, a, c);
    }
  }
}
