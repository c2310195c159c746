/**
 bio.c: the buffer cache, over the in-memory disk of memide.c. Every method is one critical section
 under bcache.lock or one operation on a buffer its caller holds, so any interleaving of processes
 is a sequence of calls. `view` is what has last been written to each sector, by bwrite or by
 log_write; the cache must agree with it whatever it still holds in memory.
 */
module BufferCache {
  import opened Basics
  import opened Blocks
  import opened Ring

  const NBUF := 10
  const ROOTDEV := 1
  /** The device number of a buffer that was never used, (uint)-1. */
  const NODEV := 0xFFFF_FFFF

  datatype Buf = Buf(dev: nat, sector: nat, busy: bool, valid: bool, dirty: bool, data: Block)

  /** What one pass through bget or bread comes to. */
  datatype GetResult = Got(b: nat) | MustSleep(on: nat) | NoBuffers | DiskPanic

  ghost predicate Holds(x: Buf, dev: nat, sector: nat) {
    x.dev == dev && x.sector == sector
  }

  /** No two buffers for one sector, unused buffers empty, cached data only for real sectors. */
  ghost predicate BufsOk(bufs: seq<Buf>, sectors: nat) {
    && |bufs| == NBUF
    && (forall a, b :: 0 <= a < b < NBUF && bufs[a].dev != NODEV ==> !Holds(bufs[b], bufs[a].dev, bufs[a].sector))
    && (forall b :: 0 <= b < NBUF && bufs[b].dev == NODEV ==> !bufs[b].busy && !bufs[b].valid)
    && (forall b :: 0 <= b < NBUF && bufs[b].dirty ==> bufs[b].valid)
    && (forall b :: 0 <= b < NBUF && bufs[b].valid ==> bufs[b].dev == ROOTDEV && bufs[b].sector < sectors)
  }

  /** The ring holds every buffer, the most recently released first. */
  ghost predicate OrderOk(order: seq<nat>, stamp: seq<nat>, clock: nat) {
    && |order| == NBUF && |stamp| == NBUF
    && (forall i :: 0 <= i < NBUF ==> order[i] < NBUF)
    && (forall b :: 0 <= b < NBUF ==> b in order)
    && (forall i, j :: 0 <= i < j < NBUF ==> stamp[order[i]] > stamp[order[j]])
    && (forall b :: 0 <= b < NBUF ==> stamp[b] < clock)
  }

  /** The cache and the disk together hold the last write of every sector. */
  ghost predicate Agrees(bufs: seq<Buf>, disk: seq<Block>, view: seq<Block>)
    requires BufsOk(bufs, |disk|)
  {
    && |view| == |disk|
    && (forall b :: 0 <= b < NBUF && bufs[b].valid && !bufs[b].dirty ==> view[bufs[b].sector] == disk[bufs[b].sector])
    && (forall b :: 0 <= b < NBUF && bufs[b].valid && !bufs[b].busy ==> bufs[b].data == view[bufs[b].sector])
    && (forall s :: 0 <= s < |disk| && view[s] != disk[s] ==> exists b :: 0 <= b < NBUF && bufs[b].valid && bufs[b].sector == s)
  }

  /** Moving a member to the front leaves out nobody. */
  lemma FrontKeepsAll(order: seq<nat>, k: nat)
    requires |order| == NBUF && k < NBUF && forall b :: 0 <= b < NBUF ==> b in order
    ensures forall b :: 0 <= b < NBUF ==> b in [order[k]] + Without(order, k)
  {
    var o: seq<nat> := [order[k]] + Without(order, k);
    forall b | 0 <= b < NBUF ensures b in o {
      assert b in order;
      var i :| 0 <= i < NBUF && order[i] == b;
      assert o[if i < k then i + 1 else if i > k then i else 0] == b;
    }
  }

  /** Putting a buffer in front, with the newest stamp, keeps the order by release. */
  lemma ReleasedFirst(order: seq<nat>, k: nat, stamp: seq<nat>, clock: nat)
    requires OrderOk(order, stamp, clock) && k < NBUF
    requires forall i, j :: 0 <= i < j < |order| ==> order[i] != order[j]
    ensures OrderOk([order[k]] + Without(order, k), stamp[order[k] := clock], clock + 1)
  {
    var o: seq<nat>, st: seq<nat> := [order[k]] + Without(order, k), stamp[order[k] := clock];
    FrontKeepsAll(order, k);
    forall i | 0 < i < NBUF ensures o[i] == order[if i <= k then i - 1 else i] && st[o[i]] == stamp[o[i]] {
    }
    assert forall i :: 0 <= i < NBUF ==> o[i] < NBUF;
    forall i, j | 0 <= i < j < NBUF ensures st[o[i]] > st[o[j]] {
    }
  }

  /** The list binit builds: head.next is the last buffer inserted. */
  method BuildRing() returns (pr: seq<nat>, nx: seq<nat>, ghost o: seq<nat>)
    ensures |pr| == NBUF + 1 && IsRing(NBUF, o, pr, nx)
    ensures |o| == NBUF && forall i :: 0 <= i < NBUF ==> o[i] == NBUF - 1 - i
  {
    pr, nx := seq(NBUF + 1, i => NBUF), seq(NBUF + 1, i => NBUF);
    o := [];
    assert LinkedAt(NBUF, o, 0, pr, nx);
    var b := 0;
    while b < NBUF
      invariant 0 <= b <= NBUF && |pr| == NBUF + 1 && IsRing(NBUF, o, pr, nx)
      invariant |o| == b && forall i :: 0 <= i < b ==> o[i] == b - 1 - i
    {
      hide IsRing;
      LinkFront(NBUF, o, b, pr, nx);
      var first := nx[NBUF];
      nx := nx[b := first];
      pr := pr[b := NBUF];
      pr := pr[first := b];
      nx := nx[NBUF := b];
      o := [b] + o;
      b := b + 1;
    }
  }

  lemma FreshOrder(o: seq<nat>)
    requires |o| == NBUF && forall i :: 0 <= i < NBUF ==> o[i] == NBUF - 1 - i
    ensures OrderOk(o, seq(NBUF, i => i), NBUF)
  {
    forall b | 0 <= b < NBUF ensures b in o {
      assert o[NBUF - 1 - b] == b;
    }
  }

  class Bcache {
    var bufs: seq<Buf>
    var prev: seq<nat>
    var next: seq<nat>
    var disk: seq<Block>
    ghost var view: seq<Block>
    ghost var order: seq<nat>
    ghost var stamp: seq<nat>
    ghost var clock: nat

    ghost predicate Valid()
      reads this
    {
      && BufsOk(bufs, |disk|) && |view| == |disk|
      && |prev| == NBUF + 1 && IsRing(NBUF, order, prev, next) && OrderOk(order, stamp, clock)
    }

    /** Every read sees the last write. */
    ghost predicate Coherent()
      reads this
    {
      Valid() && Agrees(bufs, disk, view)
    }

    /** binit: all buffers unused, inserted at the front one after the other. */
    constructor (disk: seq<Block>)
      ensures Coherent() && this.disk == disk && view == disk
      ensures forall b :: 0 <= b < NBUF ==> bufs[b].dev == NODEV && Recyclable(bufs[b])
      ensures forall i :: 0 <= i < NBUF ==> order[i] == NBUF - 1 - i
    {
      var pr, nx, o := BuildRing();
      this.disk, view := disk, disk;
      prev, next, order := pr, nx, o;
      bufs := seq(NBUF, i => Buf(NODEV, 0, false, false, false, ZeroBlock()));
      stamp, clock := seq(NBUF, i => i), NBUF;
      FreshOrder(o);
    }

    /** bget's first loop: the buffer that holds the sector, busy or not. */
    method Lookup(dev: nat, sector: nat) returns (found: bool, b: nat)
      requires Valid() && dev != NODEV
      ensures found ==> b < NBUF && Holds(bufs[b], dev, sector)
      ensures !found ==> forall c :: 0 <= c < NBUF ==> !Holds(bufs[c], dev, sector)
    {
      hide BufsOk;
      assert |bufs| == NBUF by { BufsLength(bufs, |disk|); }
      ghost var i: nat := 0;
      RingFact(NBUF, order, 0, prev, next);
      b := next[NBUF];
      i := Succ(order, 0);
      while b != NBUF
        invariant i <= NBUF && b == Node(NBUF, order, i)
        invariant i == 0 ==> forall c :: 0 <= c < NBUF ==> !Holds(bufs[order[c]], dev, sector)
        invariant i > 0 ==> forall c :: 0 <= c < i - 1 ==> !Holds(bufs[order[c]], dev, sector)
        decreases if i == 0 then 0 else NBUF + 1 - i
      {
        if bufs[b].dev == dev && bufs[b].sector == sector { return true, b; }
        RingFact(NBUF, order, i, prev, next);
        b := next[b];
        i := Succ(order, i);
      }
      forall c | 0 <= c < NBUF ensures !Holds(bufs[c], dev, sector) {
        assert c in order;
      }
      return false, 0;
    }

    /** bget's second loop: the least recently released buffer that is neither busy nor dirty. */
    method Victim() returns (found: bool, b: nat)
      requires Valid()
      ensures found ==> b < NBUF && Recyclable(bufs[b])
      ensures found ==> forall c :: 0 <= c < NBUF && Recyclable(bufs[c]) ==> stamp[b] <= stamp[c]
      ensures !found ==> forall c :: 0 <= c < NBUF ==> !Recyclable(bufs[c])
    {
      hide BufsOk;
      assert |bufs| == NBUF by { BufsLength(bufs, |disk|); }
      RingFact(NBUF, order, NBUF, prev, next);
      b := prev[NBUF];
      ghost var i: nat := NBUF;
      while b != NBUF
        invariant i <= NBUF && b == Node(NBUF, order, i)
        invariant forall c :: i <= c < NBUF ==> !Recyclable(bufs[order[c]])
        decreases i
      {
        if !bufs[b].busy && !bufs[b].dirty {
          forall c | 0 <= c < NBUF && Recyclable(bufs[c]) ensures stamp[b] <= stamp[c] {
            assert c in order;
            var m :| 0 <= m < NBUF && order[m] == c;
          }
          return true, b;
        }
        RingFact(NBUF, order, i - 1, prev, next);
        b := prev[b];
        i := i - 1;
      }
      forall c | 0 <= c < NBUF ensures !Recyclable(bufs[c]) {
        assert c in order;
      }
      return false, 0;
    }

    /** bget, from its label `loop` to a return or to a sleep. The caller sleeps on a busy buffer and
        comes back to the start, where everything may have changed. */
    method Bget(dev: nat, sector: nat) returns (r: GetResult)
      requires Valid() && dev != NODEV
      modifies this`bufs
      ensures Valid() && !r.DiskPanic?
      ensures r.MustSleep? <==> exists b :: 0 <= b < NBUF && Holds(old(bufs)[b], dev, sector) && old(bufs)[b].busy
      ensures r.MustSleep? ==> r.on < NBUF && Holds(bufs[r.on], dev, sector) && bufs[r.on].busy
      ensures r.NoBuffers? <==> forall b :: 0 <= b < NBUF ==> !Holds(old(bufs)[b], dev, sector) && !Recyclable(old(bufs)[b])
      ensures !r.Got? ==> bufs == old(bufs)
      ensures r.Got? ==> r.b < NBUF && Holds(bufs[r.b], dev, sector) && bufs[r.b].busy && !old(bufs)[r.b].busy
      ensures r.Got? ==> forall c :: 0 <= c < NBUF && c != r.b ==> bufs[c] == old(bufs)[c]
      ensures r.Got? && Holds(old(bufs)[r.b], dev, sector) ==> bufs[r.b] == old(bufs)[r.b].(busy := true)
      ensures r.Got? && !Holds(old(bufs)[r.b], dev, sector) ==>
                && !bufs[r.b].valid && !bufs[r.b].dirty && Recyclable(old(bufs)[r.b])
                && (forall c :: 0 <= c < NBUF && Recyclable(old(bufs)[c]) ==> stamp[r.b] <= stamp[c])
                && (forall c :: 0 <= c < NBUF ==> !Holds(old(bufs)[c], dev, sector))
      ensures old(Coherent()) ==> Coherent()
    {
      ghost var before := bufs;
      var found, b := Lookup(dev, sector);
      if found {
        HolderUnique(bufs, |disk|, b, dev, sector);
        if !bufs[b].busy {
          bufs := bufs[b := bufs[b].(busy := true)];
          SetBusy(before, |disk|, b);
          if Agrees(before, disk, view) { BusyAgrees(before, disk, view, b); }
          return Got(b);
        }
        return MustSleep(b);
      }
      found, b := Victim();
      if found {
        bufs := bufs[b := Buf(dev, sector, true, false, false, bufs[b].data)];
        RecycleOk(before, |disk|, b, dev, sector);
        if Agrees(before, disk, view) { RecycleAgrees(before, disk, view, b, dev, sector); }
        return Got(b);
      }
      return NoBuffers;
    }

    /** iderw: write a dirty buffer through, or fill one that holds nothing yet. */
    method Iderw(b: nat) returns (ok: bool)
      requires |bufs| == NBUF && b < NBUF
      modifies this`bufs, this`disk
      ensures ok <==> CanTransfer(old(bufs)[b], |old(disk)|)
      ensures !ok ==> bufs == old(bufs) && disk == old(disk)
      ensures ok ==> && bufs == old(bufs)[b := Transferred(old(bufs)[b], old(disk))]
                     && disk == if old(bufs)[b].dirty then old(disk)[bufs[b].sector := bufs[b].data] else old(disk)
    {
      var x := bufs[b];
      if !x.busy || (x.valid && !x.dirty) || x.dev != ROOTDEV || x.sector >= |disk| {
        return false;
      }
      if x.dirty {
        x := x.(dirty := false);
        disk := disk[x.sector := x.data];
      } else {
        x := x.(data := disk[x.sector]);
      }
      bufs := bufs[b := x.(valid := true)];
      return true;
    }

    /** bread, one pass. While the cache agrees with the last writes, the buffer it returns holds the last write
        of the sector; in any case it holds what was cached, or else what is on the disk. */
    method Bread(dev: nat, sector: nat) returns (r: GetResult)
      requires Valid() && dev != NODEV
      modifies this`bufs, this`disk
      ensures r.MustSleep? <==> exists b :: 0 <= b < NBUF && Holds(old(bufs)[b], dev, sector) && old(bufs)[b].busy
      ensures r.NoBuffers? <==> forall b :: 0 <= b < NBUF ==> !Holds(old(bufs)[b], dev, sector) && !Recyclable(old(bufs)[b])
      ensures r.Got? ==> dev == ROOTDEV && sector < |disk|
      ensures r.DiskPanic? ==> dev != ROOTDEV || sector >= |disk|
      ensures !r.DiskPanic? ==> Valid() && (old(Coherent()) ==> Coherent())
      ensures disk == old(disk)
      ensures r.Got? ==> && r.b < NBUF && Holds(bufs[r.b], dev, sector) && bufs[r.b].busy && bufs[r.b].valid && !old(bufs)[r.b].busy
                         && bufs[r.b].dirty == old(bufs)[r.b].dirty
                         && (old(bufs)[r.b].dirty ==> Holds(old(bufs)[r.b], dev, sector))
      ensures r.Got? && old(Coherent()) ==> bufs[r.b].data == view[sector]
      ensures r.Got? && Holds(old(bufs)[r.b], dev, sector) && old(bufs)[r.b].valid ==> bufs[r.b].data == old(bufs)[r.b].data
      ensures r.Got? && !(Holds(old(bufs)[r.b], dev, sector) && old(bufs)[r.b].valid) ==> bufs[r.b].data == disk[sector]
      ensures r.Got? && !Holds(old(bufs)[r.b], dev, sector) ==>
                Recyclable(old(bufs)[r.b]) && forall c :: 0 <= c < NBUF && Recyclable(old(bufs)[c]) ==> stamp[r.b] <= stamp[c]
      ensures r.Got? ==> forall c :: 0 <= c < NBUF && c != r.b ==> bufs[c] == old(bufs)[c]
      ensures !r.Got? && !r.DiskPanic? ==> bufs == old(bufs)
    {
      hide BufsOk, Agrees, IsRing, OrderOk;
      BufsLength(bufs, |disk|);
      r := Bget(dev, sector);
      if r.Got? {
        BufsLength(bufs, |disk|);
        ghost var mid := bufs;
        if !bufs[r.b].valid {
          NotDirty(bufs, |disk|, r.b);
          var ok := Iderw(r.b);
          if !ok {
            return DiskPanic;
          }
          FilledOk(mid, |disk|, disk, r.b);
          if Agrees(mid, disk, view) { FilledCoherent(mid, disk, view, r.b); }
        } else {
          CachedSector(old(bufs), |disk|, r.b);
          if old(Coherent()) { CachedLatest(old(bufs), disk, view, r.b); }
        }
      }
    }

    /** A holder of a buffer changes its data, with memmove on b->data. */
    method Modify(b: nat, data: Block)
      requires Coherent() && b < NBUF && bufs[b].busy && bufs[b].valid
      modifies this`bufs
      ensures Coherent() && bufs == old(bufs)[b := old(bufs)[b].(data := data)]
    {
      bufs := bufs[b := bufs[b].(data := data)];
      RewriteCoherent(old(bufs), disk, view, b, bufs[b]);
    }

    /** log_write's last step: the logged buffer may not leave the cache until it is written home. */
    method LogMark(b: nat)
      requires Coherent() && b < NBUF && bufs[b].busy && bufs[b].valid
      modifies this`bufs, this`view
      ensures Coherent() && bufs == old(bufs)[b := old(bufs)[b].(dirty := true)]
      ensures view == old(view)[bufs[b].sector := bufs[b].data]
    {
      bufs := bufs[b := bufs[b].(dirty := true)];
      MarkCoherent(old(bufs), disk, view, b);
      view := view[bufs[b].sector := bufs[b].data];
    }

    /** bwrite: the buffer reaches the disk and becomes clean. */
    method Bwrite(b: nat) returns (ok: bool)
      requires Coherent() && b < NBUF
      modifies this`bufs, this`disk, this`view
      ensures ok <==> old(bufs)[b].busy && old(bufs)[b].dev == ROOTDEV && old(bufs)[b].sector < |old(disk)|
      ensures ok ==> && Coherent()
                     && bufs == old(bufs)[b := old(bufs)[b].(valid := true, dirty := false)]
                     && disk == old(disk)[bufs[b].sector := bufs[b].data]
                     && view == old(view)[bufs[b].sector := bufs[b].data]
    {
      BufsLength(bufs, |disk|);
      if !bufs[b].busy {
        return false;
      }
      hide BufsOk, Agrees, IsRing, OrderOk;
      bufs := bufs[b := bufs[b].(dirty := true)];
      ok := Iderw(b);
      if ok {
        assert bufs == old(bufs)[b := old(bufs)[b].(valid := true, dirty := false)];
        WrittenCoherent(old(bufs), old(disk), view, b);
        view := view[bufs[b].sector := bufs[b].data];
      }
    }

    /** brelse: the buffer goes to the front of the ring. The cache still agrees with the last writes
        exactly when the holder leaves no change in the buffer that it neither wrote nor logged. */
    method Brelse(b: nat) returns (ok: bool)
      requires Valid() && b < NBUF
      modifies this`bufs, this`prev, this`next, this`order, this`stamp, this`clock
      ensures Valid() && (ok <==> old(bufs)[b].busy)
      ensures !ok ==> bufs == old(bufs) && order == old(order) && stamp == old(stamp)
      ensures ok ==> && bufs == old(bufs)[b := old(bufs)[b].(busy := false)]
                     && order[0] == b && stamp == old(stamp)[b := old(clock)]
      ensures ok && old(Coherent()) ==> (Coherent() <==> bufs[b].valid ==> bufs[b].data == view[bufs[b].sector])
    {
      BufsLength(bufs, |disk|);
      if !bufs[b].busy {
        return false;
      }
      MoveToFront(b);
      bufs := bufs[b := bufs[b].(busy := false)];
      ReleaseOk(old(bufs), |disk|, b);
      if Agrees(old(bufs), disk, view) {
        ReleaseCoherent(old(bufs), disk, view, b);
      }
      return true;
    }

    method MoveToFront(b: nat)
      requires Valid() && b < NBUF
      modifies this`prev, this`next, this`order, this`stamp, this`clock
      ensures Valid() && order[0] == b && stamp == old(stamp)[b := old(clock)]
    {
      hide IsRing, BufsOk, OrderOk;
      ghost var k := PositionOf(order, stamp, clock, b);
      Unlink(NBUF, order, k, prev, next);
      RingDistinct(NBUF, order, prev, next);
      ReleasedFirst(order, k, stamp, clock);
      assert b !in Without(order, k);
      prev := prev[next[b] := prev[b]];
      next := next[prev[b] := next[b]];
      LinkFront(NBUF, Without(order, k), b, prev, next);
      next := next[b := next[NBUF]];
      prev := prev[b := NBUF];
      prev := prev[next[NBUF] := b];
      next := next[NBUF := b];
      order, stamp, clock := [b] + Without(order, k), stamp[b := clock], clock + 1;
    }
  }

  ghost predicate CanTransfer(x: Buf, sectors: nat) {
    x.busy && (x.dirty || !x.valid) && x.dev == ROOTDEV && x.sector < sectors
  }

  ghost function Transferred(x: Buf, disk: seq<Block>): Buf
    requires x.sector < |disk|
  {
    x.(valid := true, dirty := false, data := if x.dirty then x.data else disk[x.sector])
  }

  lemma RingDistinct(head: nat, order: seq<nat>, prev: seq<nat>, next: seq<nat>)
    requires IsRing(head, order, prev, next)
    ensures forall i, j :: 0 <= i < j < |order| ==> order[i] != order[j]
  {
  }

  lemma PositionOf(order: seq<nat>, stamp: seq<nat>, clock: nat, b: nat) returns (k: nat)
    requires OrderOk(order, stamp, clock) && b < NBUF
    ensures |order| == NBUF && |stamp| == NBUF && k < NBUF && order[k] == b
  {
    assert b in order;
    k :| k < NBUF && order[k] == b;
  }

  lemma NotDirty(bufs: seq<Buf>, sectors: nat, b: nat)
    requires BufsOk(bufs, sectors) && b < NBUF && !bufs[b].valid
    ensures !bufs[b].dirty
  {
  }

  lemma FilledOk(bufs: seq<Buf>, sectors: nat, disk: seq<Block>, b: nat)
    requires BufsOk(bufs, sectors) && sectors == |disk| && b < NBUF && CanTransfer(bufs[b], |disk|)
    ensures BufsOk(bufs[b := Transferred(bufs[b], disk)], sectors)
  {
  }

  lemma CachedSector(bufs: seq<Buf>, sectors: nat, b: nat)
    requires BufsOk(bufs, sectors) && b < NBUF && bufs[b].valid
    ensures bufs[b].dev == ROOTDEV && bufs[b].sector < sectors
  {
  }

  /** Filling from the disk is reading the last write: a sector whose last write is still in memory
      is in another buffer, and no sector is in two. */
  lemma FilledCoherent(bufs: seq<Buf>, disk: seq<Block>, view: seq<Block>, b: nat)
    requires BufsOk(bufs, |disk|) && Agrees(bufs, disk, view) && b < NBUF
    requires CanTransfer(bufs[b], |disk|) && !bufs[b].dirty
    ensures BufsOk(bufs[b := Transferred(bufs[b], disk)], |disk|)
    ensures Agrees(bufs[b := Transferred(bufs[b], disk)], disk, view)
    ensures disk[bufs[b].sector] == view[bufs[b].sector]
  {
    var t := bufs[b := Transferred(bufs[b], disk)];
    var s0 := bufs[b].sector;
    OthersElsewhere(bufs, |disk|, b);
    assert view[s0] == disk[s0];
    StillCached(bufs, t, disk, view);
  }

  /** Buffers that still hold what they held keep covering the sectors the disk is behind on. */
  lemma StillCached(bufs: seq<Buf>, t: seq<Buf>, disk: seq<Block>, view: seq<Block>)
    requires BufsOk(bufs, |disk|) && Agrees(bufs, disk, view) && |t| == NBUF
    requires forall c :: 0 <= c < NBUF && bufs[c].valid ==> t[c].valid && t[c].sector == bufs[c].sector
    ensures forall s :: 0 <= s < |disk| && view[s] != disk[s] ==> exists c :: 0 <= c < NBUF && t[c].valid && t[c].sector == s
  {
    forall s | 0 <= s < |disk| && view[s] != disk[s] ensures exists c :: 0 <= c < NBUF && t[c].valid && t[c].sector == s {
      var c :| 0 <= c < NBUF && bufs[c].valid && bufs[c].sector == s;
      assert t[c].valid && t[c].sector == s;
    }
  }

  /** A buffer nobody holds has the last write of its sector. */
  lemma CachedLatest(bufs: seq<Buf>, disk: seq<Block>, view: seq<Block>, b: nat)
    requires BufsOk(bufs, |disk|) && Agrees(bufs, disk, view) && b < NBUF && bufs[b].valid && !bufs[b].busy
    ensures bufs[b].data == view[bufs[b].sector] && bufs[b].dev == ROOTDEV && bufs[b].sector < |disk|
  {
  }

  lemma RewriteCoherent(bufs: seq<Buf>, disk: seq<Block>, view: seq<Block>, b: nat, x: Buf)
    requires BufsOk(bufs, |disk|) && Agrees(bufs, disk, view) && b < NBUF && bufs[b].busy && bufs[b].valid
    requires x == bufs[b].(data := x.data)
    ensures BufsOk(bufs[b := x], |disk|) && Agrees(bufs[b := x], disk, view)
  {
    StillCached(bufs, bufs[b := x], disk, view);
  }

  lemma MarkCoherent(bufs: seq<Buf>, disk: seq<Block>, view: seq<Block>, b: nat)
    requires BufsOk(bufs, |disk|) && Agrees(bufs, disk, view) && b < NBUF && bufs[b].busy && bufs[b].valid
    ensures BufsOk(bufs[b := bufs[b].(dirty := true)], |disk|)
    ensures Agrees(bufs[b := bufs[b].(dirty := true)], disk, view[bufs[b].sector := bufs[b].data])
  {
    var t := bufs[b := bufs[b].(dirty := true)];
    StillCached(bufs, t, disk, view);
    OthersElsewhere(bufs, |disk|, b);
    assert t[b].valid;
  }

  lemma OthersElsewhere(bufs: seq<Buf>, sectors: nat, b: nat)
    requires BufsOk(bufs, sectors) && b < NBUF && bufs[b].dev == ROOTDEV
    ensures forall c :: 0 <= c < NBUF && c != b && bufs[c].valid ==> bufs[c].sector != bufs[b].sector
  {
    forall c | 0 <= c < NBUF && c != b && bufs[c].valid ensures bufs[c].sector != bufs[b].sector {
      assert !(Holds(bufs[c], bufs[b].dev, bufs[b].sector) && Holds(bufs[b], bufs[c].dev, bufs[c].sector));
    }
  }

  lemma WrittenCoherent(bufs: seq<Buf>, disk: seq<Block>, view: seq<Block>, b: nat)
    requires BufsOk(bufs, |disk|) && Agrees(bufs, disk, view) && b < NBUF && bufs[b].busy
    requires bufs[b].dev == ROOTDEV && bufs[b].sector < |disk|
    ensures var t, s, d := bufs[b := bufs[b].(valid := true, dirty := false)], bufs[b].sector, bufs[b].data;
            BufsOk(t, |disk|) && Agrees(t, disk[s := d], view[s := d])
  {
    var t := bufs[b := bufs[b].(valid := true, dirty := false)];
    StillCached(bufs, t, disk, view);
    OthersElsewhere(bufs, |disk|, b);
  }

  lemma ReleaseOk(bufs: seq<Buf>, sectors: nat, b: nat)
    requires BufsOk(bufs, sectors) && b < NBUF
    ensures BufsOk(bufs[b := bufs[b].(busy := false)], sectors)
  {
  }

  lemma ReleaseCoherent(bufs: seq<Buf>, disk: seq<Block>, view: seq<Block>, b: nat)
    requires BufsOk(bufs, |disk|) && Agrees(bufs, disk, view) && b < NBUF
    requires BufsOk(bufs[b := bufs[b].(busy := false)], |disk|)
    ensures Agrees(bufs[b := bufs[b].(busy := false)], disk, view) <==>
            (bufs[b].valid ==> bufs[b].data == view[bufs[b].sector])
  {
    var t := bufs[b := bufs[b].(busy := false)];
    StillCached(bufs, t, disk, view);
    assert t[b].valid ==> t[b].sector < |disk|;
  }

  ghost predicate Recyclable(x: Buf) {
    !x.busy && !x.dirty
  }

  lemma HolderUnique(bufs: seq<Buf>, sectors: nat, b: nat, dev: nat, sector: nat)
    requires BufsOk(bufs, sectors) && b < NBUF && Holds(bufs[b], dev, sector) && dev != NODEV
    ensures forall c :: 0 <= c < NBUF && Holds(bufs[c], dev, sector) ==> c == b
  {
  }

  lemma SetBusy(bufs: seq<Buf>, sectors: nat, b: nat)
    requires BufsOk(bufs, sectors) && b < NBUF && bufs[b].dev != NODEV
    ensures BufsOk(bufs[b := bufs[b].(busy := true)], sectors)
  {
  }

  lemma BusyAgrees(bufs: seq<Buf>, disk: seq<Block>, view: seq<Block>, b: nat)
    requires BufsOk(bufs, |disk|) && Agrees(bufs, disk, view) && b < NBUF && bufs[b].dev != NODEV
    requires BufsOk(bufs[b := bufs[b].(busy := true)], |disk|)
    ensures Agrees(bufs[b := bufs[b].(busy := true)], disk, view)
  {
    StillCached(bufs, bufs[b := bufs[b].(busy := true)], disk, view);
  }

  lemma RecycleOk(bufs: seq<Buf>, sectors: nat, b: nat, dev: nat, sector: nat)
    requires BufsOk(bufs, sectors) && b < NBUF && dev != NODEV
    requires forall c :: 0 <= c < NBUF ==> !Holds(bufs[c], dev, sector)
    ensures BufsOk(bufs[b := Buf(dev, sector, true, false, false, bufs[b].data)], sectors)
  {
  }

  /** A clean buffer can be forgotten: its sector is on the disk. */
  lemma RecycleAgrees(bufs: seq<Buf>, disk: seq<Block>, view: seq<Block>, b: nat, dev: nat, sector: nat)
    requires BufsOk(bufs, |disk|) && Agrees(bufs, disk, view) && b < NBUF && Recyclable(bufs[b])
    requires BufsOk(bufs[b := Buf(dev, sector, true, false, false, bufs[b].data)], |disk|)
    ensures Agrees(bufs[b := Buf(dev, sector, true, false, false, bufs[b].data)], disk, view)
  {
    var t := bufs[b := Buf(dev, sector, true, false, false, bufs[b].data)];
    forall s | 0 <= s < |disk| && view[s] != disk[s] ensures exists c :: 0 <= c < NBUF && t[c].valid && t[c].sector == s {
      var c :| 0 <= c < NBUF && bufs[c].valid && bufs[c].sector == s;
      assert c != b;
      assert t[c].valid && t[c].sector == s;
    }
  }

  lemma BufsLength(bufs: seq<Buf>, sectors: nat)
    requires BufsOk(bufs, sectors)
    ensures |bufs| == NBUF
  {
  }
}
