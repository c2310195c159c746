/**
 What becomes of a change that is left in a buffer without being written or logged, as replaceBlk leaves
 the redirected words of an indirect table: the buffer is recycled like any other, and the next reader
 gets the old block from the disk.
 */
module CacheLoss {
  import opened Blocks
  import opened Ring
  import opened BufferCache

  /** The buffers released before b. */
  ghost function Older(stamp: seq<nat>, b: nat): set<nat>
    requires |stamp| == NBUF && b < NBUF
  {
    set c | 0 <= c < NBUF && stamp[c] < stamp[b]
  }

  ghost function Numbers(n: nat): (r: set<nat>)
    ensures |r| == n && forall c :: c in r <==> 0 <= c < n
  {
    if n == 0 then {} else Numbers(n - 1) + {n - 1}
  }

  lemma FewOlder(stamp: seq<nat>, b: nat)
    requires |stamp| == NBUF && b < NBUF
    ensures |Older(stamp, b)| < NBUF
  {
    hide Numbers, Older;
    OlderInside(stamp, b);
    Inside(Older(stamp, b), b, Numbers(NBUF));
  }

  lemma OlderInside(stamp: seq<nat>, b: nat)
    requires |stamp| == NBUF && b < NBUF
    ensures b !in Older(stamp, b) && Older(stamp, b) <= Numbers(NBUF)
  {
    hide Numbers;
  }

  lemma Inside(a: set<nat>, b: nat, all: set<nat>)
    requires a <= all && b in all && b !in a
    ensures |a| < |all|
  {
    assert all == (a + {b}) + (all - (a + {b}));
    assert |a + {b}| == |a| + 1;
  }

  /** An older buffer that is used and released is older no more. */
  lemma OlderShrinks(stamp: seq<nat>, b: nat, c: nat, clock: nat)
    requires |stamp| == NBUF && b < NBUF && c < NBUF && stamp[c] < stamp[b] < clock
    ensures Older(stamp[c := clock], b) == Older(stamp, b) - {c}
    ensures |Older(stamp[c := clock], b)| == |Older(stamp, b)| - 1
  {
    assert Older(stamp[c := clock], b) == Older(stamp, b) - {c};
  }

  ghost predicate Idle(bufs: seq<Buf>, b: nat, n: nat, x: Block) {
    && |bufs| == NBUF && b < NBUF
    && (forall c :: 0 <= c < NBUF ==> Recyclable(bufs[c]))
    && (forall c :: 0 <= c < NBUF && c != b && bufs[c].dev == ROOTDEV ==> 0 < bufs[c].sector < n)
    && bufs[b].valid && Holds(bufs[b], ROOTDEV, 0) && bufs[b].data == x
  }

  /** No buffer holds sector 0. */
  ghost predicate Gone(bufs: seq<Buf>) {
    |bufs| == NBUF && forall c :: 0 <= c < NBUF ==> Recyclable(bufs[c]) && !Holds(bufs[c], ROOTDEV, 0)
  }

  /** Sector n, which nobody has read yet, is read and released: it takes an older buffer, or that of sector 0. */
  method ReadNext(cache: Bcache, b: nat, n: nat, ghost x: Block) returns (evicted: bool)
    requires cache.Valid() && Idle(cache.bufs, b, n, x) && 0 < n < |cache.disk|
    modifies cache
    ensures cache.Valid() && cache.disk == old(cache.disk)
    ensures evicted ==> Gone(cache.bufs)
    ensures !evicted ==> Idle(cache.bufs, b, n + 1, x) && |Older(cache.stamp, b)| < |Older(old(cache.stamp), b)|
  {
    hide IsRing, BufsOk;
    assert forall c :: 0 <= c < NBUF ==> !Holds(cache.bufs[c], ROOTDEV, n);
    assert Recyclable(cache.bufs[b]);
    ghost var clock, stamp, order := cache.clock, cache.stamp, cache.order;
    var r := cache.Bread(ROOTDEV, n);
    BufsLength(cache.bufs, |cache.disk|);
    var ok := cache.Brelse(r.b);
    evicted := r.b == b;
    if !evicted {
      StampsDiffer(order, stamp, clock, r.b, b);
      OlderShrinks(stamp, b, r.b, clock);
    }
  }

  lemma StampsDiffer(order: seq<nat>, stamp: seq<nat>, clock: nat, a: nat, b: nat)
    requires OrderOk(order, stamp, clock) && a < NBUF && b < NBUF && a != b
    ensures stamp[a] != stamp[b]
  {
    assert a in order && b in order;
    var i :| 0 <= i < NBUF && order[i] == a;
    var j :| 0 <= j < NBUF && order[j] == b;
  }

  /** bread of sector 0, a change of its data to x, brelse, and then reads of other sectors: the change was
      there, and the next bread of sector 0 returns the old data. */
  method ChangeIsLost(disk: seq<Block>, x: Block) returns (changed: Block, later: Block)
    requires |disk| > NBUF + 1
    ensures changed == x && later == disk[0]
  {
    hide IsRing, Agrees, Older;
    var cache := new Bcache(disk);
    assert Recyclable(cache.bufs[0]);
    var r := cache.Bread(ROOTDEV, 0);
    cache.Modify(r.b, x);
    changed := cache.bufs[r.b].data;
    var ok := cache.Brelse(r.b);
    var b := r.b;
    FewOlder(cache.stamp, b);
    var n := 1;
    var evicted := false;
    while !evicted
      invariant cache.Valid() && cache.disk == disk && 0 < n
      invariant evicted ==> Gone(cache.bufs)
      invariant !evicted ==> Idle(cache.bufs, b, n, x) && |Older(cache.stamp, b)| + n <= NBUF
      decreases !evicted, if evicted then 0 else |Older(cache.stamp, b)|
    {
      evicted := ReadNext(cache, b, n, x);
      n := n + 1;
    }
    assert Recyclable(cache.bufs[0]);
    r := cache.Bread(ROOTDEV, 0);
    later := cache.bufs[r.b].data;
  }
}
