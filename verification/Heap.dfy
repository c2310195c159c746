/**
 umalloc.c: the allocator of section 8.7 of The C Programming Language. Addresses count headers
 (8 bytes); a block is a header followed by size - 1 units. The free list is circular, in address
 order, and starts with a static header of size 0 that lies below everything sbrk hands out.
 */
module Heap {
  import opened Basics

  const HEADER_BYTES := 8
  const MIN_UNITS := 4096

  datatype Block = Block(addr: int, size: nat)

  // ---- lists of blocks ----

  ghost predicate InBlock(b: Block, u: int) {
    b.addr <= u < b.addr + b.size
  }

  ghost predicate InSome(bs: seq<Block>, u: int) {
    exists i :: 0 <= i < |bs| && InBlock(bs[i], u)
  }

  ghost predicate Disjoint(a: Block, b: Block) {
    a.addr + a.size <= b.addr || b.addr + b.size <= a.addr
  }

  ghost function Units(bs: seq<Block>): nat {
    if bs == [] then 0 else Units(bs[..|bs| - 1]) + bs[|bs| - 1].size
  }

  lemma {:induction false} UnitsConcat(a: seq<Block>, b: seq<Block>)
    ensures Units(a + b) == Units(a) + Units(b)
  {
    if b == [] {
      assert a + b == a;
    } else {
      assert (a + b)[..|a + b| - 1] == a + b[..|b| - 1];
      UnitsConcat(a, b[..|b| - 1]);
    }
  }

  lemma UnitsOne(b: Block)
    ensures Units([b]) == b.size && Units([]) == 0
  {
    assert Units([]) == 0;
  }

  /** Free blocks: the static header first, then address order with a gap between neighbours. */
  ghost predicate FreeList(f: seq<Block>, base: int) {
    && |f| >= 1 && f[0] == Block(base, 0)
    && (forall i :: 1 <= i < |f| ==> f[i].size >= 1)
    && Ordered(f)
  }

  ghost predicate Ordered(f: seq<Block>) {
    forall i, j :: 0 <= i < j < |f| ==> f[i].addr + f[i].size < f[j].addr
  }

  lemma OrderedSplice(a: seq<Block>, x: Block, c: seq<Block>)
    requires Ordered(a) && Ordered(c)
    requires forall i :: 0 <= i < |a| ==> a[i].addr + a[i].size < x.addr
    requires forall j :: 0 <= j < |c| ==> x.addr + x.size < c[j].addr
    ensures Ordered(a + [x] + c)
  {
    var g := a + [x] + c;
    forall i, j | 0 <= i < j < |g| ensures g[i].addr + g[i].size < g[j].addr {
      if j > |a| {
        assert g[j] == c[j - |a| - 1];
        if i > |a| {
          assert g[i] == c[i - |a| - 1];
        }
      }
    }
  }

  ghost predicate Apart(f: seq<Block>, live: seq<Block>) {
    && (forall i, j :: 0 <= i < j < |live| ==> Disjoint(live[i], live[j]))
    && (forall i, j :: 0 <= i < |f| && 0 <= j < |live| ==> Disjoint(f[i], live[j]))
  }

  ghost predicate Within(bs: seq<Block>, base: int, brk: int) {
    forall i :: 0 <= i < |bs| ==> base < bs[i].addr && bs[i].size >= 1 && bs[i].addr + bs[i].size <= brk
  }

  // ---- putting a block back ----

  ghost predicate MergesUp(f: seq<Block>, k: nat, b: Block) {
    k + 1 < |f| && b.addr + b.size == f[k + 1].addr
  }

  ghost predicate MergesDown(f: seq<Block>, k: nat, b: Block)
    requires k < |f|
  {
    f[k].addr + f[k].size == b.addr
  }

  /** b and, when they touch, the free block above it. */
  ghost function Raised(f: seq<Block>, k: nat, b: Block): Block {
    if MergesUp(f, k, b) then Block(b.addr, b.size + f[k + 1].size) else b
  }

  ghost function Above(f: seq<Block>, k: nat, b: Block): seq<Block>
    requires k < |f|
  {
    if MergesUp(f, k, b) then f[k + 2..] else f[k + 1..]
  }

  /** The list with b put in after position k, coalesced on both sides. */
  ghost function Insert(f: seq<Block>, k: nat, b: Block): seq<Block>
    requires k < |f|
  {
    if MergesDown(f, k, b) then f[..k] + [Block(f[k].addr, f[k].size + Raised(f, k, b).size)] + Above(f, k, b)
    else f[..k + 1] + [Raised(f, k, b)] + Above(f, k, b)
  }

  /** Where b ends up. */
  ghost function InsertAt(f: seq<Block>, k: nat, b: Block): nat
    requires k < |f|
  {
    if MergesDown(f, k, b) then k else k + 1
  }

  /** b lies after position k and before position k + 1, overlapping nothing. */
  ghost predicate Gap(f: seq<Block>, base: int, k: nat, b: Block) {
    && FreeList(f, base) && k < |f| && b.size >= 1 && base < b.addr
    && f[k].addr + f[k].size <= b.addr
    && (k + 1 < |f| ==> b.addr + b.size <= f[k + 1].addr)
  }

  /** The block b becomes part of. */
  ghost function Joined(f: seq<Block>, k: nat, b: Block): Block
    requires k < |f|
  {
    if MergesDown(f, k, b) then Block(f[k].addr, f[k].size + Raised(f, k, b).size) else Raised(f, k, b)
  }

  /** The new list position by position. */
  lemma InsertIndex(f: seq<Block>, k: nat, b: Block)
    requires k < |f|
    ensures var g, at := Insert(f, k, b), InsertAt(f, k, b);
            && |g| == |f| + 1 - (if MergesUp(f, k, b) then 1 else 0) - (if MergesDown(f, k, b) then 1 else 0)
            && at < |g| && g[at] == Joined(f, k, b)
            && (forall i :: 0 <= i < at ==> g[i] == f[i])
            && (forall i :: at < i < |g| ==> g[i] == f[i + |f| - |g|])
  {
    var at, x, up := InsertAt(f, k, b), Joined(f, k, b), Above(f, k, b);
    var g := f[..at] + [x] + up;
    assert Insert(f, k, b) == g;
    hide Insert, Joined;
    forall i | at < i < |g| ensures g[i] == f[i + |f| - |g|] {
      assert g[i] == up[i - at - 1];
    }
  }

  /** The joined block stays clear of the blocks above it. */
  lemma JoinedBelow(f: seq<Block>, base: int, k: nat, b: Block, m: nat)
    requires Gap(f, base, k, b) && m < |f| && m > (if MergesUp(f, k, b) then k + 1 else k)
    ensures Joined(f, k, b).addr + Joined(f, k, b).size < f[m].addr
  {
    if MergesUp(f, k, b) {
      assert f[k + 1].addr + f[k + 1].size < f[m].addr;
    } else if m > k + 1 {
      assert f[k + 1].addr + f[k + 1].size < f[m].addr;
    }
  }

  lemma InsertOrdered(f: seq<Block>, base: int, k: nat, b: Block)
    requires Gap(f, base, k, b)
    ensures Ordered(Insert(f, k, b))
  {
    hide Insert;
    var at, x, up := InsertAt(f, k, b), Joined(f, k, b), Above(f, k, b);
    forall j | 0 <= j < |up| ensures x.addr + x.size < up[j].addr {
      JoinedBelow(f, base, k, b, j + |f| - |up|);
    }
    OrderedSplice(f[..at], x, up);
    InsertIs(f, k, b);
  }

  lemma InsertIs(f: seq<Block>, k: nat, b: Block)
    requires k < |f|
    ensures Insert(f, k, b) == f[..InsertAt(f, k, b)] + [Joined(f, k, b)] + Above(f, k, b)
  {
  }

  lemma InsertFreeList(f: seq<Block>, base: int, k: nat, b: Block)
    requires Gap(f, base, k, b)
    ensures FreeList(Insert(f, k, b), base)
  {
    hide Insert, Ordered, Above;
    InsertOrdered(f, base, k, b);
    InsertIndex(f, k, b);
  }

  lemma UnitsAround(f: seq<Block>, k: nat)
    requires k < |f|
    ensures Units(f) == Units(f[..k]) + f[k].size + Units(f[k + 1..])
  {
    assert f == f[..k] + [f[k]] + f[k + 1..];
    UnitsThree(f[..k], [f[k]], f[k + 1..]);
    UnitsOne(f[k]);
  }

  lemma InsertUnits(f: seq<Block>, base: int, k: nat, b: Block)
    requires Gap(f, base, k, b)
    ensures Units(Insert(f, k, b)) == Units(f) + b.size
  {
    hide Ordered, Units;
    var at, x, up := InsertAt(f, k, b), Joined(f, k, b), Above(f, k, b);
    UnitsAround(f, k);
    if MergesUp(f, k, b) {
      UnitsAround(f[k + 1..], 0);
      assert f[k + 1..][..0] == [] && f[k + 1..][1..] == up;
    }
    if !MergesDown(f, k, b) {
      assert f[..at] == f[..k] + [f[k]];
      UnitsConcat(f[..k], [f[k]]);
      UnitsOne(f[k]);
    }
    assert Insert(f, k, b) == f[..at] + [x] + up;
    UnitsThree(f[..at], [x], up);
    UnitsOne(x);
  }

  lemma UnitsThree(a: seq<Block>, b: seq<Block>, c: seq<Block>)
    ensures Units(a + b + c) == Units(a) + Units(b) + Units(c)
  {
    UnitsConcat(a + b, c);
    UnitsConcat(a, b);
  }

  /** A block that overlaps neither the list nor b overlaps nothing in the new list. */
  lemma InsertDisjoint(f: seq<Block>, base: int, k: nat, b: Block, x: Block)
    requires Gap(f, base, k, b) && x.size >= 1
    requires Disjoint(x, b) && forall i :: 0 <= i < |f| ==> Disjoint(f[i], x)
    ensures forall i :: 0 <= i < |Insert(f, k, b)| ==> Disjoint(Insert(f, k, b)[i], x)
  {
    hide Insert, Ordered;
    InsertIndex(f, k, b);
    assert Disjoint(f[k], x) && (k + 1 < |f| ==> Disjoint(f[k + 1], x));
    assert Disjoint(Joined(f, k, b), x);
  }

  lemma SomeSplice(a: seq<Block>, x: Block, c: seq<Block>, u: int)
    ensures InSome(a + [x] + c, u) <==> InSome(a, u) || InBlock(x, u) || InSome(c, u)
  {
    var g := a + [x] + c;
    if InSome(g, u) {
      var i :| 0 <= i < |g| && InBlock(g[i], u);
      if i < |a| {
        assert InBlock(a[i], u);
      } else if i > |a| {
        assert InBlock(c[i - |a| - 1], u);
      }
    }
    if InSome(a, u) {
      var i :| 0 <= i < |a| && InBlock(a[i], u);
      assert InBlock(g[i], u);
    }
    if InBlock(x, u) {
      assert InBlock(g[|a|], u);
    }
    if InSome(c, u) {
      var i :| 0 <= i < |c| && InBlock(c[i], u);
      assert InBlock(g[|a| + 1 + i], u);
    }
  }

  /** The free units afterwards are those before and those of b. */
  lemma InsertCovers(f: seq<Block>, base: int, k: nat, b: Block, u: int)
    requires Gap(f, base, k, b)
    ensures InSome(Insert(f, k, b), u) <==> InSome(f, u) || InBlock(b, u)
  {
    var up := Above(f, k, b);
    assert f == f[..k] + [f[k]] + f[k + 1..];
    SomeSplice(f[..k], f[k], f[k + 1..], u);
    if MergesUp(f, k, b) {
      assert f[k + 1..] == [] + [f[k + 1]] + up;
      SomeSplice([], f[k + 1], up, u);
    }
    if MergesDown(f, k, b) {
      SomeSplice(f[..k], Joined(f, k, b), up, u);
    } else {
      assert f[..k + 1] == f[..k] + [f[k]] + [];
      SomeSplice(f[..k], f[k], [], u);
      SomeSplice(f[..k + 1], Joined(f, k, b), up, u);
    }
  }

  // ---- the circular list in memory ----

  ghost function NextIndex(f: seq<Block>, i: nat): nat {
    if i + 1 < |f| then i + 1 else 0
  }

  /** The headers in memory describe exactly the list f, closed to a circle with a single wrap. */
  ghost predicate Links(f: seq<Block>, ptr: map<int, int>, size: map<int, nat>) {
    forall i {:trigger LinkAt(f, i, ptr, size)} :: 0 <= i < |f| ==> LinkAt(f, i, ptr, size)
  }

  ghost predicate LinkAt(f: seq<Block>, i: nat, ptr: map<int, int>, size: map<int, nat>)
    requires i < |f|
  {
    && f[i].addr in ptr && f[i].addr in size
    && size[f[i].addr] == f[i].size && ptr[f[i].addr] == f[NextIndex(f, i)].addr
  }

  /** Steps from position i to position k around the circle. */
  ghost function Distance(f: seq<Block>, i: nat, k: nat): nat
    requires i < |f| && k < |f|
  {
    if i <= k then k - i else k + |f| - i
  }

  lemma DistanceStep(f: seq<Block>, i: nat, k: nat)
    requires i < |f| && k < |f| && i != k
    ensures Distance(f, NextIndex(f, i), k) == Distance(f, i, k) - 1
  {
  }

  /** The position after which b belongs. */
  ghost function Slot(f: seq<Block>, a: int): (k: nat)
    requires |f| >= 1 && f[0].addr < a
    ensures k < |f| && f[k].addr < a
    ensures forall i :: k < i < |f| && Ordered(f) ==> a <= f[i].addr
  {
    if f[|f| - 1].addr < a then |f| - 1 else Slot(f[..|f| - 1], a)
  }

  /** free's relinking, first toward the block above, then toward the block below. */
  function LinkUp(ptr: map<int, int>, size: map<int, nat>, p: int, bp: int): (map<int, int>, map<int, nat>)
    requires bp in size && p in ptr && ptr[p] in size && ptr[p] in ptr
  {
    if bp + size[bp] == ptr[p] then (ptr[bp := ptr[ptr[p]]], size[bp := size[bp] + size[ptr[p]]])
    else (ptr[bp := ptr[p]], size)
  }

  function LinkDown(ptr: map<int, int>, size: map<int, nat>, p: int, bp: int): (map<int, int>, map<int, nat>)
    requires bp in size && bp in ptr && p in size && p in ptr
  {
    if p + size[p] == bp then (ptr[p := ptr[bp]], size[p := size[p] + size[bp]])
    else (ptr[p := bp], size)
  }

  /** Addresses of distinct blocks differ, and none is b's. */
  lemma Addresses(f: seq<Block>, base: int, k: nat, b: Block, i: nat)
    requires Gap(f, base, k, b) && i < |f|
    ensures f[i].addr != b.addr && (i != k ==> f[i].addr != f[k].addr)
    ensures i > k ==> b.addr < f[i].addr
    ensures i <= k ==> f[i].addr < b.addr
  {
    if i > k + 1 {
      assert f[k + 1].addr + f[k + 1].size < f[i].addr;
    } else if i < k {
      assert f[i].addr + f[i].size < f[k].addr;
    }
  }

  /** The address that follows b in the new list. */
  ghost function After(f: seq<Block>, k: nat, b: Block): int
    requires k < |f|
  {
    if MergesUp(f, k, b) then f[NextIndex(f, k + 1)].addr else f[NextIndex(f, k)].addr
  }

  /** What free's four assignments amount to. */
  ghost predicate Relinked(f: seq<Block>, k: nat, b: Block, ptr: map<int, int>, size: map<int, nat>,
                           ptr2: map<int, int>, size2: map<int, nat>) {
    && k < |f|
    && (forall x :: x in ptr && x != f[k].addr && x != b.addr ==> x in ptr2 && ptr2[x] == ptr[x])
    && (forall x :: x in size && x != f[k].addr && x != b.addr ==> x in size2 && size2[x] == size[x])
    && f[k].addr in ptr2 && f[k].addr in size2
    && (if MergesDown(f, k, b) then
          size2[f[k].addr] == Joined(f, k, b).size && ptr2[f[k].addr] == After(f, k, b)
        else
          && b.addr in ptr2 && b.addr in size2
          && size2[f[k].addr] == f[k].size && ptr2[f[k].addr] == b.addr
          && size2[b.addr] == Joined(f, k, b).size && ptr2[b.addr] == After(f, k, b))
  }

  lemma RelinkValues(f: seq<Block>, base: int, k: nat, b: Block, ptr: map<int, int>, size: map<int, nat>)
    requires Gap(f, base, k, b) && Links(f, ptr, size) && b.addr in size && size[b.addr] == b.size
    ensures f[k].addr in ptr && ptr[f[k].addr] in ptr && ptr[f[k].addr] in size
    ensures var (ptr1, size1) := LinkUp(ptr, size, f[k].addr, b.addr);
            && b.addr in ptr1 && b.addr in size1 && f[k].addr in ptr1 && f[k].addr in size1
            && var (ptr2, size2) := LinkDown(ptr1, size1, f[k].addr, b.addr);
               Relinked(f, k, b, ptr, size, ptr2, size2)
  {
    Addresses(f, base, k, b, k);
    Addresses(f, base, k, b, NextIndex(f, k));
    assert LinkAt(f, k, ptr, size) && LinkAt(f, NextIndex(f, k), ptr, size);
    hide Ordered;
  }

  /** Headers below, at and above the place where b went in. */
  lemma RelinkedBelow(f: seq<Block>, base: int, k: nat, b: Block, ptr: map<int, int>, size: map<int, nat>,
                      ptr2: map<int, int>, size2: map<int, nat>, i: nat)
    requires Gap(f, base, k, b) && Links(f, ptr, size) && Relinked(f, k, b, ptr, size, ptr2, size2)
    requires i < InsertAt(f, k, b)
    ensures i < |Insert(f, k, b)| && LinkAt(Insert(f, k, b), i, ptr2, size2)
  {
    var g := Insert(f, k, b);
    Addresses(f, base, k, b, i);
    assert LinkAt(f, i, ptr, size);
    assert g[i] == f[i] && NextIndex(g, i) == i + 1;
    assert i < k ==> NextIndex(f, i) == i + 1 && g[i + 1].addr == f[i + 1].addr;
    assert i == k ==> g[i + 1].addr == b.addr;
  }

  lemma RelinkedHere(f: seq<Block>, base: int, k: nat, b: Block, ptr: map<int, int>, size: map<int, nat>,
                     ptr2: map<int, int>, size2: map<int, nat>)
    requires Gap(f, base, k, b) && Links(f, ptr, size) && Relinked(f, k, b, ptr, size, ptr2, size2)
    ensures InsertAt(f, k, b) < |Insert(f, k, b)| && LinkAt(Insert(f, k, b), InsertAt(f, k, b), ptr2, size2)
  {
    hide Ordered, Links;
    var g, at, up := Insert(f, k, b), InsertAt(f, k, b), Above(f, k, b);
    assert g[at] == Joined(f, k, b);
    if |up| > 0 {
      assert g[at + 1] == up[0];
    } else {
      assert g[0].addr == f[0].addr;
    }
  }

  lemma RelinkedAbove(f: seq<Block>, base: int, k: nat, b: Block, ptr: map<int, int>, size: map<int, nat>,
                      ptr2: map<int, int>, size2: map<int, nat>, i: nat)
    requires Gap(f, base, k, b) && Links(f, ptr, size) && Relinked(f, k, b, ptr, size, ptr2, size2)
    requires InsertAt(f, k, b) < i < |Insert(f, k, b)|
    ensures LinkAt(Insert(f, k, b), i, ptr2, size2)
  {
    hide Insert, Ordered;
    InsertIndex(f, k, b);
    var g := Insert(f, k, b);
    var m := i + |f| - |g|;
    Addresses(f, base, k, b, m);
    assert LinkAt(f, m, ptr, size);
    assert g[0].addr == f[0].addr;
  }

  lemma RelinkedLinks(f: seq<Block>, base: int, k: nat, b: Block, ptr: map<int, int>, size: map<int, nat>,
                      ptr2: map<int, int>, size2: map<int, nat>)
    requires Gap(f, base, k, b) && Links(f, ptr, size) && Relinked(f, k, b, ptr, size, ptr2, size2)
    ensures Links(Insert(f, k, b), ptr2, size2)
  {
    hide Insert, LinkAt, Relinked, Ordered;
    var g, at := Insert(f, k, b), InsertAt(f, k, b);
    forall i | 0 <= i < |g| ensures LinkAt(g, i, ptr2, size2) {
      if i < at {
        RelinkedBelow(f, base, k, b, ptr, size, ptr2, size2, i);
      } else if i == at {
        RelinkedHere(f, base, k, b, ptr, size, ptr2, size2);
      } else {
        RelinkedAbove(f, base, k, b, ptr, size, ptr2, size2, i);
      }
    }
  }

  /** free's loop stops at the one place where b belongs, the wrap included. */
  lemma LoopTest(f: seq<Block>, base: int, i: nat, k: nat, b: Block)
    requires Gap(f, base, k, b) && i < |f|
    ensures var p, q := f[i].addr, f[NextIndex(f, i)].addr;
            ((b.addr > p && b.addr < q) || (p >= q && (b.addr > p || b.addr < q))) <==> i == k
  {
    Addresses(f, base, k, b, i);
    Addresses(f, base, k, b, NextIndex(f, i));
  }

  ghost predicate Under(f: seq<Block>, brk: int) {
    forall i :: 0 <= i < |f| ==> f[i].addr + f[i].size <= brk
  }

  lemma InsertUnder(f: seq<Block>, base: int, k: nat, b: Block, brk: int)
    requires Gap(f, base, k, b) && Under(f, brk) && b.addr + b.size <= brk
    ensures Under(Insert(f, k, b), brk)
  {
    hide Ordered;
    InsertIndex(f, k, b);
    hide Insert;
  }

  /** A block disjoint from the list fits behind its slot. */
  lemma SlotGap(f: seq<Block>, base: int, b: Block)
    requires FreeList(f, base) && b.size >= 1 && base < b.addr
    requires forall i :: 0 <= i < |f| ==> Disjoint(f[i], b)
    ensures Gap(f, base, Slot(f, b.addr), b)
  {
    var k := Slot(f, b.addr);
    assert Disjoint(f[k], b);
    if k + 1 < |f| {
      assert Disjoint(f[k + 1], b);
    }
  }

  lemma UnitsWithout(s: seq<Block>, j: nat)
    requires j < |s|
    ensures Units(s) == Units(Without(s, j)) + s[j].size
  {
    UnitsAround(s, j);
    UnitsConcat(s[..j], s[j + 1..]);
  }

  lemma InsertApart(f: seq<Block>, base: int, k: nat, live: seq<Block>, j: nat, brk: int)
    requires j < |live| && Gap(f, base, k, live[j]) && Apart(f, live) && Within(live, base, brk)
    ensures Apart(Insert(f, k, live[j]), Without(live, j))
  {
    hide Insert, Ordered;
    var rest := Without(live, j);
    forall m | 0 <= m < |rest|
      ensures forall i :: 0 <= i < |Insert(f, k, live[j])| ==> Disjoint(Insert(f, k, live[j])[i], rest[m])
    {
      var x := if m < j then m else m + 1;
      assert Disjoint(live[if x < j then x else j], live[if x < j then j else x]);
      InsertDisjoint(f, base, k, live[j], rest[m]);
    }
  }

  /** The headers of live blocks are not touched by relinking. */
  lemma LiveSizes(f: seq<Block>, base: int, k: nat, live: seq<Block>, j: nat, brk: int,
                  ptr: map<int, int>, size: map<int, nat>, ptr2: map<int, int>, size2: map<int, nat>)
    requires j < |live| && Gap(f, base, k, live[j]) && Apart(f, live) && Within(live, base, brk)
    requires Relinked(f, k, live[j], ptr, size, ptr2, size2)
    requires forall i :: 0 <= i < |live| ==> live[i].addr in size && size[live[i].addr] == live[i].size
    ensures forall i :: 0 <= i < |live| && i != j ==> live[i].addr in size2 && size2[live[i].addr] == live[i].size
  {
    forall i | 0 <= i < |live| && i != j ensures live[i].addr in size2 && size2[live[i].addr] == live[i].size {
      assert Disjoint(live[if i < j then i else j], live[if i < j then j else i]);
      assert Disjoint(f[k], live[i]);
    }
  }

  // ---- taking a block out ----

  lemma RemovedLinks(f: seq<Block>, base: int, i: nat, ptr: map<int, int>, size: map<int, nat>)
    requires FreeList(f, base) && Links(f, ptr, size) && 1 <= i < |f|
    ensures f[i].addr in ptr && f[i - 1].addr in ptr
    ensures Links(Without(f, i), ptr[f[i - 1].addr := ptr[f[i].addr]], size)
  {
    assert LinkAt(f, i, ptr, size) && LinkAt(f, i - 1, ptr, size);
    var g, ptr2 := Without(f, i), ptr[f[i - 1].addr := ptr[f[i].addr]];
    forall m | 0 <= m < |g| ensures LinkAt(g, m, ptr2, size) {
      var x := if m < i then m else m + 1;
      assert LinkAt(f, x, ptr, size);
      assert x != i - 1 ==> f[x].addr != f[i - 1].addr;
    }
  }

  lemma RemovedFreeList(f: seq<Block>, base: int, i: nat)
    requires FreeList(f, base) && 1 <= i < |f|
    ensures FreeList(Without(f, i), base)
  {
  }

  lemma ShrunkLinks(f: seq<Block>, base: int, i: nat, n: nat, ptr: map<int, int>, size: map<int, nat>)
    requires FreeList(f, base) && Links(f, ptr, size) && 1 <= i < |f| && 1 <= n < f[i].size
    ensures var small := Block(f[i].addr, f[i].size - n);
            && FreeList(f[i := small], base)
            && Links(f[i := small], ptr, size[f[i].addr := small.size][f[i].addr + small.size := n])
  {
    var small := Block(f[i].addr, f[i].size - n);
    var g, size2 := f[i := small], size[f[i].addr := small.size][f[i].addr + small.size := n];
    forall m | 0 <= m < |g| ensures LinkAt(g, m, ptr, size2) {
      assert LinkAt(f, m, ptr, size);
      if m < i {
        assert f[m].addr + f[m].size < f[i].addr;
      } else if m > i {
        assert f[i].addr + f[i].size < f[m].addr;
      }
    }
  }

  /** A part b of free block i overlaps neither live blocks nor what is left of the list. */
  lemma CarvedApart(f: seq<Block>, base: int, brk: int, i: nat, b: Block, g: seq<Block>, live: seq<Block>)
    requires FreeList(f, base) && Under(f, brk) && Apart(f, live) && Within(live, base, brk) && 1 <= i < |f| && b.size >= 1
    requires f[i].addr <= b.addr && b.addr + b.size == f[i].addr + f[i].size
    requires g == if b.addr == f[i].addr then Without(f, i) else f[i := Block(f[i].addr, f[i].size - b.size)]
    ensures Apart(g, live + [b]) && Within(live + [b], base, brk) && Under(g, brk)
  {
    var more := live + [b];
    forall x, y | 0 <= x < y < |more| ensures Disjoint(more[x], more[y]) {
      if y == |live| {
        assert Disjoint(f[i], live[x]);
      }
    }
    forall x, y | 0 <= x < |g| && 0 <= y < |more| ensures Disjoint(g[x], more[y]) {
      var m := if b.addr == f[i].addr && x >= i then x + 1 else x;
      if y < |live| {
        assert Disjoint(f[m], live[y]);
      } else if m < i {
        assert f[m].addr + f[m].size < f[i].addr;
      } else if m > i {
        assert f[i].addr + f[i].size < f[m].addr;
      }
    }
    assert f[0].addr + f[0].size < f[i].addr;
  }

  lemma CarvedUnits(f: seq<Block>, i: nat, b: Block, g: seq<Block>, live: seq<Block>)
    requires i < |f| && b.size <= f[i].size
    requires g == (if b.size == f[i].size then Without(f, i) else f[i := Block(f[i].addr, f[i].size - b.size)])
    ensures Units(g) + Units(live + [b]) == Units(f) + Units(live)
  {
    UnitsConcat(live, [b]);
    UnitsOne(b);
    if b.size == f[i].size {
      UnitsWithout(f, i);
    } else {
      UnitsAround(f, i);
      UnitsAround(g, i);
      assert g[..i] == f[..i] && g[i + 1..] == f[i + 1..];
    }
  }

  lemma NeighboursClear(f: seq<Block>, base: int, i: nat, u: int)
    requires FreeList(f, base) && i < |f|
    ensures InSome(f[..i], u) ==> u < f[i].addr
    ensures InSome(f[i + 1..], u) ==> f[i].addr + f[i].size <= u
  {
    if InSome(f[..i], u) {
      var m :| 0 <= m < i && InBlock(f[..i][m], u);
      assert f[m].addr + f[m].size < f[i].addr;
    }
    if InSome(f[i + 1..], u) {
      var m :| 0 <= m < |f[i + 1..]| && InBlock(f[i + 1..][m], u);
      assert f[i].addr + f[i].size < f[i + 1 + m].addr;
    }
  }

  lemma SomeConcat(a: seq<Block>, c: seq<Block>, u: int)
    ensures InSome(a + c, u) <==> InSome(a, u) || InSome(c, u)
  {
    if InSome(a + c, u) {
      var i :| 0 <= i < |a + c| && InBlock((a + c)[i], u);
      if i < |a| {
        assert InBlock(a[i], u);
      } else {
        assert InBlock(c[i - |a|], u);
      }
    }
    if InSome(a, u) {
      var i :| 0 <= i < |a| && InBlock(a[i], u);
      assert InBlock((a + c)[i], u);
    }
    if InSome(c, u) {
      var i :| 0 <= i < |c| && InBlock(c[i], u);
      assert InBlock((a + c)[|a| + i], u);
    }
  }

  /** The free units afterwards are those before without those of b. */
  lemma CarvedCovers(f: seq<Block>, base: int, i: nat, b: Block, g: seq<Block>, u: int)
    requires FreeList(f, base) && 1 <= i < |f| && b.size >= 1
    requires f[i].addr <= b.addr && b.addr + b.size == f[i].addr + f[i].size
    requires g == if b.addr == f[i].addr then Without(f, i) else f[i := Block(f[i].addr, f[i].size - b.size)]
    ensures InSome(g, u) <==> InSome(f, u) && !InBlock(b, u)
  {
    NeighboursClear(f, base, i, u);
    hide FreeList, InSome;
    assert f == f[..i] + [f[i]] + f[i + 1..];
    SomeSplice(f[..i], f[i], f[i + 1..], u);
    if b.addr == f[i].addr {
      SomeConcat(f[..i], f[i + 1..], u);
    } else {
      var small := Block(f[i].addr, f[i].size - b.size);
      assert g == f[..i] + [small] + f[i + 1..];
      SomeSplice(f[..i], small, f[i + 1..], u);
    }
  }

  /** Headers of live blocks survive the new header written at b.addr and the shrunken one at f[i]. */
  lemma CarvedSizes(f: seq<Block>, i: nat, b: Block, live: seq<Block>, base: int, brk: int, size: map<int, nat>, size2: map<int, nat>)
    requires i < |f| && f[i].size >= 1 && Apart(f, live) && Within(live, base, brk)
    requires f[i].addr <= b.addr < f[i].addr + f[i].size
    requires forall x :: x in size && x != f[i].addr && x != b.addr ==> x in size2 && size2[x] == size[x]
    requires b.addr in size2 && size2[b.addr] == b.size
    requires forall x :: 0 <= x < |live| ==> live[x].addr in size && size[live[x].addr] == live[x].size
    ensures forall x :: 0 <= x < |live + [b]| ==> (live + [b])[x].addr in size2 && size2[(live + [b])[x].addr] == (live + [b])[x].size
  {
    forall x | 0 <= x < |live| ensures live[x].addr in size2 && size2[live[x].addr] == live[x].size {
      assert Disjoint(f[i], live[x]);
    }
  }

  /** What morecore asks for. */
  function Grant(nunits: nat): nat {
    if nunits < MIN_UNITS then MIN_UNITS else nunits
  }

  /** Fresh memory overlaps nothing. */
  lemma GrantApart(f: seq<Block>, base: int, brk: int, live: seq<Block>, b: Block)
    requires Apart(f, live) && Under(f, brk) && Within(live, base, brk) && b.addr >= brk && b.addr > base && b.size >= 1
    ensures Apart(f, live + [b]) && Under(f, b.addr + b.size) && Within(live + [b], base, b.addr + b.size)
  {
  }

  lemma FreshHeader(f: seq<Block>, live: seq<Block>, base: int, brk: int, b: Block, ptr: map<int, int>, size: map<int, nat>)
    requires FreeList(f, base) && Links(f, ptr, size) && Under(f, brk) && Within(live, base, brk)
    requires b.addr >= brk && b.addr > base
    requires forall i :: 0 <= i < |live| ==> live[i].addr in size && size[live[i].addr] == live[i].size
    ensures Links(f, ptr, size[b.addr := b.size])
    ensures forall i :: 0 <= i < |live + [b]| ==>
              (live + [b])[i].addr in size[b.addr := b.size] && size[b.addr := b.size][(live + [b])[i].addr] == (live + [b])[i].size
  {
    var size2 := size[b.addr := b.size];
    forall i | 0 <= i < |f| ensures LinkAt(f, i, ptr, size2) {
      assert LinkAt(f, i, ptr, size);
      assert f[i].addr != b.addr;
    }
  }

  lemma ListAddrs(f: seq<Block>, base: int, i: nat)
    requires FreeList(f, base) && i < |f|
    ensures f[i].addr >= base && (i > 0 ==> f[i].addr > base)
  {
    assert i > 0 ==> f[0].addr + f[0].size < f[i].addr;
  }

  /** The list malloc starts with: the static header alone. */
  lemma EmptyHeap(base: int, brk: int, ptr: map<int, int>, size: map<int, nat>)
    requires base <= brk && ptr == map[base := base] && size == map[base := 0]
    ensures var f := [Block(base, 0)];
            FreeList(f, base) && Links(f, ptr, size) && Under(f, brk) && Apart(f, []) && Within([], base, brk) && Units(f) + Units([]) == 0
            && forall u :: !InSome(f, u) && !InSome([], u)
  {
    UnitsOne(Block(base, 0));
    assert LinkAt([Block(base, 0)], 0, ptr, size);
  }

  lemma SameAddr(f: seq<Block>, base: int, i: nat, k: nat)
    requires FreeList(f, base) && i < |f| && k < |f| && f[i].addr == f[k].addr
    ensures i == k
  {
  }

  class Allocator {
    /** Address of the static header. */
    const base: int
    /** The two fields of every header. */
    var ptr: map<int, int>
    var size: map<int, nat>
    /** Where the next search starts; 0 before the first call. */
    var freep: int
    /** The free list, the blocks in use, the end of the memory obtained so far and its size. */
    ghost var free: seq<Block>
    ghost var live: seq<Block>
    ghost var brk: int
    ghost var total: nat
    /** Position of freep in the free list. */
    ghost var cur: nat

    ghost predicate Valid()
      reads this
    {
      && 0 < base <= brk
      && if freep == 0 then free == [] && live == [] && total == 0
         else
           && FreeList(free, base) && Links(free, ptr, size) && cur < |free| && freep == free[cur].addr
           && Under(free, brk) && Within(live, base, brk) && Apart(free, live)
           && (forall i :: 0 <= i < |live| ==> live[i].addr in size && size[live[i].addr] == live[i].size)
           && Units(free) + Units(live) == total
    }

    constructor (base: int)
      requires base > 0
      ensures Valid() && this.base == base && freep == 0 && brk == base
    {
      this.base := base;
      ptr, size, freep := map[], map[], 0;
      free, live, brk, total, cur := [], [], base, 0, 0;
    }

    /** The loop of free: the list element after which bp belongs. */
    method FindSlot(bp: int, ghost b: Block) returns (p: int, ghost k: nat)
      requires freep != 0 && cur < |free| && freep == free[cur].addr
      requires Links(free, ptr, size) && b.addr == bp
      requires |free| >= 1 && free[0].addr < bp && Gap(free, base, Slot(free, bp), b)
      ensures k == Slot(free, bp) && p == free[k].addr
    {
      hide Links, Gap;
      k := Slot(free, bp);
      p := freep;
      ghost var i: nat := cur;
      LinkFact(free, i, ptr, size);
      while !(bp > p && bp < ptr[p])
        invariant i < |free| && p == free[i].addr && p in ptr && ptr[p] == free[NextIndex(free, i)].addr
        decreases Distance(free, i, k)
      {
        LoopTest(free, base, i, k, b);
        if p >= ptr[p] && (bp > p || bp < ptr[p]) { break; }
        DistanceStep(free, i, k);
        p := ptr[p];
        i := NextIndex(free, i);
        LinkFact(free, i, ptr, size);
      }
      LoopTest(free, base, i, k, b);
    }

    /** The tail of free: bp is linked in after p, and joined with what it touches. */
    method Relink(p: int, bp: int, ghost f: seq<Block>, ghost k: nat, ghost b: Block)
      requires Gap(f, base, k, b) && Links(f, ptr, size) && p == f[k].addr && bp == b.addr
      requires bp in size && size[bp] == b.size
      modifies this`ptr, this`size, this`freep
      ensures Relinked(f, k, b, old(ptr), old(size), ptr, size) && freep == p
    {
      RelinkValues(f, base, k, b, ptr, size);
      hide Relinked, Gap, Links;
      if bp + size[bp] == ptr[p] {
        ptr, size := ptr[bp := ptr[ptr[p]]], size[bp := size[bp] + size[ptr[p]]];
      } else {
        ptr := ptr[bp := ptr[p]];
      }
      if p + size[p] == bp {
        ptr, size := ptr[p := ptr[bp]], size[p := size[p] + size[bp]];
      } else {
        ptr := ptr[p := bp];
      }
      freep := p;
    }

    /** free: block j of the live blocks goes back, coalesced with its free neighbours. `at` is the
        free block it is now part of. */
    method Free(bp: int, ghost j: nat) returns (ghost at: nat)
      requires Valid() && freep != 0 && j < |live| && live[j].addr == bp
      modifies this
      ensures Valid() && freep != 0 && brk == old(brk) && total == old(total)
      ensures live == Without(old(live), j)
      ensures base < bp && free == Insert(old(free), Slot(old(free), bp), old(live)[j])
      ensures forall u :: InSome(free, u) <==> InSome(old(free), u) || InBlock(old(live)[j], u)
      ensures at < |free| && free[at].addr <= bp && bp + old(live)[j].size <= free[at].addr + free[at].size
      ensures at == InsertAt(old(free), Slot(old(free), bp), old(live)[j])
      ensures exists k :: 0 <= k < |old(free)| && freep == old(free)[k].addr < bp && forall m :: k < m < |old(free)| ==> bp < old(free)[m].addr
    {
      hide Insert, Relinked, Links, Units, Ordered, InSome, Disjoint;
      ghost var f, b := free, live[j];
      SlotGap(f, base, b);
      var p, k := FindSlot(bp, b);
      ghost var ptr0, size0 := ptr, size;
      Relink(p, bp, f, k, b);
      FreeDone(f, base, k, live, j, brk, ptr0, size0, ptr, size, total);
      free, live, cur := Insert(f, k, b), Without(live, j), k;
      at := InsertAt(f, k, b);
      InsertedHere(f, base, k, b);
      BeforeAll(f, base, k, b);
    }

    /** morecore: at least 4096 units from sbrk, put on the free list. `sbrk` is what the system call
        returns when it is made: nothing, or the start of fresh memory. */
    method MoreCore(nunits: nat, sbrk: Option<int>) returns (ok: bool, ghost at: nat)
      requires Valid() && freep != 0
      requires sbrk.Some? ==> sbrk.value >= brk && sbrk.value > base
      modifies this
      ensures ok <==> sbrk.Some?
      ensures !ok ==> Valid() && freep == old(freep) && free == old(free) && live == old(live) && total == old(total)
      ensures ok ==> Valid() && freep != 0 && live == old(live)
      ensures ok ==> at < |free| && free[at].size >= nunits
      ensures ok ==> free[at].addr + free[at].size == brk && forall i :: 0 <= i < |free| && i != at ==> free[i] in old(free)
      ensures ok ==> total == old(total) + Grant(nunits) && brk == sbrk.value + Grant(nunits)
      ensures ok ==> brk - sbrk.value == if nunits < 4096 then 4096 else nunits
      ensures ok ==> forall u :: InSome(free, u) <==> InSome(old(free), u) || sbrk.value <= u < brk
    {
      hide Links, Units, InSome, Ordered, Apart, Insert, Slot;
      at := 0;
      var nu := if nunits < MIN_UNITS then MIN_UNITS else nunits;
      if sbrk.None? { return false, at; }
      var hp := sbrk.value;
      ghost var b := Block(hp, nu);
      GrantApart(free, base, brk, live, b);
      FreshHeader(free, live, base, brk, b, ptr, size);
      UnitsConcat(live, [b]);
      UnitsOne(b);
      size := size[hp := nu];
      live, brk, total := live + [b], hp + nu, total + nu;
      ghost var j := |live| - 1;
      ghost var f := free;
      MoreGap(f, base, b);
      at := Free(hp, j);
      InsertTop(f, base, b);
      assert Without(old(live) + [b], j) == old(live);
      ok := true;
    }

    /** The end of malloc: nunits off the end of block p, or all of it. */
    method Carve(prevp: int, p: int, nunits: nat, ghost i: nat) returns (a: int)
      requires Valid() && freep != 0 && 1 <= i < |free| && p == free[i].addr && prevp == free[i - 1].addr
      requires 1 <= nunits <= free[i].size
      modifies this
      ensures Valid() && freep != 0 && total == old(total) && brk == old(brk)
      ensures old(free)[i].addr <= a && a + nunits == old(free)[i].addr + old(free)[i].size
      ensures live == old(live) + [Block(a, nunits)]
      ensures forall u :: InSome(free, u) <==> InSome(old(free), u) && !InBlock(Block(a, nunits), u)
      ensures freep == prevp
    {
      hide Links, Units, InSome, Ordered, Apart;
      ghost var f, size0 := free, size;
      LinkFact(f, i, ptr, size);
      LinkFact(f, i - 1, ptr, size);
      ListAddrs(f, base, i - 1);
      a := p;
      if size[p] == nunits {
        RemovedLinks(f, base, i, ptr, size);
        RemovedFreeList(f, base, i);
        ptr := ptr[prevp := ptr[p]];
        free := Without(f, i);
      } else {
        ShrunkLinks(f, base, i, nunits, ptr, size);
        size := size[p := size[p] - nunits];
        a := a + size[p];
        size := size[a := nunits];
        free := f[i := Block(p, f[i].size - nunits)];
        assert free[i - 1] == f[i - 1];
      }
      ghost var b := Block(a, nunits);
      freep, cur := prevp, i - 1;
      CarvedApart(f, base, brk, i, b, free, live);
      CarvedUnits(f, i, b, free, live);
      CarvedSizes(f, i, b, live, base, brk, size0, size);
      forall u ensures InSome(free, u) <==> InSome(f, u) && !InBlock(b, u) {
        CarvedCovers(f, base, i, b, free, u);
      }
      live := live + [b];
    }

    /** malloc's loop, once around from the block after freep: the first block that is large enough,
        or none when freep itself has been looked at in vain. */
    method Search(nunits: nat) returns (found: bool, prevp: int, p: int, ghost i: nat)
      requires Valid() && freep != 0 && nunits >= 1
      ensures found ==> 1 <= i < |free| && p == free[i].addr && prevp == free[i - 1].addr && free[i].size >= nunits
      ensures found ==> forall m :: 0 <= m < |free| && Distance(free, m, cur) > Distance(free, i, cur) ==> free[m].size < nunits
      ensures !found ==> forall m :: 0 <= m < |free| ==> free[m].size < nunits
    {
      hide Links, Units, Ordered, Apart, Under, Within;
      prevp := freep;
      ghost var h: nat := cur;
      i := NextIndex(free, cur);
      LinkFact(free, h, ptr, size);
      p := ptr[prevp];
      while true
        invariant h < |free| && i == NextIndex(free, h) && prevp == free[h].addr && p == free[i].addr
        invariant forall m :: 0 <= m < |free| && Distance(free, m, cur) > Distance(free, i, cur) ==> free[m].size < nunits
        decreases Distance(free, i, cur)
      {
        LinkFact(free, i, ptr, size);
        if size[p] >= nunits {
          return true, prevp, p, i;
        }
        if p == freep {
          SameAddr(free, base, i, cur);
          return false, prevp, p, i;
        }
        LinkFact(free, i, ptr, size);
        prevp, h := p, i;
        p := ptr[p];
        i := NextIndex(free, i);
      }
    }

    /** malloc: a block with room for nbytes unless the sum overflows, or nothing when sbrk fails. Fresh memory is asked for at
        most once, and only when no free block is large enough; the second round of the search always
        finds it, also when it was merged into an existing block. The pointer handed out is one unit
        past the block returned. */
    method Malloc(nbytes: nat, sbrk: Option<int>) returns (r: Option<int>, asked: bool)
      requires Valid() && nbytes < UINT_LIMIT && NUnits(nbytes) * HEADER_BYTES < UINT_LIMIT / 2
      requires sbrk.Some? ==> sbrk.value >= brk && sbrk.value > base
      modifies this
      ensures Valid() && freep != 0
      ensures r.None? <==> asked && sbrk.None?
      ensures asked <==> forall i :: 0 <= i < |old(free)| ==> old(free)[i].size < NUnits(nbytes)
      ensures r.Some? ==> live == old(live) + [Block(r.value, NUnits(nbytes))]
      ensures r.Some? ==> ((NUnits(nbytes) - 1) * HEADER_BYTES >= nbytes <==> nbytes + HEADER_BYTES - 1 < UINT_LIMIT)
      ensures r.None? ==> live == old(live)
      ensures r.Some? && !asked ==> exists i: nat :: && old(freep) != 0 && FirstFit(old(free), old(cur), i, NUnits(nbytes))
                                                && r.value + NUnits(nbytes) == old(free)[i].addr + old(free)[i].size && freep == old(free)[i - 1].addr
      ensures r.Some? && asked ==> r.value + NUnits(nbytes) == brk
      ensures total == old(total) + if asked && sbrk.Some? then Grant(NUnits(nbytes)) else 0
      ensures forall u :: InSome(free, u) <==>
                && (InSome(old(free), u) || (asked && sbrk.Some? && sbrk.value <= u < sbrk.value + Grant(NUnits(nbytes))))
                && !(r.Some? && InBlock(Block(r.value, NUnits(nbytes)), u))
    {
      hide Links, Units, InSome, Ordered, Apart, Under, Within;
      RoomForRequest(nbytes);
      var nunits := NUnits(nbytes);
      if freep == 0 {
        ptr, size, freep := map[base := base], map[base := 0], base;
        EmptyHeap(base, brk, ptr, size);
        free, cur := [Block(base, 0)], 0;
      }
      var found, prevp, p, i := Search(nunits);
      asked := !found;
      if asked {
        var ok, at := MoreCore(nunits, sbrk);
        if !ok { return None, asked; }
        found, prevp, p, i := Search(nunits);
        assert found by { assert free[at].size >= nunits; }
        assert i == at;
      }
      var a := Carve(prevp, p, nunits, i);
      return Some(a), asked;
    }
  }

  /** nunits for a request, in 32-bit arithmetic. */
  function NUnits(nbytes: nat): nat {
    (nbytes + HEADER_BYTES - 1) % UINT_LIMIT / HEADER_BYTES + 1
  }

  /** The units behind the header hold the request exactly when the sum does not overflow, and then one unit
      less would not. */
  lemma RoomForRequest(nbytes: nat)
    requires nbytes < UINT_LIMIT
    ensures (NUnits(nbytes) - 1) * HEADER_BYTES >= nbytes <==> nbytes + HEADER_BYTES - 1 < UINT_LIMIT
    ensures nbytes + HEADER_BYTES - 1 < UINT_LIMIT ==> (NUnits(nbytes) - 2) * HEADER_BYTES < nbytes
  {
  }

  lemma InsertedHere(f: seq<Block>, base: int, k: nat, b: Block)
    requires Gap(f, base, k, b)
    ensures var g, at := Insert(f, k, b), InsertAt(f, k, b);
            && k < |g| && g[k].addr == f[k].addr >= base
            && at < |g| && g[at].addr <= b.addr && b.addr + b.size <= g[at].addr + g[at].size
  {
    InsertIndex(f, k, b);
    assert k > 0 ==> f[0].addr + f[0].size < f[k].addr;
    hide Insert, Ordered;
  }

  lemma MoreGap(f: seq<Block>, base: int, b: Block)
    requires FreeList(f, base) && Under(f, b.addr) && b.size >= 1 && b.addr > base
    ensures |f| >= 1 && f[0].addr < b.addr && Gap(f, base, Slot(f, b.addr), b)
  {
    assert f[|f| - 1].addr + f[|f| - 1].size <= b.addr;
  }

  lemma BeforeAll(f: seq<Block>, base: int, k: nat, b: Block)
    requires Gap(f, base, k, b) && f[k].addr < b.addr
    ensures forall m :: k < m < |f| ==> b.addr < f[m].addr
  {
    forall m | k < m < |f| ensures b.addr < f[m].addr {
      assert m > k + 1 ==> f[k + 1].addr + f[k + 1].size < f[m].addr;
    }
  }

  /** A block above all others: it is the last of the list, and the others are as they were. */
  lemma InsertTop(f: seq<Block>, base: int, b: Block)
    requires |f| >= 1 && f[0].addr < b.addr && Gap(f, base, Slot(f, b.addr), b) && Under(f, b.addr)
    ensures var g, at := Insert(f, Slot(f, b.addr), b), InsertAt(f, Slot(f, b.addr), b);
            && at < |g| && g[at].addr + g[at].size == b.addr + b.size
            && forall i :: 0 <= i < |g| && i != at ==> g[i] in f
  {
    assert f[|f| - 1].addr + f[|f| - 1].size <= b.addr;
    assert Slot(f, b.addr) == |f| - 1;
  }

  /** Position i is the first after c, going round, whose block is large enough. */
  ghost predicate FirstFit(f: seq<Block>, c: nat, i: nat, n: nat)
    requires c < |f|
  {
    && 1 <= i < |f| && f[i].size >= n
    && forall m :: 0 <= m < |f| && Distance(f, m, c) > Distance(f, i, c) ==> f[m].size < n
  }

  lemma LinkFact(f: seq<Block>, i: nat, ptr: map<int, int>, size: map<int, nat>)
    requires Links(f, ptr, size) && i < |f|
    ensures f[i].addr in ptr && f[i].addr in size && size[f[i].addr] == f[i].size
    ensures ptr[f[i].addr] == f[NextIndex(f, i)].addr
  {
    assert LinkAt(f, i, ptr, size);
  }

  lemma FreeDone(f: seq<Block>, base: int, k: nat, live: seq<Block>, j: nat, brk: int,
                 ptr: map<int, int>, size: map<int, nat>, ptr2: map<int, int>, size2: map<int, nat>, total: nat)
    requires j < |live| && Gap(f, base, k, live[j]) && Apart(f, live) && Within(live, base, brk) && Under(f, brk)
    requires Links(f, ptr, size) && Relinked(f, k, live[j], ptr, size, ptr2, size2)
    requires forall i :: 0 <= i < |live| ==> live[i].addr in size && size[live[i].addr] == live[i].size
    requires Units(f) + Units(live) == total
    ensures var g, rest := Insert(f, k, live[j]), Without(live, j);
            && FreeList(g, base) && Links(g, ptr2, size2) && Under(g, brk) && Within(rest, base, brk) && Apart(g, rest)
            && (forall i :: 0 <= i < |rest| ==> rest[i].addr in size2 && size2[rest[i].addr] == rest[i].size)
            && Units(g) + Units(rest) == total
            && (forall u :: InSome(g, u) <==> InSome(f, u) || InBlock(live[j], u))
  {
    hide Insert, Relinked, Links, Units, Ordered, Apart, InSome;
    var b := live[j];
    InsertFreeList(f, base, k, b);
    RelinkedLinks(f, base, k, b, ptr, size, ptr2, size2);
    InsertUnder(f, base, k, b, brk);
    InsertApart(f, base, k, live, j, brk);
    LiveSizes(f, base, k, live, j, brk, ptr, size, ptr2, size2);
    InsertUnits(f, base, k, b);
    UnitsWithout(live, j);
    forall u ensures InSome(Insert(f, k, b), u) <==> InSome(f, u) || InBlock(b, u) {
      InsertCovers(f, base, k, b, u);
    }
  }

  /** The largest request on an empty heap: malloc hands out a block of one unit, its header, and no byte behind
      it. */
  method LargestRequest(base: int) returns (heap: Allocator, a: int)
    requires base > 0
    ensures heap.Valid() && |heap.live| == 1 && heap.live[0].addr == a && (heap.live[0].size - 1) * HEADER_BYTES == 0
  {
    heap := new Allocator(base);
    var nbytes := UINT_LIMIT - 1;
    assert NUnits(nbytes) == 1;
    var r, asked := heap.Malloc(nbytes, Some(base + 1));
    a := r.value;
  }
}
