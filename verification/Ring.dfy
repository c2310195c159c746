/**
 A doubly linked ring through prev/next, as bio.c keeps its buffers: a list head and the members in
 order.
 */
module Ring {
  import opened Basics

  /** Node 0 is the head, node i the (i-1)-th member. */
  ghost function Node(head: nat, order: seq<nat>, i: nat): nat
    requires i <= |order|
  {
    if i == 0 then head else order[i - 1]
  }

  ghost function Succ(order: seq<nat>, i: nat): nat {
    if i < |order| then i + 1 else 0
  }

  ghost predicate LinkedAt(head: nat, order: seq<nat>, i: nat, prev: seq<nat>, next: seq<nat>)
    requires i <= |order|
  {
    var x, y := Node(head, order, i), Node(head, order, Succ(order, i));
    && x < |next| == |prev| && y < |prev|
    && next[x] == y && prev[y] == x
  }

  /** The members are distinct, differ from the head, and the links run through them in order. */
  ghost predicate IsRing(head: nat, order: seq<nat>, prev: seq<nat>, next: seq<nat>) {
    && |prev| == |next|
    && (forall i :: 0 <= i < |order| ==> order[i] != head)
    && (forall i, j :: 0 <= i < j < |order| ==> order[i] != order[j])
    && (forall i {:trigger LinkedAt(head, order, i, prev, next)} ::
          0 <= i <= |order| ==> LinkedAt(head, order, i, prev, next))
  }

  lemma RingFact(head: nat, order: seq<nat>, i: nat, prev: seq<nat>, next: seq<nat>)
    requires IsRing(head, order, prev, next) && i <= |order|
    ensures var x, y := Node(head, order, i), Node(head, order, Succ(order, i));
            x < |next| == |prev| && y < |prev| && next[x] == y && prev[y] == x
  {
    assert LinkedAt(head, order, i, prev, next);
  }

  /** Distinct positions hold distinct nodes. */
  lemma NodesDiffer(head: nat, order: seq<nat>, i: nat, j: nat)
    requires i <= |order| && j <= |order| && i != j
    requires forall a :: 0 <= a < |order| ==> order[a] != head
    requires forall a, b :: 0 <= a < b < |order| ==> order[a] != order[b]
    ensures Node(head, order, i) != Node(head, order, j)
  {
  }

  /** b->next->prev = b->prev; b->prev->next = b->next. */
  lemma Unlink(head: nat, order: seq<nat>, k: nat, prev: seq<nat>, next: seq<nat>)
    requires IsRing(head, order, prev, next) && k < |order|
    ensures var b := order[k];
            && b < |prev| == |next| && next[b] < |prev| && prev[b] < |prev|
            && var prev1 := prev[next[b] := prev[b]];
               prev1[b] == prev[b]
               && IsRing(head, Without(order, k), prev1, next[prev1[b] := next[b]])
  {
    var b := order[k];
    var o := Without(order, k);
    RingFact(head, order, k, prev, next);
    RingFact(head, order, k + 1, prev, next);
    var p, q := Node(head, order, k), Node(head, order, Succ(order, k + 1));
    assert prev[b] == p && next[b] == q && p != b && q != b;
    var prev1: seq<nat>, next1: seq<nat> := prev[q := p], next[p := q];
    forall i | 0 <= i <= |o| ensures LinkedAt(head, o, i, prev1, next1) {
      var x := if i <= k then i else i + 1;
      assert Node(head, o, i) == Node(head, order, x);
      if i == k {
        assert Node(head, o, Succ(o, i)) == q;
      } else {
        RingFact(head, order, x, prev, next);
        assert Node(head, o, Succ(o, i)) == Node(head, order, Succ(order, x));
        NodesDiffer(head, order, x, k);
        NodesDiffer(head, order, Succ(order, x), Succ(order, k + 1));
      }
    }
  }

  /** b->next = head.next; b->prev = &head; head.next->prev = b; head.next = b. */
  lemma LinkFront(head: nat, order: seq<nat>, b: nat, prev: seq<nat>, next: seq<nat>)
    requires IsRing(head, order, prev, next) && b !in order && b != head && b < |prev|
    ensures head < |next| == |prev| && next[head] < |prev|
    ensures var first := next[head];
            IsRing(head, [b] + order, prev[b := head][first := b], next[b := first][head := b])
  {
    RingFact(head, order, 0, prev, next);
    RingFact(head, order, |order|, prev, next);
    var first := next[head];
    var o: seq<nat> := [b] + order;
    var prev1: seq<nat>, next1: seq<nat> := prev[b := head][first := b], next[b := first][head := b];
    forall i | 0 <= i <= |o| ensures LinkedAt(head, o, i, prev1, next1) {
      if i >= 2 {
        var x := i - 1;
        RingFact(head, order, x, prev, next);
        assert Node(head, o, i) == Node(head, order, x);
        assert Node(head, o, Succ(o, i)) == Node(head, order, Succ(order, x));
        NodesDiffer(head, order, Succ(order, x), Succ(order, 0));
      } else if i == 1 {
        assert Node(head, o, Succ(o, 1)) == first;
      }
    }
  }
}
