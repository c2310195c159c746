/**
 grep.c: the regular-expression matcher, against a meaning that knows nothing of backtracking: a
 pattern is a list of items, and it matches at a position when the text from there on can be cut
 into one segment per item.
 */
module Grep {

  /** A C string without its terminator. */
  type CString = s: string | '\0' !in s witness ""

  // ---- the meaning of a pattern ----

  /** `c` stands for itself, or for any character when it is a dot. */
  datatype Item = One(c: char) | Star(c: char) | End

  /** How matchhere reads a pattern: a star belongs to the character before it, and a dollar sign means
      the end of the text only in last place. */
  ghost function Items(re: string): seq<Item> {
    if re == "" then []
    else if |re| > 1 && re[1] == '*' then [Star(re[0])] + Items(re[2..])
    else if re == "$" then [End]
    else [One(re[0])] + Items(re[1..])
  }

  predicate Accepts(c: char, d: char) {
    c == '.' || c == d
  }

  /** Item x covers text[i..j]. */
  ghost predicate Covers(x: Item, text: string, i: nat, j: nat) {
    && i <= j <= |text|
    && match x
       case One(c) => j == i + 1 && Accepts(c, text[i])
       case Star(c) => forall k :: i <= k < j ==> Accepts(c, text[k])
       case End => i == j == |text|
  }

  ghost predicate Cut(xs: seq<Item>, text: string, i: nat, cuts: seq<nat>) {
    && |cuts| == |xs| + 1 && cuts[0] == i <= |text|
    && forall k :: 0 <= k < |xs| ==> Covers(xs[k], text, cuts[k], cuts[k + 1])
  }

  ghost predicate MatchesAt(xs: seq<Item>, text: string, i: nat) {
    exists cuts :: Cut(xs, text, i, cuts)
  }

  ghost predicate Matches(re: string, text: string) {
    if re != "" && re[0] == '^' then MatchesAt(Items(re[1..]), text, 0)
    else exists i :: 0 <= i <= |text| && MatchesAt(Items(re), text, i)
  }

  // ---- taking a match apart ----

  lemma MatchNone(text: string, i: nat)
    requires i <= |text|
    ensures MatchesAt([], text, i)
  {
    assert Cut([], text, i, [i]);
  }

  /** The first item covers some segment, and the rest matches behind it. */
  lemma MatchCons(x: Item, xs: seq<Item>, text: string, i: nat)
    ensures MatchesAt([x] + xs, text, i) <==> exists j :: Covers(x, text, i, j) && MatchesAt(xs, text, j)
  {
    var ys := [x] + xs;
    if MatchesAt(ys, text, i) {
      var cuts :| Cut(ys, text, i, cuts);
      assert Covers(ys[0], text, cuts[0], cuts[1]);
      forall k | 0 <= k < |xs| ensures Covers(xs[k], text, cuts[1..][k], cuts[1..][k + 1]) {
        assert Covers(ys[k + 1], text, cuts[k + 1], cuts[k + 2]);
      }
      assert Cut(xs, text, cuts[1], cuts[1..]);
    }
    if exists j :: Covers(x, text, i, j) && MatchesAt(xs, text, j) {
      var j :| Covers(x, text, i, j) && MatchesAt(xs, text, j);
      var cuts :| Cut(xs, text, j, cuts);
      var more: seq<nat> := [i] + cuts;
      forall k | 0 <= k < |ys| ensures Covers(ys[k], text, more[k], more[k + 1]) {
        if k > 0 {
          assert Covers(xs[k - 1], text, cuts[k - 1], cuts[k]);
        }
      }
      assert Cut(ys, text, i, more);
    }
  }

  // ---- the matcher ----

  /** matchhere(re, text + t). */
  method MatchHere(re: CString, text: CString, t: nat) returns (r: bool)
    requires t <= |text|
    ensures r <==> MatchesAt(Items(re), text, t)
    decreases |re|, 0
  {
    if re == "" {
      MatchNone(text, t);
      return true;
    }
    if |re| > 1 && re[1] == '*' {
      MatchCons(Star(re[0]), Items(re[2..]), text, t);
      r := MatchStar(re[0], re[2..], text, t);
      return;
    }
    if re[0] == '$' && |re| == 1 {
      MatchCons(End, [], text, t);
      MatchNone(text, |text|);
      assert [End] + [] == [End];
      assert t == |text| ==> Covers(End, text, t, |text|);
      return t == |text|;
    }
    MatchCons(One(re[0]), Items(re[1..]), text, t);
    if t < |text| && (re[0] == '.' || re[0] == text[t]) {
      assert Covers(One(re[0]), text, t, t + 1);
      r := MatchHere(re[1..], text, t + 1);
      return;
    }
    return false;
  }

  /** matchstar(c, re, text + t): zero or more c, then re. */
  method MatchStar(c: char, re: CString, text: CString, t: nat) returns (r: bool)
    requires t <= |text|
    ensures r <==> exists j :: Covers(Star(c), text, t, j) && MatchesAt(Items(re), text, j)
    decreases |re|, 1
  {
    var u := t;
    while true
      invariant t <= u <= |text|
      invariant Covers(Star(c), text, t, u)
      invariant forall j :: t <= j < u ==> !MatchesAt(Items(re), text, j)
      decreases |text| - u
    {
      var here := MatchHere(re, text, u);
      if here { return true; }
      if !(u < |text| && (text[u] == c || c == '.')) { break; }
      u := u + 1;
    }
    assert u == |text| || !Accepts(c, text[u]);
    return false;
  }

  /** match: anchored at the start after a leading ^, otherwise tried at every position, the empty
      string at the end included. */
  method Match(re: CString, text: CString) returns (r: bool)
    ensures r <==> Matches(re, text)
  {
    if |re| > 0 && re[0] == '^' {
      r := MatchHere(re[1..], text, 0);
      return;
    }
    var t := 0;
    while true
      invariant 0 <= t <= |text|
      invariant forall i :: 0 <= i < t ==> !MatchesAt(Items(re), text, i)
      decreases |text| - t
    {
      var here := MatchHere(re, text, t);
      if here { return true; }
      if t == |text| { break; }
      t := t + 1;
    }
    return false;
  }
}
