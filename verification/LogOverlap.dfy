/**
 The redo log when a logged sector lies in the log itself, as happens once balloc hands out a block of
 the log area. install_trans then overwrites log blocks it may still have to read, or the header that
 recovery reads its list from. Exactly which transactions survive that, with and without crashes on the
 way, is told here from their sectors.
 */
module LogOverlap {
  import opened Blocks
  import opened RedoLog

  /** The list of a transaction: distinct sectors of the disk, any of them in the log. */
  ghost predicate Listed(d: Disk, start: nat, s: seq<nat>) {
    && start + |s| < |d| && |s| <= LOGSIZE
    && (forall i :: 0 <= i < |s| ==> s[i] < |d|)
    && (forall i, j :: 0 <= i < j < |s| ==> s[i] != s[j])
  }

  /** The data logged for position i of the list. */
  function SlotData(d: Disk, start: nat, i: nat): Block
    requires start + 1 + i < |d|
  {
    d[start + 1 + i]
  }

  /** install_trans on what bread returns: each log block is read when its turn comes. */
  ghost function InstallSeq(d: Disk, start: nat, s: seq<nat>, k: nat): (r: Disk)
    requires Listed(d, start, s) && k <= |s|
    ensures |r| == |d|
  {
    if k == 0 then d else
      var e := InstallSeq(d, start, s, k - 1);
      e[s[k - 1] := e[start + k]]
  }

  /** With all sectors below the log this is the installation of a transaction. */
  lemma {:induction false} InstallsHome(d: Disk, start: nat, s: seq<nat>, k: nat)
    requires Listed(d, start, s) && InHome(s, start) && k <= |s|
    ensures InstallSeq(d, start, s, k) == Install(d, start, s, k)
  {
    if k > 0 {
      InstallsHome(d, start, s, k - 1);
    }
  }

  /** What bread returns in commit_trans. The buffer of a log block that is also logged as a file's block
      serves both, so it may hold the file's data instead of the slot's. In recovery v is d. */
  ghost predicate Cached(d: Disk, v: Disk, start: nat, s: seq<nat>)
    requires Listed(d, start, s)
  {
    && |v| == |d|
    && forall c :: 0 <= c < |s| ==>
         SlotData(v, start, c) == SlotData(d, start, c) ||
         exists j :: 0 <= j < |s| && s[j] == start + 1 + c && SlotData(v, start, c) == SlotData(d, start, j)
  }

  lemma DiskIsCached(d: Disk, start: nat, s: seq<nat>)
    requires Listed(d, start, s)
    ensures Cached(d, d, start, s)
  {
  }

  /** The disk after k block writes of install_trans. */
  ghost function InstallDisk(d: Disk, v: Disk, start: nat, s: seq<nat>, k: nat): (r: Disk)
    requires Listed(d, start, s) && |v| == |d| && k <= |s|
    ensures |r| == |d|
  {
    if k == 0 then d else
      InstallDisk(d, v, start, s, k - 1)[s[k - 1] := InstallSeq(v, start, s, k - 1)[start + k]]
  }

  /** In recovery that is what bread returns. */
  lemma {:induction false} InstallsSeq(d: Disk, start: nat, s: seq<nat>, k: nat)
    requires Listed(d, start, s) && k <= |s|
    ensures InstallDisk(d, d, start, s, k) == InstallSeq(d, start, s, k)
  {
    if k > 0 {
      InstallsSeq(d, start, s, k - 1);
    }
  }

  /** Every logged block has reached its home sector, and no other home sector has changed. */
  ghost predicate Correct(d: Disk, e: Disk, start: nat, s: seq<nat>) {
    && start + |s| < |d| == |e|
    && (forall i :: 0 <= i < |s| && s[i] < start ==> e[s[i]] == SlotData(d, start, i))
    && (forall c :: 0 <= c < start && c !in s ==> e[c] == d[c])
  }

  /** Sector j of the list is the log block of the home sector i. */
  ghost predicate Hits(start: nat, s: seq<nat>, j: nat, i: nat) {
    i < |s| && j < |s| && s[i] < start && s[j] == start + 1 + i
  }

  /** The log blocks hold different data. */
  ghost predicate Different(d: Disk, start: nat, s: seq<nat>)
    requires start + |s| < |d|
  {
    forall i, j :: 0 <= i < j < |s| ==> SlotData(d, start, i) != SlotData(d, start, j)
  }

  // ---- where a block's data came from ----

  /** Block c keeps its data until its own number comes up. */
  lemma {:induction false} KeptUntil(d: Disk, start: nat, s: seq<nat>, k: nat, c: nat)
    requires Listed(d, start, s) && k <= |s| && c < |d| && forall j :: 0 <= j < k ==> s[j] != c
    ensures InstallSeq(d, start, s, k)[c] == d[c]
  {
    if k > 0 {
      KeptUntil(d, start, s, k - 1, c);
    }
  }

  lemma {:induction false} DiskKept(d: Disk, v: Disk, start: nat, s: seq<nat>, k: nat, c: nat)
    requires Listed(d, start, s) && |v| == |d| && k <= |s| && c < |d| && forall j :: 0 <= j < k ==> s[j] != c
    ensures InstallDisk(d, v, start, s, k)[c] == d[c]
  {
    if k > 0 {
      DiskKept(d, v, start, s, k - 1, c);
    }
  }

  /** A block written at turn j keeps that data. */
  lemma {:induction false} KeptSince(d: Disk, v: Disk, start: nat, s: seq<nat>, j: nat, k: nat)
    requires Listed(d, start, s) && |v| == |d| && j < k <= |s|
    ensures InstallDisk(d, v, start, s, k)[s[j]] == SlotData(InstallSeq(v, start, s, j), start, j)
    ensures InstallSeq(v, start, s, k)[s[j]] == SlotData(InstallSeq(v, start, s, j), start, j)
  {
    if j < k - 1 {
      KeptSince(d, v, start, s, j, k - 1);
    }
  }

  /** Log block c holds at turn k what log block r held: its own, or that of an earlier one that went to a
      log block. */
  lemma {:induction false} CameFrom(v: Disk, start: nat, s: seq<nat>, k: nat, c: nat) returns (r: nat)
    requires Listed(v, start, s) && k <= |s| && c < |s|
    ensures r < |s| && SlotData(InstallSeq(v, start, s, k), start, c) == SlotData(v, start, r)
    ensures r == c || s[r] > start
    decreases k
  {
    if k == 0 {
      r := c;
    } else if s[k - 1] == start + 1 + c {
      r := CameFrom(v, start, s, k - 1, k - 1);
      assert r == k - 1 ==> s[r] > start;
    } else {
      r := CameFrom(v, start, s, k - 1, c);
    }
  }

  /** So it holds data logged for position x: its own, or what was logged for a log block. */
  lemma Traced(d: Disk, v: Disk, start: nat, s: seq<nat>, k: nat, c: nat) returns (x: nat)
    requires Listed(d, start, s) && Cached(d, v, start, s) && k <= |s| && c < |s|
    ensures x < |s| && SlotData(InstallSeq(v, start, s, k), start, c) == SlotData(d, start, x)
    ensures x == c || s[x] > start
  {
    var r := CameFrom(v, start, s, k, c);
    if SlotData(v, start, r) == SlotData(d, start, r) {
      x := r;
    } else {
      x :| 0 <= x < |s| && s[x] == start + 1 + r && SlotData(v, start, r) == SlotData(d, start, x);
    }
  }

  /** A home block gets its data if its log block is not overwritten before its turn and not shared. */
  lemma GetsOwn(d: Disk, v: Disk, start: nat, s: seq<nat>, i: nat, k: nat)
    requires Listed(d, start, s) && Cached(d, v, start, s) && i < k <= |s| && s[i] < start
    requires forall j :: 0 <= j < i ==> !Hits(start, s, j, i)
    ensures InstallDisk(d, v, start, s, k)[s[i]] == SlotData(v, start, i)
  {
    KeptSince(d, v, start, s, i, k);
    forall j | 0 <= j < i ensures s[j] != start + 1 + i {
      assert !Hits(start, s, j, i);
    }
    KeptUntil(v, start, s, i, start + 1 + i);
  }

  /** A log block overwritten before it is read sends the wrong data home. */
  lemma GetsOther(d: Disk, v: Disk, start: nat, s: seq<nat>, j: nat, i: nat, k: nat)
    requires Listed(d, start, s) && Cached(d, v, start, s) && Different(d, start, s) && j < i < k <= |s| && Hits(start, s, j, i)
    ensures InstallDisk(d, v, start, s, k)[s[i]] != SlotData(d, start, i)
  {
    KeptSince(d, v, start, s, i, k);
    KeptSince(d, v, start, s, j, i);
    var x := Traced(d, v, start, s, j, j);
    assert x != i && SlotData(d, start, x) != SlotData(d, start, i);
  }

  // ---- without a crash ----

  /** Which overlaps do no harm: the log block is overwritten after its turn and its buffer is not shared. */
  ghost predicate Harmless(d: Disk, v: Disk, start: nat, s: seq<nat>)
    requires Listed(d, start, s) && |v| == |d|
  {
    forall j, i :: Hits(start, s, j, i) ==> i < j && SlotData(v, start, i) == SlotData(d, start, i)
  }

  /** install_trans puts the right data into the home blocks if the overlaps are harmless; and if the logged
      data differ, only then. */
  lemma InstallExact(d: Disk, v: Disk, start: nat, s: seq<nat>)
    requires Listed(d, start, s) && Cached(d, v, start, s)
    ensures Harmless(d, v, start, s) ==> Correct(d, InstallDisk(d, v, start, s, |s|), start, s)
    ensures Different(d, start, s) ==>
              (Correct(d, InstallDisk(d, v, start, s, |s|), start, s) <==> Harmless(d, v, start, s))
  {
    if Harmless(d, v, start, s) {
      Installed(d, v, start, s, |s|);
    } else if Different(d, start, s) {
      var j: nat, i: nat :| Hits(start, s, j, i) && !(i < j && SlotData(v, start, i) == SlotData(d, start, i));
      if j < i {
        GetsOther(d, v, start, s, j, i, |s|);
      } else if i < j {
        SharedGoesHome(d, v, start, s, j, i, |s|);
      }
    }
  }

  /** A shared buffer sends the file's data home. */
  lemma SharedGoesHome(d: Disk, v: Disk, start: nat, s: seq<nat>, j: nat, i: nat, k: nat)
    requires Listed(d, start, s) && Cached(d, v, start, s) && i < j && i < k <= |s| && Hits(start, s, j, i)
    requires SlotData(v, start, i) != SlotData(d, start, i)
    ensures InstallDisk(d, v, start, s, k)[s[i]] != SlotData(d, start, i)
  {
    forall a | 0 <= a < i ensures !Hits(start, s, a, i) {
    }
    GetsOwn(d, v, start, s, i, k);
  }

  lemma Installed(d: Disk, v: Disk, start: nat, s: seq<nat>, k: nat)
    requires Listed(d, start, s) && Cached(d, v, start, s) && k <= |s| && forall i :: k <= i < |s| ==> s[i] >= start
    requires forall j, i :: Hits(start, s, j, i) ==> i < j && SlotData(v, start, i) == SlotData(d, start, i)
    ensures Correct(d, InstallDisk(d, v, start, s, k), start, s)
  {
    forall i | 0 <= i < |s| && s[i] < start ensures InstallDisk(d, v, start, s, k)[s[i]] == SlotData(d, start, i) {
      GetsOwn(d, v, start, s, i, k);
      SlotUnshared(d, v, start, s, i);
    }
    forall c | 0 <= c < start && c !in s ensures InstallDisk(d, v, start, s, k)[c] == d[c] {
      DiskKept(d, v, start, s, k, c);
    }
  }

  lemma SlotUnshared(d: Disk, v: Disk, start: nat, s: seq<nat>, i: nat)
    requires Listed(d, start, s) && Cached(d, v, start, s) && i < |s| && s[i] < start
    requires forall j :: Hits(start, s, j, i) ==> SlotData(v, start, i) == SlotData(d, start, i)
    ensures SlotData(v, start, i) == SlotData(d, start, i)
  {
    if SlotData(v, start, i) != SlotData(d, start, i) {
      var j :| 0 <= j < |s| && s[j] == start + 1 + i && SlotData(v, start, i) == SlotData(d, start, j);
      assert Hits(start, s, j, i);
    }
  }

  // ---- with a crash ----

  /** A header recovery can follow. */
  ghost predicate Readable(e: Disk, start: nat) {
    start < |e| && HeadN(e, start) <= LOGSIZE && Listed(e, start, HeadSectors(e, start))
  }

  /** The disk of a committed transaction: its header lists s. */
  ghost predicate Lists(d: Disk, start: nat, s: seq<nat>) {
    Readable(d, start) && HeadSectors(d, start) == s
  }

  lemma ListsFacts(d: Disk, start: nat, s: seq<nat>)
    requires Lists(d, start, s)
    ensures Listed(d, start, s) && Readable(d, start) && Restarted(d, start) == InstallSeq(d, start, s, |s|)
  {
  }

  /** Recovery from whatever disk a crash has left, with the list that is in its header now. */
  ghost function Restarted(e: Disk, start: nat): (r: Disk)
    requires Readable(e, start)
  {
    InstallSeq(e, start, HeadSectors(e, start), HeadN(e, start))
  }

  /** With a header of home sectors this is the recovery of RedoLog. */
  lemma RestartedHome(e: Disk, start: nat, size: nat)
    requires HeaderOk(e, start, size) && Readable(e, start)
    ensures Home(Restarted(e, start), start) == Home(Recovered(e, start, size), start)
  {
    InstallsHome(e, start, HeadSectors(e, start), HeadN(e, start));
  }

  /** A crash that leaves disk e does the transaction of d no harm. */
  ghost predicate Survives(d: Disk, e: Disk, start: nat, s: seq<nat>) {
    Readable(e, start) && Correct(d, Restarted(e, start), start, s)
  }

  /** h is the position of the header sector in the list, or its length. */
  ghost predicate HeaderAt(start: nat, s: seq<nat>, h: nat) {
    h <= |s| && (h < |s| ==> s[h] == start) && forall i :: 0 <= i < h ==> s[i] != start
  }

  /** What lands in the header reads as no transaction. */
  ghost predicate LandsEmpty(d: Disk, v: Disk, start: nat, s: seq<nat>, h: nat)
    requires Listed(d, start, s) && |v| == |d| && h < |s|
  {
    Word(SlotData(InstallSeq(v, start, s, h), start, h), 0) == 0
  }

  /** What is logged for a home sector is not there already. */
  ghost predicate Changes(d: Disk, start: nat, s: seq<nat>)
    requires Listed(d, start, s)
  {
    forall i :: 0 <= i < |s| && s[i] < start ==> d[s[i]] != SlotData(d, start, i)
  }

  /** The home sectors come before the header, and their log blocks are overwritten only after it. */
  ghost predicate Ordered(d: Disk, v: Disk, start: nat, s: seq<nat>, h: nat)
    requires Listed(d, start, s) && |v| == |d|
  {
    && (forall i :: 0 <= i < |s| && s[i] < start ==> i < h)
    && forall j, i :: Hits(start, s, j, i) ==> h < j && SlotData(v, start, i) == SlotData(d, start, i)
  }

  /** Until its turn the header lists s; from then on it is empty. */
  lemma HeaderDuring(d: Disk, v: Disk, start: nat, s: seq<nat>, h: nat, k: nat)
    requires Lists(d, start, s) && |v| == |d| && HeaderAt(start, s, h) && k <= |s|
    ensures k <= h ==> Lists(InstallDisk(d, v, start, s, k), start, s)
    ensures h < k && LandsEmpty(d, v, start, s, h) ==>
              var e := InstallDisk(d, v, start, s, k); Readable(e, start) && HeadN(e, start) == 0 && Restarted(e, start) == e
  {
    var e := InstallDisk(d, v, start, s, k);
    if k <= h {
      DiskKept(d, v, start, s, k, start);
      assert HeadSectors(e, start) == s;
    } else {
      KeptSince(d, v, start, s, h, k);
      assert LandsEmpty(d, v, start, s, h) ==> HeadSectors(e, start) == [];
    }
  }

  /** The log blocks and home blocks a crash before the header's turn leaves. */
  lemma KeptByCrash(d: Disk, v: Disk, start: nat, s: seq<nat>, h: nat, k: nat)
    requires Listed(d, start, s) && |v| == |d| && Ordered(d, v, start, s, h) && k <= h && k <= |s|
    ensures var e := InstallDisk(d, v, start, s, k);
            && (forall i :: 0 <= i < |s| && s[i] < start ==> SlotData(e, start, i) == SlotData(d, start, i))
            && (forall c :: 0 <= c < start && c !in s ==> e[c] == d[c])
  {
    var e := InstallDisk(d, v, start, s, k);
    forall i | 0 <= i < |s| && s[i] < start ensures SlotData(e, start, i) == SlotData(d, start, i) {
      forall j | 0 <= j < k ensures s[j] != start + 1 + i {
        assert !Hits(start, s, j, i);
      }
      DiskKept(d, v, start, s, k, start + 1 + i);
    }
    forall c | 0 <= c < start && c !in s ensures e[c] == d[c] {
      DiskKept(d, v, start, s, k, c);
    }
  }

  lemma CorrectFrom(d: Disk, e: Disk, f: Disk, start: nat, s: seq<nat>)
    requires Correct(e, f, start, s) && |d| == |e|
    requires forall i :: 0 <= i < |s| && s[i] < start ==> SlotData(e, start, i) == SlotData(d, start, i)
    requires forall c :: 0 <= c < start && c !in s ==> e[c] == d[c]
    ensures Correct(d, f, start, s)
  {
  }

  lemma OrderedSurvives(d: Disk, v: Disk, start: nat, s: seq<nat>, h: nat, k: nat)
    requires Lists(d, start, s) && Cached(d, v, start, s) && HeaderAt(start, s, h) && k <= |s| && Ordered(d, v, start, s, h)
    requires h < |s| ==> LandsEmpty(d, v, start, s, h)
    ensures Survives(d, InstallDisk(d, v, start, s, k), start, s)
  {
    var e := InstallDisk(d, v, start, s, k);
    HeaderDuring(d, v, start, s, h, k);
    if k <= h {
      KeptByCrash(d, v, start, s, h, k);
      DiskIsCached(e, start, s);
      Installed(e, e, start, s, |s|);
      InstallsSeq(e, start, s, |s|);
      CorrectFrom(d, e, Restarted(e, start), start, s);
    } else {
      Installed(d, v, start, s, k);
    }
  }

  /** A home sector behind the header: the crash after the header's turn forgets it. */
  lemma LateHomeFails(d: Disk, v: Disk, start: nat, s: seq<nat>, h: nat, i: nat)
    requires Lists(d, start, s) && Cached(d, v, start, s) && HeaderAt(start, s, h) && h < |s|
    requires Changes(d, start, s) && LandsEmpty(d, v, start, s, h) && h < i < |s| && s[i] < start
    ensures !Survives(d, InstallDisk(d, v, start, s, h + 1), start, s)
  {
    HeaderDuring(d, v, start, s, h, h + 1);
    DiskKept(d, v, start, s, h + 1, s[i]);
  }

  /** A log block overwritten before its turn: the crash before the first write already shows it. */
  lemma TangledFails(d: Disk, start: nat, s: seq<nat>, j: nat, i: nat)
    requires Lists(d, start, s) && Different(d, start, s) && j < i && Hits(start, s, j, i)
    ensures !Survives(d, d, start, s)
  {
    InstallsSeq(d, start, s, |s|);
    DiskIsCached(d, start, s);
    GetsOther(d, d, start, s, j, i, |s|);
  }

  /** A log block overwritten after it was read is lost to the recovery that has to read it again. */
  lemma OverwrittenFails(d: Disk, v: Disk, start: nat, s: seq<nat>, h: nat, j: nat, i: nat)
    requires Lists(d, start, s) && Cached(d, v, start, s) && HeaderAt(start, s, h) && Different(d, start, s)
    requires i < j < h && Hits(start, s, j, i)
    ensures !Survives(d, InstallDisk(d, v, start, s, j + 1), start, s)
  {
    hide InstallDisk, InstallSeq, Lists, Readable;
    ListsFacts(d, start, s);
    var e := InstallDisk(d, v, start, s, j + 1);
    HeaderDuring(d, v, start, s, h, j + 1);
    ListsFacts(e, start, s);
    KeptSince(d, v, start, s, j, j + 1);
    var x := Traced(d, v, start, s, j, j);
    assert SlotData(e, start, i) == SlotData(d, start, x) && x != i;
    InstallsSeq(e, start, s, |s|);
    DiskIsCached(e, start, s);
    forall a | 0 <= a < i ensures !Hits(start, s, a, i) {
    }
    GetsOwn(e, e, start, s, i, |s|);
    assert Restarted(e, start)[s[i]] == SlotData(d, start, x) != SlotData(d, start, i);
  }

  /** A shared buffer, with the header overwritten later: the wrong data stay. */
  lemma SharedFails(d: Disk, v: Disk, start: nat, s: seq<nat>, h: nat, j: nat, i: nat)
    requires Lists(d, start, s) && Cached(d, v, start, s) && HeaderAt(start, s, h) && h < |s| && LandsEmpty(d, v, start, s, h)
    requires i < j && Hits(start, s, j, i) && SlotData(v, start, i) != SlotData(d, start, i)
    ensures !Survives(d, InstallDisk(d, v, start, s, |s|), start, s)
  {
    HeaderDuring(d, v, start, s, h, |s|);
    SharedGoesHome(d, v, start, s, j, i, |s|);
  }

  /** The crash that shows the damage when the order is broken. */
  lemma DisorderedFails(d: Disk, v: Disk, start: nat, s: seq<nat>, h: nat) returns (k: nat)
    requires Lists(d, start, s) && Cached(d, v, start, s) && HeaderAt(start, s, h) && !Ordered(d, v, start, s, h)
    requires Different(d, start, s) && (h < |s| ==> Changes(d, start, s) && LandsEmpty(d, v, start, s, h))
    ensures k <= |s| && !Survives(d, InstallDisk(d, v, start, s, k), start, s)
  {
    hide Survives, Lists, LandsEmpty, Changes, Different, InstallSeq;
    ListsFacts(d, start, s);
    if i :| 0 <= i < |s| && s[i] < start && i >= h {
      k := h + 1;
      LateHomeFails(d, v, start, s, h, i);
    } else {
      var j: nat, i: nat :| Hits(start, s, j, i) && !(h < j && SlotData(v, start, i) == SlotData(d, start, i));
      if j < i {
        k := 0;
        TangledFails(d, start, s, j, i);
      } else if j < h {
        k := j + 1;
        OverwrittenFails(d, v, start, s, h, j, i);
      } else {
        k := |s|;
        SharedFails(d, v, start, s, h, j, i);
      }
    }
  }

  /** A committed transaction survives a crash at every block write of its installation if, and with distinct
      data only if, its home sectors come before the header sector in the list and no log block of a home
      sector is overwritten before the header is (or at all, if the header is not in the list). */
  lemma RestartExact(d: Disk, v: Disk, start: nat, s: seq<nat>, h: nat)
    requires Lists(d, start, s) && Cached(d, v, start, s) && HeaderAt(start, s, h)
    requires h < |s| ==> LandsEmpty(d, v, start, s, h)
    ensures Ordered(d, v, start, s, h) ==>
              forall k :: 0 <= k <= |s| ==> Survives(d, InstallDisk(d, v, start, s, k), start, s)
    ensures Different(d, start, s) && (h < |s| ==> Changes(d, start, s)) ==>
              ((forall k :: 0 <= k <= |s| ==> Survives(d, InstallDisk(d, v, start, s, k), start, s)) <==>
               Ordered(d, v, start, s, h))
  {
    if Ordered(d, v, start, s, h) {
      forall k | 0 <= k <= |s| ensures Survives(d, InstallDisk(d, v, start, s, k), start, s) {
        OrderedSurvives(d, v, start, s, h, k);
      }
    } else if Different(d, start, s) && (h < |s| ==> Changes(d, start, s)) {
      var k := DisorderedFails(d, v, start, s, h);
    }
  }

  // ---- any number of crashes ----

  /** What is logged for sectors of the log reads as an empty header, as the zeros of bzero do. */
  ghost predicate EmptyLogged(d: Disk, start: nat, s: seq<nat>)
    requires Listed(d, start, s)
  {
    forall r :: 0 <= r < |s| && s[r] >= start ==> Word(SlotData(d, start, r), 0) == 0
  }

  lemma EmptyLands(d: Disk, v: Disk, start: nat, s: seq<nat>, h: nat)
    requires Listed(d, start, s) && Cached(d, v, start, s) && HeaderAt(start, s, h) && h < |s| && EmptyLogged(d, start, s)
    ensures LandsEmpty(d, v, start, s, h)
  {
    var x := Traced(d, v, start, s, h, h);
  }

  lemma {:induction false} EmptyStays(d: Disk, v: Disk, start: nat, s: seq<nat>, k: nat)
    requires Listed(d, start, s) && Cached(d, v, start, s) && k <= |s| && EmptyLogged(d, start, s)
    ensures EmptyLogged(InstallDisk(d, v, start, s, k), start, s)
  {
    if k > 0 {
      EmptyStays(d, v, start, s, k - 1);
      var b, e := InstallDisk(d, v, start, s, k - 1), InstallDisk(d, v, start, s, k);
      var x := Traced(d, v, start, s, k - 1, k - 1);
      forall r | 0 <= r < |s| && s[r] >= start ensures Word(SlotData(e, start, r), 0) == 0 {
        assert s[k - 1] != start + 1 + r ==> SlotData(e, start, r) == SlotData(b, start, r);
      }
    }
  }

  /** A disk on the way of a recovery from e: part of the list installed, or all of it and the header cleared. */
  ghost predicate OnTheWay(e: Disk, f: Disk, start: nat) {
    && Readable(e, start)
    && ((exists k :: 0 <= k <= HeadN(e, start) && f == InstallSeq(e, start, HeadSectors(e, start), k))
        || f == Clear(Restarted(e, start), start))
  }

  /** Either nothing needed is lost and the header still lists s, or the header is empty and all is done. */
  ghost predicate Sound(d: Disk, e: Disk, start: nat, s: seq<nat>, h: nat) {
    || (&& |e| == |d| && Lists(d, start, s) && Lists(e, start, s) && Ordered(e, e, start, s, h)
        && (h < |s| ==> EmptyLogged(e, start, s))
        && (forall i :: 0 <= i < |s| && s[i] < start ==> SlotData(e, start, i) == SlotData(d, start, i))
        && (forall c :: 0 <= c < start && c !in s ==> e[c] == d[c]))
    || (Readable(e, start) && HeadN(e, start) == 0 && Correct(d, e, start, s))
  }

  lemma SoundAfterCommit(d: Disk, v: Disk, start: nat, s: seq<nat>, h: nat, k: nat)
    requires Lists(d, start, s) && Cached(d, v, start, s) && HeaderAt(start, s, h) && k <= |s|
    requires Ordered(d, v, start, s, h) && (h < |s| ==> EmptyLogged(d, start, s))
    ensures Sound(d, InstallDisk(d, v, start, s, k), start, s, h)
  {
    HeaderDuring(d, v, start, s, h, k);
    if k <= h {
      KeptByCrash(d, v, start, s, h, k);
      if h < |s| {
        EmptyStays(d, v, start, s, k);
      }
    } else {
      EmptyLands(d, v, start, s, h);
      Installed(d, v, start, s, k);
    }
  }

  lemma ClearedCorrect(d: Disk, e: Disk, start: nat, s: seq<nat>)
    requires Correct(d, e, start, s)
    ensures Correct(d, Clear(e, start), start, s) && Readable(Clear(e, start), start) && HeadN(Clear(e, start), start) == 0
  {
    assert HeadSectors(Clear(e, start), start) == [];
  }

  lemma SoundStep(d: Disk, e: Disk, f: Disk, start: nat, s: seq<nat>, h: nat)
    requires Sound(d, e, start, s, h) && HeaderAt(start, s, h) && OnTheWay(e, f, start)
    ensures Sound(d, f, start, s, h)
  {
    if HeadN(e, start) == 0 && Correct(d, e, start, s) {
      assert HeadSectors(e, start) == [];
      ClearedCorrect(d, e, start, s);
    } else {
      DiskIsCached(e, start, s);
      if k :| 0 <= k <= HeadN(e, start) && f == InstallSeq(e, start, HeadSectors(e, start), k) {
        InstallsSeq(e, start, s, k);
        SoundAfterCommit(e, e, start, s, h, k);
        SoundFrom(d, e, f, start, s, h);
      } else {
        Installed(e, e, start, s, |s|);
        InstallsSeq(e, start, s, |s|);
        CorrectFrom(d, e, Restarted(e, start), start, s);
        ClearedCorrect(d, Restarted(e, start), start, s);
      }
    }
  }

  lemma SoundFrom(d: Disk, e: Disk, f: Disk, start: nat, s: seq<nat>, h: nat)
    requires Sound(e, f, start, s, h) && |e| == |d| && Lists(d, start, s)
    requires forall i :: 0 <= i < |s| && s[i] < start ==> SlotData(e, start, i) == SlotData(d, start, i)
    requires forall c :: 0 <= c < start && c !in s ==> e[c] == d[c]
    ensures Sound(d, f, start, s, h)
  {
    if Readable(f, start) && HeadN(f, start) == 0 && Correct(e, f, start, s) {
      CorrectFrom(d, e, f, start, s);
    }
  }

  lemma SoundSurvives(d: Disk, e: Disk, start: nat, s: seq<nat>, h: nat)
    requires Sound(d, e, start, s, h) && HeaderAt(start, s, h)
    ensures Survives(d, e, start, s)
  {
    if HeadN(e, start) == 0 && Correct(d, e, start, s) {
      assert HeadSectors(e, start) == [];
    } else {
      DiskIsCached(e, start, s);
      Installed(e, e, start, s, |s|);
      InstallsSeq(e, start, s, |s|);
      CorrectFrom(d, e, Restarted(e, start), start, s);
    }
  }

  /** A crash in commit_trans and any number of crashes after it, each in the recovery from the one before:
      under the condition of RestartExact the next recovery that completes puts everything right. */
  lemma {:induction false} ManyCrashes(d: Disk, v: Disk, start: nat, s: seq<nat>, h: nat, k: nat, es: seq<Disk>)
    requires Lists(d, start, s) && Cached(d, v, start, s) && HeaderAt(start, s, h) && k <= |s|
    requires Ordered(d, v, start, s, h) && (h < |s| ==> EmptyLogged(d, start, s))
    requires |es| > 0 && es[0] == InstallDisk(d, v, start, s, k)
    requires forall n :: 0 <= n < |es| - 1 ==> OnTheWay(es[n], es[n + 1], start)
    ensures Sound(d, es[|es| - 1], start, s, h) && Survives(d, es[|es| - 1], start, s)
  {
    var n := |es| - 1;
    if n == 0 {
      SoundAfterCommit(d, v, start, s, h, k);
    } else {
      ManyCrashes(d, v, start, s, h, k, es[..n]);
      assert OnTheWay(es[n - 1], es[n - 1 + 1], start);
      SoundStep(d, es[n - 1], es[n], start, s, h);
    }
    SoundSurvives(d, es[n], start, s, h);
  }

  // ---- the next transaction ----

  /** A file's block inside the log, after a later transaction of home sectors: it is as it was if and only if the
      transaction writes too few sectors to reach it, or happens to log the same bytes there. */
  lemma ReusedExactly(d: Disk, e: Disk, start: nat, ws: seq<Write>, c: nat)
    requires LogLeft(d, e, start, ws) && start < c < |d|
    ensures e[c] == d[c] <==> |Sectors(ws)| < c - start || Apply(Home(d, start), ws)[Sectors(ws)[c - start - 1]] == d[c]
  {
    hide Sectors, Apply;
    if c - start <= |Sectors(ws)| {
      var i := c - start - 1;
      assert e[start + 1 + i] == Apply(Home(d, start), ws)[Sectors(ws)[i]];
    }
  }

  // ---- disks on which it goes wrong ----

  function Filled(x: Byte): Block {
    seq(BSIZE, i => x)
  }

  /** A header with two sectors. */
  function Header(a: nat, b: nat): (r: Block)
    requires a < 256 && b < 256
    ensures Word(r, 0) == 2 && Word(r, 1) == a && Word(r, 2) == b
  {
    WordSetWord(ZeroBlock(), 0, 2, 0);
    var x := SetWord(ZeroBlock(), 0, 2);
    WordSetWord(x, 1, a, 0);
    WordSetWord(x, 1, a, 1);
    var y := SetWord(x, 1, a);
    WordSetWord(y, 2, b, 0);
    WordSetWord(y, 2, b, 1);
    WordSetWord(y, 2, b, 2);
    SetWord(y, 2, b)
  }

  /** Home blocks 0 and 1, then the log: a header that lists a and 0, the data x for a and 9 for home block 0. */
  function TwoLogged(a: nat, x: Block): Disk
    requires a < 6
  {
    [Filled(0), Filled(0), Header(a, 0), x, Filled(9), Filled(0)]
  }

  lemma TwoListed(a: nat, x: Block)
    requires 0 < a < 6
    ensures Lists(TwoLogged(a, x), 2, [a, 0])
  {
    var d := TwoLogged(a, x);
    assert HeadSectors(d, 2) == [a, 0];
  }

  lemma FilledApart(x: Byte, y: Byte)
    requires x != y
    ensures Filled(x) != Filled(y)
  {
    assert Filled(x)[0] != Filled(y)[0];
  }

  /** The data 7 for the second log block: installing leaves 7 in home block 0, which was to hold 9. */
  lemma OverlapCorrupts()
    ensures Lists(TwoLogged(4, Filled(7)), 2, [4, 0]) && Hits(2, [4, 0], 0, 1)
    ensures InstallSeq(TwoLogged(4, Filled(7)), 2, [4, 0], 2)[0] == Filled(7) != Filled(9)
  {
    var d, s := TwoLogged(4, Filled(7)), [4, 0];
    TwoListed(4, Filled(7));
    assert InstallSeq(d, 2, s, 0) == d;
    assert InstallSeq(d, 2, s, 1) == d[4 := Filled(7)];
    FilledApart(7, 9);
  }

  /** The zeros of bzero for the header block, the first log block balloc hands out: after a crash behind the
      first block write recovery finds no transaction, and home block 0 keeps its old bytes for good. */
  lemma HeaderForgotten()
    ensures var d, s := TwoLogged(2, Filled(0)), [2, 0];
            && Lists(d, 2, s) && (forall j, i :: !Hits(2, s, j, i))
            && var e := InstallSeq(d, 2, s, 1);
               Readable(e, 2) && Restarted(e, 2) == e && e[0] == Filled(0) != Filled(9) && !Correct(d, e, 2, s)
  {
    var d, s := TwoLogged(2, Filled(0)), [2, 0];
    TwoListed(2, Filled(0));
    assert InstallSeq(d, 2, s, 0) == d;
    var e := InstallSeq(d, 2, s, 1);
    assert e == d[2 := Filled(0)];
    assert Word(e[2], 0) == 0;
    assert HeadSectors(e, 2) == [];
    FilledApart(0, 9);
    assert SlotData(d, 2, 1) == Filled(9) && s[1] == 0;
  }

  /** A file's bytes for the header block that read as a list: recovery follows it and overwrites home block 1,
      which no transaction has written. */
  lemma HeaderObeyed()
    ensures var d, s := TwoLogged(2, Header(1, 0)), [2, 0];
            && Lists(d, 2, s)
            && var e := InstallSeq(d, 2, s, 1);
               Lists(e, 2, [1, 0]) && Restarted(e, 2)[1] == Header(1, 0) != d[1] && 1 !in s
  {
    var x := Header(1, 0);
    var d, s, z := TwoLogged(2, x), [2, 0], [1, 0];
    TwoListed(2, x);
    assert InstallSeq(d, 2, s, 0) == d;
    var e := InstallSeq(d, 2, s, 1);
    assert e == d[2 := x];
    assert HeadSectors(e, 2) == z;
    assert InstallSeq(e, 2, z, 0) == e;
    assert InstallSeq(e, 2, z, 1) == e[1 := x];
    assert Word(x, 0) != Word(Filled(0), 0);
  }
}
