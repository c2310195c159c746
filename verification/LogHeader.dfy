/**
 A file whose block is the header of the log. Its bytes are logged like any others, and once installed they
 are the list the next recovery follows.
 */
module LogHeader {
  import opened Blocks
  import opened RedoLog
  import opened LogOverlap

  /** The header is the one sector of the list that lies in the log. */
  ghost predicate OneHeader(start: nat, s: seq<nat>, h: nat) {
    h < |s| && s[h] == start && forall i :: 0 <= i < |s| && i != h ==> s[i] < start
  }

  /** What a home block has to hold in the end: what was logged for it, or else what it held. */
  ghost predicate Due(d: Disk, start: nat, s: seq<nat>, c: nat, x: Block)
    requires Listed(d, start, s) && c < |d|
  {
    (forall i :: 0 <= i < |s| && s[i] == c ==> x == SlotData(d, start, i)) && (c !in s ==> x == d[c])
  }

  /** The file's bytes, read as a list. */
  ghost predicate ReadsAs(d: Disk, start: nat, h: nat, z: seq<nat>) {
    start + 1 + h < |d| && Lists(d[start := SlotData(d, start, h)], start, z) && InHome(z, start)
  }

  /** The list names only sectors whose log block holds what they are due, and all that are still to be written
      when the header is. */
  ghost predicate Agrees(d: Disk, start: nat, s: seq<nat>, h: nat, z: seq<nat>)
    requires Listed(d, start, s) && ReadsAs(d, start, h, z)
  {
    && (forall j :: 0 <= j < |z| ==> Due(d, start, s, z[j], SlotData(d, start, j)))
    && (forall i :: h < i < |s| && s[i] !in z ==> d[s[i]] == SlotData(d, start, i))
  }

  /** No buffer serves a log block and a file's block at once. */
  lemma SlotsUnshared(d: Disk, v: Disk, start: nat, s: seq<nat>, h: nat)
    requires Listed(d, start, s) && Cached(d, v, start, s) && OneHeader(start, s, h)
    ensures |v| == |d| && forall c :: 0 <= c < |s| ==> SlotData(v, start, c) == SlotData(d, start, c)
    ensures forall i :: 0 <= i < |s| ==> s[i] <= start
  {
  }

  /** The disk a crash leaves: blocks written so far hold their data, all others are as they were. */
  lemma CrashLeaves(d: Disk, v: Disk, start: nat, s: seq<nat>, h: nat, k: nat)
    requires Listed(d, start, s) && Cached(d, v, start, s) && OneHeader(start, s, h) && k <= |s|
    ensures var e := InstallDisk(d, v, start, s, k);
            && (forall i :: 0 <= i < k ==> e[s[i]] == SlotData(d, start, i))
            && (forall c :: 0 <= c < |d| && c !in s[..k] ==> e[c] == d[c])
  {
    hide Cached, InstallDisk, InstallSeq;
    assert |v| == |d| by { SlotsUnshared(d, v, start, s, h); }
    var e := InstallDisk(d, v, start, s, k);
    forall i | 0 <= i < k ensures e[s[i]] == SlotData(d, start, i) {
      SlotsUnshared(d, v, start, s, h);
      KeptSince(d, v, start, s, i, k);
      KeptUntil(v, start, s, i, start + 1 + i);
    }
    forall c | 0 <= c < |d| && c !in s[..k] ensures e[c] == d[c] {
      assert forall j :: 0 <= j < k ==> s[..k][j] == s[j];
      DiskKept(d, v, start, s, k, c);
    }
  }

  /** What recovery makes of a list of home sectors. */
  lemma RestartWrites(e: Disk, start: nat, z: seq<nat>)
    requires Lists(e, start, z) && InHome(z, start)
    ensures forall j :: 0 <= j < |z| ==> Restarted(e, start)[z[j]] == SlotData(e, start, j)
    ensures forall c :: 0 <= c < |e| && c !in z ==> Restarted(e, start)[c] == e[c]
  {
    hide InstallDisk, InstallSeq;
    forall j | 0 <= j < |z| ensures Restarted(e, start)[z[j]] == SlotData(e, start, j) {
      KeptSince(e, e, start, z, j, |z|);
      KeptUntil(e, start, z, j, start + 1 + j);
    }
    forall c | 0 <= c < |e| && c !in z ensures Restarted(e, start)[c] == e[c] {
      KeptUntil(e, start, z, |z|, c);
    }
  }

  /** Before the header's turn a crash does no harm. */
  lemma EarlyCrash(d: Disk, v: Disk, start: nat, s: seq<nat>, h: nat, k: nat)
    requires Lists(d, start, s) && Cached(d, v, start, s) && OneHeader(start, s, h) && k <= h
    ensures Survives(d, InstallDisk(d, v, start, s, k), start, s)
  {
    hide Cached, InstallDisk, InstallSeq;
    SlotsUnshared(d, v, start, s, h);
    CrashLeaves(d, v, start, s, h, k);
    HeaderDuring(d, v, start, s, h, k);
    var e := InstallDisk(d, v, start, s, k);
    ListsFacts(e, start, s);
    var f := Restarted(e, start);
    forall i | 0 <= i < |s| && s[i] < start ensures f[s[i]] == SlotData(d, start, i) {
      KeptSince(e, e, start, s, i, |s|);
      KeptUntil(e, start, s, i, start + 1 + i);
      assert start + 1 + i !in s[..k];
    }
    forall c | 0 <= c < start && c !in s ensures f[c] == d[c] {
      KeptUntil(e, start, s, |s|, c);
    }
  }

  /** After it, recovery follows the file's bytes. */
  lemma LateCrash(d: Disk, v: Disk, start: nat, s: seq<nat>, h: nat, z: seq<nat>, k: nat)
    requires Lists(d, start, s) && Cached(d, v, start, s) && OneHeader(start, s, h) && ReadsAs(d, start, h, z) && h < k <= |s|
    ensures Agrees(d, start, s, h, z) ==> Survives(d, InstallDisk(d, v, start, s, k), start, s)
    ensures k == h + 1 && Survives(d, InstallDisk(d, v, start, s, k), start, s) ==> Agrees(d, start, s, h, z)
  {
    hide Cached, InstallDisk, InstallSeq;
    SlotsUnshared(d, v, start, s, h);
    CrashLeaves(d, v, start, s, h, k);
    var e := InstallDisk(d, v, start, s, k);
    ListKept(d, e, start, s, h, z, k);
    RestartWrites(e, start, z);
    FollowsList(d, e, Restarted(e, start), start, s, h, z, k);
  }

  lemma ListKept(d: Disk, e: Disk, start: nat, s: seq<nat>, h: nat, z: seq<nat>, k: nat)
    requires Listed(d, start, s) && OneHeader(start, s, h) && ReadsAs(d, start, h, z) && h < k <= |s| && |e| == |d|
    requires forall i :: 0 <= i < k ==> e[s[i]] == SlotData(d, start, i)
    ensures Lists(e, start, z)
  {
    assert e[s[h]] == SlotData(d, start, h);
    assert HeadSectors(e, start) == HeadSectors(d[start := SlotData(d, start, h)], start);
  }

  lemma FollowsList(d: Disk, e: Disk, f: Disk, start: nat, s: seq<nat>, h: nat, z: seq<nat>, k: nat)
    requires Listed(d, start, s) && OneHeader(start, s, h) && ReadsAs(d, start, h, z) && h < k <= |s| && |f| == |e| == |d|
    requires forall i :: 0 <= i < k ==> e[s[i]] == SlotData(d, start, i)
    requires forall c :: 0 <= c < |d| && c !in s[..k] ==> e[c] == d[c]
    requires start + |z| < |d| && InHome(z, start) && forall j :: 0 <= j < |z| ==> f[z[j]] == SlotData(e, start, j)
    requires forall c :: 0 <= c < |e| && c !in z ==> f[c] == e[c]
    ensures Agrees(d, start, s, h, z) ==> Correct(d, f, start, s)
    ensures k == h + 1 && Correct(d, f, start, s) ==> Agrees(d, start, s, h, z)
  {
    hide ReadsAs, Lists;
    forall j | 0 <= j < |z| ensures f[z[j]] == SlotData(d, start, j) {
      assert f[z[j]] == SlotData(e, start, j);
      assert start + 1 + j !in s[..k];
    }
    if Agrees(d, start, s, h, z) {
      AgreesCorrect(d, e, f, start, s, h, z, k);
    }
    if k == h + 1 && Correct(d, f, start, s) {
      CorrectAgrees(d, e, f, start, s, h, z);
    }
  }

  lemma AgreesCorrect(d: Disk, e: Disk, f: Disk, start: nat, s: seq<nat>, h: nat, z: seq<nat>, k: nat)
    requires Listed(d, start, s) && OneHeader(start, s, h) && ReadsAs(d, start, h, z) && h < k <= |s| && |f| == |e| == |d|
    requires forall i :: 0 <= i < k ==> e[s[i]] == SlotData(d, start, i)
    requires forall c :: 0 <= c < |d| && c !in s[..k] ==> e[c] == d[c]
    requires start + |z| < |d| && InHome(z, start) && forall j :: 0 <= j < |z| ==> f[z[j]] == SlotData(d, start, j)
    requires forall c :: 0 <= c < |e| && c !in z ==> f[c] == e[c]
    requires Agrees(d, start, s, h, z)
    ensures Correct(d, f, start, s)
  {
    hide ReadsAs;
    forall i | 0 <= i < |s| && s[i] < start ensures f[s[i]] == SlotData(d, start, i) {
      if s[i] in z {
        var j :| 0 <= j < |z| && z[j] == s[i];
        assert Due(d, start, s, z[j], SlotData(d, start, j));
      } else if i >= k {
        assert s[i] !in s[..k];
      }
    }
    forall c | 0 <= c < start && c !in s ensures f[c] == d[c] {
      if c in z {
        var j :| 0 <= j < |z| && z[j] == c;
        assert Due(d, start, s, z[j], SlotData(d, start, j));
      } else {
        assert c !in s[..k];
      }
    }
  }

  lemma CorrectAgrees(d: Disk, e: Disk, f: Disk, start: nat, s: seq<nat>, h: nat, z: seq<nat>)
    requires Listed(d, start, s) && OneHeader(start, s, h) && ReadsAs(d, start, h, z) && |f| == |e| == |d|
    requires forall c :: 0 <= c < |d| && c !in s[..h + 1] ==> e[c] == d[c]
    requires start + |z| < |d| && InHome(z, start) && forall j :: 0 <= j < |z| ==> f[z[j]] == SlotData(d, start, j)
    requires forall c :: 0 <= c < |e| && c !in z ==> f[c] == e[c]
    requires Correct(d, f, start, s)
    ensures Agrees(d, start, s, h, z)
  {
    hide ReadsAs;
    forall i | h < i < |s| && s[i] !in z ensures d[s[i]] == SlotData(d, start, i) {
      assert s[i] !in s[..h + 1];
    }
  }

  /** A file's bytes logged for the header: the transaction survives a crash at every block write if and only if
      the list they read as agrees with it. */
  lemma ObeyedExact(d: Disk, v: Disk, start: nat, s: seq<nat>, h: nat, z: seq<nat>)
    requires Lists(d, start, s) && Cached(d, v, start, s) && OneHeader(start, s, h) && ReadsAs(d, start, h, z)
    ensures (forall k :: 0 <= k <= |s| ==> Survives(d, InstallDisk(d, v, start, s, k), start, s)) <==> Agrees(d, start, s, h, z)
  {
    hide Survives, Agrees, ReadsAs, Cached, Lists, InstallDisk;
    ListsFacts(d, start, s);
    SlotsUnshared(d, v, start, s, h);
    if Agrees(d, start, s, h, z) {
      forall k | 0 <= k <= |s| ensures Survives(d, InstallDisk(d, v, start, s, k), start, s) {
        if k <= h {
          EarlyCrash(d, v, start, s, h, k);
        } else {
          LateCrash(d, v, start, s, h, z, k);
        }
      }
    } else {
      var next := h + 1;
      LateCrash(d, v, start, s, h, z, next);
      assert !Survives(d, InstallDisk(d, v, start, s, next), start, s);
    }
  }
}
