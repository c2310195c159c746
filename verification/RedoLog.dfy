/**
 log.c: the redo log. Each bwrite is one atomic step and leaves a disk state in the ghost `history`;
 a crash may stop the machine at any of those states, also while it recovers from an earlier crash.
 */
module RedoLog {
  import opened Basics
  import opened Blocks

  const LOGSIZE := 10

  type Disk = seq<Block>

  // ---- the on-disk log ----

  /** The log occupies blocks start .. start + size - 1: one header, then size - 1 data blocks. */
  ghost predicate Layout(d: Disk, start: nat, size: nat) {
    1 <= size && start + size <= |d| <= UINT_LIMIT
  }

  function HeadN(d: Disk, start: nat): nat
    requires start < |d|
  {
    Word(d[start], 0)
  }

  /** The home sectors listed in the header. */
  ghost function HeadSectors(d: Disk, start: nat): (s: seq<nat>)
    requires start < |d| && HeadN(d, start) <= LOGSIZE
    ensures |s| == HeadN(d, start)
  {
    seq(HeadN(d, start), i requires 0 <= i < LOGSIZE => Word(d[start], 1 + i))
  }

  /** What a header must look like for recovery to make sense of it. */
  ghost predicate HeaderOk(d: Disk, start: nat, size: nat) {
    && Layout(d, start, size)
    && HeadN(d, start) <= LOGSIZE && HeadN(d, start) < size
    && InHome(HeadSectors(d, start), start)
  }

  ghost predicate InHome(s: seq<nat>, start: nat) {
    forall i :: 0 <= i < |s| ==> s[i] < start
  }

  function Home(d: Disk, start: nat): Disk
    requires start <= |d|
  {
    d[..start]
  }

  /** The first k logged blocks copied to their home sectors. */
  ghost function Install(d: Disk, start: nat, s: seq<nat>, k: nat): (r: Disk)
    requires k <= |s| && InHome(s, start) && start + |s| < |d|
    ensures |r| == |d|
    ensures forall c :: start <= c < |d| ==> r[c] == d[c]
  {
    if k == 0 then d else Install(d, start, s, k - 1)[s[k - 1] := d[start + k]]
  }

  function Clear(d: Disk, start: nat): (r: Disk)
    requires start < |d|
    ensures |r| == |d| && HeadN(r, start) == 0
  {
    d[start := SetWord(d[start], 0, 0)]
  }

  /** A completed recovery. */
  ghost function Recovered(d: Disk, start: nat, size: nat): (r: Disk)
    requires HeaderOk(d, start, size)
    ensures |r| == |d|
  {
    Clear(Install(d, start, HeadSectors(d, start), HeadN(d, start)), start)
  }

  /** After a crash in disk state d, recovery leaves exactly these home blocks. */
  ghost predicate RecoversTo(d: Disk, start: nat, size: nat, home: Disk) {
    HeaderOk(d, start, size) && Home(Recovered(d, start, size), start) == home
  }

  // ---- installing twice is installing once ----

  /** A sector that is not among the first k is left alone. */
  lemma {:induction false} InstallMisses(d: Disk, start: nat, s: seq<nat>, k: nat, c: nat)
    requires k <= |s| && InHome(s, start) && start + |s| < |d| && c < |d|
    requires forall i :: 0 <= i < k ==> s[i] != c
    ensures Install(d, start, s, k)[c] == d[c]
  {
    if k > 0 { InstallMisses(d, start, s, k - 1, c); }
  }

  /** A sector that is among the first j does not depend on what was there before. */
  lemma {:induction false} InstallHits(d: Disk, e: Disk, start: nat, s: seq<nat>, j: nat, c: nat)
    requires j <= |s| && InHome(s, start) && start + |s| < |d| == |e| && c < |d|
    requires forall b :: start <= b < |d| ==> d[b] == e[b]
    requires exists i :: 0 <= i < j && s[i] == c
    ensures Install(d, start, s, j)[c] == Install(e, start, s, j)[c]
  {
    if s[j - 1] != c { InstallHits(d, e, start, s, j - 1, c); }
  }

  lemma InstallAgain(d: Disk, start: nat, s: seq<nat>, k: nat)
    requires k <= |s| && InHome(s, start) && start + |s| < |d|
    ensures Install(Install(d, start, s, k), start, s, |s|) == Install(d, start, s, |s|)
  {
    var e := Install(d, start, s, k);
    forall c | 0 <= c < |d| ensures Install(e, start, s, |s|)[c] == Install(d, start, s, |s|)[c] {
      if exists i :: 0 <= i < |s| && s[i] == c {
        InstallHits(d, e, start, s, |s|, c);
      } else {
        InstallMisses(d, start, s, |s|, c);
        InstallMisses(e, start, s, |s|, c);
        InstallMisses(d, start, s, k, c);
      }
    }
  }

  /** Some of the logged blocks have reached their home sectors. */
  ghost predicate Partial(d: Disk, e: Disk, start: nat, s: seq<nat>) {
    InHome(s, start) && start + |s| < |d| && exists k :: 0 <= k <= |s| && e == Install(d, start, s, k)
  }

  /** The disk states a recovery from d passes through. */
  ghost predicate RecoveryState(d: Disk, e: Disk, start: nat, size: nat) {
    && HeaderOk(d, start, size)
    && (Partial(d, e, start, HeadSectors(d, start)) || e == Recovered(d, start, size))
  }

  lemma ClearedHome(d: Disk, start: nat, size: nat)
    requires Layout(d, start, size) && HeadN(d, start) == 0
    ensures RecoversTo(d, start, size, Home(d, start))
  {
  }

  /** A crash in the middle of recovery costs nothing. */
  lemma RecoveryRestarts(d: Disk, e: Disk, start: nat, size: nat)
    requires RecoveryState(d, e, start, size)
    ensures RecoversTo(e, start, size, Home(Recovered(d, start, size), start))
  {
    var s := HeadSectors(d, start);
    if e == Recovered(d, start, size) {
      ClearedHome(e, start, size);
    } else {
      var k :| 0 <= k <= |s| && e == Install(d, start, s, k);
      assert HeadSectors(e, start) == s;
      InstallAgain(d, start, s, k);
    }
  }

  /** Any number of crashes, each during the recovery from the one before: the home blocks a
      recovery completes with are those the first crash had already settled. */
  lemma {:induction false} RepeatedCrashes(ds: seq<Disk>, start: nat, size: nat, home: Disk)
    requires |ds| > 0 && RecoversTo(ds[0], start, size, home)
    requires forall i :: 0 <= i < |ds| - 1 ==> RecoveryState(ds[i], ds[i + 1], start, size)
    ensures RecoversTo(ds[|ds| - 1], start, size, home)
  {
    if |ds| > 1 {
      var n := |ds| - 1;
      RepeatedCrashes(ds[..n], start, size, home);
      assert RecoveryState(ds[n - 1], ds[n - 1 + 1], start, size);
      RecoveryRestarts(ds[n - 1], ds[n], start, size);
    }
  }

  // ---- what a transaction means ----

  datatype Write = Write(sector: nat, data: Block)

  /** The home blocks after the writes of a transaction, in order. */
  function Apply(home: Disk, ws: seq<Write>): (r: Disk)
    ensures |r| == |home|
  {
    if ws == [] then home
    else
      var before := Apply(home, ws[..|ws| - 1]);
      var w := ws[|ws| - 1];
      if w.sector < |home| then before[w.sector := w.data] else before
  }

  /** The list of sectors with b in it. */
  function WithSector(s: seq<nat>, b: nat): seq<nat> {
    if b in s then s else s + [b]
  }

  /** The sectors of some writes, each once, in the order of their first write. */
  function Sectors(ws: seq<Write>): seq<nat> {
    if ws == [] then [] else WithSector(Sectors(ws[..|ws| - 1]), ws[|ws| - 1].sector)
  }

  /** After these writes the log has room for one more sector. */
  ghost predicate Fits(ws: seq<Write>, size: nat) {
    |Sectors(ws)| < LOGSIZE && |Sectors(ws)| < size - 1
  }

  /** What a transaction leaves in the log: the last data of its k-th sector in log block k, and the blocks
      behind those of its sectors as they were. */
  ghost predicate LogLeft(d: Disk, e: Disk, start: nat, ws: seq<Write>) {
    var s := Sectors(ws);
    && |e| == |d| && start + |s| < |d| && InHome(s, start)
    && (forall i :: 0 <= i < |s| ==> e[start + 1 + i] == Apply(Home(d, start), ws)[s[i]])
    && (forall c :: start + |s| < c < |d| ==> e[c] == d[c])
  }

  /** The log holds, for each home sector written so far, the last data written to it. */
  ghost predicate Logged(d: Disk, start: nat, s: seq<nat>, ws: seq<Write>) {
    && InHome(s, start) && start + |s| < |d|
    && (forall i, j :: 0 <= i < j < |s| ==> s[i] != s[j])
    && (forall i :: 0 <= i < |s| ==> Apply(Home(d, start), ws)[s[i]] == d[start + 1 + i])
    && (forall c :: 0 <= c < start && c !in s ==> Apply(Home(d, start), ws)[c] == d[c])
  }

  /** With distinct sectors, position i of the log ends up at its home. */
  lemma {:induction false} InstallDistinct(d: Disk, start: nat, s: seq<nat>, k: nat, i: nat)
    requires i < k <= |s| && InHome(s, start) && start + |s| < |d|
    requires forall a, b :: 0 <= a < b < |s| ==> s[a] != s[b]
    ensures Install(d, start, s, k)[s[i]] == d[start + 1 + i]
  {
    if i < k - 1 { InstallDistinct(d, start, s, k - 1, i); }
  }

  lemma InstallApplies(d: Disk, start: nat, s: seq<nat>, ws: seq<Write>)
    requires Logged(d, start, s, ws)
    ensures Home(Install(d, start, s, |s|), start) == Apply(Home(d, start), ws)
  {
    forall c | 0 <= c < start ensures Install(d, start, s, |s|)[c] == Apply(Home(d, start), ws)[c] {
      if c in s {
        var i :| 0 <= i < |s| && s[i] == c;
        InstallDistinct(d, start, s, |s|, i);
      } else {
        InstallMisses(d, start, s, |s|, c);
      }
    }
  }

  lemma ApplyOne(home: Disk, ws: seq<Write>, w: Write)
    requires w.sector < |home|
    ensures Apply(home, ws + [w]) == Apply(home, ws)[w.sector := w.data]
  {
    assert (ws + [w])[..|ws|] == ws;
  }

  /** One more write to a sector the log already holds at position i. */
  lemma LoggedAbsorb(d: Disk, start: nat, s: seq<nat>, ws: seq<Write>, i: nat, w: Write)
    requires Logged(d, start, s, ws) && i < |s| && s[i] == w.sector
    ensures Logged(d[start + 1 + i := w.data], start, s, ws + [w])
  {
    var e := d[start + 1 + i := w.data];
    assert Home(e, start) == Home(d, start);
    ApplyOne(Home(d, start), ws, w);
    forall j | 0 <= j < |s| ensures Apply(Home(e, start), ws + [w])[s[j]] == e[start + 1 + j] {
      assert Apply(Home(d, start), ws)[s[j]] == d[start + 1 + j];
    }
  }

  /** One more write to a sector new to the log. */
  lemma LoggedAppend(d: Disk, start: nat, s: seq<nat>, ws: seq<Write>, w: Write)
    requires Logged(d, start, s, ws) && w.sector < start && w.sector !in s && start + 1 + |s| < |d|
    ensures Logged(d[start + 1 + |s| := w.data], start, s + [w.sector], ws + [w])
  {
    var e, t := d[start + 1 + |s| := w.data], s + [w.sector];
    assert Home(e, start) == Home(d, start);
    ApplyOne(Home(d, start), ws, w);
    forall j | 0 <= j < |t| ensures Apply(Home(e, start), ws + [w])[t[j]] == e[start + 1 + j] {
      if j < |s| {
        assert t[j] == s[j] && s[j] in s;
        assert Apply(Home(d, start), ws)[s[j]] == d[start + 1 + j];
      }
    }
    forall c | 0 <= c < start && c !in t ensures Apply(Home(e, start), ws + [w])[c] == e[c] {
      assert w.sector in t;
      assert c !in s;
    }
  }

  lemma LoggedInHome(d: Disk, start: nat, s: seq<nat>, ws: seq<Write>)
    requires Logged(d, start, s, ws)
    ensures InHome(s, start) && start + |s| < |d|
  {
  }

  lemma NothingLogged(d: Disk, start: nat, ws: seq<Write>)
    requires Logged(d, start, [], ws)
    ensures Apply(Home(d, start), ws) == Home(d, start)
  {
  }

  /** A transaction lists each sector it writes once. */
  lemma {:induction false} SectorsOnce(ws: seq<Write>)
    ensures forall i, j :: 0 <= i < j < |Sectors(ws)| ==> Sectors(ws)[i] != Sectors(ws)[j]
    ensures forall b :: b in Sectors(ws) <==> exists i :: 0 <= i < |ws| && ws[i].sector == b
  {
    if ws != [] {
      var n := |ws| - 1;
      SectorsOnce(ws[..n]);
      forall b ensures b in Sectors(ws) <==> exists i :: 0 <= i < |ws| && ws[i].sector == b {
        assert b in Sectors(ws[..n]) ==> exists i :: 0 <= i < n && ws[..n][i].sector == b;
        if i :| 0 <= i < n && ws[i].sector == b {
          assert ws[..n][i].sector == b;
        }
        assert b == ws[n].sector ==> b in Sectors(ws);
      }
    }
  }

  lemma NoSectors()
    ensures Sectors([]) == []
  {
  }

  lemma SectorsGrow(ws: seq<Write>, i: nat)
    requires i < |ws|
    ensures Sectors(ws[..i + 1]) == WithSector(Sectors(ws[..i]), ws[i].sector)
  {
    assert ws[..i + 1][..i] == ws[..i];
  }

  lemma LoggedIsLeft(d: Disk, e: Disk, start: nat, ws: seq<Write>)
    requires Logged(e, start, Sectors(ws), ws) && |e| == |d| && Home(e, start) == Home(d, start)
    requires forall c :: start + |Sectors(ws)| < c < |e| ==> e[c] == d[c]
    ensures LogLeft(d, e, start, ws)
  {
    hide Sectors, Apply;
  }

  lemma LeftStays(d: Disk, e: Disk, f: Disk, start: nat, ws: seq<Write>)
    requires LogLeft(d, e, start, ws) && |f| == |e| && forall c :: start < c < |e| ==> f[c] == e[c]
    ensures LogLeft(d, f, start, ws)
  {
    hide Sectors, Apply;
  }

  lemma NothingPending(d: Disk, start: nat)
    requires start < |d|
    ensures Logged(d, start, [], [])
  {
  }

  lemma AllStates(c: Disk, e: Disk, start: nat, size: nat)
    requires HeaderOk(c, start, size)
    requires Partial(c, e, start, HeadSectors(c, start)) || e == Recovered(c, start, size)
    ensures RecoveryState(c, e, start, size)
  {
  }

  /** Writing the header is the commit: recovery from here on applies the whole transaction. */
  lemma HeaderCommits(d: Disk, c: Disk, start: nat, size: nat, s: seq<nat>, ws: seq<Write>)
    requires Layout(d, start, size) && Logged(d, start, s, ws) && |s| <= LOGSIZE && |s| < size
    requires |c| == |d| && forall b :: 0 <= b < |d| && b != start ==> c[b] == d[b]
    requires HeadN(c, start) == |s| && HeadSectors(c, start) == s
    ensures HeaderOk(c, start, size) && Partial(c, c, start, s)
    ensures Home(Recovered(c, start, size), start) == Apply(Home(d, start), ws)
  {
    assert Home(c, start) == Home(d, start);
    assert Logged(c, start, s, ws);
    InstallApplies(c, start, s, ws);
    assert Install(c, start, s, 0) == c;
  }

  class Log {
    const start: nat
    const size: nat
    var disk: Disk
    var busy: bool
    /** In-memory header. */
    var n: nat
    var sector: seq<nat>
    /** The disk after each bwrite so far. */
    ghost var history: seq<Disk>
    /** The writes of the transaction in progress. */
    ghost var pending: seq<Write>

    /** Between operations: nothing committed is waiting in the log. */
    ghost predicate Valid()
      reads this
    {
      && Layout(disk, start, size) && HeadN(disk, start) == 0
      && |sector| == LOGSIZE && n <= LOGSIZE && n < size
      && Logged(disk, start, sector[..n], pending)
    }

    /** The states written since the history was h. */
    ghost predicate Since(h: seq<Disk>, home: Disk)
      reads this
    {
      && h <= history
      && forall j :: |h| <= j < |history| ==> RecoversTo(history[j], start, size, home)
    }

    /** initlog on the disk a crash left: the log is the last nlog blocks of the file system. */
    constructor (disk: Disk, fsSize: nat, nlog: nat)
      requires nlog <= fsSize && HeaderOk(disk, fsSize - nlog, nlog)
      ensures start == fsSize - nlog && size == nlog && Valid() && pending == [] && !busy && n == 0
      ensures this.disk == Recovered(disk, start, size)
      ensures forall j :: 0 <= j < |history| ==> RecoveryState(disk, history[j], start, size)
    {
      start, size := fsSize - nlog, nlog;
      this.disk, busy, n, sector := disk, false, 0, seq(LOGSIZE, i => 0);
      history, pending := [], [];
      new;
      Recover();
    }

    /** bwrite: one block reaches the disk. */
    method Bwrite(b: nat, data: Block)
      requires b < |disk|
      modifies this`disk, this`history
      ensures disk == old(disk)[b := data]
      ensures history == old(history) + [disk]
    {
      disk := disk[b := data];
      history := history + [disk];
    }

    /** write_head: the real commit when n > 0, the end of the transaction when n == 0. */
    method WriteHead()
      requires Layout(disk, start, size) && |sector| == LOGSIZE && n <= LOGSIZE && InHome(sector[..n], start)
      modifies this`disk, this`history
      ensures |disk| == |old(disk)| && forall c :: 0 <= c < |disk| && c != start ==> disk[c] == old(disk)[c]
      ensures HeadN(disk, start) == n && HeadSectors(disk, start) == sector[..n]
      ensures n == 0 ==> disk == Clear(old(disk), start)
      ensures history == old(history) + [disk]
    {
      var hb := SetWord(disk[start], 0, n);
      var i := 0;
      while i < n
        invariant 0 <= i <= n
        invariant Word(hb, 0) == n
        invariant forall k :: 0 <= k < i ==> Word(hb, 1 + k) == sector[k]
        invariant n == 0 ==> hb == SetWord(disk[start], 0, 0)
      {
        forall k | 0 <= k <= i + 1
          ensures Word(SetWord(hb, 1 + i, sector[i]), k) == if k == 1 + i then sector[i] else Word(hb, k)
        {
          WordSetWord(hb, 1 + i, sector[i], k);
        }
        hb := SetWord(hb, 1 + i, sector[i]);
        i := i + 1;
      }
      Bwrite(start, hb);
      assert HeadSectors(disk, start) == sector[..n];
    }

    /** install_trans: the n logged blocks go to their home sectors, one bwrite each. */
    method InstallTrans()
      requires Layout(disk, start, size) && |sector| == LOGSIZE && n <= LOGSIZE && n < size
      requires InHome(sector[..n], start)
      modifies this`disk, this`history
      ensures disk == Install(old(disk), start, sector[..n], n)
      ensures old(history) <= history
      ensures forall j :: |old(history)| <= j < |history| ==> Partial(old(disk), history[j], start, sector[..n])
    {
      ghost var s := sector[..n];
      var tail := 0;
      while tail < n
        invariant 0 <= tail <= n
        invariant disk == Install(old(disk), start, s, tail)
        invariant old(history) <= history
        invariant forall j :: |old(history)| <= j < |history| ==> Partial(old(disk), history[j], start, s)
      {
        Bwrite(sector[tail], disk[start + tail + 1]);
        tail := tail + 1;
      }
    }

    /** read_head: the header block into memory. */
    method ReadHead()
      requires HeaderOk(disk, start, size) && |sector| == LOGSIZE
      modifies this`n, this`sector
      ensures |sector| == LOGSIZE && n == HeadN(disk, start) && sector[..n] == HeadSectors(disk, start)
    {
      n := HeadN(disk, start);
      var i := 0;
      while i < n
        invariant 0 <= i <= n == HeadN(disk, start) && |sector| == LOGSIZE
        invariant forall k :: 0 <= k < i ==> sector[k] == Word(disk[start], 1 + k)
      {
        sector := sector[i := Word(disk[start], 1 + i)];
        i := i + 1;
      }
      assert sector[..n] == HeadSectors(disk, start);
    }

    /** recover_from_log, on whatever disk a crash has left. Every state it passes through is a state
        from which recovery gives the same home blocks. */
    method Recover()
      requires HeaderOk(disk, start, size) && |sector| == LOGSIZE
      modifies this
      ensures Valid() && pending == [] && busy == old(busy) && n == 0 && disk == Recovered(old(disk), start, size)
      ensures old(history) <= history
      ensures forall j :: |old(history)| <= j < |history| ==> RecoveryState(old(disk), history[j], start, size)
      ensures Since(old(history), Home(disk, start))
    {
      ghost var d := disk;
      ReadHead();
      ghost var s := sector[..n];
      InstallTrans();
      n := 0;
      WriteHead();
      pending := [];
      assert disk == Recovered(d, start, size);
      forall j | |old(history)| <= j < |history| ensures RecoversTo(history[j], start, size, Home(disk, start)) {
        RecoveryRestarts(d, history[j], start, size);
      }
    }

    /** log_write: the block goes to the log, not to its home. A crash now undoes the transaction. */
    method LogWrite(b: nat, data: Block) returns (ok: bool)
      requires Valid() && b < start
      modifies this
      ensures ok <==> old(n) < LOGSIZE && old(n) < size - 1 && old(busy)
      ensures busy == old(busy)
      ensures !ok ==> disk == old(disk) && pending == old(pending) && history == old(history)
      ensures Valid()
      ensures ok ==> pending == old(pending) + [Write(b, data)]
      ensures ok ==> sector[..n] == WithSector(old(sector[..n]), b)
      ensures old(n) <= n && |disk| == |old(disk)| && forall c :: start + n < c < |disk| ==> disk[c] == old(disk)[c]
      ensures Home(disk, start) == Home(old(disk), start)
      ensures Since(old(history), Home(disk, start))
    {
      hide Logged, Apply, RecoversTo;
      if n >= LOGSIZE || n >= size - 1 { return false; }
      if !busy { return false; }
      ghost var s := sector[..n];
      var i := 0;
      while i < n && sector[i] != b
        invariant 0 <= i <= n
        invariant forall k :: 0 <= k < i ==> sector[k] != b
      {
        i := i + 1;
      }
      if i < n {
        LoggedAbsorb(disk, start, s, pending, i, Write(b, data));
      } else {
        LoggedAppend(disk, start, s, pending, Write(b, data));
      }
      sector := sector[i := b];
      Bwrite(start + i + 1, data);
      pending := pending + [Write(b, data)];
      if i == n {
        n := n + 1;
        assert sector[..n] == s + [b];
      } else {
        assert sector[..n] == s;
      }
      ClearedHome(disk, start, size);
      return true;
    }

    /** commit_trans: from its first bwrite on, a crash no longer loses the transaction. */
    method CommitTrans()
      requires Valid() && busy
      modifies this
      ensures Valid() && !busy && pending == [] && n == 0
      ensures Home(disk, start) == Apply(Home(old(disk), start), old(pending))
      ensures |disk| == |old(disk)| && forall c :: start < c < |disk| ==> disk[c] == old(disk)[c]
      ensures Since(old(history), Home(disk, start))
    {
      hide Install, Apply, RecoversTo, RecoveryState, Partial, Logged;
      ghost var d, s := disk, sector[..n];
      LoggedInHome(d, start, s, pending);
      if n > 0 {
        WriteHead();
        ghost var committed := disk;
        HeaderCommits(d, committed, start, size, s, pending);
        InstallTrans();
        n := 0;
        WriteHead();
        assert disk == Recovered(committed, start, size);
        forall j | |old(history)| <= j < |history| ensures RecoversTo(history[j], start, size, Home(disk, start)) {
          assert RecoveryState(committed, history[j], start, size) by { AllStates(committed, history[j], start, size); }
          RecoveryRestarts(committed, history[j], start, size);
        }
      } else {
        NothingLogged(d, start, pending);
      }
      NothingPending(disk, start);
      pending := [];
      busy := false;
    }

    /** One system call: begin_trans, its log_writes, commit_trans. Every crash state of the whole
        transaction recovers to the home blocks before it or to those after it, and never goes back
        from after to before. */
    method Transaction(ws: seq<Write>) returns (ok: bool, ghost commit: nat)
      requires Valid() && !busy && pending == []
      requires forall i :: 0 <= i < |ws| ==> ws[i].sector < start
      modifies this
      ensures old(history) <= history && |old(history)| <= commit <= |history|
      ensures forall j :: |old(history)| <= j < commit ==>
                RecoversTo(history[j], start, size, Home(old(disk), start))
      ensures forall j :: commit <= j < |history| ==>
                RecoversTo(history[j], start, size, Apply(Home(old(disk), start), ws))
      ensures ok ==> Valid() && !busy && n == 0 && Home(disk, start) == Apply(Home(old(disk), start), ws)
      ensures ok && old(n) == 0 ==> LogLeft(old(disk), disk, start, ws)
      ensures old(n) == 0 ==> (ok <==> forall j :: 0 <= j < |ws| ==> Fits(ws[..j], size))
      ensures !ok ==> commit == |history| && start <= |disk| && Home(disk, start) == Home(old(disk), start)
    {
      hide Logged, Apply, RecoversTo, LogLeft, Sectors, WithSector;
      ghost var home := Home(disk, start);
      busy := true;
      assert n == 0 ==> sector[..n] == Sectors(ws[..0]) by { NoSectors(); }
      var i := 0;
      while i < |ws|
        invariant 0 <= i <= |ws| && Valid() && busy && pending == ws[..i]
        invariant Home(disk, start) == home && Since(old(history), home)
        invariant old(n) == 0 ==> sector[..n] == Sectors(ws[..i])
        invariant old(n) == 0 ==> forall j :: 0 <= j < i ==> Fits(ws[..j], size)
        invariant |disk| == |old(disk)| && forall c :: start + n < c < |disk| ==> disk[c] == old(disk)[c]
      {
        assert old(n) == 0 ==> |Sectors(ws[..i])| == |sector[..n]|;
        ok := LogWrite(ws[i].sector, ws[i].data);
        if !ok {
          assert old(n) == 0 ==> !Fits(ws[..i], size);
          return false, |history|;
        }
        SectorsGrow(ws, i);
        i := i + 1;
      }
      assert ws[..|ws|] == ws;
      commit := |history|;
      ghost var e := disk;
      if old(n) == 0 { LoggedIsLeft(old(disk), e, start, ws); }
      CommitTrans();
      if old(n) == 0 { LeftStays(old(disk), e, disk, start, ws); }
      ok := true;
    }
  }
}
