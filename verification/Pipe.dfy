/**
 pipe.c: a ring of 512 bytes with counters that wrap at 2^32. Class `Pipe` is the code, one stretch
 under the pipe's lock at a time; the machine below it runs any number of readers and writers, which
 give up the lock only by returning or by sleeping.
 */
module Pipe {
  import opened Basics
  import opened Blocks

  const PIPESIZE := 512

  /** What a pipe means: everything ever put in, everything ever taken out, and the open ends. */
  datatype Fifo = Fifo(written: seq<Byte>, taken: seq<Byte>, readopen: bool, writeopen: bool)

  datatype Outcome = Returned | Failed | Asleep

  ghost predicate FifoOk(q: Fifo) {
    q.taken <= q.written && |q.written| - |q.taken| <= PIPESIZE
  }

  ghost function Used(q: Fifo): nat
    requires FifoOk(q)
  {
    |q.written| - |q.taken|
  }

  // ---- one stretch of pipewrite and of piperead, on the meaning ----

  ghost function WriteCount(q: Fifo, rest: nat): nat
    requires FifoOk(q)
  {
    if rest <= PIPESIZE - Used(q) then rest else PIPESIZE - Used(q)
  }

  ghost function WriteOutcome(q: Fifo, rest: nat, killed: bool): Outcome
    requires FifoOk(q)
  {
    if rest <= PIPESIZE - Used(q) then Returned else if !q.readopen || killed then Failed else Asleep
  }

  ghost function Written(q: Fifo, src: seq<Byte>): (r: Fifo)
    requires FifoOk(q)
    ensures FifoOk(r)
  {
    q.(written := q.written + src[..WriteCount(q, |src|)])
  }

  ghost function ReadOutcome(q: Fifo, killed: bool): Outcome
    requires FifoOk(q)
  {
    if Used(q) > 0 || !q.writeopen then Returned else if killed then Failed else Asleep
  }

  ghost function ReadCount(q: Fifo, n: int): nat
    requires FifoOk(q)
  {
    if n <= 0 then 0 else if n <= Used(q) then n else Used(q)
  }

  ghost function Next(q: Fifo, n: int): seq<Byte>
    requires FifoOk(q)
  {
    q.written[|q.taken|..|q.taken| + ReadCount(q, n)]
  }

  ghost function Taken(q: Fifo, n: int): (r: Fifo)
    requires FifoOk(q)
    ensures FifoOk(r)
  {
    var c := ReadCount(q, n);
    assert q.taken + q.written[|q.taken|..|q.taken| + c] == q.written[..|q.taken| + c];
    q.(taken := q.taken + Next(q, n))
  }

  // ---- the ring ----

  lemma CellIs(n: nat, q: nat, r: nat)
    requires n == q * PIPESIZE + r && r < PIPESIZE
    ensures n % PIPESIZE == r
  {
  }

  lemma CounterIs(n: nat, q: nat, r: nat)
    requires n == q * UINT_LIMIT + r && r < UINT_LIMIT
    ensures n % UINT_LIMIT == r
  {
  }

  /** 512 divides 2^32, so a counter that wrapped still points at the right cell. */
  lemma WrapKeepsCell(n: nat)
    ensures n % UINT_LIMIT % PIPESIZE == n % PIPESIZE
    ensures (n % UINT_LIMIT + 1) % UINT_LIMIT == (n + 1) % UINT_LIMIT
  {
    var k, w := n / UINT_LIMIT, n % UINT_LIMIT;
    CellIs(n, k * (UINT_LIMIT / PIPESIZE) + w / PIPESIZE, w % PIPESIZE);
    if w + 1 < UINT_LIMIT {
      CounterIs(n + 1, k, w + 1);
    } else {
      CounterIs(n + 1, k + 1, 0);
    }
  }

  /** The tests of the code on wrapped counters are tests on how much the ring holds. */
  lemma WrapKeepsTests(r: nat, w: nat)
    requires r <= w <= r + PIPESIZE
    ensures r % UINT_LIMIT == w % UINT_LIMIT <==> r == w
    ensures w % UINT_LIMIT == (r % UINT_LIMIT + PIPESIZE) % UINT_LIMIT <==> w == r + PIPESIZE
  {
    var a, b := r / UINT_LIMIT, r % UINT_LIMIT;
    assert r == a * UINT_LIMIT + b;
    var d := w - r;
    if b + d < UINT_LIMIT {
      assert w == a * UINT_LIMIT + (b + d);
    } else {
      assert w == (a + 1) * UINT_LIMIT + (b + d - UINT_LIMIT);
    }
  }

  lemma CellsDiffer(i: nat, j: nat)
    requires i < j < i + PIPESIZE
    ensures i % PIPESIZE != j % PIPESIZE
  {
    var a, b := i / PIPESIZE, i % PIPESIZE;
    var d := j - i;
    assert i == a * PIPESIZE + b;
    if b + d < PIPESIZE {
      assert j == a * PIPESIZE + (b + d);
    } else {
      assert j == (a + 1) * PIPESIZE + (b + d - PIPESIZE);
    }
  }

  ghost predicate InRing(data: seq<Byte>, q: Fifo) {
    |data| == PIPESIZE && forall k :: |q.taken| <= k < |q.written| ==> data[k % PIPESIZE] == q.written[k]
  }

  lemma PutInRing(data: seq<Byte>, q: Fifo, x: Byte)
    requires FifoOk(q) && InRing(data, q) && Used(q) < PIPESIZE
    ensures InRing(data[|q.written| % PIPESIZE := x], q.(written := q.written + [x]))
  {
    var d := data[|q.written| % PIPESIZE := x];
    var w := q.written + [x];
    forall k | |q.taken| <= k < |w| ensures d[k % PIPESIZE] == w[k] {
      if k < |q.written| {
        CellsDiffer(k, |q.written|);
      }
    }
  }

  class Pipe {
    var data: array<Byte>
    var nread: nat
    var nwrite: nat
    var readopen: bool
    var writeopen: bool
    ghost var written: seq<Byte>
    ghost var taken: seq<Byte>

    ghost function Meaning(): Fifo
      reads this
    {
      Fifo(written, taken, readopen, writeopen)
    }

    ghost predicate Valid()
      reads this, data
    {
      && data.Length == PIPESIZE && FifoOk(Meaning())
      && nread == |taken| % UINT_LIMIT && nwrite == |written| % UINT_LIMIT
      && InRing(data[..], Meaning())
    }

    /** pipealloc. */
    constructor ()
      ensures Valid() && fresh(data) && Meaning() == Fifo([], [], true, true)
    {
      data := new Byte[PIPESIZE](i => 0);
      nread, nwrite, readopen, writeopen := 0, 0, true, true;
      written, taken := [], [];
    }

    /** pipewrite from acquire, or from its sleep, to its return or its next sleep. src is what is left. */
    method Write(src: seq<Byte>, killed: bool) returns (i: nat, out: Outcome)
      requires Valid()
      modifies this`nwrite, this`written, data
      ensures Valid() && data == old(data)
      ensures i == WriteCount(old(Meaning()), |src|) && out == WriteOutcome(old(Meaning()), |src|, killed)
      ensures Meaning() == Written(old(Meaning()), src)
      ensures i <= |src| && Meaning() == old(Meaning()).(written := old(written) + src[..i])
      ensures out == Returned <==> |src| <= PIPESIZE - Used(old(Meaning()))
      ensures out == Returned ==> i == |src|
      ensures out != Returned ==> i < |src| && Used(Meaning()) == PIPESIZE && (out == Failed <==> !readopen || killed)
    {
      hide InRing;
      i := 0;
      while i < |src|
        invariant i <= |src| && Valid() && data == old(data)
        invariant i <= PIPESIZE - Used(old(Meaning()))
        invariant Meaning() == old(Meaning()).(written := old(written) + src[..i])
      {
        WrapKeepsTests(|taken|, |written|);
        if nwrite == (nread + PIPESIZE) % UINT_LIMIT {
          return i, if !readopen || killed then Failed else Asleep;
        }
        Put(src[i]);
        i := i + 1;
      }
      out := Returned;
    }

    /** p->data[p->nwrite++ % PIPESIZE] = x. */
    method Put(x: Byte)
      requires Valid() && Used(Meaning()) < PIPESIZE
      modifies this`nwrite, this`written, data
      ensures Valid() && data == old(data) && Meaning() == old(Meaning()).(written := old(written) + [x])
    {
      PutInRing(data[..], Meaning(), x);
      WrapKeepsCell(|written|);
      ghost var before := data[..];
      data[nwrite % PIPESIZE] := x;
      assert data[..] == before[|written| % PIPESIZE := x];
      nwrite := (nwrite + 1) % UINT_LIMIT;
      written := written + [x];
    }

    /** piperead from acquire, or from its sleep, to its return or its next sleep. */
    method Read(n: int, killed: bool) returns (bytes: seq<Byte>, out: Outcome)
      requires Valid()
      modifies this`nread, this`taken
      ensures Valid() && out == ReadOutcome(old(Meaning()), killed)
      ensures out == Returned ==> bytes == Next(old(Meaning()), n) && Meaning() == Taken(old(Meaning()), n)
      ensures out != Returned ==> bytes == [] && Meaning() == old(Meaning())
      ensures out == Returned <==> old(Used(Meaning())) > 0 || !writeopen
      ensures out == Failed <==> old(Used(Meaning())) == 0 && writeopen && killed
      ensures Meaning() == old(Meaning()).(taken := old(taken) + bytes)
      ensures out == Returned && n > 0 ==> |bytes| <= n && (|bytes| == n || Used(Meaning()) == 0)
      ensures n <= 0 ==> bytes == []
      ensures out == Returned && n > 0 ==> (bytes == [] <==> old(written) == old(taken) && !writeopen)
    {
      WrapKeepsTests(|taken|, |written|);
      if nread == nwrite && writeopen {
        return [], if killed then Failed else Asleep;
      }
      bytes := CopyOut(n);
      out := Returned;
    }

    /** piperead's second loop. */
    method CopyOut(n: int) returns (bytes: seq<Byte>)
      requires Valid()
      modifies this`nread, this`taken
      ensures Valid() && bytes == Next(old(Meaning()), n) && Meaning() == Taken(old(Meaning()), n)
    {
      hide InRing;
      bytes := [];
      var i := 0;
      while i < n
        invariant 0 <= i && (i <= n || i == 0) && |bytes| == i <= Used(old(Meaning())) && Valid()
        invariant bytes == written[|old(taken)|..|old(taken)| + i]
        invariant Meaning() == old(Meaning()).(taken := old(taken) + bytes)
      {
        WrapKeepsTests(|taken|, |written|);
        if nread == nwrite {
          break;
        }
        var x := Get();
        bytes := bytes + [x];
        i := i + 1;
      }
    }

    /** p->data[p->nread++ % PIPESIZE]. */
    method Get() returns (x: Byte)
      requires Valid() && Used(Meaning()) > 0
      modifies this`nread, this`taken
      ensures Valid() && x == written[|old(taken)|] && Meaning() == old(Meaning()).(taken := old(taken) + [x])
    {
      WrapKeepsCell(|taken|);
      x := data[nread % PIPESIZE];
      assert data[..][|taken| % PIPESIZE] == written[|taken|];
      nread := (nread + 1) % UINT_LIMIT;
      assert taken + [x] == written[..|taken| + 1];
      taken := taken + [x];
    }

    /** pipeclose; `last` when the page goes back to kfree. */
    method Close(writable: bool) returns (last: bool)
      requires Valid()
      modifies this`readopen, this`writeopen
      ensures Valid() && last == (!readopen && !writeopen)
      ensures Meaning() == if writable then old(Meaning()).(writeopen := false) else old(Meaning()).(readopen := false)
    {
      if writable {
        writeopen := false;
      } else {
        readopen := false;
      }
      last := !readopen && !writeopen;
    }
  }

  // ---- readers and writers ----

  datatype Call = Idle | Writing(src: seq<Byte>) | Reading(n: int)

  datatype Client = Client(call: Call, asleep: bool, killed: bool)

  datatype State = State(q: Fifo, procs: map<nat, Client>)

  /** Starting a call, one stretch of it under the lock, closing an end, being killed. */
  datatype Event =
    | StartWrite(p: nat, src: seq<Byte>)
    | StartRead(p: nat, n: int)
    | WriteOn(p: nat)
    | ReadOn(p: nat)
    | CloseWrite
    | CloseRead
    | Kill(p: nat)

  /** An end is closed only once no process uses it: a call in progress keeps its file open. */
  ghost predicate Enabled(s: State, e: Event) {
    match e
    case StartWrite(p, src) => p in s.procs && s.procs[p].call.Idle? && s.q.writeopen
    case StartRead(p, n) => p in s.procs && s.procs[p].call.Idle? && s.q.readopen
    case WriteOn(p) => p in s.procs && s.procs[p].call.Writing? && !s.procs[p].asleep
    case ReadOn(p) => p in s.procs && s.procs[p].call.Reading? && !s.procs[p].asleep
    case CloseWrite => s.q.writeopen && forall p :: p in s.procs ==> !s.procs[p].call.Writing?
    case CloseRead => s.q.readopen && forall p :: p in s.procs ==> !s.procs[p].call.Reading?
    case Kill(p) => p in s.procs
  }

  function WakeReaders(procs: map<nat, Client>): map<nat, Client> {
    map p | p in procs :: if procs[p].call.Reading? then procs[p].(asleep := false) else procs[p]
  }

  function WakeWriters(procs: map<nat, Client>): map<nat, Client> {
    map p | p in procs :: if procs[p].call.Writing? then procs[p].(asleep := false) else procs[p]
  }

  ghost function WriteStep(s: State, p: nat): State
    requires FifoOk(s.q) && p in s.procs && s.procs[p].call.Writing?
  {
    var x := s.procs[p];
    var q := Written(s.q, x.call.src);
    match WriteOutcome(s.q, |x.call.src|, x.killed)
    case Returned => State(q, WakeReaders(s.procs[p := x.(call := Idle)]))
    case Failed => State(q, s.procs[p := x.(call := Idle)])
    case Asleep =>
      State(q, WakeReaders(s.procs[p := x.(call := Writing(x.call.src[WriteCount(s.q, |x.call.src|)..]), asleep := true)]))
  }

  ghost function ReadStep(s: State, p: nat): State
    requires FifoOk(s.q) && p in s.procs && s.procs[p].call.Reading?
  {
    var x := s.procs[p];
    match ReadOutcome(s.q, x.killed)
    case Returned => State(Taken(s.q, x.call.n), WakeWriters(s.procs[p := x.(call := Idle)]))
    case Failed => s.(procs := s.procs[p := x.(call := Idle)])
    case Asleep => s.(procs := s.procs[p := x.(asleep := true)])
  }

  ghost function Apply(s: State, e: Event): State
    requires FifoOk(s.q) && Enabled(s, e)
  {
    match e
    case StartWrite(p, src) => s.(procs := s.procs[p := s.procs[p].(call := Writing(src))])
    case StartRead(p, n) => s.(procs := s.procs[p := s.procs[p].(call := Reading(n))])
    case WriteOn(p) => WriteStep(s, p)
    case ReadOn(p) => ReadStep(s, p)
    case CloseWrite => State(s.q.(writeopen := false), WakeReaders(s.procs))
    case CloseRead => State(s.q.(readopen := false), WakeWriters(s.procs))
    case Kill(p) => s.(procs := s.procs[p := s.procs[p].(killed := true, asleep := false)])
  }

  /** A sleeping reader has nothing to read, a sleeping writer no room, and neither is to give up. */
  ghost predicate SleeperOk(q: Fifo, x: Client)
    requires FifoOk(q)
  {
    x.asleep ==>
      match x.call
      case Idle => false
      case Reading(_) => Used(q) == 0 && q.writeopen && !x.killed
      case Writing(src) => Used(q) == PIPESIZE && q.readopen && !x.killed && |src| > 0
  }

  ghost predicate NoLostWakeup(s: State) {
    FifoOk(s.q) && forall p :: p in s.procs ==> SleeperOk(s.q, s.procs[p])
  }

  ghost predicate ReaderAsleep(s: State) {
    exists r :: r in s.procs && s.procs[r].call.Reading? && s.procs[r].asleep
  }

  /** A writer gives up with -1 after filling the pipe, and does not wake the readers. */
  ghost predicate GivesUpSilently(s: State, e: Event)
    requires FifoOk(s.q)
  {
    && e.WriteOn? && e.p in s.procs && s.procs[e.p].call.Writing?
    && |s.procs[e.p].call.src| > PIPESIZE - Used(s.q)
    && (s.procs[e.p].killed || !s.q.readopen)
    && ReaderAsleep(s)
  }

  lemma StepKeepsFifo(s: State, e: Event)
    requires FifoOk(s.q) && Enabled(s, e)
    ensures FifoOk(Apply(s, e).q)
  {
  }

  /** Every step but a silent give-up keeps all sleepers right to sleep. */
  lemma StepKeepsSleepers(s: State, e: Event)
    requires NoLostWakeup(s) && Enabled(s, e) && !GivesUpSilently(s, e)
    ensures NoLostWakeup(Apply(s, e))
  {
    StepKeepsFifo(s, e);
    var t := Apply(s, e);
    forall p | p in t.procs ensures SleeperOk(t.q, t.procs[p]) {
      assert SleeperOk(s.q, s.procs[p]);
      if e.WriteOn? && s.procs[p].call.Reading? && s.procs[p].asleep {
        assert ReaderAsleep(s);
      }
    }
  }

  /** A silent give-up leaves a reader asleep beside a full pipe. */
  lemma SilentGiveUpLoses(s: State, e: Event)
    requires NoLostWakeup(s) && Enabled(s, e) && GivesUpSilently(s, e)
    ensures FifoOk(Apply(s, e).q) && Used(Apply(s, e).q) == PIPESIZE && ReaderAsleep(Apply(s, e)) && !NoLostWakeup(Apply(s, e))
  {
    StepKeepsFifo(s, e);
    var t := Apply(s, e);
    var r :| r in s.procs && s.procs[r].call.Reading? && s.procs[r].asleep;
    assert SleeperOk(s.q, s.procs[r]);
    assert r != e.p && t.procs[r] == s.procs[r];
    assert !SleeperOk(t.q, t.procs[r]);
  }

  /** A wakeup is lost exactly by a silent give-up. */
  lemma WakeupLostExactly(s: State, e: Event)
    requires NoLostWakeup(s) && Enabled(s, e)
    ensures NoLostWakeup(Apply(s, e)) <==> !GivesUpSilently(s, e)
  {
    if GivesUpSilently(s, e) {
      SilentGiveUpLoses(s, e);
    } else {
      StepKeepsSleepers(s, e);
    }
  }

  // ---- one step, told by the states around it ----

  /** The bytes a step puts in, and the bytes it takes out. */
  ghost function PutIn(s: State, t: State): seq<Byte> {
    if |s.q.written| <= |t.q.written| then t.q.written[|s.q.written|..] else []
  }

  ghost function TakenOut(s: State, t: State): seq<Byte> {
    if |s.q.taken| <= |t.q.taken| then t.q.taken[|s.q.taken|..] else []
  }

  /** What a stretch of a write call does: the bytes it puts in come off the front of what is left; it ends with
      nothing left, or gives up or sleeps with the pipe full. */
  lemma WriteStretch(s: State, p: nat)
    requires FifoOk(s.q) && Enabled(s, WriteOn(p))
    ensures var t := Apply(s, WriteOn(p));
            var x, y := s.procs[p], t.procs[p];
            && FifoOk(t.q) && t.q == s.q.(written := s.q.written + PutIn(s, t)) && PutIn(s, t) <= x.call.src
            && (y.call.Idle? || (y.call.Writing? && y.asleep && PutIn(s, t) + y.call.src == x.call.src))
            && (y.call.Idle? ==> PutIn(s, t) == x.call.src || (Used(t.q) == PIPESIZE && (x.killed || !s.q.readopen)))
            && (y.call.Writing? ==> Used(t.q) == PIPESIZE && y.call.src != [] && !x.killed && s.q.readopen)
            && y.killed == x.killed
  {
    var t := Apply(s, WriteOn(p));
    var src, c := s.procs[p].call.src, WriteCount(s.q, |s.procs[p].call.src|);
    assert PutIn(s, t) == src[..c];
    assert src == src[..c] + src[c..];
  }

  /** What a stretch of a read call does: it takes n bytes or all there are, in order; it gives up or sleeps only
      with nothing to read. */
  lemma ReadStretch(s: State, p: nat)
    requires FifoOk(s.q) && Enabled(s, ReadOn(p))
    ensures var t := Apply(s, ReadOn(p));
            var x, y, n := s.procs[p], t.procs[p], s.procs[p].call.n;
            && FifoOk(t.q) && t.q == s.q.(taken := s.q.taken + TakenOut(s, t))
            && (y.call.Idle? || (y.asleep && y.call == x.call))
            && (n > 0 ==> |TakenOut(s, t)| <= n && (|TakenOut(s, t)| == n || Used(t.q) == 0))
            && (n <= 0 ==> TakenOut(s, t) == [])
            && (y.call.Reading? ==> Used(s.q) == 0 && s.q.writeopen && !x.killed)
            && (Used(s.q) == 0 && s.q.writeopen && !x.killed ==> y.call.Reading?)
            && y.killed == x.killed
  {
  }

  /** Nobody else's call changes but for being woken. */
  lemma OthersStay(s: State, e: Event, p: nat)
    requires FifoOk(s.q) && Enabled(s, e) && p in s.procs
    requires !(e.StartWrite? && e.p == p) && !(e.StartRead? && e.p == p) && !(e.WriteOn? && e.p == p) && !(e.ReadOn? && e.p == p)
    ensures p in Apply(s, e).procs && Apply(s, e).procs[p].call == s.procs[p].call
  {
  }

  /** When the last writer has gone, a reader asleep on the empty pipe comes back with nothing. */
  lemma CloseEndsRead(s: State, p: nat)
    requires NoLostWakeup(s) && s.q.writeopen && (forall w :: w in s.procs ==> !s.procs[w].call.Writing?)
    requires p in s.procs && s.procs[p].call.Reading? && s.procs[p].asleep
    ensures Enabled(s, CloseWrite) && Enabled(Apply(s, CloseWrite), ReadOn(p))
    ensures var t := Apply(Apply(s, CloseWrite), ReadOn(p)); t.procs[p].call.Idle? && TakenOut(s, t) == [] && !t.q.writeopen
  {
    assert SleeperOk(s.q, s.procs[p]);
  }

  /** When the last reader has gone, a writer asleep on the full pipe gives up with nothing more put in. */
  lemma CloseEndsWrite(s: State, p: nat)
    requires NoLostWakeup(s) && s.q.readopen && (forall r :: r in s.procs ==> !s.procs[r].call.Reading?)
    requires p in s.procs && s.procs[p].call.Writing? && s.procs[p].asleep
    ensures Enabled(s, CloseRead) && Enabled(Apply(s, CloseRead), WriteOn(p))
    ensures var t := Apply(Apply(s, CloseRead), WriteOn(p)); t.procs[p].call.Idle? && PutIn(s, t) == [] && !t.q.readopen
  {
    assert SleeperOk(s.q, s.procs[p]);
  }

  // ---- whole runs ----

  ghost predicate Fresh(s: State) {
    s.q == Fifo([], [], true, true) && forall p :: p in s.procs ==> s.procs[p].call.Idle? && !s.procs[p].asleep
  }

  ghost predicate Run(tr: seq<State>, es: seq<Event>) {
    && |tr| == |es| + 1 && Fresh(tr[0])
    && forall k :: 0 <= k < |es| ==> FifoOk(tr[k].q) && Enabled(tr[k], es[k]) && tr[k + 1] == Apply(tr[k], es[k])
  }

  /** The bytes the k-th event hands to a reader, and the bytes it accepts from a writer. */
  ghost function Delivered(s: State, e: Event): seq<Byte>
    requires FifoOk(s.q) && Enabled(s, e)
  {
    if e.ReadOn? && ReadOutcome(s.q, s.procs[e.p].killed) == Returned then Next(s.q, s.procs[e.p].call.n) else []
  }

  ghost function Accepted(s: State, e: Event): seq<Byte>
    requires FifoOk(s.q) && Enabled(s, e)
  {
    if e.WriteOn? then s.procs[e.p].call.src[..WriteCount(s.q, |s.procs[e.p].call.src|)] else []
  }

  ghost function AllDelivered(tr: seq<State>, es: seq<Event>, n: nat): seq<Byte>
    requires Run(tr, es) && n <= |es|
  {
    if n == 0 then [] else AllDelivered(tr, es, n - 1) + Delivered(tr[n - 1], es[n - 1])
  }

  ghost function AllAccepted(tr: seq<State>, es: seq<Event>, n: nat): seq<Byte>
    requires Run(tr, es) && n <= |es|
  {
    if n == 0 then [] else AllAccepted(tr, es, n - 1) + Accepted(tr[n - 1], es[n - 1])
  }

  lemma StepMeaning(s: State, e: Event)
    requires FifoOk(s.q) && Enabled(s, e)
    ensures FifoOk(Apply(s, e).q)
    ensures Apply(s, e).q.taken == s.q.taken + Delivered(s, e) && Apply(s, e).q.written == s.q.written + Accepted(s, e)
  {
  }

  lemma {:induction false} RunMeaning(tr: seq<State>, es: seq<Event>, n: nat)
    requires Run(tr, es) && n <= |es|
    ensures FifoOk(tr[n].q) && tr[n].q.taken == AllDelivered(tr, es, n) && tr[n].q.written == AllAccepted(tr, es, n)
  {
    if n > 0 {
      hide Apply, Enabled, FifoOk, Delivered, Accepted;
      RunMeaning(tr, es, n - 1);
      StepMeaning(tr[n - 1], es[n - 1]);
    }
  }

  /** Whatever the interleaving, what readers got, in order, is a prefix of what writers put in, and at
      most 512 bytes are on their way. */
  lemma ReadIsPrefixOfWritten(tr: seq<State>, es: seq<Event>, n: nat)
    requires Run(tr, es) && n <= |es|
    ensures AllDelivered(tr, es, n) <= AllAccepted(tr, es, n)
    ensures |AllAccepted(tr, es, n)| - |AllDelivered(tr, es, n)| <= PIPESIZE
  {
    RunMeaning(tr, es, n);
  }

  /** A read of a positive length that returns no byte finds everything written already read, and the
      write end closed. */
  lemma EmptyReadMeansEnd(tr: seq<State>, es: seq<Event>, k: nat)
    requires Run(tr, es) && k < |es| && es[k].ReadOn?
    ensures var x := tr[k].procs[es[k].p];
            x.call.n > 0 && ReadOutcome(tr[k].q, x.killed) == Returned && Delivered(tr[k], es[k]) == [] ==>
              AllDelivered(tr, es, k) == AllAccepted(tr, es, k) && !tr[k].q.writeopen
  {
    RunMeaning(tr, es, k);
    var q := tr[k].q;
    assert Used(q) == 0 ==> q.taken == q.written;
  }

  /** What process p has put in between two points of a run. */
  ghost function PutBy(tr: seq<State>, es: seq<Event>, p: nat, a: nat, b: nat): seq<Byte>
    requires Run(tr, es) && a <= b <= |es|
    decreases b - a
  {
    if a == b then [] else PutBy(tr, es, p, a, b - 1) + if es[b - 1] == WriteOn(p) then PutIn(tr[b - 1], tr[b]) else []
  }

  /** A call of write that starts at event a, and is not over before event b. */
  ghost predicate InWrite(tr: seq<State>, es: seq<Event>, p: nat, src: seq<Byte>, a: nat, b: nat)
    requires Run(tr, es)
  {
    && a < b <= |es| && es[a] == StartWrite(p, src)
    && forall k :: a < k < b ==> p in tr[k].procs && tr[k].procs[p].call.Writing?
  }

  /** Having put in `done` of src, p has the rest left; or it is through with all of it, or has given up with the
      pipe full. */
  ghost predicate WriteAt(t: State, p: nat, src: seq<Byte>, done: seq<Byte>) {
    && p in t.procs && !t.procs[p].call.Reading?
    && (t.procs[p].call.Writing? ==> done + t.procs[p].call.src == src)
    && (t.procs[p].call.Idle? ==>
          || done == src
          || (done <= src && FifoOk(t.q) && Used(t.q) == PIPESIZE && (t.procs[p].killed || !t.q.readopen)))
  }

  lemma WriteAtStep(s: State, e: Event, p: nat, src: seq<Byte>, done: seq<Byte>)
    requires FifoOk(s.q) && Enabled(s, e) && WriteAt(s, p, src, done) && s.procs[p].call.Writing?
    ensures WriteAt(Apply(s, e), p, src, done + if e == WriteOn(p) then PutIn(s, Apply(s, e)) else [])
    ensures e != WriteOn(p) ==> p in Apply(s, e).procs && Apply(s, e).procs[p].call.Writing?
  {
    if e == WriteOn(p) {
      WriteStretch(s, p);
      hide Apply;
      var rest, got := s.procs[p].call.src, PutIn(s, Apply(s, e));
      assert rest == got + rest[|got|..];
      assert done + rest == (done + got) + rest[|got|..];
    } else {
      OthersStay(s, e, p);
      assert done + [] == done;
    }
  }

  /** While it lasts, what it has put in and what it has left make up what it was called with. When it is over it
      has put in all of that, in order, or it has given up with the pipe full. */
  lemma {:induction false} WriteDeliversAll(tr: seq<State>, es: seq<Event>, p: nat, src: seq<Byte>, a: nat, b: nat)
    requires Run(tr, es) && InWrite(tr, es, p, src, a, b)
    ensures WriteAt(tr[b], p, src, PutBy(tr, es, p, a + 1, b))
    ensures !tr[b].procs[p].call.Writing? ==> es[b - 1] == WriteOn(p)
    decreases b
  {
    hide Apply, Enabled, FifoOk, WriteAt;
    StepOf(tr, es, b - 1);
    if b > a + 1 {
      assert InWrite(tr, es, p, src, a, b - 1);
      WriteDeliversAll(tr, es, p, src, a, b - 1);
      hide Run;
      WriteAtStep(tr[b - 1], es[b - 1], p, src, PutBy(tr, es, p, a + 1, b - 1));
    } else {
      WriteBegins(tr[a], p, src);
    }
  }

  lemma WriteBegins(s: State, p: nat, src: seq<Byte>)
    requires FifoOk(s.q) && Enabled(s, StartWrite(p, src))
    ensures WriteAt(Apply(s, StartWrite(p, src)), p, src, []) && Apply(s, StartWrite(p, src)).procs[p].call.Writing?
  {
  }

  lemma StepOf(tr: seq<State>, es: seq<Event>, k: nat)
    requires Run(tr, es) && k < |es|
    ensures |tr| == |es| + 1 && FifoOk(tr[k].q) && Enabled(tr[k], es[k]) && tr[k + 1] == Apply(tr[k], es[k])
  {
  }

  lemma {:induction false} RunKeepsSleepers(tr: seq<State>, es: seq<Event>, n: nat)
    requires Run(tr, es) && n <= |es|
    requires forall k :: 0 <= k < n ==> !GivesUpSilently(tr[k], es[k])
    ensures NoLostWakeup(tr[n])
  {
    if n > 0 {
      hide Apply, Enabled;
      RunKeepsSleepers(tr, es, n - 1);
      StepKeepsSleepers(tr[n - 1], es[n - 1]);
    }
  }

  /** It does happen: a reader waits, a killed writer offers more than the pipe holds. */
  lemma WakeupCanBeLost(bytes: seq<Byte>) returns (tr: seq<State>)
    requires |bytes| > PIPESIZE
    ensures Run(tr, [StartRead(0, 1), ReadOn(0), StartWrite(1, bytes), Kill(1), WriteOn(1)])
    ensures !NoLostWakeup(tr[5])
  {
    var s0 := State(Fifo([], [], true, true), map[0 := Client(Idle, false, false), 1 := Client(Idle, false, false)]);
    var s1 := Apply(s0, StartRead(0, 1));
    var s2 := Apply(s1, ReadOn(0));
    var s3 := Apply(s2, StartWrite(1, bytes));
    var s4 := Apply(s3, Kill(1));
    assert ReaderAsleep(s4) by { assert s4.procs[0].asleep; }
    SilentGiveUpLoses(s4, WriteOn(1));
    tr := [s0, s1, s2, s3, s4, Apply(s4, WriteOn(1))];
  }
}
