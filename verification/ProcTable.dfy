/**
 proc.c: the process table, from allocproc to wait. Every event below is one critical section under
 ptable.lock, or one of the single unlocked stores fork makes to the slot it owns; a run is any
 sequence of events, so every interleaving on any number of processors is covered.
 */
module ProcTable {
  import opened Basics

  const NPROC := 64

  datatype RunState = Unused | Embryo | Sleeping | Runnable | Running | Zombie

  /** A sleep channel: a process slot (used by wait) or any other kernel address. */
  datatype Chan = NoChan | ProcChan(slot: nat) | Other(addr: nat)

  /** What the kernel stack of a process remembers: nothing of interest, the new slot of a fork in
      progress and whether its parent field is already set, or that it sleeps inside wait. */
  datatype At = Elsewhere | Forking(np: nat, named: bool) | Waiting

  datatype Proc = Proc(state: RunState, pid: nat, parent: Option<nat>, chan: Chan, killed: bool, at: At)

  /** `exited` and `reaped` are the pids that went through exit and that wait returned, in order. */
  datatype Table = Table(procs: seq<Proc>, init: nat, nextpid: nat, exited: seq<nat>, reaped: seq<nat>)

  datatype Event =
    | Alloc(f: nat, i: nat)
    | ForkFail(f: nat)
    | ForkName(f: nat)
    | ForkRun(f: nat)
    | Exit(p: nat)
    | Reap(p: nat, i: nat)
    | WaitFail(p: nat)
    | WaitSleep(p: nat)
    | Schedule(p: nat)
    | Yield(p: nat)
    | Sleep(p: nat, addr: nat)
    | Wakeup(addr: nat)
    | Kill(i: nat)

  predicate Live(x: Proc) {
    x.state.Sleeping? || x.state.Runnable? || x.state.Running?
  }

  predicate ZombieChild(procs: seq<Proc>, p: nat, i: nat)
    requires i < |procs|
  {
    procs[i].parent == Some(p) && procs[i].state.Zombie?
  }

  ghost predicate HasZombie(procs: seq<Proc>, p: nat) {
    exists i :: 0 <= i < |procs| && ZombieChild(procs, p, i)
  }

  ghost predicate HasChild(procs: seq<Proc>, p: nat) {
    exists i :: 0 <= i < |procs| && procs[i].parent == Some(p)
  }

  /** wakeup1. */
  function Woken(x: Proc, ch: Chan): Proc {
    if x.state.Sleeping? && x.chan == ch then x.(state := Runnable) else x
  }

  function WokenAll(procs: seq<Proc>, ch: Chan): seq<Proc> {
    seq(|procs|, i requires 0 <= i < |procs| => Woken(procs[i], ch))
  }

  /** The children of p move to init. */
  function Adopted(x: Proc, p: nat, init: nat): Proc {
    if x.parent == Some(p) then x.(parent := Some(init)) else x
  }

  function AdoptedAll(procs: seq<Proc>, p: nat, init: nat): seq<Proc> {
    seq(|procs|, i requires 0 <= i < |procs| => Adopted(procs[i], p, init))
  }

  ghost function Orphaned(procs: seq<Proc>, p: nat, init: nat): seq<Proc> {
    var q := AdoptedAll(procs, p, init);
    if HasZombie(procs, p) then WokenAll(q, ProcChan(init)) else q
  }

  ghost predicate Enabled(s: Table, e: Event) {
    var n := |s.procs|;
    match e
    case Alloc(f, i) =>
      && f < n && s.procs[f].state.Running? && s.procs[f].at.Elsewhere?
      && i < n && s.procs[i].state.Unused? && forall k :: 0 <= k < i ==> !s.procs[k].state.Unused?
    case ForkFail(f) => f < n && s.procs[f].state.Running? && s.procs[f].at.Forking? && !s.procs[f].at.named && s.procs[f].at.np < n
    case ForkName(f) => f < n && s.procs[f].state.Running? && s.procs[f].at.Forking? && !s.procs[f].at.named && s.procs[f].at.np < n
    case ForkRun(f) => f < n && s.procs[f].state.Running? && s.procs[f].at.Forking? && s.procs[f].at.named && s.procs[f].at.np < n
    case Exit(p) => p < n && s.procs[p].state.Running? && s.procs[p].at.Elsewhere? && p != s.init && s.procs[p].parent.Some?
    case Reap(p, i) =>
      && p < n && s.procs[p].state.Running? && !s.procs[p].at.Forking?
      && i < n && ZombieChild(s.procs, p, i) && forall k :: 0 <= k < i ==> !ZombieChild(s.procs, p, k)
    case WaitFail(p) =>
      && p < n && s.procs[p].state.Running? && !s.procs[p].at.Forking?
      && !HasZombie(s.procs, p) && (!HasChild(s.procs, p) || s.procs[p].killed)
    case WaitSleep(p) =>
      && p < n && s.procs[p].state.Running? && !s.procs[p].at.Forking?
      && !HasZombie(s.procs, p) && HasChild(s.procs, p) && !s.procs[p].killed
    case Schedule(p) => p < n && s.procs[p].state.Runnable?
    case Yield(p) => p < n && s.procs[p].state.Running?
    case Sleep(p, addr) => p < n && s.procs[p].state.Running? && s.procs[p].at.Elsewhere?
    case Wakeup(addr) => true
    case Kill(i) => i < n && forall k :: 0 <= k < i ==> s.procs[k].pid != s.procs[i].pid
  }

  function Set(s: Table, i: nat, x: Proc): Table
    requires i < |s.procs|
  {
    s.(procs := s.procs[i := x])
  }

  ghost function Apply(s: Table, e: Event): Table
    requires Enabled(s, e)
  {
    match e
    case Alloc(f, i) =>
      var t := Set(s, i, s.procs[i].(state := Embryo, pid := s.nextpid, at := Elsewhere));
      Set(t, f, s.procs[f].(at := Forking(i, false))).(nextpid := s.nextpid + 1)
    case ForkFail(f) =>
      var np := s.procs[f].at.np;
      var t := Set(s, np, s.procs[np].(state := Unused));
      Set(t, f, t.procs[f].(at := Elsewhere))
    case ForkName(f) =>
      var np := s.procs[f].at.np;
      var t := Set(s, np, s.procs[np].(parent := Some(f)));
      Set(t, f, t.procs[f].(at := Forking(np, true)))
    case ForkRun(f) =>
      var np := s.procs[f].at.np;
      var t := Set(s, np, s.procs[np].(state := Runnable));
      Set(t, f, t.procs[f].(at := Elsewhere))
    case Exit(p) =>
      var q := Orphaned(WokenAll(s.procs, ProcChan(s.procs[p].parent.value)), p, s.init);
      Table(q[p := q[p].(state := Zombie)], s.init, s.nextpid, s.exited + [s.procs[p].pid], s.reaped)
    case Reap(p, i) =>
      var t := Set(s, i, s.procs[i].(state := Unused, pid := 0, parent := None, killed := false));
      Set(t, p, t.procs[p].(at := Elsewhere)).(reaped := s.reaped + [s.procs[i].pid])
    case WaitFail(p) => Set(s, p, s.procs[p].(at := Elsewhere))
    case WaitSleep(p) => Set(s, p, s.procs[p].(state := Sleeping, chan := ProcChan(p), at := Waiting))
    case Schedule(p) => Set(s, p, s.procs[p].(state := Running, chan := NoChan))
    case Yield(p) => Set(s, p, s.procs[p].(state := Runnable))
    case Sleep(p, addr) => Set(s, p, s.procs[p].(state := Sleeping, chan := Other(addr)))
    case Wakeup(addr) => s.(procs := WokenAll(s.procs, Other(addr)))
    case Kill(i) =>
      Set(s, i, s.procs[i].(killed := true, state := if s.procs[i].state.Sleeping? then Runnable else s.procs[i].state))
  }

  // ---- the invariant ----

  ghost predicate Shape(s: Table) {
    && |s.procs| == NPROC && s.init < NPROC
    && Live(s.procs[s.init]) && s.procs[s.init].pid == 1 && s.procs[s.init].parent == None
  }

  /** Everybody but init has a live parent, born earlier. */
  ghost predicate Tree(s: Table)
    requires Shape(s)
  {
    forall i :: 0 <= i < NPROC && i != s.init && (Live(s.procs[i]) || s.procs[i].state.Zombie?) ==> HasParent(s, i)
  }

  ghost predicate HasParent(s: Table, i: nat)
    requires Shape(s) && i < NPROC
  {
    && s.procs[i].parent.Some? && s.procs[i].parent.value < NPROC
    && Live(s.procs[s.procs[i].parent.value])
    && s.procs[s.procs[i].parent.value].pid < s.procs[i].pid
  }

  /** Slots without a process of their own: only a fork in progress names itself as parent. */
  ghost predicate Vacant(s: Table)
    requires Shape(s)
  {
    && (forall i :: 0 <= i < NPROC && s.procs[i].state.Unused? ==> s.procs[i].parent == None)
    && (forall i :: 0 <= i < NPROC && s.procs[i].state.Embryo? && s.procs[i].parent.Some? ==>
          s.procs[i].parent.value < NPROC && s.procs[s.procs[i].parent.value].at == Forking(i, true))
    && (forall i :: 0 <= i < NPROC && !Live(s.procs[i]) ==> s.procs[i].at.Elsewhere?)
  }

  /** A fork in progress owns its embryo. */
  ghost predicate Forks(s: Table)
    requires Shape(s)
  {
    && (forall f :: 0 <= f < NPROC && s.procs[f].at.Forking? ==> Owns(s, f, s.procs[f].at.np))
    && (forall f, g :: 0 <= f < g < NPROC && s.procs[f].at.Forking? && s.procs[g].at.Forking? ==>
          s.procs[f].at.np != s.procs[g].at.np)
  }

  ghost predicate Owns(s: Table, f: nat, np: nat)
    requires Shape(s) && f < NPROC && s.procs[f].at.Forking?
  {
    && np < NPROC && s.procs[np].state.Embryo?
    && s.procs[np].parent == (if s.procs[f].at.named then Some(f) else None)
    && s.procs[f].pid < s.procs[np].pid
    && !s.procs[f].state.Sleeping?
  }

  /** A process asleep in wait has a child, no zombie child, and was not killed. */
  ghost predicate WaitsWell(s: Table)
    requires Shape(s)
  {
    forall p :: 0 <= p < NPROC && s.procs[p].state.Sleeping? ==> SleepsWell(s, p)
  }

  ghost predicate SleepsWell(s: Table, p: nat)
    requires Shape(s) && p < NPROC
  {
    && (s.procs[p].chan.ProcChan? ==> s.procs[p].at.Waiting?)
    && (s.procs[p].at.Waiting? ==>
          s.procs[p].chan == ProcChan(p) && !s.procs[p].killed && HasChild(s.procs, p) && !HasZombie(s.procs, p))
  }

  ghost predicate Pids(s: Table)
    requires Shape(s)
  {
    && (forall i :: 0 <= i < NPROC ==> s.procs[i].pid < s.nextpid)
    && (forall i :: 0 <= i < NPROC && !s.procs[i].state.Unused? ==> s.procs[i].pid != 0)
    && (forall i, j :: 0 <= i < j < NPROC && s.procs[i].pid != 0 ==> s.procs[i].pid != s.procs[j].pid)
  }

  ghost predicate Distinct(q: seq<nat>) {
    forall i, j :: 0 <= i < j < |q| ==> q[i] != q[j]
  }

  ghost predicate IsZombiePid(s: Table, x: nat) {
    exists i :: 0 <= i < |s.procs| && s.procs[i].state.Zombie? && s.procs[i].pid == x
  }

  /** Every pid that exited was returned by one wait or still belongs to a zombie, never both. */
  ghost predicate History(s: Table)
    requires Shape(s)
  {
    && Distinct(s.exited) && Distinct(s.reaped)
    && (forall x :: x in s.exited <==> x in s.reaped || IsZombiePid(s, x))
    && (forall i :: 0 <= i < NPROC && s.procs[i].state.Zombie? ==> s.procs[i].pid !in s.reaped)
    && (forall x :: x in s.exited ==> 0 < x < s.nextpid)
    && (forall i :: 0 <= i < NPROC && !s.procs[i].state.Zombie? ==> s.procs[i].pid !in s.exited)
  }

  ghost predicate Inv(s: Table) {
    Shape(s) && Tree(s) && Vacant(s) && Forks(s) && WaitsWell(s) && Pids(s) && History(s)
  }

  // ---- what changes and what does not ----

  /** States, parents and pids that agree, up to waking and scheduling. */
  ghost predicate SameFamily(a: seq<Proc>, b: seq<Proc>) {
    && |a| == |b|
    && forall i :: 0 <= i < |a| ==> && a[i].parent == b[i].parent && a[i].pid == b[i].pid
                                    && (Live(a[i]) <==> Live(b[i]))
                                    && (!Live(a[i]) ==> a[i].state == b[i].state)
  }

  lemma FamilyKeeps(s: Table, t: Table)
    requires Inv(s) && SameFamily(s.procs, t.procs)
    requires t.init == s.init && t.nextpid == s.nextpid && t.exited == s.exited && t.reaped == s.reaped
    ensures Shape(t) && Tree(t) && Pids(t) && History(t)
    ensures forall p :: 0 <= p < NPROC ==> (HasChild(t.procs, p) <==> HasChild(s.procs, p))
    ensures forall p :: 0 <= p < NPROC ==> (HasZombie(t.procs, p) <==> HasZombie(s.procs, p))
  {
    hide Vacant, Forks, WaitsWell;
    FamilyTree(s, t);
    FamilyHistory(s, t);
    FamilyChildren(s.procs, t.procs);
    FamilyChildren(t.procs, s.procs);
  }

  lemma FamilyTree(s: Table, t: Table)
    requires Shape(s) && Tree(s) && SameFamily(s.procs, t.procs) && t.init == s.init
    ensures Shape(t) && Tree(t)
  {
    forall i | 0 <= i < NPROC && i != t.init && (Live(t.procs[i]) || t.procs[i].state.Zombie?) ensures HasParent(t, i) {
      assert HasParent(s, i);
    }
  }

  lemma SameZombiePids(s: Table, t: Table)
    requires |s.procs| == |t.procs|
    requires forall i :: 0 <= i < |s.procs| ==> (s.procs[i].state.Zombie? <==> t.procs[i].state.Zombie?)
    requires forall i :: 0 <= i < |s.procs| && s.procs[i].state.Zombie? ==> s.procs[i].pid == t.procs[i].pid
    ensures forall x :: IsZombiePid(t, x) <==> IsZombiePid(s, x)
  {
    forall x ensures IsZombiePid(t, x) <==> IsZombiePid(s, x) {
      if IsZombiePid(s, x) {
        var i :| 0 <= i < |s.procs| && s.procs[i].state.Zombie? && s.procs[i].pid == x;
        assert t.procs[i].state.Zombie? && t.procs[i].pid == x;
      }
      if IsZombiePid(t, x) {
        var i :| 0 <= i < |s.procs| && t.procs[i].state.Zombie? && t.procs[i].pid == x;
        assert s.procs[i].state.Zombie? && s.procs[i].pid == x;
      }
    }
  }

  lemma FamilyHistory(s: Table, t: Table)
    requires Shape(s) && Shape(t) && History(s) && SameFamily(s.procs, t.procs)
    requires t.nextpid == s.nextpid && t.exited == s.exited && t.reaped == s.reaped
    ensures History(t)
  {
    SameZombiePids(s, t);
  }

  lemma FamilyChildren(a: seq<Proc>, b: seq<Proc>)
    requires SameFamily(a, b)
    ensures forall p :: 0 <= p < NPROC && HasChild(a, p) ==> HasChild(b, p)
    ensures forall p :: 0 <= p < NPROC && HasZombie(a, p) ==> HasZombie(b, p)
  {
    forall p | 0 <= p < NPROC && HasChild(a, p) ensures HasChild(b, p) {
      var i :| 0 <= i < |a| && a[i].parent == Some(p);
      assert b[i].parent == Some(p);
    }
    forall p | 0 <= p < NPROC && HasZombie(a, p) ensures HasZombie(b, p) {
      var i :| 0 <= i < |a| && ZombieChild(a, p, i);
      assert ZombieChild(b, p, i);
    }
  }

  // ---- every event keeps the invariant ----

  predicate Calm(e: Event) {
    e.WaitFail? || e.WaitSleep? || e.Schedule? || e.Yield? || e.Sleep? || e.Wakeup? || e.Kill?
  }

  /** Scheduling, sleeping, waking and killing move no one in the family and touch no fork. */
  lemma CalmSlot(s: Table, e: Event, k: nat)
    requires Shape(s) && Enabled(s, e) && Calm(e) && k < NPROC
    ensures |Apply(s, e).procs| == NPROC
    ensures var x, y := s.procs[k], Apply(s, e).procs[k];
            && y.parent == x.parent && y.pid == x.pid && (Live(x) <==> Live(y))
            && (!Live(x) ==> y.state == x.state && y.at == x.at)
            && (y.at == x.at || (!x.at.Forking? && !y.at.Forking?))
            && (x.at.Forking? && y.state.Sleeping? ==> x.state.Sleeping?)
            && (y.state.Sleeping? ==> y == x || e == WaitSleep(k) || (e.Sleep? && e.p == k))
  {
  }

  lemma CalmFrame(s: Table, e: Event)
    requires Shape(s) && Enabled(s, e) && Calm(e)
    ensures var t := Apply(s, e); t.init == s.init && t.nextpid == s.nextpid && t.exited == s.exited && t.reaped == s.reaped
  {
  }

  lemma CalmFamily(s: Table, e: Event)
    requires Shape(s) && Enabled(s, e) && Calm(e)
    ensures SameFamily(s.procs, Apply(s, e).procs)
  {
    hide Apply, Enabled;
    CalmSlot(s, e, 0);
    var t := Apply(s, e).procs;
    forall k | 0 <= k < NPROC
      ensures && s.procs[k].parent == t[k].parent && s.procs[k].pid == t[k].pid
              && (Live(s.procs[k]) <==> Live(t[k])) && (!Live(s.procs[k]) ==> s.procs[k].state == t[k].state)
    {
      CalmSlot(s, e, k);
    }
  }

  /** A sleeper that stays as it is keeps sleeping well if its children did not change. */
  lemma SleeperKept(s: Table, t: Table, p: nat)
    requires Shape(s) && Shape(t) && p < NPROC && SleepsWell(s, p) && s.procs[p] == t.procs[p]
    requires HasChild(s.procs, p) ==> HasChild(t.procs, p)
    requires HasZombie(t.procs, p) ==> HasZombie(s.procs, p)
    ensures SleepsWell(t, p)
  {
  }

  lemma CalmKeeps(s: Table, e: Event)
    requires Inv(s) && Enabled(s, e) && Calm(e)
    ensures Inv(Apply(s, e))
  {
    hide Apply, Enabled, Tree, Vacant, Forks, WaitsWell, Pids, History;
    CalmFamily(s, e);
    CalmFrame(s, e);
    FamilyKeeps(s, Apply(s, e));
    CalmForks(s, e);
    CalmWaits(s, e);
  }

  lemma CalmForks(s: Table, e: Event)
    requires Inv(s) && Enabled(s, e) && Calm(e) && Shape(Apply(s, e))
    ensures Vacant(Apply(s, e)) && Forks(Apply(s, e))
  {
    hide Apply, Enabled, Tree, WaitsWell, Pids, History;
    var t := Apply(s, e);
    forall k | 0 <= k < NPROC
      ensures && t.procs[k].parent == s.procs[k].parent && t.procs[k].pid == s.procs[k].pid
              && (Live(s.procs[k]) <==> Live(t.procs[k]))
              && (!Live(s.procs[k]) ==> t.procs[k].state == s.procs[k].state && t.procs[k].at == s.procs[k].at)
              && (t.procs[k].at == s.procs[k].at || (!s.procs[k].at.Forking? && !t.procs[k].at.Forking?))
              && (s.procs[k].at.Forking? && t.procs[k].state.Sleeping? ==> s.procs[k].state.Sleeping?)
    {
      CalmSlot(s, e, k);
    }
    forall f | 0 <= f < NPROC && t.procs[f].at.Forking? ensures Owns(t, f, t.procs[f].at.np) {
      assert Owns(s, f, s.procs[f].at.np);
    }
  }

  lemma CalmWaits(s: Table, e: Event)
    requires Inv(s) && Enabled(s, e) && Calm(e) && Shape(Apply(s, e))
    requires SameFamily(s.procs, Apply(s, e).procs)
    ensures WaitsWell(Apply(s, e))
  {
    hide Tree, Vacant, Forks, Pids, History;
    var t := Apply(s, e);
    FamilyChildren(s.procs, t.procs);
    FamilyChildren(t.procs, s.procs);
    forall p | 0 <= p < NPROC && t.procs[p].state.Sleeping? ensures SleepsWell(t, p) {
      CalmSlot(s, e, p);
      if t.procs[p] == s.procs[p] {
        assert SleepsWell(s, p);
        SleeperKept(s, t, p);
      }
    }
  }

  // ---- fork ----

  lemma AllocVacant(s: Table, f: nat, i: nat)
    requires Inv(s) && Enabled(s, Alloc(f, i)) && Shape(Apply(s, Alloc(f, i)))
    ensures Vacant(Apply(s, Alloc(f, i)))
  {
    hide Tree, WaitsWell, Pids, History;
  }

  lemma AllocKeeps(s: Table, f: nat, i: nat)
    requires Inv(s) && Enabled(s, Alloc(f, i))
    ensures Inv(Apply(s, Alloc(f, i)))
  {
    hide Tree, WaitsWell, History;
    var t := Apply(s, Alloc(f, i));
    assert f != i && i != s.init;
    ForkTree(s, t, i);
    AllocVacant(s, f, i);
    AllocForks(s, f, i);
    OneSlotWaits(s, t, f, i);
    ForkHistory(s, t, i);
  }

  lemma AllocForks(s: Table, f: nat, i: nat)
    requires Inv(s) && Enabled(s, Alloc(f, i)) && Shape(Apply(s, Alloc(f, i)))
    ensures Forks(Apply(s, Alloc(f, i)))
  {
    hide Tree, WaitsWell, History;
    var t := Apply(s, Alloc(f, i));
    forall g | 0 <= g < NPROC && t.procs[g].at.Forking? ensures Owns(t, g, t.procs[g].at.np) {
      if g != f {
        assert Owns(s, g, s.procs[g].at.np);
      }
    }
  }

  /** A slot that holds no process changes hands without touching the tree. */
  lemma ForkTree(s: Table, t: Table, i: nat)
    requires Inv(s) && i < NPROC && i != s.init && t.init == s.init && |t.procs| == NPROC
    requires !Live(s.procs[i]) && !Live(t.procs[i]) && !s.procs[i].state.Zombie? && !t.procs[i].state.Zombie?
    requires forall k :: 0 <= k < NPROC && k != i ==>
               t.procs[k].state == s.procs[k].state && t.procs[k].pid == s.procs[k].pid && t.procs[k].parent == s.procs[k].parent
    ensures Shape(t) && Tree(t)
  {
    hide Vacant, Forks, WaitsWell, Pids, History;
    forall k | 0 <= k < NPROC && k != t.init && (Live(t.procs[k]) || t.procs[k].state.Zombie?) ensures HasParent(t, k) {
      assert HasParent(s, k);
    }
  }

  /** Only slot i, and where its forker f is, change; i is no one's zombie and its parent stays or becomes f. */
  lemma OneSlotWaits(s: Table, t: Table, f: nat, i: nat)
    requires Inv(s) && Shape(t) && f < NPROC && i < NPROC && f != i && s.procs[f].state.Running?
    requires t.procs == s.procs[i := t.procs[i]][f := s.procs[f].(at := t.procs[f].at)]
    requires !s.procs[i].state.Zombie? && !t.procs[i].state.Zombie? && !t.procs[i].state.Sleeping?
    requires t.procs[i].parent == s.procs[i].parent || (s.procs[i].parent == None && t.procs[i].parent == Some(f))
    ensures WaitsWell(t)
  {
    hide Tree, Vacant, Forks, Pids, History;
    forall p | 0 <= p < NPROC && t.procs[p].state.Sleeping? ensures SleepsWell(t, p) {
      assert p != f && p != i && SleepsWell(s, p);
      if HasChild(s.procs, p) {
        var k :| 0 <= k < NPROC && s.procs[k].parent == Some(p);
        assert t.procs[k].parent == Some(p);
      }
      if HasZombie(t.procs, p) {
        var k :| 0 <= k < NPROC && ZombieChild(t.procs, p, k);
        assert ZombieChild(s.procs, p, k);
      }
      SleeperKept(s, t, p);
    }
  }

  lemma ForkHistory(s: Table, t: Table, i: nat)
    requires Inv(s) && Shape(t) && i < NPROC && !s.procs[i].state.Zombie? && !t.procs[i].state.Zombie?
    requires t.exited == s.exited && t.reaped == s.reaped && s.nextpid <= t.nextpid
    requires t.procs[i].pid == s.procs[i].pid || t.procs[i].pid == s.nextpid < t.nextpid
    requires forall k :: 0 <= k < NPROC && k != i ==>
               t.procs[k].state == s.procs[k].state && t.procs[k].pid == s.procs[k].pid
    requires !t.procs[i].state.Unused? && t.procs[i].pid == s.procs[i].pid ==> !s.procs[i].state.Unused?
    ensures Pids(t) && History(t)
  {
    hide Tree, Vacant, Forks, WaitsWell;
    assert s.nextpid > 0;
    SameZombiePids(s, t);
  }

  lemma ForkFailVacant(s: Table, f: nat)
    requires Inv(s) && Enabled(s, ForkFail(f)) && Shape(Apply(s, ForkFail(f)))
    ensures Vacant(Apply(s, ForkFail(f)))
  {
    hide Tree, WaitsWell, Pids, History;
    assert Owns(s, f, s.procs[f].at.np);
  }

  lemma ForkFailKeeps(s: Table, f: nat)
    requires Inv(s) && Enabled(s, ForkFail(f))
    ensures Inv(Apply(s, ForkFail(f)))
  {
    hide Tree, WaitsWell, Pids, History;
    var t := Apply(s, ForkFail(f));
    var i := s.procs[f].at.np;
    assert Owns(s, f, i) && f != i && i != s.init;
    ForkTree(s, t, i);
    ForkFailVacant(s, f);
    ForkOthers(s, t, f, i);
    OneSlotWaits(s, t, f, i);
    ForkHistory(s, t, i);
  }

  lemma ForkNameVacant(s: Table, f: nat)
    requires Inv(s) && Enabled(s, ForkName(f)) && Shape(Apply(s, ForkName(f)))
    ensures Vacant(Apply(s, ForkName(f)))
  {
    hide Tree, WaitsWell, Pids, History;
    assert Owns(s, f, s.procs[f].at.np);
  }

  lemma ForkNameKeeps(s: Table, f: nat)
    requires Inv(s) && Enabled(s, ForkName(f))
    ensures Inv(Apply(s, ForkName(f)))
  {
    hide Tree, WaitsWell, Pids, History;
    var t := Apply(s, ForkName(f));
    var i := s.procs[f].at.np;
    assert Owns(s, f, i) && f != i && i != s.init;
    ForkTree(s, t, i);
    ForkNameVacant(s, f);
    ForkOthers(s, t, f, i);
    OneSlotWaits(s, t, f, i);
    ForkHistory(s, t, i);
  }

  /** The other forks still own their embryos. */
  lemma ForkOthers(s: Table, t: Table, f: nat, i: nat)
    requires Inv(s) && Shape(t) && f < NPROC && i < NPROC && f != i
    requires s.procs[f].at.Forking? && s.procs[f].at.np == i && !s.procs[i].at.Forking? && !t.procs[i].at.Forking?
    requires t.procs == s.procs[i := t.procs[i]][f := s.procs[f].(at := t.procs[f].at)]
    requires t.procs[i].pid == s.procs[i].pid
    requires t.procs[f].at.Elsewhere? ||
             (t.procs[f].at == Forking(i, true) && t.procs[i].state.Embryo? && t.procs[i].parent == Some(f))
    ensures Forks(t)
  {
    hide Tree, Vacant, WaitsWell, Pids, History;
    assert Owns(s, f, i);
    forall g | 0 <= g < NPROC && t.procs[g].at.Forking? ensures Owns(t, g, t.procs[g].at.np) {
      if g != f {
        assert Owns(s, g, s.procs[g].at.np);
      }
    }
  }

  lemma ForkRunVacant(s: Table, f: nat)
    requires Inv(s) && Enabled(s, ForkRun(f)) && Shape(Apply(s, ForkRun(f)))
    ensures Vacant(Apply(s, ForkRun(f)))
  {
    hide Tree, WaitsWell, Pids, History;
    assert Owns(s, f, s.procs[f].at.np);
  }

  lemma ForkRunKeeps(s: Table, f: nat)
    requires Inv(s) && Enabled(s, ForkRun(f))
    ensures Inv(Apply(s, ForkRun(f)))
  {
    hide Tree, WaitsWell, Pids, History;
    var t := Apply(s, ForkRun(f));
    var i := s.procs[f].at.np;
    assert Owns(s, f, i) && f != i && i != s.init;
    ForkRunTree(s, f);
    ForkRunVacant(s, f);
    ForkOthers(s, t, f, i);
    OneSlotWaits(s, t, f, i);
    ForkHistory(s, t, i);
  }

  lemma ForkRunTree(s: Table, f: nat)
    requires Inv(s) && Enabled(s, ForkRun(f))
    ensures Shape(Apply(s, ForkRun(f))) && Tree(Apply(s, ForkRun(f)))
  {
    hide Vacant, WaitsWell, Pids, History;
    var t := Apply(s, ForkRun(f));
    var i := s.procs[f].at.np;
    assert Owns(s, f, i);
    forall k | 0 <= k < NPROC && k != t.init && (Live(t.procs[k]) || t.procs[k].state.Zombie?) ensures HasParent(t, k) {
      if k != i {
        assert HasParent(s, k);
      }
    }
  }

  // ---- wait ----

  lemma ReapVacant(s: Table, p: nat, i: nat)
    requires Inv(s) && Enabled(s, Reap(p, i)) && Shape(Apply(s, Reap(p, i)))
    ensures Vacant(Apply(s, Reap(p, i)))
  {
    hide Tree, WaitsWell, Pids, History;
  }

  lemma ReapKeeps(s: Table, p: nat, i: nat)
    requires Inv(s) && Enabled(s, Reap(p, i))
    ensures Inv(Apply(s, Reap(p, i)))
  {
    hide Tree, WaitsWell, Pids, History;
    var t := Apply(s, Reap(p, i));
    assert p != i && i != s.init;
    ReapTree(s, p, i);
    ReapVacant(s, p, i);
    ReapForks(s, p, i);
    ReapWaits(s, p, i);
    ReapHistory(s, p, i);
  }

  lemma ReapTree(s: Table, p: nat, i: nat)
    requires Inv(s) && Enabled(s, Reap(p, i))
    ensures Shape(Apply(s, Reap(p, i))) && Tree(Apply(s, Reap(p, i)))
  {
    hide Vacant, Forks, WaitsWell, Pids, History;
    var t := Apply(s, Reap(p, i));
    forall k | 0 <= k < NPROC && k != t.init && (Live(t.procs[k]) || t.procs[k].state.Zombie?) ensures HasParent(t, k) {
      assert HasParent(s, k);
    }
  }

  lemma ReapForks(s: Table, p: nat, i: nat)
    requires Inv(s) && Enabled(s, Reap(p, i)) && Shape(Apply(s, Reap(p, i)))
    ensures Forks(Apply(s, Reap(p, i)))
  {
    hide Tree, WaitsWell, Pids, History;
    var t := Apply(s, Reap(p, i));
    forall g | 0 <= g < NPROC && t.procs[g].at.Forking? ensures Owns(t, g, t.procs[g].at.np) {
      assert Owns(s, g, s.procs[g].at.np);
    }
  }

  lemma ReapWaits(s: Table, p: nat, i: nat)
    requires Inv(s) && Enabled(s, Reap(p, i)) && Shape(Apply(s, Reap(p, i)))
    ensures WaitsWell(Apply(s, Reap(p, i)))
  {
    hide Tree, Vacant, Forks, Pids, History;
    var t := Apply(s, Reap(p, i));
    forall q | 0 <= q < NPROC && t.procs[q].state.Sleeping? ensures SleepsWell(t, q) {
      assert q != p && q != i && SleepsWell(s, q);
      if HasChild(s.procs, q) {
        var k :| 0 <= k < NPROC && s.procs[k].parent == Some(q);
        assert t.procs[k].parent == Some(q);
      }
      if HasZombie(t.procs, q) {
        var k :| 0 <= k < NPROC && ZombieChild(t.procs, q, k);
        assert ZombieChild(s.procs, q, k);
      }
      SleeperKept(s, t, q);
    }
  }

  lemma ReapHistory(s: Table, p: nat, i: nat)
    requires Inv(s) && Enabled(s, Reap(p, i)) && Shape(Apply(s, Reap(p, i)))
    ensures Pids(Apply(s, Reap(p, i))) && History(Apply(s, Reap(p, i)))
  {
    hide Tree, Vacant, Forks, WaitsWell;
    var t := Apply(s, Reap(p, i));
    var x0 := s.procs[i].pid;
    assert x0 !in s.reaped && IsZombiePid(s, x0);
    forall x ensures x in t.exited <==> x in t.reaped || IsZombiePid(t, x) {
      if IsZombiePid(s, x) && x != x0 {
        var k :| 0 <= k < NPROC && s.procs[k].state.Zombie? && s.procs[k].pid == x;
        assert t.procs[k].state.Zombie? && t.procs[k].pid == x;
      }
      if IsZombiePid(t, x) {
        var k :| 0 <= k < NPROC && t.procs[k].state.Zombie? && t.procs[k].pid == x;
        assert s.procs[k].state.Zombie? && s.procs[k].pid == x;
      }
    }
  }

  // ---- exit ----

  /** What exit does to one slot: adoption, perhaps a wakeup, and the exiting process itself. */
  lemma ExitSlot(s: Table, p: nat, k: nat)
    requires Inv(s) && Enabled(s, Exit(p)) && k < NPROC
    ensures |Apply(s, Exit(p)).procs| == NPROC
    ensures var x, y := s.procs[k], Apply(s, Exit(p)).procs[k];
            && y.parent == Adopted(x, p, s.init).parent && y.pid == x.pid && y.at == x.at && y.chan == x.chan && y.killed == x.killed
            && (k == p ==> y.state.Zombie?)
            && (k != p ==> y.state == x.state || (x.state.Sleeping? && y.state.Runnable?))
            && (k != p && x.state.Sleeping? ==>
                  (y.state.Sleeping? <==> x.chan != ProcChan(s.procs[p].parent.value) && (HasZombie(s.procs, p) ==> x.chan != ProcChan(s.init))))
  {
    hide Tree, Vacant, Forks, WaitsWell, Pids, History;
    var w := WokenAll(s.procs, ProcChan(s.procs[p].parent.value));
    SameZombies(s.procs, w, p);
  }

  lemma SameZombies(a: seq<Proc>, b: seq<Proc>, p: nat)
    requires |a| == |b|
    requires forall i :: 0 <= i < |a| ==> a[i].parent == b[i].parent && (a[i].state.Zombie? <==> b[i].state.Zombie?)
    ensures HasZombie(a, p) <==> HasZombie(b, p)
  {
    if HasZombie(a, p) {
      var i :| 0 <= i < |a| && ZombieChild(a, p, i);
      assert ZombieChild(b, p, i);
    }
    if HasZombie(b, p) {
      var i :| 0 <= i < |b| && ZombieChild(b, p, i);
      assert ZombieChild(a, p, i);
    }
  }

  lemma ExitKeeps(s: Table, p: nat)
    requires Inv(s) && Enabled(s, Exit(p))
    ensures Inv(Apply(s, Exit(p)))
  {
    var t := Apply(s, Exit(p));
    ExitTree(s, p);
    ExitVacant(s, p);
    ExitForks(s, p);
    ExitWaits(s, p);
    ExitPids(s, p);
    ExitHistory(s, p);
  }

  lemma ExitTree(s: Table, p: nat)
    requires Inv(s) && Enabled(s, Exit(p))
    ensures Shape(Apply(s, Exit(p))) && Tree(Apply(s, Exit(p)))
  {
    hide Apply, Vacant, Forks, WaitsWell, History;
    var t := Apply(s, Exit(p));
    assert t.init == s.init by { ExitFrame(s, p); }
    ExitSlot(s, p, s.init);
    forall k | 0 <= k < NPROC && k != t.init && (Live(t.procs[k]) || t.procs[k].state.Zombie?) ensures HasParent(t, k) {
      ExitSlot(s, p, k);
      assert HasParent(s, k);
      ExitSlot(s, p, s.procs[k].parent.value);
    }
  }

  lemma ExitFrame(s: Table, p: nat)
    requires Inv(s) && Enabled(s, Exit(p))
    ensures var t := Apply(s, Exit(p));
            t.init == s.init && t.nextpid == s.nextpid && t.exited == s.exited + [s.procs[p].pid] && t.reaped == s.reaped
  {
  }

  /** A fork in progress cannot be the one that exits, so embryos keep their owners. */
  lemma ExitVacant(s: Table, p: nat)
    requires Inv(s) && Enabled(s, Exit(p)) && Shape(Apply(s, Exit(p)))
    ensures Vacant(Apply(s, Exit(p)))
  {
    hide Apply, Tree, Forks, WaitsWell, Pids, History;
    var t := Apply(s, Exit(p));
    forall k | 0 <= k < NPROC
      ensures && t.procs[k].at == s.procs[k].at
              && (Live(t.procs[k]) <==> Live(s.procs[k]) && k != p)
              && (s.procs[k].state.Unused? || s.procs[k].state.Embryo? ==> t.procs[k].parent == s.procs[k].parent)
              && (t.procs[k].state.Unused? || t.procs[k].state.Embryo? ==> t.procs[k].state == s.procs[k].state)
    {
      ExitSlot(s, p, k);
    }
  }

  lemma ExitForks(s: Table, p: nat)
    requires Inv(s) && Enabled(s, Exit(p)) && Shape(Apply(s, Exit(p)))
    ensures Forks(Apply(s, Exit(p)))
  {
    hide Apply, Tree, WaitsWell, Pids, History;
    var t := Apply(s, Exit(p));
    forall k | 0 <= k < NPROC
      ensures && t.procs[k].at == s.procs[k].at && t.procs[k].pid == s.procs[k].pid
              && (s.procs[k].state.Embryo? ==> t.procs[k].parent == s.procs[k].parent && t.procs[k].state == s.procs[k].state)
              && (!s.procs[k].state.Sleeping? ==> !t.procs[k].state.Sleeping?)
    {
      ExitSlot(s, p, k);
    }
    forall g | 0 <= g < NPROC && t.procs[g].at.Forking? ensures Owns(t, g, t.procs[g].at.np) {
      assert Owns(s, g, s.procs[g].at.np);
    }
  }

  lemma ExitWaits(s: Table, p: nat)
    requires Inv(s) && Enabled(s, Exit(p)) && Shape(Apply(s, Exit(p)))
    ensures WaitsWell(Apply(s, Exit(p)))
  {
    hide Apply, Tree, Vacant, Forks, Pids, History;
    var t := Apply(s, Exit(p));
    forall q | 0 <= q < NPROC && t.procs[q].state.Sleeping? ensures SleepsWell(t, q) {
      ExitSlot(s, p, q);
      assert SleepsWell(s, q);
      if s.procs[q].at.Waiting? {
        ExitChildren(s, p, q);
      }
    }
  }

  /** A process still asleep in wait is neither the parent of p nor an init that inherits a zombie. */
  lemma ExitChildren(s: Table, p: nat, q: nat)
    requires Inv(s) && Enabled(s, Exit(p)) && Shape(Apply(s, Exit(p))) && q < NPROC && q != p
    requires HasChild(s.procs, q) && !HasZombie(s.procs, q)
    requires s.procs[p].parent != Some(q) && (HasZombie(s.procs, p) ==> q != s.init)
    ensures HasChild(Apply(s, Exit(p)).procs, q) && !HasZombie(Apply(s, Exit(p)).procs, q)
  {
    hide Apply, Vacant, Forks, WaitsWell, Pids, History;
    assert HasParent(s, p);
    var t := Apply(s, Exit(p));
    var c :| 0 <= c < NPROC && s.procs[c].parent == Some(q);
    ExitSlot(s, p, c);
    assert t.procs[c].parent == Some(q);
    forall k | 0 <= k < NPROC ensures !ZombieChild(t.procs, q, k) {
      ExitSlot(s, p, k);
      assert !ZombieChild(s.procs, q, k);
      assert ZombieChild(s.procs, p, k) ==> HasZombie(s.procs, p);
    }
  }

  lemma ExitPids(s: Table, p: nat)
    requires Inv(s) && Enabled(s, Exit(p)) && Shape(Apply(s, Exit(p)))
    ensures Pids(Apply(s, Exit(p)))
  {
    hide Apply, Tree, Vacant, Forks, WaitsWell, History;
    ExitFrame(s, p);
    var t := Apply(s, Exit(p));
    forall k | 0 <= k < NPROC
      ensures t.procs[k].pid == s.procs[k].pid && (s.procs[k].state.Unused? ==> t.procs[k].state.Unused?)
    {
      ExitSlot(s, p, k);
    }
  }

  lemma ExitHistory(s: Table, p: nat)
    requires Inv(s) && Enabled(s, Exit(p)) && Shape(Apply(s, Exit(p)))
    ensures History(Apply(s, Exit(p)))
  {
    hide Apply, Tree, Vacant, Forks, WaitsWell;
    ExitFrame(s, p);
    var t := Apply(s, Exit(p));
    forall k | 0 <= k < NPROC
      ensures t.procs[k].pid == s.procs[k].pid && (t.procs[k].state.Zombie? <==> s.procs[k].state.Zombie? || k == p)
    {
      ExitSlot(s, p, k);
    }
    assert IsZombiePid(t, s.procs[p].pid);
    forall x ensures IsZombiePid(t, x) <==> IsZombiePid(s, x) || x == s.procs[p].pid {
      if IsZombiePid(s, x) {
        var k :| 0 <= k < NPROC && s.procs[k].state.Zombie? && s.procs[k].pid == x;
        assert t.procs[k].state.Zombie? && t.procs[k].pid == x;
      }
      if IsZombiePid(t, x) {
        var k :| 0 <= k < NPROC && t.procs[k].state.Zombie? && t.procs[k].pid == x;
        assert k == p || s.procs[k].state.Zombie?;
      }
    }
  }

  lemma EventKeeps(s: Table, e: Event)
    requires Inv(s) && Enabled(s, e)
    ensures Inv(Apply(s, e))
  {
    hide Inv, Apply;
    match e
    case Alloc(f, i) => AllocKeeps(s, f, i);
    case ForkFail(f) => ForkFailKeeps(s, f);
    case ForkName(f) => ForkNameKeeps(s, f);
    case ForkRun(f) => ForkRunKeeps(s, f);
    case Exit(p) => ExitKeeps(s, p);
    case Reap(p, i) => ReapKeeps(s, p, i);
    case _ => CalmKeeps(s, e);
  }

  // ---- whole runs ----

  /** The table userinit leaves behind: init in the first slot, ready to run. */
  function Booted(): Table {
    Table(seq(NPROC, i => if i == 0 then Proc(Runnable, 1, None, NoChan, false, Elsewhere)
                          else Proc(Unused, 0, None, NoChan, false, Elsewhere)), 0, 2, [], [])
  }

  ghost predicate Run(tr: seq<Table>, es: seq<Event>) {
    && |tr| == |es| + 1 && tr[0] == Booted()
    && forall k :: 0 <= k < |es| ==> Enabled(tr[k], es[k]) && tr[k + 1] == Apply(tr[k], es[k])
  }

  lemma BootedInv()
    ensures Inv(Booted())
  {
    var s := Booted();
    assert Live(s.procs[0]);
    forall x ensures !IsZombiePid(s, x) {
    }
  }

  lemma {:induction false} RunKeeps(tr: seq<Table>, es: seq<Event>, k: nat)
    requires Run(tr, es) && k <= |es|
    ensures Inv(tr[k])
  {
    hide Inv, Apply, Enabled;
    if k == 0 {
      BootedInv();
    } else {
      RunKeeps(tr, es, k - 1);
      EventKeeps(tr[k - 1], es[k - 1]);
    }
  }

  /** Following parents from any process ends at init. */
  ghost function Root(s: Table, i: nat): (r: nat)
    requires Inv(s) && i < NPROC && (Live(s.procs[i]) || s.procs[i].state.Zombie?)
    ensures r == s.init
    decreases s.procs[i].pid
  {
    if i == s.init then i else
      assert HasParent(s, i);
      Root(s, s.procs[i].parent.value)
  }

  /** In every reachable table the parent of a live or zombie process is live. */
  lemma ParentLives(tr: seq<Table>, es: seq<Event>, k: nat, i: nat)
    requires Run(tr, es) && k <= |es| && i < NPROC
    ensures |tr[k].procs| == NPROC
    ensures (Live(tr[k].procs[i]) || tr[k].procs[i].state.Zombie?) && i != tr[k].init ==>
              && tr[k].procs[i].parent.Some? && tr[k].procs[i].parent.value < NPROC
              && Live(tr[k].procs[tr[k].procs[i].parent.value])
  {
    RunKeeps(tr, es, k);
    hide Vacant, Forks, WaitsWell, Pids, History, Run, Apply, Enabled;
    if (Live(tr[k].procs[i]) || tr[k].procs[i].state.Zombie?) && i != tr[k].init {
      assert HasParent(tr[k], i);
    }
  }

  /** In every reachable table a process asleep in wait has a child to wait for, and none of them is a
      zombie: its wakeup was not lost. */
  lemma WaitMissesNoExit(tr: seq<Table>, es: seq<Event>, k: nat, p: nat)
    requires Run(tr, es) && k <= |es| && p < |tr[k].procs|
    requires tr[k].procs[p].state.Sleeping? && tr[k].procs[p].at.Waiting?
    ensures HasChild(tr[k].procs, p) && !HasZombie(tr[k].procs, p) && !tr[k].procs[p].killed
  {
    RunKeeps(tr, es, k);
    hide Tree, Vacant, Forks, Pids, History, Run, Apply, Enabled;
    assert SleepsWell(tr[k], p);
  }

  /** Only wait takes a zombie away, and it records the pid it returns. */
  lemma ZombieStays(s: Table, e: Event, i: nat)
    requires Inv(s) && Enabled(s, e) && i < NPROC && s.procs[i].state.Zombie?
    ensures |Apply(s, e).procs| == NPROC
    ensures (Apply(s, e).procs[i].state.Zombie? && Apply(s, e).procs[i].pid == s.procs[i].pid) || (e.Reap? && e.i == i)
  {
    hide Tree, WaitsWell, Pids, History;
    if Calm(e) {
      CalmSlot(s, e, i);
    } else if e.Exit? {
      ExitSlot(s, e.p, i);
    } else if e.ForkFail? || e.ForkName? || e.ForkRun? {
      assert Owns(s, e.f, s.procs[e.f].at.np);
    }
  }

  predicate Returns(s: Table, e: Event, x: nat) {
    e.Reap? && e.i < |s.procs| && s.procs[e.i].pid == x
  }

  lemma ReapedGrows(s: Table, e: Event)
    requires Enabled(s, e)
    ensures Apply(s, e).reaped == if e.Reap? then s.reaped + [s.procs[e.i].pid] else s.reaped
  {
  }

  lemma {:induction false} ReapedKept(tr: seq<Table>, es: seq<Event>, m: nat, n: nat)
    requires Run(tr, es) && m <= n <= |es|
    ensures tr[m].reaped <= tr[n].reaped
  {
    if m < n {
      hide Apply, Enabled;
      ReapedKept(tr, es, m, n - 1);
      ReapedGrows(tr[n - 1], es[n - 1]);
    }
  }

  /** No two calls of wait return the same pid. */
  lemma ReturnedOnce(tr: seq<Table>, es: seq<Event>, j: nat, k: nat, x: nat)
    requires Run(tr, es) && j < k < |es|
    ensures !(Returns(tr[j], es[j], x) && Returns(tr[k], es[k], x))
  {
    if Returns(tr[j], es[j], x) && Returns(tr[k], es[k], x) {
      hide Apply, Enabled;
      ReapedGrows(tr[j], es[j]);
      ReapedGrows(tr[k], es[k]);
      ReapedKept(tr, es, j + 1, k);
      RunKeeps(tr, es, k + 1);
      TwiceIn(tr[k + 1].reaped, |tr[j].reaped|, |tr[k].reaped|);
      assert false;
    }
  }

  lemma TwiceIn(q: seq<nat>, a: nat, b: nat)
    requires a < b < |q| && q[a] == q[b]
    ensures !Distinct(q)
  {
  }

  lemma {:induction false} ZombieUntilReaped(tr: seq<Table>, es: seq<Event>, m: nat, n: nat, i: nat) returns (k: nat)
    requires Run(tr, es) && m <= n <= |es| && i < NPROC && |tr[m].procs| == NPROC && |tr[n].procs| == NPROC
    requires tr[m].procs[i].state.Zombie?
    requires !(tr[n].procs[i].state.Zombie? && tr[n].procs[i].pid == tr[m].procs[i].pid)
    ensures m <= k < n && es[k].Reap? && es[k].i == i && Returns(tr[k], es[k], tr[m].procs[i].pid)
    decreases n - m
  {
    hide Apply, Enabled, Inv;
    RunKeeps(tr, es, m);
    ZombieStays(tr[m], es[m], i);
    if es[m].Reap? && es[m].i == i {
      k := m;
    } else {
      k := ZombieUntilReaped(tr, es, m + 1, n, i);
    }
  }

  /** A slot that held a zombie holds something else only after one wait, and only one, returned its pid. */
  lemma ExitedReturnedExactlyOnce(tr: seq<Table>, es: seq<Event>, m: nat, n: nat, i: nat)
    requires Run(tr, es) && m <= n <= |es| && i < NPROC && |tr[m].procs| == NPROC && |tr[n].procs| == NPROC
    requires tr[m].procs[i].state.Zombie?
    requires !(tr[n].procs[i].state.Zombie? && tr[n].procs[i].pid == tr[m].procs[i].pid)
    ensures exists k :: && m <= k < n && es[k].Reap? && es[k].i == i && Returns(tr[k], es[k], tr[m].procs[i].pid)
                        && forall j :: 0 <= j < |es| && j != k ==> !Returns(tr[j], es[j], tr[m].procs[i].pid)
  {
    hide Apply, Enabled;
    var x := tr[m].procs[i].pid;
    var k := ZombieUntilReaped(tr, es, m, n, i);
    forall j | 0 <= j < |es| && j != k ensures !Returns(tr[j], es[j], x) {
      if j < k {
        ReturnedOnce(tr, es, j, k, x);
      } else {
        ReturnedOnce(tr, es, k, j, x);
      }
    }
  }

  // ---- kill ----

  /** kill(pid) takes the first slot with that pid: the process of that pid if there is one. When there is
      none it still succeeds on a vacant slot, with a pid left over from a failed fork or with pid 0. */
  lemma KillTarget(s: Table, i: nat)
    requires Inv(s) && Enabled(s, Kill(i))
    ensures s.procs[i].state.Unused? <==> forall j :: 0 <= j < NPROC && s.procs[j].pid == s.procs[i].pid ==> s.procs[j].state.Unused?
  {
    hide Tree, Vacant, Forks, WaitsWell, History;
  }

  /** The mark stays on the vacant slot: after kill(0) the first child of init is born killed. */
  lemma KillZeroMarksNextChild() returns (tr: seq<Table>)
    ensures Run(tr, [Kill(1), Schedule(0), Alloc(0, 1), ForkName(0), ForkRun(0)])
    ensures |tr[5].procs| == NPROC && Live(tr[5].procs[1]) && tr[5].procs[1].killed && tr[5].procs[1].pid == 2
  {
    var s0 := Booted();
    var s1 := Apply(s0, Kill(1));
    var s2 := Apply(s1, Schedule(0));
    var s3 := Apply(s2, Alloc(0, 1));
    var s4 := Apply(s3, ForkName(0));
    var s5 := Apply(s4, ForkRun(0));
    tr := [s0, s1, s2, s3, s4, s5];
  }

  // ---- the code ----

  lemma DoAlloc(s: Table, f: nat, i: nat)
    requires Inv(s) && f < NPROC && s.procs[f].state.Running? && s.procs[f].at.Elsewhere?
    requires i < NPROC && s.procs[i].state.Unused? && forall k :: 0 <= k < i ==> !s.procs[k].state.Unused?
    ensures Enabled(s, Alloc(f, i)) && Inv(Apply(s, Alloc(f, i)))
    ensures Apply(s, Alloc(f, i)) ==
            Table(s.procs[i := s.procs[i].(state := Embryo, pid := s.nextpid, at := Elsewhere)]
                         [f := s.procs[f].(at := Forking(i, false))], s.init, s.nextpid + 1, s.exited, s.reaped)
  {
    hide Inv;
    InvLength(s);
    EventKeeps(s, Alloc(f, i));
  }

  lemma DoneAlloc(s: Table, f: nat, i: nat)
    requires Enabled(s, Alloc(f, i))
    ensures f < |s.procs| && i < |s.procs| && f != i && s.procs[i].state.Unused?
    ensures Apply(s, Alloc(f, i)) ==
            Table(s.procs[i := s.procs[i].(state := Embryo, pid := s.nextpid, at := Elsewhere)]
                         [f := s.procs[f].(at := Forking(i, false))], s.init, s.nextpid + 1, s.exited, s.reaped)
  {
  }

  lemma DoForkFail(s: Table, f: nat)
    requires Inv(s) && f < NPROC && s.procs[f].state.Running? && s.procs[f].at.Forking? && !s.procs[f].at.named
    ensures s.procs[f].at.np < NPROC && s.procs[f].at.np != f
    ensures var i := s.procs[f].at.np;
            && Enabled(s, ForkFail(f)) && Inv(Apply(s, ForkFail(f)))
            && Apply(s, ForkFail(f)) == s.(procs := s.procs[i := s.procs[i].(state := Unused)][f := s.procs[f].(at := Elsewhere)])
  {
    hide Tree, Vacant, WaitsWell, Pids, History;
    assert Owns(s, f, s.procs[f].at.np);
    EventKeeps(s, ForkFail(f));
  }

  lemma DoForkName(s: Table, f: nat)
    requires Inv(s) && f < NPROC && s.procs[f].state.Running? && s.procs[f].at.Forking? && !s.procs[f].at.named
    ensures s.procs[f].at.np < NPROC && s.procs[f].at.np != f
    ensures var i := s.procs[f].at.np;
            && Enabled(s, ForkName(f)) && Inv(Apply(s, ForkName(f)))
            && Apply(s, ForkName(f)) == s.(procs := s.procs[i := s.procs[i].(parent := Some(f))][f := s.procs[f].(at := Forking(i, true))])
  {
    hide Tree, Vacant, WaitsWell, Pids, History;
    assert Owns(s, f, s.procs[f].at.np);
    EventKeeps(s, ForkName(f));
  }

  lemma DoForkRun(s: Table, f: nat)
    requires Inv(s) && f < NPROC && s.procs[f].state.Running? && s.procs[f].at.Forking? && s.procs[f].at.named
    ensures s.procs[f].at.np < NPROC && s.procs[f].at.np != f
    ensures var i := s.procs[f].at.np;
            && Enabled(s, ForkRun(f)) && Inv(Apply(s, ForkRun(f)))
            && Apply(s, ForkRun(f)) == s.(procs := s.procs[i := s.procs[i].(state := Runnable)][f := s.procs[f].(at := Elsewhere)])
  {
    hide Tree, Vacant, WaitsWell, Pids, History;
    assert Owns(s, f, s.procs[f].at.np);
    EventKeeps(s, ForkRun(f));
  }

  lemma DoExit(s: Table, p: nat)
    requires Inv(s) && p < NPROC && s.procs[p].state.Running? && s.procs[p].at.Elsewhere? && p != s.init && s.procs[p].parent.Some?
    ensures Enabled(s, Exit(p)) && Inv(Apply(s, Exit(p)))
    ensures var q := Orphaned(WokenAll(s.procs, ProcChan(s.procs[p].parent.value)), p, s.init);
            |q| == NPROC && Apply(s, Exit(p)) == Table(q[p := q[p].(state := Zombie)], s.init, s.nextpid, s.exited + [s.procs[p].pid], s.reaped)
  {
    hide Inv;
    InvLength(s);
    EventKeeps(s, Exit(p));
  }

  lemma DoReap(s: Table, p: nat, i: nat)
    requires Inv(s) && p < NPROC && s.procs[p].state.Running? && !s.procs[p].at.Forking?
    requires i < NPROC && ZombieChild(s.procs, p, i) && forall k :: 0 <= k < i ==> !ZombieChild(s.procs, p, k)
    ensures Enabled(s, Reap(p, i)) && Inv(Apply(s, Reap(p, i)))
    ensures Apply(s, Reap(p, i)) ==
            s.(procs := s.procs[i := s.procs[i].(state := Unused, pid := 0, parent := None, killed := false)]
                               [p := s.procs[p].(at := Elsewhere)], reaped := s.reaped + [s.procs[i].pid])
  {
    hide Inv;
    InvLength(s);
    EventKeeps(s, Reap(p, i));
  }

  lemma DoWait(s: Table, p: nat)
    requires Inv(s) && p < NPROC && s.procs[p].state.Running? && !s.procs[p].at.Forking? && !HasZombie(s.procs, p)
    ensures var e := if !HasChild(s.procs, p) || s.procs[p].killed then WaitFail(p) else WaitSleep(p);
            && Enabled(s, e) && Inv(Apply(s, e))
            && Apply(s, e) == s.(procs := s.procs[p := if e.WaitFail? then s.procs[p].(at := Elsewhere)
                                                       else s.procs[p].(state := Sleeping, chan := ProcChan(p), at := Waiting)])
  {
    hide Inv;
    InvLength(s);
    EventKeeps(s, if !HasChild(s.procs, p) || s.procs[p].killed then WaitFail(p) else WaitSleep(p));
  }

  lemma DoKill(s: Table, i: nat)
    requires Inv(s) && i < NPROC && forall k :: 0 <= k < i ==> s.procs[k].pid != s.procs[i].pid
    ensures Enabled(s, Kill(i)) && Inv(Apply(s, Kill(i)))
    ensures Apply(s, Kill(i)) ==
            s.(procs := s.procs[i := s.procs[i].(killed := true, state := if s.procs[i].state.Sleeping? then Runnable else s.procs[i].state)])
  {
    hide Inv;
    InvLength(s);
    EventKeeps(s, Kill(i));
  }

  datatype WaitResult = Child(pid: nat) | Failed | Asleep

  /** allocproc's loop. */
  method FirstUnused(procs: seq<Proc>) returns (i: nat)
    requires |procs| == NPROC
    ensures i <= NPROC && (i < NPROC ==> procs[i].state.Unused?)
    ensures forall k :: 0 <= k < i ==> !procs[k].state.Unused?
  {
    i := 0;
    while i < NPROC && !procs[i].state.Unused?
      invariant i <= NPROC && forall k :: 0 <= k < i ==> !procs[k].state.Unused?
    {
      i := i + 1;
    }
  }

  /** wait's loop: stops at the first zombie child. */
  method ScanChildren(procs: seq<Proc>, p: nat) returns (i: nat, havekids: bool)
    requires |procs| == NPROC
    ensures i <= NPROC && (i < NPROC ==> ZombieChild(procs, p, i))
    ensures forall k :: 0 <= k < i ==> !ZombieChild(procs, p, k)
    ensures i == NPROC ==> !HasZombie(procs, p) && (havekids <==> HasChild(procs, p))
  {
    havekids := false;
    i := 0;
    while i < NPROC
      invariant i <= NPROC
      invariant forall k :: 0 <= k < i ==> !ZombieChild(procs, p, k)
      invariant havekids <==> exists k :: 0 <= k < i && procs[k].parent == Some(p)
    {
      if procs[i].parent == Some(p) {
        havekids := true;
        if procs[i].state.Zombie? {
          break;
        }
      }
      i := i + 1;
    }
  }

  /** kill's loop. */
  method FindPid(procs: seq<Proc>, pid: nat) returns (i: nat)
    requires |procs| == NPROC
    ensures i <= NPROC && (i < NPROC ==> procs[i].pid == pid)
    ensures forall k :: 0 <= k < i ==> procs[k].pid != pid
  {
    i := 0;
    while i < NPROC && procs[i].pid != pid
      invariant i <= NPROC && forall k :: 0 <= k < i ==> procs[k].pid != pid
    {
      i := i + 1;
    }
  }

  class Ptable {
    var procs: seq<Proc>
    var init: nat
    var nextpid: nat
    ghost var exited: seq<nat>
    ghost var reaped: seq<nat>

    ghost function Now(): Table
      reads this
    {
      Table(procs, init, nextpid, exited, reaped)
    }

    constructor ()
      ensures Now() == Booted() && Inv(Now())
    {
      procs := seq(NPROC, i => if i == 0 then Proc(Runnable, 1, None, NoChan, false, Elsewhere)
                               else Proc(Unused, 0, None, NoChan, false, Elsewhere));
      init, nextpid, exited, reaped := 0, 2, [], [];
      new;
      assert procs == Booted().procs;
      BootedInv();
    }

    method Allocproc(f: nat) returns (r: Option<nat>)
      requires Inv(Now()) && f < |procs| && procs[f].state.Running? && procs[f].at.Elsewhere?
      modifies this`procs, this`nextpid
      ensures Inv(Now()) && |procs| == |old(procs)| == NPROC
      ensures r.None? <==> forall k :: 0 <= k < NPROC ==> !old(procs)[k].state.Unused?
      ensures r.None? ==> Now() == old(Now())
      ensures r.Some? ==> Enabled(old(Now()), Alloc(f, r.value)) && Now() == Apply(old(Now()), Alloc(f, r.value))
      ensures r.Some? ==> && r.value < NPROC && old(procs)[r.value].state.Unused? && forall k :: 0 <= k < r.value ==> !old(procs)[k].state.Unused?
      ensures r.Some? ==> && procs[r.value].state.Embryo? && procs[r.value].pid == old(nextpid) && nextpid == old(nextpid) + 1
                          && forall k :: 0 <= k < NPROC && k != r.value && k != f ==> procs[k] == old(procs)[k]
    {
      hide Inv, Enabled, Apply;
      InvLength(Now());
      var i := FirstUnused(procs);
      if i == NPROC {
        return None;
      }
      DoAlloc(Now(), f, i);
      procs := procs[i := procs[i].(state := Embryo, pid := nextpid, at := Elsewhere)];
      procs := procs[f := procs[f].(at := Forking(i, false))];
      nextpid := nextpid + 1;
      return Some(i);
    }

    /** fork, undisturbed: kalloc and copyuvm succeed or not as the parameters say. */
    method Fork(f: nat, stack: bool, memory: bool) returns (pid: Option<nat>, ghost i: nat)
      requires Inv(Now()) && f < |procs| && procs[f].state.Running? && procs[f].at.Elsewhere?
      modifies this`procs, this`nextpid
      ensures Inv(Now()) && |procs| == |old(procs)| == NPROC && i < NPROC
      ensures pid.Some? <==> stack && memory && exists k :: 0 <= k < NPROC && old(procs)[k].state.Unused?
      ensures nextpid == if exists k :: 0 <= k < NPROC && old(procs)[k].state.Unused? then old(nextpid) + 1 else old(nextpid)
      ensures pid.Some? ==> pid.value == old(nextpid) && IsChild(old(procs), procs, f, i, pid.value)
      ensures pid.None? ==> && (forall k :: 0 <= k < NPROC && k != i ==> procs[k] == old(procs)[k])
                            && (procs[i] == old(procs)[i] || (procs[i].state.Unused? && old(procs)[i].state.Unused?))
    {
      hide Inv, Enabled, Apply;
      InvLength(Now());
      i := 0;
      ghost var before := Now();
      var np := Allocproc(f);
      if np.None? {
        return None, 0;
      }
      i := np.value;
      DoneAlloc(before, f, i);
      assert old(procs)[i].state.Unused?;
      if !stack || !memory {
        DoForkFail(Now(), f);
        procs := procs[np.value := procs[np.value].(state := Unused)];
        procs := procs[f := procs[f].(at := Elsewhere)];
        return None, i;
      }
      pid := Some(procs[np.value].pid);
      FinishFork(f, np.value);
    }

    /** The last two stores of a successful fork. */
    method FinishFork(f: nat, i: nat)
      requires Inv(Now()) && f < |procs| && i < |procs| && f != i
      requires procs[f].state.Running? && procs[f].at == Forking(i, false)
      modifies this`procs
      ensures Inv(Now())
      ensures procs == old(procs)[i := old(procs)[i].(parent := Some(f), state := Runnable)][f := old(procs)[f].(at := Elsewhere)]
    {
      hide Inv, Enabled, Apply;
      InvLength(Now());
      DoForkName(Now(), f);
      procs := procs[i := procs[i].(parent := Some(f))];
      procs := procs[f := procs[f].(at := Forking(i, true))];
      DoForkRun(Now(), f);
      procs := procs[i := procs[i].(state := Runnable)];
      procs := procs[f := procs[f].(at := Elsewhere)];
    }

    method Wakeup1(ch: Chan)
      requires |procs| == NPROC
      modifies this`procs
      ensures procs == WokenAll(old(procs), ch)
      ensures |procs| == NPROC && forall k :: 0 <= k < NPROC ==>
                var x := old(procs)[k];
                procs[k] == if x.state.Sleeping? && x.chan == ch then x.(state := Runnable) else x
    {
      var i := 0;
      while i < NPROC
        invariant 0 <= i <= NPROC && |procs| == NPROC
        invariant forall k :: 0 <= k < i ==> procs[k] == Woken(old(procs)[k], ch)
        invariant forall k :: i <= k < NPROC ==> procs[k] == old(procs)[k]
      {
        if procs[i].state.Sleeping? && procs[i].chan == ch {
          procs := procs[i := procs[i].(state := Runnable)];
        }
        i := i + 1;
      }
    }

    /** exit from the acquire on; `ok` is false for the panic of an exiting init. */
    method ExitProc(p: nat) returns (ok: bool)
      requires Inv(Now()) && p < |procs| && procs[p].state.Running? && procs[p].at.Elsewhere?
      modifies this`procs, this`exited
      ensures Inv(Now()) && (ok <==> p != init)
      ensures !ok ==> Now() == old(Now())
      ensures ok ==> Enabled(old(Now()), Exit(p)) && Now() == Apply(old(Now()), Exit(p))
      ensures ok ==> |procs| == |old(procs)| == NPROC && ExitLeaves(old(procs), procs, p, init) && exited == old(exited) + [old(procs)[p].pid]
    {
      hide Inv, Enabled, Apply;
      InvLength(Now());
      if p == init {
        return false;
      }
      ParentOf(Now(), p);
      DoExit(Now(), p);
      exited := exited + [procs[p].pid];
      Wakeup1(ProcChan(procs[p].parent.value));
      PassToInit(p);
      procs := procs[p := procs[p].(state := Zombie)];
      ExitIs(old(procs), p, init);
      return true;
    }

    method PassToInit(p: nat)
      requires |procs| == NPROC && p < NPROC && p != init
      modifies this`procs
      ensures procs == Orphaned(old(procs), p, init)
      ensures |procs| == NPROC && forall k :: 0 <= k < NPROC ==>
                && procs[k].parent == (if old(procs)[k].parent == Some(p) then Some(init) else old(procs)[k].parent)
                && procs[k].state == (if old(procs)[k].state.Sleeping? && old(procs)[k].chan == ProcChan(init) && HasZombie(old(procs), p)
                                      then Runnable else old(procs)[k].state)
    {
      var i := 0;
      ghost var w := procs;
      while i < NPROC
        invariant 0 <= i <= NPROC && PartlyPassed(w, procs, p, init, i)
      {
        PassStep(w, procs, p, init, i);
        if procs[i].parent == Some(p) {
          procs := procs[i := procs[i].(parent := Some(init))];
          if procs[i].state.Zombie? {
            Wakeup1(ProcChan(init));
          }
        }
        i := i + 1;
      }
      PassedAll(w, procs, p, init);
    }

    /** One scan of the table by wait; e says which event it was. */
    method Wait(p: nat) returns (r: WaitResult, ghost e: Event)
      requires Inv(Now()) && p < |procs| && procs[p].state.Running? && !procs[p].at.Forking?
      modifies this`procs, this`reaped
      ensures r.Child? ==> e.Reap? && e.p == p && e.i < |old(procs)| && r.pid == old(procs)[e.i].pid
      ensures r.Failed? ==> e == WaitFail(p)
      ensures r.Asleep? ==> e == WaitSleep(p)
      ensures Enabled(old(Now()), e) && Now() == Apply(old(Now()), e)
      ensures Inv(Now())
      ensures r.Child? <==> HasZombie(old(procs), p)
      ensures r.Failed? <==> !HasZombie(old(procs), p) && (!HasChild(old(procs), p) || old(procs)[p].killed)
      ensures |procs| == |old(procs)| && forall k :: 0 <= k < |procs| && k != p && !(r.Child? && k == e.i) ==> procs[k] == old(procs)[k]
      ensures procs[p] == if r.Asleep? then old(procs)[p].(state := Sleeping, chan := ProcChan(p), at := Waiting) else old(procs)[p].(at := Elsewhere)
      ensures r.Child? ==> && ZombieChild(old(procs), p, e.i) && (forall k :: 0 <= k < e.i ==> !ZombieChild(old(procs), p, k))
                           && procs[e.i].state.Unused? && procs[e.i].pid == 0 && procs[e.i].parent.None? && !procs[e.i].killed
    {
      hide Inv, Enabled, Apply;
      InvLength(Now());
      var i, havekids := ScanChildren(procs, p);
      if i < NPROC {
        e := Reap(p, i);
        DoReap(Now(), p, i);
        r := Child(procs[i].pid);
        reaped := reaped + [procs[i].pid];
        procs := procs[i := procs[i].(state := Unused, pid := 0, parent := None, killed := false)];
        procs := procs[p := procs[p].(at := Elsewhere)];
      } else if !havekids || procs[p].killed {
        e := WaitFail(p);
        DoWait(Now(), p);
        r := Failed;
        procs := procs[p := procs[p].(at := Elsewhere)];
      } else {
        e := WaitSleep(p);
        DoWait(Now(), p);
        r := Asleep;
        procs := procs[p := procs[p].(state := Sleeping, chan := ProcChan(p), at := Waiting)];
      }
    }

    method KillPid(pid: nat) returns (found: bool, ghost i: nat)
      requires Inv(Now())
      modifies this`procs
      ensures found <==> exists k :: 0 <= k < |old(procs)| && old(procs)[k].pid == pid
      ensures !found ==> Now() == old(Now())
      ensures found ==> && i < |old(procs)| && old(procs)[i].pid == pid
                        && Enabled(old(Now()), Kill(i)) && Now() == Apply(old(Now()), Kill(i))
      ensures found ==> && |procs| == |old(procs)| && (forall k :: 0 <= k < i ==> old(procs)[k].pid != pid)
                        && (forall k :: 0 <= k < |procs| && k != i ==> procs[k] == old(procs)[k])
                        && procs[i].killed && !procs[i].state.Sleeping?
                        && (!old(procs)[i].state.Sleeping? ==> procs[i].state == old(procs)[i].state)
                        && (old(procs)[i].state.Sleeping? ==> procs[i].state.Runnable?)
                        && procs[i].(killed := old(procs)[i].killed, state := old(procs)[i].state) == old(procs)[i]
      ensures Inv(Now())
    {
      hide Inv, Enabled, Apply;
      InvLength(Now());
      var k := FindPid(procs, pid);
      if k == NPROC {
        return false, 0;
      }
      DoKill(Now(), k);
      var x := procs[k].(killed := true);
      if x.state.Sleeping? {
        x := x.(state := Runnable);
      }
      procs := procs[k := x];
      return true, k;
    }
  }

  lemma InvLength(s: Table)
    requires Inv(s)
    ensures |s.procs| == NPROC && s.init < NPROC
  {
  }

  lemma ParentOf(s: Table, p: nat)
    requires Inv(s) && p < NPROC && Live(s.procs[p]) && p != s.init
    ensures s.procs[p].parent.Some?
  {
    assert HasParent(s, p);
  }

  /** Slot i became the runnable child of f, and no other slot changed. */
  ghost predicate IsChild(a: seq<Proc>, b: seq<Proc>, f: nat, i: nat, pid: nat)
    requires i < |a| == |b|
  {
    && a[i].state.Unused? && b[i].state.Runnable? && b[i].parent == Some(f) && b[i].pid == pid && b[i].killed == a[i].killed
    && forall k :: 0 <= k < |a| && k != i ==> b[k] == a[k]
  }

  /** What an exit of p leaves in the table: p a zombie, its children with init, and awake whoever waits for
      it or, if it leaves a zombie, as init. */
  ghost predicate ExitLeaves(a: seq<Proc>, b: seq<Proc>, p: nat, init: nat) {
    && p < |a| == |b| && a[p].parent.Some? && b[p].state.Zombie?
    && (forall k :: 0 <= k < |a| ==>
          && b[k].parent == (if a[k].parent == Some(p) then Some(init) else a[k].parent)
          && b[k].pid == a[k].pid && b[k].killed == a[k].killed && b[k].chan == a[k].chan && b[k].at == a[k].at)
    && (forall k :: 0 <= k < |a| && k != p ==>
          b[k].state == if a[k].state.Sleeping? && (a[k].chan == ProcChan(a[p].parent.value) || (a[k].chan == ProcChan(init) && HasZombie(a, p)))
                        then Runnable else a[k].state)
  }

  lemma ExitIs(a: seq<Proc>, p: nat, init: nat)
    requires p < |a| && a[p].parent.Some? && !a[p].state.Sleeping?
    ensures var q := Orphaned(WokenAll(a, ProcChan(a[p].parent.value)), p, init);
            |q| == |a| && ExitLeaves(a, q[p := q[p].(state := Zombie)], p, init)
  {
    var w := WokenAll(a, ProcChan(a[p].parent.value));
    assert HasZombie(w, p) <==> HasZombie(a, p) by {
      if i :| 0 <= i < |a| && ZombieChild(a, p, i) { assert ZombieChild(w, p, i); }
      if i :| 0 <= i < |w| && ZombieChild(w, p, i) { assert ZombieChild(a, p, i); }
    }
  }

  ghost predicate ZombieBefore(w: seq<Proc>, p: nat, n: nat) {
    exists i :: 0 <= i < n && i < |w| && ZombieChild(w, p, i)
  }

  ghost function Passed(w: seq<Proc>, p: nat, init: nat, n: nat, k: nat): Proc
    requires k < |w|
  {
    var x := if k < n then Adopted(w[k], p, init) else w[k];
    if ZombieBefore(w, p, n) then Woken(x, ProcChan(init)) else x
  }

  ghost predicate PartlyPassed(w: seq<Proc>, q: seq<Proc>, p: nat, init: nat, n: nat) {
    |w| == NPROC && |q| == NPROC && forall k :: 0 <= k < NPROC ==> q[k] == Passed(w, p, init, n, k)
  }

  lemma PassStep(w: seq<Proc>, q: seq<Proc>, p: nat, init: nat, n: nat)
    requires PartlyPassed(w, q, p, init, n) && n < NPROC && p != init
    ensures q[n].parent == w[n].parent && (q[n].state.Zombie? <==> w[n].state.Zombie?)
    ensures var q1 := q[n := q[n].(parent := Some(init))];
            PartlyPassed(w, if q[n].parent != Some(p) then q else if w[n].state.Zombie? then WokenAll(q1, ProcChan(init)) else q1, p, init, n + 1)
  {
    assert ZombieBefore(w, p, n + 1) <==> ZombieBefore(w, p, n) || ZombieChild(w, p, n) by {
      if ZombieChild(w, p, n) {
        assert ZombieBefore(w, p, n + 1);
      }
      if ZombieBefore(w, p, n) {
        var i :| 0 <= i < n && i < |w| && ZombieChild(w, p, i);
        assert ZombieBefore(w, p, n + 1);
      }
    }
  }

  lemma PassedAll(w: seq<Proc>, q: seq<Proc>, p: nat, init: nat)
    requires PartlyPassed(w, q, p, init, NPROC)
    ensures q == Orphaned(w, p, init)
  {
    assert ZombieBefore(w, p, NPROC) <==> HasZombie(w, p);
  }
}
