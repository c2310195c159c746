/**
 What begin_trans and commit_trans get done: the steps that take a process into a transaction and out of it,
 to sleep and back, told by the states at their ends.
 */
module LogProgress {
  import opened Basics
  import opened LogLock

  /** These actions can be taken one after the other from s, and end in t. */
  ghost predicate Leads(s: State, acts: seq<Action>, t: State)
    decreases |acts|
  {
    if acts == [] then t == s else Enabled(s, acts[0]) && Leads(Next(s, acts[0]), acts[1..], t)
  }

  lemma {:induction false} LeadsOn(s: State, acts: seq<Action>, t: State, more: seq<Action>, u: State)
    requires Leads(s, acts, t) && Leads(t, more, u)
    ensures Leads(s, acts + more, u)
    decreases |acts|
  {
    hide Enabled, Next;
    if acts == [] {
      assert acts + more == more;
    } else {
      LeadsOn(Next(s, acts[0]), acts[1..], t, more, u);
      assert (acts + more)[1..] == acts[1..] + more;
    }
  }

  lemma LeadsOne(s: State, a: Action)
    requires Enabled(s, a)
    ensures Leads(s, [a], Next(s, a))
  {
    hide Next, Enabled;
    assert Leads(Next(s, a), [], Next(s, a));
  }

  /** n steps of p. */
  function Steps(p: nat, n: nat): seq<Action> {
    seq(n, i => Step(p))
  }

  /** One more step of p. */
  lemma LeadsStep(s: State, acts: seq<Action>, t: State, p: nat, n: nat)
    requires Leads(s, acts + Steps(p, n), t) && RunsAt(t, p)
    ensures Leads(s, acts + Steps(p, n + 1), ProcStep(t, p))
  {
    hide ProcStep;
    LeadsOne(t, Step(p));
    LeadsOn(s, acts + Steps(p, n), t, [Step(p)], ProcStep(t, p));
    assert acts + Steps(p, n + 1) == acts + Steps(p, n) + [Step(p)];
  }

  lemma LeadsFirst(s: State, a: Action, p: nat)
    requires Enabled(s, a)
    ensures Leads(s, [a] + Steps(p, 0), Next(s, a))
  {
    LeadsOne(s, a);
    assert [a] + Steps(p, 0) == [a];
  }

  /** p is at pc, running where it was in s; the locks, busy and the depth of pushcli are as given; all else is as
      in s. */
  ghost predicate At(s: State, t: State, p: nat, pc: Pc, log: Lock, pt: Lock, busy: bool, deeper: int) {
    && RunsAt(s, p)
    && var c := s.procs[p].st.cpu;
       t == State(s.procs[p := s.procs[p].(pc := pc)], s.cpus[c := s.cpus[c].(ncli := s.cpus[c].ncli + deeper)], log, pt, busy, s.panicked)
  }

  /** With the log free, begin_trans sets busy and is in. */
  lemma BeginGetsIn(s: State, p: nat) returns (t: State)
    requires Inv(s) && RunsAt(s, p) && s.procs[p].pc == Idle && !s.log.locked && !s.busy
    ensures Leads(s, [Begin(p)] + Steps(p, 4), t) && At(s, t, p, InTrans, Lock(false, 0), s.pt, true, 0)
  {
    hide Placed, LogHeld, PtHeld, Ownership, Awake, Leads;
    var c := s.procs[p].st.cpu;
    LeadsFirst(s, Begin(p), p);
    t := Next(s, Begin(p));
    assert At(s, t, p, BStart, s.log, s.pt, false, 0);
    LeadsStep(s, [Begin(p)], t, p, 0);
    t := ProcStep(t, p);
    assert At(s, t, p, BSpin, s.log, s.pt, false, 1);
    LeadsStep(s, [Begin(p)], t, p, 1);
    t := ProcStep(t, p);
    assert At(s, t, p, BTest, Lock(true, c), s.pt, false, 1);
    LeadsStep(s, [Begin(p)], t, p, 2);
    t := ProcStep(t, p);
    assert At(s, t, p, BRelease, Lock(true, c), s.pt, true, 1);
    LeadsStep(s, [Begin(p)], t, p, 3);
    t := ProcStep(t, p);
  }

  /** The table with everybody awake who slept. */
  ghost predicate AllAwake(s: State, w: State) {
    && w.procs.Keys == s.procs.Keys
    && forall q :: q in s.procs ==>
         w.procs[q] == if s.procs[q].st.Sleeping? then Proc(Runnable, s.procs[q].pc) else s.procs[q]
  }

  /** With both locks free, commit_trans clears busy and is out, and nobody sleeps on the log any more. */
  lemma CommitGetsOut(s: State, p: nat) returns (w: State, t: State)
    requires Inv(s) && RunsAt(s, p) && s.procs[p].pc == InTrans && !s.log.locked && !s.pt.locked
    ensures Leads(s, [Commit(p)] + Steps(p, 8), t)
    ensures AllAwake(s, w) && w == s.(procs := w.procs) && At(w, t, p, Idle, Lock(false, 0), Lock(false, 0), false, 0)
    ensures forall q :: q in t.procs ==> !t.procs[q].st.Sleeping?
  {
    hide Placed, LogHeld, PtHeld, Ownership, Awake, Leads;
    t := CommitClears(s, p);
    t := CommitScans(s, t, p);
    w := s.(procs := WakeAll(s.procs));
    t := CommitReleases(s, w, t, p);
    Awakened(s, w);
  }

  lemma CommitReleases(s: State, w: State, m: State, p: nat) returns (t: State)
    requires RunsAt(w, p) && w.cpus[w.procs[p].st.cpu].ncli == 0 && !w.panicked && Leads(s, [Commit(p)] + Steps(p, 6), m)
    requires At(w, m, p, WRelease, Lock(true, w.procs[p].st.cpu), Lock(true, w.procs[p].st.cpu), false, 2)
    ensures Leads(s, [Commit(p)] + Steps(p, 8), t) && At(w, t, p, Idle, Lock(false, 0), Lock(false, 0), false, 0)
  {
    hide Leads;
    var c, acts := w.procs[p].st.cpu, [Commit(p)];
    LeadsStep(s, acts, m, p, 6);
    t := ProcStep(m, p);
    assert At(w, t, p, CRelease, Lock(true, c), Lock(false, 0), false, 1);
    LeadsStep(s, acts, t, p, 7);
    t := ProcStep(t, p);
  }

  lemma Awakened(s: State, w: State)
    requires w == s.(procs := WakeAll(s.procs))
    ensures AllAwake(s, w) && forall q :: q in w.procs ==> !w.procs[q].st.Sleeping?
  {
  }

  lemma CommitScans(s: State, m: State, p: nat) returns (t: State)
    requires RunsAt(s, p) && !s.pt.locked && !s.panicked && s.cpus[s.procs[p].st.cpu].ncli == 0
    requires Leads(s, [Commit(p)] + Steps(p, 3), m) && At(s, m, p, WStart, Lock(true, s.procs[p].st.cpu), s.pt, false, 1)
    ensures Leads(s, [Commit(p)] + Steps(p, 6), t)
    ensures var c := s.procs[p].st.cpu;
            && RunsAt(s.(procs := WakeAll(s.procs)), p) && p in WakeAll(s.procs) && WakeAll(s.procs)[p] == s.procs[p]
            && At(s.(procs := WakeAll(s.procs)), t, p, WRelease, Lock(true, c), Lock(true, c), false, 2)
  {
    hide Leads;
    var c, acts := s.procs[p].st.cpu, [Commit(p)];
    LeadsStep(s, acts, m, p, 3);
    t := ProcStep(m, p);
    assert At(s, t, p, WSpin, Lock(true, c), s.pt, false, 2);
    LeadsStep(s, acts, t, p, 4);
    t := ProcStep(t, p);
    assert At(s, t, p, WScan, Lock(true, c), Lock(true, c), false, 2);
    LeadsStep(s, acts, t, p, 5);
    ScanAt(s, t, p);
    t := ProcStep(t, p);
  }

  lemma ScanAt(s: State, t: State, p: nat)
    requires RunsAt(s, p) && At(s, t, p, WScan, Lock(true, s.procs[p].st.cpu), Lock(true, s.procs[p].st.cpu), false, 2)
    ensures RunsAt(s.(procs := WakeAll(s.procs)), p) && WakeAll(s.procs)[p] == s.procs[p] && RunsAt(t, p)
    ensures var c := s.procs[p].st.cpu;
            At(s.(procs := WakeAll(s.procs)), ProcStep(t, p), p, WRelease, Lock(true, c), Lock(true, c), false, 2)
  {
    var w := WakeAll(s.procs);
    assert WakeAll(t.procs)[p := t.procs[p].(pc := WRelease)] == w[p := w[p].(pc := WRelease)];
  }

  lemma CommitClears(s: State, p: nat) returns (t: State)
    requires Inv(s) && RunsAt(s, p) && s.procs[p].pc == InTrans && !s.log.locked
    ensures Leads(s, [Commit(p)] + Steps(p, 3), t) && At(s, t, p, WStart, Lock(true, s.procs[p].st.cpu), s.pt, false, 1)
  {
    hide Placed, LogHeld, PtHeld, Ownership, Awake, Leads;
    var c, acts := s.procs[p].st.cpu, [Commit(p)];
    LeadsFirst(s, Commit(p), p);
    t := Next(s, Commit(p));
    assert At(s, t, p, CStart, s.log, s.pt, s.busy, 0);
    LeadsStep(s, acts, t, p, 0);
    t := ProcStep(t, p);
    assert At(s, t, p, CSpin, s.log, s.pt, s.busy, 1);
    LeadsStep(s, acts, t, p, 1);
    t := ProcStep(t, p);
    assert At(s, t, p, CClear, Lock(true, c), s.pt, s.busy, 1);
    LeadsStep(s, acts, t, p, 2);
    t := ProcStep(t, p);
  }

  /** p has left its processor in state st, to go on at pc; the processor's scheduler holds ptable.lock. */
  ghost predicate Off(s: State, t: State, p: nat, st: RunState, pc: Pc) {
    && RunsAt(s, p)
    && var c := s.procs[p].st.cpu;
       t == s.(procs := s.procs[p := Proc(st, pc)], cpus := s.cpus[c := Cpu(None, SHold, 1)], log := t.log, pt := Lock(true, c))
  }

  /** While another process is in, begin_trans goes to sleep with the log's lock released. */
  lemma BeginWaits(s: State, p: nat) returns (t: State)
    requires Inv(s) && RunsAt(s, p) && s.procs[p].pc == Idle && !s.log.locked && !s.pt.locked && s.busy
    ensures Leads(s, [Begin(p)] + Steps(p, 7), t) && Off(s, t, p, Sleeping, ZWoken) && !t.log.locked
  {
    hide Placed, LogHeld, PtHeld, Ownership, Awake, Leads;
    var c, acts := s.procs[p].st.cpu, [Begin(p)];
    LeadsFirst(s, Begin(p), p);
    t := Next(s, Begin(p));
    assert At(s, t, p, BStart, s.log, s.pt, true, 0);
    LeadsStep(s, acts, t, p, 0);
    t := ProcStep(t, p);
    assert At(s, t, p, BSpin, s.log, s.pt, true, 1);
    LeadsStep(s, acts, t, p, 1);
    t := ProcStep(t, p);
    assert At(s, t, p, BTest, Lock(true, c), s.pt, true, 1);
    t := TestSleeps(s, t, p, acts, 2);
  }

  /** From the test of busy to sleep. */
  lemma TestSleeps(s: State, m: State, p: nat, acts: seq<Action>, n: nat) returns (t: State)
    requires RunsAt(s, p) && Leads(s, acts + Steps(p, n), m) && !s.pt.locked && s.cpus[s.procs[p].st.cpu].ncli == 0 && !s.panicked
    requires s.busy
    requires At(s, m, p, BTest, Lock(true, s.procs[p].st.cpu), s.pt, true, 1)
    ensures Leads(s, acts + Steps(p, n + 5), t) && Off(s, t, p, Sleeping, ZWoken) && !t.log.locked
  {
    hide Leads;
    var c := s.procs[p].st.cpu;
    LeadsStep(s, acts, m, p, n);
    t := ProcStep(m, p);
    assert At(s, t, p, ZStart, Lock(true, c), s.pt, true, 1);
    LeadsStep(s, acts, t, p, n + 1);
    t := ProcStep(t, p);
    assert At(s, t, p, ZSpin, Lock(true, c), s.pt, true, 2);
    LeadsStep(s, acts, t, p, n + 2);
    t := ProcStep(t, p);
    assert At(s, t, p, ZRelease, Lock(true, c), Lock(true, c), true, 2);
    LeadsStep(s, acts, t, p, n + 3);
    t := ProcStep(t, p);
    assert At(s, t, p, ZSched, Lock(false, 0), Lock(true, c), true, 1);
    LeadsStep(s, acts, t, p, n + 4);
    t := ProcStep(t, p);
  }

  /** A scheduler with nobody to run takes ptable.lock when it is free ... */
  lemma SchedulerTakes(s: State, c: nat) returns (t: State)
    requires Inv(s) && c in s.cpus && s.cpus[c].cur.None? && s.cpus[c].spc.SStart? && !s.pt.locked
    ensures Leads(s, [Scheduler(c), Scheduler(c)], t)
    ensures t == s.(cpus := s.cpus[c := Cpu(None, SHold, 1)], pt := Lock(true, c))
  {
    hide Placed, LogHeld, PtHeld, Ownership, Awake;
    var m := Next(s, Scheduler(c));
    t := Next(m, Scheduler(c));
    LeadsOne(s, Scheduler(c));
    LeadsOne(m, Scheduler(c));
    LeadsOn(s, [Scheduler(c)], m, [Scheduler(c)], t);
  }

  /** ... and lets go of it. */
  lemma SchedulerReleases(s: State, c: nat) returns (t: State)
    requires Inv(s) && c in s.cpus && s.cpus[c].cur.None? && s.cpus[c].spc.SHold?
    ensures Leads(s, [Scheduler(c)], t) && t == s.(cpus := s.cpus[c := Cpu(None, SStart, 0)], pt := Lock(false, 0))
  {
    hide Placed, LogHeld, Ownership, Awake;
    LeadsOne(s, Scheduler(c));
    t := Next(s, Scheduler(c));
  }

  /** p runs on processor c, which was idle, at pc; ptable.lock is free again. */
  ghost predicate On(s: State, t: State, c: nat, p: nat, pc: Pc) {
    && c in s.cpus && p in s.procs
    && t == s.(procs := s.procs[p := Proc(Running(c), pc)], cpus := s.cpus[c := Cpu(Some(p), s.cpus[c].spc, 0)],
               log := t.log, pt := Lock(false, 0), busy := t.busy)
  }

  /** A sleeper that was woken, and is dispatched while the log is free, sets busy and is in. */
  lemma WokenGetsIn(s: State, c: nat, p: nat) returns (t: State)
    requires Inv(s) && c in s.cpus && s.cpus[c].cur.None? && s.cpus[c].spc.SHold?
    requires p in s.procs && s.procs[p] == Proc(Runnable, ZWoken) && !s.log.locked && !s.busy
    ensures Leads(s, [Dispatch(c, p)] + Steps(p, 6), t) && On(s, t, c, p, InTrans) && t.busy && !t.log.locked
  {
    hide Placed, LogHeld, Ownership, Awake, Leads;
    var acts := [Dispatch(c, p)];
    t := WokenAgain(s, c, p);
    LeadsStep(s, acts, t, p, 4);
    t := ProcStep(t, p);
    LeadsStep(s, acts, t, p, 5);
    t := ProcStep(t, p);
  }

  /** p runs on c, which was idle and held ptable.lock. */
  ghost predicate Back(s: State, t: State, c: nat, p: nat, pc: Pc, log: Lock, pt: Lock, ncli: int) {
    && c in s.cpus && p in s.procs
    && t == s.(procs := s.procs[p := Proc(Running(c), pc)], cpus := s.cpus[c := Cpu(Some(p), s.cpus[c].spc, ncli)], log := log, pt := pt)
  }

  lemma WokenAgain(s: State, c: nat, p: nat) returns (t: State)
    requires Inv(s) && c in s.cpus && s.cpus[c].cur.None? && s.cpus[c].spc.SHold?
    requires p in s.procs && s.procs[p] == Proc(Runnable, ZWoken) && !s.log.locked
    ensures Leads(s, [Dispatch(c, p)] + Steps(p, 4), t) && Back(s, t, c, p, BTest, Lock(true, c), Lock(false, 0), 1)
  {
    hide Leads;
    HoldsOne(s, c);
    hide Inv;
    var acts := [Dispatch(c, p)];
    LeadsFirst(s, Dispatch(c, p), p);
    t := Next(s, Dispatch(c, p));
    assert Back(s, t, c, p, ZWoken, s.log, Lock(true, c), 1);
    hide Next, Enabled;
    t := WokenUnlocks(s, t, c, p);
    t := WokenLocks(s, t, c, p);
  }

  lemma WokenUnlocks(s: State, m: State, c: nat, p: nat) returns (t: State)
    requires Leads(s, [Dispatch(c, p)] + Steps(p, 0), m) && Back(s, m, c, p, ZWoken, s.log, Lock(true, c), 1) && !s.panicked
    ensures Leads(s, [Dispatch(c, p)] + Steps(p, 2), t) && Back(s, t, c, p, ZAgain, s.log, Lock(false, 0), 0)
  {
    hide Leads;
    var acts := [Dispatch(c, p)];
    LeadsStep(s, acts, m, p, 0);
    t := ProcStep(m, p);
    assert Back(s, t, c, p, ZUnlock, s.log, Lock(true, c), 1);
    LeadsStep(s, acts, t, p, 1);
    t := ProcStep(t, p);
  }

  lemma WokenLocks(s: State, m: State, c: nat, p: nat) returns (t: State)
    requires Leads(s, [Dispatch(c, p)] + Steps(p, 2), m) && Back(s, m, c, p, ZAgain, s.log, Lock(false, 0), 0)
    requires !s.log.locked && !s.panicked
    ensures Leads(s, [Dispatch(c, p)] + Steps(p, 4), t) && Back(s, t, c, p, BTest, Lock(true, c), Lock(false, 0), 1)
  {
    hide Leads;
    var acts := [Dispatch(c, p)];
    LeadsStep(s, acts, m, p, 2);
    t := ProcStep(m, p);
    assert Back(s, t, c, p, ZAgainSpin, s.log, Lock(false, 0), 1);
    LeadsStep(s, acts, t, p, 3);
    t := ProcStep(t, p);
  }

  lemma HoldsOne(s: State, c: nat)
    requires Inv(s) && c in s.cpus && s.cpus[c].cur.None? && s.cpus[c].spc.SHold?
    ensures s.pt == Lock(true, c) && s.cpus[c].ncli == 1 && !s.panicked
  {
    hide Placed, LogHeld, Ownership, Awake;
  }

  /** A process preempted anywhere it may be leaves its processor ... */
  lemma YieldLeaves(s: State, p: nat) returns (t: State)
    requires Inv(s) && RunsAt(s, p) && Preemptible(s.procs[p].pc) && !s.pt.locked
    ensures Leads(s, [Yield(p)] + Steps(p, 3), t) && Off(s, t, p, Runnable, YResume(s.procs[p].pc)) && t.log == s.log
  {
    hide Leads;
    NoLocks(s, p);
    hide Inv;
    LeadsFirst(s, Yield(p), p);
    t := Next(s, Yield(p));
    hide Preemptible;
    assert At(s, t, p, YStart(s.procs[p].pc), s.log, s.pt, s.busy, 0);
    t := YieldGoes(s, t, p, s.procs[p].pc);
  }

  lemma NoLocks(s: State, p: nat)
    requires Inv(s) && RunsAt(s, p) && Preemptible(s.procs[p].pc)
    ensures s.cpus[s.procs[p].st.cpu].ncli == 0 && !s.panicked
  {
    hide Placed, LogHeld, PtHeld, Ownership, Awake;
  }

  lemma YieldGoes(s: State, m: State, p: nat, b: Pc) returns (t: State)
    requires RunsAt(s, p) && s.cpus[s.procs[p].st.cpu].ncli == 0 && !s.panicked && !s.pt.locked
    requires Leads(s, [Yield(p)] + Steps(p, 0), m) && At(s, m, p, YStart(b), s.log, s.pt, s.busy, 0)
    ensures Leads(s, [Yield(p)] + Steps(p, 3), t) && Off(s, t, p, Runnable, YResume(b)) && t.log == s.log
  {
    hide Leads;
    var c, acts := s.procs[p].st.cpu, [Yield(p)];
    LeadsStep(s, acts, m, p, 0);
    t := ProcStep(m, p);
    assert At(s, t, p, YSpin(b), s.log, s.pt, s.busy, 1);
    LeadsStep(s, acts, t, p, 1);
    t := ProcStep(t, p);
    assert At(s, t, p, YSched(b), s.log, Lock(true, c), s.busy, 1);
    LeadsStep(s, acts, t, p, 2);
    t := ProcStep(t, p);
  }

  /** ... and, dispatched again, goes on where it was. */
  lemma YieldReturns(s: State, c: nat, p: nat) returns (t: State)
    requires Inv(s) && c in s.cpus && s.cpus[c].cur.None? && s.cpus[c].spc.SHold?
    requires p in s.procs && s.procs[p].st.Runnable? && s.procs[p].pc.YResume?
    ensures Leads(s, [Dispatch(c, p)] + Steps(p, 1), t) && On(s, t, c, p, s.procs[p].pc.back) && t.log == s.log && t.busy == s.busy
  {
    hide Placed, LogHeld, Ownership, Awake, Leads;
    LeadsFirst(s, Dispatch(c, p), p);
    t := Next(s, Dispatch(c, p));
    LeadsStep(s, [Dispatch(c, p)], t, p, 0);
    t := ProcStep(t, p);
  }

  /** kill wakes its target and returns. */
  lemma KillWakes(s: State, p: nat, v: nat) returns (w: State, t: State)
    requires Inv(s) && RunsAt(s, p) && s.procs[p].pc == Idle && !s.pt.locked && v in s.procs && v != p
    ensures Leads(s, [LogLock.Kill(p, v)] + Steps(p, 4), t) && At(w, t, p, Idle, s.log, Lock(false, 0), s.busy, 0)
    ensures w == s.(procs := s.procs[v := if s.procs[v].st.Sleeping? then Proc(Runnable, s.procs[v].pc) else s.procs[v]])
  {
    hide Placed, LogHeld, PtHeld, Ownership, Awake, Leads;
    var c, acts := s.procs[p].st.cpu, [LogLock.Kill(p, v)];
    LeadsFirst(s, LogLock.Kill(p, v), p);
    t := Next(s, LogLock.Kill(p, v));
    assert At(s, t, p, KStart(v), s.log, s.pt, s.busy, 0);
    LeadsStep(s, acts, t, p, 0);
    t := ProcStep(t, p);
    assert At(s, t, p, KSpin(v), s.log, s.pt, s.busy, 1);
    LeadsStep(s, acts, t, p, 1);
    t := ProcStep(t, p);
    assert At(s, t, p, KDo(v), s.log, Lock(true, c), s.busy, 1);
    w := s.(procs := s.procs[v := if s.procs[v].st.Sleeping? then Proc(Runnable, s.procs[v].pc) else s.procs[v]]);
    t := KillReleases(s, w, t, p, v);
  }

  lemma KillReleases(s: State, w: State, m: State, p: nat, v: nat) returns (t: State)
    requires RunsAt(s, p) && v in s.procs && v != p && s.cpus[s.procs[p].st.cpu].ncli == 0 && !s.panicked
    requires Leads(s, [LogLock.Kill(p, v)] + Steps(p, 2), m) && At(s, m, p, KDo(v), s.log, Lock(true, s.procs[p].st.cpu), s.busy, 1)
    requires w == s.(procs := s.procs[v := if s.procs[v].st.Sleeping? then Proc(Runnable, s.procs[v].pc) else s.procs[v]])
    ensures Leads(s, [LogLock.Kill(p, v)] + Steps(p, 4), t) && At(w, t, p, Idle, s.log, Lock(false, 0), s.busy, 0)
  {
    hide Leads;
    var c, acts := s.procs[p].st.cpu, [LogLock.Kill(p, v)];
    LeadsStep(s, acts, m, p, 2);
    t := ProcStep(m, p);
    assert At(w, t, p, KRelease, s.log, Lock(true, c), s.busy, 1);
    LeadsStep(s, acts, t, p, 3);
    t := ProcStep(t, p);
  }

  // ---- no reachable state is stuck ----

  /** How many steps of its holder release ptable.lock. */
  ghost function PtSteps(pc: Pc): nat {
    match pc
    case ZRelease => 3
    case ZSched | ZWoken | WScan | KDo(_) | YSched(_) => 2
    case ZUnlock | WRelease | KRelease | YResume(_) => 1
    case _ => 0
  }

  /** And log.lock, when ptable.lock is free for it. */
  ghost function LogSteps(pc: Pc): nat {
    match pc
    case CClear => 6
    case BTest | WStart => 5
    case ZStart | WSpin => 4
    case ZSpin | WScan => 3
    case ZRelease | WRelease => 2
    case BRelease | CRelease => 1
    case _ => 0
  }

  ghost function Due(s: State): nat {
    (if s.log.locked && s.log.cpu in s.cpus && s.cpus[s.log.cpu].cur.Some? && s.cpus[s.log.cpu].cur.value in s.procs
     then 4 * LogSteps(s.procs[s.cpus[s.log.cpu].cur.value].pc) else 0)
    + (if !s.pt.locked then 0
       else if s.pt.cpu in s.cpus && s.cpus[s.pt.cpu].cur.Some? && s.cpus[s.pt.cpu].cur.value in s.procs
       then PtSteps(s.procs[s.cpus[s.pt.cpu].cur.value].pc) else 1)
  }

  /** The holder of ptable.lock, or else that of log.lock, can always take a step, and comes nearer to its end. */
  lemma HolderSteps(s: State) returns (a: Action)
    requires Inv(s) && (s.pt.locked || s.log.locked)
    ensures Enabled(s, a) && Due(Next(s, a)) < Due(s)
  {
    hide Nested, Ownership, Awake;
    if s.pt.locked && s.cpus[s.pt.cpu].cur.None? {
      a := Scheduler(s.pt.cpu);
    } else if s.pt.locked {
      var p := s.cpus[s.pt.cpu].cur.value;
      a := Step(p);
      PtHolderSteps(s, p);
    } else {
      var p := s.cpus[s.log.cpu].cur.value;
      a := Step(p);
      LogHolderSteps(s, p);
    }
  }

  lemma PtHolderSteps(s: State, p: nat)
    requires Placed(s) && LogHeld(s) && PtHeld(s) && s.pt.locked && s.cpus[s.pt.cpu].cur == Some(p)
    ensures RunsAt(s, p) && Due(ProcStep(s, p)) < Due(s)
  {
    hide Due, ProcStep;
    if s.procs[p].pc.ZSched? || s.procs[p].pc.YSched? {
      PtHolderLeaves(s, p);
    } else if HoldsLog(s.procs[p].pc) {
      PtHolderHasBoth(s, p);
    } else {
      PtHolderHasOne(s, p);
    }
  }

  lemma PtHolderLeaves(s: State, p: nat)
    requires Placed(s) && LogHeld(s) && s.pt.locked && s.pt.cpu in s.cpus && s.cpus[s.pt.cpu].cur == Some(p)
    requires p in s.procs && (s.procs[p].pc.ZSched? || s.procs[p].pc.YSched?)
    ensures RunsAt(s, p) && Due(ProcStep(s, p)) < Due(s)
  {
    hide HoldsPt, BackOk;
    var t := ProcStep(s, p);
    assert t.log == s.log && t.pt == s.pt && t.cpus[s.pt.cpu].cur.None?;
    if s.log.locked {
      assert s.log.cpu != s.pt.cpu;
    }
  }

  lemma PtHolderHasBoth(s: State, p: nat)
    requires Placed(s) && LogHeld(s) && s.pt.locked && s.pt.cpu in s.cpus && s.cpus[s.pt.cpu].cur == Some(p)
    requires p in s.procs && HoldsPt(s.procs[p].pc) && HoldsLog(s.procs[p].pc)
    ensures RunsAt(s, p) && Due(ProcStep(s, p)) < Due(s)
  {
    hide BackOk;
    assert s.log == Lock(true, s.pt.cpu);
  }

  lemma PtHolderHasOne(s: State, p: nat)
    requires Placed(s) && LogHeld(s) && s.pt.locked && s.pt.cpu in s.cpus && s.cpus[s.pt.cpu].cur == Some(p)
    requires p in s.procs && HoldsPt(s.procs[p].pc) && !HoldsLog(s.procs[p].pc) && !s.procs[p].pc.ZSched? && !s.procs[p].pc.YSched?
    ensures RunsAt(s, p) && Due(ProcStep(s, p)) < Due(s)
  {
    var t := ProcStep(s, p);
    OneStepOn(s, p);
    hide BackOk, HoldsPt, ProcStep, PtSteps, LogSteps;
    if s.log.locked {
      var q := s.cpus[s.log.cpu].cur.value;
      assert q != p;
      assert t.procs[q].pc == s.procs[q].pc;
    }
  }

  lemma OneStepOn(s: State, p: nat)
    requires RunsAt(s, p) && HoldsPt(s.procs[p].pc) && !HoldsLog(s.procs[p].pc) && !s.procs[p].pc.ZSched? && !s.procs[p].pc.YSched?
    ensures var t := ProcStep(s, p);
            && t.log == s.log && p in t.procs && t.cpus.Keys == s.cpus.Keys
            && (forall c :: c in s.cpus ==> t.cpus[c].cur == s.cpus[c].cur)
            && (forall q :: q in s.procs && q != p ==> q in t.procs && t.procs[q].pc == s.procs[q].pc)
            && (t.pt.locked ==> t.pt == s.pt && PtSteps(t.procs[p].pc) < PtSteps(s.procs[p].pc))
            && PtSteps(s.procs[p].pc) > 0
  {
  }

  lemma LogHolderSteps(s: State, p: nat)
    requires Placed(s) && LogHeld(s) && PtHeld(s) && !s.pt.locked && s.log.locked && s.cpus[s.log.cpu].cur == Some(p)
    ensures RunsAt(s, p) && Due(ProcStep(s, p)) < Due(s)
  {
  }

  /** From every reachable state some run frees both locks. */
  lemma {:induction false} LocksCanBeFreed(s: State) returns (acts: seq<Action>, t: State)
    requires Inv(s)
    ensures Leads(s, acts, t) && Inv(t) && !t.pt.locked && !t.log.locked
    decreases Due(s)
  {
    if !s.pt.locked && !s.log.locked {
      acts, t := [], s;
    } else {
      var a := HolderSteps(s);
      hide Inv, Enabled, Due, Next;
      StepKeeps(s, a);
      acts, t := LocksCanBeFreed(Next(s, a));
      LeadsOne(s, a);
      LeadsOn(s, [a], Next(s, a), acts, t);
      acts := [a] + acts;
    }
  }
}
