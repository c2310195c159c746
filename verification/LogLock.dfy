/**
 begin_trans and commit_trans as interleaved steps: any number of processes on any number of
 processors, the spin locks of spinlock.c, sleep and wakeup of proc.c, preemption by yield, and kill.
 swtch is an atomic hand-over of ptable.lock between a process and its processor's scheduler.
 */
module LogLock {
  import opened Basics

  /** A spin lock remembers the processor that took it. */
  datatype Lock = Lock(locked: bool, cpu: nat)

  /** Where a process is in the kernel. `Start` is before pushcli, `Spin` after it. */
  datatype Pc =
    | Idle
      // begin_trans
    | BStart | BSpin | BTest | BRelease
    | InTrans
      // sleep(&log, &log.lock)
    | ZStart | ZSpin | ZRelease | ZSched | ZWoken | ZUnlock | ZAgain | ZAgainSpin
      // commit_trans, with wakeup(&log)
    | CStart | CSpin | CClear | WStart | WSpin | WScan | WRelease | CRelease
      // yield, from a point with no lock held
    | YStart(back: Pc) | YSpin(back: Pc) | YSched(back: Pc) | YResume(back: Pc)
      // kill(pid)
    | KStart(target: nat) | KSpin(target: nat) | KDo(target: nat) | KRelease

  datatype RunState = Running(cpu: nat) | Runnable | Sleeping

  datatype Proc = Proc(st: RunState, pc: Pc)

  /** What a processor's scheduler is doing while no process runs on it. */
  datatype SchedPc = SStart | SSpin | SHold

  datatype Cpu = Cpu(cur: Option<nat>, spc: SchedPc, ncli: int)

  datatype State = State(procs: map<nat, Proc>, cpus: map<nat, Cpu>, log: Lock, pt: Lock, busy: bool, panicked: bool)

  // ---- spinlock.c ----

  predicate Holding(lk: Lock, c: nat) {
    lk.locked && lk.cpu == c
  }

  function AddCli(s: State, c: nat, d: int): State
    requires c in s.cpus
  {
    s.(cpus := s.cpus[c := s.cpus[c].(ncli := s.cpus[c].ncli + d)])
  }

  /** pushcli and the check for taking a lock twice. */
  function StartLog(s: State, c: nat): State
    requires c in s.cpus
  {
    AddCli(s, c, 1).(panicked := s.panicked || Holding(s.log, c))
  }

  function StartPt(s: State, c: nat): State
    requires c in s.cpus
  {
    AddCli(s, c, 1).(panicked := s.panicked || Holding(s.pt, c))
  }

  function TakeLog(s: State, c: nat): State { s.(log := Lock(true, c)) }

  function TakePt(s: State, c: nat): State { s.(pt := Lock(true, c)) }

  /** release and popcli. */
  function ReleaseLog(s: State, c: nat): State
    requires c in s.cpus
  {
    AddCli(s, c, -1).(log := Lock(false, 0), panicked := s.panicked || !Holding(s.log, c) || s.cpus[c].ncli <= 0)
  }

  function ReleasePt(s: State, c: nat): State
    requires c in s.cpus
  {
    AddCli(s, c, -1).(pt := Lock(false, 0), panicked := s.panicked || !Holding(s.pt, c) || s.cpus[c].ncli <= 0)
  }

  // ---- steps of a process ----

  function Goto(s: State, p: nat, pc: Pc): State
    requires p in s.procs
  {
    s.(procs := s.procs[p := s.procs[p].(pc := pc)])
  }

  /** sched: the process stops in state st and its processor's scheduler continues with ptable.lock. */
  function Sched(s: State, p: nat, c: nat, st: RunState, pc: Pc): State
    requires p in s.procs && c in s.cpus
  {
    s.(procs := s.procs[p := Proc(st, pc)],
       cpus := s.cpus[c := s.cpus[c].(cur := None, spc := SHold)],
       panicked := s.panicked || !Holding(s.pt, c) || s.cpus[c].ncli != 1 || st.Running?)
  }

  /** wakeup1(&log). */
  function WakeAll(procs: map<nat, Proc>): map<nat, Proc> {
    map p | p in procs :: if procs[p].st.Sleeping? then procs[p].(st := Runnable) else procs[p]
  }

  function WakeOne(procs: map<nat, Proc>, t: nat): map<nat, Proc> {
    if t in procs && procs[t].st.Sleeping? then procs[t := procs[t].(st := Runnable)] else procs
  }

  /** The next step of a running process; spinning processes may stay where they are. */
  function ProcStep(s: State, p: nat): State
    requires p in s.procs && s.procs[p].st.Running? && s.procs[p].st.cpu in s.cpus
  {
    var c := s.procs[p].st.cpu;
    match s.procs[p].pc
    case Idle => s
    case BStart => Goto(StartLog(s, c), p, BSpin)
    case BSpin => if s.log.locked then s else Goto(TakeLog(s, c), p, BTest)
    case BTest => if s.busy then Goto(s, p, ZStart) else Goto(s.(busy := true), p, BRelease)
    case BRelease => Goto(ReleaseLog(s, c), p, InTrans)
    case InTrans => s
    case ZStart => Goto(StartPt(s, c), p, ZSpin)
    case ZSpin => if s.pt.locked then s else Goto(TakePt(s, c), p, ZRelease)
    case ZRelease => Goto(ReleaseLog(s, c), p, ZSched)
    case ZSched => Sched(s, p, c, Sleeping, ZWoken)
    case ZWoken => Goto(s, p, ZUnlock)
    case ZUnlock => Goto(ReleasePt(s, c), p, ZAgain)
    case ZAgain => Goto(StartLog(s, c), p, ZAgainSpin)
    case ZAgainSpin => if s.log.locked then s else Goto(TakeLog(s, c), p, BTest)
    case CStart => Goto(StartLog(s, c), p, CSpin)
    case CSpin => if s.log.locked then s else Goto(TakeLog(s, c), p, CClear)
    case CClear => Goto(s.(busy := false), p, WStart)
    case WStart => Goto(StartPt(s, c), p, WSpin)
    case WSpin => if s.pt.locked then s else Goto(TakePt(s, c), p, WScan)
    case WScan => Goto(s.(procs := WakeAll(s.procs)), p, WRelease)
    case WRelease => Goto(ReleasePt(s, c), p, CRelease)
    case CRelease => Goto(ReleaseLog(s, c), p, Idle)
    case YStart(b) => Goto(StartPt(s, c), p, YSpin(b))
    case YSpin(b) => if s.pt.locked then s else Goto(TakePt(s, c), p, YSched(b))
    case YSched(b) => Sched(s, p, c, Runnable, YResume(b))
    case YResume(b) => Goto(ReleasePt(s, c), p, b)
    case KStart(t) => Goto(StartPt(s, c), p, KSpin(t))
    case KSpin(t) => if s.pt.locked then s else Goto(TakePt(s, c), p, KDo(t))
    case KDo(t) => Goto(s.(procs := WakeOne(s.procs, t)), p, KRelease)
    case KRelease => Goto(ReleasePt(s, c), p, Idle)
  }

  /** No lock is held and interrupts are on: a timer interrupt may call yield. */
  predicate Preemptible(pc: Pc) {
    pc.Idle? || pc.InTrans? || pc.BStart? || pc.CStart? || pc.ZAgain?
  }

  // ---- steps of a scheduler ----

  /** acquire(&ptable.lock) in two steps, and release(&ptable.lock), with no process current. */
  function SchedStep(s: State, c: nat): State
    requires c in s.cpus && s.cpus[c].cur.None?
  {
    var n := s.cpus[c].ncli;
    match s.cpus[c].spc
    case SStart => s.(cpus := s.cpus[c := Cpu(None, SSpin, n + 1)], panicked := s.panicked || Holding(s.pt, c))
    case SSpin => if s.pt.locked then s else s.(cpus := s.cpus[c := Cpu(None, SHold, n)], pt := Lock(true, c))
    case SHold =>
      s.(cpus := s.cpus[c := Cpu(None, SStart, n - 1)], pt := Lock(false, 0),
         panicked := s.panicked || !Holding(s.pt, c) || n <= 0)
  }

  /** The scheduler of c switches to p, handing over ptable.lock. */
  function Pick(s: State, c: nat, p: nat): State
    requires c in s.cpus && p in s.procs
  {
    s.(procs := s.procs[p := s.procs[p].(st := Running(c))],
       cpus := s.cpus[c := s.cpus[c].(cur := Some(p))])
  }

  datatype Action =
    | Step(p: nat)
    | Begin(p: nat) | Commit(p: nat) | Yield(p: nat) | Kill(p: nat, target: nat)
    | Scheduler(c: nat) | Dispatch(c: nat, p: nat)

  ghost predicate RunsAt(s: State, p: nat) {
    p in s.procs && s.procs[p].st.Running? && s.procs[p].st.cpu in s.cpus
  }

  ghost predicate Enabled(s: State, a: Action) {
    match a
    case Step(p) => RunsAt(s, p)
    case Begin(p) => RunsAt(s, p) && s.procs[p].pc == Idle
    case Commit(p) => RunsAt(s, p) && s.procs[p].pc == InTrans
    case Yield(p) => RunsAt(s, p) && Preemptible(s.procs[p].pc)
    case Kill(p, _) => RunsAt(s, p) && s.procs[p].pc == Idle
    case Scheduler(c) => c in s.cpus && s.cpus[c].cur.None?
    case Dispatch(c, p) =>
      && c in s.cpus && s.cpus[c].cur.None? && s.cpus[c].spc == SHold
      && p in s.procs && s.procs[p].st.Runnable?
  }

  ghost function Next(s: State, a: Action): State
    requires Enabled(s, a)
  {
    match a
    case Step(p) => ProcStep(s, p)
    case Begin(p) => Goto(s, p, BStart)
    case Commit(p) => Goto(s, p, CStart)
    case Yield(p) => Goto(s, p, YStart(s.procs[p].pc))
    case Kill(p, t) => Goto(s, p, KStart(t))
    case Scheduler(c) => SchedStep(s, c)
    case Dispatch(c, p) => Pick(s, c, p)
  }

  // ---- the invariant ----

  ghost predicate HoldsLog(pc: Pc) {
    pc.BTest? || pc.BRelease? || pc.ZStart? || pc.ZSpin? || pc.ZRelease? || pc.CClear? || pc.WStart? || pc.WSpin?
    || pc.WScan? || pc.WRelease? || pc.CRelease?
  }

  ghost predicate HoldsPt(pc: Pc) {
    pc.ZRelease? || pc.ZSched? || pc.ZWoken? || pc.ZUnlock? || pc.WScan? || pc.WRelease? || pc.YSched? || pc.YResume?
    || pc.KDo? || pc.KRelease?
  }

  ghost predicate Spins(pc: Pc) {
    pc.BSpin? || pc.ZSpin? || pc.ZAgainSpin? || pc.CSpin? || pc.WSpin? || pc.YSpin? || pc.KSpin?
  }

  /** How often pushcli is ahead of popcli. */
  ghost function Cli(pc: Pc): int {
    (if HoldsLog(pc) then 1 else 0) + (if HoldsPt(pc) then 1 else 0) + (if Spins(pc) then 1 else 0)
  }

  ghost function SchedCli(spc: SchedPc): int {
    if spc.SStart? then 0 else 1
  }

  /** Between the assignment busy = 1 and the assignment busy = 0. */
  ghost predicate Owns(pc: Pc) {
    match pc
    case BRelease | InTrans | CStart | CSpin | CClear => true
    case YStart(b) => Owns(b)
    case YSpin(b) => Owns(b)
    case YSched(b) => Owns(b)
    case YResume(b) => Owns(b)
    case _ => false
  }

  /** A process here has yet to run wakeup1(&log), and holds log.lock. */
  ghost predicate WakeDue(pc: Pc) {
    pc.WStart? || pc.WSpin? || pc.WScan?
  }

  ghost predicate BackOk(pc: Pc) {
    match pc
    case YStart(b) => Preemptible(b)
    case YSpin(b) => Preemptible(b)
    case YSched(b) => Preemptible(b)
    case YResume(b) => Preemptible(b)
    case _ => true
  }

  ghost predicate Placed(s: State) {
    && (forall p :: p in s.procs && s.procs[p].st.Running? ==>
          s.procs[p].st.cpu in s.cpus && s.cpus[s.procs[p].st.cpu].cur == Some(p))
    && (forall c :: c in s.cpus && s.cpus[c].cur.Some? ==>
          s.cpus[c].cur.value in s.procs && s.procs[s.cpus[c].cur.value].st == Running(c))
    && (forall p :: p in s.procs && s.procs[p].st.Sleeping? ==> s.procs[p].pc == ZWoken)
    && (forall p :: p in s.procs && s.procs[p].st.Runnable? ==> s.procs[p].pc == ZWoken || s.procs[p].pc.YResume?)
    && (forall p :: p in s.procs ==> BackOk(s.procs[p].pc))
  }

  /** log.lock is held by the process that is at a point holding it, on that processor. */
  ghost predicate LogHeld(s: State) {
    && (forall p :: p in s.procs && s.procs[p].st.Running? && HoldsLog(s.procs[p].pc) ==> s.log == Lock(true, s.procs[p].st.cpu))
    && (s.log.locked ==>
          && s.log.cpu in s.cpus && s.cpus[s.log.cpu].cur.Some?
          && s.cpus[s.log.cpu].cur.value in s.procs && HoldsLog(s.procs[s.cpus[s.log.cpu].cur.value].pc))
  }

  /** ptable.lock is held by such a process or by a scheduler. */
  ghost predicate PtHeld(s: State) {
    && (forall p :: p in s.procs && s.procs[p].st.Running? && HoldsPt(s.procs[p].pc) ==> s.pt == Lock(true, s.procs[p].st.cpu))
    && (forall c :: c in s.cpus && s.cpus[c].cur.None? && s.cpus[c].spc.SHold? ==> s.pt == Lock(true, c))
    && (s.pt.locked ==>
          && s.pt.cpu in s.cpus
          && (s.cpus[s.pt.cpu].cur.Some? ==>
                s.cpus[s.pt.cpu].cur.value in s.procs && HoldsPt(s.procs[s.cpus[s.pt.cpu].cur.value].pc))
          && (s.cpus[s.pt.cpu].cur.None? ==> s.cpus[s.pt.cpu].spc.SHold?))
  }

  /** ncli counts the locks held or being taken. */
  ghost predicate Nested(s: State) {
    && (forall p :: p in s.procs && s.procs[p].st.Running? && s.procs[p].st.cpu in s.cpus ==>
          s.cpus[s.procs[p].st.cpu].ncli == Cli(s.procs[p].pc))
    && (forall c :: c in s.cpus && s.cpus[c].cur.None? ==> s.cpus[c].ncli == SchedCli(s.cpus[c].spc))
  }

  ghost predicate Ownership(s: State) {
    && (forall p :: p in s.procs && Owns(s.procs[p].pc) ==> s.busy)
    && (forall p, q :: p in s.procs && q in s.procs && Owns(s.procs[p].pc) && Owns(s.procs[q].pc) ==> p == q)
    && (s.busy ==> exists p :: p in s.procs && Owns(s.procs[p].pc))
  }

  /** Nobody sleeps, or is on the way to sleep, on a free log without a wakeup being due. */
  ghost predicate Awake(s: State) {
    && (forall p :: p in s.procs && (s.procs[p].pc.ZStart? || s.procs[p].pc.ZSpin? || s.procs[p].pc.ZRelease?) ==> s.busy)
    && ((exists p :: p in s.procs && (s.procs[p].st.Sleeping? || s.procs[p].pc.ZSched?)) && !s.busy ==>
          exists q :: q in s.procs && s.procs[q].st.Running? && WakeDue(s.procs[q].pc))
  }

  ghost predicate Inv(s: State) {
    Placed(s) && LogHeld(s) && PtHeld(s) && Nested(s) && Ownership(s) && Awake(s) && !s.panicked
  }

  // ---- a step of one running process ----

  /** p, and only p, moves to another point; processors keep what they run. */
  ghost predicate Moved(s: State, t: State, p: nat) {
    && RunsAt(s, p) && p in t.procs
    && t.procs == s.procs[p := Proc(s.procs[p].st, t.procs[p].pc)]
    && t.cpus.Keys == s.cpus.Keys
    && (forall c :: c in s.cpus ==> t.cpus[c].cur == s.cpus[c].cur && t.cpus[c].spc == s.cpus[c].spc)
    && (forall c :: c in s.cpus && c != s.procs[p].st.cpu ==> t.cpus[c].ncli == s.cpus[c].ncli)
  }

  lemma MovedPlaced(s: State, t: State, p: nat)
    requires Placed(s) && Moved(s, t, p) && BackOk(t.procs[p].pc)
    ensures Placed(t)
  {
    hide BackOk;
  }

  lemma MovedLog(s: State, t: State, p: nat)
    requires Placed(s) && LogHeld(s) && Moved(s, t, p)
    requires if HoldsLog(t.procs[p].pc) then t.log == Lock(true, s.procs[p].st.cpu) && (HoldsLog(s.procs[p].pc) || !s.log.locked)
             else if HoldsLog(s.procs[p].pc) then !t.log.locked else t.log == s.log
    ensures LogHeld(t)
  {
    hide HoldsLog;
  }

  lemma MovedPt(s: State, t: State, p: nat)
    requires Placed(s) && PtHeld(s) && Moved(s, t, p)
    requires if HoldsPt(t.procs[p].pc) then t.pt == Lock(true, s.procs[p].st.cpu) && (HoldsPt(s.procs[p].pc) || !s.pt.locked)
             else if HoldsPt(s.procs[p].pc) then !t.pt.locked else t.pt == s.pt
    ensures PtHeld(t)
  {
    hide HoldsPt;
  }

  lemma MovedNested(s: State, t: State, p: nat)
    requires Placed(s) && Nested(s) && Moved(s, t, p) && t.cpus[s.procs[p].st.cpu].ncli == Cli(t.procs[p].pc)
    ensures Nested(t)
  {
    hide Cli;
  }

  lemma MovedOwns(s: State, t: State, p: nat)
    requires Ownership(s) && Moved(s, t, p)
    requires Owns(t.procs[p].pc) == Owns(s.procs[p].pc) ==> t.busy == s.busy
    requires Owns(t.procs[p].pc) && !Owns(s.procs[p].pc) ==> !s.busy && t.busy
    requires !Owns(t.procs[p].pc) && Owns(s.procs[p].pc) ==> !t.busy
    ensures Ownership(t)
  {
    hide Owns;
    if t.busy {
      if Owns(t.procs[p].pc) {
      } else {
        var q :| q in s.procs && Owns(s.procs[q].pc);
        assert q in t.procs && Owns(t.procs[q].pc);
      }
    }
  }

  ghost predicate Dozing(pc: Pc) {
    pc.ZStart? || pc.ZSpin? || pc.ZRelease?
  }

  lemma MovedAwake(s: State, t: State, p: nat)
    requires Placed(s) && LogHeld(s) && Awake(s) && Moved(s, t, p)
    requires Dozing(t.procs[p].pc) || t.procs[p].pc.ZSched? ==> t.busy
    requires s.busy && !t.busy ==> HoldsLog(s.procs[p].pc) && WakeDue(t.procs[p].pc)
    requires WakeDue(s.procs[p].pc) ==> WakeDue(t.procs[p].pc)
    ensures Awake(t)
  {
    hide WakeDue;
    forall q | q in t.procs && Dozing(t.procs[q].pc) ensures t.busy {
      if q != p {
        assert s.busy;
      }
    }
    if !t.busy && exists q :: q in t.procs && (t.procs[q].st.Sleeping? || t.procs[q].pc.ZSched?) {
      if s.busy {
        assert p in t.procs && t.procs[p].st.Running? && WakeDue(t.procs[p].pc);
      } else {
        var q :| q in t.procs && (t.procs[q].st.Sleeping? || t.procs[q].pc.ZSched?);
        assert q in s.procs && (s.procs[q].st.Sleeping? || s.procs[q].pc.ZSched?);
        var r :| r in s.procs && s.procs[r].st.Running? && WakeDue(s.procs[r].pc);
        assert r in t.procs && t.procs[r].st.Running? && WakeDue(t.procs[r].pc);
      }
    }
  }

  /** Everything a plain step of p has to respect. */
  lemma MovedInv(s: State, t: State, p: nat)
    requires Inv(s) && Moved(s, t, p) && BackOk(t.procs[p].pc) && !t.panicked
    requires if HoldsLog(t.procs[p].pc) then t.log == Lock(true, s.procs[p].st.cpu) && (HoldsLog(s.procs[p].pc) || !s.log.locked)
             else if HoldsLog(s.procs[p].pc) then !t.log.locked else t.log == s.log
    requires if HoldsPt(t.procs[p].pc) then t.pt == Lock(true, s.procs[p].st.cpu) && (HoldsPt(s.procs[p].pc) || !s.pt.locked)
             else if HoldsPt(s.procs[p].pc) then !t.pt.locked else t.pt == s.pt
    requires t.cpus[s.procs[p].st.cpu].ncli == Cli(t.procs[p].pc)
    requires Owns(t.procs[p].pc) == Owns(s.procs[p].pc) ==> t.busy == s.busy
    requires Owns(t.procs[p].pc) && !Owns(s.procs[p].pc) ==> !s.busy && t.busy
    requires !Owns(t.procs[p].pc) && Owns(s.procs[p].pc) ==> !t.busy
    requires Dozing(t.procs[p].pc) || t.procs[p].pc.ZSched? ==> t.busy
    requires s.busy && !t.busy ==> HoldsLog(s.procs[p].pc) && WakeDue(t.procs[p].pc)
    requires WakeDue(s.procs[p].pc) ==> WakeDue(t.procs[p].pc)
    ensures Inv(t)
  {
    hide Placed, LogHeld, PtHeld, Nested, Ownership, Awake, Moved;
    MovedPlaced(s, t, p);
    MovedLog(s, t, p);
    MovedPt(s, t, p);
    MovedNested(s, t, p);
    MovedOwns(s, t, p);
    MovedAwake(s, t, p);
  }

  /** What the invariant says about p's own processor and locks. */
  lemma OwnFacts(s: State, p: nat)
    requires Inv(s) && RunsAt(s, p)
    ensures var pc, c := s.procs[p].pc, s.procs[p].st.cpu;
            && s.cpus[c].ncli == Cli(pc) && BackOk(pc)
            && (HoldsLog(pc) <==> Holding(s.log, c)) && (HoldsPt(pc) <==> Holding(s.pt, c))
            && (Dozing(pc) ==> s.busy) && (Owns(pc) ==> s.busy)
  {
    hide HoldsLog, HoldsPt, Owns, BackOk, Cli;
  }

  /** A step from pc to pc2 that is neither a commit point nor a way around a due wakeup. */
  ghost predicate Mild(s: State, pc: Pc, pc2: Pc) {
    && BackOk(pc2) && Owns(pc2) == Owns(pc)
    && (Dozing(pc2) || pc2.ZSched? ==> s.busy)
    && (WakeDue(pc) ==> WakeDue(pc2))
  }

  /** No lock changes. */
  lemma GotoKind(s: State, p: nat, pc2: Pc)
    requires Inv(s) && RunsAt(s, p) && Mild(s, s.procs[p].pc, pc2)
    requires HoldsLog(pc2) == HoldsLog(s.procs[p].pc) && HoldsPt(pc2) == HoldsPt(s.procs[p].pc) && Spins(pc2) == Spins(s.procs[p].pc)
    ensures Inv(Goto(s, p, pc2))
  {
    hide Placed, LogHeld, PtHeld, Nested, Ownership, Awake, HoldsLog, HoldsPt, Spins, Owns, BackOk, WakeDue, Dozing;
    OwnFacts(s, p);
    MovedInv(s, Goto(s, p, pc2), p);
  }

  /** pushcli for log.lock. */
  lemma StartLogKind(s: State, p: nat, pc2: Pc)
    requires Inv(s) && RunsAt(s, p) && Mild(s, s.procs[p].pc, pc2)
    requires !HoldsLog(pc2) && !HoldsLog(s.procs[p].pc) && HoldsPt(pc2) == HoldsPt(s.procs[p].pc) && Spins(pc2) && !Spins(s.procs[p].pc)
    ensures Inv(Goto(StartLog(s, s.procs[p].st.cpu), p, pc2))
  {
    hide Placed, LogHeld, PtHeld, Nested, Ownership, Awake, HoldsLog, HoldsPt, Spins, Owns, BackOk, WakeDue, Dozing;
    OwnFacts(s, p);
    MovedInv(s, Goto(StartLog(s, s.procs[p].st.cpu), p, pc2), p);
  }

  /** pushcli for ptable.lock. */
  lemma StartPtKind(s: State, p: nat, pc2: Pc)
    requires Inv(s) && RunsAt(s, p) && Mild(s, s.procs[p].pc, pc2)
    requires !HoldsPt(pc2) && !HoldsPt(s.procs[p].pc) && HoldsLog(pc2) == HoldsLog(s.procs[p].pc) && Spins(pc2) && !Spins(s.procs[p].pc)
    ensures Inv(Goto(StartPt(s, s.procs[p].st.cpu), p, pc2))
  {
    hide Placed, LogHeld, PtHeld, Nested, Ownership, Awake, HoldsLog, HoldsPt, Spins, Owns, BackOk, WakeDue, Dozing;
    OwnFacts(s, p);
    MovedInv(s, Goto(StartPt(s, s.procs[p].st.cpu), p, pc2), p);
  }

  /** The exchange that takes log.lock. */
  lemma TakeLogKind(s: State, p: nat, pc2: Pc)
    requires Inv(s) && RunsAt(s, p) && Mild(s, s.procs[p].pc, pc2)
    requires !s.log.locked && HoldsLog(pc2) && !HoldsLog(s.procs[p].pc) && HoldsPt(pc2) == HoldsPt(s.procs[p].pc) && !Spins(pc2) && Spins(s.procs[p].pc)
    ensures Inv(Goto(TakeLog(s, s.procs[p].st.cpu), p, pc2))
  {
    hide Placed, LogHeld, PtHeld, Nested, Ownership, Awake, HoldsLog, HoldsPt, Spins, Owns, BackOk, WakeDue, Dozing;
    OwnFacts(s, p);
    MovedInv(s, Goto(TakeLog(s, s.procs[p].st.cpu), p, pc2), p);
  }

  /** The exchange that takes ptable.lock. */
  lemma TakePtKind(s: State, p: nat, pc2: Pc)
    requires Inv(s) && RunsAt(s, p) && Mild(s, s.procs[p].pc, pc2)
    requires !s.pt.locked && HoldsPt(pc2) && !HoldsPt(s.procs[p].pc) && HoldsLog(pc2) == HoldsLog(s.procs[p].pc) && !Spins(pc2) && Spins(s.procs[p].pc)
    ensures Inv(Goto(TakePt(s, s.procs[p].st.cpu), p, pc2))
  {
    hide Placed, LogHeld, PtHeld, Nested, Ownership, Awake, HoldsLog, HoldsPt, Spins, Owns, BackOk, WakeDue, Dozing;
    OwnFacts(s, p);
    MovedInv(s, Goto(TakePt(s, s.procs[p].st.cpu), p, pc2), p);
  }

  /** release(&log.lock). */
  lemma ReleaseLogKind(s: State, p: nat, pc2: Pc)
    requires Inv(s) && RunsAt(s, p) && Mild(s, s.procs[p].pc, pc2)
    requires !HoldsLog(pc2) && HoldsLog(s.procs[p].pc) && HoldsPt(pc2) == HoldsPt(s.procs[p].pc) && Spins(pc2) == Spins(s.procs[p].pc)
    ensures Inv(Goto(ReleaseLog(s, s.procs[p].st.cpu), p, pc2))
  {
    hide Placed, LogHeld, PtHeld, Nested, Ownership, Awake, HoldsLog, HoldsPt, Spins, Owns, BackOk, WakeDue, Dozing;
    OwnFacts(s, p);
    MovedInv(s, Goto(ReleaseLog(s, s.procs[p].st.cpu), p, pc2), p);
  }

  /** release(&ptable.lock). */
  lemma ReleasePtKind(s: State, p: nat, pc2: Pc)
    requires Inv(s) && RunsAt(s, p) && Mild(s, s.procs[p].pc, pc2)
    requires !HoldsPt(pc2) && HoldsPt(s.procs[p].pc) && HoldsLog(pc2) == HoldsLog(s.procs[p].pc) && Spins(pc2) == Spins(s.procs[p].pc)
    ensures Inv(Goto(ReleasePt(s, s.procs[p].st.cpu), p, pc2))
  {
    hide Placed, LogHeld, PtHeld, Nested, Ownership, Awake, HoldsLog, HoldsPt, Spins, Owns, BackOk, WakeDue, Dozing;
    OwnFacts(s, p);
    MovedInv(s, Goto(ReleasePt(s, s.procs[p].st.cpu), p, pc2), p);
  }

  /** The test of log.busy that succeeds: p becomes the owner. */
  lemma OwnKind(s: State, p: nat)
    requires Inv(s) && RunsAt(s, p) && s.procs[p].pc == BTest && !s.busy
    ensures Inv(Goto(s.(busy := true), p, BRelease))
  {
    hide Placed, LogHeld, PtHeld, Nested, Ownership, Awake;
    OwnFacts(s, p);
    MovedInv(s, Goto(s.(busy := true), p, BRelease), p);
  }

  /** log.busy = 0: the owner lets go, and from here on its wakeup is due. */
  lemma DisownKind(s: State, p: nat)
    requires Inv(s) && RunsAt(s, p) && s.procs[p].pc == CClear
    ensures Inv(Goto(s.(busy := false), p, WStart))
  {
    hide Placed, LogHeld, PtHeld, Nested, Ownership, Awake;
    OwnFacts(s, p);
    MovedInv(s, Goto(s.(busy := false), p, WStart), p);
  }

  /** begin_trans, and the points a process leaves by its own choice. */
  lemma BeginStep(s: State, p: nat)
    requires Inv(s) && RunsAt(s, p)
    requires var pc := s.procs[p].pc; pc.Idle? || pc.InTrans? || pc.BStart? || pc.BSpin? || pc.BTest? || pc.BRelease?
    ensures Inv(ProcStep(s, p))
  {
    hide Inv, Goto, StartLog, StartPt, TakeLog, TakePt, ReleaseLog, ReleasePt;
    OwnFacts(s, p);
    match s.procs[p].pc {
      case Idle | InTrans =>
      case BStart => StartLogKind(s, p, BSpin);
      case BSpin => if !s.log.locked { TakeLogKind(s, p, BTest); }
      case BTest => if s.busy { GotoKind(s, p, ZStart); } else { OwnKind(s, p); }
      case BRelease => ReleaseLogKind(s, p, InTrans);
    }
  }

  /** sleep, before and after the switch. */
  lemma SleepStep(s: State, p: nat)
    requires Inv(s) && RunsAt(s, p)
    requires var pc := s.procs[p].pc; Dozing(pc) || pc.ZWoken? || pc.ZUnlock? || pc.ZAgain? || pc.ZAgainSpin?
    ensures Inv(ProcStep(s, p))
  {
    hide Inv, Goto, StartLog, StartPt, TakeLog, TakePt, ReleaseLog, ReleasePt;
    OwnFacts(s, p);
    match s.procs[p].pc {
      case ZStart => StartPtKind(s, p, ZSpin);
      case ZSpin => if !s.pt.locked { TakePtKind(s, p, ZRelease); }
      case ZRelease => ReleaseLogKind(s, p, ZSched);
      case ZWoken => GotoKind(s, p, ZUnlock);
      case ZUnlock => ReleasePtKind(s, p, ZAgain);
      case ZAgain => StartLogKind(s, p, ZAgainSpin);
      case ZAgainSpin => if !s.log.locked { TakeLogKind(s, p, BTest); }
    }
  }

  /** commit_trans, except for the scan. */
  lemma CommitStep(s: State, p: nat)
    requires Inv(s) && RunsAt(s, p)
    requires var pc := s.procs[p].pc; pc.CStart? || pc.CSpin? || pc.CClear? || pc.WStart? || pc.WSpin? || pc.WRelease? || pc.CRelease?
    ensures Inv(ProcStep(s, p))
  {
    hide Inv, Goto, StartLog, StartPt, TakeLog, TakePt, ReleaseLog, ReleasePt;
    OwnFacts(s, p);
    match s.procs[p].pc {
      case CStart => StartLogKind(s, p, CSpin);
      case CSpin => if !s.log.locked { TakeLogKind(s, p, CClear); }
      case CClear => DisownKind(s, p);
      case WStart => StartPtKind(s, p, WSpin);
      case WSpin => if !s.pt.locked { TakePtKind(s, p, WScan); }
      case WRelease => ReleasePtKind(s, p, CRelease);
      case CRelease => ReleaseLogKind(s, p, Idle);
    }
  }

  /** yield and kill, except for the switch and the scan. */
  lemma YieldStep(s: State, p: nat)
    requires Inv(s) && RunsAt(s, p)
    requires var pc := s.procs[p].pc; pc.YStart? || pc.YSpin? || pc.YResume? || pc.KStart? || pc.KSpin? || pc.KRelease?
    ensures Inv(ProcStep(s, p))
  {
    hide Inv, Goto, StartLog, StartPt, TakeLog, TakePt, ReleaseLog, ReleasePt;
    OwnFacts(s, p);
    match s.procs[p].pc {
      case YStart(b) => StartPtKind(s, p, YSpin(b));
      case YSpin(b) => if !s.pt.locked { TakePtKind(s, p, YSched(b)); }
      case YResume(b) => ReleasePtKind(s, p, b);
      case KStart(t) => StartPtKind(s, p, KSpin(t));
      case KSpin(t) => if !s.pt.locked { TakePtKind(s, p, KDo(t)); }
      case KRelease => ReleasePtKind(s, p, Idle);
    }
  }

  // ---- the scans ----

  /** Some sleepers of s are runnable in t; nothing else differs. */
  ghost predicate Woken(s: State, t: State) {
    && t == s.(procs := t.procs) && t.procs.Keys == s.procs.Keys
    && forall q :: q in s.procs ==>
         t.procs[q].pc == s.procs[q].pc
         && (t.procs[q].st == s.procs[q].st || (s.procs[q].st.Sleeping? && t.procs[q].st.Runnable?))
  }

  lemma WokenPlaced(s: State, t: State)
    requires Placed(s) && Woken(s, t)
    ensures Placed(t)
  {
    hide BackOk;
  }

  lemma WokenLocks(s: State, t: State)
    requires Placed(s) && LogHeld(s) && PtHeld(s) && Woken(s, t)
    ensures LogHeld(t) && PtHeld(t)
  {
    hide HoldsLog, HoldsPt;
  }

  lemma WokenNested(s: State, t: State)
    requires Nested(s) && Ownership(s) && Woken(s, t)
    ensures Nested(t) && Ownership(t)
  {
    hide Cli, Owns;
    if t.busy {
      var q :| q in s.procs && Owns(s.procs[q].pc);
      assert q in t.procs && Owns(t.procs[q].pc);
    }
  }

  lemma WokenAwake(s: State, t: State)
    requires Awake(s) && Woken(s, t)
    ensures Awake(t)
  {
    hide WakeDue;
    if !t.busy && exists q :: q in t.procs && (t.procs[q].st.Sleeping? || t.procs[q].pc.ZSched?) {
      var q :| q in t.procs && (t.procs[q].st.Sleeping? || t.procs[q].pc.ZSched?);
      assert q in s.procs && (s.procs[q].st.Sleeping? || s.procs[q].pc.ZSched?);
      var r :| r in s.procs && s.procs[r].st.Running? && WakeDue(s.procs[r].pc);
      assert r in t.procs && t.procs[r].st.Running? && WakeDue(t.procs[r].pc);
    }
  }

  /** Waking sleepers disturbs no lock and no owner. */
  lemma WokenInv(s: State, t: State)
    requires Inv(s) && Woken(s, t)
    ensures Inv(t)
  {
    hide Placed, LogHeld, PtHeld, Nested, Ownership, Awake;
    WokenPlaced(s, t);
    WokenLocks(s, t);
    WokenNested(s, t);
    WokenAwake(s, t);
  }

  /** Nobody sleeps on the log or is about to. */
  ghost predicate AllUp(s: State) {
    forall q :: q in s.procs ==> !s.procs[q].st.Sleeping? && !s.procs[q].pc.ZSched?
  }

  /** While p is at the scan it holds ptable.lock, so nobody else is on the way into sched. */
  lemma ScanAlone(s: State, p: nat, q: nat)
    requires Placed(s) && PtHeld(s) && RunsAt(s, p) && s.procs[p].pc == WScan && q in s.procs
    ensures !s.procs[q].pc.ZSched?
  {
  }

  lemma AllUpAwake(s: State)
    requires AllUp(s) && forall q :: q in s.procs ==> !Dozing(s.procs[q].pc) || s.busy
    ensures Awake(s)
  {
  }

  lemma DozersNeedBusy(s: State)
    requires Awake(s)
    ensures forall q :: q in s.procs ==> !Dozing(s.procs[q].pc) || s.busy
  {
  }

  /** The last step of the scan: no wakeup is due any more, and none is needed. */
  lemma ScanDone(u: State, p: nat)
    requires Inv(u) && RunsAt(u, p) && u.procs[p].pc == WScan && AllUp(u)
    ensures Inv(Goto(u, p, WRelease))
  {
    hide Placed, LogHeld, PtHeld, Nested, Ownership, Awake;
    var t := Goto(u, p, WRelease);
    OwnFacts(u, p);
    DozersNeedBusy(u);
    AllUpAwake(t);
    MovedPlaced(u, t, p);
    MovedLog(u, t, p);
    MovedPt(u, t, p);
    MovedNested(u, t, p);
    MovedOwns(u, t, p);
  }

  /** wakeup1(&log). */
  lemma ScanStep(s: State, p: nat)
    requires Inv(s) && RunsAt(s, p) && s.procs[p].pc == WScan
    ensures Inv(ProcStep(s, p))
  {
    hide Placed, LogHeld, PtHeld, Nested, Ownership, Awake;
    var u := s.(procs := WakeAll(s.procs));
    WokenInv(s, u);
    forall q | q in u.procs ensures !u.procs[q].st.Sleeping? && !u.procs[q].pc.ZSched? {
      ScanAlone(s, p, q);
    }
    ScanDone(u, p);
  }

  /** kill wakes its target whatever it waits for; the target will test log.busy again. */
  lemma KillStep(s: State, p: nat)
    requires Inv(s) && RunsAt(s, p) && s.procs[p].pc.KDo?
    ensures Inv(ProcStep(s, p))
  {
    hide Inv;
    var u := s.(procs := WakeOne(s.procs, s.procs[p].pc.target));
    WokenInv(s, u);
    GotoKind(u, p, KRelease);
  }

  // ---- the switches ----

  lemma SchedPlaced(s: State, p: nat, st: RunState, pc2: Pc)
    requires Placed(s) && RunsAt(s, p) && BackOk(pc2)
    requires (st.Sleeping? && pc2 == ZWoken) || (st.Runnable? && pc2.YResume?)
    ensures Placed(Sched(s, p, s.procs[p].st.cpu, st, pc2))
  {
    hide BackOk;
  }

  lemma SchedLocks(s: State, p: nat, st: RunState, pc2: Pc)
    requires Placed(s) && LogHeld(s) && PtHeld(s) && RunsAt(s, p) && !st.Running?
    requires HoldsPt(s.procs[p].pc) && !HoldsLog(s.procs[p].pc)
    ensures LogHeld(Sched(s, p, s.procs[p].st.cpu, st, pc2)) && PtHeld(Sched(s, p, s.procs[p].st.cpu, st, pc2))
  {
    hide HoldsLog, HoldsPt;
  }

  lemma SchedNested(s: State, p: nat, st: RunState, pc2: Pc)
    requires Placed(s) && Nested(s) && RunsAt(s, p) && !st.Running? && Cli(s.procs[p].pc) == 1
    ensures Nested(Sched(s, p, s.procs[p].st.cpu, st, pc2))
  {
    hide Cli;
  }

  lemma SchedOwns(s: State, p: nat, st: RunState, pc2: Pc)
    requires Ownership(s) && RunsAt(s, p) && Owns(pc2) == Owns(s.procs[p].pc)
    ensures Ownership(Sched(s, p, s.procs[p].st.cpu, st, pc2))
  {
    hide Owns;
    if s.busy {
      var q :| q in s.procs && Owns(s.procs[q].pc);
      assert Owns(Sched(s, p, s.procs[p].st.cpu, st, pc2).procs[q].pc);
    }
  }

  lemma SchedAwake(s: State, p: nat, st: RunState, pc2: Pc)
    requires Awake(s) && RunsAt(s, p) && (st.Sleeping? ==> s.procs[p].pc.ZSched?) && !WakeDue(s.procs[p].pc)
    requires pc2.ZWoken? || pc2.YResume?
    ensures Awake(Sched(s, p, s.procs[p].st.cpu, st, pc2))
  {
    var t := Sched(s, p, s.procs[p].st.cpu, st, pc2);
    if !t.busy && exists q :: q in t.procs && (t.procs[q].st.Sleeping? || t.procs[q].pc.ZSched?) {
      var q :| q in t.procs && (t.procs[q].st.Sleeping? || t.procs[q].pc.ZSched?);
      assert q in s.procs && (s.procs[q].st.Sleeping? || s.procs[q].pc.ZSched?);
      var r :| r in s.procs && s.procs[r].st.Running? && WakeDue(s.procs[r].pc);
      assert r in t.procs && t.procs[r].st.Running? && WakeDue(t.procs[r].pc);
    }
  }

  /** sleep and yield reach sched with ptable.lock alone, so none of its panics fires. */
  lemma SwitchStep(s: State, p: nat)
    requires Inv(s) && RunsAt(s, p) && (s.procs[p].pc.ZSched? || s.procs[p].pc.YSched?)
    ensures Inv(ProcStep(s, p))
  {
    hide Placed, LogHeld, PtHeld, Nested, Ownership, Awake;
    OwnFacts(s, p);
    var st := if s.procs[p].pc.ZSched? then Sleeping else Runnable;
    var pc2 := if s.procs[p].pc.ZSched? then ZWoken else YResume(s.procs[p].pc.back);
    SchedPlaced(s, p, st, pc2);
    SchedLocks(s, p, st, pc2);
    SchedNested(s, p, st, pc2);
    SchedOwns(s, p, st, pc2);
    SchedAwake(s, p, st, pc2);
  }

  /** A process's own decision: start a transaction, commit it, kill someone. */
  lemma ChoiceStep(s: State, a: Action)
    requires Inv(s) && Enabled(s, a) && (a.Begin? || a.Commit? || a.Kill?)
    ensures Inv(Next(s, a))
  {
    hide Inv, Goto;
    match a {
      case Begin(p) => GotoKind(s, p, BStart);
      case Commit(p) => GotoKind(s, p, CStart);
      case Kill(p, t) => GotoKind(s, p, KStart(t));
    }
  }

  /** A timer interrupt at a point without locks. */
  lemma PreemptStep(s: State, p: nat)
    requires Inv(s) && Enabled(s, Yield(p))
    ensures Inv(Next(s, Yield(p)))
  {
    hide Inv, Goto;
    GotoKind(s, p, YStart(s.procs[p].pc));
  }

  lemma SchedulerPlaced(s: State, t: State, c: nat, cpu: Cpu)
    requires Placed(s) && LogHeld(s) && c in s.cpus && s.cpus[c].cur.None? && cpu.cur.None?
    requires t.procs == s.procs && t.log == s.log && t.cpus == s.cpus[c := cpu]
    ensures Placed(t) && LogHeld(t)
  {
    hide HoldsLog, BackOk;
  }

  lemma SchedulerPt(s: State, c: nat)
    requires Placed(s) && PtHeld(s) && Nested(s) && !s.panicked && c in s.cpus && s.cpus[c].cur.None?
    ensures PtHeld(SchedStep(s, c)) && !SchedStep(s, c).panicked
  {
    hide HoldsPt, Cli;
  }

  lemma SchedulerNested(s: State, t: State, c: nat, cpu: Cpu)
    requires Placed(s) && Nested(s) && c in s.cpus && s.cpus[c].cur.None? && cpu.cur.None?
    requires t.procs == s.procs && t.cpus == s.cpus[c := cpu] && cpu.ncli == SchedCli(cpu.spc)
    ensures Nested(t)
  {
    hide Cli;
  }

  lemma SchedulerCli(s: State, c: nat)
    requires Nested(s) && c in s.cpus && s.cpus[c].cur.None?
    ensures s.cpus[c].ncli == SchedCli(s.cpus[c].spc)
  {
  }

  lemma SchedulerRest(s: State, t: State)
    requires Ownership(s) && Awake(s) && t.procs == s.procs && t.busy == s.busy
    ensures Ownership(t) && Awake(t)
  {
    hide Owns, WakeDue;
  }

  lemma SchedulerStep(s: State, c: nat)
    requires Inv(s) && c in s.cpus && s.cpus[c].cur.None?
    ensures Inv(SchedStep(s, c))
  {
    hide Placed, LogHeld, PtHeld, Nested, Ownership, Awake;
    var t := SchedStep(s, c);
    assert t.cpus == s.cpus[c := t.cpus[c]];
    assert t.cpus[c].ncli == SchedCli(t.cpus[c].spc) by { SchedulerCli(s, c); }
    SchedulerPlaced(s, t, c, t.cpus[c]);
    SchedulerPt(s, c);
    SchedulerNested(s, t, c, t.cpus[c]);
    SchedulerRest(s, t);
  }

  lemma PickPlaced(s: State, c: nat, p: nat)
    requires Placed(s) && Enabled(s, Dispatch(c, p))
    ensures Placed(Pick(s, c, p))
    ensures HoldsPt(s.procs[p].pc) && !HoldsLog(s.procs[p].pc) && Cli(s.procs[p].pc) == 1
  {
    hide BackOk;
  }

  /** A process that was switched out resumes at a point that expects ptable.lock, and gets it. */
  lemma PickLocks(s: State, c: nat, p: nat)
    requires Placed(s) && LogHeld(s) && PtHeld(s) && Nested(s) && Enabled(s, Dispatch(c, p))
    requires HoldsPt(s.procs[p].pc) && !HoldsLog(s.procs[p].pc) && Cli(s.procs[p].pc) == 1
    ensures LogHeld(Pick(s, c, p)) && PtHeld(Pick(s, c, p)) && Nested(Pick(s, c, p))
  {
    hide HoldsLog, HoldsPt, Cli;
  }

  lemma PickOwns(s: State, c: nat, p: nat)
    requires Ownership(s) && Enabled(s, Dispatch(c, p))
    ensures Ownership(Pick(s, c, p))
  {
    hide Owns;
    if s.busy {
      var q :| q in s.procs && Owns(s.procs[q].pc);
      assert Owns(Pick(s, c, p).procs[q].pc);
    }
  }

  lemma PickAwake(s: State, c: nat, p: nat)
    requires Awake(s) && Enabled(s, Dispatch(c, p))
    ensures Awake(Pick(s, c, p))
  {
    hide WakeDue;
    var t := Pick(s, c, p);
    if !t.busy && exists q :: q in t.procs && (t.procs[q].st.Sleeping? || t.procs[q].pc.ZSched?) {
      var q :| q in t.procs && (t.procs[q].st.Sleeping? || t.procs[q].pc.ZSched?);
      assert q in s.procs && (s.procs[q].st.Sleeping? || s.procs[q].pc.ZSched?);
      var r :| r in s.procs && s.procs[r].st.Running? && WakeDue(s.procs[r].pc);
      assert r in t.procs && t.procs[r].st.Running? && WakeDue(t.procs[r].pc);
    }
  }

  lemma DispatchStep(s: State, c: nat, p: nat)
    requires Inv(s) && Enabled(s, Dispatch(c, p))
    ensures Inv(Pick(s, c, p))
  {
    hide Placed, LogHeld, PtHeld, Nested, Ownership, Awake;
    PickPlaced(s, c, p);
    PickLocks(s, c, p);
    PickOwns(s, c, p);
    PickAwake(s, c, p);
  }

  /** Every step keeps the invariant. */
  lemma StepKeeps(s: State, a: Action)
    requires Inv(s) && Enabled(s, a)
    ensures Inv(Next(s, a))
  {
    hide Inv;
    match a {
      case Step(p) =>
        match s.procs[p].pc {
          case Idle | InTrans | BStart | BSpin | BTest | BRelease => BeginStep(s, p);
          case ZStart | ZSpin | ZRelease | ZWoken | ZUnlock | ZAgain | ZAgainSpin => SleepStep(s, p);
          case CStart | CSpin | CClear | WStart | WSpin | WRelease | CRelease => CommitStep(s, p);
          case YStart(_) => YieldStep(s, p);
          case YSpin(_) => YieldStep(s, p);
          case YResume(_) => YieldStep(s, p);
          case KStart(_) => YieldStep(s, p);
          case KSpin(_) => YieldStep(s, p);
          case KRelease => YieldStep(s, p);
          case WScan => ScanStep(s, p);
          case KDo(_) => KillStep(s, p);
          case ZSched => SwitchStep(s, p);
          case YSched(_) => SwitchStep(s, p);
        }
      case Scheduler(c) => SchedulerStep(s, c);
      case Dispatch(c, p) => DispatchStep(s, c, p);
      case Yield(p) => PreemptStep(s, p);
      case _ => ChoiceStep(s, a);
    }
  }

  // ---- whole runs ----

  /** The kernel has booted: the log is free, no lock is taken, every process waits to be resumed. */
  ghost predicate Initial(s: State) {
    && (forall p :: p in s.procs ==> s.procs[p] == Proc(Runnable, YResume(Idle)))
    && (forall c :: c in s.cpus ==> s.cpus[c] == Cpu(None, SStart, 0))
    && s.log == Lock(false, 0) && s.pt == Lock(false, 0) && !s.busy && !s.panicked
  }

  ghost predicate IsRun(run: seq<State>, acts: seq<Action>) {
    && |run| == |acts| + 1 && Initial(run[0])
    && forall i :: 0 <= i < |acts| ==> Enabled(run[i], acts[i]) && run[i + 1] == Next(run[i], acts[i])
  }

  lemma {:induction false} RunKeeps(run: seq<State>, acts: seq<Action>, n: nat)
    requires IsRun(run, acts) && n < |run|
    ensures Inv(run[n])
  {
    hide Next, Enabled;
    if n > 0 {
      RunKeeps(run, acts, n - 1);
      assert run[n - 1 + 1] == Next(run[n - 1], acts[n - 1]);
      StepKeeps(run[n - 1], acts[n - 1]);
    }
  }

  /** p has left begin_trans and not yet finished commit_trans's release of the log. */
  ghost predicate InTransaction(s: State, p: nat) {
    p in s.procs && Owns(s.procs[p].pc)
  }

  /** In every interleaving at most one process is in a transaction, and the log is busy exactly
      while there is one. */
  lemma MutualExclusion(run: seq<State>, acts: seq<Action>, n: nat, p: nat, q: nat)
    requires IsRun(run, acts) && n < |run|
    ensures InTransaction(run[n], p) && InTransaction(run[n], q) ==> p == q
    ensures run[n].busy <==> exists r :: InTransaction(run[n], r)
  {
    RunKeeps(run, acts, n);
    if run[n].busy {
      var r :| r in run[n].procs && Owns(run[n].procs[r].pc);
      assert InTransaction(run[n], r);
    }
  }

  /** In every interleaving a process asleep on a free log is about to be woken: some running process
      holds log.lock and has its wakeup still to do. */
  lemma NoLostWakeup(run: seq<State>, acts: seq<Action>, n: nat, p: nat) returns (q: nat)
    requires IsRun(run, acts) && n < |run| && p in run[n].procs
    requires run[n].procs[p].st.Sleeping? && !run[n].busy
    ensures q in run[n].procs && run[n].procs[q].st.Running? && WakeDue(run[n].procs[q].pc)
    ensures Holding(run[n].log, run[n].procs[q].st.cpu)
  {
    RunKeeps(run, acts, n);
    q :| q in run[n].procs && run[n].procs[q].st.Running? && WakeDue(run[n].procs[q].pc);
    OwnFacts(run[n], q);
  }

  /** No lock is taken twice by a processor, released without being held, and sched always finds
      ptable.lock held and nothing else. */
  lemma NeverPanics(run: seq<State>, acts: seq<Action>, n: nat)
    requires IsRun(run, acts) && n < |run|
    ensures !run[n].panicked
  {
    RunKeeps(run, acts, n);
  }
}
