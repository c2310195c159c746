/**
 Sleep and wakeup over whole runs of the process table: who sleeps has not been woken since, and who is woken
 runs on where it slept.
 */
module ProcRuns {
  import opened Basics
  import opened ProcTable

  ghost predicate AsleepOn(s: Table, p: nat, a: nat) {
    p < |s.procs| && s.procs[p].state.Sleeping? && s.procs[p].chan == Other(a)
  }

  /** A step that leaves p asleep on a put it there, or found it there and was no wakeup or kill of it. */
  lemma AsleepAfter(s: Table, e: Event, p: nat, a: nat)
    requires Enabled(s, e) && AsleepOn(Apply(s, e), p, a)
    ensures e == Sleep(p, a) || (AsleepOn(s, p, a) && e != Wakeup(a) && e != Kill(p))
  {
    if e.Exit? {
      var w := WokenAll(s.procs, ProcChan(s.procs[e.p].parent.value));
      assert Orphaned(w, e.p, s.init)[p].chan == s.procs[p].chan;
    }
  }

  /** In every run a process asleep on an address went to sleep there by one sleep, has been asleep there ever
      since, and neither wakeup nor kill was called for it. */
  lemma {:induction false} AsleepSince(tr: seq<Table>, es: seq<Event>, n: nat, p: nat, a: nat) returns (m: nat)
    requires Run(tr, es) && n <= |es| && AsleepOn(tr[n], p, a)
    ensures m < n && es[m] == Sleep(p, a)
    ensures forall k :: m < k < n ==> AsleepOn(tr[k], p, a) && es[k] != Wakeup(a) && es[k] != Kill(p)
  {
    hide Apply, Enabled;
    assert n > 0 by { assert tr[0] == Booted(); }
    AsleepAfter(tr[n - 1], es[n - 1], p, a);
    if es[n - 1] == Sleep(p, a) {
      m := n - 1;
    } else {
      m := AsleepSince(tr, es, n - 1, p, a);
    }
  }

  /** A wakeup reaches every process that sleeps on the address, and no other. */
  lemma WakeupReaches(s: Table, a: nat, k: nat)
    requires k < |s.procs|
    ensures Enabled(s, Wakeup(a)) && k < |Apply(s, Wakeup(a)).procs|
    ensures var x, y := s.procs[k], Apply(s, Wakeup(a)).procs[k];
            if AsleepOn(s, k, a) then y.state.Runnable? && y.(state := x.state) == x else y == x
  {
  }

  /** These events can happen one after the other from s, and end in t. */
  ghost predicate Leads(s: Table, es: seq<Event>, t: Table)
    decreases |es|
  {
    if es == [] then t == s else Enabled(s, es[0]) && Leads(Apply(s, es[0]), es[1..], t)
  }

  lemma LeadsTwo(s: Table, d: Event, e: Event, t: Table)
    requires Enabled(s, d) && Enabled(Apply(s, d), e) && t == Apply(Apply(s, d), e)
    ensures Leads(s, [d, e], t)
  {
    hide Apply, Enabled;
    assert [d, e][1..] == [e] && [e][1..] == [];
    assert Leads(t, [], t);
    assert Leads(Apply(s, d), [e], t);
  }

  lemma LeadsThree(s: Table, c: Event, d: Event, e: Event, t: Table)
    requires Enabled(s, c) && Leads(Apply(s, c), [d, e], t)
    ensures Leads(s, [c, d, e], t)
  {
    hide Apply, Enabled;
    assert [c, d, e][1..] == [d, e];
  }

  /** A process that sleeps, is woken and is scheduled goes on as it was, and nobody else has changed but those
      it was woken with. */
  lemma SleepWakeRun(s: Table, p: nat, a: nat) returns (t: Table)
    requires Inv(s) && p < NPROC && s.procs[p].state.Running? && s.procs[p].at.Elsewhere?
    ensures Leads(s, [Sleep(p, a), Wakeup(a), Schedule(p)], t)
    ensures t.(procs := s.procs) == s && |t.procs| == |s.procs| && t.procs[p] == s.procs[p].(chan := NoChan)
    ensures forall k :: 0 <= k < NPROC && k != p ==>
              t.procs[k] == if AsleepOn(s, k, a) then s.procs[k].(state := Runnable) else s.procs[k]
  {
    hide Tree, Vacant, Forks, WaitsWell, Pids, History, Leads;
    var u := Apply(s, Sleep(p, a));
    var v := Apply(u, Wakeup(a));
    t := Apply(v, Schedule(p));
    LeadsTwo(u, Wakeup(a), Schedule(p), t);
    LeadsThree(s, Sleep(p, a), Wakeup(a), Schedule(p), t);
  }

  /** A process that yields and is scheduled goes on as it was. */
  lemma YieldRuns(s: Table, p: nat) returns (t: Table)
    requires Inv(s) && p < NPROC && s.procs[p].state.Running?
    ensures Leads(s, [Yield(p), Schedule(p)], t) && t == s.(procs := s.procs[p := s.procs[p].(chan := NoChan)])
  {
    t := Apply(Apply(s, Yield(p)), Schedule(p));
    LeadsTwo(s, Yield(p), Schedule(p), t);
  }

  /** A parent asleep in wait is woken by the exit of a child and then returns that child's pid, unless it is
      init and inherits zombies. */
  lemma ExitReachesWait(s: Table, p: nat, c: nat) returns (t: Table)
    requires Inv(s) && p < NPROC && s.procs[p].state.Sleeping? && s.procs[p].at.Waiting?
    requires c < NPROC && c != s.init && s.procs[c].state.Running? && s.procs[c].at.Elsewhere? && s.procs[c].parent == Some(p)
    requires p != s.init || !HasZombie(s.procs, c)
    ensures Leads(s, [Exit(c), Schedule(p), Reap(p, c)], t)
    ensures t.reaped == s.reaped + [s.procs[c].pid] && |t.procs| == |s.procs|
    ensures t.procs[p] == s.procs[p].(state := Running, chan := NoChan, at := Elsewhere) && t.procs[c].state.Unused?
  {
    hide Pids, History, Forks, Vacant, Leads;
    NotItsChild(s, p, c);
    hide Tree;
    assert SleepsWell(s, p);
    ExitIs(s.procs, c, s.init);
    var u := Apply(s, Exit(c));
    var v := Apply(u, Schedule(p));
    hide Orphaned, WokenAll;
    FirstZombie(s, v, p, c);
    t := Apply(v, Reap(p, c));
    LeadsTwo(u, Schedule(p), Reap(p, c), t);
    LeadsThree(s, Exit(c), Schedule(p), Reap(p, c), t);
  }

  lemma NotItsChild(s: Table, p: nat, c: nat)
    requires Inv(s) && p < NPROC && c < NPROC && c != s.init && Live(s.procs[p]) && Live(s.procs[c]) && s.procs[c].parent == Some(p)
    ensures s.procs[p].parent != Some(c) && p != c
  {
    hide Vacant, Forks, WaitsWell, Pids, History;
    assert HasParent(s, c) && (p != s.init ==> HasParent(s, p));
  }

  lemma FirstZombie(s: Table, v: Table, p: nat, c: nat)
    requires c < |s.procs| == |v.procs| && p < |s.procs| && p != c && !HasZombie(s.procs, p) && ZombieChild(v.procs, p, c)
    requires p != s.init || !HasZombie(s.procs, c)
    requires forall k :: 0 <= k < |s.procs| && k != p && k != c ==>
               && v.procs[k].parent == (if s.procs[k].parent == Some(c) then Some(s.init) else s.procs[k].parent)
               && (v.procs[k].state.Zombie? ==> s.procs[k].state.Zombie?)
    requires !v.procs[p].state.Zombie?
    ensures forall k :: 0 <= k < c ==> !ZombieChild(v.procs, p, k)
  {
    forall k | 0 <= k < c ensures !ZombieChild(v.procs, p, k) {
      assert !ZombieChild(s.procs, p, k) && (p == s.init ==> !ZombieChild(s.procs, c, k));
    }
  }
}
