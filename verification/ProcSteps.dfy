/** The steps of the process machine that change the table: going to sleep and
    waking, exit and wait, kill and fork. */
module ProcSteps {
  import opened ProcTable
  import opened ProcMachine
  import opened ProcInv

  // ----- waking processes

  /** Some sleepers were made runnable and some processes marked killed. */
  ghost predicate Stirred(s: State, t: State) {
    && SameSize(s, t) && t.cpus == s.cpus && t.holder == s.holder && t.slocks == s.slocks
    && forall p :: 0 <= p < |s.procs| ==> Stir(s.procs[p], t.procs[p])
  }

  ghost predicate Stir(q: Proc, r: Proc) {
    && r == q.(state := r.state, killed := r.killed)
    && (r.state == q.state || (q.state == SLEEPING && r.state == RUNNABLE))
  }

  lemma StirStates(s: State, t: State)
    requires Placed(s) && States(s) && Stirred(s, t)
    ensures Placed(t) && States(t)
  {
    forall d | 0 <= d < |t.cpus|
      ensures CpuPlaced(t, d)
    {
      assert CpuPlaced(s, d);
      if 0 <= s.cpus[d].proc < |s.procs| {
        assert Stir(s.procs[s.cpus[d].proc], t.procs[s.cpus[d].proc]);
      }
    }
    forall p | 0 <= p < |t.procs|
      ensures ProcPlaced(t, p) && StateOk(t, p)
    {
      assert ProcPlaced(s, p) && StateOk(s, p) && Stir(s.procs[p], t.procs[p]);
    }
  }

  lemma StirLocks(s: State, t: State)
    requires Stirred(s, t) && Locked(s) && Cli(s)
    ensures Locked(t) && Cli(t)
  {
    hide Has, Count, Locked, Cli;
    forall p | 0 <= p < |s.procs|
      ensures t.procs[p].pc == s.procs[p].pc
    {
      assert Stir(s.procs[p], t.procs[p]);
    }
    SameLocks(s, t);
  }

  lemma StirRest(s: State, t: State)
    requires Stirred(s, t) && Waits(s) && Sleeps(s) && Parents(s) && Forks(s)
    ensures Waits(t) && Sleeps(t) && Parents(t) && Forks(t)
  {
    hide Parents, Forks, ForkSlot, ForkLate;
    forall p | 0 <= p < |s.procs|
      ensures ViewKin(t.procs[p]) == ViewKin(s.procs[p]) && ViewFork(t.procs[p]) == ViewFork(s.procs[p])
      ensures t.procs[p].pc == s.procs[p].pc
      ensures t.procs[p].state == SLEEPING || t.procs[p].state == ZOMBIE || t.procs[p].state == RUNNING ==> t.procs[p].state == s.procs[p].state
    {
      assert Stir(s.procs[p], t.procs[p]);
    }
    ParentsSame(s, t);
    ForksSame(s, t);
    forall p | 0 <= p < |t.procs|
      ensures SleepOk(t, p)
    {
      assert SleepOk(s, p);
      assert forall l :: Pending(s, l) ==> Pending(t, l);
    }
  }

  lemma StirKeeps(s: State, t: State)
    requires Inv(s) && Stirred(s, t)
    ensures Inv(t)
  {
    hide Placed, States, Locked, Cli, Waits, Sleeps, Parents, Forks, Stirred;
    StirStates(s, t);
    StirLocks(s, t);
    StirRest(s, t);
  }

  lemma YieldSetKeeps(s: State, c: nat)
    requires Inv(s) && Enabled(s, YieldSet(c))
    ensures Inv(Do(s, YieldSet(c)))
  {
    hide Placed, States, Locked, Cli, Sleeps, Parents, Forks;
    var t := Do(s, YieldSet(c));
    RangeAt(s, c);
    LeftKeeps(s, t, c, RUNNABLE, s.procs[P(s, c)].chan, YieldR(At(s, c).back));
  }

  lemma AcqSleepKeeps(s: State, c: nat)
    requires Inv(s) && Enabled(s, AcqSleep(c))
    ensures Inv(Do(s, AcqSleep(c)))
  {
    hide Placed, States, Locked, Cli, Parents, Forks;
    var t, l := Do(s, AcqSleep(c)), At(s, c).l;
    RangeAt(s, c);
    RunningHere(s, c);
    assert SleepOk(s, P(s, c));
    LeftKeeps(s, t, c, SLEEPING, OnLock(l), AcqR(l));
  }

  /** A process that holds just ptable.lock goes on to release it. */
  lemma ToPtDone(s: State, c: nat)
    requires Inv(s) && InCode(s, c) && Count(At(s, c)) == 1 && (forall l :: Has(At(s, c), l) <==> l == Pt)
    requires !At(s, c).Rel3? && !At(s, c).Rel2? && ForkSlot(At(s, c)) == -1
    ensures Inv(Goto(s, c, PtDone))
  {
    hide Placed, States, Locked, Cli, Sleeps, Parents, Forks, Waits, Has, Count, Guard, ForkSlot, ForkLate;
    var t := Goto(s, c, PtDone);
    PtDoneIsPlain();
    NotLate(At(s, c));
    BodyLocks(s, t, c);
    GuardsStay(s, t, c);
    MovedSleeps(s, t, c);
    MovedKeeps(s, t, c);
  }

  lemma PtDoneIsPlain()
    ensures ForkSlot(PtDone) == -1 && !ForkLate(PtDone)
    ensures Count(PtDone) == 1 && forall l :: Has(PtDone, l) <==> l == Pt
  {}

  lemma NotLate(pc: Pc)
    requires ForkSlot(pc) == -1
    ensures !ForkLate(pc)
  {}

  lemma KillBodyKeeps(s: State, c: nat)
    requires Inv(s) && Enabled(s, KillBody(c))
    ensures Inv(Do(s, KillBody(c)))
  {
    hide Placed, States, Locked, Cli, Sleeps, Parents, Forks, Waits;
    var u := s.(procs := Killed(s.procs, At(s, c).pid));
    KillStirs(s, At(s, c).pid);
    StirKeeps(s, u);
    assert Stir(s.procs[P(s, c)], u.procs[P(s, c)]);
    ToPtDone(u, c);
    assert Do(s, KillBody(c)) == Goto(u, c, PtDone);
  }

  lemma KillStirs(s: State, pid: nat)
    ensures Stirred(s, s.(procs := Killed(s.procs, pid)))
  {
    hide PidFrom;
  }

  // ----- releasesleep wakes the sleepers

  lemma WakeStirs(s: State, ch: Chan)
    ensures Stirred(s, s.(procs := Wakeup(s.procs, ch)))
  {}

  /** Two processes cannot both be at code points that hold ptable.lock. */
  lemma OneInside(s: State, c: nat, p: nat)
    requires Placed(s) && States(s) && Locked(s) && InCode(s, c) && Has(At(s, c), Pt)
    requires p < |s.procs| && s.procs[p].state == RUNNING && Has(s.procs[p].pc, Pt)
    ensures p == P(s, c)
  {
    assert ProcPlaced(s, p) && StateOk(s, p) && CpuPlaced(s, c);
    var d := s.procs[p].on;
    assert CpuHas(s, d, Pt) && CpuHas(s, c, Pt);
    OneScheduler(s, c, d);
  }

  lemma RelWakeSleeps(s: State, u: State, c: nat, l: nat)
    requires Placed(u) && States(u) && Locked(u) && Sleeps(u) && InCode(u, c) && At(u, c) == Rel3(l)
    requires u.procs == Wakeup(s.procs, OnLock(l))
    ensures Sleeps(Goto(u, c, Rel4(l)))
  {
    hide Placed, States, Locked;
    var t := Goto(u, c, Rel4(l));
    RunningHere(u, c);
    forall p | 0 <= p < |t.procs|
      ensures SleepOk(t, p)
    {
      if p != P(u, c) {
        assert SleepOk(u, p);
        StateAt(u, p);
        var pc := u.procs[p].pc;
        if u.procs[p].state == RUNNING && pc == Acq4(l) {
          OneInside(u, c, p);
        }
        forall k | k != l && Pending(u, k)
          ensures Pending(t, k)
        {
          MovedPending(u, t, c, k);
        }
      }
    }
  }

  lemma StateAt(s: State, p: nat)
    requires Placed(s) && States(s) && p < |s.procs|
    ensures ProcPlaced(s, p) && StateOk(s, p)
  {
    assert ProcPlaced(s, p) && StateOk(s, p);
  }

  lemma RelWakePoint(s: State, p: nat, l: nat)
    ensures Count(Rel3(l)) == Count(Rel4(l)) && (forall k :: Has(Rel3(l), k) == Has(Rel4(l), k))
    ensures PcInRange(s, p, Rel3(l)) == PcInRange(s, p, Rel4(l))
  {}

  lemma RelWakeKeeps(s: State, c: nat)
    requires Inv(s) && Enabled(s, RelWake(c))
    ensures Inv(Do(s, RelWake(c)))
  {
    hide Placed, States, Locked, Cli, Sleeps, Parents, Forks, Waits, Wakeup, Has, Count, PcInRange;
    var l := At(s, c).l;
    RelWakePoint(s, P(s, c), l);
    var u := s.(procs := Wakeup(s.procs, OnLock(l)));
    WakeStirs(s, OnLock(l));
    StirKeeps(s, u);
    assert Stir(s.procs[P(s, c)], u.procs[P(s, c)]);
    var t := Goto(u, c, Rel4(l));
    assert Do(s, RelWake(c)) == t;
    RangeAt(s, c);
    SameRange(s, t, P(s, c), Rel4(l));
    BodyLocks(u, t, c);
    RelWakeSleeps(s, u, c, l);
    MovedKeeps(u, t, c);
  }

  // ----- a slot that is on no CPU

  /** Slot `k`, which is on no CPU, becomes `q`. */
  ghost predicate SlotSet(s: State, t: State, k: nat, q: Proc) {
    k < |s.procs| && s.procs[k].on == -1 && q.on == -1 && t == SetProc(s, k, q).(nextpid := t.nextpid)
  }

  lemma SlotSetStates(s: State, t: State, k: nat, q: Proc)
    requires Placed(s) && States(s) && SlotSet(s, t, k, q) && -1 <= q.parent < |s.procs| && PcInRange(s, k, q.pc)
    requires q.state != RUNNING && q.state != SLEEPING && (q.state == RUNNABLE ==> Resumes(q.pc)) && q.state != ZOMBIE
    requires q.pc == Dead ==> q.state == UNUSED || q.state == EMBRYO
    ensures Placed(t) && States(t)
  {
    forall d | 0 <= d < |t.cpus|
      ensures CpuPlaced(t, d)
    {
      assert CpuPlaced(s, d);
    }
    forall p | 0 <= p < |t.procs|
      ensures ProcPlaced(t, p) && StateOk(t, p)
    {
      assert ProcPlaced(s, p) && StateOk(s, p);
    }
  }

  lemma SlotSetLocks(s: State, t: State, k: nat, q: Proc)
    requires Placed(s) && SlotSet(s, t, k, q) && Locked(s) && Cli(s)
    ensures Locked(t) && Cli(t)
  {
    hide Has, Count, Locked, Cli;
    forall d | 0 <= d < |s.cpus|
      ensures s.cpus[d].proc != k
    {
      assert CpuPlaced(s, d);
    }
    SameLocks(s, t);
  }

  lemma SlotSetSleeps(s: State, t: State, k: nat, q: Proc)
    requires Placed(s) && SlotSet(s, t, k, q) && Sleeps(s) && q.state != RUNNING && q.state != SLEEPING
    ensures Sleeps(t)
  {
    forall l | Pending(s, l)
      ensures Pending(t, l)
    {
      assert CpuPlaced(s, s.holder[Lk(l)]);
    }
    forall p | 0 <= p < |t.procs|
      ensures SleepOk(t, p)
    {
      assert SleepOk(s, p);
    }
  }

  lemma SlotSetCore(s: State, t: State, k: nat, q: Proc)
    requires SlotSet(s, t, k, q) && -1 <= q.parent < |s.procs| && PcInRange(s, k, q.pc)
    requires q.state != RUNNING && q.state != SLEEPING && (q.state == RUNNABLE ==> Resumes(q.pc)) && q.state != ZOMBIE
    requires q.pc == Dead ==> q.state == UNUSED || q.state == EMBRYO
    requires Core(s) && Parents(t)
    ensures Core(t)
  {
    hide Placed, States, Locked, Cli, Sleeps, Parents, PcInRange;
    SlotSetStates(s, t, k, q);
    SlotSetLocks(s, t, k, q);
    SlotSetSleeps(s, t, k, q);
  }

  // ----- wait

  /** A process that is neither running nor entering `sched` is on no CPU while
      another process holds ptable.lock. */
  lemma IsOff(s: State, c: nat, k: nat)
    requires Placed(s) && States(s) && Locked(s) && InCode(s, c) && Has(At(s, c), Pt)
    requires k < |s.procs| && s.procs[k].state != RUNNING
    ensures s.procs[k].on == -1
  {
    assert ProcPlaced(s, k) && StateOk(s, k) && CpuPlaced(s, c) && StateOk(s, P(s, c));
    if s.procs[k].on != -1 {
      var d := s.procs[k].on;
      assert CpuPlaced(s, d);
      assert CpuHas(s, d, Pt) && CpuHas(s, c, Pt);
      OneScheduler(s, c, d);
    }
  }

  lemma ReapParents(s: State, k: nat)
    requires k < |s.procs| && s.procs[k].state == ZOMBIE && Parents(s) && Forks(s)
    ensures var t := SetProc(s, k, Freed(s.procs[k])); Parents(t) && Forks(t)
  {
    hide Forks;
    var t := SetProc(s, k, Freed(s.procs[k]));
    forall p | 0 <= p < |t.procs|
      ensures ParentOk(t, p)
    {
      assert ParentOk(s, p);
    }
    assert forall p :: 0 <= p < |s.procs| ==> ViewFork(t.procs[p]) == ViewFork(s.procs[p]);
    ForksSame(s, t);
  }

  lemma ReapKeeps(s: State, c: nat, k: nat)
    requires Inv(s) && InCode(s, c) && Has(At(s, c), Pt) && k < |s.procs| && s.procs[k].state == ZOMBIE
    ensures Inv(SetProc(s, k, Freed(s.procs[k]))) && k != P(s, c)
  {
    hide Placed, States, Locked, Cli, Sleeps, Parents, Forks, Waits, Has, Count;
    var t := SetProc(s, k, Freed(s.procs[k]));
    RunningHere(s, c);
    IsOff(s, c, k);
    StateAt(s, k);
    ReapParents(s, k);
    SlotSetCore(s, t, k, Freed(s.procs[k]));
  }

  lemma WaitSleeps(s: State, c: nat)
    requires Inv(s) && Enabled(s, WaitBody(c)) && ScanFrom(s.procs, P(s, c), 0, false).KidsAlive?
    ensures Inv(Leave(s, c, SLEEPING, OnProc(P(s, c)), WaitR))
  {
    hide Placed, States, Locked, Cli, Sleeps, Parents, Forks;
    var p := P(s, c);
    var t := Leave(s, c, SLEEPING, OnProc(p), WaitR);
    ScanFinds(s.procs, p, 0, false);
    forall q | 0 <= q < |s.procs|
      ensures !(s.procs[q].parent == p && s.procs[q].state == ZOMBIE)
    {
      assert !ExitedChild(s.procs, p, q);
    }
    LeftKeeps(s, t, c, SLEEPING, OnProc(p), WaitR);
  }

  lemma WaitBodyKeeps(s: State, c: nat)
    requires Inv(s) && Enabled(s, WaitBody(c))
    ensures Inv(Do(s, WaitBody(c)))
  {
    hide Placed, States, Locked, Cli, Sleeps, Parents, Forks, Waits, ScanFrom;
    var p := P(s, c);
    ScanFinds(s.procs, p, 0, false);
    match ScanFrom(s.procs, p, 0, false)
    case Reap(k) =>
      ReapKeeps(s, c, k);
      ToPtDone(SetProc(s, k, Freed(s.procs[k])), c);
    case NoKids => ToPtDone(s, c);
    case KidsAlive =>
      if s.procs[p].killed {
        ToPtDone(s, c);
      } else {
        WaitSleeps(s, c);
      }
  }

  // ----- exit

  /** The children of `p` pass to init. */
  ghost predicate HandedOver(s: State, t: State, p: nat) {
    && SameSize(s, t) && t.cpus == s.cpus && t.holder == s.holder && t.slocks == s.slocks
    && forall q :: 0 <= q < |s.procs| ==>
         t.procs[q] == if s.procs[q].parent == p then s.procs[q].(parent := s.init) else s.procs[q]
  }

  lemma HandedStates(s: State, t: State, p: nat)
    requires Placed(s) && States(s) && HandedOver(s, t, p)
    ensures Placed(t) && States(t)
  {
    forall d | 0 <= d < |t.cpus|
      ensures CpuPlaced(t, d)
    {
      assert CpuPlaced(s, d);
    }
    forall q | 0 <= q < |t.procs|
      ensures ProcPlaced(t, q) && StateOk(t, q)
    {
      assert ProcPlaced(s, q) && StateOk(s, q);
    }
  }

  lemma HandedKin(s: State, t: State, p: nat)
    requires Parents(s) && Forks(s) && HandedOver(s, t, p) && p < |s.procs| && ForkSlot(s.procs[p].pc) == -1 && p != s.init
    ensures Parents(t) && Forks(t) && Childless(t, p)
  {
    hide Forks, ForkSlot, ForkLate;
    forall q | 0 <= q < |t.procs|
      ensures ParentOk(t, q)
    {
      assert ParentOk(s, q);
    }
    forall q | 0 <= q < |s.procs|
      ensures ViewFork(t.procs[q]) == ViewFork(s.procs[q])
    {
      NotItsEmbryo(s, p, q);
    }
    ForksSame(s, t);
  }

  lemma NotItsEmbryo(s: State, p: nat, q: nat)
    requires Forks(s) && p < |s.procs| && q < |s.procs| && ForkSlot(s.procs[p].pc) == -1
    ensures s.procs[q].state == EMBRYO ==> s.procs[q].parent != p
  {
    hide ForkSlot, ForkLate;
    assert EmbryoOk(s, q);
  }

  lemma HandedSleeps(s: State, t: State, p: nat)
    requires HandedOver(s, t, p) && Sleeps(s) && Locked(s) && Cli(s)
    ensures Sleeps(t) && Locked(t) && Cli(t)
  {
    hide Locked, Cli, Has, Count;
    SameLocks(s, t);
    forall q | 0 <= q < |t.procs|
      ensures SleepOk(t, q)
    {
      assert SleepOk(s, q);
      assert forall l :: Pending(s, l) ==> Pending(t, l);
    }
  }

  /** Init does not sleep in `wait` if it inherits an exited child. */
  lemma HandedKeeps(s: State, t: State, p: nat)
    requires Inv(s) && HandedOver(s, t, p) && p < |s.procs| && ForkSlot(s.procs[p].pc) == -1 && p != s.init
    requires s.init < |s.procs| && (HasZombie(s.procs, p) ==> !InWait(s.procs[s.init]))
    ensures Inv(t) && Childless(t, p)
  {
    hide Placed, States, Parents, Forks, Locked, Cli, Sleeps, ForkSlot;
    HandedStates(s, t, p);
    HandedKin(s, t, p);
    HandedSleeps(s, t, p);
  }

  predicate InWait(q: Proc) {
    q.state == SLEEPING && q.pc == WaitR
  }

  /** After `wakeup1(p)` process `p` does not sleep in `wait`. */
  lemma WokenIsUp(s: State, p: nat)
    requires Inv(s) && p < |s.procs|
    ensures Inv(s.(procs := Wakeup(s.procs, OnProc(p)))) && !InWait(Wakeup(s.procs, OnProc(p))[p])
  {
    hide Locked, Cli, Waits, Sleeps, Parents, Forks;
    var t := s.(procs := Wakeup(s.procs, OnProc(p)));
    WakeStirs(s, OnProc(p));
    StirKeeps(s, t);
    assert ProcPlaced(t, p) && StateOk(t, p);
  }

  lemma ExitLeaves(s: State, c: nat)
    requires Inv(s) && InCode(s, c) && At(s, c) == Exit1 && P(s, c) != s.init && Childless(s, P(s, c))
    requires 0 <= s.procs[P(s, c)].parent < |s.procs| && !InWait(s.procs[s.procs[P(s, c)].parent])
    ensures Inv(Leave(s, c, ZOMBIE, s.procs[P(s, c)].chan, Dead))
  {
    hide Placed, States, Locked, Cli, Sleeps, Parents, Forks, Childless;
    var t := Leave(s, c, ZOMBIE, s.procs[P(s, c)].chan, Dead);
    LeftKeeps(s, t, c, ZOMBIE, s.procs[P(s, c)].chan, Dead);
  }

  /** Both wakeups of `exit`: neither the parent nor, if it inherits an exited
      child, init sleeps in `wait` any more. */
  lemma ExitWakes(s: State, p: nat, u: State, v: State)
    requires Inv(s) && p < |s.procs| && p != s.init < |s.procs| && s.procs[p].state == RUNNING && 0 <= s.procs[p].parent < |s.procs|
    requires u == s.(procs := Wakeup(s.procs, OnProc(s.procs[p].parent)))
    requires v == if HasZombie(u.procs, p) then u.(procs := Wakeup(u.procs, OnProc(s.init))) else u
    ensures Inv(v) && !InWait(v.procs[s.procs[p].parent]) && v.procs[p] == s.procs[p]
    ensures HasZombie(v.procs, p) ==> !InWait(v.procs[s.init])
  {
    hide Inv, Wakeup, HasZombie;
    WokenIsUp(s, s.procs[p].parent);
    WakeStirs(s, OnProc(s.procs[p].parent));
    assert Stir(s.procs[p], u.procs[p]);
    WakeOne(s.procs, OnProc(s.procs[p].parent), p);
    if HasZombie(u.procs, p) {
      WokenIsUp(u, s.init);
      WakeOne(u.procs, OnProc(s.init), p);
      WakeOne(u.procs, OnProc(s.init), s.procs[p].parent);
    }
  }

  lemma WakeOne(t: Table, ch: Chan, p: nat)
    requires p < |t|
    ensures Wakeup(t, ch)[p] == Woken(t[p], ch)
  {}

  lemma HasParentHere(s: State, p: nat)
    requires Parents(s) && p < |s.procs| && Alive(s.procs[p]) && p != s.init
    ensures 0 <= s.procs[p].parent < |s.procs| && s.procs[p].parent != p && s.init < |s.procs|
  {
    assert ParentOk(s, p);
  }

  lemma ExitPoint()
    ensures ForkSlot(Exit1) == -1
  {}

  lemma ExitBodyKeeps(s: State, c: nat)
    requires Inv(s) && Enabled(s, ExitBody(c))
    ensures Inv(Do(s, ExitBody(c)))
  {
    hide Placed, States, Locked, Cli, Sleeps, Forks, Waits, Wakeup, HasZombie, Childless, Parents, ForkSlot;
    var p := P(s, c);
    RunningHere(s, c);
    RangeAt(s, c);
    HasParentHere(s, p);
    ExitPoint();
    var u := s.(procs := Wakeup(s.procs, OnProc(s.procs[p].parent)));
    var v := if HasZombie(u.procs, p) then u.(procs := Wakeup(u.procs, OnProc(s.init))) else u;
    ExitWakes(s, p, u, v);
    var w := s.(procs := Reparent(u.procs, p, s.init));
    HandedKeeps(v, w, p);
    ExitLeaves(w, c);
    assert Do(s, ExitBody(c)) == Leave(w, c, ZOMBIE, w.procs[p].chan, Dead);
  }

  // ----- fork

  /** A slot that is unused or being filled is on no CPU. */
  lemma EmptyIsOff(s: State, k: nat)
    requires Placed(s) && States(s) && k < |s.procs| && (s.procs[k].state == UNUSED || s.procs[k].state == EMBRYO)
    ensures s.procs[k].on == -1 && PcInRange(s, k, s.procs[k].pc)
  {
    assert ProcPlaced(s, k) && StateOk(s, k) && (s.procs[k].on >= 0 ==> CpuPlaced(s, s.procs[k].on));
  }

  lemma SlotParents(s: State, t: State, k: nat, q: Proc)
    requires Parents(s) && k < |s.procs| && (s.procs[k].state == UNUSED || s.procs[k].state == EMBRYO)
    requires q.state != ZOMBIE && (q.state == UNUSED ==> q.parent == -1)
    requires Alive(q) ==> 0 <= q.parent < |s.procs| && q.parent != k && Alive(s.procs[q.parent])
    requires t == SetProc(s, k, q).(nextpid := t.nextpid)
    ensures Parents(t)
  {
    forall p | 0 <= p < |t.procs|
      ensures ParentOk(t, p)
    {
      assert ParentOk(s, p);
    }
  }

  /** Process `p`, which fills no slot but `k`, and slot `k` changed. */
  ghost predicate ForkStep(s: State, t: State, p: nat, k: nat) {
    && |t.procs| == |s.procs| && p < |s.procs| && k < |s.procs| && p != k
    && (forall q :: 0 <= q < |s.procs| && q != p && q != k ==> t.procs[q] == s.procs[q])
    && s.procs[p].state == RUNNING && t.procs[p].state == RUNNING
    && !Alive(s.procs[k]) && (Alive(t.procs[k]) ==> ForkSlot(t.procs[k].pc) == -1)
    && (ForkSlot(s.procs[p].pc) == -1 || ForkSlot(s.procs[p].pc) == k)
    && (forall q :: 0 <= q < |s.procs| && q != p ==> !Forking(s.procs[q], k))
    && (if ForkSlot(t.procs[p].pc) == k
        then t.procs[k].state == EMBRYO && t.procs[k].parent == (if ForkLate(t.procs[p].pc) then p else -1)
        else ForkSlot(t.procs[p].pc) == -1 && t.procs[k].state != EMBRYO)
  }

  lemma ForkStepForks(s: State, t: State, p: nat, k: nat)
    requires Forks(s) && ForkStep(s, t, p, k)
    ensures Forks(t)
  {
    hide ForkSlot, ForkLate;
    forall a, b | 0 <= a < |t.procs| && 0 <= b < |t.procs|
      ensures ForkOk(t, a, b)
    {
      assert ForkOk(s, a, b);
    }
    forall a, b, e | 0 <= a < |t.procs| && 0 <= b < |t.procs| && a != b && 0 <= e < |t.procs|
      ensures OneForks(t, a, b, e)
    {
      assert OneForks(s, a, b, e);
    }
    forall b | 0 <= b < |t.procs|
      ensures EmbryoOk(t, b)
    {
      assert EmbryoOk(s, b);
      if b == k {
        assert t.procs[b].state == EMBRYO ==> Forking(t.procs[p], b);
      } else if s.procs[b].state == EMBRYO {
        var a :| 0 <= a < |s.procs| && Forking(s.procs[a], b);
        assert a != p && a != k && Forking(t.procs[a], b);
      }
    }
  }

  /** The steps of `fork`: slot `k` becomes `q` and the process goes on at `pc`. */
  lemma ForkStepKeeps(s: State, u: State, c: nat, k: nat, q: Proc, pc: Pc)
    requires InCode(s, c) && SlotSet(s, u, k, q) && k != P(s, c) && -1 <= q.parent < |s.procs| && PcInRange(s, k, q.pc)
    requires q.state != RUNNING && q.state != SLEEPING && (q.state == RUNNABLE ==> Resumes(q.pc)) && q.state != ZOMBIE
    requires q.pc == Dead ==> q.state == UNUSED || q.state == EMBRYO
    requires Parents(u) && (pc == Run || pc == PtDone || pc == Fork2(k) || pc == Fork4(k))
    requires Count(At(s, c)) == Count(pc) && forall l :: Has(At(s, c), l) <==> Has(pc, l)
    requires (At(s, c) == Fork1 || At(s, c).Fork3? || At(s, c).Fork5?) && Core(s)
    ensures Core(Goto(u, c, pc))
  {
    hide Core, Guard, Has, Count, PcInRange;
    SlotSetCore(s, u, k, q);
    ForkMoves(u, c, k, pc);
  }

  lemma ForkMoves(s: State, c: nat, k: nat, pc: Pc)
    requires Core(s) && InCode(s, c) && k < |s.procs| && (pc == Run || pc == PtDone || pc == Fork2(k) || pc == Fork4(k))
    requires Count(At(s, c)) == Count(pc) && forall l :: Has(At(s, c), l) <==> Has(pc, l)
    requires At(s, c) == Fork1 || At(s, c).Fork3? || At(s, c).Fork5?
    ensures Core(Goto(s, c, pc))
  {
    hide Placed, States, Locked, Cli, Sleeps, Parents, Waits, Has, Count, Guard;
    var t := Goto(s, c, pc);
    BodyLocks(s, t, c);
    GuardsStay(s, t, c);
    MovedSleeps(s, t, c);
    MovedCore(s, t, c);
  }

  lemma ForkPoints(s: State, p: nat, k: nat)
    ensures Count(Fork1) == Count(PtDone) && forall l :: Has(Fork1, l) == Has(PtDone, l)
    ensures Count(Fork1) == Count(Fork2(k)) && forall l :: Has(Fork1, l) == Has(Fork2(k), l)
    ensures Count(Fork3(k)) == Count(Run) && forall l :: Has(Fork3(k), l) == Has(Run, l)
    ensures Count(Fork3(k)) == Count(Fork4(k)) && forall l :: Has(Fork3(k), l) == Has(Fork4(k), l)
    ensures Count(Fork5(k)) == Count(PtDone) && forall l :: Has(Fork5(k), l) == Has(PtDone, l)
    ensures PcInRange(s, p, Forkret)
  {}

  /** Which slot the code points of `fork` fill. */
  lemma ForkSlots(k: nat)
    ensures ForkSlot(Fork1) == -1 && ForkSlot(Fork2(k)) == ForkSlot(Fork3(k)) == ForkSlot(Fork4(k)) == ForkSlot(Fork5(k)) == k
    ensures ForkSlot(Run) == ForkSlot(PtDone) == ForkSlot(Forkret) == -1
    ensures !ForkLate(Fork2(k)) && !ForkLate(Fork3(k)) && ForkLate(Fork4(k)) && ForkLate(Fork5(k))
  {}

  lemma UnusedIsOrphan(s: State, k: nat)
    requires Parents(s) && k < |s.procs| && s.procs[k].state == UNUSED
    ensures s.procs[k].parent == -1
  {
    assert ParentOk(s, k);
  }

  lemma ForkAllocForks(s: State, t: State, p: nat, k: nat)
    requires Forks(s) && p < |s.procs| && k < |s.procs| && s.procs[k].state == UNUSED && s.procs[k].parent == -1
    requires s.procs[p].state == RUNNING && s.procs[p].pc == Fork1
    requires |t.procs| == |s.procs| && t.procs == s.procs[k := t.procs[k]][p := s.procs[p].(pc := Fork2(k))]
    requires t.procs[k] == s.procs[k].(state := EMBRYO, pid := t.procs[k].pid)
    ensures Forks(t)
  {
    hide Forks, ForkSlot, ForkLate;
    ForkSlots(k);
    NoForkerOf(s, k);
    ForkStepForks(s, t, p, k);
  }

  lemma ForkAllocTakes(s: State, c: nat, k: nat)
    requires Inv(s) && InCode(s, c) && At(s, c) == Fork1 && k < |s.procs| && s.procs[k].state == UNUSED
    ensures var q := s.procs[k].(state := EMBRYO, pid := s.nextpid);
            Inv(Goto(SetProc(s, k, q).(nextpid := s.nextpid + 1), c, Fork2(k)))
  {
    hide Placed, States, Locked, Cli, Sleeps, Waits, Parents, Forks, PcInRange, Has, Count, ForkSlot, ForkLate;
    var q := s.procs[k].(state := EMBRYO, pid := s.nextpid);
    var u := SetProc(s, k, q).(nextpid := s.nextpid + 1);
    var t := Goto(u, c, Fork2(k));
    ForkPoints(s, k, k);
    RunningHere(s, c);
    EmptyIsOff(s, k);
    UnusedIsOrphan(s, k);
    SlotParents(s, u, k, q);
    ForkStepKeeps(s, u, c, k, q, Fork2(k));
    ForkAllocForks(s, t, P(s, c), k);
  }

  lemma ForkAllocKeeps(s: State, c: nat)
    requires Inv(s) && Enabled(s, ForkAlloc(c))
    ensures Inv(Do(s, ForkAlloc(c)))
  {
    hide Inv, UnusedFrom, Has, Count, ForkSlot, ForkLate;
    var k := UnusedFrom(s.procs, 0);
    ForkPoints(s, k, k);
    ForkSlots(k);
    PtDoneIsPlain();
    if k == |s.procs| {
      ToPtDone(s, c);
    } else {
      var q := s.procs[k].(state := EMBRYO, pid := s.nextpid);
      ForkAllocTakes(s, c, k);
      assert Do(s, ForkAlloc(c)) == Goto(SetProc(s, k, q).(nextpid := s.nextpid + 1), c, Fork2(k));
    }
  }

  lemma NoForkerOf(s: State, k: nat)
    requires Forks(s) && k < |s.procs| && s.procs[k].state != EMBRYO
    ensures forall q :: 0 <= q < |s.procs| ==> !Forking(s.procs[q], k)
  {
    forall q | 0 <= q < |s.procs|
      ensures !Forking(s.procs[q], k)
    {
      assert ForkOk(s, q, k);
    }
  }

  /** What is known of the slot while `fork` fills it. */
  lemma TheForker(s: State, c: nat, k: nat)
    requires Placed(s) && States(s) && Forks(s) && InCode(s, c) && k < |s.procs| && ForkSlot(At(s, c)) == k
    ensures s.procs[P(s, c)].state == RUNNING && s.procs[k].state == EMBRYO && k != P(s, c)
    ensures s.procs[k].parent == (if ForkLate(At(s, c)) then P(s, c) else -1)
    ensures s.procs[k].on == -1 && PcInRange(s, k, s.procs[k].pc)
    ensures forall q :: 0 <= q < |s.procs| && q != P(s, c) ==> !Forking(s.procs[q], k)
  {
    hide Placed, States, Forks, ForkSlot, ForkLate, PcInRange;
    RunningHere(s, c);
    OnlyForker(s, P(s, c), k);
    EmptyIsOff(s, k);
  }

  lemma OnlyForker(s: State, p: nat, k: nat)
    requires Forks(s) && p < |s.procs| && k < |s.procs| && Forking(s.procs[p], k)
    ensures s.procs[k].state == EMBRYO && s.procs[k].parent == (if ForkLate(s.procs[p].pc) then p else -1)
    ensures forall q :: 0 <= q < |s.procs| && q != p ==> !Forking(s.procs[q], k)
  {
    hide ForkSlot, ForkLate;
    assert ForkOk(s, p, k);
    forall q | 0 <= q < |s.procs| && q != p
      ensures !Forking(s.procs[q], k)
    {
      assert OneForks(s, p, q, k);
    }
  }

  /** Slot `k` becomes `q` and the process that fills it goes on at `pc`. */
  lemma FillForks(s: State, t: State, p: nat, k: nat, q: Proc, pc: Pc)
    requires Forks(s) && p < |s.procs| && k < |s.procs| && p != k && Forking(s.procs[p], k)
    requires t.procs == s.procs[k := q][p := s.procs[p].(pc := pc)] && (Alive(q) ==> ForkSlot(q.pc) == -1) && s.procs[p].state == RUNNING
    requires if pc == Fork4(k) then q.state == EMBRYO && q.parent == p else ForkSlot(pc) == -1 && q.state != EMBRYO
    ensures Forks(t)
  {
    hide Forks, ForkSlot, ForkLate;
    ForkSlots(k);
    OnlyForker(s, p, k);
    ForkStepForks(s, t, p, k);
  }

  lemma ForkFailKeeps(s: State, c: nat)
    requires Inv(s) && Enabled(s, ForkFail(c))
    ensures Inv(Do(s, ForkFail(c)))
  {
    hide Placed, States, Locked, Cli, Sleeps, Waits, Parents, Forks, PcInRange, Has, Count, ForkSlot, ForkLate;
    var k := At(s, c).np;
    ForkPoints(s, k, k);
    ForkSlots(k);
    var q := s.procs[k].(state := UNUSED);
    var u := SetProc(s, k, q);
    TheForker(s, c, k);
    SlotParents(s, u, k, q);
    ForkStepKeeps(s, u, c, k, q, Run);
    FillForks(s, Goto(u, c, Run), P(s, c), k, q, Run);
  }

  lemma ForkParentKeeps(s: State, c: nat)
    requires Inv(s) && Enabled(s, ForkParent(c))
    ensures Inv(Do(s, ForkParent(c)))
  {
    hide Placed, States, Locked, Cli, Sleeps, Waits, Parents, Forks, PcInRange, Has, Count, ForkSlot, ForkLate;
    var k := At(s, c).np;
    ForkPoints(s, k, k);
    ForkSlots(k);
    var q := s.procs[k].(parent := P(s, c));
    var u := SetProc(s, k, q);
    TheForker(s, c, k);
    SlotParents(s, u, k, q);
    ForkStepKeeps(s, u, c, k, q, Fork4(k));
    FillForks(s, Goto(u, c, Fork4(k)), P(s, c), k, q, Fork4(k));
  }

  lemma ForkGoKeeps(s: State, c: nat)
    requires Inv(s) && Enabled(s, ForkGo(c))
    ensures Inv(Do(s, ForkGo(c)))
  {
    hide Placed, States, Locked, Cli, Sleeps, Waits, Parents, Forks, PcInRange, Has, Count, ForkSlot, ForkLate;
    var k := At(s, c).np;
    ForkPoints(s, k, k);
    ForkSlots(k);
    var q := s.procs[k].(state := RUNNABLE, pc := Forkret);
    var u := SetProc(s, k, q);
    TheForker(s, c, k);
    SlotParents(s, u, k, q);
    ForkStepKeeps(s, u, c, k, q, PtDone);
    FillForks(s, Goto(u, c, PtDone), P(s, c), k, q, PtDone);
  }

  // ----- every step

  /** The step is a call that no process should make. */
  predicate Misuse(s: State, l: Label)
    requires Enabled(s, l)
  {
    l.Call? && CallPanics(s, P(s, l.c), l.what)
  }

  /** Every step keeps the invariant, and only misuse runs into a panic. */
  lemma StepKeeps(s: State, l: Label)
    requires Inv(s) && Enabled(s, l)
    ensures Inv(Do(s, l)) && (Panics(s, l) <==> Misuse(s, l))
  {
    hide Inv, Do, Enabled, ReleasePanics, SchedPanics;
    match l
    case SAcquire(c) => SAcquireKeeps(s, c);
    case SPick(c, p) => SPickKeeps(s, c, p);
    case SSwitch(c) => SSwitchKeeps(s, c);
    case SClear(c) => SClearKeeps(s, c);
    case SRelease(c) => SReleaseKeeps(s, c);
    case Sched(c) => SchedKeeps(s, c);
    case Call(c, what) => CallKeeps(s, c, what);
    case Acquire(c) => AcquireKeeps(s, c);
    case Release(c) => ReleaseKeeps(s, c);
    case Preempt(c) => PreemptKeeps(s, c);
    case YieldSet(c) => YieldSetKeeps(s, c);
    case WaitBody(c) => WaitBodyKeeps(s, c);
    case WaitResume(c) => ResumeKeeps(s, c, l);
    case ExitBody(c) => ExitBodyKeeps(s, c);
    case AcqTest(c) => AcqTestKeeps(s, c);
    case AcqSleep(c) => AcqSleepKeeps(s, c);
    case AcqWoken(c) => ResumeKeeps(s, c, l);
    case RelClear(c) => RelClearKeeps(s, c);
    case RelWake(c) => RelWakeKeeps(s, c);
    case KillBody(c) => KillBodyKeeps(s, c);
    case ForkAlloc(c) => ForkAllocKeeps(s, c);
    case ForkFail(c) => ForkFailKeeps(s, c);
    case ForkParent(c) => ForkParentKeeps(s, c);
    case ForkGo(c) => ForkGoKeeps(s, c);
  }
}
