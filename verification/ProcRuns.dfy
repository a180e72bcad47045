/** What holds in every run of the process machine, however the CPUs interleave. */
module ProcRuns {
  import opened ProcTable
  import opened ProcMachine
  import opened ProcInv
  import opened ProcSteps

  /** After `userinit`: init is ready to run, the rest of the table is unused, and
      every CPU is about to enter its scheduler loop. */
  ghost predicate Booted(s: State) {
    && s.init < |s.procs|
    && (forall p :: 0 <= p < |s.procs| ==> BootedProc(s, p))
    && (forall c :: 0 <= c < |s.cpus| ==> s.cpus[c].run == SIdle && s.cpus[c].proc == -1 && s.cpus[c].ncli == 0)
    && s.holder == map[]
    && (forall l :: 0 <= l < |s.slocks| ==> s.slocks[l] == -1)
    && s.nextpid == 2
  }

  ghost predicate BootedProc(s: State, p: nat)
    requires p < |s.procs|
  {
    var q := s.procs[p];
    && q.parent == -1 && q.on == -1 && q.pid == (if p == s.init then 1 else 0)
    && if p == s.init then q.state == RUNNABLE && q.pc == Forkret else q.state == UNUSED && q.pc == Dead
  }

  /** Every step of the run can be taken when its turn comes. */
  ghost predicate Runs(s: State, run: seq<Label>)
    decreases |run|
  {
    run == [] || (Enabled(s, run[0]) && Runs(Do(s, run[0]), run[1..]))
  }

  ghost function After(s: State, run: seq<Label>): State
    requires Runs(s, run)
    decreases |run|
  {
    if run == [] then s else After(Do(s, run[0]), run[1..])
  }

  // ----- sleep locks have owners

  /** A process in `releasesleep`, up to the unlocking, is the one that locked. */
  ghost predicate Owned(s: State) {
    forall p :: 0 <= p < |s.procs| ==> Owner(s, p, s.procs[p].pc)
  }

  ghost predicate Owner(s: State, p: nat, pc: Pc) {
    (Point(pc).Rel0? || Point(pc).Rel1?) && Point(pc).l < |s.slocks| ==> s.slocks[Point(pc).l] == p
  }

  /** The scans of the table move nobody. */
  lemma WakeupPcs(t: Table, ch: Chan, q: nat)
    requires q < |t|
    ensures Wakeup(t, ch)[q].pc == t[q].pc
  {}

  lemma ExitedPcs(t: Table, cur: nat, init: nat, q: nat)
    requires q < |t| && cur < |t| && init < |t|
    ensures Exited(t, cur, init)[q].pc == t[q].pc
  {
    hide HasZombie, Wakeup;
    var u := if t[cur].parent >= 0 then Wakeup(t, OnProc(t[cur].parent)) else t;
    if t[cur].parent >= 0 {
      WakeupPcs(t, OnProc(t[cur].parent), q);
    }
    WakeupPcs(u, OnProc(init), q);
  }

  /** A step moves no process but the one on its CPU, except that `fork` sets up
      where its child will start. */
  lemma OthersStay(s: State, l: Label, q: nat)
    requires Enabled(s, l) && q < |s.procs| && s.init < |s.procs| && InCode(s, l.c) && P(s, l.c) != q
    ensures |Do(s, l).procs| == |s.procs|
    ensures Do(s, l).procs[q].pc == s.procs[q].pc || Do(s, l).procs[q].pc == Forkret
  {
    hide ScanFrom, UnusedFrom, PidFrom, Wakeup, Exited, PushCli, PopCli, ReleaseOf, AcquireOf, StartPoint, DoSched, DoWait, Preemptible, CallPanics;
    if l.WaitBody? {
      WaitOthers(s, l.c, q);
    } else if l.ExitBody? {
      ExitedPcs(s.procs, P(s, l.c), s.init, q);
    } else if l.RelWake? {
      WakeupPcs(s.procs, OnLock(At(s, l.c).l), q);
    }
  }

  lemma WaitOthers(s: State, c: nat, q: nat)
    requires InCode(s, c) && q < |s.procs| && P(s, c) != q
    ensures |DoWait(s, c).procs| == |s.procs| && DoWait(s, c).procs[q].pc == s.procs[q].pc
  {
    hide ScanFrom;
    ScanFinds(s.procs, P(s, c), 0, false);
  }

  /** A process enters `releasesleep` only by calling it. */
  lemma MoverEnters(s: State, l: Label)
    requires Enabled(s, l) && InCode(s, l.c) && !l.Call? && !l.Acquire? && !l.Release? && !l.Preempt? && !l.YieldSet?
    ensures |Do(s, l).procs| == |s.procs|
    ensures var pc := Do(s, l).procs[P(s, l.c)].pc; !Point(pc).Rel0? && !Point(pc).Rel1?
  {
    hide ScanFrom, UnusedFrom, Wakeup, Killed, Exited, DoSched, DoWait, PushCli, PopCli, Preemptible, StartPoint, CallPanics, AcquireOf, ReleaseOf;
    if l.WaitBody? {
      WaitEnters(s, l.c);
    }
  }

  lemma WaitEnters(s: State, c: nat)
    requires InCode(s, c) && At(s, c) == Wait1
    ensures |DoWait(s, c).procs| == |s.procs|
    ensures var pc := DoWait(s, c).procs[P(s, c)].pc; !Point(pc).Rel0? && !Point(pc).Rel1?
  {
    hide ScanFrom;
    ScanFinds(s.procs, P(s, c), 0, false);
  }

  lemma MoverOwns(s: State, l: Label)
    requires Enabled(s, l) && InCode(s, l.c) && Owner(s, P(s, l.c), At(s, l.c)) && PcInRange(s, P(s, l.c), At(s, l.c))
    ensures |Do(s, l).procs| == |s.procs| && Owner(s, P(s, l.c), Do(s, l).procs[P(s, l.c)].pc)
  {
    if l.Call? || l.Acquire? || l.Release? || l.Preempt? || l.YieldSet? {
      MoverOwnsPoint(s, l);
    } else {
      hide Do;
      MoverEnters(s, l);
    }
  }

  /** Where locking, unlocking and yielding take a process. */
  lemma MoverOwnsPoint(s: State, l: Label)
    requires Enabled(s, l) && InCode(s, l.c) && Owner(s, P(s, l.c), At(s, l.c)) && PcInRange(s, P(s, l.c), At(s, l.c))
    requires l.Call? || l.Acquire? || l.Release? || l.Preempt? || l.YieldSet?
    ensures |Do(s, l).procs| == |s.procs| && Owner(s, P(s, l.c), Do(s, l).procs[P(s, l.c)].pc)
  {
    hide Wakeup, Killed, DoWait, DoExit, DoSched, DoForkAlloc, PushCli, PopCli, Owner, PointInRange;
    var p, pc := P(s, l.c), At(s, l.c);
    if l.Call? {
      if !CallPanics(s, p, l.what) {
        CalledOwns(s, p, l.what);
      }
    } else if l.Acquire? {
      AcquiredOwns(s, p, pc);
    } else if l.Release? {
      ReleasedOwns(s, p, pc);
    } else {
      YieldedOwns(s, p, pc);
    }
  }

  lemma CalledOwns(s: State, p: nat, pc: Pc)
    requires StartPoint(s, p, pc) && !CallPanics(s, p, pc)
    ensures Owner(s, p, pc)
  {}

  lemma AcquiredOwns(s: State, p: nat, pc: Pc)
    requires AcquireOf(pc).To? && Owner(s, p, pc)
    ensures Owner(s, p, AcquireOf(pc).next)
  {}

  lemma ReleasedOwns(s: State, p: nat, pc: Pc)
    requires ReleaseOf(pc).To? && Owner(s, p, pc) && (Yielding(pc) ==> Preemptible(pc.back))
    ensures Owner(s, p, ReleaseOf(pc).next)
  {}

  lemma YieldedOwns(s: State, p: nat, pc: Pc)
    requires Owner(s, p, pc)
    ensures Preemptible(pc) ==> Owner(s, p, WantYield(pc))
    ensures pc.Yield1? ==> Owner(s, p, YieldR(pc.back))
  {}

  /** Mutual exclusion: a sleep lock that a process has locked stays its own until
      it unlocks it itself. */
  lemma OwnerKeepsLock(s: State, l: Label, k: nat)
    requires Inv(s) && Owned(s) && Enabled(s, l) && k < |s.slocks| && s.slocks[k] >= 0
    ensures |Do(s, l).slocks| == |s.slocks|
    ensures || Do(s, l).slocks[k] == s.slocks[k]
            || (l.RelClear? && P(s, l.c) == s.slocks[k] && At(s, l.c) == Rel1(k) && Do(s, l).slocks[k] == -1)
  {
    hide Inv, ScanFrom, UnusedFrom, Wakeup, Killed, Exited, PushCli, PopCli, ReleaseOf, AcquireOf, StartPoint;
    if l.RelClear? {
      assert Owner(s, P(s, l.c), At(s, l.c));
    }
    if l.WaitBody? {
      ScanFinds(s.procs, P(s, l.c), 0, false);
    }
  }

  lemma OwnedKeeps(s: State, l: Label)
    requires Inv(s) && Owned(s) && Enabled(s, l)
    ensures Owned(Do(s, l))
  {
    hide Inv, Do, Enabled;
    var t := Do(s, l);
    InRange(s, l);
    forall q | 0 <= q < |t.procs|
      ensures Owner(t, q, t.procs[q].pc)
    {
      OwnerKeeps(s, l, q);
    }
  }

  lemma InRange(s: State, l: Label)
    requires Inv(s) && Enabled(s, l)
    ensures l.c < |s.cpus| && s.init < |s.procs| && |Do(s, l).procs| == |s.procs| && |Do(s, l).slocks| == |s.slocks|
  {
    hide Inv, Do, Enabled;
    assert s.init < |s.procs| by { InvInit(s); }
    SameSizes(s, l);
  }

  lemma InvRange(s: State, c: nat)
    requires Inv(s) && InCode(s, c)
    ensures PcInRange(s, P(s, c), At(s, c))
  {
    hide States, Locked, Cli, Waits, Sleeps, Parents, Forks;
    RangeAt(s, c);
  }

  lemma InvInit(s: State)
    requires Inv(s)
    ensures s.init < |s.procs|
  {
    hide States, Locked, Cli, Waits, Sleeps, Parents, Forks;
  }

  lemma SameSizes(s: State, l: Label)
    requires Enabled(s, l)
    ensures l.c < |s.cpus| && |Do(s, l).procs| == |s.procs| && |Do(s, l).slocks| == |s.slocks|
  {
    hide ScanFrom, UnusedFrom, Wakeup, Killed, Exited, PushCli, PopCli, ReleaseOf, AcquireOf, StartPoint, Preemptible, DoSched, DoWait;
    if l.SAcquire? || l.SPick? || l.SSwitch? || l.SClear? || l.SRelease? || l.Sched? {
      SchedSizes(s, l);
    } else if l.WaitBody? {
      WaitSizes(s, l.c);
    }
  }

  lemma SchedSizes(s: State, l: Label)
    requires Enabled(s, l) && (l.SAcquire? || l.SPick? || l.SSwitch? || l.SClear? || l.SRelease? || l.Sched?)
    ensures l.c < |s.cpus| && |DoSched(s, l).procs| == |s.procs| && |DoSched(s, l).slocks| == |s.slocks|
  {
    hide PushCli, PopCli;
  }

  lemma WaitSizes(s: State, c: nat)
    requires InCode(s, c)
    ensures |DoWait(s, c).procs| == |s.procs| && |DoWait(s, c).slocks| == |s.slocks|
  {
    hide ScanFrom;
    ScanFinds(s.procs, P(s, c), 0, false);
  }

  lemma SchedMovesNobody(s: State, l: Label, q: nat)
    requires Enabled(s, l) && !InCode(s, l.c) && q < |s.procs|
    ensures |Do(s, l).procs| == |s.procs| && Do(s, l).procs[q].pc == s.procs[q].pc
  {
    hide DoWait, DoExit, DoAcqTest, DoForkAlloc, Wakeup, Killed, PushCli, PopCli;
  }

  lemma OwnerKeeps(s: State, l: Label, q: nat)
    requires Inv(s) && Owned(s) && Enabled(s, l) && q < |s.procs|
    ensures |Do(s, l).procs| == |s.procs| && Owner(Do(s, l), q, Do(s, l).procs[q].pc)
  {
    hide Inv, Do, Enabled, Owner;
    InRange(s, l);
    assert Owner(s, q, s.procs[q].pc);
    if InCode(s, l.c) && P(s, l.c) == q {
      InvRange(s, l.c);
      MoverOwns(s, l);
    } else if InCode(s, l.c) {
      OthersStay(s, l, q);
    } else {
      SchedMovesNobody(s, l, q);
    }
    StillOwns(s, l, q, Do(s, l).procs[q].pc);
  }

  /** An owner at a point that is still before the unlocking is still the owner. */
  lemma StillOwns(s: State, l: Label, q: nat, pc: Pc)
    requires Inv(s) && Owned(s) && Enabled(s, l) && q < |s.procs| && (pc == Forkret || Owner(s, q, pc))
    requires |Do(s, l).procs| == |s.procs| && pc == Do(s, l).procs[q].pc
    ensures Owner(Do(s, l), q, pc)
  {
    hide Inv, Do, Enabled;
    SameSizes(s, l);
    if (Point(pc).Rel0? || Point(pc).Rel1?) && Point(pc).l < |s.slocks| {
      OwnerKeepsLock(s, l, Point(pc).l);
      if l.RelClear? {
        ClearMoves(s, l);
      }
    }
  }

  lemma ClearMoves(s: State, l: Label)
    requires Enabled(s, l) && l.RelClear?
    ensures InCode(s, l.c) && |Do(s, l).procs| == |s.procs| && Do(s, l).procs[P(s, l.c)].pc.Rel2?
  {}

  // ----- all runs

  lemma BootProc(s: State, p: nat)
    requires Booted(s) && p < |s.procs|
    ensures ProcPlaced(s, p) && StateOk(s, p) && SleepOk(s, p) && ParentOk(s, p) && Owner(s, p, s.procs[p].pc) && EmbryoOk(s, p)
    ensures s.procs[p].state != ZOMBIE && forall k :: 0 <= k < |s.procs| ==> !Forking(s.procs[p], k)
  {
    assert BootedProc(s, p);
  }

  lemma BootInv(s: State)
    requires Booted(s)
    ensures Inv(s) && Owned(s)
  {
    hide ProcPlaced, StateOk, SleepOk, ParentOk, Owner, EmbryoOk, Forking, Has;
    forall p | 0 <= p < |s.procs|
      ensures ProcPlaced(s, p) && StateOk(s, p) && SleepOk(s, p) && ParentOk(s, p) && Owner(s, p, s.procs[p].pc) && EmbryoOk(s, p)
      ensures s.procs[p].state != ZOMBIE && forall k :: 0 <= k < |s.procs| ==> !Forking(s.procs[p], k)
    {
      BootProc(s, p);
    }
    assert BootedProc(s, s.init);
  }

  lemma {:induction false} RunKeeps(s: State, run: seq<Label>)
    requires Inv(s) && Owned(s) && Runs(s, run)
    ensures Inv(After(s, run)) && Owned(After(s, run))
    decreases |run|
  {
    hide Inv, Owned, Do, Enabled;
    if run != [] {
      StepKeeps(s, run[0]);
      OwnedKeeps(s, run[0]);
      RunKeeps(Do(s, run[0]), run[1..]);
    }
  }

  /** A step of a run panics exactly if it is init's exit, or a process giving up a sleep
      lock it does not hold; release, popcli and sched never do. And no run lets an exited
      process run again, which is where `exit` panics. */
  lemma NoPanic(s: State, run: seq<Label>, l: Label)
    requires Booted(s) && Runs(s, run) && Enabled(After(s, run), l)
    ensures Panics(After(s, run), l) <==> Misuse(After(s, run), l)
    ensures forall c :: InCode(After(s, run), c) ==> At(After(s, run), c) != Dead
  {
    hide Inv, Owned, Do, Enabled, Booted, Panics, Misuse;
    BootInv(s);
    RunKeeps(s, run);
    StepKeeps(After(s, run), l);
    forall c | InCode(After(s, run), c)
      ensures At(After(s, run), c) != Dead
    {
      NotDead(After(s, run), c);
    }
  }

  lemma NotDead(s: State, c: nat)
    requires Inv(s) && InCode(s, c)
    ensures At(s, c) != Dead
  {
    hide Locked, Cli, Waits, Sleeps, Parents, Forks;
    assert CpuPlaced(s, c) && StateOk(s, P(s, c));
  }

  /** No run lets a CPU acquire a spin lock that it already holds. */
  lemma NoSelfDeadlock(s: State, run: seq<Label>, c: nat)
    requires Booted(s) && Runs(s, run)
    ensures var t := After(s, run);
            InCode(t, c) && AcquireOf(At(t, c)).To? && AcquireOf(At(t, c)).lock in t.holder ==>
              t.holder[AcquireOf(At(t, c)).lock] != c
  {
    hide Inv, Owned, Booted, Placed, States, Cli, Waits, Sleeps, Parents, Forks, Has, AcquireOf, Do, Enabled;
    BootInv(s);
    RunKeeps(s, run);
    var t := After(s, run);
    if InCode(t, c) && AcquireOf(At(t, c)).To? {
      var l := AcquireOf(At(t, c)).lock;
      AcquireAdds(At(t, c), l);
      assert Locked(t) by { InvLocked(t); }
    }
  }

  lemma InvLocked(s: State)
    requires Inv(s)
    ensures Locked(s) && Cli(s)
  {
    hide Placed, States, Locked, Cli, Waits, Sleeps, Parents, Forks;
  }

  // ----- ncli

  /** The spin locks that a CPU holds. */
  ghost function HeldBy(s: State, c: nat): set<Lock> {
    set l | l in s.holder && s.holder[l] == c
  }

  /** The spin lock, other than ptable.lock, that a code point holds. */
  function Inner(pc: Pc): set<Lock> {
    match pc
    case Acq1(k) => {Lk(k)} case Acq2(k) => {Lk(k)} case Acq3(k) => {Lk(k)} case Acq5(k) => {Lk(k)}
    case Rel1(k) => {Lk(k)} case Rel2(k) => {Lk(k)} case Rel3(k) => {Lk(k)} case Rel4(k) => {Lk(k)} case Rel5(k) => {Lk(k)}
    case _ => {}
  }

  lemma InnerIs(pc: Pc, l: Lock)
    ensures Has(pc, l) <==> (l == Pt && Has(pc, Pt)) || l in Inner(pc)
    ensures Pt !in Inner(pc) && Count(pc) == |Inner(pc)| + if Has(pc, Pt) then 1 else 0
  {}

  lemma CountIsSize(pc: Pc, held: set<Lock>)
    requires forall l :: l in held <==> Has(pc, l)
    ensures |held| == Count(pc)
  {
    hide Has, Count, Inner;
    InnerIs(pc, Pt);
    forall l
      ensures l in held <==> (l == Pt && Has(pc, Pt)) || l in Inner(pc)
    {
      InnerIs(pc, l);
    }
    if Has(pc, Pt) {
      assert held == {Pt} + Inner(pc);
    } else {
      assert held == Inner(pc);
    }
  }

  /** `ncli` is the number of spin locks the CPU holds, and while it holds one its
      interrupts are off. */
  lemma NcliCountsLocks(s: State, run: seq<Label>, c: nat)
    requires Booted(s) && Runs(s, run) && c < |After(s, run).cpus|
    ensures var t := After(s, run);
            t.cpus[c].ncli == |HeldBy(t, c)| && (HeldBy(t, c) != {} ==> !t.cpus[c].iff)
  {
    hide Inv, Owned, Booted, Do, Enabled;
    BootInv(s);
    RunKeeps(s, run);
    NcliIsHeld(After(s, run), c);
  }

  lemma NcliIsHeld(s: State, c: nat)
    requires Inv(s) && c < |s.cpus|
    ensures s.cpus[c].ncli == |HeldBy(s, c)| && (HeldBy(s, c) != {} ==> !s.cpus[c].iff)
  {
    hide Inv, Has, Count;
    InvLocked(s);
    HeldByIs(s, c);
    var k := s.cpus[c];
    if k.run == SIdle || (k.run == InProc && !(0 <= k.proc < |s.procs|)) {
      assert HeldBy(s, c) == {};
    } else if k.run == InProc {
      CountIsSize(s.procs[k.proc].pc, HeldBy(s, c));
    } else {
      assert HeldBy(s, c) == {Pt};
    }
  }

  lemma HeldByIs(s: State, c: nat)
    requires Locked(s) && c < |s.cpus|
    ensures forall l :: l in HeldBy(s, c) <==> CpuHas(s, c, l)
  {
    hide Has;
  }

  // ----- who runs where

  /** A process is current on at most one CPU, and on exactly one if it runs. While
      nobody is in the scheduler, the processes current on a CPU are the running ones. */
  lemma OneCpuPerProcess(s: State, run: seq<Label>, p: nat)
    requires Booted(s) && Runs(s, run) && p < |After(s, run).procs|
    ensures var t := After(s, run);
            && (forall c, d :: 0 <= c < d < |t.cpus| && t.cpus[c].proc == p ==> t.cpus[d].proc != p)
            && (t.procs[p].state == RUNNING ==> exists c :: 0 <= c < |t.cpus| && t.cpus[c].proc == p)
            && (Pt !in t.holder && (exists c :: 0 <= c < |t.cpus| && t.cpus[c].proc == p) ==> t.procs[p].state == RUNNING)
  {
    hide Inv, Owned, Booted, Do, Enabled;
    BootInv(s);
    RunKeeps(s, run);
    PlacedOnce(After(s, run), p);
  }

  lemma PlacedOnce(s: State, p: nat)
    requires Inv(s) && p < |s.procs|
    ensures && (forall c, d :: 0 <= c < d < |s.cpus| && s.cpus[c].proc == p ==> s.cpus[d].proc != p)
            && (s.procs[p].state == RUNNING ==> exists c :: 0 <= c < |s.cpus| && s.cpus[c].proc == p)
            && (Pt !in s.holder && (exists c :: 0 <= c < |s.cpus| && s.cpus[c].proc == p) ==> s.procs[p].state == RUNNING)
  {
    hide Cli, Waits, Sleeps, Parents, Forks, Has;
    assert ProcPlaced(s, p) && StateOk(s, p);
    forall c | 0 <= c < |s.cpus| && s.cpus[c].proc == p
      ensures s.procs[p].on == c && (Pt !in s.holder ==> s.cpus[c].run == InProc)
    {
      assert CpuPlaced(s, c);
      assert CpuHas(s, c, Pt) || s.cpus[c].run == SIdle || s.cpus[c].run == InProc;
    }
  }

  // ----- no wakeup is lost

  /** No parent sleeps in `wait` while one of its children has exited. */
  lemma WaitLosesNoWakeup(s: State, run: seq<Label>, parent: nat, child: nat)
    requires Booted(s) && Runs(s, run) && parent < |After(s, run).procs| && child < |After(s, run).procs|
    ensures var t := After(s, run);
            t.procs[child].state == ZOMBIE && t.procs[child].parent == parent ==>
              !(t.procs[parent].state == SLEEPING && t.procs[parent].chan == OnProc(parent))
  {
    hide Inv, Owned, Booted, Do, Enabled;
    BootInv(s);
    RunKeeps(s, run);
    WaiterIsUp(After(s, run), parent, child);
  }

  lemma WaiterIsUp(s: State, parent: nat, child: nat)
    requires Inv(s) && parent < |s.procs| && child < |s.procs|
    ensures s.procs[child].state == ZOMBIE && s.procs[child].parent == parent ==>
              !(s.procs[parent].state == SLEEPING && s.procs[parent].chan == OnProc(parent))
  {
    hide Locked, Cli, Sleeps, Parents, Forks;
    assert StateOk(s, parent);
  }

  /** Whoever sleeps on a sleep lock finds it locked, or its releaser has just
      unlocked it and will wake the sleepers before it lets go of the spin lock. */
  lemma SleepLockLosesNoWakeup(s: State, run: seq<Label>, p: nat, k: nat)
    requires Booted(s) && Runs(s, run) && p < |After(s, run).procs|
    ensures var t := After(s, run);
            t.procs[p].state == SLEEPING && t.procs[p].chan == OnLock(k) && k < |t.slocks| ==> t.slocks[k] >= 0 || Pending(t, k)
  {
    hide Inv, Owned, Booted, Do, Enabled;
    BootInv(s);
    RunKeeps(s, run);
    SleeperIsGuarded(After(s, run), p, k);
  }

  lemma SleeperIsGuarded(s: State, p: nat, k: nat)
    requires Inv(s) && p < |s.procs|
    ensures s.procs[p].state == SLEEPING && s.procs[p].chan == OnLock(k) && k < |s.slocks| ==> s.slocks[k] >= 0 || Pending(s, k)
  {
    hide Locked, Cli, Waits, Parents, Forks, Pending;
    assert StateOk(s, p) && SleepOk(s, p);
  }

  /** Every process but init, running or exited, has a live parent, so that
      somebody can always reap it. */
  lemma EveryProcessHasAParent(s: State, run: seq<Label>, p: nat)
    requires Booted(s) && Runs(s, run) && p < |After(s, run).procs|
    ensures var t := After(s, run);
            (Alive(t.procs[p]) || t.procs[p].state == ZOMBIE) && p != t.init ==>
              0 <= t.procs[p].parent < |t.procs| && t.procs[p].parent != p && Alive(t.procs[t.procs[p].parent])
  {
    hide Owned, Booted, Do, Enabled, Placed, States, Locked, Cli, Waits, Sleeps, Forks;
    BootInv(s);
    RunKeeps(s, run);
    assert ParentOk(After(s, run), p);
  }

  /** Mutual exclusion over all runs: once a process has locked a sleep lock, only
      its own unlocking changes that. */
  lemma SleepLocksExclude(s: State, run: seq<Label>, l: Label, k: nat)
    requires Booted(s) && Runs(s, run) && Enabled(After(s, run), l) && k < |After(s, run).slocks| && After(s, run).slocks[k] >= 0
    ensures var t := After(s, run);
            && |Do(t, l).slocks| == |t.slocks|
            && (Do(t, l).slocks[k] == t.slocks[k] ||
                (l == RelClear(l.c) && P(t, l.c) == t.slocks[k] && At(t, l.c) == Rel1(k) && Do(t, l).slocks[k] == -1))
  {
    hide Inv, Owned, Booted, Do, Enabled;
    BootInv(s);
    RunKeeps(s, run);
    OwnerKeepsLock(After(s, run), l, k);
  }
}
