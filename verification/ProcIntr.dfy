/** Interrupts over all runs of the process machine: what pushcli, popcli and the switch
    between processes remember. */
module ProcIntr {
  import opened ProcTable
  import opened ProcMachine
  import opened ProcInv
  import opened ProcSteps
  import opened ProcRuns
  import opened ProcLife

  /** While a CPU holds spin locks it remembers that interrupts were on, and in a process
      that holds none they are on; a process that was switched away remembers too. */
  ghost predicate Remembers(s: State) {
    && (forall c :: 0 <= c < |s.cpus| ==> CpuRemembers(s.cpus[c]))
    && (forall p :: 0 <= p < |s.procs| ==> ProcRemembers(s, p))
  }

  predicate CpuRemembers(c: Cpu) {
    c.run != SIdle ==> if c.ncli == 0 then c.iff else c.intena
  }

  ghost predicate ProcRemembers(s: State, p: nat)
    requires p < |s.procs|
  {
    Resumes(s.procs[p].pc) && s.procs[p].pc != Forkret && Away(s, s.procs[p]) ==> s.procs[p].intena
  }

  /** `sched` has saved the context of the process, or there is none yet. */
  predicate Away(s: State, q: Proc) {
    !(0 <= q.on < |s.cpus| && (s.cpus[q.on].run == InProc || s.cpus[q.on].run == InSched))
  }

  lemma SchedRemembers(s: State, l: Label)
    requires Inv(s) && Remembers(s) && Enabled(s, l) && (l.SAcquire? || l.SPick? || l.SSwitch? || l.SClear? || l.SRelease? || l.Sched?)
    ensures Remembers(Do(s, l))
  {
    hide Inv, Resumes, DoSched, Remembers;
    var t := Do(s, l);
    assert t == DoSched(s, l);
    InvPlaced(s);
    CliHere(s, l.c);
    match l
    case SPick(c, p) => PickRemembers(s, c, p);
    case SSwitch(c) => SwitchRemembers(s, c);
    case Sched(c) => SavedRemembers(s, c);
    case SClear(c) => ClearRemembers(s, c);
    case _ => IdleRemembers(s, l);
  }

  /** Entering and leaving the scheduler's loop. */
  lemma IdleRemembers(s: State, l: Label)
    requires Placed(s) && Remembers(s) && Enabled(s, l) && (l.SAcquire? || l.SRelease?) && s.cpus[l.c].ncli == (if l.SAcquire? then 0 else 1)
    ensures Remembers(DoSched(s, l))
  {
    hide Resumes;
    var t := DoSched(s, l);
    forall d | 0 <= d < |t.cpus|
      ensures CpuRemembers(t.cpus[d])
    {
      assert CpuRemembers(s.cpus[d]);
    }
    forall p | 0 <= p < |t.procs|
      ensures ProcRemembers(t, p)
    {
      assert ProcRemembers(s, p);
    }
  }

  lemma PickRemembers(s: State, c: nat, p: nat)
    requires Inv(s) && Remembers(s) && Enabled(s, SPick(c, p))
    ensures Remembers(DoSched(s, SPick(c, p)))
  {
    hide Inv, Resumes;
    var t := DoSched(s, SPick(c, p));
    ScanIsOff(s, c, p);
    forall d | 0 <= d < |t.cpus|
      ensures CpuRemembers(t.cpus[d])
    {
      assert CpuRemembers(s.cpus[d]);
    }
    forall q | 0 <= q < |t.procs|
      ensures ProcRemembers(t, q)
    {
      assert ProcRemembers(s, q);
    }
  }

  lemma ScanIsOff(s: State, c: nat, p: nat)
    requires Inv(s) && Enabled(s, SPick(c, p))
    ensures s.procs[p].on == -1
  {
    hide Placed, States, Locked, Cli, Waits, Sleeps, Parents, Forks;
    RunnableIsOff(s, c, p);
  }

  lemma SwitchRemembers(s: State, c: nat)
    requires Inv(s) && Placed(s) && Remembers(s) && Enabled(s, SSwitch(c)) && s.cpus[c].ncli == 1
    ensures Remembers(DoSched(s, SSwitch(c)))
  {
    hide Inv, Resumes, Placed;
    var t, p := DoSched(s, SSwitch(c)), s.cpus[c].proc;
    CpuOf(s, c);
    PickedResumes(s, c);
    assert ProcRemembers(s, p) && CpuRemembers(s.cpus[c]);
    forall d | 0 <= d < |t.cpus|
      ensures CpuRemembers(t.cpus[d])
    {
      assert CpuRemembers(s.cpus[d]);
    }
    forall q | 0 <= q < |t.procs|
      ensures ProcRemembers(t, q)
    {
      assert ProcRemembers(s, q);
    }
  }

  lemma CpuOf(s: State, c: nat)
    requires Placed(s) && c < |s.cpus| && s.cpus[c].run != SIdle && s.cpus[c].run != SScan
    ensures 0 <= s.cpus[c].proc < |s.procs| && s.procs[s.cpus[c].proc].on == c
    ensures forall q :: 0 <= q < |s.procs| && s.procs[q].on == c ==> q == s.cpus[c].proc
  {
    assert CpuPlaced(s, c);
    forall q | 0 <= q < |s.procs| && s.procs[q].on == c
      ensures q == s.cpus[c].proc
    {
      assert ProcPlaced(s, q);
    }
  }

  /** `sched` saves what the CPU remembers. */
  lemma SavedRemembers(s: State, c: nat)
    requires Placed(s) && Remembers(s) && Enabled(s, Sched(c)) && s.cpus[c].ncli == 1
    ensures Remembers(DoSched(s, Sched(c)))
  {
    hide Resumes, Placed;
    var t := DoSched(s, Sched(c));
    CpuOf(s, c);
    assert CpuRemembers(s.cpus[c]);
    forall d | 0 <= d < |t.cpus|
      ensures CpuRemembers(t.cpus[d])
    {
      assert CpuRemembers(s.cpus[d]);
    }
    forall q | 0 <= q < |t.procs|
      ensures ProcRemembers(t, q)
    {
      assert ProcRemembers(s, q);
    }
  }

  lemma ClearRemembers(s: State, c: nat)
    requires Placed(s) && Remembers(s) && Enabled(s, SClear(c))
    ensures Remembers(DoSched(s, SClear(c)))
  {
    hide Resumes, Placed;
    var t := DoSched(s, SClear(c));
    CpuOf(s, c);
    forall d | 0 <= d < |t.cpus|
      ensures CpuRemembers(t.cpus[d])
    {
      assert CpuRemembers(s.cpus[d]);
    }
    forall q | 0 <= q < |t.procs|
      ensures ProcRemembers(t, q)
    {
      assert ProcRemembers(s, q);
    }
  }

  lemma InvPlaced(s: State)
    requires Inv(s)
    ensures Placed(s)
  {
    hide States, Locked, Cli, Waits, Sleeps, Parents, Forks, Placed;
  }

  /** In the scheduler and in `sched` there is one spin lock, outside its loop none. */
  lemma CliHere(s: State, c: nat)
    requires Inv(s) && c < |s.cpus|
    ensures s.cpus[c].run == SIdle ==> s.cpus[c].ncli == 0
    ensures s.cpus[c].run != SIdle && s.cpus[c].run != InProc ==> s.cpus[c].ncli == 1
  {
    hide States, Locked, Waits, Sleeps, Parents, Forks, Placed;
  }

  lemma PickedResumes(s: State, c: nat)
    requires Inv(s) && c < |s.cpus| && s.cpus[c].run == SPicked && 0 <= s.cpus[c].proc < |s.procs|
    ensures Resumes(s.procs[s.cpus[c].proc].pc)
  {
    hide Locked, Cli, Waits, Sleeps, Parents, Forks;
    assert CpuPlaced(s, c) && StateOk(s, s.cpus[c].proc);
  }

  /** Other steps: the CPU of the process does what pushcli or popcli does, or enters
      `sched`, or nothing; a process that is away does not move, except that it may be
      woken, killed, adopted or set up. */
  ghost predicate CodeStep(s: State, t: State, c: nat) {
    && InCode(s, c) && |t.procs| == |s.procs| && |t.cpus| == |s.cpus|
    && (t.cpus == s.cpus[c := t.cpus[c]] && t.cpus[c].run != SIdle && (t.cpus[c].run == InProc || t.cpus[c].run == InSched))
    && (|| t.cpus[c] == s.cpus[c] || t.cpus[c] == s.cpus[c].(run := InSched)
        || t.cpus[c] == PushCli(s.cpus[c]) || t.cpus[c] == PopCli(s.cpus[c]))
    && forall q :: 0 <= q < |s.procs| ==>
         && t.procs[q].on == s.procs[q].on && t.procs[q].intena == s.procs[q].intena
         && (q != P(s, c) ==> t.procs[q].pc == s.procs[q].pc || t.procs[q].pc == Forkret)
  }

  lemma CodeRemembers(s: State, t: State, c: nat)
    requires Placed(s) && Remembers(s) && CodeStep(s, t, c) && s.cpus[c].ncli >= 0 && (t.cpus[c] == PopCli(s.cpus[c]) ==> s.cpus[c].ncli > 0)
    ensures Remembers(t)
  {
    hide Placed, Resumes;
    assert CpuRemembers(s.cpus[c]);
    forall d | 0 <= d < |t.cpus|
      ensures CpuRemembers(t.cpus[d])
    {
      assert CpuRemembers(s.cpus[d]);
    }
    forall p | 0 <= p < |t.procs|
      ensures ProcRemembers(t, p)
    {
      assert ProcRemembers(s, p);
      if p == P(s, c) {
        PlacedAt(s, c);
      } else if 0 <= s.procs[p].on < |s.cpus| && s.procs[p].on != c {
        assert t.cpus[s.procs[p].on] == s.cpus[s.procs[p].on];
      }
    }
  }

  lemma PlacedAt(s: State, c: nat)
    requires Placed(s) && InCode(s, c)
    ensures s.procs[P(s, c)].on == c
  {
    assert CpuPlaced(s, c);
  }

  lemma StepIsCode(s: State, l: Label)
    requires Enabled(s, l) && s.init < |s.procs| && InCode(s, l.c) && !(l.SAcquire? || l.SPick? || l.SSwitch? || l.SClear? || l.SRelease? || l.Sched?)
    requires l.ExitBody? ==> s.procs[P(s, l.c)].parent >= 0
    ensures CodeStep(s, Do(s, l), l.c) && (Do(s, l).cpus[l.c] == PopCli(s.cpus[l.c]) ==> l.Release?)
  {
    hide CodeStep, ScanFrom, UnusedFrom, Wakeup, Killed, Exited, ReleaseOf, AcquireOf, StartPoint, DoSched, DoWait, Preemptible, CallPanics, PushCli, PopCli;
    PopDiffers(s.cpus[l.c]);
    if l.WaitBody? {
      WaitIsCode(s, l.c);
    } else if l.ExitBody? || l.RelWake? || l.KillBody? {
      TableIsCode(s, l);
    } else if l.ForkAlloc? || l.ForkFail? || l.ForkParent? || l.ForkGo? {
      ForkIsCode(s, l);
    } else {
      OwnIsCode(s, Do(s, l), l.c);
    }
  }

  lemma PopDiffers(c: Cpu)
    ensures PopCli(c) != c && PopCli(c) != c.(run := InSched) && PopCli(c) != PushCli(c)
    ensures PopCli(c).run == c.run && PushCli(c).run == c.run
  {}

  /** The process itself changes, and its CPU. */
  lemma OwnIsCode(s: State, t: State, c: nat)
    requires InCode(s, c) && |t.procs| == |s.procs| && |t.cpus| == |s.cpus|
    requires var p := P(s, c);
             var q := t.procs[p];
             t.procs == s.procs[p := q] && q == s.procs[p].(state := q.state, pc := q.pc, chan := q.chan)
    requires t.cpus == s.cpus[c := t.cpus[c]]
    requires || t.cpus[c] == s.cpus[c] || t.cpus[c] == s.cpus[c].(run := InSched)
             || t.cpus[c] == PushCli(s.cpus[c]) || t.cpus[c] == PopCli(s.cpus[c])
    ensures CodeStep(s, t, c)
  {}

  lemma ForkIsCode(s: State, l: Label)
    requires Enabled(s, l) && (l.ForkAlloc? || l.ForkFail? || l.ForkParent? || l.ForkGo?)
    ensures CodeStep(s, Do(s, l), l.c) && Do(s, l).cpus == s.cpus
  {
    hide CodeStep, UnusedFrom, ScanFrom, Wakeup, Killed, Exited, DoSched, DoWait, DoExit, DoAcqTest, StartPoint, AcquireOf, ReleaseOf, Preemptible;
    var p := P(s, l.c);
    if l.ForkAlloc? {
      var k := UnusedFrom(s.procs, 0);
      if k < |s.procs| {
        SlotIsCode(s, Do(s, l), l.c, k, s.procs[k].(state := EMBRYO, pid := s.nextpid), Fork2(k));
      } else {
        OwnIsCode(s, Do(s, l), l.c);
      }
    } else {
      var k := At(s, l.c).np;
      var q := if l.ForkFail? then s.procs[k].(state := UNUSED) else if l.ForkParent? then s.procs[k].(parent := p) else s.procs[k].(state := RUNNABLE, pc := Forkret);
      SlotIsCode(s, Do(s, l), l.c, k, q, if l.ForkFail? then Run else if l.ForkParent? then Fork4(k) else PtDone);
    }
  }

  /** Slot `k` becomes `q`, and the process goes on at `pc`. */
  lemma SlotIsCode(s: State, t: State, c: nat, k: nat, q: Proc, pc: Pc)
    requires InCode(s, c) && k < |s.procs| && t == DoForkSlot(s, c, k, q, pc).(nextpid := t.nextpid)
    requires q == s.procs[k].(state := q.state, pid := q.pid, parent := q.parent, pc := q.pc) && (q.pc == s.procs[k].pc || q.pc == Forkret)
    ensures CodeStep(s, t, c) && t.cpus == s.cpus
  {}

  lemma TableIsCode(s: State, l: Label)
    requires Enabled(s, l) && s.init < |s.procs| && (l.ExitBody? || l.RelWake? || l.KillBody?)
    requires l.ExitBody? ==> s.procs[P(s, l.c)].parent >= 0
    ensures CodeStep(s, Do(s, l), l.c) && Do(s, l).cpus[l.c] != PopCli(s.cpus[l.c])
  {
    hide Wakeup, Killed, Exited;
    if l.ExitBody? {
      ExitedIs(s.procs, P(s, l.c), s.init);
    } else if l.RelWake? {
      WakeStays(s.procs, OnLock(At(s, l.c).l));
    } else {
      KilledIs(s.procs, At(s, l.c).pid);
    }
  }

  lemma WakeStays(t: Table, ch: Chan)
    ensures forall q :: 0 <= q < |t| ==> Wakeup(t, ch)[q] == t[q].(state := Wakeup(t, ch)[q].state)
  {}

  lemma WaitIsCode(s: State, c: nat)
    requires InCode(s, c)
    ensures CodeStep(s, DoWait(s, c), c) && DoWait(s, c).cpus[c] != PopCli(s.cpus[c])
  {
    hide ScanFrom;
    ScanFinds(s.procs, P(s, c), 0, false);
  }

  lemma RemembersStep(s: State, l: Label)
    requires Inv(s) && Remembers(s) && Enabled(s, l)
    ensures Remembers(Do(s, l))
  {
    hide Inv, Remembers, Do, CodeStep;
    if l.SAcquire? || l.SPick? || l.SSwitch? || l.SClear? || l.SRelease? || l.Sched? {
      SchedRemembers(s, l);
    } else {
      InvPlaced(s);
      if l.ExitBody? {
        HasParent(s, l.c);
      }
      StepIsCode(s, l);
      CountHere(s, l);
      CodeRemembers(s, Do(s, l), l.c);
    }
  }

  /** The releasing CPU holds a lock. */
  lemma CountHere(s: State, l: Label)
    requires Inv(s) && Enabled(s, l) && InCode(s, l.c)
    ensures s.cpus[l.c].ncli >= 0 && (l.Release? ==> s.cpus[l.c].ncli > 0)
  {
    hide States, Locked, Waits, Sleeps, Parents, Forks, Has, Count;
    RangeAt(s, l.c);
    if l.Release? {
      ReleaseDrops(At(s, l.c), Pt);
    }
  }

  lemma {:induction false} RunRemembers(s: State, run: seq<Label>)
    requires Inv(s) && Remembers(s) && Runs(s, run)
    ensures Inv(After(s, run)) && Remembers(After(s, run))
    decreases |run|
  {
    hide Inv, Remembers, Do, Enabled;
    if run != [] {
      StepKeeps(s, run[0]);
      RemembersStep(s, run[0]);
      RunRemembers(Do(s, run[0]), run[1..]);
    }
  }

  /** In every reachable state, a CPU that runs a process and holds no spin lock has its
      interrupts on: every release of the last lock turns them on again, whichever process
      the CPU has switched to in between. */
  lemma InterruptsComeBack(s: State, run: seq<Label>, c: nat)
    requires Booted(s) && Runs(s, run) && InCode(After(s, run), c)
    ensures After(s, run).cpus[c].iff <==> After(s, run).cpus[c].ncli == 0
  {
    hide Inv, Owned, Booted, Do, Enabled;
    BootInv(s);
    BootRemembers(s);
    RunRemembers(s, run);
    var t := After(s, run);
    assert CpuRemembers(t.cpus[c]);
    OffWhileHeld(t, c);
  }

  lemma BootRemembers(s: State)
    requires Booted(s)
    ensures Remembers(s)
  {
    forall p | 0 <= p < |s.procs|
      ensures ProcRemembers(s, p)
    {
      assert BootedProc(s, p);
    }
  }

  lemma OffWhileHeld(s: State, c: nat)
    requires Inv(s) && c < |s.cpus|
    ensures s.cpus[c].ncli >= 0 && (s.cpus[c].ncli > 0 ==> !s.cpus[c].iff)
  {
    hide States, Locked, Waits, Sleeps, Parents, Forks, Placed;
  }
}
