/** Waiting, killing and process numbers over all runs of the process machine. */
module ProcLife {
  import opened ProcTable
  import opened ProcMachine
  import opened ProcInv
  import opened ProcSteps
  import opened ProcRuns

  // ----- the invariant

  /** Whoever sleeps in `wait` has a child and has not been killed, and no two processes
      have the same number. */
  ghost predicate Life(s: State) {
    && (forall p :: 0 <= p < |s.procs| ==> WaiterOk(s.procs, p) && PidOk(s.procs[p], s.nextpid))
    && (forall p, q :: 0 <= p < q < |s.procs| ==> PidsApart(s.procs[p], s.procs[q]))
  }

  ghost predicate WaiterOk(t: Table, p: nat)
    requires p < |t|
  {
    InWait(t[p]) ==> !t[p].killed && HasChild(t, p)
  }

  ghost predicate HasChild(t: Table, p: nat) {
    exists k :: 0 <= k < |t| && t[k].parent == p
  }

  predicate PidOk(q: Proc, nextpid: nat) {
    q.pid < nextpid && (q.state != UNUSED ==> q.pid != 0)
  }

  predicate PidsApart(q: Proc, r: Proc) {
    q.pid == r.pid ==> q.pid == 0
  }

  /** Nothing happened to a process that matters here, except that it may have woken. */
  predicate Calm(q: Proc, r: Proc) {
    && (InWait(r) ==> InWait(q) && r.killed == q.killed) && r.parent == q.parent && r.pid == q.pid
    && (r.state == UNUSED <==> q.state == UNUSED)
  }

  ghost predicate AllCalm(t: Table, u: Table) {
    |u| == |t| && forall q :: 0 <= q < |t| ==> Calm(t[q], u[q])
  }

  lemma CalmKeeps(s: State, t: State)
    requires Life(s) && AllCalm(s.procs, t.procs) && t.nextpid == s.nextpid
    ensures Life(t)
  {
    forall p | 0 <= p < |t.procs|
      ensures WaiterOk(t.procs, p) && PidOk(t.procs[p], t.nextpid)
    {
      assert Calm(s.procs[p], t.procs[p]) && WaiterOk(s.procs, p) && PidOk(s.procs[p], s.nextpid);
      if InWait(t.procs[p]) {
        var k :| 0 <= k < |s.procs| && s.procs[k].parent == p;
        assert Calm(s.procs[k], t.procs[k]);
      }
    }
    forall p, q | 0 <= p < q < |t.procs|
      ensures PidsApart(t.procs[p], t.procs[q])
    {
      assert Calm(s.procs[p], t.procs[p]) && Calm(s.procs[q], t.procs[q]) && PidsApart(s.procs[p], s.procs[q]);
    }
  }

  // ----- the calm steps

  lemma WakeupCalm(t: Table, ch: Chan)
    ensures AllCalm(t, Wakeup(t, ch))
  {}

  lemma KilledCalm(t: Table, pid: nat)
    ensures AllCalm(t, Killed(t, pid))
  {
    KilledIs(t, pid);
    forall q | 0 <= q < |t|
      ensures Calm(t[q], Killed(t, pid)[q])
    {}
  }

  /** A process that is not asleep changes where it is, or what it sleeps on. */
  lemma PointCalm(t: Table, u: Table, p: nat, q: Proc)
    requires p < |t| && AllCalm(t, u) && u[p].state != SLEEPING && q == u[p].(pc := q.pc, chan := q.chan, on := q.on, intena := q.intena)
    ensures AllCalm(t, u[p := q])
  {}

  lemma SelfCalm(t: Table)
    ensures AllCalm(t, t)
  {}

  /** A process changes its state, between ones that are in use, and is not in `wait`. */
  lemma StateCalm(t: Table, p: nat, q: Proc)
    requires p < |t| && q == t[p].(state := q.state, pc := q.pc, chan := q.chan, on := q.on, intena := q.intena)
    requires t[p].state != UNUSED && q.state != UNUSED && !InWait(q)
    ensures AllCalm(t, t[p := q])
  {}

  lemma SchedCalm(s: State, l: Label)
    requires Enabled(s, l) && (l.SAcquire? || l.SPick? || l.SSwitch? || l.SClear? || l.SRelease? || l.Sched?)
    ensures AllCalm(s.procs, DoSched(s, l).procs) && DoSched(s, l).nextpid == s.nextpid
  {
    hide PushCli, PopCli;
  }

  predicate Special(l: Label) {
    l.WaitBody? || l.ExitBody? || l.ForkAlloc? || l.ForkFail? || l.ForkParent? || l.ForkGo?
  }

  lemma CalmStep(s: State, l: Label)
    requires Inv(s) && Enabled(s, l) && !Special(l)
    ensures AllCalm(s.procs, Do(s, l).procs) && Do(s, l).nextpid == s.nextpid
  {
    hide Inv, AllCalm, Wakeup, Killed, PushCli, PopCli, ReleaseOf, AcquireOf, StartPoint, Preemptible, DoSched, DoWait, CallPanics;
    if l.SAcquire? || l.SPick? || l.SSwitch? || l.SClear? || l.SRelease? || l.Sched? {
      SchedCalm(s, l);
    } else {
      var p := P(s, l.c);
      assert s.procs[p].state == RUNNING by { Runs1(s, l.c); }
      SelfCalm(s.procs);
      if l.RelWake? {
        TableCalm(s, l);
      } else if l.KillBody? {
        TableCalm(s, l);
      } else if l.YieldSet? || l.AcqSleep? {
        StateCalm(s.procs, p, Do(s, l).procs[p]);
      } else if Do(s, l).procs != s.procs {
        PointCalm(s.procs, s.procs, p, Do(s, l).procs[p]);
      }
    }
  }

  lemma Runs1(s: State, c: nat)
    requires Inv(s) && InCode(s, c)
    ensures s.procs[P(s, c)].state == RUNNING
  {
    hide Placed, States, Locked, Cli, Waits, Sleeps, Parents, Forks;
    RunningHere(s, c);
  }

  lemma TableCalm(s: State, l: Label)
    requires Enabled(s, l) && (l.RelWake? || l.KillBody?) && s.procs[P(s, l.c)].state == RUNNING
    ensures AllCalm(s.procs, Do(s, l).procs) && Do(s, l).nextpid == s.nextpid
  {
    hide Wakeup, Killed;
    var p := P(s, l.c);
    if l.RelWake? {
      WakeupCalm(s.procs, OnLock(At(s, l.c).l));
      assert Wakeup(s.procs, OnLock(At(s, l.c).l))[p] == s.procs[p] by { WakeupOther(s.procs, OnLock(At(s, l.c).l), p); }
    } else {
      KilledCalm(s.procs, At(s, l.c).pid);
      KilledIs(s.procs, At(s, l.c).pid);
    }
  }

  lemma WakeupOther(t: Table, ch: Chan, p: nat)
    requires p < |t| && t[p].state != SLEEPING
    ensures Wakeup(t, ch)[p] == t[p]
  {}

  // ----- the others

  /** A slot that nobody's child is in changes; it is not in `wait` afterwards. */
  lemma SlotLife(s: State, t: State, k: nat, q: Proc)
    requires Life(s) && k < |s.procs| && t == SetProc(s, k, q).(nextpid := t.nextpid) && s.nextpid <= t.nextpid
    requires !InWait(q) && PidOk(q, t.nextpid) && (q.pid == 0 || q.pid == s.procs[k].pid || s.nextpid <= q.pid)
    requires forall p :: 0 <= p < |s.procs| && InWait(s.procs[p]) && s.procs[k].parent == p ==> q.parent == p
    ensures Life(t)
  {
    forall p | 0 <= p < |t.procs|
      ensures WaiterOk(t.procs, p) && PidOk(t.procs[p], t.nextpid)
    {
      assert WaiterOk(s.procs, p) && PidOk(s.procs[p], s.nextpid);
      if InWait(t.procs[p]) {
        var m :| 0 <= m < |s.procs| && s.procs[m].parent == p;
        assert t.procs[m].parent == p;
      }
    }
    forall p, r | 0 <= p < r < |t.procs|
      ensures PidsApart(t.procs[p], t.procs[r])
    {
      assert PidsApart(s.procs[p], s.procs[r]) && PidOk(s.procs[p], s.nextpid) && PidOk(s.procs[r], s.nextpid);
    }
  }

  /** The process on `c` goes on, or leaves its CPU. */
  lemma MoveLife(s: State, t: State, p: nat, q: Proc)
    requires Life(s) && p < |s.procs| && t.procs == s.procs[p := q] && t.nextpid == s.nextpid && q == s.procs[p].(state := q.state, pc := q.pc, chan := q.chan)
    requires s.procs[p].state != UNUSED && q.state != UNUSED && !InWait(q)
    ensures Life(t)
  {
    hide Life, AllCalm;
    StateCalm(s.procs, p, q);
    CalmKeeps(s, t);
  }

  lemma WaitLife(s: State, c: nat)
    requires Inv(s) && Life(s) && Enabled(s, WaitBody(c))
    ensures Life(Do(s, WaitBody(c)))
  {
    hide Inv, Life, ScanFrom;
    var p := P(s, c);
    Runs1(s, c);
    ScanFinds(s.procs, p, 0, false);
    match ScanFrom(s.procs, p, 0, false)
    case Reap(k) =>
      var u := SetProc(s, k, Freed(s.procs[k]));
      assert 0 < s.nextpid by { SomePid(s, p); }
      SlotLife(s, u, k, Freed(s.procs[k]));
      MoveLife(u, Do(s, WaitBody(c)), p, u.procs[p].(pc := PtDone));
    case NoKids => MoveLife(s, Do(s, WaitBody(c)), p, s.procs[p].(pc := PtDone));
    case KidsAlive =>
      if s.procs[p].killed {
        MoveLife(s, Do(s, WaitBody(c)), p, s.procs[p].(pc := PtDone));
      } else {
        SleepLife(s, Do(s, WaitBody(c)), p);
      }
  }

  lemma SomePid(s: State, p: nat)
    requires Life(s) && p < |s.procs|
    ensures 0 < s.nextpid
  {
    assert PidOk(s.procs[p], s.nextpid);
  }

  lemma SleepLife(s: State, t: State, p: nat)
    requires Life(s) && p < |s.procs| && s.procs[p].state == RUNNING && !s.procs[p].killed && HasChild(s.procs, p)
    requires t.nextpid == s.nextpid && t.procs == s.procs[p := s.procs[p].(state := SLEEPING, chan := OnProc(p), pc := WaitR)]
    ensures Life(t)
  {
    forall r | 0 <= r < |t.procs|
      ensures WaiterOk(t.procs, r) && PidOk(t.procs[r], t.nextpid)
    {
      assert WaiterOk(s.procs, r) && PidOk(s.procs[r], s.nextpid);
      if InWait(t.procs[r]) {
        var k :| 0 <= k < |s.procs| && s.procs[k].parent == r;
        assert t.procs[k].parent == r;
      }
    }
    forall q, r | 0 <= q < r < |t.procs|
      ensures PidsApart(t.procs[q], t.procs[r])
    {
      assert PidsApart(s.procs[q], s.procs[r]);
    }
  }

  lemma ExitLife(s: State, c: nat)
    requires Inv(s) && Life(s) && Enabled(s, ExitBody(c)) && s.procs[P(s, c)].parent >= 0
    ensures Life(Do(s, ExitBody(c)))
  {
    hide Inv, Exited;
    var p, t := P(s, c), Do(s, ExitBody(c));
    Runs1(s, c);
    ExitedIs(s.procs, p, s.init);
    forall r | 0 <= r < |t.procs|
      ensures t.procs[r].pid == s.procs[r].pid && (InWait(t.procs[r]) ==> InWait(s.procs[r]) && t.procs[r].killed == s.procs[r].killed)
      ensures (t.procs[r].state == UNUSED <==> s.procs[r].state == UNUSED) && (s.procs[r].parent != p ==> t.procs[r].parent == s.procs[r].parent)
    {
      assert LeftBy(s.procs, p, s.init, r, Exited(s.procs, p, s.init)[r]);
    }
    HandedLife(s, t, p);
  }

  lemma HandedLife(s: State, t: State, p: nat)
    requires Life(s) && p < |s.procs| == |t.procs| && s.procs[p].state == RUNNING && t.nextpid == s.nextpid
    requires forall r :: 0 <= r < |t.procs| ==>
               && t.procs[r].pid == s.procs[r].pid && (InWait(t.procs[r]) ==> InWait(s.procs[r]) && t.procs[r].killed == s.procs[r].killed)
               && (t.procs[r].state == UNUSED <==> s.procs[r].state == UNUSED) && (s.procs[r].parent != p ==> t.procs[r].parent == s.procs[r].parent)
    ensures Life(t)
  {
    forall r | 0 <= r < |t.procs|
      ensures WaiterOk(t.procs, r) && PidOk(t.procs[r], t.nextpid)
    {
      assert WaiterOk(s.procs, r) && PidOk(s.procs[r], s.nextpid);
      if InWait(t.procs[r]) {
        var k :| 0 <= k < |s.procs| && s.procs[k].parent == r;
        assert t.procs[k].parent == r;
      }
    }
    forall q, r | 0 <= q < r < |t.procs|
      ensures PidsApart(t.procs[q], t.procs[r])
    {
      assert PidsApart(s.procs[q], s.procs[r]);
    }
  }

  lemma ForkAllocLife(s: State, c: nat)
    requires Inv(s) && Life(s) && Enabled(s, ForkAlloc(c))
    ensures Life(Do(s, ForkAlloc(c)))
  {
    hide Inv, Life, UnusedFrom;
    var p, k, t := P(s, c), UnusedFrom(s.procs, 0), Do(s, ForkAlloc(c));
    Runs1(s, c);
    SomePid(s, p);
    if k == |s.procs| {
      MoveLife(s, t, p, s.procs[p].(pc := PtDone));
    } else {
      var q := s.procs[k].(state := EMBRYO, pid := s.nextpid);
      var u := SetProc(s, k, q).(nextpid := s.nextpid + 1);
      SlotLife(s, u, k, q);
      MoveLife(u, t, p, u.procs[p].(pc := Fork2(k)));
    }
  }

  /** The slot that a process is filling. */
  lemma Filling(s: State, c: nat, k: nat)
    requires Inv(s) && InCode(s, c) && ForkSlot(At(s, c)) == k && k < |s.procs|
    ensures s.procs[k].state == EMBRYO && s.procs[k].parent == (if ForkLate(At(s, c)) then P(s, c) else -1) && k != P(s, c)
  {
    hide Placed, States, Locked, Cli, Waits, Sleeps, Parents, ForkSlot, ForkLate;
    Runs1(s, c);
    assert ForkOk(s, P(s, c), k);
  }

  lemma ForkSlotLife(s: State, l: Label)
    requires Inv(s) && Life(s) && Enabled(s, l) && (l.ForkFail? || l.ForkParent? || l.ForkGo?)
    ensures Life(Do(s, l))
  {
    hide Inv, Life;
    var p, k, t := P(s, l.c), At(s, l.c).np, Do(s, l);
    Runs1(s, l.c);
    Filling(s, l.c, k);
    var q := t.procs[k];
    var u := SetProc(s, k, q);
    LifePid(s, k);
    SlotLife(s, u, k, q);
    MoveLife(u, t, p, t.procs[p]);
  }

  lemma LifePid(s: State, k: nat)
    requires Life(s) && k < |s.procs|
    ensures PidOk(s.procs[k], s.nextpid)
  {}

  lemma LifeStep(s: State, l: Label)
    requires Inv(s) && Life(s) && Enabled(s, l)
    ensures Life(Do(s, l))
  {
    hide Inv, Life, Do, Enabled;
    if l.WaitBody? {
      WaitLife(s, l.c);
    } else if l.ExitBody? {
      HasParent(s, l.c);
      ExitLife(s, l.c);
    } else if l.ForkAlloc? {
      ForkAllocLife(s, l.c);
    } else if l.ForkFail? || l.ForkParent? || l.ForkGo? {
      ForkSlotLife(s, l);
    } else {
      CalmStep(s, l);
      CalmKeeps(s, Do(s, l));
    }
  }

  /** Init does not get to exit, and everybody else has a parent. */
  lemma HasParent(s: State, c: nat)
    requires Inv(s) && Enabled(s, ExitBody(c))
    ensures s.procs[P(s, c)].parent >= 0
  {
    hide Locked, Cli, Waits, Sleeps, Forks;
    RangeAt(s, c);
    RunningHere(s, c);
    assert ParentOk(s, P(s, c));
  }

  // ----- all runs

  lemma BootLife(s: State)
    requires Booted(s)
    ensures Life(s)
  {
    forall p | 0 <= p < |s.procs|
      ensures WaiterOk(s.procs, p) && PidOk(s.procs[p], s.nextpid) && s.procs[p].pid == if p == s.init then 1 else 0
    {
      assert BootedProc(s, p);
    }
  }

  lemma {:induction false} RunLife(s: State, run: seq<Label>)
    requires Inv(s) && Owned(s) && Life(s) && Runs(s, run)
    ensures Inv(After(s, run)) && Life(After(s, run))
    decreases |run|
  {
    hide Inv, Owned, Life, Do, Enabled;
    if run != [] {
      StepKeeps(s, run[0]);
      OwnedKeeps(s, run[0]);
      LifeStep(s, run[0]);
      RunLife(Do(s, run[0]), run[1..]);
    }
  }

  lemma Reached(s: State, run: seq<Label>)
    requires Booted(s) && Runs(s, run)
    ensures Inv(After(s, run)) && Life(After(s, run))
  {
    hide Inv, Owned, Life, Booted, Do, Enabled;
    BootInv(s);
    BootLife(s);
    RunLife(s, run);
  }

  /** Whoever sleeps in `wait` has a child that is alive, and has not been killed. */
  lemma WaitersWait(s: State, run: seq<Label>, p: nat)
    requires Booted(s) && Runs(s, run) && p < |After(s, run).procs|
    ensures var t := After(s, run);
            t.procs[p].state == SLEEPING && t.procs[p].chan == OnProc(p) ==>
              !t.procs[p].killed && exists k :: 0 <= k < |t.procs| && t.procs[k].parent == p && Alive(t.procs[k])
  {
    hide Inv, Life, Booted, Do, Enabled;
    Reached(s, run);
    WaiterIs(After(s, run), p);
  }

  lemma WaiterIs(s: State, p: nat)
    requires Inv(s) && Life(s) && p < |s.procs|
    ensures s.procs[p].state == SLEEPING && s.procs[p].chan == OnProc(p) ==>
              !s.procs[p].killed && exists k :: 0 <= k < |s.procs| && s.procs[k].parent == p && Alive(s.procs[k])
  {
    hide Locked, Cli, Sleeps;
    if s.procs[p].state == SLEEPING && s.procs[p].chan == OnProc(p) {
      StateAt(s, p);
      assert WaiterOk(s.procs, p);
      var k :| 0 <= k < |s.procs| && s.procs[k].parent == p;
      assert ParentOk(s, k) && EmbryoOk(s, k);
    }
  }

  /** No two processes, exited or not, have the same number, and none has number 0. */
  lemma PidsUnique(s: State, run: seq<Label>, p: nat, q: nat)
    requires Booted(s) && Runs(s, run) && p < |After(s, run).procs| && q < |After(s, run).procs|
    ensures var t := After(s, run);
            t.procs[p].state != UNUSED && t.procs[q].state != UNUSED ==>
              t.procs[p].pid != 0 && (t.procs[p].pid == t.procs[q].pid ==> p == q)
  {
    hide Inv, Booted, Do, Enabled;
    Reached(s, run);
    var t := After(s, run);
    assert PidOk(t.procs[p], t.nextpid);
    if p < q {
      assert PidsApart(t.procs[p], t.procs[q]);
    } else if q < p {
      assert PidsApart(t.procs[q], t.procs[p]);
    }
  }

  /** When `fork` is done its child is ready to run, is a child of the process that called,
      and has a number that no other process has. */
  lemma ForkMakesAChild(s: State, run: seq<Label>, c: nat)
    requires Booted(s) && Runs(s, run) && Enabled(After(s, run), ForkGo(c))
    ensures var t, u := After(s, run), Do(After(s, run), ForkGo(c));
            var p, k := P(t, c), At(t, c).np;
            && k != p && k < |u.procs| == |t.procs| && u.procs[k].state == RUNNABLE && u.procs[k].pc == Forkret && u.procs[k].parent == p
            && t.procs[k].state == EMBRYO
            && forall q :: 0 <= q < |u.procs| && q != k && u.procs[q].state != UNUSED ==> u.procs[q].pid != u.procs[k].pid
  {
    hide Inv, Life, Booted, Do;
    Reached(s, run);
    var t := After(s, run);
    var k := At(t, c).np;
    Filling(t, c, k);
    ForkGoDoes(t, c);
    forall q | 0 <= q < |t.procs| && q != k
      ensures t.procs[q].pid != t.procs[k].pid
    {
      OtherPid(t, k, q);
    }
  }

  lemma ForkGoDoes(s: State, c: nat)
    requires Enabled(s, ForkGo(c)) && At(s, c).np != P(s, c)
    ensures var k := At(s, c).np;
            Do(s, ForkGo(c)).procs == s.procs[k := s.procs[k].(state := RUNNABLE, pc := Forkret)][P(s, c) := s.procs[P(s, c)].(pc := PtDone)]
  {}

  lemma OtherPid(s: State, k: nat, q: nat)
    requires Life(s) && k < |s.procs| && q < |s.procs| && q != k && s.procs[k].state != UNUSED
    ensures s.procs[q].pid != s.procs[k].pid
  {
    assert PidOk(s.procs[k], s.nextpid);
    if k < q {
      assert PidsApart(s.procs[k], s.procs[q]);
    } else {
      assert PidsApart(s.procs[q], s.procs[k]);
    }
  }

  /** No slot is lost: whatever is being set up, somebody is setting it up, and it is one
      process that does. */
  lemma NoSlotIsLost(s: State, run: seq<Label>, k: nat)
    requires Booted(s) && Runs(s, run) && k < |After(s, run).procs| && After(s, run).procs[k].state == EMBRYO
    ensures var t := After(s, run);
            exists p :: 0 <= p < |t.procs| && Forking(t.procs[p], k) && forall q :: 0 <= q < |t.procs| && Forking(t.procs[q], k) ==> q == p
  {
    hide Inv, Life, Booted, Do, Enabled, Forking;
    Reached(s, run);
    OneFiller(After(s, run), k);
  }

  lemma OneFiller(s: State, k: nat)
    requires Inv(s) && k < |s.procs| && s.procs[k].state == EMBRYO
    ensures exists p :: 0 <= p < |s.procs| && Forking(s.procs[p], k) && forall q :: 0 <= q < |s.procs| && Forking(s.procs[q], k) ==> q == p
  {
    hide Placed, States, Locked, Cli, Waits, Sleeps, Parents, ForkSlot, ForkLate, Forking;
    assert EmbryoOk(s, k);
    var p :| 0 <= p < |s.procs| && Forking(s.procs[p], k);
    OnlyForker(s, p, k);
  }

  // ----- whom kill finds

  /** `kill(pid)` marks the process with that number, wakes it if it sleeps, and leaves all
      other processes as they are. */
  lemma KillHits(s: State, run: seq<Label>, pid: nat, p: nat)
    requires Booted(s) && Runs(s, run) && p < |After(s, run).procs| && After(s, run).procs[p].state != UNUSED
    ensures var t := After(s, run).procs;
            if t[p].pid == pid then KilledProc(t[p], Killed(t, pid)[p]) else Killed(t, pid)[p] == t[p]
  {
    hide Inv, Life, Booted, Do, Enabled, Killed, KilledProc;
    Reached(s, run);
    var t := After(s, run);
    KilledIs(t.procs, pid);
    if t.procs[p].pid == pid {
      forall q | 0 <= q < p
        ensures t.procs[q].pid != pid
      {
        OtherPid(t, p, q);
      }
      assert FirstWith(t.procs, pid, p);
    }
  }

  /** But it need not be a process that it finds: `kill(0)` marks the first slot that has
      no number, which nobody uses. */
  lemma KillZero(s: State, run: seq<Label>)
    requires Booted(s) && Runs(s, run)
    ensures var t := After(s, run);
            var k := PidFrom(t.procs, 0, 0);
            k < |t.procs| ==> t.procs[k].state == UNUSED && Killed(t.procs, 0) == t.procs[k := t.procs[k].(killed := true)]
  {
    hide Inv, Life, Booted, Do, Enabled;
    Reached(s, run);
    var t := After(s, run);
    var k := PidFrom(t.procs, 0, 0);
    if k < |t.procs| {
      LifePid(t, k);
    }
  }

  /** The mark stays with the slot: what `fork` puts there next is born killed if and only
      if the slot was marked. */
  lemma BornMarked(s: State, run: seq<Label>, c: nat)
    requires Booted(s) && Runs(s, run) && Enabled(After(s, run), ForkAlloc(c))
    ensures var t := After(s, run);
            var k := UnusedFrom(t.procs, 0);
            var u := Do(t, ForkAlloc(c));
            k < |t.procs| == |u.procs| ==> u.procs[k].state == EMBRYO && u.procs[k].killed == t.procs[k].killed
  {
    hide Inv, Life, Booted, UnusedFrom;
    Reached(s, run);
    Runs1(After(s, run), c);
  }
}
