/** Processes, CPUs and their locks as a machine whose steps interleave freely:
    the scheduler and `sched` hand ptable.lock across the context switch, and
    yield, wait, exit, fork, kill, acquiresleep and releasesleep run step by step
    on every CPU. */
module ProcMachine {
  import opened ProcTable

  /** What a CPU executes. The scheduler: before `acquire`, scanning the table,
      having chosen a process, back from a process. A process: in its own code,
      or in `sched` with its state already changed. */
  datatype Thread = SIdle | SScan | SPicked | SBack | InProc | InSched

  /** `proc` is the slot in `c->proc`, -1 if null; `iff` is the interrupt flag. */
  datatype Cpu = Cpu(run: Thread, proc: int, ncli: int, intena: bool, iff: bool)

  /** `holder` has the locked spin locks with `lk->cpu`; `slocks` the sleep locks,
      each with the process that locked it or -1. */
  datatype State = State(procs: Table, cpus: seq<Cpu>, holder: map<Lock, nat>, slocks: seq<int>, nextpid: nat, init: nat)

  datatype Label =
    | SAcquire(c: nat) | SPick(c: nat, p: nat) | SSwitch(c: nat) | SClear(c: nat) | SRelease(c: nat)
    | Sched(c: nat)
    | Call(c: nat, what: Pc)
    | Acquire(c: nat) | Release(c: nat)
    | Preempt(c: nat) | YieldSet(c: nat)
    | WaitBody(c: nat) | WaitResume(c: nat)
    | ExitBody(c: nat)
    | AcqTest(c: nat) | AcqSleep(c: nat) | AcqWoken(c: nat)
    | RelClear(c: nat) | RelWake(c: nat)
    | KillBody(c: nat)
    | ForkAlloc(c: nat) | ForkFail(c: nat) | ForkParent(c: nat) | ForkGo(c: nat)

  // ----- which code point holds which spin lock

  predicate Has(pc: Pc, l: Lock) {
    match pc
    case Yield1(_) => l == Pt case YieldR(_) => l == Pt
    case Wait1 => l == Pt case WaitR => l == Pt
    case Exit1 => l == Pt
    case Kill1(_) => l == Pt
    case Fork1 => l == Pt case Fork2(_) => l == Pt case Fork5(_) => l == Pt
    case Forkret => l == Pt
    case PtDone => l == Pt
    case Acq4(_) => l == Pt case AcqR(_) => l == Pt case Acq6(_) => l == Pt
    case Acq1(k) => l == Lk(k) case Acq2(k) => l == Lk(k) case Acq5(k) => l == Lk(k)
    case Rel1(k) => l == Lk(k) case Rel2(k) => l == Lk(k) case Rel5(k) => l == Lk(k)
    case Acq3(k) => l == Pt || l == Lk(k)
    case Rel3(k) => l == Pt || l == Lk(k) case Rel4(k) => l == Pt || l == Lk(k)
    case _ => false
  }

  function Count(pc: Pc): nat {
    (if Has(pc, Pt) then 1 else 0) +
    (match pc
     case Acq1(_) => 1 case Acq2(_) => 1 case Acq3(_) => 1 case Acq5(_) => 1
     case Rel1(_) => 1 case Rel2(_) => 1 case Rel3(_) => 1 case Rel4(_) => 1 case Rel5(_) => 1
     case _ => 0)
  }

  datatype Move = NoMove | To(lock: Lock, next: Pc)

  /** The points at which a process calls `acquire`, and where it goes. */
  function AcquireOf(pc: Pc): Move {
    match pc
    case WantYield(b) => To(Pt, Yield1(b))
    case WantWait => To(Pt, Wait1)
    case WantExit => To(Pt, Exit1)
    case WantKill(pid) => To(Pt, Kill1(pid))
    case WantFork => To(Pt, Fork1)
    case Fork4(np) => To(Pt, Fork5(np))
    case Acq0(l) => To(Lk(l), Acq1(l))
    case Acq2(l) => To(Pt, Acq3(l))
    case Rel0(l) => To(Lk(l), Rel1(l))
    case Rel2(l) => To(Pt, Rel3(l))
    case _ => NoMove
  }

  /** The points at which a process calls `release`, and where it goes. */
  function ReleaseOf(pc: Pc): Move {
    match pc
    case YieldR(b) => To(Pt, b)
    case Forkret => To(Pt, Run)
    case PtDone => To(Pt, Run)
    case Fork2(np) => To(Pt, Fork3(np))
    case Acq3(l) => To(Lk(l), Acq4(l))
    case Acq6(l) => To(Pt, Acq0(l))
    case Acq5(l) => To(Lk(l), Run)
    case Rel4(l) => To(Pt, Rel5(l))
    case Rel5(l) => To(Lk(l), Run)
    case _ => NoMove
  }

  /** Where a process that is not running will continue. */
  predicate Resumes(pc: Pc) {
    pc.YieldR? || pc == WaitR || pc.AcqR? || pc == Forkret
  }

  /** Where a timer interrupt can find a process: with no spin lock held. */
  predicate Preemptible(pc: Pc) {
    match pc
    case Run => true
    case WantWait => true
    case WantExit => true
    case WantKill(_) => true
    case WantFork => true
    case Fork3(_) => true
    case Fork4(_) => true
    case Acq0(_) => true
    case Rel0(_) => true
    case _ => false
  }

  // ----- steps

  function PushCli(c: Cpu): Cpu {
    c.(intena := if c.ncli == 0 then c.iff else c.intena, iff := false, ncli := c.ncli + 1)
  }

  function PopCli(c: Cpu): Cpu {
    c.(ncli := c.ncli - 1, iff := c.iff || (c.ncli == 1 && c.intena))
  }

  predicate PopCliPanics(c: Cpu) {
    c.iff || c.ncli - 1 < 0
  }

  /** CPU `c` runs process `P(s, c)` at the code point `At(s, c)`. */
  predicate InCode(s: State, c: nat) {
    c < |s.cpus| && s.cpus[c].run == InProc && 0 <= s.cpus[c].proc < |s.procs|
  }

  function P(s: State, c: nat): nat
    requires c < |s.cpus| && 0 <= s.cpus[c].proc
  {
    s.cpus[c].proc
  }

  function At(s: State, c: nat): Pc
    requires InCode(s, c)
  {
    s.procs[P(s, c)].pc
  }

  function SetCpu(s: State, c: nat, k: Cpu): State
    requires c < |s.cpus|
  {
    s.(cpus := s.cpus[c := k])
  }

  function SetProc(s: State, p: nat, q: Proc): State
    requires p < |s.procs|
  {
    s.(procs := s.procs[p := q])
  }

  function Goto(s: State, c: nat, pc: Pc): State
    requires InCode(s, c)
  {
    SetProc(s, P(s, c), s.procs[P(s, c)].(pc := pc))
  }

  /** What a process may call. */
  predicate StartPoint(s: State, p: nat, pc: Pc) {
    match pc
    case WantWait => true
    case WantExit => true
    case WantKill(_) => true
    case WantFork => true
    case Acq0(l) => l < |s.slocks|
    case Rel0(l) => l < |s.slocks|
    case _ => false
  }

  /** The calls that panic at once: `exit` by init, and giving up a sleep lock that the
      process does not hold, which `brelse` and `iunlock` test for. */
  predicate CallPanics(s: State, p: nat, pc: Pc)
    requires StartPoint(s, p, pc)
  {
    (pc == WantExit && p == s.init) || (pc.Rel0? && s.slocks[pc.l] != p)
  }

  predicate Enabled(s: State, l: Label) {
    match l
    case SAcquire(c) => c < |s.cpus| && s.cpus[c].run == SIdle && Pt !in s.holder
    case SPick(c, p) => c < |s.cpus| && s.cpus[c].run == SScan && p < |s.procs| && s.procs[p].state == RUNNABLE
    case SSwitch(c) => c < |s.cpus| && s.cpus[c].run == SPicked && 0 <= s.cpus[c].proc < |s.procs|
    case SClear(c) => c < |s.cpus| && s.cpus[c].run == SBack && 0 <= s.cpus[c].proc < |s.procs|
    case SRelease(c) => c < |s.cpus| && s.cpus[c].run == SScan
    case Sched(c) => c < |s.cpus| && s.cpus[c].run == InSched && 0 <= s.cpus[c].proc < |s.procs|
    case Call(c, what) => InCode(s, c) && At(s, c) == Run && StartPoint(s, P(s, c), what)
    case Acquire(c) => InCode(s, c) && AcquireOf(At(s, c)).To? && AcquireOf(At(s, c)).lock !in s.holder
    case Release(c) => InCode(s, c) && ReleaseOf(At(s, c)).To?
    case Preempt(c) => InCode(s, c) && Preemptible(At(s, c))
    case YieldSet(c) => InCode(s, c) && At(s, c).Yield1?
    case WaitBody(c) => InCode(s, c) && At(s, c) == Wait1
    case WaitResume(c) => InCode(s, c) && At(s, c) == WaitR
    case ExitBody(c) => InCode(s, c) && At(s, c) == Exit1 && s.init < |s.procs|
    case AcqTest(c) => InCode(s, c) && At(s, c).Acq1? && At(s, c).l < |s.slocks|
    case AcqSleep(c) => InCode(s, c) && At(s, c).Acq4?
    case AcqWoken(c) => InCode(s, c) && At(s, c).AcqR?
    case RelClear(c) => InCode(s, c) && At(s, c).Rel1? && At(s, c).l < |s.slocks|
    case RelWake(c) => InCode(s, c) && At(s, c).Rel3?
    case KillBody(c) => InCode(s, c) && At(s, c).Kill1?
    case ForkAlloc(c) => InCode(s, c) && At(s, c) == Fork1
    case ForkFail(c) => InCode(s, c) && At(s, c).Fork3? && At(s, c).np < |s.procs|
    case ForkParent(c) => InCode(s, c) && At(s, c).Fork3? && At(s, c).np < |s.procs|
    case ForkGo(c) => InCode(s, c) && At(s, c).Fork5? && At(s, c).np < |s.procs|
  }

  /** The process on `c` changes its state and enters `sched`, to continue at `pc`. */
  function Leave(s: State, c: nat, st: PState, ch: Chan, pc: Pc): State
    requires InCode(s, c)
  {
    var p := P(s, c);
    SetCpu(SetProc(s, p, s.procs[p].(state := st, chan := ch, pc := pc)), c, s.cpus[c].(run := InSched))
  }

  /** `wait` with the lock held: reap, give up, or go to sleep. */
  function DoWait(s: State, c: nat): State
    requires InCode(s, c)
  {
    var p := P(s, c);
    match ScanFrom(s.procs, p, 0, false)
    case Reap(k) =>
      ScanFinds(s.procs, p, 0, false);
      Goto(SetProc(s, k, Freed(s.procs[k])), c, PtDone)
    case NoKids => Goto(s, c, PtDone)
    case KidsAlive => if s.procs[p].killed then Goto(s, c, PtDone) else Leave(s, c, SLEEPING, OnProc(p), WaitR)
  }

  function DoExit(s: State, c: nat): State
    requires InCode(s, c) && s.init < |s.procs|
  {
    var p := P(s, c);
    var t := Exited(s.procs, p, s.init);
    SetCpu(s.(procs := t[p := t[p].(pc := Dead)]), c, s.cpus[c].(run := InSched))
  }

  function DoAcqTest(s: State, c: nat, k: nat): State
    requires InCode(s, c) && k < |s.slocks|
  {
    if s.slocks[k] >= 0 then Goto(s, c, Acq2(k))
    else Goto(s, c, Acq5(k)).(slocks := s.slocks[k := P(s, c)])
  }

  /** The whole table changes, and the process on `c` goes on at `pc`. */
  function NewTable(s: State, c: nat, t: Table, pc: Pc): State
    requires InCode(s, c) && |t| == |s.procs|
  {
    s.(procs := t[P(s, c) := t[P(s, c)].(pc := pc)])
  }

  function DoForkAlloc(s: State, c: nat): State
    requires InCode(s, c)
  {
    var k := UnusedFrom(s.procs, 0);
    if k == |s.procs| then Goto(s, c, PtDone)
    else Goto(SetProc(s, k, s.procs[k].(state := EMBRYO, pid := s.nextpid)), c, Fork2(k)).(nextpid := s.nextpid + 1)
  }

  /** A change to the slot that `fork` is filling. */
  function DoForkSlot(s: State, c: nat, k: nat, q: Proc, pc: Pc): State
    requires InCode(s, c) && k < |s.procs|
  {
    Goto(SetProc(s, k, q), c, pc)
  }

  function DoLock(s: State, c: nat, m: Move): State
    requires InCode(s, c) && m.To?
  {
    SetCpu(Goto(s, c, m.next), c, PushCli(s.cpus[c])).(holder := s.holder[m.lock := c])
  }

  function DoUnlock(s: State, c: nat, m: Move): State
    requires InCode(s, c) && m.To?
  {
    SetCpu(Goto(s, c, m.next), c, PopCli(s.cpus[c])).(holder := s.holder - {m.lock})
  }

  function DoResume(s: State, c: nat, pc: Pc): State
    requires InCode(s, c)
  {
    var p := P(s, c);
    SetProc(s, p, s.procs[p].(chan := Nothing, pc := pc))
  }

  /** The steps of the scheduler and of `sched`. */
  function DoSched(s: State, l: Label): State
    requires Enabled(s, l) && (l.SAcquire? || l.SPick? || l.SSwitch? || l.SClear? || l.SRelease? || l.Sched?)
  {
    match l
    case SAcquire(c) =>
      SetCpu(s, c, PushCli(s.cpus[c].(iff := true)).(run := SScan)).(holder := s.holder[Pt := c])
    case SPick(c, p) =>
      SetCpu(SetProc(s, p, s.procs[p].(state := RUNNING, on := c)), c, s.cpus[c].(run := SPicked, proc := p))
    case SSwitch(c) =>
      var q := s.procs[s.cpus[c].proc];
      SetCpu(s, c, s.cpus[c].(run := InProc, intena := if q.pc == Forkret then s.cpus[c].intena else q.intena))
    case SClear(c) =>
      var p := s.cpus[c].proc;
      SetCpu(SetProc(s, p, s.procs[p].(on := -1)), c, s.cpus[c].(run := SScan, proc := -1))
    case SRelease(c) => SetCpu(s, c, PopCli(s.cpus[c]).(run := SIdle)).(holder := s.holder - {Pt})
    case Sched(c) =>
      var p := s.cpus[c].proc;
      SetCpu(SetProc(s, p, s.procs[p].(intena := s.cpus[c].intena)), c, s.cpus[c].(run := SBack))
  }

  function Do(s: State, l: Label): State
    requires Enabled(s, l)
  {
    match l
    case Call(c, what) => if CallPanics(s, P(s, c), what) then s else Goto(s, c, what)
    case Acquire(c) => DoLock(s, c, AcquireOf(At(s, c)))
    case Release(c) => DoUnlock(s, c, ReleaseOf(At(s, c)))
    case Preempt(c) => Goto(s, c, WantYield(At(s, c)))
    case YieldSet(c) => Leave(s, c, RUNNABLE, s.procs[P(s, c)].chan, YieldR(At(s, c).back))
    case WaitBody(c) => DoWait(s, c)
    case WaitResume(c) => DoResume(s, c, Wait1)
    case ExitBody(c) => DoExit(s, c)
    case AcqTest(c) => DoAcqTest(s, c, At(s, c).l)
    case AcqSleep(c) => Leave(s, c, SLEEPING, OnLock(At(s, c).l), AcqR(At(s, c).l))
    case AcqWoken(c) => DoResume(s, c, Acq6(At(s, c).l))
    case RelClear(c) => Goto(s, c, Rel2(At(s, c).l)).(slocks := s.slocks[At(s, c).l := -1])
    case RelWake(c) => NewTable(s, c, Wakeup(s.procs, OnLock(At(s, c).l)), Rel4(At(s, c).l))
    case KillBody(c) => NewTable(s, c, Killed(s.procs, At(s, c).pid), PtDone)
    case ForkAlloc(c) => DoForkAlloc(s, c)
    case ForkFail(c) => DoForkSlot(s, c, At(s, c).np, s.procs[At(s, c).np].(state := UNUSED), Run)
    case ForkParent(c) => DoForkSlot(s, c, At(s, c).np, s.procs[At(s, c).np].(parent := P(s, c)), Fork4(At(s, c).np))
    case ForkGo(c) => DoForkSlot(s, c, At(s, c).np, s.procs[At(s, c).np].(state := RUNNABLE, pc := Forkret), PtDone)
    case _ => DoSched(s, l)
  }

  // ----- the panics of this code

  predicate ReleasePanics(s: State, c: nat, l: Lock)
    requires c < |s.cpus|
  {
    !(l in s.holder && s.holder[l] == c) || PopCliPanics(s.cpus[c])
  }

  predicate SchedPanics(s: State, c: nat)
    requires c < |s.cpus| && 0 <= s.cpus[c].proc < |s.procs|
  {
    || !(Pt in s.holder && s.holder[Pt] == c)
    || s.cpus[c].ncli != 1
    || s.procs[s.cpus[c].proc].state == RUNNING
    || s.cpus[c].iff
  }

  /** The step runs into a panic: of its own making, or in release, popcli or sched. */
  predicate Panics(s: State, l: Label)
    requires Enabled(s, l)
  {
    match l
    case Call(c, what) => CallPanics(s, P(s, c), what)
    case SRelease(c) => ReleasePanics(s, c, Pt)
    case Sched(c) => SchedPanics(s, c)
    case Release(c) => ReleasePanics(s, c, ReleaseOf(At(s, c)).lock)
    case _ => false
  }
}
