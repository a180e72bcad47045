/** What every step of the process machine keeps. */
module ProcInv {
  import opened ProcTable
  import opened ProcMachine

  // ----- the invariant, group by group

  /** Who is on which CPU: `c->proc` and the processes agree. */
  ghost predicate Placed(s: State) {
    && s.init < |s.procs|
    && (forall c :: 0 <= c < |s.cpus| ==> CpuPlaced(s, c))
    && (forall p :: 0 <= p < |s.procs| ==> ProcPlaced(s, p))
  }

  ghost predicate CpuPlaced(s: State, c: nat)
    requires c < |s.cpus|
  {
    var k := s.cpus[c];
    if k.run == SIdle || k.run == SScan then k.proc == -1
    else 0 <= k.proc < |s.procs| && s.procs[k.proc].on == c
  }

  ghost predicate ProcPlaced(s: State, p: nat)
    requires p < |s.procs|
  {
    var q := s.procs[p];
    && (q.on == -1 || (0 <= q.on < |s.cpus| && s.cpus[q.on].proc == p))
    && -1 <= q.parent < |s.procs|
    && PcInRange(s, p, q.pc)
  }

  /** Where a process is, apart from a yield that a timer interrupt made it start. */
  function Point(pc: Pc): Pc {
    if Yielding(pc) then pc.back else pc
  }

  predicate Yielding(pc: Pc) {
    pc.WantYield? || pc.Yield1? || pc.YieldR?
  }

  ghost predicate PcInRange(s: State, p: nat, pc: Pc) {
    PointInRange(s, p, Point(pc)) && (Yielding(pc) ==> Preemptible(pc.back))
  }

  ghost predicate PointInRange(s: State, p: nat, pc: Pc) {
    match pc
    case WantExit => p != s.init case Exit1 => p != s.init
    case Acq0(l) => l < |s.slocks| case Acq1(l) => l < |s.slocks| case Acq2(l) => l < |s.slocks|
    case Acq3(l) => l < |s.slocks| case Acq4(l) => l < |s.slocks| case AcqR(l) => l < |s.slocks|
    case Acq5(l) => l < |s.slocks| case Acq6(l) => l < |s.slocks|
    case Rel0(l) => l < |s.slocks| case Rel1(l) => l < |s.slocks| case Rel2(l) => l < |s.slocks|
    case Rel3(l) => l < |s.slocks| case Rel4(l) => l < |s.slocks| case Rel5(l) => l < |s.slocks|
    case Fork2(k) => k < |s.procs| case Fork3(k) => k < |s.procs|
    case Fork4(k) => k < |s.procs| case Fork5(k) => k < |s.procs|
    case _ => true
  }

  /** The state of a process fits where it is. */
  ghost predicate States(s: State)
    requires Placed(s)
  {
    forall p :: 0 <= p < |s.procs| ==> StateOk(s, p)
  }

  ghost predicate StateOk(s: State, p: nat)
    requires p < |s.procs| && ProcPlaced(s, p)
  {
    var q := s.procs[p];
    var run := if q.on >= 0 then s.cpus[q.on].run else SIdle;
    && (q.state == RUNNING <==> run == InProc || run == SPicked)
    && (run == InSched || run == SBack ==> q.state == RUNNABLE || q.state == SLEEPING || q.state == ZOMBIE)
    && (q.state == RUNNABLE || run == SPicked ==> Resumes(q.pc))
    && (q.state == SLEEPING ==> (q.pc == WaitR && q.chan == OnProc(p)) || (q.pc.AcqR? && q.chan == OnLock(q.pc.l)))
    && (q.state == ZOMBIE <==> q.pc == Dead && q.state != UNUSED && q.state != EMBRYO)
  }

  ghost predicate CpuHas(s: State, c: nat, l: Lock)
    requires c < |s.cpus|
  {
    var k := s.cpus[c];
    if k.run == SIdle then false
    else if k.run == InProc then 0 <= k.proc < |s.procs| && Has(s.procs[k.proc].pc, l)
    else l == Pt
  }

  ghost function CpuCount(s: State, c: nat): nat
    requires c < |s.cpus|
  {
    var k := s.cpus[c];
    if k.run == SIdle then 0
    else if k.run == InProc then if 0 <= k.proc < |s.procs| then Count(s.procs[k.proc].pc) else 0
    else 1
  }

  /** A spin lock is held by the CPU whose code holds it. */
  ghost predicate Locked(s: State) {
    && (forall c, l :: 0 <= c < |s.cpus| && CpuHas(s, c, l) ==> l in s.holder && s.holder[l] == c)
    && (forall l :: l in s.holder ==> s.holder[l] < |s.cpus| && CpuHas(s, s.holder[l], l))
  }

  /** `ncli` counts the spin locks, and interrupts are off while there are any. */
  ghost predicate Cli(s: State) {
    forall c :: 0 <= c < |s.cpus| ==> s.cpus[c].ncli == CpuCount(s, c) && (s.cpus[c].ncli > 0 ==> !s.cpus[c].iff)
  }

  /** Nobody sleeps in `wait` with an exited child. */
  ghost predicate Waits(s: State) {
    forall p, q :: 0 <= p < |s.procs| && 0 <= q < |s.procs| && s.procs[q].parent == p && s.procs[q].state == ZOMBIE ==>
      !(s.procs[p].state == SLEEPING && s.procs[p].pc == WaitR)
  }

  /** A releaser has unlocked sleep lock `l` and has not yet woken the sleepers. */
  ghost predicate Pending(s: State, l: nat) {
    && Lk(l) in s.holder && InCode(s, s.holder[Lk(l)])
    && (At(s, s.holder[Lk(l)]) == Rel2(l) || At(s, s.holder[Lk(l)]) == Rel3(l))
  }

  /** Nobody sleeps on an unlocked sleep lock, or is about to, unless its releaser
      is about to wake it. */
  ghost predicate Sleeps(s: State) {
    forall p :: 0 <= p < |s.procs| ==> SleepOk(s, p)
  }

  ghost predicate SleepOk(s: State, p: nat)
    requires p < |s.procs|
  {
    var q := s.procs[p];
    && (q.state == SLEEPING && q.pc.AcqR? && q.pc.l < |s.slocks| ==> s.slocks[q.pc.l] >= 0 || Pending(s, q.pc.l))
    && (q.state == RUNNING && q.pc.Acq4? && q.pc.l < |s.slocks| ==> s.slocks[q.pc.l] >= 0 || Pending(s, q.pc.l))
    && (q.state == RUNNING && (q.pc.Acq2? || q.pc.Acq3?) && q.pc.l < |s.slocks| ==> s.slocks[q.pc.l] >= 0)
  }

  predicate Alive(q: Proc) {
    q.state == SLEEPING || q.state == RUNNABLE || q.state == RUNNING
  }

  /** Every process, exited or not, has a parent that can reap it. */
  ghost predicate Parents(s: State) {
    && s.init < |s.procs| && Alive(s.procs[s.init]) && s.procs[s.init].parent == -1
    && forall p :: 0 <= p < |s.procs| ==> ParentOk(s, p)
  }

  ghost predicate ParentOk(s: State, p: nat)
    requires p < |s.procs|
  {
    var q := s.procs[p];
    && (q.state == UNUSED ==> q.parent == -1)
    && ((Alive(q) || q.state == ZOMBIE) && p != s.init ==>
          0 <= q.parent < |s.procs| && q.parent != p && Alive(s.procs[q.parent]))
  }

  /** The slot that a code point of `fork` is filling, -1 elsewhere. */
  function ForkSlot(pc: Pc): int {
    match Point(pc)
    case Fork2(k) => k case Fork3(k) => k case Fork4(k) => k case Fork5(k) => k
    case _ => -1
  }

  /** The slot's parent has been set. */
  predicate ForkLate(pc: Pc) {
    Point(pc).Fork4? || Point(pc).Fork5?
  }

  predicate Forking(q: Proc, k: nat) {
    Alive(q) && ForkSlot(q.pc) == k
  }

  /** A slot being filled by `fork` belongs to one process. */
  ghost predicate Forks(s: State) {
    && (forall p, k :: 0 <= p < |s.procs| && 0 <= k < |s.procs| ==> ForkOk(s, p, k))
    && (forall p, q, k :: 0 <= p < |s.procs| && 0 <= q < |s.procs| && p != q && 0 <= k < |s.procs| ==> OneForks(s, p, q, k))
    && (forall k :: 0 <= k < |s.procs| ==> EmbryoOk(s, k))
  }

  ghost predicate ForkOk(s: State, p: nat, k: nat)
    requires p < |s.procs| && k < |s.procs|
  {
    Forking(s.procs[p], k) ==>
      && s.procs[k].state == EMBRYO
      && s.procs[k].parent == (if ForkLate(s.procs[p].pc) then p else -1)
  }

  ghost predicate OneForks(s: State, p: nat, q: nat, k: nat)
    requires p < |s.procs| && q < |s.procs|
  {
    !(Forking(s.procs[p], k) && Forking(s.procs[q], k))
  }

  ghost predicate EmbryoOk(s: State, k: nat)
    requires k < |s.procs|
  {
    && (s.procs[k].state == EMBRYO && s.procs[k].parent >= 0 ==>
          s.procs[k].parent < |s.procs| && Forking(s.procs[s.procs[k].parent], k))
    && (s.procs[k].state == EMBRYO ==> Filled(s, k))
  }

  /** Some process is filling slot `k`. */
  ghost predicate Filled(s: State, k: nat) {
    exists p :: 0 <= p < |s.procs| && Forking(s.procs[p], k)
  }

  ghost predicate Core(s: State) {
    Placed(s) && States(s) && Locked(s) && Cli(s) && Waits(s) && Sleeps(s) && Parents(s)
  }

  ghost predicate Inv(s: State) {
    Core(s) && Forks(s)
  }

  // ----- code points and their locks

  lemma AcquireAdds(pc: Pc, l: Lock)
    requires AcquireOf(pc).To?
    ensures var m := AcquireOf(pc);
            && !Has(pc, m.lock) && (Has(m.next, l) <==> Has(pc, l) || l == m.lock) && Count(m.next) == Count(pc) + 1
  {}

  lemma ReleaseDrops(pc: Pc, l: Lock)
    requires ReleaseOf(pc).To? && (Yielding(pc) ==> Preemptible(pc.back))
    ensures var m := ReleaseOf(pc);
            && Has(pc, m.lock) && (Has(m.next, l) <==> Has(pc, l) && l != m.lock) && Count(m.next) == Count(pc) - 1
  {}

  // ----- what the groups depend on

  datatype ForkView = ForkView(embryo: bool, parent: int, slot: int, late: bool)

  function ViewFork(q: Proc): ForkView {
    ForkView(q.state == EMBRYO, if q.state == EMBRYO then q.parent else -2,
             if Alive(q) then ForkSlot(q.pc) else -1, Alive(q) && ForkLate(q.pc))
  }

  lemma ForksSame(s: State, t: State)
    requires |t.procs| == |s.procs| && Forks(s)
    requires forall p :: 0 <= p < |s.procs| ==> ViewFork(t.procs[p]) == ViewFork(s.procs[p])
    ensures Forks(t)
  {
    hide ForkSlot, ForkLate;
    forall p, k | 0 <= p < |t.procs| && 0 <= k < |t.procs|
      ensures ForkOk(t, p, k)
    {
      assert ForkOk(s, p, k);
      SameForking(s, t, p, k);
      SameForking(s, t, k, k);
    }
    forall p, q, k | 0 <= p < |t.procs| && 0 <= q < |t.procs| && p != q && 0 <= k < |t.procs|
      ensures OneForks(t, p, q, k)
    {
      assert OneForks(s, p, q, k);
      SameForking(s, t, p, k);
      SameForking(s, t, q, k);
    }
    forall k | 0 <= k < |t.procs|
      ensures EmbryoOk(t, k)
    {
      assert EmbryoOk(s, k);
      SameForking(s, t, k, k);
      if t.procs[k].state == EMBRYO && 0 <= t.procs[k].parent < |s.procs| {
        SameForking(s, t, t.procs[k].parent, k);
      }
      if t.procs[k].state == EMBRYO {
        var p :| 0 <= p < |s.procs| && Forking(s.procs[p], k);
        SameForking(s, t, p, k);
      }
    }
  }

  lemma SameForking(s: State, t: State, p: nat, k: nat)
    requires p < |t.procs| == |s.procs| && ViewFork(t.procs[p]) == ViewFork(s.procs[p])
    ensures Forking(t.procs[p], k) == Forking(s.procs[p], k)
    ensures Forking(t.procs[p], k) ==> ForkLate(t.procs[p].pc) == ForkLate(s.procs[p].pc)
    ensures (t.procs[p].state == EMBRYO) == (s.procs[p].state == EMBRYO)
    ensures t.procs[p].state == EMBRYO ==> t.procs[p].parent == s.procs[p].parent
  {
    hide ForkSlot, ForkLate;
  }

  datatype KinView = KinView(alive: bool, zombie: bool, unused: bool, parent: int)

  function ViewKin(q: Proc): KinView {
    KinView(Alive(q), q.state == ZOMBIE, q.state == UNUSED, q.parent)
  }

  lemma ParentsSame(s: State, t: State)
    requires |t.procs| == |s.procs| && t.init == s.init && Parents(s)
    requires forall p :: 0 <= p < |s.procs| ==> ViewKin(t.procs[p]) == ViewKin(s.procs[p])
    ensures Parents(t)
  {
    assert ViewKin(t.procs[t.init]) == ViewKin(s.procs[s.init]);
    forall p | 0 <= p < |t.procs|
      ensures ParentOk(t, p)
    {
      assert ParentOk(s, p) && ViewKin(t.procs[p]) == ViewKin(s.procs[p]);
      if 0 <= t.procs[p].parent < |s.procs| {
        assert ViewKin(t.procs[t.procs[p].parent]) == ViewKin(s.procs[t.procs[p].parent]);
      }
    }
  }

  // ----- steps that move a process along its code

  ghost predicate SameSize(s: State, t: State) {
    |t.procs| == |s.procs| && |t.cpus| == |s.cpus| && |t.slocks| == |s.slocks| && t.init == s.init
  }

  /** From `s` to `t` the process on `c` went on to another point of its code. */
  ghost predicate Moved(s: State, t: State, c: nat) {
    && InCode(s, c) && SameSize(s, t)
    && var p := P(s, c);
       && t.procs == s.procs[p := s.procs[p].(pc := t.procs[p].pc, chan := t.procs[p].chan)]
       && t.cpus == s.cpus[c := s.cpus[c].(ncli := t.cpus[c].ncli, intena := t.cpus[c].intena, iff := t.cpus[c].iff)]
  }

  /** It did not start, finish or advance the filling of a slot. */
  ghost predicate SameFork(pc: Pc, pc': Pc) {
    ForkSlot(pc) == ForkSlot(pc') && ForkLate(pc) == ForkLate(pc')
  }

  lemma MovedPlaced(s: State, t: State, c: nat)
    requires Placed(s) && Moved(s, t, c) && PcInRange(t, P(s, c), At(t, c))
    ensures Placed(t)
  {
    forall d | 0 <= d < |t.cpus|
      ensures CpuPlaced(t, d)
    {
      assert CpuPlaced(s, d);
    }
    forall p | 0 <= p < |t.procs|
      ensures ProcPlaced(t, p)
    {
      assert ProcPlaced(s, p);
    }
  }

  lemma MovedStates(s: State, t: State, c: nat)
    requires Placed(s) && States(s) && Moved(s, t, c) && Placed(t) && At(t, c) != Dead
    ensures States(t)
  {
    hide Placed;
    forall p | 0 <= p < |t.procs|
      ensures ProcPlaced(t, p) && StateOk(t, p)
    {
      PlacedAt(s, c, p);
      PlacedAt(t, c, p);
      assert StateOk(s, p);
    }
  }

  lemma PlacedAt(s: State, c: nat, p: nat)
    requires Placed(s) && c < |s.cpus| && p < |s.procs|
    ensures CpuPlaced(s, c) && ProcPlaced(s, p)
  {}

  lemma MovedWaits(s: State, t: State, c: nat)
    requires Placed(s) && States(s) && Moved(s, t, c) && Waits(s)
    ensures Waits(t)
  {
    RunningHere(s, c);
  }

  /** The process on a CPU that is in its own code is running. */
  lemma RunningHere(s: State, c: nat)
    requires Placed(s) && States(s) && InCode(s, c)
    ensures s.procs[P(s, c)].state == RUNNING && s.procs[P(s, c)].on == c
  {
    assert CpuPlaced(s, c) && StateOk(s, P(s, c));
  }

  lemma MovedParents(s: State, t: State, c: nat)
    requires Moved(s, t, c) && Parents(s)
    ensures Parents(t)
  {
    hide Parents;
    ParentsSame(s, t);
  }

  lemma MovedForks(s: State, t: State, c: nat)
    requires Moved(s, t, c) && Forks(s) && SameFork(At(s, c), At(t, c))
    ensures Forks(t)
  {
    hide Forks, ForkSlot, ForkLate;
    assert forall p :: 0 <= p < |s.procs| ==> ViewFork(t.procs[p]) == ViewFork(s.procs[p]);
    ForksSame(s, t);
  }

  /** Other CPUs hold what they held. */
  lemma MovedHas(s: State, t: State, c: nat, d: nat, l: Lock)
    requires Placed(s) && Moved(s, t, c) && d < |s.cpus| && d != c
    ensures CpuHas(t, d, l) == CpuHas(s, d, l) && CpuCount(t, d) == CpuCount(s, d)
  {
    assert CpuPlaced(s, c) && CpuPlaced(s, d);
  }

  /** A move between points that hold the same spin locks. */
  lemma BodyLocks(s: State, t: State, c: nat)
    requires Placed(s) && Moved(s, t, c) && Locked(s) && Cli(s) && t.holder == s.holder && t.cpus == s.cpus
    requires Count(At(t, c)) == Count(At(s, c)) && forall l :: Has(At(t, c), l) == Has(At(s, c), l)
    ensures Locked(t) && Cli(t)
  {
    hide Placed, Has, Count;
    forall d, l | 0 <= d < |t.cpus|
      ensures CpuHas(t, d, l) == CpuHas(s, d, l) && CpuCount(t, d) == CpuCount(s, d)
    {
      if d != c {
        MovedHas(s, t, c, d, l);
      }
    }
  }

  lemma AcquireLocks(s: State, c: nat)
    requires Placed(s) && Locked(s) && Cli(s) && Enabled(s, Acquire(c))
    ensures var t := Do(s, Acquire(c)); Moved(s, t, c) && Locked(t) && Cli(t)
  {
    hide Placed, Has, Count, AcquireOf;
    var t, m := Do(s, Acquire(c)), AcquireOf(At(s, c));
    forall l
      ensures CpuHas(t, c, l) <==> CpuHas(s, c, l) || l == m.lock
    {
      AcquireAdds(At(s, c), l);
    }
    assert CpuCount(t, c) == CpuCount(s, c) + 1 by { AcquireAdds(At(s, c), Pt); }
    forall d, l | 0 <= d < |t.cpus| && d != c
      ensures CpuHas(t, d, l) == CpuHas(s, d, l)
    {
      MovedHas(s, t, c, d, l);
    }
    forall d | 0 <= d < |t.cpus| && d != c
      ensures CpuCount(t, d) == CpuCount(s, d)
    {
      MovedHas(s, t, c, d, Pt);
    }
  }

  lemma ReleaseLocks(s: State, c: nat)
    requires Placed(s) && Locked(s) && Cli(s) && Enabled(s, Release(c))
    ensures var t := Do(s, Release(c)); Moved(s, t, c) && Locked(t) && Cli(t)
    ensures !ReleasePanics(s, c, ReleaseOf(At(s, c)).lock)
  {
    hide Placed, Has, Count, ReleaseOf;
    var t, m := Do(s, Release(c)), ReleaseOf(At(s, c));
    RangeAt(s, c);
    forall l
      ensures CpuHas(t, c, l) <==> CpuHas(s, c, l) && l != m.lock
    {
      ReleaseDrops(At(s, c), l);
    }
    assert CpuHas(s, c, m.lock) && CpuCount(t, c) == CpuCount(s, c) - 1 by { ReleaseDrops(At(s, c), Pt); }
    forall d, l | 0 <= d < |t.cpus| && d != c
      ensures CpuHas(t, d, l) == CpuHas(s, d, l)
    {
      MovedHas(s, t, c, d, l);
    }
    forall d | 0 <= d < |t.cpus| && d != c
      ensures CpuCount(t, d) == CpuCount(s, d)
    {
      MovedHas(s, t, c, d, Pt);
    }
  }

  // ----- sleepers and moves

  ghost predicate Guard(s: State, l: nat)
    requires l < |s.slocks|
  {
    s.slocks[l] >= 0 || Pending(s, l)
  }

  /** Sleepers stay guarded if guards stay, and the mover is guarded itself. */
  lemma MovedSleeps(s: State, t: State, c: nat)
    requires Placed(s) && States(s) && Moved(s, t, c) && Sleeps(s)
    requires forall l :: 0 <= l < |s.slocks| && Guard(s, l) ==> Guard(t, l)
    requires forall p, l :: p != P(s, c) && AtTest(s, p, l) && 0 <= l < |s.slocks| && s.slocks[l] >= 0 ==> t.slocks[l] >= 0
    requires SleepOk(t, P(s, c))
    ensures Sleeps(t)
  {
    hide Placed, States;
    RunningHere(s, c);
    forall p | 0 <= p < |t.procs|
      ensures SleepOk(t, p)
    {
      if p != P(s, c) {
        assert SleepOk(s, p);
        var pc := s.procs[p].pc;
        if (pc.AcqR? || pc.Acq4?) && pc.l < |s.slocks| {
          assert Guard(s, pc.l) ==> Guard(t, pc.l);
        }
        if pc.Acq2? || pc.Acq3? {
          assert s.procs[p].state == RUNNING ==> AtTest(s, p, pc.l);
        }
      }
    }
  }

  /** Process `p` has seen sleep lock `l` locked and still holds its spin lock. */
  ghost predicate AtTest(s: State, p: int, l: int) {
    0 <= p < |s.procs| && 0 <= l && s.procs[p].state == RUNNING && (s.procs[p].pc == Acq2(l) || s.procs[p].pc == Acq3(l))
  }

  /** A releaser elsewhere stays one. */
  lemma MovedPending(s: State, t: State, c: nat, l: nat)
    requires Placed(s) && Moved(s, t, c) && Pending(s, l)
    requires Lk(l) in t.holder && t.holder[Lk(l)] == s.holder[Lk(l)]
    requires s.holder[Lk(l)] == c ==> At(t, c) == Rel2(l) || At(t, c) == Rel3(l)
    ensures Pending(t, l)
  {
    var d := s.holder[Lk(l)];
    assert CpuPlaced(s, c) && CpuPlaced(s, d);
  }

  lemma MovedCore(s: State, t: State, c: nat)
    requires Core(s) && Moved(s, t, c) && PcInRange(t, P(s, c), At(t, c)) && At(t, c) != Dead
    requires Locked(t) && Cli(t) && Sleeps(t)
    ensures Core(t)
  {
    hide Placed, States, Waits, Parents, Moved, PcInRange;
    MovedPlaced(s, t, c);
    MovedStates(s, t, c);
    MovedWaits(s, t, c);
    MovedParents(s, t, c);
  }

  lemma MovedKeeps(s: State, t: State, c: nat)
    requires Inv(s) && Moved(s, t, c) && PcInRange(t, P(s, c), At(t, c)) && At(t, c) != Dead && SameFork(At(s, c), At(t, c))
    requires Locked(t) && Cli(t) && Sleeps(t)
    ensures Inv(t)
  {
    hide Core, Forks, Moved, SameFork, PcInRange;
    MovedCore(s, t, c);
    MovedForks(s, t, c);
  }

  /** Guards stay when sleep locks and spin locks are left alone and the mover is
      no releaser. */
  lemma GuardsStay(s: State, t: State, c: nat)
    requires Placed(s) && Moved(s, t, c) && t.slocks == s.slocks
    requires forall l :: Lk(l) in s.holder ==> Lk(l) in t.holder && t.holder[Lk(l)] == s.holder[Lk(l)]
    requires forall l :: At(s, c) == Rel2(l) || At(s, c) == Rel3(l) ==> At(t, c) == Rel2(l) || At(t, c) == Rel3(l)
    ensures forall l :: 0 <= l < |s.slocks| && Guard(s, l) ==> Guard(t, l)
  {
    hide Placed, Moved;
    forall l | 0 <= l < |s.slocks| && Guard(s, l)
      ensures Guard(t, l)
    {
      if s.slocks[l] < 0 {
        MovedPending(s, t, c, l);
      }
    }
  }

  lemma CallKeeps(s: State, c: nat, what: Pc)
    requires Inv(s) && Enabled(s, Call(c, what))
    ensures Inv(Do(s, Call(c, what)))
  {
    hide Placed, States, Waits, Parents, Forks, Locked, Cli, Sleeps, Guard;
    var t := Do(s, Call(c, what));
    if CallPanics(s, P(s, c), what) {
      return;
    }
    BodyLocks(s, t, c);
    GuardsStay(s, t, c);
    MovedSleeps(s, t, c);
    MovedKeeps(s, t, c);
  }

  /** A timer interrupt. */
  lemma PreemptKeeps(s: State, c: nat)
    requires Inv(s) && Enabled(s, Preempt(c))
    ensures Inv(Do(s, Preempt(c)))
  {
    hide Placed, States, Waits, Parents, Forks, Locked, Cli, Sleeps, Guard;
    var t := Do(s, Preempt(c));
    RangeAt(s, c);
    BodyLocks(s, t, c);
    GuardsStay(s, t, c);
    MovedSleeps(s, t, c);
    MovedKeeps(s, t, c);
  }

  /** Taking a spin lock starts and ends nothing else. */
  lemma AcquirePoint(s: State, p: nat, pc: Pc)
    requires AcquireOf(pc).To? && PcInRange(s, p, pc)
    ensures var n := AcquireOf(pc).next;
            && PcInRange(s, p, n) && n != Dead && SameFork(pc, n) && !n.Acq2? && !n.Acq4? && !n.AcqR?
            && (n.Acq3? ==> pc == Acq2(n.l))
            && (forall l :: pc == Rel2(l) || pc == Rel3(l) ==> n == Rel2(l) || n == Rel3(l))
  {}

  lemma ReleasePoint(s: State, p: nat, pc: Pc)
    requires ReleaseOf(pc).To? && PcInRange(s, p, pc)
    ensures var n := ReleaseOf(pc).next;
            && PcInRange(s, p, n) && n != Dead && SameFork(pc, n) && !n.Acq2? && !n.Acq3? && !n.AcqR?
            && (n.Acq4? ==> pc == Acq3(n.l))
            && !pc.Rel2? && !pc.Rel3?
  {}

  lemma AcquireKeeps(s: State, c: nat)
    requires Inv(s) && Enabled(s, Acquire(c))
    ensures Inv(Do(s, Acquire(c)))
  {
    hide Placed, States, Waits, Parents, Forks, Locked, Cli, Guard, AcquireOf, PcInRange, SameFork;
    var t := Do(s, Acquire(c));
    RunningHere(s, c);
    AcquireLocks(s, c);
    RangeAt(s, c);
    AcquirePoint(s, P(s, c), At(s, c));
    SameRange(s, t, P(s, c), At(t, c));
    GuardsStay(s, t, c);
    assert SleepOk(s, P(s, c));
    MovedSleeps(s, t, c);
    MovedKeeps(s, t, c);
  }

  lemma SameRange(s: State, t: State, p: nat, pc: Pc)
    requires SameSize(s, t) && PcInRange(s, p, pc)
    ensures PcInRange(t, p, pc)
  {}

  lemma RangeAt(s: State, c: nat)
    requires Placed(s) && InCode(s, c)
    ensures PcInRange(s, P(s, c), At(s, c))
  {
    assert ProcPlaced(s, P(s, c));
  }

  lemma BackInRange(s: State, p: nat, pc: Pc)
    requires PcInRange(s, p, pc)
    ensures Yielding(pc) ==> Preemptible(pc.back)
  {}

  lemma ReleaseGuards(s: State, c: nat)
    requires Placed(s) && Locked(s) && Enabled(s, Release(c))
    requires CpuHas(s, c, ReleaseOf(At(s, c)).lock)
    ensures var t := Do(s, Release(c)); Moved(s, t, c) && forall l :: 0 <= l < |s.slocks| && Guard(s, l) ==> Guard(t, l)
  {
    hide Placed, Count;
    var t, m := Do(s, Release(c)), ReleaseOf(At(s, c));
    forall l | 0 <= l < |s.slocks| && Guard(s, l)
      ensures Guard(t, l)
    {
      if s.slocks[l] < 0 {
        assert m.lock != Lk(l);
        MovedPending(s, t, c, l);
      }
    }
  }

  lemma ReleaseKeeps(s: State, c: nat)
    requires Inv(s) && Enabled(s, Release(c))
    ensures Inv(Do(s, Release(c))) && !Panics(s, Release(c))
  {
    hide Placed, States, Waits, Parents, Forks, Locked, Cli, Guard, ReleaseOf, PcInRange, SameFork;
    var t := Do(s, Release(c));
    RunningHere(s, c);
    ReleaseLocks(s, c);
    RangeAt(s, c);
    BackInRange(s, P(s, c), At(s, c));
    ReleaseDrops(At(s, c), Pt);
    ReleaseGuards(s, c);
    ReleasePoint(s, P(s, c), At(s, c));
    SameRange(s, t, P(s, c), At(t, c));
    assert SleepOk(s, P(s, c));
    MovedSleeps(s, t, c);
    MovedKeeps(s, t, c);
  }

  lemma AcqTestKeeps(s: State, c: nat)
    requires Inv(s) && Enabled(s, AcqTest(c))
    ensures Inv(Do(s, AcqTest(c)))
  {
    hide Placed, States, Waits, Parents, Forks, Locked, Cli, Sleeps;
    var t, k := Do(s, AcqTest(c)), At(s, c).l;
    BodyLocks(s, t, c);
    if s.slocks[k] >= 0 {
      GuardsStay(s, t, c);
    } else {
      var u := t.(slocks := s.slocks);
      GuardsStay(s, u, c);
      forall l | 0 <= l < |s.slocks| && Guard(s, l)
        ensures Guard(t, l)
      {
        assert Guard(u, l);
      }
    }
    MovedSleeps(s, t, c);
    MovedKeeps(s, t, c);
  }

  /** Only one process at a time is past the test of a sleep lock. */
  lemma OneTester(s: State, c: nat, p: nat, l: nat)
    requires Placed(s) && States(s) && Locked(s) && InCode(s, c) && Has(At(s, c), Lk(l))
    requires AtTest(s, p, l)
    ensures p == P(s, c)
  {
    assert ProcPlaced(s, p) && StateOk(s, p);
    var d := s.procs[p].on;
    assert CpuHas(s, c, Lk(l)) && CpuHas(s, d, Lk(l));
  }

  lemma RelClearKeeps(s: State, c: nat)
    requires Inv(s) && Enabled(s, RelClear(c))
    ensures Inv(Do(s, RelClear(c)))
  {
    hide Placed, States, Waits, Parents, Forks, Locked, Cli, Sleeps;
    var t, k := Do(s, RelClear(c)), At(s, c).l;
    BodyLocks(s, t, c);
    HolderIs(s, c, Lk(k));
    forall l | 0 <= l < |s.slocks| && Guard(s, l)
      ensures Guard(t, l)
    {
      if s.slocks[l] < 0 {
        MovedPending(s, t, c, l);
      }
    }
    forall p, l | p != P(s, c) && AtTest(s, p, l) && 0 <= l < |s.slocks| && s.slocks[l] >= 0
      ensures t.slocks[l] >= 0
    {
      if l == k {
        OneTester(s, c, p, l);
      }
    }
    MovedSleeps(s, t, c);
    MovedKeeps(s, t, c);
  }

  lemma HolderIs(s: State, c: nat, l: Lock)
    requires Locked(s) && c < |s.cpus| && CpuHas(s, c, l)
    ensures l in s.holder && s.holder[l] == c
  {}

  lemma ResumeKeeps(s: State, c: nat, l: Label)
    requires Inv(s) && Enabled(s, l) && (l == WaitResume(c) || l == AcqWoken(c))
    ensures Inv(Do(s, l))
  {
    hide Placed, States, Waits, Parents, Forks, Locked, Cli, Sleeps, Guard;
    var t := Do(s, l);
    RangeAt(s, c);
    BodyLocks(s, t, c);
    GuardsStay(s, t, c);
    MovedSleeps(s, t, c);
    MovedKeeps(s, t, c);
  }

  // ----- steps of the scheduler

  /** From `s` to `t` only CPU `c` changes what it runs; processes change their
      place at most. */
  ghost predicate Turned(s: State, t: State, c: nat) {
    && SameSize(s, t) && c < |s.cpus| && t.slocks == s.slocks
    && (forall d :: 0 <= d < |s.cpus| && d != c ==> t.cpus[d] == s.cpus[d])
    && (forall p :: 0 <= p < |s.procs| ==> t.procs[p] == s.procs[p].(on := t.procs[p].on, intena := t.procs[p].intena))
    && s.cpus[c].run != InProc
  }

  lemma TurnedQuiet(s: State, t: State, c: nat)
    requires Turned(s, t, c) && Waits(s) && Parents(s) && Forks(s)
    ensures Waits(t) && Parents(t) && Forks(t)
  {
    hide Parents, Forks;
    assert forall p :: 0 <= p < |s.procs| ==> ViewKin(t.procs[p]) == ViewKin(s.procs[p]);
    assert forall p :: 0 <= p < |s.procs| ==> ViewFork(t.procs[p]) == ViewFork(s.procs[p]);
    ParentsSame(s, t);
    ForksSame(s, t);
  }

  lemma TurnedSleeps(s: State, t: State, c: nat)
    requires Turned(s, t, c) && Sleeps(s)
    requires forall l :: Lk(l) in s.holder ==> Lk(l) in t.holder && t.holder[Lk(l)] == s.holder[Lk(l)]
    ensures Sleeps(t)
  {
    forall p | 0 <= p < |t.procs|
      ensures SleepOk(t, p)
    {
      assert SleepOk(s, p);
      assert forall l :: Pending(s, l) ==> Pending(t, l);
    }
  }

  /** Every CPU holds what it held, so the locks are as they were. */
  lemma SameLocks(s: State, t: State)
    requires |t.cpus| == |s.cpus| && t.holder == s.holder && Locked(s) && Cli(s)
    requires forall d, l :: 0 <= d < |s.cpus| ==> CpuHas(t, d, l) == CpuHas(s, d, l)
    requires forall d :: 0 <= d < |s.cpus| ==>
               CpuCount(t, d) == CpuCount(s, d) && t.cpus[d].ncli == s.cpus[d].ncli && t.cpus[d].iff == s.cpus[d].iff
    ensures Locked(t) && Cli(t)
  {
    hide CpuHas, CpuCount;
  }

  /** A process that is on no CPU, or on a CPU that did not change, is placed and
      in a fitting state as before. */
  lemma TurnedOthers(s: State, t: State, c: nat, p: nat)
    requires Placed(s) && States(s) && Turned(s, t, c) && p < |s.procs|
    requires t.procs[p].on == s.procs[p].on != c
    ensures ProcPlaced(t, p) && StateOk(t, p)
  {
    assert ProcPlaced(s, p) && StateOk(s, p);
  }

  lemma TurnedHas(s: State, t: State, c: nat)
    requires Turned(s, t, c)
    ensures forall d, l :: 0 <= d < |s.cpus| && d != c ==> CpuHas(t, d, l) == CpuHas(s, d, l)
    ensures forall d :: 0 <= d < |s.cpus| && d != c ==> CpuCount(t, d) == CpuCount(s, d)
  {
    hide Has, Count;
  }

  /** The scheduler takes or drops ptable.lock. */
  lemma TurnedLocks(s: State, t: State, c: nat, taken: bool)
    requires Turned(s, t, c) && Locked(s) && Cli(s)
    requires if taken then Pt !in s.holder && t.holder == s.holder[Pt := c] && s.cpus[c].run == SIdle && t.cpus[c].run == SScan
             else t.holder == s.holder - {Pt} && s.cpus[c].run == SScan && t.cpus[c].run == SIdle
    requires t.cpus[c].ncli == (if taken then 1 else 0) && (taken ==> !t.cpus[c].iff)
    ensures Locked(t) && Cli(t)
  {
    hide Has, Count;
    TurnedHas(s, t, c);
    if !taken {
      assert CpuHas(s, c, Pt);
    }
    forall d, l | 0 <= d < |t.cpus| && CpuHas(t, d, l)
      ensures l in t.holder && t.holder[l] == d
    {
      assert d != c ==> CpuHas(s, d, l);
    }
  }

  lemma IdleStates(s: State, t: State, c: nat)
    requires Placed(s) && States(s) && Turned(s, t, c) && t.procs == s.procs
    requires (s.cpus[c].run == SIdle || s.cpus[c].run == SScan) && (t.cpus[c].run == SIdle || t.cpus[c].run == SScan)
    requires t.cpus[c].proc == s.cpus[c].proc
    ensures Placed(t) && States(t)
  {
    hide StateOk, ProcPlaced;
    assert CpuPlaced(s, c);
    forall d | 0 <= d < |t.cpus|
      ensures CpuPlaced(t, d)
    {
      assert CpuPlaced(s, d);
    }
    forall p | 0 <= p < |t.procs|
      ensures ProcPlaced(t, p) && StateOk(t, p)
    {
      NotHere(s, c, p);
      TurnedOthers(s, t, c, p);
    }
  }

  /** No process is on a CPU whose scheduler runs without one. */
  lemma NotHere(s: State, c: nat, p: nat)
    requires Placed(s) && c < |s.cpus| && s.cpus[c].proc == -1 && p < |s.procs|
    ensures s.procs[p].on != c
  {
    assert ProcPlaced(s, p);
  }

  lemma SAcquireKeeps(s: State, c: nat)
    requires Inv(s) && Enabled(s, SAcquire(c))
    ensures Inv(Do(s, SAcquire(c)))
  {
    hide Placed, States, Waits, Parents, Forks, Sleeps, Locked, CpuHas;
    var t := Do(s, SAcquire(c));
    TurnedQuiet(s, t, c);
    TurnedSleeps(s, t, c);
    TurnedLocks(s, t, c, true);
    IdleStates(s, t, c);
  }

  lemma SReleaseKeeps(s: State, c: nat)
    requires Inv(s) && Enabled(s, SRelease(c))
    ensures Inv(Do(s, SRelease(c))) && !Panics(s, SRelease(c))
  {
    hide Placed, States, Waits, Parents, Forks, Sleeps, Locked;
    var t := Do(s, SRelease(c));
    HolderIs(s, c, Pt);
    TurnedQuiet(s, t, c);
    TurnedSleeps(s, t, c);
    TurnedLocks(s, t, c, false);
    IdleStates(s, t, c);
  }

  // ----- the context switch

  /** ptable.lock is held by one CPU only. */
  lemma OneScheduler(s: State, c: nat, d: nat)
    requires Locked(s) && c < |s.cpus| && d < |s.cpus| && CpuHas(s, c, Pt) && CpuHas(s, d, Pt)
    ensures c == d
  {}

  /** A runnable process is on no CPU while another CPU's scheduler scans. */
  lemma RunnableIsOff(s: State, c: nat, p: nat)
    requires Placed(s) && States(s) && Locked(s) && c < |s.cpus| && s.cpus[c].run == SScan
    requires p < |s.procs| && s.procs[p].state == RUNNABLE
    ensures s.procs[p].on == -1
  {
    assert ProcPlaced(s, p) && StateOk(s, p) && CpuPlaced(s, c);
    if s.procs[p].on != -1 {
      var d := s.procs[p].on;
      assert CpuPlaced(s, d);
      assert CpuHas(s, d, Pt) && CpuHas(s, c, Pt);
      OneScheduler(s, c, d);
    }
  }

  lemma SPickPlaced(s: State, c: nat, p: nat)
    requires Placed(s) && States(s) && Enabled(s, SPick(c, p)) && s.procs[p].on == -1
    ensures Placed(Do(s, SPick(c, p))) && States(Do(s, SPick(c, p)))
  {
    var t := Do(s, SPick(c, p));
    assert CpuPlaced(s, c);
    forall d | 0 <= d < |t.cpus|
      ensures CpuPlaced(t, d)
    {
      assert CpuPlaced(s, d);
    }
    forall q | 0 <= q < |t.procs|
      ensures ProcPlaced(t, q) && StateOk(t, q)
    {
      assert ProcPlaced(s, q) && StateOk(s, q);
    }
  }

  lemma SPickKeeps(s: State, c: nat, p: nat)
    requires Inv(s) && Enabled(s, SPick(c, p))
    ensures Inv(Do(s, SPick(c, p)))
  {
    hide Placed, States, Sleeps, Locked, Cli, Parents, Forks, Waits;
    var t := Do(s, SPick(c, p));
    RunnableIsOff(s, c, p);
    SPickPlaced(s, c, p);
    ResumesAt(s, p);
    PickHas(s, c, p);
    SameLocks(s, t);
    PickSleeps(s, c, p);
    PickQuiet(s, c, p);
  }

  lemma ResumesAt(s: State, p: nat)
    requires Placed(s) && States(s) && p < |s.procs| && s.procs[p].state == RUNNABLE
    ensures Resumes(s.procs[p].pc)
  {
    assert StateOk(s, p);
  }

  lemma PickHas(s: State, c: nat, p: nat)
    requires Placed(s) && Enabled(s, SPick(c, p)) && s.procs[p].on == -1
    ensures var t := Do(s, SPick(c, p));
            && (forall d, l :: 0 <= d < |s.cpus| ==> CpuHas(t, d, l) == CpuHas(s, d, l))
            && (forall d :: 0 <= d < |s.cpus| ==> CpuCount(t, d) == CpuCount(s, d))
  {
    hide Has, Count;
    forall d | 0 <= d < |s.cpus|
      ensures s.cpus[d].proc != p
    {
      assert CpuPlaced(s, d);
    }
  }

  lemma PickSleeps(s: State, c: nat, p: nat)
    requires Placed(s) && Enabled(s, SPick(c, p)) && s.procs[p].on == -1 && Sleeps(s) && Resumes(s.procs[p].pc)
    ensures Sleeps(Do(s, SPick(c, p)))
  {
    var t := Do(s, SPick(c, p));
    forall l | Pending(s, l)
      ensures Pending(t, l)
    {
      assert CpuPlaced(s, s.holder[Lk(l)]);
    }
    forall q | 0 <= q < |t.procs|
      ensures SleepOk(t, q)
    {
      assert SleepOk(s, q);
    }
  }

  lemma PickQuiet(s: State, c: nat, p: nat)
    requires Enabled(s, SPick(c, p)) && Resumes(s.procs[p].pc) && Waits(s) && Parents(s) && Forks(s)
    ensures var t := Do(s, SPick(c, p)); Waits(t) && Parents(t) && Forks(t)
  {
    hide Parents, Forks;
    var t := Do(s, SPick(c, p));
    assert forall q :: 0 <= q < |s.procs| ==> ViewKin(t.procs[q]) == ViewKin(s.procs[q]);
    assert forall q :: 0 <= q < |s.procs| ==> ViewFork(t.procs[q]) == ViewFork(s.procs[q]);
    ParentsSame(s, t);
    ForksSame(s, t);
  }

  /** CPU `c` turns from or to its process `p`; everybody else stays. */
  lemma TurnedStates(s: State, t: State, c: nat, p: nat)
    requires Placed(s) && States(s) && Turned(s, t, c)
    requires s.cpus[c].proc == p < |s.procs| && s.procs[p].on == c
    requires CpuPlaced(t, c) && ProcPlaced(t, p) && StateOk(t, p)
    requires forall q :: 0 <= q < |s.procs| && q != p ==> t.procs[q].on == s.procs[q].on
    ensures Placed(t) && States(t)
  {
    hide StateOk;
    forall d | 0 <= d < |t.cpus|
      ensures CpuPlaced(t, d)
    {
      assert CpuPlaced(s, d);
    }
    forall q | 0 <= q < |t.procs|
      ensures ProcPlaced(t, q) && StateOk(t, q)
    {
      if q != p {
        assert ProcPlaced(s, q);
        TurnedOthers(s, t, c, q);
      }
    }
  }

  /** What is known of a process on a CPU that is not in the process's own code. */
  lemma Seated(s: State, c: nat)
    requires Placed(s) && States(s) && c < |s.cpus| && s.cpus[c].run != SIdle && s.cpus[c].run != SScan
    ensures CpuPlaced(s, c) && ProcPlaced(s, s.cpus[c].proc) && StateOk(s, s.cpus[c].proc)
  {
    assert CpuPlaced(s, c);
    assert ProcPlaced(s, s.cpus[c].proc) && StateOk(s, s.cpus[c].proc);
  }

  lemma SSwitchKeeps(s: State, c: nat)
    requires Inv(s) && Enabled(s, SSwitch(c))
    ensures Inv(Do(s, SSwitch(c)))
  {
    hide Placed, States, Waits, Parents, Forks, Sleeps, Locked, Cli;
    var t, p := Do(s, SSwitch(c)), s.cpus[c].proc;
    Seated(s, c);
    TurnedQuiet(s, t, c);
    TurnedSleeps(s, t, c);
    TurnedHas(s, t, c);
    SameLocks(s, t);
    TurnedStates(s, t, c, p);
  }

  lemma SchedKeeps(s: State, c: nat)
    requires Inv(s) && Enabled(s, Sched(c))
    ensures Inv(Do(s, Sched(c))) && !Panics(s, Sched(c))
  {
    hide Placed, States, Waits, Parents, Forks, Sleeps, Locked, Has, Count;
    var t, p := Do(s, Sched(c)), s.cpus[c].proc;
    Seated(s, c);
    HolderIs(s, c, Pt);
    TurnedQuiet(s, t, c);
    TurnedSleeps(s, t, c);
    TurnedHas(s, t, c);
    SameLocks(s, t);
    TurnedStates(s, t, c, p);
  }

  lemma SClearKeeps(s: State, c: nat)
    requires Inv(s) && Enabled(s, SClear(c))
    ensures Inv(Do(s, SClear(c)))
  {
    hide Placed, States, Waits, Parents, Forks, Sleeps, Locked, Cli, Has, Count;
    var t, p := Do(s, SClear(c)), s.cpus[c].proc;
    Seated(s, c);
    TurnedQuiet(s, t, c);
    TurnedSleeps(s, t, c);
    TurnedHas(s, t, c);
    SameLocks(s, t);
    TurnedStates(s, t, c, p);
  }

  // ----- steps that give up the CPU

  /** The process on `c` changed its state and entered `sched`, holding only
      ptable.lock. */
  ghost predicate Left(s: State, t: State, c: nat, st: PState, ch: Chan, pc: Pc) {
    && InCode(s, c) && t == Leave(s, c, st, ch, pc)
    && Count(At(s, c)) == 1 && (forall l :: Has(At(s, c), l) <==> l == Pt)
    && (if st == ZOMBIE then ForkSlot(At(s, c)) == -1 else SameFork(At(s, c), pc))
    && (if st == ZOMBIE then pc == Dead else (st == RUNNABLE || st == SLEEPING) && Resumes(pc))
    && (st == SLEEPING ==> (pc == WaitR && ch == OnProc(P(s, c))) || (pc.AcqR? && ch == OnLock(pc.l)))
  }

  lemma LeftStates(s: State, t: State, c: nat, st: PState, ch: Chan, pc: Pc)
    requires Placed(s) && States(s) && Left(s, t, c, st, ch, pc) && PcInRange(s, P(s, c), pc)
    ensures Placed(t) && States(t)
  {
    hide Has, Count;
    assert CpuPlaced(s, c) && ProcPlaced(s, P(s, c));
    forall d | 0 <= d < |t.cpus|
      ensures CpuPlaced(t, d)
    {
      assert CpuPlaced(s, d);
    }
    forall q | 0 <= q < |t.procs|
      ensures ProcPlaced(t, q) && StateOk(t, q)
    {
      assert ProcPlaced(s, q) && StateOk(s, q);
    }
  }

  lemma LeftLocks(s: State, t: State, c: nat, st: PState, ch: Chan, pc: Pc)
    requires Placed(s) && Left(s, t, c, st, ch, pc) && Locked(s) && Cli(s)
    ensures Locked(t) && Cli(t)
  {
    hide Has, Count, Locked, Cli;
    forall d | 0 <= d < |s.cpus| && d != c
      ensures s.cpus[d].proc != P(s, c)
    {
      assert CpuPlaced(s, c) && CpuPlaced(s, d);
    }
    SameLocks(s, t);
  }

  lemma LeftKin(s: State, t: State, c: nat, st: PState, ch: Chan, pc: Pc)
    requires Placed(s) && States(s) && Left(s, t, c, st, ch, pc) && Parents(s) && Forks(s)
    requires st == ZOMBIE ==> Childless(s, P(s, c)) && P(s, c) != s.init
    ensures Parents(t) && Forks(t)
  {
    hide Placed, States, Parents, Forks, Has, Count;
    RunningHere(s, c);
    assert forall q :: 0 <= q < |s.procs| ==> ViewFork(t.procs[q]) == ViewFork(s.procs[q]);
    ForksSame(s, t);
    if st == ZOMBIE {
      ZombieParents(s, t, P(s, c));
    } else {
      assert forall q :: 0 <= q < |s.procs| ==> ViewKin(t.procs[q]) == ViewKin(s.procs[q]);
      ParentsSame(s, t);
    }
  }

  ghost predicate Childless(s: State, p: nat) {
    forall q :: 0 <= q < |s.procs| ==> s.procs[q].parent != p
  }

  lemma ZombieParents(s: State, t: State, p: nat)
    requires Parents(s) && Childless(s, p) && p < |s.procs| && p != s.init && Alive(s.procs[p])
    requires |t.procs| == |s.procs| && t.init == s.init
    requires forall q :: 0 <= q < |s.procs| && q != p ==> t.procs[q] == s.procs[q]
    requires t.procs[p].state == ZOMBIE && t.procs[p].parent == s.procs[p].parent
    ensures Parents(t)
  {
    assert ParentOk(s, s.init);
    forall q | 0 <= q < |t.procs|
      ensures ParentOk(t, q)
    {
      assert ParentOk(s, q);
    }
  }

  lemma LeftSleeps(s: State, t: State, c: nat, st: PState, ch: Chan, pc: Pc)
    requires Placed(s) && States(s) && Left(s, t, c, st, ch, pc) && Sleeps(s)
    requires st == SLEEPING && pc.AcqR? ==> pc.l < |s.slocks| && Guard(s, pc.l)
    ensures Sleeps(t)
  {
    hide Count, States;
    forall l | Pending(s, l)
      ensures Pending(t, l)
    {
      var d := s.holder[Lk(l)];
      assert CpuPlaced(s, d) && CpuPlaced(s, c);
      assert !Has(At(s, c), Lk(l));
    }
    forall q | 0 <= q < |t.procs|
      ensures SleepOk(t, q)
    {
      assert SleepOk(s, q);
    }
  }

  lemma LeftKeeps(s: State, t: State, c: nat, st: PState, ch: Chan, pc: Pc)
    requires Inv(s) && Left(s, t, c, st, ch, pc) && PcInRange(s, P(s, c), pc) && Waits(t)
    requires st == SLEEPING && pc.AcqR? ==> pc.l < |s.slocks| && Guard(s, pc.l)
    requires st == ZOMBIE ==> Childless(s, P(s, c)) && P(s, c) != s.init
    ensures Inv(t)
  {
    hide Placed, States, Parents, Forks, Locked, Cli, Sleeps, Left, Waits;
    LeftStates(s, t, c, st, ch, pc);
    LeftLocks(s, t, c, st, ch, pc);
    LeftKin(s, t, c, st, ch, pc);
    LeftSleeps(s, t, c, st, ch, pc);
  }
}
