/** Safety of the log over whole runs: any interleaving of operations, commits
    and block writes, with power failures anywhere. */
module LogRuns {
  import opened Blocks
  import opened RedoLog
  import opened LogMachine

  lemma {:induction false} RunKeepsInv(a: Area, d: Disk, ls: seq<Label>)
    requires Readable(a, d) && Exec(a, Boot(d), ls).At?
    ensures Inv(a, Recovered(a, d), Exec(a, Boot(d), ls).state)
  {
    hide Readable, Recovered, Inv, Enabled, Do;
    if ls == [] {
      BootInv(a, d);
    } else {
      RunKeepsInv(a, d, ls[..|ls| - 1]);
      StepKeeps(a, Recovered(a, d), Exec(a, Boot(d), ls[..|ls| - 1]).state, ls[|ls| - 1]);
    }
  }

  lemma BootInv(a: Area, d: Disk)
    requires Readable(a, d)
    ensures Inv(a, Recovered(a, d), Boot(d))
  {
    hide GetWord, Entries, PutHeader;
    assert RecoveryWrites(a, d)[..0] == [];
  }

  /** In every run, whatever number of power failures interrupts the reboots
      that follow, the disk comes back to the durable part of the history, and
      that part consists of whole operations. */
  lemma CrashSafety(a: Area, d: Disk, ls: seq<Label>, crashes: seq<nat>)
    requires Readable(a, d) && Exec(a, Boot(d), ls).At?
    ensures var s := Exec(a, Boot(d), ls).state;
            && s.mark <= |s.hist| && Readable(a, s.disk)
            && SameHome(a, RecoveredAfter(a, s.disk, crashes), Replay(Recovered(a, d), s.hist[..s.mark]))
            && OpenOps(s.hist[..s.mark]) == {}
  {
    hide GetWord, Entries, PutHeader, Recovered, RecoveredAfter, Replay, SameHome, OpenOps, Exec, Readable, CommitInv, RecoverInv, Ahead, Inv;
    RunKeepsInv(a, d, ls);
    var s := Exec(a, Boot(d), ls).state;
    if s.phase.Running? {
      RunningCrashable(a, Recovered(a, d), s);
    } else {
      BusyCrashable(a, Recovered(a, d), s);
    }
    RecoveryUnderCrashes(a, s.disk, crashes);
  }

  /** No operation is split by the durable mark: if one of its events is durable
      and another is not, a new operation of that name began in between. */
  lemma OperationsAreAtomic(a: Area, d: Disk, ls: seq<Label>, i: nat, j: nat)
    requires Readable(a, d) && Exec(a, Boot(d), ls).At?
    requires var s := Exec(a, Boot(d), ls).state;
             i < s.mark <= j < |s.hist| && s.hist[i].op == s.hist[j].op
    ensures var s := Exec(a, Boot(d), ls).state;
            exists m :: s.mark <= m <= j && s.hist[m] == Begin(s.hist[i].op)
  {
    hide GetWord, Entries, PutHeader, Recovered, Exec, Readable, CommitInv, RecoverInv, Ahead;
    RunKeepsInv(a, d, ls);
    var s := Exec(a, Boot(d), ls).state;
    var op := s.hist[i].op;
    if forall m :: s.mark <= m < j ==> s.hist[m] != Begin(op) {
      StaysClosed(s.hist, s.mark, j, op);
      assert s.hist[j].Begin?;
    }
  }

  lemma {:induction false} StaysClosed(h: seq<Event>, m: nat, j: nat, op: Op)
    requires m <= j <= |h| && op !in OpenOps(h[..m])
    requires forall i :: m <= i < j ==> h[i] != Begin(op)
    ensures op !in OpenOps(h[..j])
  {
    if m < j {
      StaysClosed(h, m, j - 1, op);
      assert h[..j][..j - 1] == h[..j - 1];
    }
  }

  /** The group-commit discipline in every run: a commit runs with no operation
      outstanding, listed blocks are distinct home blocks that contain all the
      outstanding operations logged, the reserved space never exceeds the
      header, and the panic of `end_op` is out of reach. */
  lemma GroupCommit(a: Area, d: Disk, ls: seq<Label>)
    requires Readable(a, d) && Exec(a, Boot(d), ls).At?
    ensures var s := Exec(a, Boot(d), ls).state;
            && (s.phase.Committing? ==> s.ops == map[])
            && (forall op :: op in s.ops ==> !EndPanics(s))
            && Loggable(a, |s.disk|, s.lh)
            && (forall op, b :: op in s.ops && b in s.ops[op] ==> b in s.lh)
            && |s.lh| + Unused(s.ops) <= LOGSIZE
  {
    hide GetWord, Entries, PutHeader, Recovered, Exec, Readable, RecoverInv, Ahead;
    RunKeepsInv(a, d, ls);
  }

  /** What is durable stays durable, whatever happens next. */
  lemma {:induction false} DurableForever(a: Area, s: State, ls: seq<Label>)
    requires Shaped(a, s) && Exec(a, s, ls).At?
    ensures var t := Exec(a, s, ls).state;
            t.mark <= |t.hist| && s.hist[..s.mark] <= t.hist[..t.mark]
  {
    hide Enabled, Do, Shaped;
    if ls == [] {
      assert s.mark <= |s.hist| by { ShapedMark(a, s); }
    } else {
      DurableForever(a, s, ls[..|ls| - 1]);
      StepExtends(a, Exec(a, s, ls[..|ls| - 1]).state, ls[|ls| - 1]);
    }
  }

  lemma ShapedMark(a: Area, s: State)
    requires Shaped(a, s)
    ensures s.mark <= |s.hist|
  {}

  lemma StepExtends(a: Area, s: State, l: Label)
    requires s.mark <= |s.hist| && Enabled(a, s, l)
    ensures var t := Do(a, s, l); t.mark <= |t.hist| && s.hist[..s.mark] <= t.hist[..t.mark]
  {
    hide GetWord, Entries, PutHeader, Loggable, Readable, Program, RecoveryWrites;
  }

  /** Once a group has been committed and no new block is logged, everything the
      operations did is durable. */
  lemma QuietIsDurable(a: Area, d: Disk, ls: seq<Label>)
    requires Readable(a, d) && Exec(a, Boot(d), ls).At?
    requires var s := Exec(a, Boot(d), ls).state; s.phase.Running? && s.lh == []
    ensures var s := Exec(a, Boot(d), ls).state;
            Readable(a, s.disk) && SameHome(a, Recovered(a, s.disk), Replay(Recovered(a, d), s.hist))
  {
    hide GetWord, Entries, PutHeader, Recovered, Exec, CommitInv, RecoverInv, Replay, Reserved, Balanced;
    RunKeepsInv(a, d, ls);
    QuietRecovery(a, Exec(a, Boot(d), ls).state.disk);
  }

  // ----- when log_write panics

  /** No operation that has logged exactly `used` blocks ever panics in
      `log_write`. */
  ghost predicate NeverPanicsAt(a: Area, d: Disk, used: nat) {
    forall ls, op :: ReachedWith(a, d, ls, op, used) ==> !LogWritePanics(a, Exec(a, Boot(d), ls).state)
  }

  /** The run `ls` ends with the operation `op` open and `used` blocks logged by it. */
  ghost predicate ReachedWith(a: Area, d: Disk, ls: seq<Label>, op: Op, used: nat) {
    var r := Exec(a, Boot(d), ls);
    r.At? && op in r.state.ops && |r.state.ops[op]| == used
  }

  lemma WithinBudget(a: Area, d: Disk, ls: seq<Label>, op: Op, used: nat)
    requires Readable(a, d) && ReachedWith(a, d, ls, op, used)
    requires used < MAXOPBLOCKS && LOGSIZE <= a.size - 1
    ensures !LogWritePanics(a, Exec(a, Boot(d), ls).state)
  {
    hide GetWord, Entries, PutHeader, Recovered, Exec, Readable, CommitInv, RecoverInv, Ahead;
    RunKeepsInv(a, d, ls);
    var s := Exec(a, Boot(d), ls).state;
    UnusedSplit(s.ops, op);
    UnusedBounds(s.ops - {op});
  }

  /** Thirty distinct blocks that may be logged. */
  ghost predicate Spare(a: Area, disk: nat, free: seq<nat>) {
    && |free| == LOGSIZE
    && (forall i :: 0 <= i < |free| ==> free[i] < disk && !a.Holds(free[i]))
    && (forall i, j :: 0 <= i < j < |free| ==> free[i] != free[j])
  }

  function Share(m: nat, op: nat): nat {
    if m <= MAXOPBLOCKS * op then 0
    else if m <= MAXOPBLOCKS * op + MAXOPBLOCKS then m - MAXOPBLOCKS * op
    else MAXOPBLOCKS
  }

  /** Three operations are open and have logged `free[..m]` between them, each
      filling its budget before the next starts. */
  ghost predicate Filled(a: Area, d: Disk, free: seq<nat>, m: nat, s: State) {
    && Shaped(a, s) && s.phase.Running?
    && |s.disk| == |d| && m <= |free| && s.lh == free[..m]
    && s.ops.Keys == {0, 1, 2}
    && forall op :: op in s.ops ==> HasShare(s.ops[op], free, m, op)
  }

  ghost predicate HasShare(bs: set<nat>, free: seq<nat>, m: nat, op: Op)
    requires m <= |free|
  {
    |bs| == Share(m, op) && forall b :: b in bs ==> b in free[..m]
  }

  lemma ShareGrows(bs: set<nat>, free: seq<nat>, m: nat, op: Op)
    requires m < |free| <= LOGSIZE && forall i, j :: 0 <= i < j < |free| ==> free[i] != free[j]
    requires HasShare(bs, free, m, op)
    ensures if op == m / MAXOPBLOCKS then |bs| < MAXOPBLOCKS && HasShare(bs + {free[m]}, free, m + 1, op)
            else HasShare(bs, free, m + 1, op)
  {
    assert free[m] !in free[..m];
    assert free[..m] + [free[m]] == free[..m + 1];
    if op == m / MAXOPBLOCKS {
      assert |bs + {free[m]}| == |bs| + 1;
    }
  }

  /** The machine is up, nothing is logged, and `ops` have just begun. */
  ghost predicate Fresh(a: Area, d: Disk, s: State, ops: map<Op, set<nat>>) {
    Shaped(a, s) && s.phase.Running? && |s.disk| == |d| && s.lh == [] && s.ops == ops
  }

  lemma StartUp(a: Area, d: Disk) returns (ls: seq<Label>)
    requires Readable(a, d) && Entries(d[a.start]) == []
    ensures Exec(a, Boot(d), ls).At? && Fresh(a, d, Exec(a, Boot(d), ls).state, map[])
  {
    hide GetWord, Entries, PutHeader, Exec;
    assert Exec(a, Boot(d), []) == At(Boot(d)) by { ExecNothing(a, Boot(d)); }
    ls := Then(a, Boot(d), [], RecoverWrite, Boot(d));
    ls := Then(a, Boot(d), ls, RecoverDone, Do(a, Boot(d), RecoverWrite));
  }

  lemma ExecNothing(a: Area, s: State)
    ensures Exec(a, s, []) == At(s)
  {}

  lemma StartOne(a: Area, d: Disk, l0: seq<Label>, ops: map<Op, set<nat>>, op: Op) returns (ls: seq<Label>)
    requires Exec(a, Boot(d), l0).At? && Fresh(a, d, Exec(a, Boot(d), l0).state, ops)
    requires op !in ops && |ops| < 3
    ensures Exec(a, Boot(d), ls).At? && Fresh(a, d, Exec(a, Boot(d), ls).state, ops[op := {}])
  {
    hide GetWord, Entries, PutHeader, Exec, Readable;
    ls := Then(a, Boot(d), l0, BeginOp(op), Exec(a, Boot(d), l0).state);
  }

  lemma StartThree(a: Area, d: Disk, free: seq<nat>) returns (ls: seq<Label>)
    requires Readable(a, d) && Entries(d[a.start]) == [] && Spare(a, |d|, free)
    ensures Exec(a, Boot(d), ls).At? && Filled(a, d, free, 0, Exec(a, Boot(d), ls).state)
  {
    hide GetWord, Entries, PutHeader, Exec, Shaped, Spare, Readable;
    ls := StartUp(a, d);
    ls := StartOne(a, d, ls, map[], 0);
    ls := StartOne(a, d, ls, map[0 := {}], 1);
    var two: map<Op, set<nat>> := map[0 := {}][1 := {}];
    assert |two| == 2;
    ls := StartOne(a, d, ls, two, 2);
    assert |free| == LOGSIZE by { SpareLength(a, |d|, free); }
  }

  lemma SpareLength(a: Area, disk: nat, free: seq<nat>)
    requires Spare(a, disk, free)
    ensures |free| == LOGSIZE
  {}

  lemma Then(a: Area, s: State, ls: seq<Label>, l: Label, t: State) returns (r: seq<Label>)
    requires Exec(a, s, ls) == At(t) && Enabled(a, t, l)
    ensures r == ls + [l] && Exec(a, s, r) == At(Do(a, t, l))
  {
    hide Enabled, Do;
    r := ls + [l];
    assert r[..|r| - 1] == ls;
  }

  lemma FillOne(a: Area, d: Disk, free: seq<nat>, m: nat, s: State, data: Block)
    requires Spare(a, |d|, free) && m < LOGSIZE && m < a.size - 1
    requires Filled(a, d, free, m, s)
    ensures var l := LogWrite(m / MAXOPBLOCKS, free[m], data);
            Enabled(a, s, l) && Filled(a, d, free, m + 1, Do(a, s, l))
  {
    hide GetWord, Entries, PutHeader, Readable, HasShare;
    var op := m / MAXOPBLOCKS;
    forall o | o in s.ops
      ensures if o == op then |s.ops[o]| < MAXOPBLOCKS && HasShare(s.ops[o] + {free[m]}, free, m + 1, o)
              else HasShare(s.ops[o], free, m + 1, o)
    {
      ShareGrows(s.ops[o], free, m, o);
    }
    assert free[m] !in free[..m] && free[..m] + [free[m]] == free[..m + 1];
  }

  lemma {:induction false} FillUp(a: Area, d: Disk, free: seq<nat>, m: nat, data: Block) returns (ls: seq<Label>)
    requires Readable(a, d) && Entries(d[a.start]) == [] && Spare(a, |d|, free)
    requires m <= LOGSIZE && m <= a.size - 1
    ensures Exec(a, Boot(d), ls).At? && Filled(a, d, free, m, Exec(a, Boot(d), ls).state)
    decreases m
  {
    hide Readable, Filled, Exec, Enabled, Do;
    if m == 0 {
      ls := StartThree(a, d, free);
    } else {
      var l0 := FillUp(a, d, free, m - 1, data);
      var s := Exec(a, Boot(d), l0).state;
      FillOne(a, d, free, m - 1, s, data);
      ls := Then(a, Boot(d), l0, LogWrite((m - 1) / MAXOPBLOCKS, free[m - 1], data), s);
    }
  }

  /** Exactly when "too big a transaction" is out of reach for operations within
      their budget: the log area must hold LOGSIZE blocks behind its header. The
      shipped image makes `nlog` equal to LOGSIZE and misses this by one. */
  lemma LogLargeEnough(a: Area, d: Disk, free: seq<nat>)
    requires Readable(a, d) && Entries(d[a.start]) == [] && Spare(a, |d|, free)
    ensures (forall used :: 0 <= used < MAXOPBLOCKS ==> NeverPanicsAt(a, d, used)) <==> LOGSIZE <= a.size - 1
  {
    hide GetWord, Entries, PutHeader, Recovered, Exec, Readable, LogWritePanics;
    if LOGSIZE <= a.size - 1 {
      forall used, ls, op | 0 <= used < MAXOPBLOCKS && ReachedWith(a, d, ls, op, used)
        ensures !LogWritePanics(a, Exec(a, Boot(d), ls).state)
      {
        WithinBudget(a, d, ls, op, used);
      }
    } else {
      SmallLogPanics(a, d, free);
    }
  }

  lemma SmallLogPanics(a: Area, d: Disk, free: seq<nat>)
    requires Readable(a, d) && Entries(d[a.start]) == [] && Spare(a, |d|, free)
    requires a.size - 1 < LOGSIZE
    ensures !NeverPanicsAt(a, d, (a.size - 1) % MAXOPBLOCKS)
  {
    hide GetWord, Entries, PutHeader, Recovered, Exec, Loggable;
    var m := a.size - 1;
    var ls := FillUp(a, d, free, m, d[a.start]);
    assert ReachedWith(a, d, ls, m / MAXOPBLOCKS, m % MAXOPBLOCKS);
    assert LogWritePanics(a, Exec(a, Boot(d), ls).state);
  }

  /** Even with a large enough log, an operation that has logged its
      MAXOPBLOCKS-th distinct block cannot call `log_write` again safely, not
      even on a block already listed: the guard comes before the absorption. */
  lemma BudgetIsTight(a: Area, d: Disk, free: seq<nat>, used: nat)
    requires Readable(a, d) && Entries(d[a.start]) == [] && Spare(a, |d|, free)
    requires LOGSIZE <= a.size - 1 && used <= MAXOPBLOCKS
    ensures NeverPanicsAt(a, d, used) <==> used < MAXOPBLOCKS
  {
    hide GetWord, Entries, PutHeader, Recovered, Exec, Loggable;
    if used < MAXOPBLOCKS {
      LogLargeEnough(a, d, free);
    } else {
      var ls := FillUp(a, d, free, LOGSIZE, d[a.start]);
      assert ReachedWith(a, d, ls, 2, MAXOPBLOCKS);
      assert LogWritePanics(a, Exec(a, Boot(d), ls).state);
    }
  }
}
