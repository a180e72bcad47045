/** The log as a machine: file-system operations bracketed by begin_op/end_op
    interleave freely, the last one out commits, every block write is a step of
    its own, and the power may fail before any step. */
module LogMachine {
  import opened Blocks
  import opened RedoLog

  type Op = nat

  /** What the file-system operations did, in order. */
  datatype Event = Begin(op: Op) | Put(op: Op, no: nat, data: Block) | End(op: Op)

  /** `from` is the disk on which the commit or the recovery started and `done`
      the number of its block writes that have reached the disk. */
  datatype Phase = Running | Committing(from: Disk, done: nat) | Recovering(from: Disk, done: nat)

  /** `mem` is the block contents as the buffer cache shows them, `lh` the
      in-memory header, `ops` the outstanding operations with the blocks each
      has logged. `hist[..mark]` is the part of the history that is durable. */
  datatype State = State(disk: Disk, phase: Phase, mem: Disk, lh: seq<nat>,
                         ops: map<Op, set<nat>>, hist: seq<Event>, mark: nat)

  datatype Label =
    | BeginOp(op: Op)
    | LogWrite(op: Op, no: nat, data: Block)
    | EndOp(op: Op)
    | CommitWrite
    | CommitDone
    | Crash
    | RecoverWrite
    | RecoverDone

  // ----- the guards of log.c

  /** `begin_op` sleeps. */
  predicate BeginWaits(s: State) {
    s.phase.Committing? || |s.lh| + (|s.ops| + 1) * MAXOPBLOCKS > LOGSIZE
  }

  /** `log_write` panics. */
  predicate LogWritePanics(a: Area, s: State) {
    |s.lh| >= LOGSIZE || |s.lh| >= a.size - 1 || |s.ops| < 1
  }

  /** `end_op` panics. */
  predicate EndPanics(s: State) {
    s.phase.Committing?
  }

  /** The header after `log_write`: a block already listed is absorbed. */
  function Absorb(lh: seq<nat>, no: nat): seq<nat> {
    if no in lh then lh else lh + [no]
  }

  /** The block writes of the commit in progress; an empty header writes nothing. */
  function Program(a: Area, s: State): (ws: seq<Write>)
    requires s.phase.Committing?
    requires a.Valid(|s.phase.from|) && |s.mem| == |s.phase.from|
    requires Loggable(a, |s.phase.from|, s.lh)
    ensures Fits(ws, |s.phase.from|)
  {
    if s.lh == [] then [] else CommitWrites(a, s.phase.from, s.mem, s.lh)
  }

  /** The sizes and header that make the writes of a phase well defined. */
  predicate Shaped(a: Area, s: State) {
    && a.Valid(|s.disk|) && |s.mem| == |s.disk|
    && Loggable(a, |s.disk|, s.lh)
    && s.mark <= |s.hist|
    && (s.phase.Committing? ==> |s.phase.from| == |s.disk|)
    && (s.phase.Recovering? ==> |s.phase.from| == |s.disk| && Readable(a, s.phase.from))
  }

  /** The step is taken by the code in this state, by an operation that keeps
      the discipline of logging at most MAXOPBLOCKS distinct home blocks. */
  predicate Enabled(a: Area, s: State, l: Label) {
    && Shaped(a, s)
    && match l
       case BeginOp(op) => s.phase.Running? && op !in s.ops && !BeginWaits(s)
       case LogWrite(op, no, data) =>
         && s.phase.Running? && op in s.ops && !LogWritePanics(a, s)
         && no < |s.disk| && !a.Holds(no)
         && |s.ops[op] + {no}| <= MAXOPBLOCKS
       case EndOp(op) => op in s.ops && !EndPanics(s)
       case CommitWrite => s.phase.Committing? && s.phase.done < |Program(a, s)|
       case CommitDone => s.phase.Committing? && s.phase.done == |Program(a, s)|
       case Crash => true
       case RecoverWrite => s.phase.Recovering? && s.phase.done < |RecoveryWrites(a, s.phase.from)|
       case RecoverDone => s.phase.Recovering? && s.phase.done == |RecoveryWrites(a, s.phase.from)|
  }

  function Do(a: Area, s: State, l: Label): State
    requires Enabled(a, s, l)
  {
    match l
    case BeginOp(op) => s.(ops := s.ops[op := {}], hist := s.hist + [Begin(op)])
    case LogWrite(op, no, data) =>
      s.(mem := s.mem[no := data], lh := Absorb(s.lh, no),
         ops := s.ops[op := s.ops[op] + {no}], hist := s.hist + [Put(op, no, data)])
    case EndOp(op) =>
      var left := s.ops - {op};
      s.(ops := left, hist := s.hist + [End(op)],
         phase := if left == map[] then Committing(s.disk, 0) else s.phase)
    case CommitWrite =>
      var k := s.phase.done;
      var w := Program(a, s)[k];
      s.(disk := s.disk[w.no := w.data], phase := Committing(s.phase.from, k + 1),
         mark := if k == |s.lh| then |s.hist| else s.mark)
    case CommitDone => s.(phase := Running, lh := [])
    case Crash =>
      s.(phase := Recovering(s.disk, 0), mem := s.disk, lh := [], ops := map[], hist := s.hist[..s.mark])
    case RecoverWrite =>
      var w := RecoveryWrites(a, s.phase.from)[s.phase.done];
      s.(disk := s.disk[w.no := w.data], phase := Recovering(s.phase.from, s.phase.done + 1))
    case RecoverDone => s.(phase := Running, mem := s.disk)
  }

  /** The machine as it is switched on with the disk `d`. */
  function Boot(d: Disk): State {
    State(d, Recovering(d, 0), d, [], map[], [], 0)
  }

  datatype Outcome = Stuck | At(state: State)

  /** Where the run `ls` from `s` ends, if the code can take all its steps. */
  function Exec(a: Area, s: State, ls: seq<Label>): Outcome {
    if ls == [] then At(s)
    else
      match Exec(a, s, ls[..|ls| - 1])
      case Stuck => Stuck
      case At(t) => if Enabled(a, t, ls[|ls| - 1]) then At(Do(a, t, ls[|ls| - 1])) else Stuck
  }

  // ----- what the history means

  /** The disk that performing the logged writes of a history on `d` gives. */
  function Replay(d: Disk, h: seq<Event>): (r: Disk)
    ensures |r| == |d|
  {
    if h == [] then d
    else
      var r, e := Replay(d, h[..|h| - 1]), h[|h| - 1];
      if e.Put? && e.no < |d| then r[e.no := e.data] else r
  }

  /** The operations begun but not ended by a history. */
  function OpenOps(h: seq<Event>): set<Op> {
    if h == [] then {}
    else
      var o := OpenOps(h[..|h| - 1]);
      match h[|h| - 1]
      case Begin(op) => o + {op}
      case Put(_, _, _) => o
      case End(op) => o - {op}
  }

  // ----- reserved log space

  /** Log blocks the outstanding operations may still ask for. */
  ghost function Unused(ops: map<Op, set<nat>>): int
    decreases |ops|
  {
    if ops == map[] then 0
    else
      var op :| op in ops;
      MAXOPBLOCKS - |ops[op]| + Unused(ops - {op})
  }

  lemma {:induction false} UnusedSplit(ops: map<Op, set<nat>>, op: Op)
    requires op in ops
    ensures Unused(ops) == MAXOPBLOCKS - |ops[op]| + Unused(ops - {op})
    decreases |ops|
  {
    var x :| x in ops && Unused(ops) == MAXOPBLOCKS - |ops[x]| + Unused(ops - {x});
    if x != op {
      UnusedSplit(ops - {x}, op);
      UnusedSplit(ops - {op}, x);
      assert ops - {x} - {op} == ops - {op} - {x};
    }
  }

  lemma {:induction false} UnusedBounds(ops: map<Op, set<nat>>)
    requires forall op :: op in ops ==> |ops[op]| <= MAXOPBLOCKS
    ensures 0 <= Unused(ops) <= |ops| * MAXOPBLOCKS
    decreases |ops|
  {
    if ops != map[] {
      var op :| op in ops;
      UnusedSplit(ops, op);
      UnusedBounds(ops - {op});
      assert |ops - {op}| == |ops| - 1;
    }
  }

  lemma UnusedUpdate(ops: map<Op, set<nat>>, op: Op, bs: set<nat>)
    ensures Unused(ops[op := bs]) ==
            MAXOPBLOCKS - |bs| + if op in ops then Unused(ops) - MAXOPBLOCKS + |ops[op]| else Unused(ops)
  {
    UnusedSplit(ops[op := bs], op);
    if op in ops {
      UnusedSplit(ops, op);
      assert ops[op := bs] - {op} == ops - {op};
    } else {
      assert ops[op := bs] - {op} == ops;
    }
  }

  // ----- the invariant

  /** Reserved space is there, and every block an operation logged is listed. */
  ghost predicate Reserved(s: State) {
    && (forall op :: op in s.ops ==> |s.ops[op]| <= MAXOPBLOCKS)
    && (forall op, b :: op in s.ops && b in s.ops[op] ==> b in s.lh)
    && |s.lh| + Unused(s.ops) <= LOGSIZE
  }

  /** Blocks are logged, and operations end, only while they are open. */
  ghost predicate Bracketed(h: seq<Event>) {
    forall j :: 0 <= j < |h| && !h[j].Begin? ==> h[j].op in OpenOps(h[..j])
  }

  lemma BracketedNext(h: seq<Event>, e: Event)
    requires Bracketed(h) && (e.Begin? || e.op in OpenOps(h))
    ensures Bracketed(h + [e])
  {
    forall j | 0 <= j < |h + [e]| && !(h + [e])[j].Begin?
      ensures (h + [e])[j].op in OpenOps((h + [e])[..j])
    {
      assert (h + [e])[..j] == if j < |h| then h[..j] else h;
    }
  }

  lemma BracketedPrefix(h: seq<Event>, m: nat)
    requires Bracketed(h) && m <= |h|
    ensures Bracketed(h[..m])
  {
    assert forall j :: 0 <= j < m ==> h[..m][..j] == h[..j];
  }

  /** The durable history contains whole operations only. */
  ghost predicate Balanced(s: State)
    requires s.mark <= |s.hist|
  {
    && Bracketed(s.hist)
    && OpenOps(s.hist) == s.ops.Keys
    && OpenOps(s.hist[..s.mark]) == {}
  }

  /** Memory runs ahead of the disk `d` on the listed blocks only; memory is the
      whole history, the disk the durable part of it. */
  ghost predicate Ahead(a: Area, base: Disk, s: State, d: Disk)
    requires a.Valid(|d|) && s.mark <= |s.hist|
  {
    && |base| == |d| == |s.mem|
    && Entries(d[a.start]) == []
    && SameHome(a, s.mem, Replay(base, s.hist))
    && (forall b :: 0 <= b < |d| && !a.Holds(b) && b !in s.lh ==> s.mem[b] == d[b])
  }

  ghost predicate CommitInv(a: Area, base: Disk, s: State)
    requires Shaped(a, s) && s.phase.Committing?
  {
    var ws, k := Program(a, s), s.phase.done;
    && s.ops == map[]
    && Ahead(a, base, s, s.phase.from)
    && k <= |ws|
    && s.disk == ApplyAll(s.phase.from, ws[..k])
    && if k <= |s.lh| then SameHome(a, s.phase.from, Replay(base, s.hist[..s.mark]))
       else s.mark == |s.hist|
  }

  ghost predicate RecoverInv(a: Area, base: Disk, s: State)
    requires Shaped(a, s) && s.phase.Recovering?
  {
    var ws, k := RecoveryWrites(a, s.phase.from), s.phase.done;
    && s.ops == map[] && s.lh == [] && s.mark == |s.hist|
    && k <= |ws|
    && s.disk == ApplyAll(s.phase.from, ws[..k])
    && SameHome(a, Recovered(a, s.phase.from), Replay(base, s.hist))
  }

  ghost predicate Inv(a: Area, base: Disk, s: State) {
    && Shaped(a, s) && |base| == |s.disk|
    && Reserved(s) && Balanced(s)
    && match s.phase
       case Running =>
         Ahead(a, base, s, s.disk) && SameHome(a, s.disk, Replay(base, s.hist[..s.mark]))
       case Committing(_, _) => CommitInv(a, base, s)
       case Recovering(_, _) => RecoverInv(a, base, s)
  }

  /** What a power failure in this state comes back to: the durable history. */
  ghost predicate Durable(a: Area, base: Disk, s: State) {
    && s.mark <= |s.hist|
    && Readable(a, s.disk)
    && SameHome(a, Recovered(a, s.disk), Replay(base, s.hist[..s.mark]))
  }

  lemma QuietRecovery(a: Area, d: Disk)
    requires a.Valid(|d|) && |d| < 0x8000_0000 && Entries(d[a.start]) == []
    ensures Readable(a, d) && SameHome(a, Recovered(a, d), d)
  {
    hide Bracketed, GetWord, Entries, PutHeader, RecoveryWrites, Recovered;
    RecoveredAt(a, d);
  }

  lemma CommitDurable(a: Area, base: Disk, s: State)
    requires Inv(a, base, s) && s.phase.Committing?
    ensures Durable(a, base, s)
  {
    hide Bracketed, GetWord, Entries, PutHeader, RecoveryWrites, Recovered, CommitWrites, Replay, Reserved, Balanced;
    var from, k := s.phase.from, s.phase.done;
    QuietRecovery(a, from);
    if s.lh == [] {
      assert Program(a, s)[..k] == [];
    } else {
      CommitIsAtomic(a, from, s.mem, s.lh, k);
      assert s.mark == |s.hist| ==> s.hist[..s.mark] == s.hist;
    }
  }

  lemma RunningDurable(a: Area, base: Disk, s: State)
    requires Inv(a, base, s) && s.phase.Running?
    ensures Durable(a, base, s)
  {
    hide Bracketed, GetWord, Entries, PutHeader, RecoveryWrites, Recovered, CommitInv, Replay, Reserved, Balanced;
    QuietRecovery(a, s.disk);
  }

  lemma RecoveringDurable(a: Area, base: Disk, s: State)
    requires Inv(a, base, s) && s.phase.Recovering?
    ensures Durable(a, base, s)
  {
    hide Bracketed, GetWord, Entries, PutHeader, RecoveryWrites, Recovered, CommitInv, Replay, Reserved, Balanced;
    RecoveryResumes(a, s.phase.from, s.phase.done);
    assert s.hist[..s.mark] == s.hist;
  }

  // ----- every step keeps the invariant

  /** One more event keeps the history balanced. */
  lemma BalancedNext(s: State, t: State, e: Event)
    requires s.mark <= |s.hist| && Balanced(s)
    requires t.hist == s.hist + [e] && t.mark == s.mark
    requires e.Begin? || e.op in s.ops
    requires t.ops.Keys == match e
                           case Begin(op) => s.ops.Keys + {op}
                           case Put(_, _, _) => s.ops.Keys
                           case End(op) => s.ops.Keys - {op}
    ensures Balanced(t)
  {
    assert t.hist[..|s.hist|] == s.hist && t.hist[..t.mark] == s.hist[..s.mark];
    BracketedNext(s.hist, e);
  }

  lemma BeginKeeps(a: Area, base: Disk, s: State, op: Op)
    requires Inv(a, base, s) && Enabled(a, s, BeginOp(op))
    ensures Inv(a, base, Do(a, s, BeginOp(op)))
  {
    hide Balanced, GetWord, Entries, PutHeader, Loggable, Readable, RecoveryWrites;
    var t := Do(a, s, BeginOp(op));
    BalancedNext(s, t, Begin(op));
    assert Reserved(t) by {
      UnusedUpdate(s.ops, op, {});
      UnusedBounds(s.ops);
    }
    assert t.hist[..|s.hist|] == s.hist && t.hist[..t.mark] == s.hist[..s.mark];
  }

  lemma LogWriteKeepsReserved(a: Area, base: Disk, s: State, op: Op, no: nat, data: Block)
    requires Inv(a, base, s) && Enabled(a, s, LogWrite(op, no, data))
    ensures Reserved(Do(a, s, LogWrite(op, no, data)))
  {
    hide Balanced, GetWord, Entries, PutHeader, Ahead, SameHome, Loggable;
    var bs := s.ops[op];
    UnusedUpdate(s.ops, op, bs + {no});
    if no in bs {
      assert bs + {no} == bs;
    } else {
      assert |bs + {no}| == |bs| + 1;
    }
  }

  lemma LogWriteKeeps(a: Area, base: Disk, s: State, op: Op, no: nat, data: Block)
    requires Inv(a, base, s) && Enabled(a, s, LogWrite(op, no, data))
    ensures Inv(a, base, Do(a, s, LogWrite(op, no, data)))
  {
    hide Balanced, GetWord, Entries, PutHeader, Reserved, Readable, RecoveryWrites;
    var t := Do(a, s, LogWrite(op, no, data));
    BalancedNext(s, t, Put(op, no, data));
    LogWriteKeepsReserved(a, base, s, op, no, data);
    assert t.hist[..|s.hist|] == s.hist && t.hist[..t.mark] == s.hist[..s.mark];
  }

  lemma EndKeeps(a: Area, base: Disk, s: State, op: Op)
    requires Inv(a, base, s) && Enabled(a, s, EndOp(op))
    ensures Inv(a, base, Do(a, s, EndOp(op)))
  {
    hide Balanced, GetWord, Entries, PutHeader, Loggable;
    var t := Do(a, s, EndOp(op));
    BalancedNext(s, t, End(op));
    assert t.hist[..|s.hist|] == s.hist && t.hist[..t.mark] == s.hist[..s.mark];
    UnusedSplit(s.ops, op);
    if t.phase.Committing? {
      assert Program(a, t)[..0] == [];
    }
  }

  lemma CommitWriteKeeps(a: Area, base: Disk, s: State)
    requires Inv(a, base, s) && Enabled(a, s, CommitWrite)
    ensures Inv(a, base, Do(a, s, CommitWrite))
  {
    hide Bracketed, GetWord, Entries, PutHeader, CommitWrites, Replay, SameHome, Unused;
    var t, ws, k := Do(a, s, CommitWrite), Program(a, s), s.phase.done;
    assert ws[..k + 1][..k] == ws[..k];
    assert Program(a, t) == ws;
    assert s.hist[..|s.hist|] == s.hist;
  }

  lemma CommitDoneKeeps(a: Area, base: Disk, s: State)
    requires Inv(a, base, s) && Enabled(a, s, CommitDone)
    ensures Inv(a, base, Do(a, s, CommitDone))
  {
    hide Bracketed, GetWord, Entries, PutHeader, CommitWrites, Replay, Unused, RecoveryWrites, Recovered;
    var ws := Program(a, s);
    assert ws[..|ws|] == ws;
    if s.lh != [] {
      CommitCompletes(a, s.phase.from, s.mem, s.lh);
      assert s.hist[..s.mark] == s.hist;
    }
  }

  lemma CrashKeeps(a: Area, base: Disk, s: State)
    requires Crashable(a, base, s)
    ensures Enabled(a, s, Crash) && Inv(a, base, Do(a, s, Crash))
  {
    hide Bracketed, GetWord, Entries, PutHeader, CommitWrites, RecoveryWrites, Recovered, Replay, SameHome, CommitInv;
    var t := Do(a, s, Crash);
    BracketedPrefix(s.hist, s.mark);
    assert t.hist[..t.mark] == t.hist;
    assert RecoveryWrites(a, s.disk)[..0] == [];
  }

  lemma RecoverWriteKeeps(a: Area, base: Disk, s: State)
    requires Inv(a, base, s) && Enabled(a, s, RecoverWrite)
    ensures Inv(a, base, Do(a, s, RecoverWrite))
  {
    hide Bracketed, GetWord, Entries, PutHeader, Replay, SameHome, RecoveryWrites;
    var ws, k := RecoveryWrites(a, s.phase.from), s.phase.done;
    assert ws[..k + 1][..k] == ws[..k];
  }

  lemma RecoverDoneKeeps(a: Area, base: Disk, s: State)
    requires Inv(a, base, s) && Enabled(a, s, RecoverDone)
    ensures Inv(a, base, Do(a, s, RecoverDone))
  {
    hide Bracketed, GetWord, Entries, PutHeader, Replay, RecoveryWrites;
    var ws := RecoveryWrites(a, s.phase.from);
    assert ws[..|ws|] == ws;
    assert s.hist[..s.mark] == s.hist;
    RecoveredAt(a, s.phase.from);
  }

  /** What the durable history needs of the invariant. */
  ghost predicate Crashable(a: Area, base: Disk, s: State) {
    Shaped(a, s) && |base| == |s.disk| && Bracketed(s.hist) && OpenOps(s.hist[..s.mark]) == {} && Durable(a, base, s)
  }

  /** A power failure while the code runs comes back to the durable history. */
  lemma RunningCrashable(a: Area, base: Disk, s: State)
    requires Inv(a, base, s) && s.phase.Running?
    ensures Crashable(a, base, s)
  {
    hide Bracketed, OpenOps, GetWord, Entries, PutHeader, RecoveryWrites, Recovered, Ahead, Replay, Reserved, Shaped, Durable;
    RunningDurable(a, base, s);
  }

  /** And so does one during a commit or a recovery. */
  lemma BusyCrashable(a: Area, base: Disk, s: State)
    requires Inv(a, base, s) && !s.phase.Running?
    ensures Crashable(a, base, s)
  {
    hide Bracketed, OpenOps, GetWord, Entries, PutHeader, RecoveryWrites, Recovered, CommitInv, RecoverInv, Replay, Reserved, Shaped, Durable;
    if s.phase.Committing? {
      CommitDurable(a, base, s);
    } else {
      RecoveringDurable(a, base, s);
    }
  }

  lemma StepKeeps(a: Area, base: Disk, s: State, l: Label)
    requires Inv(a, base, s) && Enabled(a, s, l)
    ensures Inv(a, base, Do(a, s, l))
  {
    hide *;
    match l
    case BeginOp(op) => BeginKeeps(a, base, s, op);
    case LogWrite(op, no, data) => LogWriteKeeps(a, base, s, op, no, data);
    case EndOp(op) => EndKeeps(a, base, s, op);
    case CommitWrite => CommitWriteKeeps(a, base, s);
    case CommitDone => CommitDoneKeeps(a, base, s);
    case Crash =>
      if s.phase.Running? {
        RunningCrashable(a, base, s);
      } else {
        BusyCrashable(a, base, s);
      }
      CrashKeeps(a, base, s);
    case RecoverWrite => RecoverWriteKeeps(a, base, s);
    case RecoverDone => RecoverDoneKeeps(a, base, s);
  }
}
