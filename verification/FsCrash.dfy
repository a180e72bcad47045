/** The file system on the log: the transactions of `filewrite`, run as operations of the
    log machine, come back whole or not at all from any power failures. */
module FsCrash {
  import opened Blocks
  import opened RedoLog
  import opened LogMachine
  import opened FsLayout
  import opened FsFiles
  import opened Dinodes
  import T = FsTrace
  import LogRuns

  // ----- operations as events

  function Puts(op: Op, ws: seq<Write>): seq<Event> {
    seq(|ws|, i requires 0 <= i < |ws| => Put(op, ws[i].no, ws[i].data))
  }

  /** What an operation with these writes leaves in the history. */
  function OpEvents(op: Op, ws: seq<Write>): seq<Event> {
    [Begin(op)] + Puts(op, ws) + [End(op)]
  }

  /** One operation after the other. */
  function AllEvents(op: Op, wss: seq<seq<Write>>): seq<Event> {
    if wss == [] then [] else AllEvents(op, wss[..|wss| - 1]) + OpEvents(op, wss[|wss| - 1])
  }

  predicate AllFit(wss: seq<seq<Write>>, size: nat) {
    forall i :: 0 <= i < |wss| ==> Fits(wss[i], size)
  }

  function ApplyEach(d: Disk, wss: seq<seq<Write>>): (r: Disk)
    requires AllFit(wss, |d|)
    ensures |r| == |d|
  {
    if wss == [] then d else ApplyAll(ApplyEach(d, wss[..|wss| - 1]), wss[|wss| - 1])
  }

  lemma {:induction false} ReplayBoth(d: Disk, h: seq<Event>, e: seq<Event>)
    ensures Replay(d, h + e) == Replay(Replay(d, h), e)
  {
    if e == [] {
      assert h + e == h;
    } else {
      ReplayBoth(d, h, e[..|e| - 1]);
      assert (h + e)[..|h + e| - 1] == h + e[..|e| - 1];
    }
  }

  lemma {:induction false} ReplayPuts(d: Disk, op: Op, ws: seq<Write>)
    requires Fits(ws, |d|)
    ensures Replay(d, Puts(op, ws)) == ApplyAll(d, ws)
  {
    if ws != [] {
      ReplayPuts(d, op, ws[..|ws| - 1]);
      assert Puts(op, ws)[..|ws| - 1] == Puts(op, ws[..|ws| - 1]);
    }
  }

  lemma ReplayOp(d: Disk, op: Op, ws: seq<Write>)
    requires Fits(ws, |d|)
    ensures Replay(d, OpEvents(op, ws)) == ApplyAll(d, ws)
  {
    var begin, end := [Begin(op)], [End(op)];
    ReplayPuts(d, op, ws);
    ReplayBoth(d, begin, Puts(op, ws));
    assert begin[..0] == [] && Replay(d, begin) == d;
    var most := begin + Puts(op, ws);
    assert OpEvents(op, ws)[..|ws| + 1] == most;
  }

  lemma {:induction false} ReplayAll(d: Disk, op: Op, wss: seq<seq<Write>>)
    requires AllFit(wss, |d|)
    ensures Replay(d, AllEvents(op, wss)) == ApplyEach(d, wss)
  {
    hide OpEvents;
    if wss != [] {
      var front := wss[..|wss| - 1];
      ReplayAll(d, op, front);
      ReplayBoth(d, AllEvents(op, front), OpEvents(op, wss[|wss| - 1]));
      ReplayOp(ApplyEach(d, front), op, wss[|wss| - 1]);
    }
  }

  /** An operation is open from its first event until its last. */
  lemma {:induction false} OpenWithin(h: seq<Event>, op: Op, ws: seq<Write>, m: nat)
    requires OpenOps(h) == {} && m <= |ws| + 2
    ensures OpenOps(h + OpEvents(op, ws)[..m]) == if 1 <= m <= |ws| + 1 then {op} else {}
  {
    hide OpEvents, OpenOps;
    var e := OpEvents(op, ws);
    OpLength(op, ws);
    if m == 0 {
      assert h + e[..m] == h;
    } else {
      OpenWithin(h, op, ws, m - 1);
      assert h + e[..m] == h + e[..m - 1] + [e[m - 1]];
      OpenNext(h + e[..m - 1], e[m - 1]);
      EventIs(op, ws, m - 1);
    }
  }

  lemma OpenNext(h: seq<Event>, e: Event)
    ensures OpenOps(h + [e]) == if e.Begin? then OpenOps(h) + {e.op} else if e.Put? then OpenOps(h) else OpenOps(h) - {e.op}
  {
    assert (h + [e])[..|h|] == h;
  }

  lemma EventIs(op: Op, ws: seq<Write>, i: nat)
    requires i < |ws| + 2
    ensures |OpEvents(op, ws)| == |ws| + 2 && var e := OpEvents(op, ws)[i];
            if i == 0 then e == Begin(op) else if i == |ws| + 1 then e == End(op) else e.Put?
  {}

  lemma {:induction false} NoneOpen(h: seq<Event>, op: Op, wss: seq<seq<Write>>)
    requires OpenOps(h) == {}
    ensures OpenOps(h + AllEvents(op, wss)) == {}
  {
    hide OpEvents, OpenOps;
    if wss == [] {
      assert h + AllEvents(op, wss) == h;
    } else {
      var front, ws := wss[..|wss| - 1], wss[|wss| - 1];
      NoneOpen(h, op, front);
      OpenWithin(h + AllEvents(op, front), op, ws, |ws| + 2);
      OpLength(op, ws);
      assert h + AllEvents(op, wss) == h + AllEvents(op, front) + OpEvents(op, ws)[..|ws| + 2];
    }
  }

  lemma OpLength(op: Op, ws: seq<Write>)
    ensures |OpEvents(op, ws)| == |ws| + 2
  {}

  /** A first part of the history with no operation open ends between operations. */
  lemma {:induction false} BetweenOps(h: seq<Event>, op: Op, wss: seq<seq<Write>>, k: nat) returns (j: nat)
    requires OpenOps(h) == {} && k <= |AllEvents(op, wss)| && OpenOps(h + AllEvents(op, wss)[..k]) == {}
    ensures j <= |wss| && AllEvents(op, wss)[..k] == AllEvents(op, wss[..j])
    decreases |wss|
  {
    hide OpEvents, OpenOps;
    if wss == [] {
      return 0;
    }
    var front, ws := wss[..|wss| - 1], wss[|wss| - 1];
    var n := |AllEvents(op, front)|;
    if k <= n {
      assert AllEvents(op, wss)[..k] == AllEvents(op, front)[..k];
      j := BetweenOps(h, op, front, k);
      assert front[..j] == wss[..j];
    } else {
      NoneOpen(h, op, front);
      OpLength(op, ws);
      OpenWithin(h + AllEvents(op, front), op, ws, k - n);
      assert h + AllEvents(op, wss)[..k] == h + AllEvents(op, front) + OpEvents(op, ws)[..k - n];
      assert k - n == |ws| + 2;
      j := |wss|;
      assert wss[..j] == wss;
    }
  }

  // ----- runs

  lemma {:induction false} ExecBoth(a: Area, s: State, l0: seq<Label>, l1: seq<Label>)
    requires Exec(a, s, l0).At?
    ensures Exec(a, s, l0 + l1) == Exec(a, Exec(a, s, l0).state, l1)
  {
    hide Enabled, Do;
    if l1 == [] {
      assert l0 + l1 == l0;
    } else {
      ExecBoth(a, s, l0, l1[..|l1| - 1]);
      assert (l0 + l1)[..|l0 + l1| - 1] == l0 + l1[..|l1| - 1];
    }
  }

  /** The machine, booted on `d`, runs `l0` with everything done so far durable, and then
      `l1` with the first `k` events of the operations `wss`. */
  ghost predicate RunsTo(a: Area, d: Disk, l0: seq<Label>, l1: seq<Label>, op: Op, wss: seq<seq<Write>>, k: nat) {
    && Readable(a, d) && Exec(a, Boot(d), l0).At? && Exec(a, Boot(d), l0 + l1).At? && k <= |AllEvents(op, wss)|
    && var s0, s := Exec(a, Boot(d), l0).state, Exec(a, Boot(d), l0 + l1).state;
       s0.phase.Running? && s0.mark == |s0.hist| && s.hist == s0.hist + AllEvents(op, wss)[..k]
  }

  /** Whatever power failures come, the disk is back with some number of the operations
      done and nothing else; the durable mark says how many. */
  lemma WritesAreAtomic(a: Area, d: Disk, l0: seq<Label>, l1: seq<Label>, op: Op, wss: seq<seq<Write>>, k: nat, crashes: seq<nat>) returns (j: nat)
    requires RunsTo(a, d, l0, l1, op, wss, k) && AllFit(wss, |Exec(a, Boot(d), l0).state.mem|)
    ensures var s0, s := Exec(a, Boot(d), l0).state, Exec(a, Boot(d), l0 + l1).state;
            && j <= |wss| && Readable(a, s.disk) && s.mark == |s0.hist| + |AllEvents(op, wss[..j])|
            && SameHome(a, RecoveredAfter(a, s.disk, crashes), ApplyEach(s0.mem, wss[..j]))
  {
    hide Readable, Recovered, RecoveredAfter, Exec, Replay, OpenOps, OpEvents, AllEvents, SameHome, Inv;
    var s0, s := Exec(a, Boot(d), l0).state, Exec(a, Boot(d), l0 + l1).state;
    var base := Recovered(a, d);
    LogRuns.CrashSafety(a, d, l0, []);
    assert s0.hist[..s0.mark] == s0.hist;
    LogRuns.RunKeepsInv(a, d, l0);
    MemIsHistory(a, base, s0);
    ExecBoth(a, Boot(d), l0, l1);
    LogRuns.DurableForever(a, s0, l1);
    LogRuns.CrashSafety(a, d, l0 + l1, crashes);
    var e, m := AllEvents(op, wss), s.mark - |s0.hist|;
    assert s.hist[..s.mark] == s0.hist + e[..m];
    j := BetweenOps(s0.hist, op, wss, m);
    ReplayBoth(base, s0.hist, e[..m]);
    ReplayAll(Replay(base, s0.hist), op, wss[..j]);
    EachHome(a, s0.mem, Replay(base, s0.hist), wss[..j]);
    HomeTwice(a, RecoveredAfter(a, s.disk, crashes), ApplyEach(Replay(base, s0.hist), wss[..j]), ApplyEach(s0.mem, wss[..j]));
  }

  lemma MemIsHistory(a: Area, base: Disk, s: State)
    requires Inv(a, base, s) && s.phase.Running?
    ensures Shaped(a, s) && SameHome(a, s.mem, Replay(base, s.hist)) && |s.mem| == |base|
  {
    hide Replay, Shaped, Reserved, Balanced, Entries;
  }

  lemma HomeTwice(a: Area, x: Disk, y: Disk, z: Disk)
    requires SameHome(a, x, y) && SameHome(a, z, y)
    ensures SameHome(a, x, z)
  {}

  /** The same writes on disks with the same home blocks. */
  lemma {:induction false} EachHome(a: Area, x: Disk, y: Disk, wss: seq<seq<Write>>)
    requires SameHome(a, x, y) && AllFit(wss, |x|)
    ensures SameHome(a, ApplyEach(x, wss), ApplyEach(y, wss))
  {
    if wss != [] {
      var front, ws := wss[..|wss| - 1], wss[|wss| - 1];
      EachHome(a, x, y, front);
      AllHome(a, ApplyEach(x, front), ApplyEach(y, front), ws);
    }
  }

  lemma AllHome(a: Area, x: Disk, y: Disk, ws: seq<Write>)
    requires SameHome(a, x, y) && Fits(ws, |x|)
    ensures SameHome(a, ApplyAll(x, ws), ApplyAll(y, ws))
  {
    forall b | 0 <= b < |x| && !a.Holds(b)
      ensures ApplyAll(x, ws)[b] == ApplyAll(y, ws)[b]
    {
      ApplyAllForgets(x, y, ws, b);
    }
  }

  // ----- files

  /** The log lies before the inode blocks. */
  predicate Before(a: Area, sb: Super) {
    a.start + a.size <= sb.inodestart
  }

  /** The file system does not depend on the log. */
  lemma IntactHome(a: Area, sb: Super, x: Disk, y: Disk, t: Table, owner: Owner)
    requires Before(a, sb) && SameHome(a, x, y) && T.Intact(sb, y, t, owner)
    ensures T.Intact(sb, x, t, owner) && forall j :: 0 <= j < |t| ==> |t[j].addrs| == 13 && Content(x, t[j]) == Content(y, t[j])
  {
    hide Content, Stores, Bits, Slots, AllFilled;
    assert SameInodes(sb, y, x);
    SameInodesStore(sb, y, x, t);
    FilesAbove(sb, y, x, t, owner);
    BitsAbove(sb, y, x, owner);
    AllAddrs(y, t);
  }

  /** The file system is intact and inode `inum` has the bytes `c`. */
  ghost predicate FileIs(sb: Super, blocks: Disk, inum: nat, c: seq<Byte>) {
    exists t: Table, owner: Owner :: T.Intact(sb, blocks, t, owner) && inum < |t| && |t[inum].addrs| == 13 && Content(blocks, t[inum]) == c
  }

  /** The writes of the transactions, one list each. */
  function WritesOf(past: seq<T.Snapshot>): seq<seq<Write>> {
    if past == [] then [] else seq(|past| - 1, i requires 0 <= i < |past| - 1 => past[i + 1].ws)
  }

  /** Each snapshot is the first one with the transactions up to it. */
  lemma {:induction false} PastIs(sb: Super, inum: nat, c0: seq<Byte>, off: nat, addr: seq<Byte>, chunk: nat, past: seq<T.Snapshot>, j: nat)
    requires T.Past(sb, inum, c0, off, addr, chunk, past) && j < |past|
    ensures AllFit(WritesOf(past)[..j], |past[0].blocks|) && ApplyEach(past[0].blocks, WritesOf(past)[..j]) == past[j].blocks
  {
    hide T.Past, ApplyAll, AllFit;
    WritesLength(past);
    if j == 0 {
      EachNone(past[0].blocks, WritesOf(past));
    } else {
      PastIs(sb, inum, c0, off, addr, chunk, past, j - 1);
      PastAt(sb, inum, c0, off, addr, chunk, past, j);
      WritesNext(past, j);
      EachMore(past[0].blocks, WritesOf(past)[..j - 1], past[j].ws);
    }
  }

  lemma WritesLength(past: seq<T.Snapshot>)
    ensures |WritesOf(past)| == if past == [] then 0 else |past| - 1
  {}

  lemma WritesNext(past: seq<T.Snapshot>, j: nat)
    requires 0 < j < |past|
    ensures |WritesOf(past)| == |past| - 1 && WritesOf(past)[..j] == WritesOf(past)[..j - 1] + [past[j].ws]
  {}

  lemma PastAt(sb: Super, inum: nat, c0: seq<Byte>, off: nat, addr: seq<Byte>, chunk: nat, past: seq<T.Snapshot>, j: nat)
    requires T.Past(sb, inum, c0, off, addr, chunk, past) && 0 < j < |past|
    ensures Fits(past[j].ws, |past[j - 1].blocks|) && past[j].blocks == ApplyAll(past[j - 1].blocks, past[j].ws)
  {
    hide T.Moment, ApplyAll, T.Nos, Fits;
    assert T.Follows(sb, past[j - 1].blocks, past[j]);
  }

  lemma EachNone(d: Disk, wss: seq<seq<Write>>)
    ensures AllFit(wss[..0], |d|) && ApplyEach(d, wss[..0]) == d
  {}

  lemma EachMore(d: Disk, wss: seq<seq<Write>>, ws: seq<Write>)
    requires AllFit(wss, |d|) && Fits(ws, |d|)
    ensures AllFit(wss + [ws], |d|) && ApplyEach(d, wss + [ws]) == ApplyAll(ApplyEach(d, wss), ws)
  {
    hide Fits, ApplyAll;
    assert (wss + [ws])[..|wss|] == wss;
  }

  /** A `filewrite` on the log: whenever the power fails, and however often again while
      booting, the file system comes back intact, and the file with the bytes of the
      transactions that were durable, in order and each one whole. */
  lemma WriteSurvives(a: Area, d: Disk, l0: seq<Label>, l1: seq<Label>, op: Op, sb: Super, inum: nat, c0: seq<Byte>, off: nat,
                      addr: seq<Byte>, chunk: nat, past: seq<T.Snapshot>, k: nat, crashes: seq<nat>) returns (j: nat)
    requires Before(a, sb) && T.Past(sb, inum, c0, off, addr, chunk, past) && RunsTo(a, d, l0, l1, op, WritesOf(past), k)
    requires Exec(a, Boot(d), l0).state.mem == past[0].blocks
    ensures var s0, s := Exec(a, Boot(d), l0).state, Exec(a, Boot(d), l0 + l1).state;
            && j < |past| && Readable(a, s.disk) && s.mark == |s0.hist| + |AllEvents(op, WritesOf(past)[..j])|
            && FileIs(sb, RecoveredAfter(a, s.disk, crashes), inum, T.Written(c0, off, addr, T.Upto(j, chunk, |addr|)))
  {
    hide Readable, Exec, RecoveredAfter, AllEvents, SameHome, T.Intact, Content, T.Written, T.Upto, T.Follows;
    var all := |past| - 1;
    PastIs(sb, inum, c0, off, addr, chunk, past, all);
    assert WritesOf(past)[..all] == WritesOf(past);
    j := WritesAreAtomic(a, d, l0, l1, op, WritesOf(past), k, crashes);
    PastIs(sb, inum, c0, off, addr, chunk, past, j);
    var r := RecoveredAfter(a, Exec(a, Boot(d), l0 + l1).state.disk, crashes);
    assert T.Moment(sb, inum, c0, off, addr, chunk, past[j], j);
    IntactHome(a, sb, r, past[j].blocks, past[j].table, past[j].owner);
  }

  // ----- the operations can be run

  function OpLabels(op: Op, ws: seq<Write>): seq<Label> {
    [BeginOp(op)] + seq(|ws|, i requires 0 <= i < |ws| => LogWrite(op, ws[i].no, ws[i].data)) + [EndOp(op)]
  }

  /** From (`s`), operation `op` has begun and done the first `m` of its writes. */
  ghost predicate InTheMiddle(a: Area, s: State, t: State, op: Op, ws: seq<Write>, m: nat) {
    && m <= |ws| && Fits(ws[..m], |s.mem|) && Shaped(a, t) && t.phase.Running? && t.disk == s.disk
    && t.ops == map[op := T.Nos(ws[..m])] && |t.lh| == |T.Nos(ws[..m])| && (forall b :: b in t.lh <==> b in T.Nos(ws[..m]))
    && t.mem == ApplyAll(s.mem, ws[..m]) && t.hist == s.hist + OpEvents(op, ws)[..m + 1]
  }

  /** The machine is idle and the log large enough; the writes are within the budget and go
      to home blocks. */
  ghost predicate Ready(a: Area, s: State, ws: seq<Write>) {
    && Shaped(a, s) && s.phase.Running? && s.ops == map[] && s.lh == [] && LOGSIZE <= a.size - 1
    && Fits(ws, |s.disk|) && |T.Nos(ws)| <= MAXOPBLOCKS && forall i :: 0 <= i < |ws| ==> !a.Holds(ws[i].no)
  }

  lemma OpBegins(a: Area, s: State, op: Op, ws: seq<Write>)
    requires Ready(a, s, ws)
    ensures Enabled(a, s, BeginOp(op)) && InTheMiddle(a, s, Do(a, s, BeginOp(op)), op, ws, 0)
  {
    hide Entries, Readable, GetWord;
    assert ws[..0] == [] && OpEvents(op, ws)[..1] == [Begin(op)];
    assert T.Nos(ws[..0]) == {};
  }

  /** One more block in the header, or none. */
  lemma AbsorbKeeps(a: Area, disk: nat, lh: seq<nat>, nos: set<nat>, no: nat)
    requires Loggable(a, disk, lh) && |lh| == |nos| && (forall b :: b in lh <==> b in nos)
    requires no < disk && !a.Holds(no) && |nos + {no}| <= MAXOPBLOCKS && LOGSIZE <= a.size - 1
    ensures var lh' := Absorb(lh, no);
            Loggable(a, disk, lh') && |lh'| == |nos + {no}| && (forall b :: b in lh' <==> b in nos + {no}) && |lh| < LOGSIZE
  {
    if no in lh {
      assert nos + {no} == nos;
    } else {
      assert |nos + {no}| == |nos| + 1;
    }
  }

  lemma OpWrites(a: Area, s: State, t: State, op: Op, ws: seq<Write>, m: nat)
    requires Ready(a, s, ws) && m < |ws| && InTheMiddle(a, s, t, op, ws, m)
    ensures var l := LogWrite(op, ws[m].no, ws[m].data); Enabled(a, t, l) && InTheMiddle(a, s, Do(a, t, l), op, ws, m + 1)
  {
    hide Entries, Readable, GetWord, OpEvents, T.Nos, Loggable, ApplyAll, Absorb;
    ApplyAllNext(s.mem, ws, m);
    T.NosMore(ws[..m], ws[m]);
    NosFewer(ws, m + 1);
    AbsorbKeeps(a, |s.disk|, t.lh, T.Nos(ws[..m]), ws[m].no);
    OpLength(op, ws);
    NextPut(op, ws, m);
    assert t.ops[op := t.ops[op] + {ws[m].no}] == map[op := T.Nos(ws[..m + 1])];
  }

  lemma NextPut(op: Op, ws: seq<Write>, m: nat)
    requires m < |ws|
    ensures |OpEvents(op, ws)| == |ws| + 2 && OpEvents(op, ws)[..m + 2] == OpEvents(op, ws)[..m + 1] + [Put(op, ws[m].no, ws[m].data)]
  {}

  lemma {:induction false} NosFewer(ws: seq<Write>, m: nat)
    requires m <= |ws|
    ensures T.Nos(ws[..m]) <= T.Nos(ws) && |T.Nos(ws[..m])| <= |T.Nos(ws)|
  {
    forall n | n in T.Nos(ws[..m])
      ensures n in T.Nos(ws)
    {
      var i :| 0 <= i < m && ws[..m][i].no == n;
      assert ws[i].no == n;
    }
    Fewer(T.Nos(ws[..m]), T.Nos(ws));
  }

  lemma Fewer(x: set<nat>, y: set<nat>)
    requires x <= y
    ensures |x| <= |y|
  {
    assert y == x + (y - x);
  }

  lemma {:induction false} OpReaches(a: Area, s: State, op: Op, ws: seq<Write>, m: nat)
    requires Ready(a, s, ws) && m <= |ws|
    ensures |OpLabels(op, ws)| == |ws| + 2
    ensures var r := Exec(a, s, OpLabels(op, ws)[..m + 1]); r.At? && InTheMiddle(a, s, r.state, op, ws, m)
  {
    hide Enabled, Do, Ready, InTheMiddle;
    var ls := OpLabels(op, ws);
    if m == 0 {
      OpBegins(a, s, op, ws);
      assert ls[..1] == [BeginOp(op)] && ls[..1][..0] == [];
    } else {
      OpReaches(a, s, op, ws, m - 1);
      OpWrites(a, s, Exec(a, s, ls[..m]).state, op, ws, m - 1);
      assert ls[..m + 1][..m] == ls[..m] && ls[m] == LogWrite(op, ws[m - 1].no, ws[m - 1].data);
    }
  }

  /** A transaction within the budget can be run as one operation, to the commit. */
  lemma OpRuns(a: Area, s: State, op: Op, ws: seq<Write>)
    requires Ready(a, s, ws)
    ensures var r := Exec(a, s, OpLabels(op, ws));
            r.At? && r.state.phase == Committing(s.disk, 0) && r.state.hist == s.hist + OpEvents(op, ws) && r.state.mem == ApplyAll(s.mem, ws)
  {
    hide Entries, Readable, Loggable, GetWord, T.Nos;
    OpReaches(a, s, op, ws, |ws|);
    var ls := OpLabels(op, ws);
    var t := Exec(a, s, ls[..|ws| + 1]).state;
    assert ls[|ws| + 1] == EndOp(op) && ws[..|ws|] == ws;
    assert OpEvents(op, ws) == OpEvents(op, ws)[..|ws| + 1] + [End(op)];
    assert t.ops - {op} == map[];
  }
}
