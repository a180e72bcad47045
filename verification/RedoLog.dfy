/** The on-disk redo log: the header block, the exact sequence of block writes
    that `commit` and `recover_from_log` issue, and crash atomicity of both. */
module RedoLog {
  import opened Blocks

  const MAXOPBLOCKS: nat := 10
  const LOGSIZE: nat := MAXOPBLOCKS * 3

  /** Where the log lies: a header block at `start`, then `size - 1` log blocks. */
  datatype Area = Area(start: nat, size: nat) {
    predicate Holds(b: nat) { start <= b < start + size }
    predicate Valid(disk: nat) { 1 <= size && start + size <= disk }
  }

  /** Block numbers that may be logged: inside the disk, outside the log, few
      enough for the log area and for the header array, and distinct. */
  predicate Loggable(a: Area, disk: nat, blocks: seq<nat>) {
    && disk < 0x8000_0000
    && |blocks| <= LOGSIZE
    && |blocks| <= a.size - 1
    && (forall i :: 0 <= i < |blocks| ==> blocks[i] < disk && !a.Holds(blocks[i]))
    && (forall i, j :: 0 <= i < j < |blocks| ==> blocks[i] != blocks[j])
  }

  // ----- the header block

  /** The first `k` block numbers stored behind the count. */
  function PutEntries(b: Block, blocks: seq<nat>, k: nat): (r: Block)
    requires k <= |blocks| <= LOGSIZE
    requires forall i :: 0 <= i < |blocks| ==> blocks[i] < 0x8000_0000
    ensures GetWord(r, 0) == GetWord(b, 0)
    ensures forall i :: 0 <= i < k ==> GetWord(r, i + 1) == blocks[i]
  {
    if k == 0 then b else PutWord(PutEntries(b, blocks, k - 1), k, blocks[k - 1])
  }

  /** The header block holding `blocks`; the words behind them keep what an
      earlier, longer header left there. */
  function PutHeader(b: Block, blocks: seq<nat>): (r: Block)
    requires |blocks| <= LOGSIZE
    requires forall i :: 0 <= i < |blocks| ==> blocks[i] < 0x8000_0000
    ensures Entries(r) == blocks
  {
    var r := PutEntries(PutWord(b, 0, |blocks|), blocks, |blocks|);
    assert Entries(r) == blocks by {
      hide GetWord, PutWord, PutEntries;
      assert forall i :: 0 <= i < |blocks| ==> GetWord(r, i + 1) == blocks[i];
    }
    r
  }

  /** The block numbers a header block announces. */
  function Entries(b: Block): seq<nat> {
    var n := GetWord(b, 0);
    if n <= LOGSIZE then seq(n, i requires 0 <= i < n => GetWord(b, i + 1)) else []
  }

  /** Clearing a cleared header changes nothing. */
  lemma ClearTwice(b: Block)
    ensures PutHeader(PutHeader(b, []), []) == PutHeader(b, [])
  {
    assert PutHeader(b, []) == PutWord(b, 0, 0);
    assert PutWord(PutWord(b, 0, 0), 0, 0) == PutWord(b, 0, 0);
  }

  // ----- the writes of commit and of recovery

  function LogWrites(a: Area, mem: Disk, blocks: seq<nat>): (ws: seq<Write>)
    requires a.Valid(|mem|) && Loggable(a, |mem|, blocks)
    ensures Fits(ws, |mem|) && |ws| == |blocks|
    ensures forall i :: 0 <= i < |ws| ==> ws[i] == Write(a.start + 1 + i, mem[blocks[i]])
  {
    seq(|blocks|, i requires 0 <= i < |blocks| => Write(a.start + 1 + i, mem[blocks[i]]))
  }

  function HeadWrite(a: Area, head: Block, blocks: seq<nat>): Write
    requires |blocks| <= LOGSIZE
    requires forall i :: 0 <= i < |blocks| ==> blocks[i] < 0x8000_0000
  {
    Write(a.start, PutHeader(head, blocks))
  }

  function InstallWrites(a: Area, d: Disk, blocks: seq<nat>): (ws: seq<Write>)
    requires a.Valid(|d|) && Loggable(a, |d|, blocks)
    ensures Fits(ws, |d|) && |ws| == |blocks|
    ensures forall i :: 0 <= i < |ws| ==> ws[i] == Write(blocks[i], d[a.start + 1 + i])
  {
    seq(|blocks|, i requires 0 <= i < |blocks| => Write(blocks[i], d[a.start + 1 + i]))
  }

  /** The disk's own header is one that recovery can follow. */
  predicate Readable(a: Area, d: Disk) {
    && a.Valid(|d|)
    && Loggable(a, |d|, Entries(d[a.start]))
  }

  /** What `recover_from_log` writes when it finds the disk `d`. */
  function RecoveryWrites(a: Area, d: Disk): (ws: seq<Write>)
    requires Readable(a, d)
    ensures Fits(ws, |d|)
  {
    InstallWrites(a, d, Entries(d[a.start])) + [HeadWrite(a, d[a.start], [])]
  }

  /** The disk that an undisturbed recovery leaves. */
  function Recovered(a: Area, d: Disk): Disk
    requires Readable(a, d)
  {
    ApplyAll(d, RecoveryWrites(a, d))
  }

  /** The logged blocks written to their home locations. */
  function HomeWrites(a: Area, mem: Disk, blocks: seq<nat>): (ws: seq<Write>)
    requires a.Valid(|mem|) && Loggable(a, |mem|, blocks)
    ensures Fits(ws, |mem|) && |ws| == |blocks|
    ensures forall i :: 0 <= i < |ws| ==> ws[i] == Write(blocks[i], mem[blocks[i]])
  {
    seq(|blocks|, i requires 0 <= i < |blocks| => Write(blocks[i], mem[blocks[i]]))
  }

  /** What `commit` writes: copies to the log, the header (the commit point),
      the installs, the cleared header. */
  function CommitWrites(a: Area, d: Disk, mem: Disk, blocks: seq<nat>): (ws: seq<Write>)
    requires a.Valid(|d|) && |mem| == |d| && Loggable(a, |d|, blocks)
    ensures Fits(ws, |d|) && |ws| == 2 * |blocks| + 2
  {
    var head := HeadWrite(a, d[a.start], blocks);
    LogWrites(a, mem, blocks) + [head] + HomeWrites(a, mem, blocks) + [HeadWrite(a, head.data, [])]
  }

  // ----- recovery from any crash

  /** A crash in the middle of recovery is harmless: recovering what it left
      gives exactly the disk the undisturbed recovery gives. */
  lemma RecoveryResumes(a: Area, d: Disk, k: nat)
    requires Readable(a, d) && k <= |RecoveryWrites(a, d)|
    ensures var e := ApplyAll(d, RecoveryWrites(a, d)[..k]);
            Readable(a, e) && Recovered(a, e) == Recovered(a, d)
  {
    hide GetWord, PutWord, PutEntries, PutHeader, Entries, LogWrites, InstallWrites, HomeWrites;
    var ws := RecoveryWrites(a, d);
    var n := |Entries(d[a.start])|;
    var e := ApplyAll(d, ws[..k]);
    if k <= n {
      InstallsKeepLog(a, d, k);
      assert RecoveryWrites(a, e) == ws;
      ApplyAllRedo(d, ws, k);
    } else {
      assert ws[..k] == ws;
      ApplyAllLast(d, ws, n);
      ClearTwice(d[a.start]);
      assert RecoveryWrites(a, e) == [Write(a.start, e[a.start])];
      assert ApplyAll(e, []) == e;
    }
  }

  lemma InstallsKeepLog(a: Area, d: Disk, k: nat)
    requires Readable(a, d) && k <= |Entries(d[a.start])|
    ensures var e := ApplyAll(d, RecoveryWrites(a, d)[..k]);
            forall b :: 0 <= b < |d| && a.Holds(b) ==> e[b] == d[b]
  {
    hide GetWord, PutWord, PutEntries, PutHeader, Entries, LogWrites, InstallWrites, HomeWrites;
    var ws := RecoveryWrites(a, d)[..k];
    forall b | 0 <= b < |d| && a.Holds(b)
      ensures ApplyAll(d, ws)[b] == d[b]
    {
      ApplyAllSkips(d, ws, b);
    }
  }

  /** The disk left by a boot that crashes after `k` block writes of recovery
      (after all of them when there are not that many). */
  function CrashedBoot(a: Area, d: Disk, k: nat): (e: Disk)
    requires Readable(a, d)
    ensures Readable(a, e) && Recovered(a, e) == Recovered(a, d)
  {
    var ws := RecoveryWrites(a, d);
    var m := if k <= |ws| then k else |ws|;
    assert Fits(ws[..m], |d|);
    assert
      var e := ApplyAll(d, ws[..m]);
      Readable(a, e) && Recovered(a, e) == Recovered(a, d)
    by {
      hide *;
      RecoveryResumes(a, d, m);
    }
    ApplyAll(d, ws[..m])
  }

  /** The disk after a series of boots, each of which crashes after the given
      number of its block writes, and a last boot that completes. */
  function RecoveredAfter(a: Area, d: Disk, crashes: seq<nat>): (r: Disk)
    requires Readable(a, d)
    decreases |crashes|
  {
    if crashes == [] then Recovered(a, d)
    else RecoveredAfter(a, CrashedBoot(a, d, crashes[0]), crashes[1..])
  }

  /** However many boots crash, and wherever, the outcome is the same. */
  lemma {:induction false} RecoveryUnderCrashes(a: Area, d: Disk, crashes: seq<nat>)
    requires Readable(a, d)
    ensures RecoveredAfter(a, d, crashes) == Recovered(a, d)
    decreases |crashes|
  {
    hide Readable, Recovered, CrashedBoot;
    if crashes != [] {
      RecoveryUnderCrashes(a, CrashedBoot(a, d, crashes[0]), crashes[1..]);
    }
  }

  /** `r` is what recovery should make of `d`, block by block: a listed block
      comes from the log, every other block outside the log is left alone, and
      the header is emptied. */
  ghost predicate Redone(a: Area, d: Disk, r: Disk)
    requires Readable(a, d)
  {
    var es := Entries(d[a.start]);
    && |r| == |d|
    && Entries(r[a.start]) == []
    && (forall i :: 0 <= i < |es| ==> r[es[i]] == d[a.start + 1 + i])
    && (forall b :: 0 <= b < |d| && !a.Holds(b) && b !in es ==> r[b] == d[b])
  }

  lemma RecoveredListed(a: Area, d: Disk, i: nat)
    requires Readable(a, d) && i < |Entries(d[a.start])|
    ensures Recovered(a, d)[Entries(d[a.start])[i]] == d[a.start + 1 + i]
  {
    hide GetWord, PutHeader, Entries, InstallWrites;
    ApplyAllLast(d, RecoveryWrites(a, d), i);
  }

  lemma RecoveredUnlisted(a: Area, d: Disk, b: nat)
    requires Readable(a, d) && b < |d| && !a.Holds(b) && b !in Entries(d[a.start])
    ensures Recovered(a, d)[b] == d[b]
  {
    hide GetWord, PutHeader, Entries, InstallWrites;
    ApplyAllSkips(d, RecoveryWrites(a, d), b);
  }

  lemma RecoveredAt(a: Area, d: Disk)
    requires Readable(a, d)
    ensures Redone(a, d, Recovered(a, d))
  {
    hide GetWord, PutHeader, Entries, RecoveryWrites, ApplyAll;
    var es := Entries(d[a.start]);
    forall i | 0 <= i < |es|
      ensures Recovered(a, d)[es[i]] == d[a.start + 1 + i]
    {
      RecoveredListed(a, d, i);
    }
    forall b | 0 <= b < |d| && !a.Holds(b) && b !in es
      ensures Recovered(a, d)[b] == d[b]
    {
      RecoveredUnlisted(a, d, b);
    }
    RecoveredHead(a, d);
  }

  lemma RecoveredHead(a: Area, d: Disk)
    requires Readable(a, d)
    ensures Recovered(a, d)[a.start] == PutHeader(d[a.start], [])
  {
    hide GetWord, PutHeader, Entries, InstallWrites;
    ApplyAllLast(d, RecoveryWrites(a, d), |Entries(d[a.start])|);
  }

  // ----- commit under crashes

  /** Equal outside the log area. */
  ghost predicate SameHome(a: Area, d: Disk, e: Disk) {
    |d| == |e| && forall b :: 0 <= b < |d| && !a.Holds(b) ==> d[b] == e[b]
  }

  /** The home blocks of `d` with those of `blocks` taken from `mem`. */
  ghost predicate Committed(a: Area, d: Disk, mem: Disk, blocks: seq<nat>, r: Disk) {
    && |r| == |d| == |mem|
    && forall b :: 0 <= b < |d| && !a.Holds(b) ==> r[b] == if b in blocks then mem[b] else d[b]
  }

  /** The state of the disk while `commit` is copying to the log: `k` copies
      are in place, the header and the home blocks are untouched. */
  ghost predicate Copied(a: Area, d: Disk, mem: Disk, blocks: seq<nat>, k: nat, e: Disk)
    requires a.Valid(|d|) && |mem| == |d| && Loggable(a, |d|, blocks) && k <= |blocks|
  {
    && SameHome(a, d, e)
    && e[a.start] == d[a.start]
    && forall i :: 0 <= i < k ==> e[a.start + 1 + i] == mem[blocks[i]]
  }

  lemma {:induction false} CopiesDone(a: Area, d: Disk, mem: Disk, blocks: seq<nat>, k: nat)
    requires a.Valid(|d|) && |mem| == |d| && Loggable(a, |d|, blocks) && k <= |blocks|
    ensures Fits(LogWrites(a, mem, blocks)[..k], |d|)
    ensures Copied(a, d, mem, blocks, k, ApplyAll(d, LogWrites(a, mem, blocks)[..k]))
  {
    hide LogWrites;
    var ws := LogWrites(a, mem, blocks);
    if k > 0 {
      CopiesDone(a, d, mem, blocks, k - 1);
      assert ws[..k][..k - 1] == ws[..k - 1];
    }
  }

  /** Before the header is written the crash state recovers to the old blocks. */
  lemma CommitBeforeHead(a: Area, d: Disk, mem: Disk, blocks: seq<nat>, k: nat)
    requires Readable(a, d) && Entries(d[a.start]) == []
    requires |mem| == |d| && Loggable(a, |d|, blocks) && k <= |blocks|
    ensures var e := ApplyAll(d, CommitWrites(a, d, mem, blocks)[..k]);
            && Readable(a, e) && Copied(a, d, mem, blocks, k, e)
            && SameHome(a, d, Recovered(a, e))
  {
    hide GetWord, PutHeader, Entries, LogWrites, HomeWrites, RecoveryWrites, ApplyAll;
    assert CommitWrites(a, d, mem, blocks)[..k] == LogWrites(a, mem, blocks)[..k];
    CopiesDone(a, d, mem, blocks, k);
    RecoveredAt(a, ApplyAll(d, LogWrites(a, mem, blocks)[..k]));
  }

  /** The disk when the log copies and the header are written. */
  function HeadDisk(a: Area, d: Disk, mem: Disk, blocks: seq<nat>): Disk
    requires a.Valid(|d|) && |mem| == |d| && Loggable(a, |d|, blocks)
  {
    ApplyAll(d, LogWrites(a, mem, blocks))[a.start := PutHeader(d[a.start], blocks)]
  }

  lemma HeadDiskHolds(a: Area, d: Disk, mem: Disk, blocks: seq<nat>)
    requires a.Valid(|d|) && |mem| == |d| && Loggable(a, |d|, blocks)
    ensures var e := HeadDisk(a, d, mem, blocks);
            && Readable(a, e) && Entries(e[a.start]) == blocks && SameHome(a, d, e)
            && ApplyAll(d, LogWrites(a, mem, blocks))[a.start] == d[a.start]
            && forall i :: 0 <= i < |blocks| ==> e[a.start + 1 + i] == mem[blocks[i]]
  {
    hide GetWord, PutHeader, Entries, LogWrites, ApplyAll;
    var lw := LogWrites(a, mem, blocks);
    CopiesDone(a, d, mem, blocks, |blocks|);
    assert lw[..|blocks|] == lw;
  }

  /** From the header write on, what `commit` still has to do is precisely what
      recovery would do. */
  lemma CommitThenRecovery(a: Area, d: Disk, mem: Disk, blocks: seq<nat>)
    requires a.Valid(|d|) && |mem| == |d| && Loggable(a, |d|, blocks)
    ensures var ws, e := CommitWrites(a, d, mem, blocks), HeadDisk(a, d, mem, blocks);
            && Readable(a, e) && Entries(e[a.start]) == blocks
            && ws == LogWrites(a, mem, blocks) + [HeadWrite(a, d[a.start], blocks)] + RecoveryWrites(a, e)
  {
    hide GetWord, PutHeader, Entries, LogWrites, HomeWrites, InstallWrites, ApplyAll;
    HeadDiskHolds(a, d, mem, blocks);
    var e := HeadDisk(a, d, mem, blocks);
    assert InstallWrites(a, e, blocks) == HomeWrites(a, mem, blocks);
  }

  lemma CommitAtHead(a: Area, d: Disk, mem: Disk, blocks: seq<nat>)
    requires a.Valid(|d|) && |mem| == |d| && Loggable(a, |d|, blocks)
    ensures var ws, e := CommitWrites(a, d, mem, blocks), HeadDisk(a, d, mem, blocks);
            && Readable(a, e)
            && ApplyAll(d, ws[..|blocks| + 1]) == e
            && RecoveryWrites(a, e) == ws[|blocks| + 1..]
            && ApplyAll(d, ws) == Recovered(a, e)
            && Committed(a, d, mem, blocks, Recovered(a, e))
  {
    hide GetWord, PutHeader, Entries, LogWrites, CommitWrites, RecoveryWrites;
    var ws, e, lw := CommitWrites(a, d, mem, blocks), HeadDisk(a, d, mem, blocks), LogWrites(a, mem, blocks);
    CommitThenRecovery(a, d, mem, blocks);
    var m := |blocks| + 1;
    assert ws[..m][..m - 1] == lw;
    assert ws[m..] == RecoveryWrites(a, e) && ws == ws[..m] + ws[m..];
    ApplyAllSplit(d, ws[..m], ws[m..]);
    HeadRecovers(a, d, mem, blocks);
  }

  lemma HeadRecovers(a: Area, d: Disk, mem: Disk, blocks: seq<nat>)
    requires a.Valid(|d|) && |mem| == |d| && Loggable(a, |d|, blocks)
    requires Readable(a, HeadDisk(a, d, mem, blocks))
    ensures Committed(a, d, mem, blocks, Recovered(a, HeadDisk(a, d, mem, blocks)))
  {
    hide GetWord, PutHeader, Entries, HeadDisk, Recovered;
    HeadDiskHolds(a, d, mem, blocks);
    RecoveredAt(a, HeadDisk(a, d, mem, blocks));
  }

  /** A crash after the header write recovers to the new blocks. */
  lemma CommitAfterHead(a: Area, d: Disk, mem: Disk, blocks: seq<nat>, k: nat)
    requires a.Valid(|d|) && |mem| == |d| && Loggable(a, |d|, blocks)
    requires |blocks| < k <= |CommitWrites(a, d, mem, blocks)|
    ensures var e := ApplyAll(d, CommitWrites(a, d, mem, blocks)[..k]);
            Readable(a, e) && Committed(a, d, mem, blocks, Recovered(a, e))
  {
    hide GetWord, PutHeader, Entries, CommitWrites, RecoveryWrites, Recovered, ApplyAll, Committed, HeadDisk;
    var ws, m := CommitWrites(a, d, mem, blocks), |blocks| + 1;
    CommitAtHead(a, d, mem, blocks);
    assert ws[..k] == ws[..m] + ws[m..][..k - m];
    ApplyAllSplit(d, ws[..m], ws[m..][..k - m]);
    RecoveryResumes(a, HeadDisk(a, d, mem, blocks), k - m);
  }

  /** All or nothing: wherever the crash falls among the block writes of a
      commit, recovery ends with all home blocks old or all new, and it
      switches exactly at the write of the non-empty header. */
  lemma CommitIsAtomic(a: Area, d: Disk, mem: Disk, blocks: seq<nat>, k: nat)
    requires Readable(a, d) && Entries(d[a.start]) == []
    requires |mem| == |d| && Loggable(a, |d|, blocks)
    requires k <= |CommitWrites(a, d, mem, blocks)|
    ensures var e := ApplyAll(d, CommitWrites(a, d, mem, blocks)[..k]);
            && Readable(a, e)
            && if k <= |blocks| then SameHome(a, d, Recovered(a, e))
               else Committed(a, d, mem, blocks, Recovered(a, e))
  {
    hide GetWord, PutHeader, Entries, CommitWrites, Loggable, Recovered, Committed, SameHome, ApplyAll, Fits;
    if k <= |blocks| {
      CommitBeforeHead(a, d, mem, blocks, k);
    } else {
      CommitAfterHead(a, d, mem, blocks, k);
    }
  }

  /** A commit that is not disturbed empties the log and installs everything. */
  lemma CommitCompletes(a: Area, d: Disk, mem: Disk, blocks: seq<nat>)
    requires a.Valid(|d|) && |mem| == |d| && Loggable(a, |d|, blocks)
    ensures var e := ApplyAll(d, CommitWrites(a, d, mem, blocks));
            && Readable(a, e) && Entries(e[a.start]) == []
            && Committed(a, d, mem, blocks, e)
  {
    hide GetWord, PutHeader, Entries, CommitWrites, RecoveryWrites, ApplyAll, HeadDisk;
    CommitAtHead(a, d, mem, blocks);
    RecoveredAt(a, HeadDisk(a, d, mem, blocks));
  }
}
