/** Transactions as lists of block writes, and how the disk stands before and after each
    of the transactions that one `filewrite` consists of. */
module FsTrace {
  import opened Blocks
  import opened FsLayout
  import opened FsFiles
  import opened Dinodes
  import RedoLog

  const MAXOPBLOCKS: nat := RedoLog.MAXOPBLOCKS

  /** The numbers of the blocks written. */
  function Nos(ws: seq<Write>): set<nat> {
    set i | 0 <= i < |ws| :: ws[i].no
  }

  /** The writes `trace` lead from `origin` to `blocks`, none of them to the log or before
      it; `prior` are the blocks written before the last of them. */
  ghost predicate Tracing(sb: Super, origin: Disk, trace: seq<Write>, blocks: Disk, logged: set<nat>, prior: set<nat>) {
    && Fits(trace, |origin|) && blocks == ApplyAll(origin, trace) && logged == Nos(trace)
    && prior == (if trace == [] then {} else Nos(trace[..|trace| - 1]))
    && forall i :: 0 <= i < |trace| ==> sb.inodestart <= trace[i].no
  }

  lemma NoTrace(sb: Super, blocks: Disk)
    ensures Tracing(sb, blocks, [], blocks, {}, {})
  {}

  lemma TraceMore(sb: Super, origin: Disk, trace: seq<Write>, blocks: Disk, logged: set<nat>, prior: set<nat>, b: nat, data: Block)
    requires Tracing(sb, origin, trace, blocks, logged, prior) && sb.inodestart <= b < |blocks|
    ensures Tracing(sb, origin, trace + [Write(b, data)], blocks[b := data], logged + {b}, logged)
  {
    var more := trace + [Write(b, data)];
    assert more[..|more| - 1] == trace;
    NosMore(trace, Write(b, data));
  }

  lemma NosMore(ws: seq<Write>, w: Write)
    ensures Nos(ws + [w]) == Nos(ws) + {w.no}
  {
    var more := ws + [w];
    forall n
      ensures n in Nos(more) <==> n in Nos(ws) + {w.no}
    {
      if n in Nos(ws) {
        var i :| 0 <= i < |ws| && ws[i].no == n;
        assert more[i].no == n;
      }
      assert more[|ws|] == w;
    }
  }

  /** The inode blocks hold the table, the layout is sound, every inode has blocks exactly
      up to its size, and a free inode has none. */
  ghost predicate Intact(sb: Super, blocks: Disk, t: Table, owner: Owner) {
    Stores(sb, blocks, t) && Sound(sb, blocks, t, owner) && AllFilled(blocks, t) && FreeAreEmpty(t)
  }

  /** The disk after the writes `ws` of one transaction. */
  datatype Snapshot = Snapshot(ws: seq<Write>, blocks: Disk, table: Table, owner: Owner)

  /** The bytes written by the first `j` chunks of `n` bytes. */
  function Upto(j: nat, chunk: nat, n: nat): nat {
    if j * chunk < n then j * chunk else n
  }

  /** Contents `c` after the first `m` bytes of a write at `off`; a write past the end of
      the file is refused. */
  function Written(c: seq<Byte>, off: nat, addr: seq<Byte>, m: nat): seq<Byte>
    requires m <= |addr|
  {
    if off <= |c| then Splice(c, off, addr[..m]) else c
  }

  /** The file system is intact and the file has the bytes of the first `j` chunks. */
  ghost predicate Moment(sb: Super, inum: nat, c0: seq<Byte>, off: nat, addr: seq<Byte>, chunk: nat, s: Snapshot, j: nat) {
    && Intact(sb, s.blocks, s.table, s.owner) && inum < |s.table| && |s.table[inum].addrs| == 13
    && Content(s.blocks, s.table[inum]) == Written(c0, off, addr, Upto(j, chunk, |addr|))
  }

  /** One transaction within its budget leads from `before` to the snapshot. */
  ghost predicate Follows(sb: Super, before: Disk, s: Snapshot) {
    && Fits(s.ws, |before|) && s.blocks == ApplyAll(before, s.ws) && |Nos(s.ws)| <= MAXOPBLOCKS
    && forall i :: 0 <= i < |s.ws| ==> sb.inodestart <= s.ws[i].no
  }

  ghost predicate Past(sb: Super, inum: nat, c0: seq<Byte>, off: nat, addr: seq<Byte>, chunk: nat, past: seq<Snapshot>) {
    && |past| > 0
    && (forall j :: 0 <= j < |past| ==> Moment(sb, inum, c0, off, addr, chunk, past[j], j))
    && (forall j :: 0 < j < |past| ==> Follows(sb, past[j - 1].blocks, past[j]))
  }

  lemma PastStart(sb: Super, inum: nat, off: nat, addr: seq<Byte>, chunk: nat, blocks: Disk, t: Table, owner: Owner) returns (past: seq<Snapshot>)
    requires Intact(sb, blocks, t, owner) && inum < |t|
    ensures |t[inum].addrs| == 13 && Past(sb, inum, Content(blocks, t[inum]), off, addr, chunk, past)
    ensures |past| == 1 && past[0].blocks == blocks && Upto(0, chunk, |addr|) == 0
  {
    hide Stores, Sound, Filled, Content, Splice;
    SpliceNone(blocks, t[inum], off, addr);
    past := [Snapshot([], blocks, t, owner)];
    assert Moment(sb, inum, Content(blocks, t[inum]), off, addr, chunk, past[0], 0);
  }

  lemma PastMore(sb: Super, inum: nat, c0: seq<Byte>, off: nat, addr: seq<Byte>, chunk: nat, past: seq<Snapshot>,
                 ws: seq<Write>, blocks: Disk, t: Table, owner: Owner, logged: set<nat>, prior: set<nat>) returns (past': seq<Snapshot>)
    requires Past(sb, inum, c0, off, addr, chunk, past) && Intact(sb, blocks, t, owner) && inum < |t|
    requires Tracing(sb, past[|past| - 1].blocks, ws, blocks, logged, prior) && |logged| <= MAXOPBLOCKS
    requires |t[inum].addrs| == 13 && Content(blocks, t[inum]) == Written(c0, off, addr, Upto(|past|, chunk, |addr|))
    ensures Past(sb, inum, c0, off, addr, chunk, past') && |past'| == |past| + 1 && past'[0] == past[0] && past'[|past|].blocks == blocks
  {
    hide Intact, Content, Written, Upto;
    var s := Snapshot(ws, blocks, t, owner);
    past' := past + [s];
    assert Moment(sb, inum, c0, off, addr, chunk, s, |past|);
    assert Follows(sb, past[|past| - 1].blocks, s);
    forall j | 0 < j < |past'|
      ensures Follows(sb, past'[j - 1].blocks, past'[j])
    {
      if j < |past| {
        assert Follows(sb, past[j - 1].blocks, past[j]);
      }
    }
  }
}
