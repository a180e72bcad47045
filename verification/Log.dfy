/** log.c in its own form: one log object whose methods update the in-memory
    header, the buffer cache's view of the blocks and the disk. Each method that
    writes blocks is tied to the exact list of writes that the crash theorems
    of RedoLog and the runs of LogMachine are about. */
module Log {
  import opened Blocks
  import opened RedoLog
  import opened LogMachine

  datatype Result = Done | Panic(why: string)

  class Log {
    const area: Area
    var disk: Disk
    /** The blocks as `bread` shows them: cached contents, else the disk's. */
    var cache: Disk
    var n: nat
    const block: array<nat>
    var outstanding: int
    var committing: bool
    /** Every block write handed to the disk so far. */
    ghost var writes: seq<Write>

    /** The in-memory header. */
    ghost function Lh(): seq<nat>
      reads this, block
      requires n <= block.Length
    {
      block[..n]
    }

    /** Log blocks are written through, so cache and disk agree on them. */
    ghost predicate Valid()
      reads this, block
    {
      && block.Length == LOGSIZE && n <= LOGSIZE
      && area.Valid(|disk|) && |cache| == |disk|
      && Loggable(area, |disk|, Lh())
      && forall b :: 0 <= b < |disk| && area.Holds(b) ==> cache[b] == disk[b]
    }

    /** The log object on a cold cache, before recovery. */
    constructor (a: Area, d: Disk)
      requires a.Valid(|d|) && |d| < 0x8000_0000
      ensures Valid() && fresh(block)
      ensures area == a && disk == cache == d && n == 0 && outstanding == 0 && !committing && writes == []
    {
      area, disk, cache := a, d, d;
      n, outstanding, committing := 0, 0, false;
      block := new nat[LOGSIZE];
      writes := [];
    }

    /** Change a buffer and write it to the disk at once. */
    method BWrite(no: nat, data: Block)
      requires no < |disk| == |cache|
      modifies this`disk, this`cache, this`writes
      ensures disk == old(disk)[no := data] && cache == old(cache)[no := data]
      ensures writes == old(writes) + [Write(no, data)]
    {
      cache := cache[no := data];
      disk := disk[no := data];
      writes := writes + [Write(no, data)];
    }

    /** Every block that the header lists gets what its place in the log holds. */
    method InstallTrans()
      requires Valid()
      modifies this`disk, this`cache, this`writes
      ensures Valid()
      ensures var ws := InstallWrites(area, old(disk), Lh());
              && writes == old(writes) + ws
              && disk == ApplyAll(old(disk), ws) && cache == ApplyAll(old(cache), ws)
    {
      hide GetWord, Entries, PutHeader, InstallWrites, ApplyAll, Fits;
      ghost var ws := InstallWrites(area, disk, Lh());
      ApplyAllStart(disk, ws);
      ApplyAllStart(cache, ws);
      var tail := 0;
      while tail < n
        invariant 0 <= tail <= n && Fits(ws, |disk|) && |disk| == |cache| == |old(disk)|
        invariant writes == old(writes) + ws[..tail]
        invariant disk == ApplyAll(old(disk), ws[..tail]) && cache == ApplyAll(old(cache), ws[..tail])
        invariant forall b :: 0 <= b < |disk| && area.Holds(b) ==> cache[b] == disk[b] == old(disk)[b]
      {
        var lbuf := cache[area.start + tail + 1];
        BWrite(block[tail], lbuf);
        ApplyAllNext(old(disk), ws, tail);
        ApplyAllNext(old(cache), ws, tail);
        tail := tail + 1;
      }
      assert ws[..tail] == ws;
    }

    /** `lh` becomes what the header block announces. */
    method ReadHead()
      requires Valid() && GetWord(disk[area.start], 0) <= LOGSIZE
      requires Loggable(area, |disk|, Entries(disk[area.start]))
      modifies this`n, block
      ensures Valid() && Lh() == Entries(disk[area.start])
    {
      var buf := cache[area.start];
      n := GetWord(buf, 0);
      var i := 0;
      while i < n
        invariant 0 <= i <= n == GetWord(buf, 0)
        invariant forall j :: 0 <= j < i ==> block[j] == GetWord(buf, j + 1)
      {
        block[i] := GetWord(buf, i + 1);
        i := i + 1;
      }
      assert Lh() == Entries(buf);
    }

    /** The header block announces `lh`. If that is not empty, this is the write at which
        the transaction takes effect. */
    method WriteHead()
      requires Valid()
      modifies this`disk, this`cache, this`writes
      ensures Valid()
      ensures var w := HeadWrite(area, old(disk)[area.start], Lh());
              && writes == old(writes) + [w]
              && disk == old(disk)[w.no := w.data] && cache == old(cache)[w.no := w.data]
    {
      hide GetWord, Entries;
      var buf := PutWord(cache[area.start], 0, n);
      ghost var buf0 := buf;
      var i := 0;
      while i < n
        invariant 0 <= i <= n
        invariant buf == PutEntries(buf0, Lh(), i)
      {
        buf := PutWord(buf, i + 1, block[i]);
        i := i + 1;
      }
      BWrite(area.start, buf);
    }

    /** The end of both `commit` and recovery: install, then clear the header. */
    method InstallAndClear()
      requires Valid() && Lh() == Entries(disk[area.start])
      modifies this`disk, this`cache, this`writes, this`n
      ensures Valid() && n == 0
      ensures writes == old(writes) + RecoveryWrites(area, old(disk))
      ensures disk == Recovered(area, old(disk))
      ensures cache == ApplyAll(old(cache), InstallWrites(area, old(disk), old(Lh())))[area.start := disk[area.start]]
    {
      hide GetWord, Entries, PutHeader, InstallWrites;
      ghost var d, iw := disk, InstallWrites(area, disk, Lh());
      InstallTrans();
      ApplyAllSkips(d, iw, area.start);
      n := 0;
      WriteHead();
      assert RecoveryWrites(area, d)[..|iw|] == iw;
    }

    /** Boot: finish a committed transaction, then clear the log. */
    method RecoverFromLog()
      requires Valid() && cache == disk
      requires GetWord(disk[area.start], 0) <= LOGSIZE && Readable(area, disk)
      modifies this`disk, this`cache, this`writes, this`n, block
      ensures Valid() && n == 0
      ensures writes == old(writes) + RecoveryWrites(area, old(disk))
      ensures disk == Recovered(area, old(disk)) && cache == disk
    {
      hide GetWord, Entries, PutHeader, InstallWrites;
      ghost var d := disk;
      ReadHead();
      InstallAndClear();
      ghost var iw := InstallWrites(area, d, Entries(d[area.start]));
      assert RecoveryWrites(area, d)[..|iw|] == iw;
    }

    /** The log gets what the cache holds for each listed block. */
    method WriteLog()
      requires Valid()
      modifies this`disk, this`cache, this`writes
      ensures Valid()
      ensures var ws := LogWrites(area, old(cache), Lh());
              && writes == old(writes) + ws
              && disk == ApplyAll(old(disk), ws) && cache == ApplyAll(old(cache), ws)
      ensures forall b :: 0 <= b < |disk| && !area.Holds(b) ==> cache[b] == old(cache)[b]
    {
      hide GetWord, Entries, PutHeader, LogWrites, ApplyAll, Fits;
      ghost var ws := LogWrites(area, cache, Lh());
      ApplyAllStart(disk, ws);
      ApplyAllStart(cache, ws);
      var tail := 0;
      while tail < n
        invariant 0 <= tail <= n && Fits(ws, |disk|) && |disk| == |cache| == |old(disk)|
        invariant writes == old(writes) + ws[..tail]
        invariant disk == ApplyAll(old(disk), ws[..tail]) && cache == ApplyAll(old(cache), ws[..tail])
        invariant forall b :: 0 <= b < |disk| ==> cache[b] == if area.Holds(b) then disk[b] else old(cache)[b]
      {
        var from := cache[block[tail]];
        BWrite(area.start + tail + 1, from);
        ApplyAllNext(old(disk), ws, tail);
        ApplyAllNext(old(cache), ws, tail);
        tail := tail + 1;
      }
      assert ws[..tail] == ws;
    }

    /** Commit the transaction in the in-memory header. */
    method Commit()
      requires Valid()
      modifies this`disk, this`cache, this`writes, this`n
      ensures Valid() && n == 0
      ensures var ws := if old(n) == 0 then [] else CommitWrites(area, old(disk), old(cache), old(Lh()));
              writes == old(writes) + ws && disk == ApplyAll(old(disk), ws)
      ensures forall b :: 0 <= b < |disk| && !area.Holds(b) ==> cache[b] == old(cache)[b]
    {
      hide GetWord, Entries, PutHeader, LogWrites, InstallWrites, CommitWrites, RecoveryWrites, Recovered, HeadDisk;
      if n > 0 {
        CommitThenRecovery(area, disk, cache, Lh());
        CommitAtHead(area, disk, cache, Lh());
        Regroup(writes, LogWrites(area, cache, Lh()), [HeadWrite(area, disk[area.start], Lh())],
                RecoveryWrites(area, HeadDisk(area, disk, cache, Lh())));
        CommitLog();
        InstallAndClear();
      }
    }

    /** The first two stages of `commit`: the copies and the header. */
    method CommitLog()
      requires Valid()
      modifies this`disk, this`cache, this`writes
      ensures Valid() && disk == HeadDisk(area, old(disk), old(cache), Lh())
      ensures writes == old(writes) + LogWrites(area, old(cache), Lh()) + [HeadWrite(area, old(disk)[area.start], Lh())]
      ensures forall b :: 0 <= b < |disk| && !area.Holds(b) ==> cache[b] == old(cache)[b]
      ensures ApplyAll(cache, InstallWrites(area, disk, Lh())) == cache
    {
      hide GetWord, Entries, PutHeader, LogWrites, InstallWrites, CommitWrites, ApplyAll;
      HeadDiskHolds(area, disk, cache, Lh());
      WriteLog();
      WriteHead();
      InstallKeepsCache(area, cache, disk, Lh());
    }

    /** `begin_op` until it returns or sleeps: reserves space for one more
        operation unless a commit is running or the header might overflow. */
    method BeginOp() returns (begun: bool)
      requires Valid()
      modifies this`outstanding
      ensures Valid()
      ensures begun == (!committing && n + (old(outstanding) + 1) * MAXOPBLOCKS <= LOGSIZE)
      ensures outstanding == if begun then old(outstanding) + 1 else old(outstanding)
    {
      if committing {
        return false;
      } else if n + (outstanding + 1) * MAXOPBLOCKS > LOGSIZE {
        return false;
      } else {
        outstanding := outstanding + 1;
        return true;
      }
    }

    /** Record a modified block: `data` is what the caller left in the buffer. */
    method LogWrite(no: nat, data: Block) returns (r: Result)
      requires Valid() && no < |disk| && !area.Holds(no)
      modifies this`cache, this`n, block
      ensures Valid()
      ensures r.Panic? <==> old(n) >= LOGSIZE || old(n) >= area.size - 1 || outstanding < 1
      ensures r.Panic? ==> Lh() == old(Lh())
      ensures r.Done? ==> Lh() == Absorb(old(Lh()), no)
      ensures cache == old(cache)[no := data]
    {
      hide GetWord, Entries, PutHeader;
      cache := cache[no := data];
      if n >= LOGSIZE || n >= area.size - 1 {
        return Panic("too big a transaction");
      }
      if outstanding < 1 {
        return Panic("log_write outside of trans");
      }
      var i := 0;
      while i < n && block[i] != no
        invariant 0 <= i <= n
        invariant forall j :: 0 <= j < i ==> block[j] != no
      {
        i := i + 1;
      }
      ghost var lh := Lh();
      block[i] := no;
      if i == n {
        n := n + 1;
        assert Lh() == lh + [no];
      } else {
        assert Lh() == lh;
      }
      return Done;
    }

    /** End an operation; the last one out commits. */
    method EndOp() returns (r: Result)
      requires Valid()
      modifies this
      ensures Valid() && |disk| == |old(disk)| && outstanding == old(outstanding) - 1
      ensures r.Panic? <==> old(committing)
      ensures r.Done? && outstanding != 0 ==>
                Lh() == old(Lh()) && disk == old(disk) && cache == old(cache) && writes == old(writes) && !committing
      ensures r.Done? && outstanding == 0 ==>
                && n == 0 && !committing
                && var ws := if old(n) == 0 then [] else CommitWrites(area, old(disk), old(cache), old(Lh()));
                   writes == old(writes) + ws && disk == ApplyAll(old(disk), ws)
      ensures forall b :: 0 <= b < |disk| && !area.Holds(b) ==> cache[b] == old(cache)[b]
    {
      hide GetWord, Entries, PutHeader, CommitWrites, ApplyAll;
      var doCommit := false;
      outstanding := outstanding - 1;
      if committing {
        return Panic("log.committing");
      }
      if outstanding == 0 {
        doCommit := true;
        committing := true;
      }
      if doCommit {
        Commit();
        committing := false;
      }
      return Done;
    }
  }

  lemma InstallKeepsCache(a: Area, c: Disk, d: Disk, lh: seq<nat>)
    requires a.Valid(|d|) && |c| == |d| && Loggable(a, |d|, lh)
    requires forall i :: 0 <= i < |lh| ==> d[a.start + 1 + i] == c[lh[i]]
    ensures ApplyAll(c, InstallWrites(a, d, lh)) == c
  {
    hide InstallWrites, ApplyAll;
    ApplyAllSame(c, InstallWrites(a, d, lh));
  }
}
