/** The block allocator, the inodes and the inode contents of fs.c, on the blocks as the
    buffer cache shows them. */
module Fs {
  import opened Blocks
  import opened FsLayout
  import opened FsFiles
  import opened Dinodes
  import opened FsTrace

  /** A result, or the kernel's panic. */
  datatype Result<+T> = Ok(value: T) | Panic(why: string)

  const NDEV: int := 10

  /** Bytes per transaction of `filewrite`: room is left for the inode, the
      indirect block and two blocks of slop. */
  const CHUNK: nat := (MAXOPBLOCKS - 1 - 1 - 2) / 2 * 512

  /** What a read or write call does: transfer bytes, return -1, or hand the call
      to the driver of the device. */
  datatype Io<+T> = Bytes(value: T) | Error | ToDevice

  /** An inode in the inode cache. */
  class CachedInode {
    const inum: nat
    var ref: int
    var valid: bool
    var d: Inode

    /** As `iget` sets it up: nothing has been read yet. */
    constructor (inum: nat)
      ensures this.inum == inum && ref == 1 && !valid
    {
      this.inum, d, ref, valid := inum, FreeInode, 1, false;
    }
  }

  class Fs {
    const sb: Super
    /** The major numbers that have a driver. */
    const readers: set<int>
    const writers: set<int>
    var blocks: Disk
    /** The inodes as they are on disk. */
    ghost var dinode: Table
    /** The blocks logged by the current transaction. */
    var logged: set<nat>
    /** The blocks that were logged when `log_write` was called last. */
    ghost var prior: set<nat>
    /** The disk when the transaction began, and its `log_write` calls since. */
    ghost var origin: Disk
    ghost var trace: seq<Write>
    ghost var owner: Owner

    /** The calls of `log_write` account for all that changed since the transaction began. */
    ghost predicate Traced()
      reads this
    {
      Tracing(sb, origin, trace, blocks, logged, prior)
    }

    constructor (sb: Super, readers: set<int>, writers: set<int>, blocks: Disk, ghost dinode: Table, ghost owner: Owner)
      ensures this.sb == sb && this.readers == readers && this.writers == writers
      ensures this.blocks == blocks && this.dinode == dinode && this.owner == owner && logged == prior == {} && Traced()
    {
      this.sb, this.readers, this.writers, this.blocks, this.dinode, this.owner := sb, readers, writers, blocks, dinode, owner;
      logged, prior, origin, trace := {}, {}, blocks, [];
    }

    /** Change a buffer and log it. */
    method LogWrite(b: nat, data: Block)
      requires sb.inodestart <= b < |blocks| && Traced()
      modifies this`blocks, this`logged, this`prior, this`trace
      ensures blocks == old(blocks)[b := data] && logged == old(logged) + {b} && prior == old(logged)
      ensures trace == old(trace) + [Write(b, data)] && Traced()
    {
      TraceMore(sb, origin, trace, blocks, logged, prior, b, data);
      trace := trace + [Write(b, data)];
      prior := logged;
      blocks := blocks[b := data];
      logged := logged + {b};
    }

    /** `balloc` takes the lowest free block, marks it and fills it with zeros. */
    method BAlloc() returns (r: Result<nat>)
      requires sb.Valid(|blocks|) && Traced()
      requires forall c :: 0 <= c < sb.Meta() ==> InUse(sb, blocks, c)
      modifies this`blocks, this`logged, this`prior, this`trace
      ensures r.Ok? ==>
                && Allocated(sb, old(blocks), blocks, r.value) && SameInodes(sb, old(blocks), blocks)
                && (forall c :: 0 <= c < r.value ==> InUse(sb, old(blocks), c))
                && logged == old(logged) + {sb.BBlock(r.value), r.value}
      ensures Traced()
      ensures r.Panic? ==>
                blocks == old(blocks) && logged == old(logged) && Full(sb, blocks)
    {
      hide UsedBit, MarkUsed, InUse, Allocated, SameInodes, Tracing;
      var b := 0;
      while b < sb.size
        invariant b % BPB == 0 && blocks == old(blocks) && logged == old(logged) && Traced()
        invariant forall c :: 0 <= c < b && c < sb.size ==> InUse(sb, blocks, c)
      {
        BitPlace(sb, blocks, b, 0);
        var bp := blocks[sb.BBlock(b)];
        var bi := 0;
        while bi < BPB && b + bi < sb.size
          invariant 0 <= bi <= BPB && b + bi <= sb.size && blocks == old(blocks) && logged == old(logged) && Traced()
          invariant forall c :: 0 <= c < b + bi ==> InUse(sb, blocks, c)
        {
          BitPlace(sb, blocks, b, bi);
          if !UsedBit(bp, bi) {
            LogWrite(sb.BBlock(b), MarkUsed(bp, bi));
            LogWrite(b + bi, Zero());
            MarkedAndZeroed(sb, old(blocks), blocks, b, bi);
            AllocatedInodes(sb, old(blocks), blocks, b + bi);
            return Ok(b + bi);
          }
          bi := bi + 1;
        }
        b := b + BPB;
      }
      return Panic("balloc: out of blocks");
    }

    /** Give a disk block back to the bitmap. */
    method BFree(b: nat) returns (r: Result<()>)
      requires sb.Valid(|blocks|) && b < sb.size && Traced()
      modifies this`blocks, this`logged, this`prior, this`trace
      ensures Traced() && (r.Panic? <==> !InUse(sb, old(blocks), b))
      ensures r.Panic? ==> blocks == old(blocks) && logged == old(logged)
      ensures r.Ok? ==> Freed(sb, old(blocks), blocks, b) && SameInodes(sb, old(blocks), blocks) && logged == old(logged) + {sb.BBlock(b)}
    {
      hide UsedBit, MarkFree, SameInodes, Tracing;
      var bp := blocks[sb.BBlock(b)];
      var bi := b % BPB;
      if !UsedBit(bp, bi) {
        return Panic("freeing free block");
      }
      LogWrite(sb.BBlock(b), MarkFree(bp, bi));
      MarkedFree(sb, old(blocks), blocks, b);
      FreedInodes(sb, old(blocks), blocks, b);
      return Ok(());
    }

    /** The inode table with the in-memory copy `ip` in place of its disk copy. */
    ghost function View(ip: CachedInode): Table
      reads this, ip
      requires ip.inum < |dinode|
    {
      dinode[ip.inum := ip.d]
    }

    ghost predicate Holds(ip: CachedInode)
      reads this, ip
    {
      ip.inum < |dinode| && |ip.d.addrs| == 13 && Sound(sb, blocks, View(ip), owner) && Traced()
    }

    /** Allocate a block for an empty slot among `ip->addrs`. */
    method AllocSlot(ip: CachedInode, s: nat) returns (r: Result<nat>)
      requires Holds(ip) && s <= INDIRECT && ip.d.addrs[s] == 0
      modifies this`blocks, this`logged, this`prior, this`trace, this`owner, ip`d
      ensures r.Ok? ==>
                && Holds(ip) && r.value !in old(owner)
                && ip.d == old(ip.d).(addrs := old(ip.d).addrs[s := r.value])
                && owner == old(owner)[r.value := (ip.inum, s)]
                && Kept(old(blocks), old(owner), blocks, owner, ip.inum) && SameInodes(sb, old(blocks), blocks)
                && 0 < r.value < |blocks| && blocks[r.value] == Zero()
                && SlotAddr(blocks, ip.d, s) == r.value
                && logged == old(logged) + {sb.BBlock(r.value), r.value}
      ensures r.Ok? ==> forall q :: 0 <= q < SLOTS && q != s ==>
                SlotAddr(blocks, ip.d, q) == SlotAddr(old(blocks), old(ip.d), q)
      ensures r.Panic? ==> Full(sb, blocks)
    {
      hide UsedBit, GetWord, SlotAddr, Slots, Allocated, Kept, SameInodes, Tracing;
      ghost var t, before := View(ip), blocks;
      r := BAlloc();
      if r.Ok? {
        SlotAdded(sb, before, blocks, t, owner, ip.inum, s, r.value);
        assert blocks[r.value] == Zero() by { AllocatedZero(sb, before, blocks, r.value); }
        ip.d := ip.d.(addrs := ip.d.addrs[s := r.value]);
        owner := owner[r.value := (ip.inum, s)];
        assert View(ip) == t[ip.inum := ip.d];
      }
    }

    /** Allocate a block for an empty entry of the indirect block. */
    method AllocEntry(ip: CachedInode, k: nat) returns (r: Result<nat>)
      requires Holds(ip) && k < WORDS && ip.d.addrs[INDIRECT] != 0
      requires SlotAddr(blocks, ip.d, k + 13) == 0
      modifies this`blocks, this`logged, this`prior, this`trace, this`owner
      ensures r.Ok? ==>
                && Holds(ip) && r.value !in old(owner)
                && owner == old(owner)[r.value := (ip.inum, k + 13)]
                && Kept(old(blocks), old(owner), blocks, owner, ip.inum) && SameInodes(sb, old(blocks), blocks)
                && 0 < r.value < |blocks| && blocks[r.value] == Zero()
                && SlotAddr(blocks, ip.d, k + 13) == r.value
                && logged == old(logged) + {sb.BBlock(r.value), r.value, ip.d.addrs[INDIRECT]}
      ensures r.Ok? ==> forall q :: 0 <= q < SLOTS && q != k + 13 ==>
                SlotAddr(blocks, ip.d, q) == SlotAddr(old(blocks), ip.d, q)
      ensures r.Panic? ==> Full(sb, blocks)
    {
      hide UsedBit, GetWord, SlotAddr, Slots, Allocated, Kept, PutWord, SameInodes, Tracing;
      ghost var t, before := View(ip), blocks;
      var a := ip.d.addrs[INDIRECT];
      r := BAlloc();
      if r.Ok? {
        EntryAdded(sb, before, blocks, t, owner, ip.inum, k, r.value);
        assert blocks[r.value] == Zero() by { AllocatedZero(sb, before, blocks, r.value); }
        assert sb.Meta() <= a by { IndirectOwned(sb, before, t, owner, ip.inum); }
        DataInodes(sb, blocks, a, PutWord(blocks[a], k, r.value));
        SameInodesTwice(sb, before, blocks, blocks[a := PutWord(blocks[a], k, r.value)]);
        LogWrite(a, PutWord(blocks[a], k, r.value));
        owner := owner[r.value := (ip.inum, k + 13)];
      }
    }

    /** The disk block of the `bn`-th file block, allocating it if it is the next
        one after the `sz` bytes that have blocks. */
    method BMap(ip: CachedInode, bn: nat, ghost sz: nat) returns (r: Result<nat>)
      requires Holds(ip) && Filled(blocks, ip.d, sz)
      requires bn < MAXFILE ==> bn * BSIZE <= sz
      modifies this`blocks, this`logged, this`prior, this`trace, this`owner, ip`d
      ensures r.Panic? ==> bn >= MAXFILE || Full(sb, blocks)
      ensures bn < MAXFILE && bn * BSIZE < sz ==> r.Ok?
      ensures r.Ok? ==>
                && bn < MAXFILE && Holds(ip) && 0 < r.value < |blocks|
                && SlotAddr(blocks, ip.d, DataSlot(bn)) == r.value
                && Kept(old(blocks), old(owner), blocks, owner, ip.inum) && SameInodes(sb, old(blocks), blocks)
                && ip.d == old(ip.d).(addrs := ip.d.addrs)
                && Inds(old(ip.d)) <= Inds(ip.d)
      ensures r.Ok? && bn * BSIZE < sz ==>
                blocks == old(blocks) && logged == old(logged) && owner == old(owner) && ip.d == old(ip.d)
      ensures r.Ok? && bn * BSIZE == sz ==>
                && (forall z :: bn * BSIZE < z <= (bn + 1) * BSIZE ==> Filled(blocks, ip.d, z))
                && blocks[r.value] == Zero() && r.value !in old(owner)
                && logged == old(logged) + MapLog(sb, bn, r.value, ip.d.addrs[INDIRECT])
    {
      hide UsedBit, GetWord, SlotAddr, Sound, Kept, Zero, Filled, SameInodes, Tracing;
      NoChange(sb, blocks);
      var addr;
      if bn < NDIRECT {
        FilledAt(blocks, ip.d, sz, bn);
        addr := ip.d.addrs[bn];
        if addr == 0 {
          r := AllocSlot(ip, bn);
          if r.Ok? {
            FilledGrows(old(blocks), old(ip.d), blocks, ip.d, bn);
          }
          return;
        }
        SlotInRange(sb, blocks, View(ip), owner, ip.inum, bn);
        return Ok(addr);
      }
      var k := bn - NDIRECT;
      if k < NINDIRECT {
        FilledAt(blocks, ip.d, sz, bn);
        addr := ip.d.addrs[INDIRECT];
        if addr == 0 {
          r := AllocSlot(ip, INDIRECT);
          if r.Panic? {
            return;
          }
          addr := r.value;
        }
        IndirectInRange(sb, blocks, View(ip), owner, ip.inum);
        EntryWord(blocks, ip.d, k);
        ghost var mid, ownerM := blocks, owner;
        addr := GetWord(blocks[addr], k);
        if addr == 0 {
          r := AllocEntry(ip, k);
          if r.Ok? {
            KeptTwice(old(blocks), old(owner), mid, ownerM, blocks, owner, ip.inum);
            SameInodesTwice(sb, old(blocks), mid, blocks);
            FilledGrows(old(blocks), old(ip.d), blocks, ip.d, bn);
          }
          return;
        }
        SlotInRange(sb, blocks, View(ip), owner, ip.inum, k + 13);
        return Ok(addr);
      }
      return Panic("bmap: out of range");
    }

    /** A write in progress: the bytes from `off0` to `off` are in. */
    ghost predicate Mid(ip: CachedInode, c0: seq<Byte>, src: seq<Byte>, off0: nat, off: nat)
      reads this, ip
    {
      && Holds(ip) && off0 <= |c0| && off0 <= off <= off0 + |src|
      && Filled(blocks, ip.d, Max(|c0|, off))
      && Writing(blocks, ip.d, c0, src, off0, off)
    }

    /** One round of the loop of `writei`: `m` bytes into one block. */
    method WriteRound(ip: CachedInode, src: seq<Byte>, off0: nat, off: nat, m: nat, ghost c0: seq<Byte>)
      returns (ok: bool, ghost data: nat, ghost bits: set<nat>)
      requires Mid(ip, c0, src, off0, off)
      requires 0 < m <= BSIZE - off % BSIZE && off + m <= off0 + |src| && off + m <= MAXFILE * BSIZE
      modifies this`blocks, this`logged, this`prior, this`trace, this`owner, ip`d
      ensures !ok ==> Full(sb, blocks)
      ensures ok ==>
                && Mid(ip, c0, src, off0, off + m)
                && ip.d == old(ip.d).(addrs := ip.d.addrs)
                && (off + m <= |c0| ==> ip.d == old(ip.d))
                && OthersSame(old(blocks), blocks, dinode, ip.inum) && SameInodes(sb, old(blocks), blocks)
      ensures ok ==>
                && prior <= logged && Inds(old(ip.d)) <= Inds(ip.d)
                && logged <= old(logged) + {data} + bits + Inds(ip.d)
                && |bits| <= Grown(|c0|, off + m) - Grown(|c0|, off)
    {
      hide UsedBit, GetWord, SlotAddr, Kept, Zero, Filled, Writing, OthersSame, Slots, Bits, Patch, Touched, Grown, MapBits, MapLog, SameInodes, Tracing;
      ghost var t, before, ownerB, sz := View(ip), blocks, owner, Max(|c0|, off);
      ghost var sz' := Max(|c0|, off + m);
      FilledBound(blocks, ip.d, sz);
      RoundFills(|c0|, off, m);
      GrownBits(sb, |c0|, off, m, 0, 0);
      var bn := off / BSIZE;
      var r := BMap(ip, bn, sz);
      if r.Panic? {
        return false, 0, {};
      }
      var a := r.value;
      ok, data, bits := true, a, {};
      if bn * BSIZE < sz {
        FilledWithinBlock(blocks, ip.d, sz, sz');
      } else {
        FilledBound(blocks, ip.d, sz');
        bits := MapBits(sb, bn, a, ip.d.addrs[INDIRECT]);
        GrownBits(sb, |c0|, off, m, a, ip.d.addrs[INDIRECT]);
        RoundLog(sb, bn, a, ip.d, old(logged));
      }
      var x := Patch(blocks[a], off % BSIZE, src[off - off0..off - off0 + m]);
      WriteStep(sb, before, t, ownerB, blocks, View(ip), owner, ip.inum, c0, src, off0, off, m);
      RoundKeepsOthers(sb, before, t, ownerB, blocks, View(ip), owner, ip.inum, bn, x);
      OthersSameUpdate(before, blocks[a := x], dinode, ip.inum, old(ip.d));
      RoundKeepsSound(sb, blocks, View(ip), owner, ip.inum, bn, x, sz');
      SlotAbove(sb, blocks, View(ip), owner, ip.inum, DataSlot(bn));
      DataInodes(sb, blocks, a, x);
      SameInodesTwice(sb, before, blocks, blocks[a := x]);
      LogWrite(a, x);
    }

    /** Between operations: the inode blocks hold the table, the layout is sound, every
        inode has blocks exactly up to its size. */
    ghost predicate Consistent()
      reads this
    {
      Stores(sb, blocks, dinode) && Sound(sb, blocks, dinode, owner) && AllFilled(blocks, dinode) && FreeAreEmpty(dinode) && Traced()
    }

    /** The in-memory copy agrees with the disk copy. */
    ghost predicate InSync(ip: CachedInode)
      reads this, ip
    {
      ip.inum < |dinode| && ip.d == dinode[ip.inum]
    }

    /** All is consistent once the in-memory copy is on disk. */
    ghost predicate Pending(ip: CachedInode)
      reads this, ip
    {
      && ip.inum < |dinode| && Storable(ip.d) && Stores(sb, blocks, dinode)
      && Sound(sb, blocks, View(ip), owner) && AllFilled(blocks, View(ip)) && FreeAreEmpty(View(ip)) && Traced()
    }

    /** `iupdate`: the 64 bytes of the inode in its block. After it the file system is
        consistent and no file has changed. */
    method IUpdate(ip: CachedInode)
      requires Pending(ip)
      modifies this`blocks, this`dinode, this`logged, this`prior, this`trace
      ensures Consistent() && InSync(ip) && dinode == old(dinode)[ip.inum := ip.d]
      ensures forall j :: 0 <= j < |dinode| ==> |dinode[j].addrs| == 13 && Content(blocks, dinode[j]) == Content(old(blocks), dinode[j])
      ensures sb.Valid(|old(blocks)|) && forall b :: 0 <= b < sb.size ==> (InUse(sb, blocks, b) <==> InUse(sb, old(blocks), b))
      ensures logged == old(logged) + {sb.IBlock(ip.inum)} && prior == old(logged)
    {
      hide Sound, AllFilled, FreeAreEmpty, Content, PutInode, Storable, UsedBit, Tracing;
      ghost var t := View(ip);
      InodeBlock(sb, ip.inum, |blocks|);
      var c := sb.IBlock(ip.inum);
      var bytes := PutInode(blocks[c], ip.inum % IPB, ip.d);
      PutStores(sb, blocks, dinode, ip.inum, ip.d);
      InodeWriteKeeps(sb, blocks, c, bytes, t, owner);
      LogWrite(c, bytes);
      dinode := t;
      AllAddrs(blocks, dinode);
    }

    /** `ilock`: read the inode unless it has been read before; a free one panics. */
    method ILock(ip: CachedInode) returns (r: Result<()>)
      requires Consistent() && ip.inum < |dinode| && (ip.valid ==> InSync(ip) && ip.d.typ != 0)
      modifies ip`d, ip`valid
      ensures InSync(ip) && ip.valid
      ensures r.Panic? <==> ip.d.typ == 0
    {
      hide Sound, AllFilled, FreeAreEmpty, GetInode, Tracing;
      if !ip.valid {
        assert Stored(sb, blocks, ip.inum, dinode[ip.inum]);
        ip.d := GetInode(blocks[sb.IBlock(ip.inum)], ip.inum % IPB);
        ip.valid := true;
        if ip.d.typ == 0 {
          return Panic("ilock: no type");
        }
      }
      return Ok(());
    }

    /** The loop of `writei`. */
    method WriteLoop(ip: CachedInode, src: seq<Byte>, off0: nat) returns (ok: bool, ghost data: set<nat>, ghost bits: set<nat>)
      requires Consistent() && InSync(ip) && off0 <= ip.d.size && off0 + |src| <= MAXFILE * BSIZE
      modifies this`blocks, this`logged, this`prior, this`trace, this`owner, ip`d
      ensures !ok ==> Full(sb, blocks)
      ensures ok ==>
                && Mid(ip, Content(old(blocks), old(ip.d)), src, off0, off0 + |src|)
                && ip.d == old(ip.d).(addrs := ip.d.addrs)
                && (off0 + |src| <= ip.d.size ==> ip.d == old(ip.d))
                && OthersSame(old(blocks), blocks, dinode, ip.inum) && SameInodes(sb, old(blocks), blocks)
                && logged <= old(logged) + data + bits + Inds(ip.d)
                && (src != [] ==> prior <= logged)
                && |data| <= Touched(off0, off0 + |src|) && |bits| <= Grown(old(ip.d).size, off0 + |src|)
                && (src == [] ==> logged == old(logged))
    {
      hide UsedBit, GetWord, SlotAddr, Zero, Filled, Writing, SameFile, OthersSame, Sound, Slots, Bits, Patch, Touched, Grown, Content, Inds, SameInodes, Stores, Tracing;
      NoChange(sb, blocks);
      ghost var c0 := Content(blocks, ip.d);
      StartLoop(sb, blocks, dinode, owner, ip.inum, src, off0);
      assert View(ip) == dinode;
      ok, data, bits := true, {}, {};
      var tot, off := 0, off0;
      while tot < |src|
        invariant 0 <= tot <= |src| && off == off0 + tot
        invariant tot == 0 || tot == |src| || off % BSIZE == 0
        invariant Mid(ip, c0, src, off0, off)
        invariant ip.d == old(ip.d).(addrs := ip.d.addrs)
        invariant off <= |c0| ==> ip.d == old(ip.d)
        invariant OthersSame(old(blocks), blocks, dinode, ip.inum) && SameInodes(sb, old(blocks), blocks)
        invariant tot > 0 ==> prior <= logged
        invariant logged <= old(logged) + data + bits + Inds(ip.d)
        invariant |data| <= Touched(off0, off) && |bits| <= Grown(|c0|, off)
        invariant tot == 0 ==> logged == old(logged)
      {
        TouchedNext(off0, off, |src| - tot);
        var m := if |src| - tot < BSIZE - off % BSIZE then |src| - tot else BSIZE - off % BSIZE;
        ghost var mid, ino, log := blocks, ip.d, logged;
        ghost var a, b;
        ok, a, b := WriteRound(ip, src, off0, off, m, c0);
        if !ok {
          return;
        }
        OthersSameTwice(old(blocks), mid, blocks, dinode, ip.inum);
        SameInodesTwice(sb, old(blocks), mid, blocks);
        LogGrows(old(logged), log, logged, data, bits, Inds(ino), Inds(ip.d), a, b);
        data, bits := data + {a}, bits + b;
        tot := tot + m;
        off := off + m;
      }
    }

    /** Write `src` at byte `off` of the inode. A write that ends inside the file
        skips the inode update, and still the inode on disk stays current. */
    method WriteI(ip: CachedInode, src: seq<Byte>, off: Word) returns (r: Result<Io<nat>>)
      requires Consistent() && InSync(ip) && ip.d.typ != 0 && |src| < 0x1_0000_0000
      modifies this, ip`d
      ensures r.Panic? ==> Full(sb, blocks)
      ensures r.Ok? ==> Consistent() && InSync(ip) && |dinode| == |old(dinode)| && origin == old(origin)
      ensures r == Ok(ToDevice) <==> old(ip.d).typ == T_DEV && HasDriver(writers, old(ip.d))
      ensures r == Ok(Error) <==>
                if old(ip.d).typ == T_DEV then !HasDriver(writers, old(ip.d)) else off > old(ip.d).size || off + |src| > MAXFILE * BSIZE
      ensures (old(ip.d).typ == T_FILE || old(ip.d).typ == T_DIR) && off <= old(ip.d).size && off + |src| <= MAXFILE * BSIZE && r.Ok? ==> r == Ok(Bytes(|src|))
      ensures r == Ok(ToDevice) || r == Ok(Error) ==>
                blocks == old(blocks) && dinode == old(dinode) && owner == old(owner) && logged == old(logged) && prior == old(prior) && ip.d == old(ip.d)
      ensures r.Ok? && r.value.Bytes? ==>
                && r.value.value == |src| && |ip.d.addrs| == |old(ip.d).addrs| == 13
                && Content(blocks, ip.d) == Splice(Content(old(blocks), old(ip.d)), off, src)
                && ip.d == old(ip.d).(addrs := ip.d.addrs, size := Max(old(ip.d).size, if src == [] then 0 else off + |src|))
                && (forall j :: 0 <= j < |dinode| && j != ip.inum ==>
                      dinode[j] == old(dinode)[j] && Content(blocks, dinode[j]) == Content(old(blocks), dinode[j]))
                && |logged - old(logged)| <= Touched(off, off + |src|) + Grown(old(ip.d).size, off + |src|) + 2
                && (src != [] ==> |prior - old(logged)| <= Touched(off, off + |src|) + Grown(old(ip.d).size, off + |src|) + 1)
    {
      hide UsedBit, GetWord, SlotAddr, Filled, Writing, OthersSame, Slots, Bits, AllFilled, Touched, Grown, Content, Splice, SameInodes, Stores, Storable, HasDriver, Tracing;
      if ip.d.typ == T_DEV {
        return Ok(if HasDriver(writers, ip.d) then ToDevice else Error);
      }
      if off > ip.d.size || (off + |src|) % 0x1_0000_0000 < off {
        return Ok(Error);
      }
      if (off + |src|) % 0x1_0000_0000 > MAXFILE * BSIZE {
        return Ok(Error);
      }
      AddrsLength(blocks, dinode, ip.inum);
      ghost var before, t, c0 := blocks, dinode, Content(blocks, ip.d);
      ghost var data, bits;
      var ok;
      ok, data, bits := WriteLoop(ip, src, off);
      if !ok {
        return Panic("balloc: out of blocks");
      }
      SameInodesStore(sb, before, blocks, t);
      TableStorable(sb, before, t, ip.inum);
      ghost var after, loop := blocks, logged;
      ghost var ino := ip.d.(size := if src == [] then ip.d.size else Max(ip.d.size, off + |src|));
      WriteFinishes(sb, before, blocks, t, owner, ip.inum, ino, c0, src, off);
      if |src| > 0 && off + |src| > ip.d.size {
        ip.d := ip.d.(size := off + |src|);
        SoundStorable(sb, blocks, View(ip), owner, ip.inum, old(ip.d));
        IUpdate(ip);
      }
      assert dinode == t[ip.inum := ip.d];
      LogSize(old(logged), loop, logged, if src == [] then {} else prior, data, bits, ip.d, sb.IBlock(ip.inum));
      return Ok(Bytes(|src|));
    }

    /** One round of the loop of `readi`: `m` bytes from one block. */
    method ReadRound(ip: CachedInode, off: nat, m: nat) returns (data: seq<Byte>)
      requires Consistent() && InSync(ip)
      requires 0 < m <= BSIZE - off % BSIZE && off + m <= ip.d.size
      modifies this`blocks, this`logged, this`prior, this`trace, this`owner, ip`d
      ensures blocks == old(blocks) && logged == old(logged) && owner == old(owner) && ip.d == old(ip.d) && Traced()
      ensures |ip.d.addrs| == 13 && data == Content(blocks, ip.d)[off..off + m]
    {
      hide UsedBit, GetWord, SlotAddr, Filled, Slots, Bits, AllFilled, Content, Kept, Inds, Full, MapLog, Zero, Tracing;
      AddrsLength(blocks, dinode, ip.inum);
      FilledOne(blocks, dinode, ip.inum);
      assert View(ip) == dinode;
      var b := BMap(ip, off / BSIZE, ip.d.size);
      ReadSlice(sb, blocks, dinode, owner, ip.inum, off, m);
      return blocks[b.value][off % BSIZE..off % BSIZE + m];
    }

    /** Read up to `n` bytes from byte `off` of the inode. */
    method ReadI(ip: CachedInode, off: Word, n: Word) returns (r: Result<Io<seq<Byte>>>)
      requires Consistent() && InSync(ip)
      modifies this`blocks, this`logged, this`prior, this`trace, this`owner, ip`d
      ensures blocks == old(blocks) && logged == old(logged) && owner == old(owner) && ip.d == old(ip.d) && Consistent()
      ensures r == Ok(ToDevice) <==> ip.d.typ == T_DEV && HasDriver(readers, ip.d)
      ensures r == Ok(Error) <==> if ip.d.typ == T_DEV then !HasDriver(readers, ip.d) else off > ip.d.size || off + n >= 0x1_0000_0000
      ensures r.Ok? && r.value.Bytes? ==>
                && off <= ip.d.size && |ip.d.addrs| == 13
                && r.value.value == Content(blocks, ip.d)[off..if off + n > ip.d.size then ip.d.size else off + n]
      ensures (ip.d.typ == T_FILE || ip.d.typ == T_DIR) && off <= ip.d.size && off + n < 0x1_0000_0000 ==> r.Ok? && r.value.Bytes?
      ensures r.Ok?
    {
      hide Sound, AllFilled, FreeAreEmpty, Content, HasDriver, Stores, Tracing;
      if ip.d.typ == T_DEV {
        return Ok(if HasDriver(readers, ip.d) then ToDevice else Error);
      }
      if off > ip.d.size || (off + n) % 0x1_0000_0000 < off {
        return Ok(Error);
      }
      var left := if (off + n) % 0x1_0000_0000 > ip.d.size then ip.d.size - off else n;
      AddrsLength(blocks, dinode, ip.inum);
      ghost var c := Content(blocks, ip.d);
      var dst: seq<Byte> := [];
      var tot, o := 0, off;
      while tot < left
        invariant 0 <= tot <= left && o == off + tot
        invariant blocks == old(blocks) && logged == old(logged) && owner == old(owner) && ip.d == old(ip.d) && Traced()
        invariant dst == c[off..o]
      {
        var m := if left - tot < BSIZE - o % BSIZE then left - tot else BSIZE - o % BSIZE;
        var data := ReadRound(ip, o, m);
        JoinSlices(c, off, o, o + m);
        dst := dst + data;
        tot := tot + m;
        o := o + m;
      }
      return Ok(Bytes(dst));
    }

    /** `itrunc` has freed the first `k` slots of the inode `d0`, found on the disk
        `before`; `own` are the owners that remain. */
    ghost predicate Freeing(before: Disk, d0: Inode, own: Owner, k: nat)
      reads this
    {
      && Traced() && |d0.addrs| == 13 && sb.Valid(|blocks|) && Distinct(before, d0) && SameInodes(sb, before, blocks)
      && Bits(sb, blocks, own, ToFree(before, d0, k))
      && forall c :: sb.Meta() <= c < |blocks| ==> blocks[c] == before[c]
    }

    /** Free the block in the next slot: its bit is set, so `bfree` cannot panic. */
    method FreeSlot(b: nat, ghost before: Disk, ghost d0: Inode, ghost own: Owner, ghost k: nat)
      requires k < SLOTS && Freeing(before, d0, own, k)
      requires b == SlotAddr(before, d0, FreeOrder(k)) && b != 0
      modifies this`blocks, this`logged, this`prior, this`trace
      ensures Freeing(before, d0, own, k + 1)
    {
      hide UsedBit, SlotAddr, ToFree, Freed, SameInodes, Tracing;
      SameLength(sb, before, blocks);
      ToFreeNext(before, d0, k);
      ghost var mid := blocks;
      var r := BFree(b);
      assert r.Ok?;
      FreeOne(sb, mid, blocks, own, ToFree(before, d0, k), b);
      FreedLength(sb, mid, blocks, b);
      SameInodesTwice(sb, before, mid, blocks);
    }

    /** `itrunc` makes a file empty. Exactly its blocks are freed, each once. */
    method ITrunc(ip: CachedInode)
      requires Consistent() && InSync(ip)
      modifies this, ip`d
      ensures Consistent() && InSync(ip) && |dinode| == |old(dinode)|
      ensures owner == Dropped(old(owner), ip.inum)
      ensures ip.d == old(ip.d).(addrs := FreeInode.addrs, size := 0)
      ensures forall j :: 0 <= j < |dinode| && j != ip.inum ==>
                dinode[j] == old(dinode)[j] && Content(blocks, dinode[j]) == Content(old(blocks), dinode[j])
      ensures sb.Valid(|old(blocks)|) && forall b :: 0 <= b < sb.size ==>
                (InUse(sb, blocks, b) <==>
                   InUse(sb, old(blocks), b) && !(b in old(owner) && old(owner)[b].0 == ip.inum))
    {
      hide UsedBit, GetWord, SlotAddr, Filled, Slots, AllFilled, Content, Distinct, ToFree, Bits, SameInodes, Stores, Storable, Tracing;
      NoChange(sb, blocks);
      ghost var before, d0, t, own := blocks, ip.d, dinode, Dropped(owner, ip.inum);
      AddrsLength(blocks, dinode, ip.inum);
      DropSlots(sb, blocks, dinode, owner, ip.inum, ip.d.(addrs := FreeInode.addrs, size := 0));
      DropBits(sb, blocks, dinode, owner, ip.inum);
      FreeDirect(ip, before, d0, own);
      if ip.d.addrs[INDIRECT] != 0 {
        IndirectOwned(sb, before, t, owner, ip.inum);
        FreeIndirect(ip, before, d0, own);
      } else {
        NoIndirect(before, d0, INDIRECT);
      }
      AllFreed(before, d0);
      ip.d := ip.d.(size := 0);
      assert ip.d.addrs == FreeInode.addrs;
      ghost var own0 := owner;
      owner := own;
      SameLength(sb, before, blocks);
      TruncEnds(sb, before, blocks, t, own0, ip.inum, ip.d);
      FreedExactly(sb, before, blocks, t, own0, ip.inum);
      SameInodesStore(sb, before, blocks, t);
      TableStorable(sb, before, t, ip.inum);
      SoundStorable(sb, blocks, View(ip), owner, ip.inum, d0);
      IUpdate(ip);
    }

    method FreeDirect(ip: CachedInode, ghost before: Disk, ghost d0: Inode, ghost own: Owner)
      requires ip.d == d0 && Freeing(before, d0, own, 0)
      modifies this`blocks, this`logged, this`prior, this`trace, ip`d
      ensures Freeing(before, d0, own, INDIRECT)
      ensures ip.d == d0.(addrs := ip.d.addrs) && |ip.d.addrs| == 13
      ensures ip.d.addrs[INDIRECT] == d0.addrs[INDIRECT]
      ensures forall s :: 0 <= s < INDIRECT ==> ip.d.addrs[s] == 0
    {
      hide UsedBit, SlotAddr, ToFree, Bits, SameInodes, Tracing;
      var i := 0;
      while i < NDIRECT
        invariant 0 <= i <= NDIRECT && Freeing(before, d0, own, i)
        invariant ip.d == d0.(addrs := ip.d.addrs) && |ip.d.addrs| == 13
        invariant forall s :: 0 <= s < 13 ==> ip.d.addrs[s] == if s < i then 0 else d0.addrs[s]
      {
        DirectSlot(before, d0, i);
        if ip.d.addrs[i] != 0 {
          FreeSlot(ip.d.addrs[i], before, d0, own, i);
          ip.d := ip.d.(addrs := ip.d.addrs[i := 0]);
        } else {
          ToFreeNext(before, d0, i);
        }
        i := i + 1;
      }
    }

    method FreeIndirect(ip: CachedInode, ghost before: Disk, ghost d0: Inode, ghost own: Owner)
      requires Freeing(before, d0, own, INDIRECT)
      requires |ip.d.addrs| == 13 && ip.d.addrs[INDIRECT] == d0.addrs[INDIRECT]
      requires 0 < sb.Meta() <= d0.addrs[INDIRECT] < |blocks|
      modifies this`blocks, this`logged, this`prior, this`trace, ip`d
      ensures Freeing(before, d0, own, SLOTS)
      ensures ip.d == old(ip.d).(addrs := old(ip.d).addrs[INDIRECT := 0])
    {
      hide UsedBit, GetWord, SlotAddr, ToFree, Bits, SameInodes, Tracing;
      SameLength(sb, before, blocks);
      var a := blocks[ip.d.addrs[INDIRECT]];
      var j := 0;
      while j < NINDIRECT
        invariant 0 <= j <= NINDIRECT && Freeing(before, d0, own, INDIRECT + j) && ip.d == old(ip.d)
      {
        EntryWord(before, d0, j);
        if GetWord(a, j) != 0 {
          FreeSlot(GetWord(a, j), before, d0, own, INDIRECT + j);
        } else {
          ToFreeNext(before, d0, INDIRECT + j);
        }
        j := j + 1;
      }
      DirectSlot(before, d0, INDIRECT);
      FreeSlot(ip.d.addrs[INDIRECT], before, d0, own, SLOTS - 1);
      ip.d := ip.d.(addrs := ip.d.addrs[INDIRECT := 0]);
    }

    /** `iput`: the last reference to an inode without links frees it. */
    method IPut(ip: CachedInode)
      requires Consistent() && (ip.valid ==> InSync(ip))
      modifies this, ip
      ensures Consistent() && |dinode| == |old(dinode)| && ip.ref == old(ip.ref) - 1
      ensures old(ip.valid && ip.d.nlink == 0 && ip.ref == 1) ==>
                && !ip.valid && ip.inum < |dinode| && dinode[ip.inum].typ == 0
                && owner == Dropped(old(owner), ip.inum)
                && forall j :: 0 <= j < |dinode| && j != ip.inum ==>
                     dinode[j] == old(dinode)[j] && Content(blocks, dinode[j]) == Content(old(blocks), dinode[j])
      ensures !old(ip.valid && ip.d.nlink == 0 && ip.ref == 1) ==>
                blocks == old(blocks) && dinode == old(dinode) && owner == old(owner) && ip.d == old(ip.d) && ip.valid == old(ip.valid)
    {
      hide Sound, AllFilled, Content, Dropped, Stores, Storable, Tracing;
      if ip.valid && ip.d.nlink == 0 {
        var r := ip.ref;
        if r == 1 {
          ITrunc(ip);
          ip.d := ip.d.(typ := 0);
          RetypeEmpty(sb, blocks, dinode, owner, ip.inum, ip.d);
          TableStorable(sb, blocks, dinode, ip.inum);
          Retyped(dinode[ip.inum], 0);
          IUpdate(ip);
          ip.valid := false;
        }
      }
      ip.ref := ip.ref - 1;
    }

    /** `ialloc` takes the lowest free inode from 1 on. */
    method IAlloc(typ: int) returns (r: Result<nat>)
      requires Consistent() && typ != 0 && IsShort(typ)
      modifies this`blocks, this`dinode, this`logged, this`prior, this`trace
      ensures Consistent()
      ensures r.Panic? ==> dinode == old(dinode) && blocks == old(blocks) && forall i :: 1 <= i < |dinode| ==> dinode[i].typ != 0
      ensures r.Ok? ==>
                && 1 <= r.value < |dinode| == |old(dinode)| && old(dinode)[r.value].typ == 0
                && (forall i :: 1 <= i < r.value ==> old(dinode)[i].typ != 0)
                && dinode == old(dinode)[r.value := FreeInode.(typ := typ)]
                && logged == old(logged) + {sb.IBlock(r.value)}
      ensures forall j :: 0 <= j < |dinode| ==> |dinode[j].addrs| == 13 && Content(blocks, dinode[j]) == Content(old(blocks), dinode[j])
      ensures r.Ok? ==> Content(blocks, dinode[r.value]) == []
    {
      hide Sound, AllFilled, FreeAreEmpty, Content, GetInode, PutInode, Storable, Tracing;
      AllAddrs(blocks, dinode);
      var inum := 1;
      while inum < sb.ninodes
        invariant dinode == old(dinode) && blocks == old(blocks) && logged == old(logged) && 1 <= inum
        invariant forall i :: 1 <= i < inum && i < |dinode| ==> dinode[i].typ != 0
      {
        assert Stored(sb, blocks, inum, dinode[inum]);
        var c := sb.IBlock(inum);
        var dip := GetInode(blocks[c], inum % IPB);
        if dip.typ == 0 {
          EmptyIsFree(blocks, dinode, inum);
          ghost var ino := FreeInode.(typ := typ);
          RetypeEmpty(sb, blocks, dinode, owner, inum, ino);
          Retyped(FreeInode, typ);
          ghost var t := dinode[inum := ino];
          PutStores(sb, blocks, dinode, inum, ino);
          InodeBlock(sb, inum, |blocks|);
          InodeWriteKeeps(sb, blocks, c, PutInode(blocks[c], inum % IPB, ino), t, owner);
          LogWrite(c, PutInode(blocks[c], inum % IPB, FreeInode.(typ := typ)));
          dinode := t;
          return Ok(inum);
        }
        inum := inum + 1;
      }
      return Panic("ialloc: no inodes");
    }

    /** One round of the loop of `filewrite`: a transaction of its own. It never logs more
        blocks than an operation may, and whenever it calls `log_write` it has logged
        fewer, so that the call is within budget even for a block logged before. */
    method WriteChunk(f: File, addr: seq<Byte>) returns (r: Result<Io<nat>>)
      requires Consistent() && InSync(f.ip) && f.ip.d.typ != 0
      requires 0 < |addr| <= 3 * BSIZE && f.off < 0x1_0000_0000
      modifies this, f.ip`d, f`off
      ensures r.Panic? ==> Full(sb, blocks)
      ensures r.Ok? ==> Consistent() && InSync(f.ip) && origin == old(blocks) && |logged| <= MAXOPBLOCKS && |prior| < MAXOPBLOCKS && f.ip.d.typ == old(f.ip.d).typ && f.ip.d.major == old(f.ip.d).major
      ensures r == Ok(ToDevice) <==> old(f.ip.d).typ == T_DEV && HasDriver(writers, old(f.ip.d))
      ensures r == Ok(Error) <==>
                if old(f.ip.d).typ == T_DEV then !HasDriver(writers, old(f.ip.d))
                else old(f.off) > old(f.ip.d).size || old(f.off) + |addr| > MAXFILE * BSIZE
      ensures r == Ok(ToDevice) || r == Ok(Error) ==>
                blocks == old(blocks) && dinode == old(dinode) && owner == old(owner) && f.ip.d == old(f.ip.d) && f.off == old(f.off)
      ensures r.Ok? && r.value.Bytes? ==>
                && r.value.value == |addr| && f.off == old(f.off) + |addr|
                && |f.ip.d.addrs| == |old(f.ip.d).addrs| == 13
                && Content(blocks, f.ip.d) == Splice(Content(old(blocks), old(f.ip.d)), old(f.off), addr)
    {
      hide Sound, AllFilled, FreeAreEmpty, Content, Splice, Touched, Grown, Stores, HasDriver, Tracing;
      logged, prior, origin, trace := {}, {}, blocks, [];
      NoTrace(sb, blocks);
      if f.off <= f.ip.d.size {
        ChunkCounts(f.ip.d.size, f.off, |addr|);
      }
      r := WriteI(f.ip, addr, f.off);
      if r.Ok? {
        if r.value.Bytes? {
          f.off := f.off + r.value.value;
          assert logged - {} == logged && prior - {} == prior;
        }
      }
    }

    /** Write to an open file, a few blocks per transaction. Bytes go in chunk by
        chunk until all are in or a chunk does not fit; `past` is how things stood before
        and after each of them. */
    method FileWrite(f: File, addr: seq<Byte>) returns (r: Result<Io<nat>>, ghost past: seq<Snapshot>)
      requires Consistent() && InSync(f.ip) && f.ip.d.typ != 0 && f.off < 0x1_0000_0000
      modifies this, f.ip`d, f`off
      ensures r.Panic? ==> Full(sb, blocks)
      ensures r.Ok? ==> Consistent() && InSync(f.ip)
      ensures r == Ok(ToDevice) ==> f.writable && f.ip.d.typ == T_DEV && HasDriver(writers, f.ip.d)
      ensures r.Ok? && !r.value.ToDevice? ==>
                var done := f.off - old(f.off);
                && 0 <= done <= |addr|
                && r.value == (if f.writable && done == |addr| then Bytes(|addr|) else Error)
                && (!f.writable ==> done == 0)
                && (f.writable && done < |addr| ==>
                      || (f.ip.d.typ == T_DEV && !HasDriver(writers, f.ip.d) && done == 0)
                      || (old(f.off) > old(f.ip.d).size && done == 0)
                      || (done % CHUNK == 0 && f.off + (if |addr| - done < CHUNK then |addr| - done else CHUNK) > MAXFILE * BSIZE))
                && (old(f.off) > old(f.ip.d).size ==> f.ip.d == old(f.ip.d) && blocks == old(blocks))
                && |f.ip.d.addrs| == |old(f.ip.d).addrs| == 13
                && (old(f.off) <= old(f.ip.d).size ==>
                      Content(blocks, f.ip.d) == Splice(Content(old(blocks), old(f.ip.d)), old(f.off), addr[..done]))
      ensures |old(f.ip.d).addrs| == 13 && Past(sb, f.ip.inum, Content(old(blocks), old(f.ip.d)), old(f.off), addr, CHUNK, past)
      ensures past[0].blocks == old(blocks) && (r.Ok? ==> past[|past| - 1].blocks == blocks)
    {
      hide Sound, FreeAreEmpty, Filled, Content, Splice, Touched, Grown, Full, Stores, HasDriver, Tracing, Past, Moment, Follows;
      AddrsLength(blocks, dinode, f.ip.inum);
      ghost var c0, off0 := Content(blocks, f.ip.d), f.off;
      SpliceNone(blocks, f.ip.d, f.off, addr);
      past := PastStart(sb, f.ip.inum, off0, addr, CHUNK, blocks, dinode, owner);
      if !f.writable {
        return Ok(Error), past;
      }
      var i := 0;
      while i < |addr|
        invariant 0 <= i <= |addr| && (i % CHUNK == 0 || i == |addr|)
        invariant Consistent() && InSync(f.ip) && f.ip.d.typ == old(f.ip.d).typ && f.ip.d.major == old(f.ip.d).major
        invariant f.off == off0 + i && f.off < 0x1_0000_0000
        invariant i == 0 ==> f.ip.d == old(f.ip.d) && blocks == old(blocks)
        invariant 0 < i ==> off0 <= |c0| && f.off <= MAXFILE * BSIZE && f.ip.d.typ != T_DEV
        invariant off0 <= |c0| ==> Content(blocks, f.ip.d) == Splice(c0, off0, addr[..i])
        invariant |past| > 0 && Past(sb, f.ip.inum, c0, off0, addr, CHUNK, past) && past[0].blocks == old(blocks) && past[|past| - 1].blocks == blocks
        invariant i == Upto(|past| - 1, CHUNK, |addr|)
      {
        var n1 := |addr| - i;
        if n1 > CHUNK {
          n1 := CHUNK;
        }
        ghost var mid, ino := blocks, f.ip.d;
        r := WriteChunk(f, addr[i..i + n1]);
        if r.Panic? {
          return;
        }
        if r.value.ToDevice? {
          return;
        }
        if r.value.Error? {
          if off0 <= |c0| {
            SpliceLength(c0, off0, addr[..i]);
          }
          return;
        }
        if off0 <= |c0| {
          SpliceTwice(c0, off0, addr, i, n1);
        }
        i := i + n1;
        past := PastMore(sb, f.ip.inum, c0, off0, addr, CHUNK, past, trace, blocks, dinode, owner, logged, prior);
      }
      return Ok(Bytes(|addr|)), past;
    }
  }

  /** Whether a device inode leads to a driver. */
  predicate HasDriver(majors: set<int>, d: Inode) {
    0 <= d.major < NDEV && d.major in majors
  }

  lemma Retyped(ino: Inode, typ: int)
    requires (Storable(ino) || ino == FreeInode) && IsShort(typ)
    ensures Storable(ino.(typ := typ)) && FreeInode.(typ := typ).addrs == FreeInode.addrs
  {}

  lemma EmptyIsFree(blocks: Disk, t: Table, i: nat)
    requires FreeAreEmpty(t) && i < |t| && t[i].typ == 0
    ensures t[i].size == 0
  {}

  /** An open file on an inode. */
  class File {
    const writable: bool
    const ip: CachedInode
    var off: nat

    constructor (ip: CachedInode, writable: bool)
      ensures this.ip == ip && this.writable == writable && off == 0
    {
      this.ip, this.writable, off := ip, writable, 0;
    }
  }
}
