/** The file system's layout: the free bitmap bit by bit, the block slots of an
    inode, who owns which block, and files as byte sequences. */
module FsLayout {
  import opened Blocks

  const NDIRECT: nat := 12
  const NINDIRECT: nat := 128
  const MAXFILE: nat := 140
  const BPB: nat := 4096
  const IPB: nat := 8
  /** Slots of an inode: the direct blocks, the indirect block itself, and the
      blocks listed in it. */
  const SLOTS: nat := 141
  const INDIRECT: nat := 12

  // ----- the free bitmap

  function Pow2(k: nat): (p: nat)
    ensures p > 0
  {
    if k == 0 then 1 else 2 * Pow2(k - 1)
  }

  /** Bit `k` of a number, the test `x & (1 << k)`. */
  predicate Bit(x: nat, k: nat) {
    if k == 0 then x % 2 == 1 else Bit(x / 2, k - 1)
  }

  /** `x | (1 << k)` for a clear bit: within the same `n` bits, and no other bit moves. */
  lemma {:induction false} SetBit(x: nat, k: nat, n: nat)
    requires k < n && x < Pow2(n) && !Bit(x, k)
    ensures x + Pow2(k) < Pow2(n) && Bit(x + Pow2(k), k)
    ensures forall j: nat :: j != k ==> Bit(x + Pow2(k), j) == Bit(x, j)
  {
    if k == 0 {
      assert (x + 1) / 2 == x / 2;
    } else {
      SetBit(x / 2, k - 1, n - 1);
      assert (x + Pow2(k)) / 2 == x / 2 + Pow2(k - 1);
    }
  }

  /** `x & ~(1 << k)` for a set bit. */
  lemma {:induction false} ClearBit(x: nat, k: nat)
    requires Bit(x, k)
    ensures Pow2(k) <= x && !Bit(x - Pow2(k), k)
    ensures forall j: nat :: j != k ==> Bit(x - Pow2(k), j) == Bit(x, j)
  {
    if k == 0 {
      assert (x - 1) / 2 == x / 2;
    } else {
      ClearBit(x / 2, k - 1);
      assert (x - Pow2(k)) / 2 == x / 2 - Pow2(k - 1);
    }
  }

  predicate UsedBit(blk: Block, bi: nat)
    requires bi < BPB
  {
    Bit(blk[bi / 8], bi % 8)
  }

  function MarkUsed(blk: Block, bi: nat): (r: Block)
    requires bi < BPB && !UsedBit(blk, bi)
    ensures forall bj :: 0 <= bj < BPB ==> UsedBit(r, bj) == (bj == bi || UsedBit(blk, bj))
  {
    SetBit(blk[bi / 8], bi % 8, 8);
    blk[bi / 8 := blk[bi / 8] + Pow2(bi % 8)]
  }

  function MarkFree(blk: Block, bi: nat): (r: Block)
    requires bi < BPB && UsedBit(blk, bi)
    ensures forall bj :: 0 <= bj < BPB ==> UsedBit(r, bj) == (bj != bi && UsedBit(blk, bj))
  {
    ClearBit(blk[bi / 8], bi % 8);
    blk[bi / 8 := blk[bi / 8] - Pow2(bi % 8)]
  }

  // ----- superblock and inodes

  /** The layout figures of the superblock; `inodestart` and `bmapstart` are the
      first inode block and the first bitmap block. */
  datatype Super = Super(size: nat, ninodes: nat, inodestart: nat, bmapstart: nat) {
    /** The first data block. */
    function Meta(): nat { bmapstart + size / BPB + 1 }
    function BBlock(b: nat): nat { b / BPB + bmapstart }
    function IBlock(i: nat): nat { i / IPB + inodestart }
    predicate Valid(disk: nat) {
      inodestart + ninodes / IPB + 1 <= bmapstart && Meta() <= size <= disk && size < 0x8000_0000
    }
  }

  /** The types of inodes; 0 is a free one. */
  const T_DIR: int := 1
  const T_FILE: int := 2
  const T_DEV: int := 3

  datatype Inode = Inode(typ: int, major: int, minor: int, nlink: int, size: nat, addrs: seq<nat>)

  const FreeInode: Inode := Inode(0, 0, 0, 0, 0, seq(13, _ => 0))

  type Table = seq<Inode>

  predicate InUse(sb: Super, blocks: Disk, b: nat)
    requires sb.Valid(|blocks|) && b < sb.size
  {
    UsedBit(blocks[sb.BBlock(b)], b % BPB)
  }

  /** The block number in a slot of an inode, 0 when there is none. */
  function SlotAddr(blocks: Disk, ino: Inode, s: nat): nat
    requires |ino.addrs| == 13 && s < SLOTS
  {
    if s <= INDIRECT then ino.addrs[s]
    else
      var a := ino.addrs[INDIRECT];
      if a == 0 || a >= |blocks| then 0 else GetWord(blocks[a], s - 13)
  }

  function DataSlot(bn: nat): nat { if bn < NDIRECT then bn else bn + 1 }

  // ----- ownership of blocks

  /** Which slot of which inode holds a block. */
  type Owner = map<nat, (nat, nat)>

  /** Every block in a slot is owned by that slot alone, and conversely. */
  ghost predicate Slots(sb: Super, blocks: Disk, t: Table, owner: Owner) {
    && sb.size <= |blocks|
    && (forall i :: 0 <= i < |t| ==> |t[i].addrs| == 13)
    && (forall i, s :: 0 <= i < |t| && 0 <= s < SLOTS ==> OwnsSlot(blocks, t[i], i, s, owner))
    && (forall a :: a in owner ==>
          && sb.Meta() <= a < sb.size && owner[a].0 < |t| && owner[a].1 < SLOTS
          && SlotAddr(blocks, t[owner[a].0], owner[a].1) == a)
  }

  ghost predicate OwnsSlot(blocks: Disk, ino: Inode, i: nat, s: nat, owner: Owner)
    requires |ino.addrs| == 13 && s < SLOTS
  {
    var a := SlotAddr(blocks, ino, s);
    a != 0 ==> a in owner && owner[a] == (i, s)
  }

  /** The bitmap marks the metadata, the owned blocks, and blocks on their way
      from or to a slot; nothing else. */
  ghost predicate Bits(sb: Super, blocks: Disk, owner: Owner, moving: set<nat>)
    requires sb.Valid(|blocks|)
  {
    && (forall b :: b in moving ==> sb.Meta() <= b < sb.size && b !in owner)
    && (forall b :: 0 <= b < sb.size ==> (InUse(sb, blocks, b) <==> b < sb.Meta() || b in owner || b in moving))
  }

  /** Block slots are allocated exactly up to `sz` bytes. */
  ghost predicate Filled(blocks: Disk, ino: Inode, sz: nat)
    requires |ino.addrs| == 13
  {
    && sz <= MAXFILE * BSIZE
    && (forall bn :: 0 <= bn < MAXFILE ==> (SlotAddr(blocks, ino, DataSlot(bn)) != 0 <==> bn * BSIZE < sz))
    && (ino.addrs[INDIRECT] != 0 <==> sz > NDIRECT * BSIZE)
  }

  // ----- files as bytes

  function DataAt(blocks: Disk, ino: Inode, bn: nat): seq<Byte>
    requires |ino.addrs| == 13 && bn < MAXFILE
  {
    var a := SlotAddr(blocks, ino, DataSlot(bn));
    if 0 < a < |blocks| then blocks[a] else []
  }

  function ByteAt(blocks: Disk, ino: Inode, pos: nat): Byte
    requires |ino.addrs| == 13
  {
    if pos < MAXFILE * BSIZE && pos % BSIZE < |DataAt(blocks, ino, pos / BSIZE)|
    then DataAt(blocks, ino, pos / BSIZE)[pos % BSIZE] else 0
  }

  /** A file is the sequence of its bytes. */
  function Content(blocks: Disk, ino: Inode): (c: seq<Byte>)
    requires |ino.addrs| == 13
    ensures |c| == ino.size
  {
    seq(ino.size, pos requires 0 <= pos < ino.size => ByteAt(blocks, ino, pos))
  }

  /** `c` with `data` written at `off`, extended when it reaches past the end. */
  function Splice(c: seq<Byte>, off: nat, data: seq<Byte>): seq<Byte>
    requires off <= |c|
  {
    c[..off] + data + if off + |data| < |c| then c[off + |data|..] else []
  }

  // ----- framing

  /** Slots only depend on the indirect blocks. */
  lemma SlotsFrame(sb: Super, before: Disk, after: Disk, t: Table, owner: Owner)
    requires |before| == |after| && Slots(sb, before, t, owner)
    requires forall a :: a in owner && owner[a].1 == INDIRECT ==> after[a] == before[a]
    ensures Slots(sb, after, t, owner)
    ensures forall i, s :: 0 <= i < |t| && 0 <= s < SLOTS ==> SlotAddr(after, t[i], s) == SlotAddr(before, t[i], s)
  {
    hide GetWord;
    forall i, s | 0 <= i < |t| && 0 <= s < SLOTS
      ensures SlotAddr(after, t[i], s) == SlotAddr(before, t[i], s)
    {
      assert OwnsSlot(before, t[i], i, INDIRECT, owner);
    }
    forall i, s | 0 <= i < |t| && 0 <= s < SLOTS
      ensures OwnsSlot(after, t[i], i, s, owner)
    {
      assert OwnsSlot(before, t[i], i, s, owner);
    }
  }

  /** A block entering an empty direct slot, or an empty (all zero) block
      becoming the indirect block. */
  lemma SlotsAssign(sb: Super, blocks: Disk, t: Table, owner: Owner, i: nat, s: nat, b: nat)
    requires Slots(sb, blocks, t, owner) && i < |t| && s <= INDIRECT
    requires t[i].addrs[s] == 0 && b !in owner && sb.Meta() <= b < sb.size
    requires s == INDIRECT ==> forall j :: 0 <= j < WORDS ==> GetWord(blocks[b], j) == 0
    ensures var t' := t[i := t[i].(addrs := t[i].addrs[s := b])];
            && Slots(sb, blocks, t', owner[b := (i, s)])
            && forall j, r :: 0 <= j < |t| && 0 <= r < SLOTS && (j, r) != (i, s) ==>
                 SlotAddr(blocks, t'[j], r) == SlotAddr(blocks, t[j], r)
  {
    hide GetWord;
    var t' := t[i := t[i].(addrs := t[i].addrs[s := b])];
    var owner' := owner[b := (i, s)];
    forall j, r | 0 <= j < |t| && 0 <= r < SLOTS
      ensures OwnsSlot(blocks, t'[j], j, r, owner')
    {
      assert OwnsSlot(blocks, t[j], j, r, owner);
    }
  }

  /** A block entering an empty entry of the indirect block. */
  lemma SlotsStore(sb: Super, blocks: Disk, t: Table, owner: Owner, i: nat, k: nat, b: Word)
    requires Slots(sb, blocks, t, owner) && i < |t| && k < WORDS
    requires var a := t[i].addrs[INDIRECT]; a != 0 && a < |blocks| && GetWord(blocks[a], k) == 0
    requires b !in owner && sb.Meta() <= b < sb.size
    ensures var a := t[i].addrs[INDIRECT];
            var blocks' := blocks[a := PutWord(blocks[a], k, b)];
            && Slots(sb, blocks', t, owner[b := (i, k + 13)])
            && SlotAddr(blocks', t[i], k + 13) == b
            && forall j, r :: 0 <= j < |t| && 0 <= r < SLOTS && (j, r) != (i, k + 13) ==>
                 SlotAddr(blocks', t[j], r) == SlotAddr(blocks, t[j], r)
  {
    hide GetWord, PutWord;
    var a := t[i].addrs[INDIRECT];
    var blocks' := blocks[a := PutWord(blocks[a], k, b)];
    var owner' := owner[b := (i, k + 13)];
    assert OwnsSlot(blocks, t[i], i, INDIRECT, owner);
    forall j, r | 0 <= j < |t| && 0 <= r < SLOTS && (j, r) != (i, k + 13)
      ensures SlotAddr(blocks', t[j], r) == SlotAddr(blocks, t[j], r)
    {
      assert OwnsSlot(blocks, t[j], j, INDIRECT, owner);
    }
    forall j, r | 0 <= j < |t| && 0 <= r < SLOTS
      ensures OwnsSlot(blocks', t[j], j, r, owner')
    {
      assert OwnsSlot(blocks, t[j], j, r, owner);
    }
  }

  // ----- what leaves a file alone, what changes one block of it

  /** The inode has the same blocks with the same bytes on both disks. */
  ghost predicate SameFile(before: Disk, after: Disk, ino: Inode)
    requires |ino.addrs| == 13
  {
    && (forall s :: 0 <= s < SLOTS ==> SlotAddr(after, ino, s) == SlotAddr(before, ino, s))
    && (forall bn :: 0 <= bn < MAXFILE ==> DataAt(after, ino, bn) == DataAt(before, ino, bn))
  }

  lemma SameFileContent(before: Disk, after: Disk, ino: Inode, sz: nat)
    requires |ino.addrs| == 13 && SameFile(before, after, ino)
    ensures Content(after, ino) == Content(before, ino)
    ensures Filled(after, ino, sz) <==> Filled(before, ino, sz)
  {
    hide SlotAddr, DataAt;
    assert forall pos :: 0 <= pos < ino.size ==> ByteAt(after, ino, pos) == ByteAt(before, ino, pos);
  }

  /** Bytes written into a data block of inode `i` disturb no slot and no other
      block of any file. */
  lemma DataWrite(sb: Super, blocks: Disk, t: Table, owner: Owner, i: nat, bn: nat, x: Block)
    requires Slots(sb, blocks, t, owner) && i < |t| && bn < MAXFILE
    requires SlotAddr(blocks, t[i], DataSlot(bn)) != 0
    ensures var a := SlotAddr(blocks, t[i], DataSlot(bn));
            && sb.Meta() <= a < |blocks|
            && var after := blocks[a := x];
               && Slots(sb, after, t, owner)
               && (forall j, s :: 0 <= j < |t| && 0 <= s < SLOTS ==> SlotAddr(after, t[j], s) == SlotAddr(blocks, t[j], s))
               && DataAt(after, t[i], bn) == x
               && forall j, c :: 0 <= j < |t| && 0 <= c < MAXFILE && (j != i || c != bn) ==>
                    DataAt(after, t[j], c) == DataAt(blocks, t[j], c)
  {
    hide SlotAddr;
    var a := SlotAddr(blocks, t[i], DataSlot(bn));
    assert OwnsSlot(blocks, t[i], i, DataSlot(bn), owner);
    var after := blocks[a := x];
    SlotsFrame(sb, blocks, after, t, owner);
    forall j, c | 0 <= j < |t| && 0 <= c < MAXFILE && (j != i || c != bn)
      ensures DataAt(after, t[j], c) == DataAt(blocks, t[j], c)
    {
      assert OwnsSlot(blocks, t[j], j, DataSlot(c), owner);
    }
  }
}
