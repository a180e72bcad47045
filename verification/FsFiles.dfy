/** What allocation and writing do to the layout and to the files: pure facts
    about disks, inode tables and owners before and after one step. */
module FsFiles {
  import opened Blocks
  import opened FsLayout

  lemma ZeroWords(j: nat)
    requires j < WORDS
    ensures GetWord(Zero(), j) == 0
  {}

  /** `after` is `before` with the free block `b` marked and zeroed. */
  ghost predicate Allocated(sb: Super, before: Disk, after: Disk, b: nat)
    requires sb.Valid(|before|)
  {
    && |after| == |before|
    && sb.Meta() <= b < sb.size
    && !InUse(sb, before, b) && after[b] == Zero()
    && (forall c :: 0 <= c < sb.size ==> InUse(sb, after, c) == (c == b || InUse(sb, before, c)))
    && (forall c :: 0 <= c < |before| && c != b && c != sb.BBlock(b) ==> after[c] == before[c])
  }

  /** No block is free. */
  ghost predicate Full(sb: Super, blocks: Disk) {
    sb.Valid(|blocks|) && forall c :: 0 <= c < sb.size ==> InUse(sb, blocks, c)
  }

  /** The layout invariant: every block in use is metadata or owned by exactly
      one slot of one inode. */
  ghost predicate Sound(sb: Super, blocks: Disk, t: Table, owner: Owner) {
    sb.Valid(|blocks|) && Slots(sb, blocks, t, owner) && Bits(sb, blocks, owner, {})
  }

  /** Owned blocks stay with their owners and keep their bytes, except that the
      indirect block of inode `i` may gain entries. */
  ghost predicate Kept(before: Disk, ownerB: Owner, after: Disk, ownerA: Owner, i: nat) {
    && |before| == |after|
    && forall c :: c in ownerB && c < |before| ==>
         && c in ownerA && ownerA[c] == ownerB[c]
         && (ownerB[c] != (i, INDIRECT) ==> after[c] == before[c])
  }

  /** A block fresh from the allocator is owned by nobody and disturbs nobody. */
  lemma AllocIsFresh(sb: Super, before: Disk, after: Disk, t: Table, owner: Owner, b: nat)
    requires Sound(sb, before, t, owner) && Allocated(sb, before, after, b)
    ensures b !in owner && Slots(sb, after, t, owner) && Bits(sb, after, owner, {b})
    ensures forall c :: c in owner ==> after[c] == before[c]
    ensures forall i, s :: 0 <= i < |t| && 0 <= s < SLOTS ==> SlotAddr(after, t[i], s) == SlotAddr(before, t[i], s)
  {
    hide UsedBit, SlotAddr;
    forall c | c in owner
      ensures after[c] == before[c]
    {
      assert InUse(sb, before, c) && sb.BBlock(b) < sb.Meta();
    }
    SlotsFrame(sb, before, after, t, owner);
  }

  /** A fresh block goes into an empty slot of `addrs`. */
  lemma SlotAdded(sb: Super, before: Disk, after: Disk, t: Table, owner: Owner, i: nat, s: nat, b: nat)
    requires Sound(sb, before, t, owner) && Allocated(sb, before, after, b)
    requires i < |t| && s <= INDIRECT && |t[i].addrs| == 13 && t[i].addrs[s] == 0
    ensures var ino' := t[i].(addrs := t[i].addrs[s := b]);
            && b !in owner && 0 < b < |after| && SlotAddr(after, ino', s) == b
            && Sound(sb, after, t[i := ino'], owner[b := (i, s)])
            && Kept(before, owner, after, owner[b := (i, s)], i)
            && forall q :: 0 <= q < SLOTS && q != s ==> SlotAddr(after, ino', q) == SlotAddr(before, t[i], q)
  {
    hide UsedBit, GetWord, SlotAddr, Zero;
    AllocIsFresh(sb, before, after, t, owner, b);
    forall j | 0 <= j < WORDS
      ensures GetWord(after[b], j) == 0
    {
      ZeroWords(j);
    }
    SlotsAssign(sb, after, t, owner, i, s, b);
    DirectSlot(after, t[i].(addrs := t[i].addrs[s := b]), s);
    SettledBits(sb, after, owner, b, (i, s));
  }

  /** A fresh block goes into an empty entry of the indirect block. */
  lemma EntryAdded(sb: Super, before: Disk, mid: Disk, t: Table, owner: Owner, i: nat, k: nat, b: nat)
    requires Sound(sb, before, t, owner) && Allocated(sb, before, mid, b)
    requires i < |t| && k < WORDS && |t[i].addrs| == 13
    requires t[i].addrs[INDIRECT] != 0 && SlotAddr(before, t[i], k + 13) == 0
    ensures var a := t[i].addrs[INDIRECT];
            && a < |mid| && 0 < b < |mid| && b != a && b !in owner && b < 0x8000_0000
            && var after := mid[a := PutWord(mid[a], k, b)];
               && Sound(sb, after, t, owner[b := (i, k + 13)])
               && Kept(before, owner, after, owner[b := (i, k + 13)], i)
               && SlotAddr(after, t[i], k + 13) == b
               && forall q :: 0 <= q < SLOTS && q != k + 13 ==> SlotAddr(after, t[i], q) == SlotAddr(before, t[i], q)
  {
    hide UsedBit, GetWord, PutWord, Zero, SlotAddr, Slots;
    var a := t[i].addrs[INDIRECT];
    IndirectOwned(sb, before, t, owner, i);
    AllocIsFresh(sb, before, mid, t, owner, b);
    EntryWord(mid, t[i], k);
    SlotsStore(sb, mid, t, owner, i, k, b);
    var after, owner' := mid[a := PutWord(mid[a], k, b)], owner[b := (i, k + 13)];
    assert Bits(sb, after, owner', {}) by {
      hide Bits;
      SettledBits(sb, mid, owner, b, (i, k + 13));
      SameBits(sb, mid, after, owner', {});
    }
  }

  lemma IndirectOwned(sb: Super, blocks: Disk, t: Table, owner: Owner, i: nat)
    requires Slots(sb, blocks, t, owner) && i < |t| && t[i].addrs[INDIRECT] != 0
    ensures var a := t[i].addrs[INDIRECT]; a in owner && owner[a] == (i, INDIRECT) && sb.Meta() <= a < sb.size <= |blocks|
  {
    hide GetWord;
    assert OwnsSlot(blocks, t[i], i, INDIRECT, owner);
  }

  lemma EntryWord(blocks: Disk, ino: Inode, k: nat)
    requires |ino.addrs| == 13 && k < WORDS && 0 < ino.addrs[INDIRECT] < |blocks|
    ensures SlotAddr(blocks, ino, k + 13) == GetWord(blocks[ino.addrs[INDIRECT]], k)
  {
    hide GetWord;
  }

  lemma SettledBits(sb: Super, blocks: Disk, owner: Owner, b: nat, slot: (nat, nat))
    requires sb.Valid(|blocks|) && Bits(sb, blocks, owner, {b})
    ensures Bits(sb, blocks, owner[b := slot], {})
  {
    hide UsedBit;
  }

  /** The bit of block `b + bi` is bit `bi` of the bitmap block of `b`. */
  lemma BitPlace(sb: Super, blocks: Disk, b: nat, bi: nat)
    requires sb.Valid(|blocks|) && b % BPB == 0 && bi < BPB && b + bi < sb.size
    ensures sb.BBlock(b) < |blocks| && InUse(sb, blocks, b + bi) == UsedBit(blocks[sb.BBlock(b)], bi)
    ensures sb.BBlock(b + bi) == sb.BBlock(b)
  {
    hide UsedBit;
    assert (b + bi) / BPB == b / BPB && (b + bi) % BPB == bi;
  }

  lemma AllocatedZero(sb: Super, before: Disk, after: Disk, b: nat)
    requires sb.Valid(|before|) && Allocated(sb, before, after, b)
    ensures b < |after| && after[b] == Zero()
  {}

  lemma MarkedAndZeroed(sb: Super, before: Disk, after: Disk, b: nat, bi: nat)
    requires sb.Valid(|before|) && b % BPB == 0 && bi < BPB && b + bi < sb.size
    requires forall c :: 0 <= c < sb.Meta() ==> InUse(sb, before, c)
    requires !UsedBit(before[sb.BBlock(b)], bi)
    requires after == before[sb.BBlock(b) := MarkUsed(before[sb.BBlock(b)], bi)][b + bi := Zero()]
    ensures Allocated(sb, before, after, b + bi)
  {
    hide UsedBit, MarkUsed;
    assert sb.BBlock(b + bi) == sb.BBlock(b) && (b + bi) % BPB == bi;
    assert !InUse(sb, before, b + bi);
    forall c | 0 <= c < sb.size
      ensures InUse(sb, after, c) == (c == b + bi || InUse(sb, before, c))
    {
      if sb.BBlock(c) == sb.BBlock(b) {
        assert c == b + c % BPB;
      }
    }
  }

  /** `after` is `before` with the bit of `b` cleared. */
  ghost predicate Freed(sb: Super, before: Disk, after: Disk, b: nat)
    requires sb.Valid(|before|) && b < sb.size
  {
    && |after| == |before|
    && (forall c :: 0 <= c < sb.size ==> InUse(sb, after, c) == (c != b && InUse(sb, before, c)))
    && (forall c :: 0 <= c < |before| && c != sb.BBlock(b) ==> after[c] == before[c])
  }

  lemma MarkedFree(sb: Super, before: Disk, after: Disk, b: nat)
    requires sb.Valid(|before|) && b < sb.size && UsedBit(before[sb.BBlock(b)], b % BPB)
    requires after == before[sb.BBlock(b) := MarkFree(before[sb.BBlock(b)], b % BPB)]
    ensures Freed(sb, before, after, b)
  {
    hide UsedBit, MarkFree;
    forall c | 0 <= c < sb.size
      ensures InUse(sb, after, c) == (c != b && InUse(sb, before, c))
    {
      if sb.BBlock(c) == sb.BBlock(b) {
        assert c == b <==> c % BPB == b % BPB;
      }
    }
  }

  /** Bits only depend on the bitmap blocks. */
  lemma SameBits(sb: Super, before: Disk, after: Disk, owner: Owner, moving: set<nat>)
    requires sb.Valid(|before|) && |before| == |after| && Bits(sb, before, owner, moving)
    requires forall c :: 0 <= c < sb.Meta() ==> after[c] == before[c]
    ensures Bits(sb, after, owner, moving)
  {
    hide UsedBit;
    forall c | 0 <= c < sb.size
      ensures InUse(sb, after, c) == InUse(sb, before, c)
    {
      assert sb.BBlock(c) < sb.Meta();
    }
  }

  /** The blocks logged when `bn` gets the new block `a`: the block, its bitmap
      block, the indirect block when it lists `a`, and for a new indirect block
      its bitmap block too. */
  ghost function MapLog(sb: Super, bn: nat, a: nat, ind: nat): set<nat> {
    {a, sb.BBlock(a)} + (if bn < NDIRECT then {} else {ind}) + (if bn == NDIRECT then {sb.BBlock(ind)} else {})
  }

  /** The bitmap blocks among them. */
  ghost function MapBits(sb: Super, bn: nat, a: nat, ind: nat): set<nat> {
    {sb.BBlock(a)} + if bn == NDIRECT then {sb.BBlock(ind)} else {}
  }

  lemma FilledAt(blocks: Disk, ino: Inode, sz: nat, bn: nat)
    requires |ino.addrs| == 13 && Filled(blocks, ino, sz) && bn < MAXFILE
    ensures SlotAddr(blocks, ino, DataSlot(bn)) != 0 <==> bn * BSIZE < sz
    ensures ino.addrs[INDIRECT] != 0 <==> sz > NDIRECT * BSIZE
    ensures bn < NDIRECT ==> SlotAddr(blocks, ino, DataSlot(bn)) == ino.addrs[bn]
  {
    hide GetWord;
  }

  /** Filling the next block's slot fills the file up to any size in that block. */
  lemma FilledGrows(before: Disk, ino: Inode, after: Disk, ino': Inode, bn: nat)
    requires |ino.addrs| == |ino'.addrs| == 13 && bn < MAXFILE
    requires Filled(before, ino, bn * BSIZE)
    requires SlotAddr(after, ino', DataSlot(bn)) != 0
    requires bn >= NDIRECT ==> ino'.addrs[INDIRECT] != 0
    requires forall q :: 0 <= q < SLOTS && q != DataSlot(bn) && (q != INDIRECT || bn != NDIRECT) ==>
               SlotAddr(after, ino', q) == SlotAddr(before, ino, q)
    ensures forall z :: bn * BSIZE < z <= (bn + 1) * BSIZE ==> Filled(after, ino', z)
  {
    hide GetWord, SlotAddr;
    assert forall c :: 0 <= c < MAXFILE && c != bn ==> DataSlot(c) != DataSlot(bn) && DataSlot(c) != INDIRECT;
    assert ino'.addrs[INDIRECT] != 0 <==> bn >= NDIRECT by {
      DirectSlot(before, ino, INDIRECT);
      DirectSlot(after, ino', INDIRECT);
    }
  }

  lemma DirectSlot(blocks: Disk, ino: Inode, s: nat)
    requires |ino.addrs| == 13 && s <= INDIRECT
    ensures SlotAddr(blocks, ino, s) == ino.addrs[s]
  {}

  lemma SlotInRange(sb: Super, blocks: Disk, t: Table, owner: Owner, i: nat, s: nat)
    requires Sound(sb, blocks, t, owner) && i < |t| && s < SLOTS
    requires |t[i].addrs| == 13 && SlotAddr(blocks, t[i], s) != 0
    ensures var a := SlotAddr(blocks, t[i], s); a < |blocks| && a in owner && owner[a] == (i, s)
    ensures Kept(blocks, owner, blocks, owner, i)
  {
    hide UsedBit, SlotAddr;
    assert OwnsSlot(blocks, t[i], i, s, owner);
  }

  lemma IndirectInRange(sb: Super, blocks: Disk, t: Table, owner: Owner, i: nat)
    requires Sound(sb, blocks, t, owner) && i < |t| && |t[i].addrs| == 13 && t[i].addrs[INDIRECT] != 0
    ensures t[i].addrs[INDIRECT] < |blocks|
  {
    IndirectOwned(sb, blocks, t, owner, i);
  }

  lemma KeptTwice(a: Disk, ownerA: Owner, b: Disk, ownerB: Owner, c: Disk, ownerC: Owner, i: nat)
    requires Kept(a, ownerA, b, ownerB, i) && Kept(b, ownerB, c, ownerC, i)
    ensures Kept(a, ownerA, c, ownerC, i)
  {}

  // ----- what a block map step keeps

  /** Every other inode keeps its file. */
  lemma KeptOthers(sb: Super, before: Disk, t: Table, ownerB: Owner, after: Disk, ownerA: Owner, i: nat, j: nat)
    requires Slots(sb, before, t, ownerB) && Kept(before, ownerB, after, ownerA, i)
    requires j < |t| && j != i
    ensures SameFile(before, after, t[j])
  {
    hide GetWord;
    forall s | 0 <= s < SLOTS
      ensures SlotAddr(after, t[j], s) == SlotAddr(before, t[j], s)
    {
      assert OwnsSlot(before, t[j], j, INDIRECT, ownerB);
    }
    forall bn | 0 <= bn < MAXFILE
      ensures DataAt(after, t[j], bn) == DataAt(before, t[j], bn)
    {
      assert OwnsSlot(before, t[j], j, DataSlot(bn), ownerB);
    }
  }

  /** The inode itself keeps the blocks it had. */
  lemma KeptOwn(sb: Super, before: Disk, t: Table, ownerB: Owner, after: Disk, t': Table, ownerA: Owner, i: nat, bn: nat)
    requires Slots(sb, before, t, ownerB) && Slots(sb, after, t', ownerA) && Kept(before, ownerB, after, ownerA, i)
    requires i < |t| && i < |t'| && bn < MAXFILE && SlotAddr(before, t[i], DataSlot(bn)) != 0
    ensures SlotAddr(after, t'[i], DataSlot(bn)) == SlotAddr(before, t[i], DataSlot(bn))
    ensures DataAt(after, t'[i], bn) == DataAt(before, t[i], bn)
  {
    hide SlotAddr;
    assert OwnsSlot(before, t[i], i, DataSlot(bn), ownerB);
    assert DataSlot(bn) != INDIRECT;
  }

  // ----- a write in progress

  function Max(a: nat, b: nat): nat { if a < b then b else a }

  /** `data` copied into a block at byte `at`. */
  function Patch(b: Block, at: nat, data: seq<Byte>): (r: Block)
    requires at + |data| <= BSIZE
    ensures forall p :: 0 <= p < BSIZE ==> r[p] == if at <= p < at + |data| then data[p - at] else b[p]
  {
    b[..at] + data + b[at + |data|..]
  }

  /** The bytes of `src` between `off0` and `off` are in the file, whose old
      content was `c0`; the other old bytes are untouched. */
  ghost predicate Writing(blocks: Disk, ino: Inode, c0: seq<Byte>, src: seq<Byte>, off0: nat, off: nat)
    requires |ino.addrs| == 13 && off0 <= |c0| && off0 <= off <= off0 + |src|
  {
    forall pos :: 0 <= pos < Max(|c0|, off) ==>
      ByteAt(blocks, ino, pos) == if off0 <= pos < off then src[pos - off0] else c0[pos]
  }

  /** One round of the loop of `writei`: `before` is the disk at its start, `mid`
      the disk after the block map, and `x` what is written. */
  lemma WriteStep(sb: Super, before: Disk, t: Table, ownerB: Owner, mid: Disk, t': Table, ownerA: Owner, i: nat,
                  c0: seq<Byte>, src: seq<Byte>, off0: nat, off: nat, m: nat)
    requires Slots(sb, before, t, ownerB) && Slots(sb, mid, t', ownerA) && Kept(before, ownerB, mid, ownerA, i)
    requires i < |t| && i < |t'|
    requires off0 <= |c0| && off0 <= off && off + m <= off0 + |src| && off + m <= MAXFILE * BSIZE
    requires 0 < m <= BSIZE - off % BSIZE
    requires Filled(before, t[i], Max(|c0|, off)) && SlotAddr(mid, t'[i], DataSlot(off / BSIZE)) != 0
    requires Writing(before, t[i], c0, src, off0, off)
    ensures var a := SlotAddr(mid, t'[i], DataSlot(off / BSIZE));
            && a < |mid|
            && var x := Patch(mid[a], off % BSIZE, src[off - off0..off - off0 + m]);
               Writing(mid[a := x], t'[i], c0, src, off0, off + m)
  {
    hide SlotAddr, DataAt, Patch;
    var bn := off / BSIZE;
    var a := SlotAddr(mid, t'[i], DataSlot(bn));
    MappedBlock(sb, mid, t', ownerA, i, bn);
    var x := Patch(mid[a], off % BSIZE, src[off - off0..off - off0 + m]);
    DataWrite(sb, mid, t', ownerA, i, bn, x);
    var after := mid[a := x];
    forall pos | 0 <= pos < Max(|c0|, off + m)
      ensures ByteAt(after, t'[i], pos) == if off0 <= pos < off + m then src[pos - off0] else c0[pos]
    {
      var q, p := pos / BSIZE, pos % BSIZE;
      if off <= pos < off + m {
        assert q == bn && x[p] == src[off - off0..off - off0 + m][pos - off];
      } else {
        assert pos < Max(|c0|, off);
        KeptOwn(sb, before, t, ownerB, mid, t', ownerA, i, q);
        if q == bn {
          assert x[p] == mid[a][p];
        }
        assert ByteAt(after, t'[i], pos) == ByteAt(before, t[i], pos);
      }
    }
  }

  lemma MappedBlock(sb: Super, blocks: Disk, t: Table, owner: Owner, i: nat, bn: nat)
    requires Slots(sb, blocks, t, owner) && i < |t| && bn < MAXFILE
    requires SlotAddr(blocks, t[i], DataSlot(bn)) != 0
    ensures var a := SlotAddr(blocks, t[i], DataSlot(bn)); a < |blocks| && DataAt(blocks, t[i], bn) == blocks[a]
  {
    hide SlotAddr;
    assert OwnsSlot(blocks, t[i], i, DataSlot(bn), owner);
  }

  /** When all of `src` is in and the size is set, the file is the splice. */
  lemma WritingDone(blocks: Disk, ino: Inode, c0: seq<Byte>, src: seq<Byte>, off0: nat)
    requires |ino.addrs| == 13 && off0 <= |c0| && Writing(blocks, ino, c0, src, off0, off0 + |src|)
    requires ino.size == Max(|c0|, off0 + |src|)
    ensures Content(blocks, ino) == Splice(c0, off0, src)
  {
    hide ByteAt;
  }

  lemma WritingStarts(blocks: Disk, ino: Inode, src: seq<Byte>, off0: nat)
    requires |ino.addrs| == 13 && off0 <= ino.size
    ensures Writing(blocks, ino, Content(blocks, ino), src, off0, off0)
  {
    hide ByteAt;
  }

  // ----- how many blocks a write logs

  /** Blocks that `n` bytes from the start of a file take. */
  function BlockCount(n: nat): nat { (n + BSIZE - 1) / BSIZE }

  /** Data blocks touched by writing the bytes from `off0` to `off`. */
  function Touched(off0: nat, off: nat): int {
    if off <= off0 then 0 else BlockCount(off) - off0 / BSIZE
  }

  /** Blocks allocated when a file of `size` bytes grows to hold byte `off - 1`,
      the indirect block included. */
  function Grown(size: nat, off: nat): int {
    BlockCount(Max(size, off)) - BlockCount(size) + if size <= NDIRECT * BSIZE < off then 1 else 0
  }

  function Inds(ino: Inode): set<nat>
    requires |ino.addrs| == 13
  {
    if ino.addrs[INDIRECT] == 0 then {} else {ino.addrs[INDIRECT]}
  }

  /** A round that goes to the end of its block, or of the source, touches one
      more block and leaves the next round at a block boundary. */
  lemma TouchedNext(off0: nat, off: nat, left: nat)
    requires off0 <= off && 0 < left
    requires off0 == off || off % BSIZE == 0
    ensures var m := if left < BSIZE - off % BSIZE then left else BSIZE - off % BSIZE;
            && 0 < m <= BSIZE - off % BSIZE && m <= left
            && (m == left || (off + m) % BSIZE == 0)
            && Touched(off0, off + m) == Touched(off0, off) + 1
  {}

  /** A chunk of `filewrite` at any offset inside the file: at most four data
      blocks, and four blocks (with their bitmap blocks) allocated, because a
      first block that is not written from its start is already there. */
  lemma ChunkCounts(size: nat, off: nat, n: nat)
    requires off <= size && 0 < n <= 3 * BSIZE
    ensures Touched(off, off + n) <= 4 && Grown(size, off + n) <= 4
  {}

  lemma UnionSize(a: set<nat>, b: set<nat>)
    ensures |a + b| <= |a| + |b|
  {
    assert |a + b| == |a| + |b - a| by { assert a + b == a + (b - a); }
    SubsetSize(b - a, b);
  }

  lemma {:induction false} SubsetSize(a: set<nat>, b: set<nat>)
    requires a <= b
    ensures |a| <= |b|
  {
    if a != {} {
      var x :| x in a;
      SubsetSize(a - {x}, b - {x});
    }
  }

  /** Every other inode of the table keeps its file. */
  ghost predicate OthersSame(before: Disk, after: Disk, t: Table, i: nat) {
    forall j :: 0 <= j < |t| && j != i ==> |t[j].addrs| == 13 && SameFile(before, after, t[j])
  }

  lemma OthersSameTwice(a: Disk, b: Disk, c: Disk, t: Table, i: nat)
    requires OthersSame(a, b, t, i) && OthersSame(b, c, t, i)
    ensures OthersSame(a, c, t, i)
  {
    hide SlotAddr, DataAt;
  }

  /** A block map step followed by a write into the mapped block. */
  lemma RoundKeepsOthers(sb: Super, before: Disk, t: Table, ownerB: Owner, mid: Disk, t': Table, ownerA: Owner,
                         i: nat, bn: nat, x: Block)
    requires Slots(sb, before, t, ownerB) && Slots(sb, mid, t', ownerA) && Kept(before, ownerB, mid, ownerA, i)
    requires i < |t| == |t'| && (forall j :: 0 <= j < |t| && j != i ==> t'[j] == t[j])
    requires bn < MAXFILE && SlotAddr(mid, t'[i], DataSlot(bn)) != 0
    ensures var a := SlotAddr(mid, t'[i], DataSlot(bn)); a < |mid| && OthersSame(before, mid[a := x], t, i)
  {
    hide SlotAddr, DataAt;
    DataWrite(sb, mid, t', ownerA, i, bn, x);
    forall j | 0 <= j < |t| && j != i
      ensures SameFile(before, mid[SlotAddr(mid, t'[i], DataSlot(bn)) := x], t[j])
    {
      KeptOthers(sb, before, t, ownerB, mid, ownerA, i, j);
    }
  }

  /** ... and the layout stays sound, with the same slots filled. */
  lemma RoundKeepsSound(sb: Super, mid: Disk, t: Table, owner: Owner, i: nat, bn: nat, x: Block, sz: nat)
    requires Sound(sb, mid, t, owner) && i < |t| && |t[i].addrs| == 13 && bn < MAXFILE
    requires SlotAddr(mid, t[i], DataSlot(bn)) != 0 && Filled(mid, t[i], sz)
    ensures var a := SlotAddr(mid, t[i], DataSlot(bn));
            a < |mid| && Sound(sb, mid[a := x], t, owner) && Filled(mid[a := x], t[i], sz)
  {
    hide SlotAddr, DataAt, UsedBit;
    DataWrite(sb, mid, t, owner, i, bn, x);
    SameBits(sb, mid, mid[SlotAddr(mid, t[i], DataSlot(bn)) := x], owner, {});
  }

  /** Slots are filled block by block, so sizes within a block do not matter. */
  lemma FilledWithinBlock(blocks: Disk, ino: Inode, a: nat, b: nat)
    requires |ino.addrs| == 13 && Filled(blocks, ino, a) && b <= MAXFILE * BSIZE
    requires BlockCount(a) == BlockCount(b)
    ensures Filled(blocks, ino, b)
  {
    hide SlotAddr;
  }

  lemma RoundFills(size: nat, off: nat, m: nat)
    requires 0 < m <= BSIZE - off % BSIZE
    ensures var sz, bn := Max(size, off), off / BSIZE;
            && bn * BSIZE <= sz
            && (bn * BSIZE < sz ==> BlockCount(Max(size, off + m)) == BlockCount(sz))
            && (bn * BSIZE == sz ==> bn * BSIZE < Max(size, off + m) <= (bn + 1) * BSIZE)
  {}

  /** What a round allocates. */
  lemma GrownStep(size: nat, off: nat, m: nat)
    requires 0 < m <= BSIZE - off % BSIZE
    ensures Grown(size, off + m) == Grown(size, off) +
              if off / BSIZE * BSIZE < Max(size, off) then 0 else if off / BSIZE == NDIRECT then 2 else 1
  {}

  lemma GrownMono(size: nat, off: nat, off': nat)
    requires off <= off'
    ensures 0 <= Grown(size, off) <= Grown(size, off')
  {}

  /** The bitmap blocks of a round are paid for by the blocks it allocates. */
  lemma GrownBits(sb: Super, size: nat, off: nat, m: nat, a: nat, ind: nat)
    requires 0 < m <= BSIZE - off % BSIZE
    ensures 0 <= Grown(size, off + m) - Grown(size, off)
    ensures off / BSIZE * BSIZE == Max(size, off) ==>
              |MapBits(sb, off / BSIZE, a, ind)| <= Grown(size, off + m) - Grown(size, off)
  {
    UnionSize({sb.BBlock(a)}, if off / BSIZE == NDIRECT then {sb.BBlock(ind)} else {});
  }

  lemma FilledBound(blocks: Disk, ino: Inode, sz: nat)
    requires |ino.addrs| == 13 && Filled(blocks, ino, sz)
    ensures sz <= MAXFILE * BSIZE && (sz > NDIRECT * BSIZE ==> ino.addrs[INDIRECT] != 0)
  {
    hide SlotAddr;
  }

  lemma OthersSameUpdate(before: Disk, after: Disk, t: Table, i: nat, ino: Inode)
    requires i < |t| && OthersSame(before, after, t[i := ino], i)
    ensures OthersSame(before, after, t, i)
  {
    hide SameFile;
    forall j | 0 <= j < |t| && j != i
      ensures |t[j].addrs| == 13 && SameFile(before, after, t[j])
    {
      assert t[i := ino][j] == t[j];
    }
  }

  lemma RoundLog(sb: Super, bn: nat, a: nat, ino: Inode, logged: set<nat>)
    requires |ino.addrs| == 13 && (bn >= NDIRECT ==> ino.addrs[INDIRECT] != 0)
    ensures var ind := ino.addrs[INDIRECT];
            logged + MapLog(sb, bn, a, ind) + {a} <= logged + {a} + MapBits(sb, bn, a, ind) + Inds(ino)
  {}

  /** Every inode's slots are filled exactly up to its size. */
  ghost predicate AllFilled(blocks: Disk, t: Table) {
    forall i :: 0 <= i < |t| ==> |t[i].addrs| == 13 && Filled(blocks, t[i], t[i].size)
  }

  /** Adding one round's blocks to what the rounds before it logged. */
  lemma LogGrows(logged0: set<nat>, logged: set<nat>, logged': set<nat>, data: set<nat>, bits: set<nat>,
                 ind: set<nat>, ind': set<nat>, a: nat, b: set<nat>)
    requires logged <= logged0 + data + bits + ind && ind <= ind'
    requires logged' <= logged + {a} + b + ind'
    ensures logged' <= logged0 + (data + {a}) + (bits + b) + ind'
    ensures |data + {a}| <= |data| + 1 && |bits + b| <= |bits| + |b|
  {
    UnionSize(data, {a});
    UnionSize(bits, b);
  }

  /** What a write has logged at its last `log_write` (`prior`) and in the end; only the
      inode's block may come after the loop. */
  lemma LogSize(logged0: set<nat>, loop: set<nat>, logged: set<nat>, prior: set<nat>, data: set<nat>, bits: set<nat>, ino: Inode, iblock: nat)
    requires |ino.addrs| == 13 && loop <= logged0 + data + bits + Inds(ino) && prior <= loop && logged <= loop + {iblock}
    ensures |prior - logged0| <= |data| + |bits| + 1 && |logged - logged0| <= |data| + |bits| + 2
  {
    var all := data + bits + Inds(ino);
    SubsetSize(prior - logged0, all);
    SubsetSize(logged - logged0, all + {iblock});
    UnionSize(all, {iblock});
    UnionSize(data + bits, Inds(ino));
    UnionSize(data, bits);
  }

  /** A finished write: the layout of the whole table with the new inode. */
  lemma WriteEnds(sb: Super, before: Disk, after: Disk, t: Table, owner: Owner, i: nat, ino: Inode)
    requires i < |t| && |ino.addrs| == 13 && Sound(sb, after, t[i := ino], owner)
    requires AllFilled(before, t) && OthersSame(before, after, t, i)
    requires Filled(after, ino, ino.size)
    ensures AllFilled(after, t[i := ino])
    ensures forall j :: 0 <= j < |t| && j != i ==> Content(after, t[j]) == Content(before, t[j])
  {
    hide Sound, Filled, Content;
    forall j | 0 <= j < |t| && j != i
      ensures Content(after, t[j]) == Content(before, t[j]) && Filled(after, t[j], t[j].size)
    {
      SameFileContent(before, after, t[j], t[j].size);
    }
  }

  lemma StartLoop(sb: Super, blocks: Disk, t: Table, owner: Owner, i: nat, src: seq<Byte>, off0: nat)
    requires Sound(sb, blocks, t, owner) && AllFilled(blocks, t) && i < |t| && off0 <= t[i].size
    ensures t[i := t[i]] == t && |t[i].addrs| == 13
    ensures Writing(blocks, t[i], Content(blocks, t[i]), src, off0, off0)
    ensures Filled(blocks, t[i], Max(|Content(blocks, t[i])|, off0))
    ensures OthersSame(blocks, blocks, t, i)
    ensures Touched(off0, off0) == 0 && Grown(t[i].size, off0) == 0
  {
    hide Filled, SlotAddr, ByteAt;
    WritingStarts(blocks, t[i], src, off0);
  }

  lemma WriteFinishes(sb: Super, before: Disk, after: Disk, t: Table, owner: Owner, i: nat, ino: Inode,
                      c0: seq<Byte>, src: seq<Byte>, off: nat)
    requires i < |t| && |ino.addrs| == 13 && AllFilled(before, t) && OthersSame(before, after, t, i)
    requires Sound(sb, after, t[i := ino.(size := |c0|)], owner)
    requires off <= |c0| && Filled(after, ino.(size := |c0|), Max(|c0|, off + |src|))
    requires Writing(after, ino.(size := |c0|), c0, src, off, off + |src|)
    requires ino.size == Max(|c0|, if src == [] then 0 else off + |src|)
    ensures Sound(sb, after, t[i := ino], owner) && AllFilled(after, t[i := ino])
    ensures Content(after, ino) == Splice(c0, off, src)
    ensures forall j :: 0 <= j < |t| && j != i ==> Content(after, t[j]) == Content(before, t[j])
  {
    hide Filled, SlotAddr, ByteAt, Content, Splice, Writing, Bits, OthersSame, Slots, AllFilled;
    var small := ino.(size := |c0|);
    SizeIsFree(sb, after, t, owner, i, small, ino);
    FilledSameSlots(after, small, ino, Max(|c0|, off + |src|));
    WritingSameSlots(after, small, ino, c0, src, off, off + |src|);
    WritingDone(after, ino, c0, src, off);
    WriteEnds(sb, before, after, t, owner, i, ino);
  }

  /** The size field does not matter to ownership, slots and bytes. */
  lemma SizeIsFree(sb: Super, blocks: Disk, t: Table, owner: Owner, i: nat, ino: Inode, ino': Inode)
    requires i < |t| && |ino.addrs| == 13 && ino'.addrs == ino.addrs
    requires Slots(sb, blocks, t[i := ino], owner)
    ensures Slots(sb, blocks, t[i := ino'], owner)
  {
    hide GetWord;
    var u, v := t[i := ino], t[i := ino'];
    forall j | 0 <= j < |t|
      ensures v[j].addrs == u[j].addrs && |u[j].addrs| == 13
    {}
    forall j, s | 0 <= j < |t| && 0 <= s < SLOTS
      ensures OwnsSlot(blocks, v[j], j, s, owner)
    {
      assert OwnsSlot(blocks, u[j], j, s, owner);
    }
    assert forall a :: a in owner ==> u[owner[a].0].addrs == v[owner[a].0].addrs;
  }

  lemma FilledSameSlots(blocks: Disk, ino: Inode, ino': Inode, sz: nat)
    requires |ino.addrs| == 13 && ino'.addrs == ino.addrs && Filled(blocks, ino, sz)
    ensures Filled(blocks, ino', sz)
  {
    hide GetWord;
  }

  lemma WritingSameSlots(blocks: Disk, ino: Inode, ino': Inode, c0: seq<Byte>, src: seq<Byte>, off0: nat, off: nat)
    requires |ino.addrs| == 13 && ino'.addrs == ino.addrs
    requires off0 <= |c0| && off0 <= off <= off0 + |src| && Writing(blocks, ino, c0, src, off0, off)
    ensures Writing(blocks, ino', c0, src, off0, off)
  {
    hide GetWord;
    forall pos | 0 <= pos < Max(|c0|, off)
      ensures ByteAt(blocks, ino', pos) == ByteAt(blocks, ino, pos)
    {
      if pos < MAXFILE * BSIZE {
        assert DataAt(blocks, ino', pos / BSIZE) == DataAt(blocks, ino, pos / BSIZE);
      }
    }
  }

  lemma AddrsLength(blocks: Disk, t: Table, i: nat)
    requires AllFilled(blocks, t) && i < |t|
    ensures |t[i].addrs| == 13 && t[i].size <= MAXFILE * BSIZE
  {
    hide SlotAddr;
  }

  // ----- reading

  /** The bytes of one block of the file. */
  lemma ReadSlice(sb: Super, blocks: Disk, t: Table, owner: Owner, i: nat, off: nat, m: nat)
    requires Slots(sb, blocks, t, owner) && i < |t| && Filled(blocks, t[i], t[i].size)
    requires 0 < m <= BSIZE - off % BSIZE && off + m <= t[i].size
    requires SlotAddr(blocks, t[i], DataSlot(off / BSIZE)) != 0
    ensures var a := SlotAddr(blocks, t[i], DataSlot(off / BSIZE));
            a < |blocks| && blocks[a][off % BSIZE..off % BSIZE + m] == Content(blocks, t[i])[off..off + m]
  {
    hide SlotAddr, DataAt;
    var a, at := SlotAddr(blocks, t[i], DataSlot(off / BSIZE)), off % BSIZE;
    MappedBlock(sb, blocks, t, owner, i, off / BSIZE);
    var c := Content(blocks, t[i]);
    forall p | at <= p < at + m
      ensures blocks[a][p] == c[off + (p - at)]
    {
      var pos := off + (p - at);
      assert pos / BSIZE == off / BSIZE && pos % BSIZE == p;
      assert c[pos] == ByteAt(blocks, t[i], pos);
    }
    assert blocks[a][at..at + m] == c[off..off + m];
  }

  lemma FilledOne(blocks: Disk, t: Table, i: nat)
    requires AllFilled(blocks, t) && i < |t|
    ensures |t[i].addrs| == 13 && Filled(blocks, t[i], t[i].size)
  {
    hide Filled;
  }

  lemma JoinSlices(c: seq<Byte>, i: nat, j: nat, k: nat)
    requires i <= j <= k <= |c|
    ensures c[i..j] + c[j..k] == c[i..k]
  {}

  // ----- truncation

  /** The slots in the order `itrunc` frees them: direct blocks, the blocks listed
      in the indirect block, the indirect block itself. */
  function FreeOrder(k: nat): (s: nat)
    requires k < SLOTS
    ensures s < SLOTS
  {
    if k < INDIRECT then k else if k < SLOTS - 1 then k + 1 else INDIRECT
  }

  /** The blocks still to be freed from step `k` of that order on. */
  ghost function ToFree(blocks: Disk, ino: Inode, k: nat): set<nat>
    requires |ino.addrs| == 13
  {
    set q | k <= q < SLOTS && SlotAddr(blocks, ino, FreeOrder(q)) != 0 :: SlotAddr(blocks, ino, FreeOrder(q))
  }

  /** No two slots of an inode hold the same block. */
  ghost predicate Distinct(blocks: Disk, ino: Inode)
    requires |ino.addrs| == 13
  {
    forall s, q :: 0 <= s < SLOTS && 0 <= q < SLOTS && s != q && SlotAddr(blocks, ino, s) != 0 ==>
      SlotAddr(blocks, ino, s) != SlotAddr(blocks, ino, q)
  }

  lemma ToFreeNext(blocks: Disk, ino: Inode, k: nat)
    requires |ino.addrs| == 13 && Distinct(blocks, ino) && k < SLOTS
    ensures var a := SlotAddr(blocks, ino, FreeOrder(k));
            && (a == 0 ==> ToFree(blocks, ino, k + 1) == ToFree(blocks, ino, k))
            && (a != 0 ==> a in ToFree(blocks, ino, k) && ToFree(blocks, ino, k + 1) == ToFree(blocks, ino, k) - {a})
  {
    hide SlotAddr;
    var a := SlotAddr(blocks, ino, FreeOrder(k));
    if a != 0 {
      assert forall q :: k < q < SLOTS ==> FreeOrder(q) != FreeOrder(k);
    }
  }

  /** Owners when inode `i` has given up all its blocks. */
  ghost function Dropped(owner: Owner, i: nat): Owner {
    map a | a in owner && owner[a].0 != i :: owner[a]
  }

  lemma DropSlots(sb: Super, blocks: Disk, t: Table, owner: Owner, i: nat, ino: Inode)
    requires Slots(sb, blocks, t, owner) && i < |t| && ino.addrs == FreeInode.addrs
    ensures Slots(sb, blocks, t[i := ino], Dropped(owner, i))
    ensures Distinct(blocks, t[i])
  {
    hide GetWord;
    var t' := t[i := ino];
    forall j, s | 0 <= j < |t| && 0 <= s < SLOTS
      ensures OwnsSlot(blocks, t'[j], j, s, Dropped(owner, i))
    {
      assert OwnsSlot(blocks, t[j], j, s, owner);
    }
    forall s, q | 0 <= s < SLOTS && 0 <= q < SLOTS && s != q && SlotAddr(blocks, t[i], s) != 0
      ensures SlotAddr(blocks, t[i], s) != SlotAddr(blocks, t[i], q)
    {
      assert OwnsSlot(blocks, t[i], i, s, owner) && OwnsSlot(blocks, t[i], i, q, owner);
    }
  }

  lemma DropBits(sb: Super, blocks: Disk, t: Table, owner: Owner, i: nat)
    requires Sound(sb, blocks, t, owner) && i < |t| && |t[i].addrs| == 13
    ensures Bits(sb, blocks, Dropped(owner, i), ToFree(blocks, t[i], 0))
  {
    hide UsedBit, SlotAddr;
    var owner', moving := Dropped(owner, i), ToFree(blocks, t[i], 0);
    forall b | b in moving
      ensures b in owner && owner[b].0 == i
    {
      var q :| 0 <= q < SLOTS && SlotAddr(blocks, t[i], FreeOrder(q)) == b;
      assert OwnsSlot(blocks, t[i], i, FreeOrder(q), owner);
    }
    forall b | b in owner && owner[b].0 == i
      ensures b in moving
    {
      var s := owner[b].1;
      var q := if s < INDIRECT then s else if s == INDIRECT then SLOTS - 1 else s - 1;
      assert FreeOrder(q) == s && b != 0;
    }
  }

  lemma FreeOne(sb: Super, before: Disk, after: Disk, owner: Owner, moving: set<nat>, b: nat)
    requires sb.Valid(|before|) && Bits(sb, before, owner, moving) && b in moving && Freed(sb, before, after, b)
    ensures Bits(sb, after, owner, moving - {b})
    ensures forall c :: sb.Meta() <= c < |before| ==> after[c] == before[c]
  {
    hide UsedBit;
  }

  lemma FreedLength(sb: Super, before: Disk, after: Disk, b: nat)
    requires sb.Valid(|before|) && b < sb.size && Freed(sb, before, after, b)
    ensures |after| == |before|
  {}

  /** Without an indirect block nothing is left after the direct blocks. */
  lemma NoIndirect(blocks: Disk, ino: Inode, k: nat)
    requires |ino.addrs| == 13 && ino.addrs[INDIRECT] == 0 && INDIRECT <= k
    ensures ToFree(blocks, ino, k) == {} == ToFree(blocks, ino, SLOTS)
  {
    hide GetWord;
  }

  lemma AllFreed(blocks: Disk, ino: Inode)
    requires |ino.addrs| == 13
    ensures ToFree(blocks, ino, SLOTS) == {}
  {
    hide SlotAddr;
  }

  lemma TruncEnds(sb: Super, before: Disk, after: Disk, t: Table, owner: Owner, i: nat, ino: Inode)
    requires Sound(sb, before, t, owner) && AllFilled(before, t) && i < |t|
    requires ino == t[i].(addrs := FreeInode.addrs, size := 0)
    requires |before| == |after| && forall c :: sb.Meta() <= c < |before| ==> after[c] == before[c]
    requires Bits(sb, after, Dropped(owner, i), {})
    ensures Sound(sb, after, t[i := ino], Dropped(owner, i)) && AllFilled(after, t[i := ino])
    ensures forall j :: 0 <= j < |t| && j != i ==> Content(after, t[j]) == Content(before, t[j])
  {
    hide UsedBit, GetWord, SlotAddr, Content, Bits, Slots, Filled;
    DropSlots(sb, before, t, owner, i, ino);
    DataStays(sb, before, after, t[i := ino], Dropped(owner, i));
    DataStays(sb, before, after, t, owner);
    SlotsFrame(sb, before, after, t[i := ino], Dropped(owner, i));
    EmptyFilled(after, ino);
    forall j | 0 <= j < |t| && j != i
      ensures Content(after, t[j]) == Content(before, t[j]) && Filled(after, t[j], t[j].size)
    {
      KeptOthers(sb, before, t, owner, after, owner, i, j);
      SameFileContent(before, after, t[j], t[j].size);
    }
  }

  lemma DataStays(sb: Super, before: Disk, after: Disk, t: Table, owner: Owner)
    requires Slots(sb, before, t, owner) && |before| == |after|
    requires forall c :: sb.Meta() <= c < |before| ==> after[c] == before[c]
    ensures forall a :: a in owner ==> after[a] == before[a]
  {
    hide SlotAddr;
  }

  lemma EmptyFilled(blocks: Disk, ino: Inode)
    requires ino.addrs == FreeInode.addrs
    ensures Filled(blocks, ino, 0)
  {
    hide GetWord;
  }

  lemma FreedExactly(sb: Super, before: Disk, after: Disk, t: Table, owner: Owner, i: nat)
    requires Sound(sb, before, t, owner) && |before| == |after| && Bits(sb, after, Dropped(owner, i), {})
    ensures forall b :: 0 <= b < sb.size ==>
              (InUse(sb, after, b) <==> InUse(sb, before, b) && !(b in owner && owner[b].0 == i))
  {
    hide UsedBit, SlotAddr;
  }

  // ----- free inodes

  /** A free inode has no blocks. */
  ghost predicate FreeAreEmpty(t: Table) {
    forall i :: 0 <= i < |t| && t[i].typ == 0 ==> t[i].size == 0
  }

  lemma EmptyAddrs(blocks: Disk, ino: Inode)
    requires |ino.addrs| == 13 && Filled(blocks, ino, 0)
    ensures ino.addrs == FreeInode.addrs
  {
    hide GetWord;
    forall s | 0 <= s < 13
      ensures ino.addrs[s] == 0
    {
      if s < NDIRECT {
        assert SlotAddr(blocks, ino, DataSlot(s)) == ino.addrs[s];
      }
    }
  }

  /** An empty inode may change its type and link count freely. */
  lemma RetypeEmpty(sb: Super, blocks: Disk, t: Table, owner: Owner, i: nat, ino: Inode)
    requires Sound(sb, blocks, t, owner) && AllFilled(blocks, t) && FreeAreEmpty(t)
    requires i < |t| && t[i].size == 0 && ino.addrs == FreeInode.addrs && ino.size == 0
    ensures Sound(sb, blocks, t[i := ino], owner) && AllFilled(blocks, t[i := ino]) && FreeAreEmpty(t[i := ino])
    ensures Content(blocks, ino) == []
  {
    hide SlotAddr, Slots, Bits, Filled;
    EmptyAddrs(blocks, t[i]);
    assert t[i := t[i]] == t;
    SizeIsFree(sb, blocks, t, owner, i, t[i], ino);
    EmptyFilled(blocks, ino);
  }

  /** Two writes one after the other are one write. */
  lemma SpliceTwice(c: seq<Byte>, off: nat, a: seq<Byte>, i: nat, m: nat)
    requires off <= |c| && i + m <= |a|
    ensures off + i <= |Splice(c, off, a[..i])|
    ensures Splice(Splice(c, off, a[..i]), off + i, a[i..i + m]) == Splice(c, off, a[..i + m])
  {}

  lemma SpliceNothing(c: seq<Byte>, off: nat)
    requires off <= |c|
    ensures Splice(c, off, []) == c
  {}

  /** How long the file is after a splice. */
  lemma SpliceLength(c: seq<Byte>, off: nat, a: seq<Byte>)
    requires off <= |c|
    ensures |Splice(c, off, a)| == Max(|c|, off + |a|)
  {}

  lemma SpliceNone(blocks: Disk, ino: Inode, off: nat, a: seq<Byte>)
    requires |ino.addrs| == 13
    ensures off <= ino.size ==> Splice(Content(blocks, ino), off, a[..0]) == Content(blocks, ino)
  {
    hide ByteAt;
    if off <= ino.size {
      SpliceNothing(Content(blocks, ino), off);
    }
  }
}
