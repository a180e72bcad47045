/** Inodes as bytes: eight of them in a block, each sixteen words long. */
module Dinodes {
  import opened Blocks
  import opened FsLayout
  import opened FsFiles

  /** Words of one inode on disk. */
  const IWORDS: nat := 16

  /** The 16 bits of a short. */
  function ToShort(x: int): (h: nat)
    requires -0x8000 <= x < 0x8000
    ensures h < 0x1_0000 && FromShort(h) == x
  {
    if x < 0 then x + 0x1_0000 else x
  }

  function FromShort(h: nat): (x: int)
    requires h < 0x1_0000
    ensures -0x8000 <= x < 0x8000
  {
    if h < 0x8000 then h else h - 0x1_0000
  }

  predicate IsShort(x: int) {
    -0x8000 <= x < 0x8000
  }

  /** The fields are in the range of their C types. */
  predicate Storable(ino: Inode) {
    && IsShort(ino.typ) && IsShort(ino.major) && IsShort(ino.minor) && IsShort(ino.nlink)
    && ino.size < 0x1_0000_0000 && |ino.addrs| == 13 && forall s :: 0 <= s < 13 ==> ino.addrs[s] < 0x1_0000_0000
  }

  function Pair(lo: nat, hi: nat): (w: Word)
    requires lo < 0x1_0000 && hi < 0x1_0000
    ensures w % 0x1_0000 == lo && w / 0x1_0000 == hi
  {
    lo + 0x1_0000 * hi
  }

  function InodeWords(ino: Inode): (ws: seq<Word>)
    requires Storable(ino)
    ensures |ws| == IWORDS
  {
    [Pair(ToShort(ino.typ), ToShort(ino.major)), Pair(ToShort(ino.minor), ToShort(ino.nlink)), ino.size]
    + seq(13, s requires 0 <= s < 13 => ino.addrs[s])
  }

  /** Store consecutive words. */
  function PutWords(b: Block, at: nat, ws: seq<Word>): (r: Block)
    requires at + |ws| <= WORDS
    ensures forall j :: 0 <= j < WORDS ==> GetWord(r, j) == if at <= j < at + |ws| then ws[j - at] else GetWord(b, j)
  {
    hide GetWord, PutWord;
    if ws == [] then b else PutWord(PutWords(b, at, ws[..|ws| - 1]), at + |ws| - 1, ws[|ws| - 1])
  }

  /** `n` consecutive words. */
  function GetWords(b: Block, at: nat, n: nat): (r: seq<nat>)
    requires at + n <= WORDS
    ensures |r| == n && forall s :: 0 <= s < n ==> r[s] == GetWord(b, at + s)
  {
    hide GetWord;
    if n == 0 then [] else GetWords(b, at, n - 1) + [GetWord(b, at + n - 1)]
  }

  /** The `k`-th inode of a block. */
  function GetInode(b: Block, k: nat): (ino: Inode)
    requires k < IPB
    ensures Storable(ino)
  {
    hide GetWord, GetWords;
    var at := k * IWORDS;
    var w, v := GetWord(b, at), GetWord(b, at + 1);
    Inode(FromShort(w % 0x1_0000), FromShort(w / 0x1_0000), FromShort(v % 0x1_0000), FromShort(v / 0x1_0000),
          GetWord(b, at + 2), GetWords(b, at + 3, 13))
  }

  function PutInode(b: Block, k: nat, ino: Inode): Block
    requires k < IPB && Storable(ino)
  {
    PutWords(b, k * IWORDS, InodeWords(ino))
  }

  /** What is stored is read back, and the seven neighbours keep their values. */
  lemma PutGetInode(b: Block, k: nat, ino: Inode, j: nat)
    requires k < IPB && j < IPB && Storable(ino)
    ensures GetInode(PutInode(b, k, ino), j) == if j == k then ino else GetInode(b, j)
  {
    hide GetWord, PutWords, InodeWords, GetWords;
    var r, ws, at := PutInode(b, k, ino), InodeWords(ino), j * IWORDS;
    if j == k {
      WordsAre(ino);
      assert GetInode(r, j).addrs == ino.addrs;
    } else {
      assert forall s :: at <= s < at + IWORDS ==> GetWord(r, s) == GetWord(b, s);
      assert GetInode(r, j).addrs == GetInode(b, j).addrs;
    }
  }

  lemma WordsAre(ino: Inode)
    requires Storable(ino)
    ensures var ws := InodeWords(ino);
            && ws[0] == Pair(ToShort(ino.typ), ToShort(ino.major)) && ws[1] == Pair(ToShort(ino.minor), ToShort(ino.nlink))
            && ws[2] == ino.size && forall s :: 0 <= s < 13 ==> ws[3 + s] == ino.addrs[s]
  {}

  // ----- the inode blocks of a disk

  /** The inode blocks hold the table. */
  ghost predicate Stores(sb: Super, blocks: Disk, t: Table) {
    sb.Valid(|blocks|) && |t| == sb.ninodes && forall i :: 0 <= i < |t| ==> Stored(sb, blocks, i, t[i])
  }

  ghost predicate Stored(sb: Super, blocks: Disk, i: nat, ino: Inode) {
    sb.IBlock(i) < |blocks| && GetInode(blocks[sb.IBlock(i)], i % IPB) == ino
  }

  /** The inode blocks are the same on both disks. */
  ghost predicate SameInodes(sb: Super, before: Disk, after: Disk) {
    |after| == |before| && forall c :: sb.inodestart <= c < sb.bmapstart && c < |before| ==> after[c] == before[c]
  }

  lemma InodeBlock(sb: Super, i: nat, disk: nat)
    requires sb.Valid(disk) && i < sb.ninodes
    ensures sb.inodestart <= sb.IBlock(i) < sb.bmapstart < sb.Meta() <= disk
  {}

  lemma SameInodesStore(sb: Super, before: Disk, after: Disk, t: Table)
    requires Stores(sb, before, t) && SameInodes(sb, before, after)
    ensures Stores(sb, after, t)
  {
    hide GetInode;
    forall i | 0 <= i < |t|
      ensures Stored(sb, after, i, t[i])
    {
      assert Stored(sb, before, i, t[i]);
      InodeBlock(sb, i, |before|);
    }
  }

  /** Writing one inode changes that one in the table. */
  lemma PutStores(sb: Super, blocks: Disk, t: Table, i: nat, ino: Inode)
    requires Stores(sb, blocks, t) && i < |t| && Storable(ino)
    ensures sb.IBlock(i) < |blocks|
    ensures var c := sb.IBlock(i);
            Stores(sb, blocks[c := PutInode(blocks[c], i % IPB, ino)], t[i := ino])
  {
    hide GetInode, PutInode, Storable;
    assert Stored(sb, blocks, i, t[i]);
    var c := sb.IBlock(i);
    var after, t' := blocks[c := PutInode(blocks[c], i % IPB, ino)], t[i := ino];
    forall j | 0 <= j < |t'|
      ensures Stored(sb, after, j, t'[j])
    {
      assert Stored(sb, blocks, j, t[j]);
      PutGetInode(blocks[c], i % IPB, ino, j % IPB);
    }
  }

  /** A block of zeros holds free inodes. */
  lemma ZeroInode(k: nat)
    requires k < IPB
    ensures GetInode(Zero(), k) == FreeInode
  {
    hide GetWord, GetWords;
    forall j | 0 <= j < WORDS
      ensures GetWord(Zero(), j) == 0
    {
      ZeroWords(j);
    }
    assert GetInode(Zero(), k).addrs == FreeInode.addrs;
  }

  lemma TableStorable(sb: Super, blocks: Disk, t: Table, i: nat)
    requires Stores(sb, blocks, t) && i < |t|
    ensures Storable(t[i])
  {
    assert Stored(sb, blocks, i, t[i]);
  }

  // ----- who leaves the inode blocks alone

  lemma SameInodesTwice(sb: Super, a: Disk, b: Disk, c: Disk)
    requires SameInodes(sb, a, b) && SameInodes(sb, b, c)
    ensures SameInodes(sb, a, c)
  {}

  lemma AllocatedInodes(sb: Super, before: Disk, after: Disk, b: nat)
    requires sb.Valid(|before|) && Allocated(sb, before, after, b)
    ensures SameInodes(sb, before, after)
  {
    hide InUse;
  }

  lemma FreedInodes(sb: Super, before: Disk, after: Disk, b: nat)
    requires sb.Valid(|before|) && b < sb.size && Freed(sb, before, after, b)
    ensures SameInodes(sb, before, after)
  {
    hide InUse;
  }

  /** A data block or an indirect block is none. */
  lemma DataInodes(sb: Super, blocks: Disk, a: nat, x: Block)
    requires sb.Valid(|blocks|) && sb.Meta() <= a < |blocks|
    ensures SameInodes(sb, blocks, blocks[a := x])
  {}

  /** Files and their slots lie above the inode blocks. */
  lemma FilesAbove(sb: Super, before: Disk, after: Disk, t: Table, owner: Owner)
    requires sb.Valid(|before|) && |after| == |before| && Slots(sb, before, t, owner)
    requires forall c :: sb.bmapstart <= c < |before| ==> after[c] == before[c]
    ensures Slots(sb, after, t, owner) && (AllFilled(after, t) <==> AllFilled(before, t))
    ensures forall j :: 0 <= j < |t| ==> Content(after, t[j]) == Content(before, t[j])
  {
    hide UsedBit, GetWord, SlotAddr, Content, Bits, Filled;
    DataStays(sb, before, after, t, owner);
    SlotsFrame(sb, before, after, t, owner);
    assert Kept(before, owner, after, owner, |t|);
    forall j | 0 <= j < |t|
      ensures Content(after, t[j]) == Content(before, t[j]) && (Filled(after, t[j], t[j].size) <==> Filled(before, t[j], t[j].size))
    {
      KeptOthers(sb, before, t, owner, after, owner, |t|, j);
      SameFileContent(before, after, t[j], t[j].size);
    }
  }

  /** An inode block belongs to no file. */
  lemma InodeWriteFiles(sb: Super, before: Disk, c: nat, x: Block, t: Table, owner: Owner)
    requires sb.Valid(|before|) && Slots(sb, before, t, owner) && c < sb.bmapstart
    ensures var after := before[c := x];
            && Slots(sb, after, t, owner) && (AllFilled(after, t) <==> AllFilled(before, t))
            && forall j :: 0 <= j < |t| ==> Content(after, t[j]) == Content(before, t[j])
  {
    hide UsedBit, GetWord, SlotAddr, Content, Bits, AllFilled;
    FilesAbove(sb, before, before[c := x], t, owner);
  }

  /** Nor does it hold a bit of the bitmap. */
  lemma InodeWriteKeeps(sb: Super, before: Disk, c: nat, x: Block, t: Table, owner: Owner)
    requires Sound(sb, before, t, owner) && AllFilled(before, t) && c < sb.bmapstart
    ensures c < |before|
    ensures var after := before[c := x];
            && Sound(sb, after, t, owner) && AllFilled(after, t)
            && forall j :: 0 <= j < |t| ==> Content(after, t[j]) == Content(before, t[j])
  {
    hide Content, Bits, Filled, SlotAddr;
    InodeWriteFiles(sb, before, c, x, t, owner);
    BitsAbove(sb, before, before[c := x], owner);
  }

  lemma BitsAbove(sb: Super, before: Disk, after: Disk, owner: Owner)
    requires sb.Valid(|before|) && |before| == |after| && Bits(sb, before, owner, {})
    requires forall c :: sb.bmapstart <= c < |before| ==> after[c] == before[c]
    ensures Bits(sb, after, owner, {})
  {
    hide UsedBit;
    forall c | 0 <= c < sb.size
      ensures InUse(sb, after, c) == InUse(sb, before, c)
    {
      assert sb.bmapstart <= sb.BBlock(c) < sb.Meta();
    }
  }

  /** Block numbers of a sound layout are words. */
  lemma SoundStorable(sb: Super, blocks: Disk, t: Table, owner: Owner, i: nat, ino: Inode)
    requires sb.Valid(|blocks|) && Slots(sb, blocks, t, owner) && i < |t| && Storable(ino)
    requires t[i] == ino.(addrs := t[i].addrs, size := t[i].size) && t[i].size < 0x1_0000_0000
    ensures Storable(t[i])
  {
    forall s | 0 <= s < 13
      ensures t[i].addrs[s] < 0x1_0000_0000
    {
      assert OwnsSlot(blocks, t[i], i, s, owner);
    }
  }

  lemma NoChange(sb: Super, blocks: Disk)
    ensures SameInodes(sb, blocks, blocks)
  {}

  lemma SameLength(sb: Super, before: Disk, after: Disk)
    requires SameInodes(sb, before, after)
    ensures |after| == |before|
  {}

  lemma AllAddrs(blocks: Disk, t: Table)
    requires AllFilled(blocks, t)
    ensures forall j :: 0 <= j < |t| ==> |t[j].addrs| == 13
  {
    hide Filled;
  }

  /** The block in a slot is a data block. */
  lemma SlotAbove(sb: Super, blocks: Disk, t: Table, owner: Owner, i: nat, s: nat)
    requires Sound(sb, blocks, t, owner) && i < |t| && |t[i].addrs| == 13 && s < SLOTS && SlotAddr(blocks, t[i], s) != 0
    ensures sb.Meta() <= SlotAddr(blocks, t[i], s) < |blocks|
  {
    hide SlotAddr, Bits;
    assert OwnsSlot(blocks, t[i], i, s, owner);
  }
}
