/** mkfs.c: the builder of the first file-system image, which establishes the
    layout invariant that fs.c keeps. */
module Mkfs {
  import opened Blocks
  import opened FsLayout
  import opened FsFiles
  import opened Dinodes

  class Image {
    const sb: Super
    var blocks: Disk
    /** The inodes in the image. */
    ghost var dinode: Table
    var freeinode: nat
    var freeblock: nat
    ghost var owner: Owner

    /** Blocks are handed out in order, each is owned by one slot of the table `t`,
        and those not yet handed out are zero. */
    ghost predicate Laid(t: Table)
      reads this
    {
      && sb.Valid(|blocks|) && sb.Meta() <= freeblock <= sb.size
      && Slots(sb, blocks, t, owner)
      && (forall b :: b in owner <==> sb.Meta() <= b < freeblock)
      && (forall c :: freeblock <= c < |blocks| ==> blocks[c] == Zero())
      && (forall c :: sb.bmapstart <= c < sb.Meta() ==> blocks[c] == Zero())
    }

    /** Between steps of the builder. */
    ghost predicate Building()
      reads this
    {
      && Stores(sb, blocks, dinode) && Laid(dinode) && AllFilled(blocks, dinode) && FreeAreEmpty(dinode)
      && forall i :: freeinode <= i < |dinode| ==> dinode[i] == FreeInode
    }

    /** An image of zero blocks. */
    constructor (sb: Super)
      requires sb.Valid(sb.size)
      ensures Building() && this.sb == sb && freeinode == 1 && freeblock == sb.Meta()
    {
      this.sb := sb;
      blocks := seq(sb.size, _ => Zero());
      dinode := seq(sb.ninodes, _ => FreeInode);
      freeinode, freeblock := 1, sb.Meta();
      owner := map[];
      new;
      EmptyImage(sb, blocks, dinode);
    }

    /** `rinode`. */
    method RInode(inum: nat) returns (din: Inode)
      requires inum < |dinode| && Stores(sb, blocks, dinode)
      ensures din == dinode[inum] && Storable(din)
    {
      hide GetInode, Storable;
      assert Stored(sb, blocks, inum, dinode[inum]);
      return GetInode(blocks[sb.IBlock(inum)], inum % IPB);
    }

    /** `winode`: the image with `din` for inode `inum`. */
    method WInode(inum: nat, din: Inode)
      requires inum < |dinode| && Storable(din) && Stores(sb, blocks, dinode)
      requires Laid(dinode[inum := din])
      modifies this`blocks, this`dinode
      ensures dinode == old(dinode)[inum := din] && Stores(sb, blocks, dinode) && Laid(dinode)
      ensures AllFilled(blocks, dinode) <==> AllFilled(old(blocks), dinode)
      ensures forall j :: 0 <= j < |dinode| ==> |dinode[j].addrs| == 13 && Content(blocks, dinode[j]) == Content(old(blocks), dinode[j])
    {
      hide AllFilled, Content, Zero, PutInode, Storable, SlotAddr;
      InodeBlock(sb, inum, |blocks|);
      var c := sb.IBlock(inum);
      var buf := PutInode(blocks[c], inum % IPB, din);
      PutStores(sb, blocks, dinode, inum, din);
      ghost var t := dinode[inum := din];
      InodeWriteFiles(sb, blocks, c, buf, t, owner);
      blocks := blocks[c := buf];
      dinode := t;
    }

    /** The next inode, with one link and no content. */
    method IAlloc(typ: int) returns (inum: nat)
      requires Building() && freeinode < |dinode| && typ != 0 && IsShort(typ)
      modifies this`blocks, this`dinode, this`freeinode
      ensures Building() && inum == old(freeinode) && freeinode == inum + 1
      ensures dinode == old(dinode)[inum := FreeInode.(typ := typ, nlink := 1)]
      ensures forall j :: 0 <= j < |dinode| ==> |dinode[j].addrs| == 13 && Content(blocks, dinode[j]) == Content(old(blocks), dinode[j])
      ensures Content(blocks, dinode[inum]) == []
    {
      hide Slots, Filled, Content, Zero, Stores;
      inum := freeinode;
      freeinode := freeinode + 1;
      var din := FreeInode.(typ := typ, nlink := 1);
      ghost var t := dinode[inum := din];
      assert dinode[inum := dinode[inum]] == dinode;
      SizeIsFree(sb, blocks, dinode, owner, inum, dinode[inum], din);
      EmptyFilled(blocks, din);
      EmptyContent(blocks, din);
      assert AllFilled(blocks, t);
      WInode(inum, din);
    }

    /** Hand out the next block to an empty slot of `addrs`. */
    method TakeSlot(inum: nat, din: Inode, s: nat) returns (din': Inode)
      requires inum < |dinode| && |din.addrs| == 13 && Laid(dinode[inum := din])
      requires freeblock < sb.size && s <= INDIRECT && din.addrs[s] == 0
      modifies this`freeblock, this`owner
      ensures din' == din.(addrs := din.addrs[s := old(freeblock)]) && freeblock == old(freeblock) + 1
      ensures Laid(dinode[inum := din']) && owner == old(owner)[old(freeblock) := (inum, s)]
      ensures Kept(blocks, old(owner), blocks, owner, inum)
      ensures SlotAddr(blocks, din', s) == old(freeblock) != 0
      ensures forall q :: 0 <= q < SLOTS && q != s ==> SlotAddr(blocks, din', q) == SlotAddr(blocks, din, q)
    {
      hide GetWord, SlotAddr, Zero;
      ghost var t := dinode[inum := din];
      forall j | 0 <= j < WORDS
        ensures GetWord(blocks[freeblock], j) == 0
      {
        ZeroWords(j);
      }
      SlotsAssign(sb, blocks, t, owner, inum, s, freeblock);
      din' := din.(addrs := din.addrs[s := freeblock]);
      assert t[inum := din'] == dinode[inum := din'];
      DirectSlot(blocks, din', s);
      owner := owner[freeblock := (inum, s)];
      freeblock := freeblock + 1;
    }

    /** Hand out the next block to an empty entry of the indirect block. */
    method TakeEntry(inum: nat, din: Inode, k: nat)
      requires inum < |dinode| && |din.addrs| == 13 && Laid(dinode[inum := din])
      requires freeblock < sb.size && k < WORDS && din.addrs[INDIRECT] != 0
      requires SlotAddr(blocks, din, k + 13) == 0
      modifies this`blocks, this`freeblock, this`owner
      ensures freeblock == old(freeblock) + 1 && |blocks| == |old(blocks)|
      ensures Laid(dinode[inum := din]) && owner == old(owner)[old(freeblock) := (inum, k + 13)]
      ensures Kept(old(blocks), old(owner), blocks, owner, inum) && SameInodes(sb, old(blocks), blocks)
      ensures SlotAddr(blocks, din, k + 13) == old(freeblock) != 0
      ensures forall q :: 0 <= q < SLOTS && q != k + 13 ==> SlotAddr(blocks, din, q) == SlotAddr(old(blocks), din, q)
    {
      hide GetWord, PutWord, SlotAddr, Zero, SameInodes;
      ghost var t := dinode[inum := din];
      IndirectOwned(sb, blocks, t, owner, inum);
      EntryWord(blocks, din, k);
      SlotsStore(sb, blocks, t, owner, inum, k, freeblock);
      var ind := din.addrs[INDIRECT];
      DataInodes(sb, blocks, ind, PutWord(blocks[ind], k, freeblock));
      blocks := blocks[ind := PutWord(blocks[ind], k, freeblock)];
      owner := owner[freeblock := (inum, k + 13)];
      freeblock := freeblock + 1;
    }

    /** The block for the `fbn`-th file block, handing one out if it is the next. */
    method MapBlock(inum: nat, din: Inode, fbn: nat, ghost sz: nat) returns (din': Inode, x: nat)
      requires inum < |dinode| && |din.addrs| == 13 && Laid(dinode[inum := din]) && Filled(blocks, din, sz)
      requires fbn < MAXFILE && fbn * BSIZE <= sz
      requires freeblock + (if fbn * BSIZE < sz then 0 else if fbn == NDIRECT then 2 else 1) <= sb.size
      modifies this`blocks, this`freeblock, this`owner
      ensures Laid(dinode[inum := din']) && din' == din.(addrs := din'.addrs) && |din'.addrs| == 13
      ensures Kept(old(blocks), old(owner), blocks, owner, inum) && SameInodes(sb, old(blocks), blocks)
      ensures x == SlotAddr(blocks, din', DataSlot(fbn)) && 0 < x < |blocks|
      ensures old(freeblock) <= freeblock <= old(freeblock) + if fbn * BSIZE < sz then 0 else if fbn == NDIRECT then 2 else 1
      ensures fbn * BSIZE < sz ==> blocks == old(blocks) && din' == din && owner == old(owner)
      ensures fbn * BSIZE == sz ==> forall z :: fbn * BSIZE < z <= (fbn + 1) * BSIZE ==> Filled(blocks, din', z)
    {
      hide GetWord, PutWord, SlotAddr, Zero, Kept, Filled, Slots, SameInodes;
      NoChange(sb, blocks);
      FilledAt(blocks, din, sz, fbn);
      din' := din;
      if fbn < NDIRECT {
        if din.addrs[fbn] == 0 {
          din' := TakeSlot(inum, din, fbn);
          FilledGrows(blocks, din, blocks, din', fbn);
        } else {
          KeptSelf(blocks, owner, inum);
        }
        x := din'.addrs[fbn];
        DirectSlot(blocks, din', fbn);
      } else {
        if din.addrs[INDIRECT] == 0 {
          din' := TakeSlot(inum, din, INDIRECT);
        } else {
          KeptSelf(blocks, owner, inum);
        }
        ghost var mid, ownerM := blocks, owner;
        TableIndirect(sb, blocks, dinode, owner, inum, din');
        EntryWord(blocks, din', fbn - NDIRECT);
        if GetWord(blocks[din'.addrs[INDIRECT]], fbn - NDIRECT) == 0 {
          TakeEntry(inum, din', fbn - NDIRECT);
          KeptTwice(old(blocks), old(owner), mid, ownerM, blocks, owner, inum);
          FilledGrows(old(blocks), din, blocks, din', fbn);
          TableIndirect(sb, blocks, dinode, owner, inum, din');
          EntryWord(blocks, din', fbn - NDIRECT);
        }
        x := GetWord(blocks[din'.addrs[INDIRECT]], fbn - NDIRECT);
      }
      TableSlot(sb, blocks, dinode, owner, inum, din', DataSlot(fbn));
    }

    /** An append in progress: the bytes of `src` up to `off` are in. */
    ghost predicate Mid(inum: nat, din: Inode, c0: seq<Byte>, src: seq<Byte>, off: nat)
      reads this
    {
      && inum < |dinode| && |din.addrs| == 13 && Laid(dinode[inum := din])
      && |c0| <= off <= |c0| + |src| && Filled(blocks, din, off)
      && Writing(blocks, din, c0, src, |c0|, off)
    }

    method AppendRound(inum: nat, din: Inode, piece: seq<Byte>, off: nat, m: nat, ghost c0: seq<Byte>, ghost src: seq<Byte>)
      returns (din': Inode)
      requires Mid(inum, din, c0, src, off)
      requires 0 < m <= BSIZE - off % BSIZE && off + m <= |c0| + |src| && off + m <= MAXFILE * BSIZE
      requires freeblock + Grown(|c0|, off + m) - Grown(|c0|, off) <= sb.size && piece == src[off - |c0|..off - |c0| + m]
      modifies this`blocks, this`freeblock, this`owner
      ensures Mid(inum, din', c0, src, off + m) && din' == din.(addrs := din'.addrs)
      ensures freeblock <= old(freeblock) + Grown(|c0|, off + m) - Grown(|c0|, off)
      ensures OthersSame(old(blocks), blocks, dinode, inum) && SameInodes(sb, old(blocks), blocks)
    {
      hide GetWord, SlotAddr, Kept, Zero, Filled, Writing, OthersSame, Slots, Patch, Grown, SameInodes;
      ghost var t, before, ownerB := dinode[inum := din], blocks, owner;
      RoundFills(|c0|, off, m);
      GrownStep(|c0|, off, m);
      var fbn, x := off / BSIZE, 0;
      din', x := MapBlock(inum, din, fbn, off);
      ghost var t', mid := dinode[inum := din'], blocks;
      if fbn * BSIZE < off {
        FilledWithinBlock(blocks, din', off, off + m);
      }
      var buf := Patch(blocks[x], off - fbn * BSIZE, piece);
      WriteStep(sb, before, t, ownerB, mid, t', owner, inum, c0, src, |c0|, off, m);
      RoundKeepsOthers(sb, before, t, ownerB, mid, t', owner, inum, fbn, buf);
      OthersSameUpdate(before, mid[x := buf], dinode, inum, din);
      DataWriteLaid(sb, mid, t', owner, inum, fbn, buf, off + m);
      DataInodes(sb, mid, x, buf);
      SameInodesTwice(sb, before, mid, mid[x := buf]);
      blocks := blocks[x := buf];
    }

    /** Append bytes to an inode; false is the failed assertion that the file fits. */
    method IAppend(inum: nat, data: seq<Byte>) returns (ok: bool)
      requires Building() && inum < freeinode && inum < |dinode| && dinode[inum].typ != 0
      requires freeblock + Grown(dinode[inum].size, Least(dinode[inum].size + |data|, MAXFILE * BSIZE)) <= sb.size
      modifies this`blocks, this`dinode, this`freeblock, this`owner
      ensures ok <==> old(dinode)[inum].size + |data| <= MAXFILE * BSIZE
      ensures ok ==> freeblock <= old(freeblock) + Grown(old(dinode)[inum].size, old(dinode)[inum].size + |data|)
      ensures ok ==>
                && Building() && |dinode| == |old(dinode)| && |dinode[inum].addrs| == |old(dinode)[inum].addrs| == 13
                && Content(blocks, dinode[inum]) == Content(old(blocks), old(dinode)[inum]) + data
                && dinode[inum] == old(dinode)[inum].(addrs := dinode[inum].addrs, size := dinode[inum].size)
                && forall j :: 0 <= j < |dinode| && j != inum ==>
                     dinode[j] == old(dinode)[j] && Content(blocks, dinode[j]) == Content(old(blocks), dinode[j])
    {
      hide GetWord, SlotAddr, Kept, Zero, Filled, Writing, OthersSame, Slots, Grown, Content, AllFilled, SameInodes, Storable, Stores;
      NoChange(sb, blocks);
      var din := RInode(inum);
      AddrsLength(blocks, dinode, inum);
      ghost var before, t, c0 := blocks, dinode, Content(blocks, din);
      StartAppend(sb, blocks, dinode, owner, inum, data);
      var off, n := din.size, |data|;
      while n > 0
        invariant 0 <= n <= |data| && off == |c0| + |data| - n
        invariant n == |data| || n == 0 || off % BSIZE == 0
        invariant din == t[inum].(addrs := din.addrs) && dinode == t
        invariant off <= MAXFILE * BSIZE
        invariant Mid(inum, din, c0, data, off) && OthersSame(before, blocks, dinode, inum) && SameInodes(sb, before, blocks)
        invariant freeblock <= old(freeblock) + Grown(|c0|, off)
        decreases n
      {
        var fbn := off / BSIZE;
        if fbn >= MAXFILE {
          return false;
        }
        var n1 := if n < (fbn + 1) * BSIZE - off then n else (fbn + 1) * BSIZE - off;
        ghost var mid := blocks;
        GrownMono(|c0|, off, off + n1);
        GrownMono(|c0|, off + n1, Least(|c0| + |data|, MAXFILE * BSIZE));
        din := AppendRound(inum, din, data[|data| - n..|data| - n + n1], off, n1, c0, data);
        OthersSameTwice(before, mid, blocks, dinode, inum);
        SameInodesTwice(sb, before, mid, blocks);
        n := n - n1;
        off := off + n1;
      }
      din := din.(size := off);
      AppendFinishes(sb, before, blocks, t, owner, inum, din, c0, data);
      SameInodesStore(sb, before, blocks, t);
      SoundStorable(sb, blocks, t[inum := din], owner, inum, t[inum]);
      WInode(inum, din);
      return true;
    }

    /** The last two steps: the root directory's size is rounded up to the next
        block, and the bitmap is written with the blocks handed out so far. Sizes
        and slots of the finished image agree exactly when the root directory did
        not end on a block boundary. False is the failed assertion that one bitmap
        block is enough. */
    method Finish(root: nat) returns (ok: bool)
      requires Building() && root < |dinode| && dinode[root].typ != 0
      modifies this`blocks, this`dinode
      ensures ok <==> freeblock < BPB
      ensures ok ==>
                && Stores(sb, blocks, dinode) && Sound(sb, blocks, dinode, owner) && FreeAreEmpty(dinode)
                && (AllFilled(blocks, dinode) <==> old(dinode)[root].size % BSIZE != 0)
    {
      hide GetWord, SlotAddr, Zero, Filled, Slots, AllFilled, Bits, UsedBit, Content, Stores, Storable;
      var din := RInode(root);
      ghost var t := dinode;
      AddrsLength(blocks, dinode, root);
      var off := din.size;
      off := (off / BSIZE + 1) * BSIZE;
      din := din.(size := off);
      RoundedSize(sb, blocks, t, owner, root, din);
      SoundStorable(sb, blocks, t[root := din], owner, root, t[root]);
      WInode(root, din);
      ghost var before := blocks;
      if freeblock >= BPB {
        return false;
      }
      var buf := Zero();
      forall bj | 0 <= bj < BPB
        ensures !UsedBit(buf, bj)
      {
        ZeroBit(bj);
      }
      var i := 0;
      while i < freeblock
        invariant 0 <= i <= freeblock
        invariant forall bj :: 0 <= bj < BPB ==> UsedBit(buf, bj) == (bj < i)
      {
        buf := MarkUsed(buf, i);
        i := i + 1;
      }
      blocks := blocks[sb.bmapstart := buf];
      SameInodesStore(sb, before, blocks, dinode);
      BitmapWritten(sb, before, blocks, dinode, owner, freeblock, buf);
      return true;
    }
  }

  /** A root directory of one full block of entries: the size says two blocks at the end,
      and there is one. */
  method FullRoot(sb: Super, entries: Block) returns (im: Image)
    requires sb.Valid(sb.size) && sb.ninodes > 1 && sb.Meta() < sb.size && sb.Meta() + 1 < BPB
    ensures fresh(im) && im.sb == sb && Stores(sb, im.blocks, im.dinode) && Sound(sb, im.blocks, im.dinode, im.owner)
    ensures !AllFilled(im.blocks, im.dinode)
  {
    hide Stores, AllFilled, Slots, Content, Zero;
    im := new Image(sb);
    StoresLength(sb, im.blocks, im.dinode);
    var root := im.IAlloc(T_DIR);
    GrownOne();
    var ok := im.IAppend(root, entries);
    ok := im.Finish(root);
  }

  lemma StoresLength(sb: Super, blocks: Disk, t: Table)
    requires Stores(sb, blocks, t)
    ensures |t| == sb.ninodes
  {}

  lemma GrownOne()
    ensures Grown(0, BSIZE) == 1
  {}

  function Least(a: nat, b: nat): nat {
    if a < b then a else b
  }

  lemma EmptyContent(blocks: Disk, ino: Inode)
    requires |ino.addrs| == 13 && ino.size == 0
    ensures Content(blocks, ino) == []
  {}

  lemma EmptyImage(sb: Super, blocks: Disk, t: Table)
    requires sb.Valid(|blocks|) && |t| == sb.ninodes && forall i :: 0 <= i < |t| ==> t[i] == FreeInode
    requires forall c :: 0 <= c < |blocks| ==> blocks[c] == Zero()
    ensures Slots(sb, blocks, t, map[]) && AllFilled(blocks, t) && Stores(sb, blocks, t)
  {
    hide GetWord, Filled, GetInode, Zero;
    forall i | 0 <= i < |t|
      ensures Stored(sb, blocks, i, t[i])
    {
      InodeBlock(sb, i, |blocks|);
      ZeroInode(i % IPB);
    }
    EmptyFilled(blocks, FreeInode);
    forall i, s | 0 <= i < |t| && 0 <= s < SLOTS
      ensures OwnsSlot(blocks, t[i], i, s, map[])
    {}
  }

  lemma KeptSelf(blocks: Disk, owner: Owner, i: nat)
    ensures Kept(blocks, owner, blocks, owner, i)
  {}

  lemma TableIndirect(sb: Super, blocks: Disk, t: Table, owner: Owner, i: nat, ino: Inode)
    requires i < |t| && |ino.addrs| == 13 && Slots(sb, blocks, t[i := ino], owner) && ino.addrs[INDIRECT] != 0
    ensures ino.addrs[INDIRECT] < |blocks|
  {
    IndirectOwned(sb, blocks, t[i := ino], owner, i);
  }

  lemma TableSlot(sb: Super, blocks: Disk, t: Table, owner: Owner, i: nat, ino: Inode, s: nat)
    requires i < |t| && |ino.addrs| == 13 && Slots(sb, blocks, t[i := ino], owner) && s < SLOTS
    requires SlotAddr(blocks, ino, s) != 0
    ensures SlotAddr(blocks, ino, s) < |blocks|
  {
    hide SlotAddr;
    assert OwnsSlot(blocks, t[i := ino][i], i, s, owner);
  }

  lemma DataWriteLaid(sb: Super, mid: Disk, t: Table, owner: Owner, i: nat, bn: nat, x: Block, sz: nat)
    requires Slots(sb, mid, t, owner) && i < |t| && bn < MAXFILE && SlotAddr(mid, t[i], DataSlot(bn)) != 0
    requires Filled(mid, t[i], sz)
    ensures var a := SlotAddr(mid, t[i], DataSlot(bn));
            && sb.Meta() <= a < |mid| && a in owner
            && Slots(sb, mid[a := x], t, owner) && Filled(mid[a := x], t[i], sz)
  {
    hide SlotAddr, DataAt;
    DataWrite(sb, mid, t, owner, i, bn, x);
    assert OwnsSlot(mid, t[i], i, DataSlot(bn), owner);
  }

  lemma StartAppend(sb: Super, blocks: Disk, t: Table, owner: Owner, i: nat, src: seq<Byte>)
    requires AllFilled(blocks, t) && i < |t|
    ensures t[i := t[i]] == t && |t[i].addrs| == 13
    ensures Writing(blocks, t[i], Content(blocks, t[i]), src, t[i].size, t[i].size)
    ensures Filled(blocks, t[i], t[i].size)
    ensures OthersSame(blocks, blocks, t, i) && Grown(t[i].size, t[i].size) == 0
  {
    hide Filled, SlotAddr, ByteAt;
    WritingStarts(blocks, t[i], src, t[i].size);
  }

  lemma AppendFinishes(sb: Super, before: Disk, after: Disk, t: Table, owner: Owner, i: nat, ino: Inode,
                       c0: seq<Byte>, src: seq<Byte>)
    requires i < |t| && |ino.addrs| == 13 && AllFilled(before, t) && OthersSame(before, after, t, i)
    requires Slots(sb, after, t[i := ino.(size := |c0|)], owner)
    requires ino.size == |c0| + |src| && Filled(after, ino.(size := |c0|), ino.size)
    requires Writing(after, ino.(size := |c0|), c0, src, |c0|, ino.size)
    ensures Slots(sb, after, t[i := ino], owner) && AllFilled(after, t[i := ino])
    ensures Content(after, ino) == c0 + src
    ensures forall j :: 0 <= j < |t| && j != i ==> Content(after, t[j]) == Content(before, t[j])
  {
    hide Filled, SlotAddr, ByteAt, Content, Writing, Slots;
    var small := ino.(size := |c0|);
    SizeIsFree(sb, after, t, owner, i, small, ino);
    FilledSameSlots(after, small, ino, ino.size);
    WritingSameSlots(after, small, ino, c0, src, |c0|, ino.size);
    WritingDone(after, ino, c0, src, |c0|);
    forall j | 0 <= j < |t| && j != i
      ensures Content(after, t[j]) == Content(before, t[j]) && Filled(after, t[j], t[j].size)
    {
      SameFileContent(before, after, t[j], t[j].size);
    }
  }

  /** Rounding a size up keeps the slots exact unless it enters a new block. */
  lemma RoundedSize(sb: Super, blocks: Disk, t: Table, owner: Owner, i: nat, ino: Inode)
    requires Slots(sb, blocks, t, owner) && AllFilled(blocks, t) && FreeAreEmpty(t)
    requires i < |t| && t[i].typ != 0 && ino == t[i].(size := (t[i].size / BSIZE + 1) * BSIZE)
    ensures Slots(sb, blocks, t[i := ino], owner) && FreeAreEmpty(t[i := ino])
    ensures AllFilled(blocks, t[i := ino]) <==> t[i].size % BSIZE != 0
  {
    hide SlotAddr, Slots;
    assert t[i := t[i]] == t;
    SizeIsFree(sb, blocks, t, owner, i, t[i], ino);
    var t' := t[i := ino];
    if t[i].size % BSIZE != 0 {
      FilledSameSlots(blocks, t[i], ino, t[i].size);
      FilledWithinBlock(blocks, ino, t[i].size, ino.size);
      assert AllFilled(blocks, t');
    } else if AllFilled(blocks, t') {
      assert Filled(blocks, t'[i], ino.size) && Filled(blocks, t[i], t[i].size);
      var bn := t[i].size / BSIZE;
      FilledSameSlots(blocks, t'[i], t[i], ino.size);
      if bn < MAXFILE {
        FilledAt(blocks, t[i], ino.size, bn);
        FilledAt(blocks, t[i], t[i].size, bn);
      }
      assert false;
    }
  }

  lemma BitmapWritten(sb: Super, before: Disk, after: Disk, t: Table, owner: Owner, used: nat, buf: Block)
    requires sb.Valid(|before|) && Slots(sb, before, t, owner) && sb.Meta() <= used < BPB && used <= sb.size
    requires forall b :: b in owner <==> sb.Meta() <= b < used
    requires forall c :: used <= c < |before| ==> before[c] == Zero()
    requires after == before[sb.bmapstart := buf]
    requires forall bj :: 0 <= bj < BPB ==> UsedBit(buf, bj) == (bj < used)
    requires forall c :: sb.bmapstart <= c < sb.Meta() ==> before[c] == Zero()
    ensures Sound(sb, after, t, owner)
    ensures AllFilled(after, t) <==> AllFilled(before, t)
  {
    hide SlotAddr, UsedBit, Zero;
    SlotsFrame(sb, before, after, t, owner);
    assert forall i, sz :: 0 <= i < |t| ==> (Filled(after, t[i], sz) <==> Filled(before, t[i], sz));
    forall b | 0 <= b < sb.size
      ensures InUse(sb, after, b) == (b < used)
    {
      if b >= BPB {
        ZeroBit(b % BPB);
      }
    }
  }

  lemma ZeroBit(bi: nat)
    requires bi < BPB
    ensures !UsedBit(Zero(), bi)
  {
    ZeroHasNoBits(bi % 8);
  }

  lemma {:induction false} ZeroHasNoBits(k: nat)
    ensures !Bit(0, k)
  {
    if k > 0 {
      ZeroHasNoBits(k - 1);
    }
  }
}
