/** Disk blocks as bytes, the 32-bit little-endian words packed in them, and
    whole disks as sequences of blocks updated one block write at a time. */
module Blocks {

  const BSIZE: nat := 512
  const WORDS: nat := 128

  type Byte = x: int | 0 <= x < 256
  type Word = x: int | 0 <= x < 0x1_0000_0000
  type Block = b: seq<Byte> | |b| == BSIZE witness seq(BSIZE, _ => 0)
  type Disk = seq<Block>

  function Zero(): Block {
    seq(BSIZE, _ => 0)
  }

  /** The `j`-th 32-bit word of a block, least significant byte first. */
  function GetWord(b: Block, j: nat): Word
    requires j < WORDS
  {
    b[4 * j] as int + 0x100 * (b[4 * j + 1] as int) +
    0x1_0000 * (b[4 * j + 2] as int) + 0x100_0000 * (b[4 * j + 3] as int)
  }

  /** Stores a 32-bit word; every other word of the block keeps its value. */
  function PutWord(b: Block, j: nat, v: Word): (r: Block)
    requires j < WORDS
    ensures GetWord(r, j) == v
    ensures forall i :: 0 <= i < WORDS && i != j ==> GetWord(r, i) == GetWord(b, i)
  {
    var v1 := v / 0x100;
    var v2 := v1 / 0x100;
    b[4 * j := v % 0x100][4 * j + 1 := v1 % 0x100][4 * j + 2 := v2 % 0x100][4 * j + 3 := v2 / 0x100]
  }

  /** One block write handed to the disk driver. Block writes are atomic. */
  datatype Write = Write(no: nat, data: Block)

  predicate Fits(ws: seq<Write>, size: nat) {
    forall i :: 0 <= i < |ws| ==> ws[i].no < size
  }

  /** The disk after the writes `ws`, first to last. */
  function ApplyAll(d: Disk, ws: seq<Write>): (r: Disk)
    requires Fits(ws, |d|)
    ensures |r| == |d|
  {
    if ws == [] then d
    else
      var w := ws[|ws| - 1];
      ApplyAll(d, ws[..|ws| - 1])[w.no := w.data]
  }

  /** Any first part of a list of writes can be done, and the empty part does nothing. */
  lemma ApplyAllStart(d: Disk, ws: seq<Write>)
    requires Fits(ws, |d|)
    ensures forall k :: 0 <= k <= |ws| ==> Fits(ws[..k], |d|)
    ensures ApplyAll(d, ws[..0]) == d
  {}

  /** One more write of a list. */
  lemma ApplyAllNext(d: Disk, ws: seq<Write>, k: nat)
    requires Fits(ws, |d|) && k < |ws|
    ensures Fits(ws[..k], |d|) && Fits(ws[..k + 1], |d|)
    ensures ApplyAll(d, ws[..k + 1]) == ApplyAll(d, ws[..k])[ws[k].no := ws[k].data]
    ensures ws[..k + 1] == ws[..k] + [ws[k]]
  {
    assert ws[..k + 1][..k] == ws[..k];
  }

  /** Writes done in two batches are the writes done in one. */
  lemma {:induction false} ApplyAllSplit(d: Disk, p: seq<Write>, q: seq<Write>)
    requires Fits(p, |d|) && Fits(q, |d|)
    ensures Fits(p + q, |d|)
    ensures ApplyAll(d, p + q) == ApplyAll(ApplyAll(d, p), q)
  {
    if q == [] {
      assert p + q == p;
    } else {
      var q' := q[..|q| - 1];
      ApplyAllSplit(d, p, q');
      assert (p + q)[..|p + q| - 1] == p + q';
    }
  }

  /** A block nobody writes keeps its contents. */
  lemma {:induction false} ApplyAllSkips(d: Disk, ws: seq<Write>, b: nat)
    requires Fits(ws, |d|) && b < |d|
    requires forall i :: 0 <= i < |ws| ==> ws[i].no != b
    ensures ApplyAll(d, ws)[b] == d[b]
  {
    if ws != [] {
      ApplyAllSkips(d, ws[..|ws| - 1], b);
    }
  }

  /** Writing what is already there changes nothing. */
  lemma {:induction false} ApplyAllSame(d: Disk, ws: seq<Write>)
    requires Fits(ws, |d|)
    requires forall i :: 0 <= i < |ws| ==> ws[i].data == d[ws[i].no]
    ensures ApplyAll(d, ws) == d
  {
    if ws != [] {
      ApplyAllSame(d, ws[..|ws| - 1]);
    }
  }

  /** The last write to a block decides its contents. */
  lemma {:induction false} ApplyAllLast(d: Disk, ws: seq<Write>, i: nat)
    requires Fits(ws, |d|) && i < |ws|
    requires forall j :: i < j < |ws| ==> ws[j].no != ws[i].no
    ensures ApplyAll(d, ws)[ws[i].no] == ws[i].data
  {
    if i < |ws| - 1 {
      ApplyAllLast(d, ws[..|ws| - 1], i);
    }
  }

  /** Whether a block is among those written decides whether the disk the
      writes started from still matters for it. */
  lemma {:induction false} ApplyAllForgets(d: Disk, e: Disk, ws: seq<Write>, b: nat)
    requires |d| == |e| && Fits(ws, |d|) && b < |d|
    requires d[b] == e[b] || exists i :: 0 <= i < |ws| && ws[i].no == b
    ensures ApplyAll(d, ws)[b] == ApplyAll(e, ws)[b]
  {
    if ws != [] && ws[|ws| - 1].no != b {
      ApplyAllForgets(d, e, ws[..|ws| - 1], b);
    }
  }

  /** Redoing a batch of writes after a part of it was done ends on the same
      disk as doing it once: the heart of redo logging. */
  lemma ApplyAllRedo(d: Disk, ws: seq<Write>, k: nat)
    requires Fits(ws, |d|) && k <= |ws|
    ensures ApplyAll(ApplyAll(d, ws[..k]), ws) == ApplyAll(d, ws)
  {
    var e := ApplyAll(d, ws[..k]);
    forall b | 0 <= b < |d|
      ensures ApplyAll(e, ws)[b] == ApplyAll(d, ws)[b]
    {
      if forall i :: 0 <= i < k ==> ws[i].no != b {
        ApplyAllSkips(d, ws[..k], b);
      }
      ApplyAllForgets(e, d, ws, b);
    }
  }

  lemma Regroup(w: seq<Write>, p: seq<Write>, q: seq<Write>, r: seq<Write>)
    ensures w + p + q + r == w + (p + q + r)
  {}
}
