/** Buffers of the block cache as values: the doubly linked list that orders them,
    and what the cache and the disk together say each block holds. */
module Buffers {
  import opened Blocks
  import RedoLog

  const NBUF: nat := RedoLog.MAXOPBLOCKS * 3

  /** The list head, `bcache.head`, comes after the buffers proper. */
  const HEAD: nat := NBUF

  datatype Key = Key(dev: nat, blockno: nat)

  /** `locked` is the buffer's sleep lock and `pid` the process that has it; `prev` and
      `next` are positions in the array of buffers. */
  datatype Buf = Buf(key: Key, valid: bool, dirty: bool, refcnt: nat, locked: bool, pid: nat, data: Block, prev: nat, next: nat) {
    /** `holdingsleep` by process `me`. */
    predicate HeldBy(me: nat) {
      locked && pid == me
    }
  }

  // ----- the list

  /** The `i`th buffer of the list, with the head before and after it. */
  function Nth(order: seq<nat>, i: int): nat {
    if 0 <= i < |order| then order[i] else HEAD
  }

  ghost predicate Distinct(order: seq<nat>) {
    && (forall i :: 0 <= i < |order| ==> order[i] < NBUF)
    && (forall i, j :: 0 <= i < j < |order| ==> order[i] != order[j])
  }

  /** The pointers run through exactly `order`, both ways, and back to the head. */
  ghost predicate Linked(bs: seq<Buf>, order: seq<nat>) {
    && |bs| == NBUF + 1 && Distinct(order)
    && forall i :: 0 <= i <= |order| ==> Joined(bs, order, i)
  }

  ghost predicate Joined(bs: seq<Buf>, order: seq<nat>, i: nat)
    requires |bs| == NBUF + 1 && Distinct(order)
  {
    bs[Nth(order, i - 1)].next == Nth(order, i) && bs[Nth(order, i)].prev == Nth(order, i - 1)
  }

  function SetNext(bs: seq<Buf>, b: nat, n: nat): seq<Buf>
    requires b < |bs|
  {
    bs[b := bs[b].(next := n)]
  }

  function SetPrev(bs: seq<Buf>, b: nat, p: nat): seq<Buf>
    requires b < |bs|
  {
    bs[b := bs[b].(prev := p)]
  }

  /** Take `b` out of the list. */
  function Unlink(bs: seq<Buf>, b: nat): seq<Buf>
    requires b < |bs| && bs[b].next < |bs| && bs[b].prev < |bs| && bs[b].next != b
  {
    var u := SetPrev(bs, bs[b].next, bs[b].prev);
    SetNext(u, u[b].prev, u[b].next)
  }

  /** Put `b` right after the head. */
  function PushFront(bs: seq<Buf>, b: nat): seq<Buf>
    requires |bs| == NBUF + 1 && b < NBUF && bs[HEAD].next < |bs|
  {
    var u := SetPrev(SetNext(bs, b, bs[HEAD].next), b, HEAD);
    SetNext(SetPrev(u, u[HEAD].next, b), HEAD, b)
  }

  lemma JoinedAt(bs: seq<Buf>, order: seq<nat>, p: nat)
    requires Linked(bs, order) && p < |order|
    ensures bs[order[p]].prev == Nth(order, p - 1) && bs[order[p]].next == Nth(order, p + 1)
    ensures bs[order[p]].next != order[p] && bs[order[p]].prev != order[p]
  {
    assert Joined(bs, order, p) && Joined(bs, order, p + 1);
  }

  lemma UnlinkKeeps(bs: seq<Buf>, order: seq<nat>, p: nat)
    requires Linked(bs, order) && p < |order|
    ensures var b := order[p];
            && bs[b].next < |bs| && bs[b].prev < |bs| && bs[b].next != b
            && Linked(Unlink(bs, b), order[..p] + order[p + 1..])
  {
    JoinedAt(bs, order, p);
    var b := order[p];
    var t, rest := Unlink(bs, b), order[..p] + order[p + 1..];
    forall i | 0 <= i <= |rest|
      ensures Joined(t, rest, i)
    {
      if i < p {
        assert Joined(bs, order, i);
      } else if i > p {
        assert Joined(bs, order, i + 1);
      } else {
        assert Nth(rest, i) == Nth(order, p + 1) && Nth(rest, i - 1) == Nth(order, p - 1);
      }
    }
  }

  lemma PushFrontKeeps(bs: seq<Buf>, order: seq<nat>, b: nat)
    requires Linked(bs, order) && b < NBUF && b !in order
    ensures bs[HEAD].next < |bs| && Linked(PushFront(bs, b), [b] + order)
  {
    assert Joined(bs, order, 0);
    var t, all := PushFront(bs, b), [b] + order;
    forall i | 0 <= i <= |all|
      ensures Joined(t, all, i)
    {
      if i > 1 {
        assert Joined(bs, order, i - 1);
      }
      assert Nth(all, i) == if i == 0 then b else Nth(order, i - 1);
      assert Nth(all, i - 1) == if i == 0 then HEAD else if i == 1 then b else Nth(order, i - 2);
    }
  }

  /** The pointers say nothing about anything but the list. */
  lemma LinkedSame(bs: seq<Buf>, t: seq<Buf>, order: seq<nat>)
    requires Linked(bs, order) && |t| == |bs|
    requires forall i :: 0 <= i < |bs| ==> t[i].prev == bs[i].prev && t[i].next == bs[i].next
    ensures Linked(t, order)
  {
    forall i | 0 <= i <= |order|
      ensures Joined(t, order, i)
    {
      assert Joined(bs, order, i);
    }
  }

  // ----- contents

  type Store = map<Key, Block>

  ghost predicate Caches(bs: seq<Buf>, k: Key, i: int) {
    0 <= i < NBUF && i < |bs| && bs[i].valid && bs[i].key == k
  }

  /** A buffer nobody has used yet. They all claim to be block 0 of device 0. */
  predicate Fallow(b: Buf) {
    b.key == Key(0, 0) && !b.valid && !b.dirty && b.refcnt == 0 && !b.locked
  }

  /** Apart from those, buffers have different keys. */
  ghost predicate UniqueKeys(bs: seq<Buf>) {
    |bs| == NBUF + 1 && forall i, j :: 0 <= i < NBUF && 0 <= j < NBUF && i != j && bs[i].key == bs[j].key ==> Fallow(bs[i]) || Fallow(bs[j])
  }

  /** A buffer that really is block 0 of device 0 comes before those that only claim it. */
  ghost predicate FirstOfAll(bs: seq<Buf>, order: seq<nat>)
    requires |bs| == NBUF + 1 && Distinct(order)
  {
    forall p, q :: 0 <= p < q < |order| && bs[order[q]].key == Key(0, 0) && !Fallow(bs[order[q]]) ==> bs[order[p]].key != Key(0, 0)
  }

  /** One buffer changed, keeping its key, and did not come into use. */
  lemma FirstStays(bs: seq<Buf>, t: seq<Buf>, order: seq<nat>)
    requires |bs| == |t| == NBUF + 1 && Distinct(order) && FirstOfAll(bs, order)
    requires forall i :: 0 <= i < NBUF ==> t[i].key == bs[i].key && (Fallow(bs[i]) ==> Fallow(t[i]))
    ensures FirstOfAll(t, order)
  {}

  /** What a block holds: its valid buffer if there is one, else the disk. */
  ghost function Holds(bs: seq<Buf>, disk: Store, k: Key): Block
    requires k in disk
  {
    if exists i :: Caches(bs, k, i) then
      var i :| Caches(bs, k, i);
      bs[i].data
    else disk[k]
  }

  ghost function View(bs: seq<Buf>, disk: Store): map<Key, Block> {
    map k | k in disk :: Holds(bs, disk, k)
  }

  lemma HoldsCached(bs: seq<Buf>, disk: Store, k: Key, i: nat)
    requires UniqueKeys(bs) && k in disk && Caches(bs, k, i)
    ensures Holds(bs, disk, k) == bs[i].data
  {}

  /** What keeps cache and disk in step. */
  ghost predicate Coherent(bs: seq<Buf>, disk: Store) {
    UniqueKeys(bs) && forall i :: 0 <= i < NBUF ==> InStep(bs[i], disk)
  }

  ghost predicate InStep(b: Buf, disk: Store) {
    && (b.valid || b.dirty || b.refcnt > 0 ==> b.key in disk)
    && (b.dirty && !b.locked ==> b.valid)
    && (b.locked ==> b.refcnt > 0)
    && (b.valid && !b.dirty && !b.locked ==> b.data == disk[b.key])
  }

  /** Buffer `v` now has another key and holds nothing: no block changed. */
  lemma RecycleKeeps(bs: seq<Buf>, disk: Store, v: nat, b: Buf)
    requires Coherent(bs, disk) && v < NBUF && bs[v].refcnt == 0 && !bs[v].dirty
    requires b.key in disk && !b.valid && !b.dirty && !b.locked
    requires forall i :: 0 <= i < NBUF ==> bs[i].key != b.key
    ensures Coherent(bs[v := b], disk) && View(bs[v := b], disk) == View(bs, disk)
  {
    var t := bs[v := b];
    assert InStep(bs[v], disk);
    assert UniqueKeys(t);
    forall k | k in disk
      ensures Holds(t, disk, k) == Holds(bs, disk, k)
    {
      if i :| Caches(t, k, i) {
        assert Caches(bs, k, i);
        HoldsCached(t, disk, k, i);
        HoldsCached(bs, disk, k, i);
      } else if i :| Caches(bs, k, i) {
        HoldsCached(bs, disk, k, i);
        assert i == v || Caches(t, k, i);
      }
    }
  }

  /** Buffer `v` keeps its key and is valid now, with `b.data` for its block. */
  lemma UpdateKeeps(bs: seq<Buf>, disk: Store, t: seq<Buf>, disk': Store, v: nat)
    requires Coherent(bs, disk) && v < NBUF && |t| == |bs| && (forall i :: 0 <= i < |bs| && i != v ==> t[i] == bs[i])
    requires !Fallow(bs[v]) && t[v].key == bs[v].key && t[v].valid && bs[v].key in disk && InStep(t[v], disk')
    requires disk' == disk || disk' == disk[bs[v].key := t[v].data]
    ensures Coherent(t, disk') && View(t, disk') == View(bs, disk)[bs[v].key := t[v].data]
  {
    var key := bs[v].key;
    forall i | 0 <= i < NBUF
      ensures InStep(t[i], disk')
    {
      assert InStep(bs[i], disk);
    }
    forall k | k in disk
      ensures Holds(t, disk', k) == if k == key then t[v].data else Holds(bs, disk, k)
    {
      if k == key {
        assert Caches(t, k, v);
        HoldsCached(t, disk', k, v);
      } else if i :| Caches(bs, k, i) {
        assert Caches(t, k, i);
        HoldsCached(t, disk', k, i);
        HoldsCached(bs, disk, k, i);
      } else {
        assert forall i :: Caches(t, k, i) ==> Caches(bs, k, i);
      }
    }
    assert View(t, disk').Keys == View(bs, disk)[key := t[v].data].Keys;
  }

  /** Counts, locks and pointers changed, contents did not. */
  lemma SameContents(bs: seq<Buf>, disk: Store, t: seq<Buf>)
    requires Coherent(bs, disk) && |t| == |bs|
    requires UniqueKeys(t) && forall i :: 0 <= i < NBUF ==> SameContent(bs[i], t[i]) && InStep(t[i], disk)
    ensures Coherent(t, disk) && View(t, disk) == View(bs, disk)
  {
    assert forall i :: 0 <= i < NBUF ==> SameContent(bs[i], t[i]);
    forall k | k in disk
      ensures Holds(t, disk, k) == Holds(bs, disk, k)
    {
      if i :| Caches(bs, k, i) {
        assert SameContent(bs[i], t[i]);
        assert Caches(t, k, i);
        HoldsCached(t, disk, k, i);
        HoldsCached(bs, disk, k, i);
      } else {
        assert forall i :: Caches(t, k, i) ==> Caches(bs, k, i);
      }
    }
  }

  ghost predicate SameContent(b: Buf, c: Buf) {
    c.key == b.key && c.valid == b.valid && c.dirty == b.dirty && c.data == b.data
  }

  /** An invalid buffer's block is what the disk has. */
  lemma HoldsOnDisk(bs: seq<Buf>, disk: Store, i: nat)
    requires UniqueKeys(bs) && i < NBUF && bs[i].key in disk && !bs[i].valid && !Fallow(bs[i])
    ensures Holds(bs, disk, bs[i].key) == disk[bs[i].key]
  {}
}
