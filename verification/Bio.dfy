/** The buffer cache of bio.c. Each method is what one process does without another
    coming in between; processes interleave them at will. */
module Bio {
  import opened Blocks
  import opened Buffers

  datatype GetResult = Got(buf: nat) | NoBuffers

  class BufferCache {
    const bufs: array<Buf>
    var disk: Store

    /** The list of buffers, most recently released first, and when each was last
        left by its last user. */
    ghost var order: seq<nat>
    ghost var stamp: seq<nat>
    ghost var clock: nat

    /** Processes that have a buffer's count but not yet its lock, and processes that
        have given up its lock but not yet its count. */
    ghost var waiting: seq<nat>
    ghost var leaving: seq<nat>

    ghost predicate Valid()
      reads this, bufs
    {
      && bufs.Length == NBUF + 1 && |waiting| == NBUF && |leaving| == NBUF && |stamp| == NBUF && Distinct(order)
      && Linked(bufs[..], order) && |order| == NBUF && FirstOfAll(bufs[..], order)
      && Stamped(order, stamp, clock)
      && Counted(bufs[..], waiting, leaving)
      && Coherent(bufs[..], disk)
    }

    /** What every block of the disk holds, as its users see it. */
    ghost function Blocks(): map<Key, Block>
      reads this, bufs
    {
      View(bufs[..], disk)
    }

    // ----- binit

    constructor (disk: Store)
      ensures Valid() && fresh(bufs) && this.disk == disk && waiting == leaving == seq(NBUF, i => 0)
      ensures forall k :: k in disk ==> k in Blocks() && Blocks()[k] == disk[k]
    {
      bufs := new Buf[NBUF + 1](i => Buf(Key(0, 0), false, false, 0, false, 0, Zero(), 0, 0));
      this.disk := disk;
      order := [];
      stamp, clock := seq(NBUF, i => i), NBUF;
      waiting, leaving := seq(NBUF, i => 0), seq(NBUF, i => 0);
      new;
      assert AllUnused(bufs[..]);
      hide Linked, Stamped, Counted, Coherent, View, PushFront, Unused;
      bufs[HEAD] := bufs[HEAD].(prev := HEAD);
      bufs[HEAD] := bufs[HEAD].(next := HEAD);
      EmptyList(bufs[..]);
      var b := 0;
      while b < NBUF
        invariant b <= NBUF && bufs.Length == NBUF + 1
        invariant Linked(bufs[..], order) && order == Down(b)
        invariant AllUnused(bufs[..])
        invariant this.disk == disk && stamp == seq(NBUF, i => i) && clock == NBUF
        invariant waiting == leaving == seq(NBUF, i => 0)
      {
        BootStep(bufs[..], b);
        PushHead(b);
        order := [b] + order;
        b := b + 1;
      }
      BootState(bufs[..], disk, stamp, waiting, leaving);
    }

    /** Put a buffer right after the head. */
    method PushHead(b: nat)
      requires bufs.Length == NBUF + 1 && b < NBUF && bufs[HEAD].next <= HEAD
      modifies bufs
      ensures bufs[..] == PushFront(old(bufs[..]), b)
    {
      bufs[b] := bufs[b].(next := bufs[HEAD].next);
      bufs[b] := bufs[b].(prev := HEAD);
      bufs[bufs[HEAD].next] := bufs[bufs[HEAD].next].(prev := b);
      bufs[HEAD] := bufs[HEAD].(next := b);
    }

    // ----- iderw

    /** Bring a buffer and the disk into step. */
    method IdeRw(b: nat)
      requires Valid() && b < NBUF && bufs[b].locked && !(bufs[b].valid && !bufs[b].dirty)
      modifies this`disk, bufs
      ensures Valid()
      ensures bufs[..] == old(bufs[..])[b := bufs[b]] && bufs[b] == old(bufs[b]).(valid := true, dirty := false, data := bufs[b].data)
      ensures bufs[b].key in disk && bufs[b].data == disk[bufs[b].key]
      ensures old(bufs[b]).dirty ==> bufs[b].data == old(bufs[b]).data
      ensures disk == if old(bufs[b]).dirty then old(disk)[bufs[b].key := bufs[b].data] else old(disk)
      ensures Blocks() == if old(bufs[b]).dirty then old(Blocks())[bufs[b].key := bufs[b].data] else old(Blocks())
    {
      hide Linked, Stamped, Counted, Coherent, View;
      ghost var was := bufs[..];
      InStepAt(was, disk, b);
      if bufs[b].dirty {
        disk := disk[bufs[b].key := bufs[b].data];
        bufs[b] := bufs[b].(dirty := false, valid := true);
      } else {
        bufs[b] := bufs[b].(data := disk[bufs[b].key], valid := true);
      }
      LinkedSame(was, bufs[..], order);
      CountedSame(was, bufs[..], waiting, leaving);
      UpdateKeeps(was, old(disk), bufs[..], disk, b);
      if !old(bufs[b]).dirty {
        ViewOfInvalid(was, old(disk), b);
      }
    }

    // ----- bread and bwrite

    /** `bread`, once it has the buffer and its lock. Only `BWrite` makes a buffer
        dirty before it is valid, and it writes it at once. */
    method Fill(b: nat)
      requires Valid() && b < NBUF && bufs[b].locked && (bufs[b].dirty ==> bufs[b].valid)
      modifies this`disk, bufs
      ensures Valid() && bufs[..] == old(bufs[..])[b := bufs[b]] && disk == old(disk) && Blocks() == old(Blocks())
      ensures bufs[b] == old(bufs[b]).(valid := true, data := bufs[b].data)
      ensures bufs[b].key in Blocks() && bufs[b].data == Blocks()[bufs[b].key]
    {
      hide Linked, Stamped, Counted, Coherent;
      if !bufs[b].valid {
        IdeRw(b);
      }
      ViewOfValid(bufs[..], disk, b);
    }

    /** `bwrite` by process `me`; false is the panic of a process that does not have the
        buffer's lock. */
    method BWrite(b: nat, me: nat) returns (ok: bool)
      requires Valid() && b < NBUF
      modifies this`disk, bufs
      ensures Valid() && ok == old(bufs[b]).HeldBy(me)
      ensures !ok ==> bufs[..] == old(bufs[..]) && disk == old(disk)
      ensures ok ==> bufs[..] == old(bufs[..])[b := old(bufs[b]).(valid := true, dirty := false)]
      ensures ok ==> disk == old(disk)[bufs[b].key := bufs[b].data] && Blocks() == old(Blocks())[bufs[b].key := bufs[b].data]
    {
      hide Linked, Stamped, Counted, Coherent, View;
      ok := bufs[b].HeldBy(me);
      if ok {
        ghost var was := bufs[..];
        InStepAt(was, disk, b);
        bufs[b] := bufs[b].(dirty := true);
        LinkedSame(was, bufs[..], order);
        CountedSame(was, bufs[..], waiting, leaving);
        DirtyKeeps(was, disk, bufs[..], b);
        IdeRw(b);
      }
    }

    // ----- what a user does with a buffer it has locked

    method Modify(b: nat, data: Block)
      requires Valid() && b < NBUF && bufs[b].locked && bufs[b].valid
      modifies bufs
      ensures Valid() && bufs[..] == old(bufs[..])[b := old(bufs[b]).(data := data)]
      ensures Blocks() == old(Blocks())[bufs[b].key := data]
    {
      hide Linked, Stamped, Counted, Coherent, View;
      ghost var was := bufs[..];
      InStepAt(was, disk, b);
      bufs[b] := bufs[b].(data := data);
      LinkedSame(was, bufs[..], order);
      CountedSame(was, bufs[..], waiting, leaving);
      UpdateKeeps(was, disk, bufs[..], disk, b);
    }

    /** `log_write` pins the buffer: it is not recycled before it is written. */
    method Pin(b: nat)
      requires Valid() && b < NBUF && bufs[b].locked && bufs[b].valid
      modifies bufs
      ensures Valid() && bufs[..] == old(bufs[..])[b := old(bufs[b]).(dirty := true)] && Blocks() == old(Blocks())
    {
      hide Linked, Stamped, Counted, Coherent, View;
      ghost var was := bufs[..];
      InStepAt(was, disk, b);
      bufs[b] := bufs[b].(dirty := true);
      LinkedSame(was, bufs[..], order);
      CountedSame(was, bufs[..], waiting, leaving);
      UpdateKeeps(was, disk, bufs[..], disk, b);
      ViewOfValid(was, disk, b);
    }

    // ----- bget

    method BGet(dev: nat, blockno: nat) returns (r: GetResult)
      requires Valid() && Key(dev, blockno) in disk
      modifies this`waiting, bufs
      ensures Valid() && Blocks() == old(Blocks())
      ensures match r
              case NoBuffers =>
                && bufs[..] == old(bufs[..]) && waiting == old(waiting)
                && forall i :: 0 <= i < NBUF ==> bufs[i].key != Key(dev, blockno) && !Free(bufs[i])
              case Got(b) =>
                && b < NBUF && waiting == old(waiting)[b := old(waiting)[b] + 1]
                && bufs[..] == old(bufs[..])[b := bufs[b]]
                && if old(bufs[b]).key == Key(dev, blockno) then bufs[b] == old(bufs[b]).(refcnt := old(bufs[b]).refcnt + 1)
                   else
                     && (forall i :: 0 <= i < NBUF ==> old(bufs[i]).key != Key(dev, blockno))
                     && Free(old(bufs[b])) && (forall i :: 0 <= i < NBUF && i != b && Free(old(bufs[i])) ==> stamp[i] > stamp[b])
                     && bufs[b] == old(bufs[b]).(key := Key(dev, blockno), valid := false, dirty := false, refcnt := 1)
    {
      hide Linked, Stamped, Counted, Coherent, View, FirstOfAll, IsFirst, Alone;
      ghost var was := bufs[..];
      var b;
      ghost var p;
      b, p := Lookup(Key(dev, blockno));
      if b != HEAD {
        FirstAlone(was, disk, order, b, p);
        bufs[b] := bufs[b].(refcnt := bufs[b].refcnt + 1);
        waiting := waiting[b := waiting[b] + 1];
        TakeKeeps(was, disk, bufs[..], order, old(waiting), waiting, leaving, b);
        FirstTaken(was, bufs[..], order, b, p);
        return Got(b);
      }
      b := Victim();
      if b == HEAD {
        return NoBuffers;
      }
      bufs[b] := bufs[b].(key := Key(dev, blockno));
      bufs[b] := bufs[b].(valid := false, dirty := false);
      bufs[b] := bufs[b].(refcnt := 1);
      waiting := waiting[b := waiting[b] + 1];
      FreeUncounted(was, old(waiting), leaving, disk, b);
      LinkedSame(was, bufs[..], order);
      RecycleCounted(was, bufs[..], old(waiting), waiting, leaving, b);
      RecycleKeeps(was, disk, b, bufs[b]);
      FirstRecycled(was, bufs[..], order, b);
      return Got(b);
    }

    /** The first buffer in the list with this key, or the head; `p` is its place. */
    method Lookup(key: Key) returns (b: nat, ghost p: nat)
      requires Valid()
      ensures b <= HEAD && (b < NBUF ==> bufs[b].key == key && IsFirst(bufs[..], order, b, p))
      ensures b == HEAD ==> forall i :: 0 <= i < NBUF ==> bufs[i].key != key
    {
      hide Stamped, Counted, Coherent;
      b := bufs[HEAD].next;
      ghost var i := 0;
      assert Joined(bufs[..], order, 0);
      while b != HEAD
        invariant 0 <= i <= NBUF && b == Nth(order, i)
        invariant forall j :: 0 <= j < i ==> bufs[order[j]].key != key
        decreases NBUF - i
      {
        if bufs[b].key == key {
          p := i;
          return;
        }
        JoinedAt(bufs[..], order, i);
        b := bufs[b].next;
        i := i + 1;
      }
      p := 0;
      forall k | 0 <= k < NBUF
        ensures bufs[k].key != key
      {
        EveryBuffer(bufs[..], order, k);
      }
    }

    /** The least recently released buffer that is clean and in nobody's use, or the
        head. */
    method Victim() returns (b: nat)
      requires Valid()
      ensures b <= HEAD && (b < NBUF ==> Free(bufs[b]) && forall i :: 0 <= i < NBUF && i != b && Free(bufs[i]) ==> stamp[i] > stamp[b])
      ensures b == HEAD ==> forall i :: 0 <= i < NBUF ==> !Free(bufs[i])
    {
      hide Counted, Coherent;
      b := bufs[HEAD].prev;
      ghost var i := NBUF - 1;
      assert Joined(bufs[..], order, NBUF);
      while b != HEAD
        invariant -1 <= i < NBUF && b == Nth(order, i)
        invariant forall j :: i < j < NBUF ==> !Free(bufs[order[j]])
        decreases i
      {
        if bufs[b].refcnt == 0 && !bufs[b].dirty {
          OldestFree(bufs[..], order, stamp, clock, i);
          return;
        }
        JoinedAt(bufs[..], order, i);
        b := bufs[b].prev;
        i := i - 1;
      }
      OldestFree(bufs[..], order, stamp, clock, -1);
    }

    // ----- the lock of a buffer

    /** `acquiresleep` when nobody has the lock; otherwise the process goes on waiting. */
    method TryLock(b: nat, me: nat) returns (ok: bool)
      requires Valid() && b < NBUF && waiting[b] > 0
      modifies this`waiting, bufs
      ensures Valid() && Blocks() == old(Blocks()) && ok == !old(bufs[b]).locked
      ensures bufs[..] == if ok then old(bufs[..])[b := old(bufs[b]).(locked := true, pid := me)] else old(bufs[..])
      ensures waiting == if ok then old(waiting)[b := old(waiting)[b] - 1] else old(waiting)
    {
      hide Linked, Stamped, Counted, Coherent, View;
      ok := !bufs[b].locked;
      if ok {
        ghost var was := bufs[..];
        bufs[b] := bufs[b].(locked := true, pid := me);
        waiting := waiting[b := waiting[b] - 1];
        CountAt(was, old(waiting), leaving, b);
        LockKeeps(was, disk, bufs[..], order, old(waiting), waiting, leaving, b);
      }
    }

    /** The first half of `brelse` by process `me`; false is the panic of a process that does
        not have the buffer's lock. Its user must have written or pinned what it changed. */
    method Unlock(b: nat, me: nat) returns (ok: bool)
      requires Valid() && b < NBUF
      requires bufs[b].HeldBy(me) ==> Settled(bufs[b], disk)
      modifies this`leaving, bufs
      ensures Valid() && Blocks() == old(Blocks()) && ok == old(bufs[b]).HeldBy(me)
      ensures bufs[..] == if ok then old(bufs[..])[b := old(bufs[b]).(locked := false, pid := 0)] else old(bufs[..])
      ensures leaving == if ok then old(leaving)[b := old(leaving)[b] + 1] else old(leaving)
    {
      hide Linked, Stamped, Counted, Coherent, View;
      ok := bufs[b].HeldBy(me);
      if ok {
        ghost var was := bufs[..];
        bufs[b] := bufs[b].(locked := false, pid := 0);
        leaving := leaving[b := leaving[b] + 1];
        UnlockKeeps(was, disk, bufs[..], order, waiting, old(leaving), leaving, b);
      }
    }

    /** The second half of `brelse`: the last user moves the buffer to the front. */
    method Unref(b: nat)
      requires Valid() && b < NBUF && leaving[b] > 0
      modifies this`leaving, this`order, this`stamp, this`clock, bufs
      ensures Valid() && Blocks() == old(Blocks())
      ensures leaving == old(leaving)[b := old(leaving)[b] - 1] && bufs[b].refcnt == old(bufs[b]).refcnt - 1
      ensures forall i :: 0 <= i < NBUF ==> SameContent(old(bufs[i]), bufs[i]) && (i != b ==> bufs[i].refcnt == old(bufs[i]).refcnt)
      ensures bufs[b].refcnt > 0 ==> order == old(order) && stamp == old(stamp)
      ensures bufs[b].refcnt == 0 ==> order == [b] + Without(old(order), b) && stamp == old(stamp)[b := old(clock)] && clock == old(clock) + 1
    {
      hide Linked, Stamped, Counted, Coherent, View, PushFront, Unlink, FirstOfAll, Without, Alone, Fallow;
      ghost var was := bufs[..];
      CountAt(was, waiting, leaving, b);
      bufs[b] := bufs[b].(refcnt := bufs[b].refcnt - 1);
      leaving := leaving[b := leaving[b] - 1];
      UnrefKeeps(was, disk, bufs[..], order, waiting, old(leaving), leaving, b);
      UsedAlone(was, disk, b);
      FirstKeeps(was, bufs[..], order, b);
      if bufs[b].refcnt == 0 {
        ghost var mid := bufs[..];
        ToFront(mid, order, b);
        Detach(b);
        PushHead(b);
        RelinkKeeps(mid, disk, bufs[..], waiting, leaving);
        AloneStays(was, mid, b);
        FirstMoved(mid, bufs[..], order, b);
        RestampKeeps(order, stamp, clock, b);
        order, stamp, clock := [b] + Without(order, b), stamp[b := clock], clock + 1;
      }
    }

    /** Take a buffer out of the list. */
    method Detach(b: nat)
      requires bufs.Length == NBUF + 1 && b < NBUF && bufs[b].next <= HEAD && bufs[b].prev <= HEAD && bufs[b].next != b
      modifies bufs
      ensures bufs[..] == Unlink(old(bufs[..]), b)
    {
      bufs[bufs[b].next] := bufs[bufs[b].next].(prev := bufs[b].prev);
      bufs[bufs[b].prev] := bufs[bufs[b].prev].(next := bufs[b].next);
    }
  }

  predicate Free(b: Buf) {
    b.refcnt == 0 && !b.dirty
  }

  /** The buffer may be given up: what it holds is pinned or on disk. */
  predicate Settled(b: Buf, disk: Store) {
    if b.dirty then b.valid else b.valid ==> b.key in disk && b.data == disk[b.key]
  }

  /** Setting the dirty flag of a locked buffer changes no block. */
  lemma DirtyKeeps(bs: seq<Buf>, disk: Store, t: seq<Buf>, b: nat)
    requires Coherent(bs, disk) && b < NBUF && bs[b].locked && t == bs[b := bs[b].(dirty := true)]
    ensures Coherent(t, disk) && View(t, disk) == View(bs, disk)
  {
    forall i | 0 <= i < NBUF
      ensures InStep(t[i], disk)
    {
      assert InStep(bs[i], disk);
    }
    forall k | k in disk
      ensures Holds(t, disk, k) == Holds(bs, disk, k)
    {
      if i :| Caches(bs, k, i) {
        assert Caches(t, k, i);
        HoldsCached(t, disk, k, i);
        HoldsCached(bs, disk, k, i);
      } else {
        assert forall i :: Caches(t, k, i) ==> Caches(bs, k, i);
      }
    }
  }

  /** `refcnt`, `locked` or a count of processes of buffer `b` changed. */
  lemma OneBuffer(bs: seq<Buf>, disk: Store, t: seq<Buf>, order: seq<nat>, b: nat)
    requires Linked(bs, order) && Coherent(bs, disk) && b < NBUF && Alone(bs, b)
    requires |t| == |bs| && t == bs[b := bs[b].(refcnt := t[b].refcnt, locked := t[b].locked, pid := t[b].pid)] && InStep(t[b], disk)
    ensures Linked(t, order) && Coherent(t, disk) && View(t, disk) == View(bs, disk)
  {
    hide Linked, View;
    LinkedSame(bs, t, order);
    forall i | 0 <= i < NBUF
      ensures SameContent(bs[i], t[i]) && InStep(t[i], disk)
    {
      assert InStep(bs[i], disk);
    }
    SameContents(bs, disk, t);
  }

  lemma TakeKeeps(bs: seq<Buf>, disk: Store, t: seq<Buf>, order: seq<nat>, waiting: seq<nat>, waiting': seq<nat>, leaving: seq<nat>, b: nat)
    requires Linked(bs, order) && Coherent(bs, disk) && Counted(bs, waiting, leaving) && b < NBUF
    requires bs[b].key in disk && Alone(bs, b)
    requires t == bs[b := bs[b].(refcnt := bs[b].refcnt + 1)] && waiting' == waiting[b := waiting[b] + 1]
    ensures Linked(t, order) && Coherent(t, disk) && Counted(t, waiting', leaving) && View(t, disk) == View(bs, disk)
  {
    hide Linked, View;
    assert InStep(bs[b], disk);
    OneBuffer(bs, disk, t, order, b);
  }

  lemma LockKeeps(bs: seq<Buf>, disk: Store, t: seq<Buf>, order: seq<nat>, waiting: seq<nat>, waiting': seq<nat>, leaving: seq<nat>, b: nat)
    requires Linked(bs, order) && Coherent(bs, disk) && Counted(bs, waiting, leaving) && b < NBUF && waiting[b] > 0 && !bs[b].locked
    requires |t| == |bs| && t == bs[b := bs[b].(locked := true, pid := t[b].pid)] && waiting' == waiting[b := waiting[b] - 1]
    ensures Linked(t, order) && Coherent(t, disk) && Counted(t, waiting', leaving) && View(t, disk) == View(bs, disk)
  {
    hide Linked, View;
    assert InStep(bs[b], disk);
    UsedAlone(bs, disk, b);
    OneBuffer(bs, disk, t, order, b);
  }

  lemma UnlockKeeps(bs: seq<Buf>, disk: Store, t: seq<Buf>, order: seq<nat>, waiting: seq<nat>, leaving: seq<nat>, leaving': seq<nat>, b: nat)
    requires Linked(bs, order) && Coherent(bs, disk) && Counted(bs, waiting, leaving) && b < NBUF && bs[b].locked && Settled(bs[b], disk)
    requires |t| == |bs| && t == bs[b := bs[b].(locked := false, pid := 0)] && leaving' == leaving[b := leaving[b] + 1]
    ensures Linked(t, order) && Coherent(t, disk) && Counted(t, waiting, leaving') && View(t, disk) == View(bs, disk)
  {
    hide Linked, View;
    assert InStep(bs[b], disk);
    UsedAlone(bs, disk, b);
    OneBuffer(bs, disk, t, order, b);
  }

  lemma UnrefKeeps(bs: seq<Buf>, disk: Store, t: seq<Buf>, order: seq<nat>, waiting: seq<nat>, leaving: seq<nat>, leaving': seq<nat>, b: nat)
    requires Linked(bs, order) && Coherent(bs, disk) && Counted(bs, waiting, leaving) && b < NBUF && leaving[b] > 0 && bs[b].refcnt > 0
    requires t == bs[b := bs[b].(refcnt := bs[b].refcnt - 1)] && leaving' == leaving[b := leaving[b] - 1]
    ensures Linked(t, order) && Coherent(t, disk) && Counted(t, waiting, leaving') && View(t, disk) == View(bs, disk)
  {
    hide Linked, View;
    assert InStep(bs[b], disk);
    UsedAlone(bs, disk, b);
    OneBuffer(bs, disk, t, order, b);
  }

  /** Nobody else has the key of buffer `b` in earnest. */
  ghost predicate Alone(bs: seq<Buf>, b: nat)
    requires b < NBUF
  {
    |bs| == NBUF + 1 && forall j :: 0 <= j < NBUF && j != b && bs[j].key == bs[b].key ==> Fallow(bs[j])
  }

  lemma UsedAlone(bs: seq<Buf>, disk: Store, b: nat)
    requires Coherent(bs, disk) && b < NBUF && (bs[b].locked || bs[b].refcnt > 0)
    ensures Alone(bs, b) && !Fallow(bs[b])
  {}

  lemma AloneStays(bs: seq<Buf>, t: seq<Buf>, b: nat)
    requires b < NBUF && Alone(bs, b) && |t| == |bs| && t == bs[b := t[b]] && t[b].key == bs[b].key
    ensures Alone(t, b)
  {}

  /** Buffer `b`, at place `p`, is the first in the list with its key. */
  ghost predicate IsFirst(bs: seq<Buf>, order: seq<nat>, b: nat, p: nat)
    requires |bs| == NBUF + 1 && b < NBUF && Distinct(order)
  {
    p < |order| && order[p] == b && forall q :: 0 <= q < p ==> bs[order[q]].key != bs[b].key
  }

  lemma FirstAlone(bs: seq<Buf>, disk: Store, order: seq<nat>, b: nat, p: nat)
    requires Coherent(bs, disk) && Linked(bs, order) && |order| == NBUF && b < NBUF && FirstOfAll(bs, order) && IsFirst(bs, order, b, p)
    ensures Alone(bs, b)
  {
    forall j | 0 <= j < NBUF && j != b && bs[j].key == bs[b].key
      ensures Fallow(bs[j])
    {
      var q := PositionOf(order, j);
    }
  }

  lemma FirstTaken(bs: seq<Buf>, t: seq<Buf>, order: seq<nat>, b: nat, p: nat)
    requires |bs| == |t| == NBUF + 1 && Distinct(order) && b < NBUF && FirstOfAll(bs, order) && IsFirst(bs, order, b, p) && Alone(bs, b)
    requires t == bs[b := t[b]] && t[b].key == bs[b].key
    ensures FirstOfAll(t, order)
  {
    hide Alone;
  }

  lemma FirstRecycled(bs: seq<Buf>, t: seq<Buf>, order: seq<nat>, b: nat)
    requires |bs| == |t| == NBUF + 1 && Distinct(order) && b < NBUF && FirstOfAll(bs, order)
    requires t == bs[b := t[b]] && forall i :: 0 <= i < NBUF ==> bs[i].key != t[b].key
    ensures FirstOfAll(t, order)
  {}

  /** A buffer moves to the front of the list. */
  lemma FirstMoved(bs: seq<Buf>, t: seq<Buf>, order: seq<nat>, b: nat)
    requires |bs| == NBUF + 1 && Distinct(order) && |order| == NBUF && b < NBUF && FirstOfAll(bs, order) && Alone(bs, b) && Relinked(bs, t)
    ensures var o := [b] + Without(order, b); Distinct(o) && FirstOfAll(t, o)
  {
    hide Without, FirstOfAll, Alone, Fallow;
    var p := PositionOf(order, b);
    WithoutAt(order, b, p);
    MovedFirst(bs, order, b, p);
    RelinkedFirst(bs, t, [b] + Without(order, b));
    assert order[..p] + order[p + 1..] == Without(order, b);
  }

  lemma MovedFirst(bs: seq<Buf>, order: seq<nat>, b: nat, p: nat)
    requires |bs| == NBUF + 1 && Distinct(order) && p < |order| && order[p] == b && FirstOfAll(bs, order) && Alone(bs, b)
    ensures var o := [b] + (order[..p] + order[p + 1..]); Distinct(o) && FirstOfAll(bs, o)
  {
    hide Fallow;
    var o := [b] + (order[..p] + order[p + 1..]);
    forall i | 0 < i < |o|
      ensures o[i] == order[Before(p, i)] && o[i] != b
    {}
    forall i, j | 0 <= i < j < |o| && bs[o[j]].key == Key(0, 0) && !Fallow(bs[o[j]])
      ensures bs[o[i]].key != Key(0, 0)
    {
      if i > 0 {
        assert Before(p, i) < Before(p, j);
      }
    }
  }

  /** The place that the buffer at place `i` had before the one at `p` went to the front. */
  function Before(p: nat, i: nat): nat {
    if 0 < i <= p then i - 1 else i
  }

  lemma RelinkedFirst(bs: seq<Buf>, t: seq<Buf>, order: seq<nat>)
    requires |bs| == NBUF + 1 && Relinked(bs, t) && Distinct(order) && FirstOfAll(bs, order)
    ensures FirstOfAll(t, order)
  {
    FirstStays(bs, t, order);
  }

  /** Nobody came into use; pointers do not matter. */
  lemma FirstKeeps(bs: seq<Buf>, t: seq<Buf>, order: seq<nat>, b: nat)
    requires |bs| == |t| == NBUF + 1 && Distinct(order) && FirstOfAll(bs, order) && b < NBUF && !Fallow(bs[b])
    requires t == bs[b := t[b]] && t[b].key == bs[b].key
    ensures FirstOfAll(t, order)
  {
    FirstStays(bs, t, order);
  }

  lemma CountAt(bs: seq<Buf>, waiting: seq<nat>, leaving: seq<nat>, b: nat)
    requires Counted(bs, waiting, leaving) && b < NBUF
    ensures bs[b].refcnt == waiting[b] + leaving[b] + if bs[b].locked then 1 else 0
  {}

  lemma FreeUncounted(bs: seq<Buf>, waiting: seq<nat>, leaving: seq<nat>, disk: Store, b: nat)
    requires Counted(bs, waiting, leaving) && b < NBUF && Free(bs[b])
    ensures waiting[b] == leaving[b] == 0 && !bs[b].locked
  {}

  lemma RecycleCounted(bs: seq<Buf>, t: seq<Buf>, waiting: seq<nat>, waiting': seq<nat>, leaving: seq<nat>, b: nat)
    requires Counted(bs, waiting, leaving) && b < NBUF && Free(bs[b]) && waiting' == waiting[b := waiting[b] + 1]
    requires |t| == |bs| && t == bs[b := t[b]] && t[b].refcnt == 1 && !t[b].locked
    ensures Counted(t, waiting', leaving)
  {}

  /** Pointers alone changed. */
  lemma RelinkKeeps(bs: seq<Buf>, disk: Store, t: seq<Buf>, waiting: seq<nat>, leaving: seq<nat>)
    requires Coherent(bs, disk) && Counted(bs, waiting, leaving) && Relinked(bs, t)
    ensures Coherent(t, disk) && Counted(t, waiting, leaving) && View(t, disk) == View(bs, disk)
  {
    hide View;
    forall i | 0 <= i < NBUF
      ensures SameContent(bs[i], t[i]) && InStep(t[i], disk)
    {
      assert InStep(bs[i], disk);
    }
    SameContents(bs, disk, t);
  }

  lemma UnlinkSame(bs: seq<Buf>, b: nat)
    requires b < |bs| && bs[b].next < |bs| && bs[b].prev < |bs| && bs[b].next != b
    ensures Relinked(bs, Unlink(bs, b))
  {}

  // ----- the order

  /** `order` without `b`. */
  ghost function Without(order: seq<nat>, b: nat): seq<nat> {
    if order == [] then [] else if order[0] == b then Without(order[1..], b) else [order[0]] + Without(order[1..], b)
  }

  lemma {:induction false} WithoutAbsent(order: seq<nat>, b: nat)
    requires b !in order
    ensures Without(order, b) == order
  {
    if order != [] {
      WithoutAbsent(order[1..], b);
    }
  }

  lemma {:induction false} WithoutAt(order: seq<nat>, b: nat, p: nat)
    requires Distinct(order) && p < |order| && order[p] == b
    ensures Without(order, b) == order[..p] + order[p + 1..] && b !in Without(order, b)
  {
    if p == 0 {
      WithoutAbsent(order[1..], b);
      assert order[..0] + order[1..] == order[1..];
    } else {
      WithoutAt(order[1..], b, p - 1);
      assert [order[0]] + (order[1..][..p - 1] + order[1..][p..]) == order[..p] + order[p + 1..];
    }
  }

  ghost function PositionOf(order: seq<nat>, b: nat): (p: nat)
    requires Distinct(order) && |order| == NBUF && b < NBUF
    ensures p < |order| && order[p] == b
  {
    Covers(order, b);
    var p :| 0 <= p < |order| && order[p] == b;
    p
  }

  /** A list of all buffers leaves none out. */
  lemma Covers(order: seq<nat>, b: nat)
    requires Distinct(order) && |order| == NBUF && b < NBUF
    ensures b in order
  {
    if b !in order {
      AtMost(order + [b], NBUF);
    }
  }

  /** Different numbers below `n` are at most `n` many. */
  lemma {:induction false} AtMost(xs: seq<nat>, n: nat)
    requires forall i :: 0 <= i < |xs| ==> xs[i] < n
    requires forall i, j :: 0 <= i < j < |xs| ==> xs[i] != xs[j]
    ensures |xs| <= n
  {
    if xs == [] {
    } else if p :| 0 <= p < |xs| && xs[p] == n - 1 {
      var rest := xs[..p] + xs[p + 1..];
      AtMost(rest, n - 1);
    } else {
      assert xs[0] < n;
      AtMost(xs, n - 1);
    }
  }

  /** What is true of every buffer in the list is true of every buffer. */
  lemma EveryBuffer(bs: seq<Buf>, order: seq<nat>, b: nat)
    requires Linked(bs, order) && |order| == NBUF && b < NBUF
    ensures exists p :: 0 <= p < NBUF && order[p] == b
  {
    Covers(order, b);
  }

  /** If no buffer behind position `i` is free, the one there is older than all free
      ones. */
  lemma OldestFree(bs: seq<Buf>, order: seq<nat>, stamp: seq<nat>, clock: nat, i: int)
    requires |bs| == NBUF + 1 && Stamped(order, stamp, clock) && |order| == NBUF && -1 <= i < NBUF
    requires forall j :: i < j < NBUF ==> !Free(bs[order[j]])
    ensures forall k :: 0 <= k < NBUF && Free(bs[k]) ==> i >= 0 && (k == order[i] || stamp[k] > stamp[order[i]])
  {
    forall k | 0 <= k < NBUF && Free(bs[k])
      ensures i >= 0 && (k == order[i] || stamp[k] > stamp[order[i]])
    {
      var p := PositionOf(order, k);
    }
  }

  lemma RestampKeeps(order: seq<nat>, stamp: seq<nat>, clock: nat, b: nat)
    requires Stamped(order, stamp, clock) && |order| == NBUF && b < NBUF
    ensures Stamped([b] + Without(order, b), stamp[b := clock], clock + 1)
    ensures |[b] + Without(order, b)| == |order| && Distinct([b] + Without(order, b))
  {
    hide Without, Stamped;
    assert Distinct(order) by { StampedDistinct(order, stamp, clock); }
    var p := PositionOf(order, b);
    WithoutAt(order, b, p);
    Restamped(order, stamp, clock, b, p);
  }

  lemma StampedDistinct(order: seq<nat>, stamp: seq<nat>, clock: nat)
    requires Stamped(order, stamp, clock)
    ensures Distinct(order)
  {}

  lemma Restamped(order: seq<nat>, stamp: seq<nat>, clock: nat, b: nat, p: nat)
    requires Stamped(order, stamp, clock) && p < |order| && order[p] == b
    ensures var o := [b] + (order[..p] + order[p + 1..]);
            |o| == |order| && Distinct(o) && Stamped(o, stamp[b := clock], clock + 1)
  {
    var o, st := [b] + (order[..p] + order[p + 1..]), stamp[b := clock];
    forall i | 0 < i < |o|
      ensures o[i] == order[Before(p, i)] && o[i] != b
    {}
    forall i, j | 0 <= i < j < |o|
      ensures o[i] != o[j] && st[o[i]] > st[o[j]]
    {
      if i > 0 {
        assert Before(p, i) < Before(p, j);
      }
    }
  }

  /** The buffers below `b`, the last one first. */
  ghost function Down(b: nat): (r: seq<nat>)
    ensures |r| == b && forall i :: 0 <= i < b ==> r[i] == b - 1 - i
  {
    if b == 0 then [] else [b - 1] + Down(b - 1)
  }

  lemma EmptyList(bs: seq<Buf>)
    requires |bs| == NBUF + 1 && bs[HEAD].prev == HEAD && bs[HEAD].next == HEAD
    ensures Linked(bs, [])
  {}

  lemma PushFrontSame(bs: seq<Buf>, b: nat)
    requires |bs| == NBUF + 1 && b < NBUF && bs[HEAD].next < |bs|
    ensures Relinked(bs, PushFront(bs, b))
  {
    hide SetNext, SetPrev, Relinked;
    var u := SetNext(bs, b, bs[HEAD].next);
    SetNextSame(bs, bs, b, bs[HEAD].next);
    SetPrevSame(bs, u, b, HEAD);
    var v := SetPrev(u, b, HEAD);
    LinkKept(bs, b, HEAD);
    SetPrevSame(bs, v, v[HEAD].next, b);
    SetNextSame(bs, SetPrev(v, v[HEAD].next, b), HEAD, b);
  }

  lemma LinkKept(bs: seq<Buf>, b: nat, h: nat)
    requires b < |bs| && h < |bs| && b != h
    ensures SetPrev(SetNext(bs, b, bs[h].next), b, h)[h] == bs[h]
  {}

  /** The same buffers with other pointers. */
  ghost predicate Relinked(bs: seq<Buf>, t: seq<Buf>) {
    |t| == |bs| && forall i :: 0 <= i < |bs| ==> t[i] == bs[i].(prev := t[i].prev, next := t[i].next)
  }

  lemma SetNextSame(bs: seq<Buf>, t: seq<Buf>, b: nat, n: nat)
    requires Relinked(bs, t) && b < |bs|
    ensures Relinked(bs, SetNext(t, b, n))
  {}

  lemma SetPrevSame(bs: seq<Buf>, t: seq<Buf>, b: nat, n: nat)
    requires Relinked(bs, t) && b < |bs|
    ensures Relinked(bs, SetPrev(t, b, n))
  {}

  /** Moving a buffer to the front of the list. */
  lemma ToFront(bs: seq<Buf>, order: seq<nat>, b: nat)
    requires Linked(bs, order) && |order| == NBUF && b < NBUF
    ensures bs[b].next < |bs| && bs[b].prev < |bs| && bs[b].next != b
    ensures var u := Unlink(bs, b);
            |u| == |bs| && u[HEAD].next < |bs| && Linked(PushFront(u, b), [b] + Without(order, b)) && Relinked(bs, PushFront(u, b))
  {
    hide Linked, Unlink, PushFront;
    LinkedDistinct(bs, order);
    var p := PositionOf(order, b);
    UnlinkKeeps(bs, order, p);
    WithoutAt(order, b, p);
    var u := Unlink(bs, b);
    UnlinkSame(bs, b);
    PushFrontKeeps(u, Without(order, b), b);
    PushFrontSame(u, b);
  }

  lemma LinkedDistinct(bs: seq<Buf>, order: seq<nat>)
    requires Linked(bs, order)
    ensures Distinct(order) && |bs| == NBUF + 1
  {}

  ghost predicate AllUnused(bs: seq<Buf>) {
    |bs| == NBUF + 1 && forall i :: 0 <= i < NBUF ==> Unused(bs[i])
  }

  lemma BootStep(bs: seq<Buf>, b: nat)
    requires AllUnused(bs) && b < NBUF && Linked(bs, Down(b))
    ensures bs[HEAD].next < |bs| && AllUnused(PushFront(bs, b)) && Linked(PushFront(bs, b), Down(b + 1))
  {
    hide Linked, PushFront;
    PushFrontKeeps(bs, Down(b), b);
    PushFrontSame(bs, b);
    forall i | 0 <= i < NBUF
      ensures Unused(PushFront(bs, b)[i])
    {
      assert Unused(bs[i]);
    }
  }

  lemma BootState(bs: seq<Buf>, disk: Store, stamp: seq<nat>, waiting: seq<nat>, leaving: seq<nat>)
    requires AllUnused(bs)
    requires stamp == seq(NBUF, i => i) && waiting == leaving == seq(NBUF, i => 0)
    ensures Stamped(Down(NBUF), stamp, NBUF) && Counted(bs, waiting, leaving) && Coherent(bs, disk)
    ensures forall k :: k in disk ==> k in View(bs, disk) && View(bs, disk)[k] == disk[k]
  {
    assert forall i :: 0 <= i < NBUF ==> Unused(bs[i]);
    assert forall k, i :: !Caches(bs, k, i);
  }

  ghost predicate Unused(b: Buf) {
    b.key == Key(0, 0) && !b.valid && !b.dirty && b.refcnt == 0 && !b.locked
  }

  lemma InStepAt(bs: seq<Buf>, disk: Store, b: nat)
    requires Coherent(bs, disk) && b < NBUF
    ensures InStep(bs[b], disk)
  {}

  lemma CountedSame(bs: seq<Buf>, t: seq<Buf>, waiting: seq<nat>, leaving: seq<nat>)
    requires Counted(bs, waiting, leaving) && |t| == |bs|
    requires forall i :: 0 <= i < NBUF ==> t[i].refcnt == bs[i].refcnt && t[i].locked == bs[i].locked
    ensures Counted(t, waiting, leaving)
  {}

  lemma ViewOfInvalid(bs: seq<Buf>, disk: Store, b: nat)
    requires Coherent(bs, disk) && b < NBUF && bs[b].key in disk && !bs[b].valid && !Fallow(bs[b])
    ensures View(bs, disk)[bs[b].key := disk[bs[b].key]] == View(bs, disk)
  {
    HoldsOnDisk(bs, disk, b);
  }

  lemma ViewOfValid(bs: seq<Buf>, disk: Store, b: nat)
    requires Coherent(bs, disk) && b < NBUF && bs[b].valid
    ensures bs[b].key in View(bs, disk) && View(bs, disk)[bs[b].key] == bs[b].data
  {
    assert InStep(bs[b], disk);
    assert Caches(bs, bs[b].key, b);
    HoldsCached(bs, disk, bs[b].key, b);
  }

  /** The list is in the order of the stamps, the latest first. */
  ghost predicate Stamped(order: seq<nat>, stamp: seq<nat>, clock: nat) {
    && |stamp| == NBUF
    && Distinct(order)
    && (forall i :: 0 <= i < NBUF ==> stamp[i] < clock)
    && forall i, j :: 0 <= i < j < |order| ==> stamp[order[i]] > stamp[order[j]]
  }

  ghost predicate Counted(bs: seq<Buf>, waiting: seq<nat>, leaving: seq<nat>) {
    && |bs| == NBUF + 1 && |waiting| == NBUF && |leaving| == NBUF
    && forall i :: 0 <= i < NBUF ==> bs[i].refcnt == waiting[i] + leaving[i] + if bs[i].locked then 1 else 0
  }
}
