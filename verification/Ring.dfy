/** Ring buffers with 32-bit counters that wrap, as pipe.c and console.c use them. */
module Ring {

  const WORD: nat := 0x1_0000_0000

  /** A counter after `k` steps. */
  function Wrap(k: nat): (c: nat)
    ensures c < WORD
  {
    k % WORD
  }

  /** Subtraction of counters. */
  function Minus(a: nat, b: nat): (c: nat)
    requires a < WORD && b < WORD
    ensures c < WORD
  {
    if a >= b then a - b else a + WORD - b
  }

  /** The sizes in use; both divide the range of the counters. */
  predicate RingSize(size: nat) {
    size == 128 || size == 512
  }

  function Slot(c: nat, size: nat): (s: nat)
    requires RingSize(size)
    ensures s < size
  {
    c % size
  }

  /** The items from `read` on are in their slots. */
  ghost predicate InRing<T>(buf: seq<T>, items: seq<T>, read: nat, size: nat) {
    && RingSize(size) && |buf| == size && read <= |items| <= read + size
    && forall k :: read <= k < |items| ==> buf[Slot(k, size)] == items[k]
  }

  /** Although they wrap, the counters tell an empty ring, a full one, and how many items
      are in between. */
  lemma Apart(lo: nat, hi: nat, size: nat)
    requires RingSize(size) && lo <= hi <= lo + size
    ensures Wrap(lo) == Wrap(hi) <==> lo == hi
    ensures Minus(Wrap(hi), Wrap(lo)) == hi - lo
    ensures Wrap(hi) == Wrap(Wrap(lo) + size) <==> hi == lo + size
  {}

  lemma SameSlot(k: nat, size: nat)
    requires RingSize(size)
    ensures Slot(Wrap(k), size) == Slot(k, size)
  {
    if size == 128 {
      assert k % WORD % 128 == k % 128;
    } else {
      assert k % WORD % 512 == k % 512;
    }
  }

  lemma CountsUp(k: nat)
    ensures Wrap(Wrap(k) + 1) == Wrap(k + 1)
  {}

  lemma CountsDown(k: nat)
    requires k > 0
    ensures Minus(Wrap(k), 1) == Wrap(k - 1)
  {}

  /** A wrapped counter picks the same slot and counts on, up and down. */
  lemma Counts(k: nat, size: nat)
    requires RingSize(size)
    ensures Slot(Wrap(k), size) == Slot(k, size) && Wrap(Wrap(k) + 1) == Wrap(k + 1)
    ensures k > 0 ==> Minus(Wrap(k), 1) == Wrap(k - 1)
  {
    hide Slot, Wrap, Minus;
    SameSlot(k, size);
    CountsUp(k);
    if k > 0 {
      CountsDown(k);
    }
  }

  /** Items in the ring have slots of their own. */
  lemma OtherSlot(j: nat, k: nat, size: nat)
    requires RingSize(size) && j < k < j + size
    ensures Slot(j, size) != Slot(k, size)
  {
    if size == 128 {
      assert j % 128 != k % 128;
    } else {
      assert j % 512 != k % 512;
    }
  }

  lemma PutKeeps<T>(buf: seq<T>, items: seq<T>, read: nat, size: nat, x: T)
    requires InRing(buf, items, read, size) && |items| < read + size
    ensures InRing(buf[Slot(|items|, size) := x], items + [x], read, size)
  {
    hide Slot;
    forall k | read <= k < |items|
      ensures buf[Slot(|items|, size) := x][Slot(k, size)] == items[k]
    {
      OtherSlot(k, |items|, size);
    }
  }

  lemma DropKeeps<T>(buf: seq<T>, items: seq<T>, read: nat, size: nat)
    requires InRing(buf, items, read, size) && read < |items|
    ensures InRing(buf, items[..|items| - 1], read, size) && buf[Slot(|items| - 1, size)] == items[|items| - 1]
  {
    hide Slot;
  }

  lemma TakeKeeps<T>(buf: seq<T>, items: seq<T>, read: nat, size: nat)
    requires InRing(buf, items, read, size) && read < |items|
    ensures InRing(buf, items, read + 1, size) && buf[Slot(read, size)] == items[read]
  {
    hide Slot;
  }
}
