/** umalloc.c: malloc and free of user programs, the Kernighan and Ritchie
    allocator. Addresses are in units of one header (8 bytes). */
module Umalloc {
  import opened FreeList

  class Heap {
    /** The address of the static header; it lies below the heap. */
    const base: nat
    /** The headers in memory, by address. */
    var mem: map<nat, Header>
    /** Where the search starts; 0 before the first call of malloc. */
    var freep: nat
    ghost var fl: seq<Run>
    ghost var rover: nat
    ghost var used: map<nat, nat>
    /** The end of the memory obtained from sbrk, and how much that was. */
    ghost var brk: nat
    ghost var obtained: nat

    constructor (base: nat)
      requires 0 < base
      ensures Valid() && this.base == base && used == map[] && obtained == 0 && freep == 0
    {
      this.base := base;
      mem, freep, fl, rover, used, brk, obtained := map[base := Header(0, 0)], 0, [], 0, map[], base + 1, 0;
    }

    /** The free list is a coalesced circle in address order, the blocks handed out
        are apart from it and from one another, and no unit is lost. */
    ghost predicate Valid()
      reads this
    {
      && 0 < base && base in mem && base < brk
      && Held(mem, base, brk, fl, used)
      && Coalesced(base, fl)
      && Total(fl) + Sum(used) == obtained
      && if freep == 0 then fl == [] && used == map[]
         else Ring(mem, base, fl) && rover <= |fl| && freep == Node(base, fl, rover)
    }

    /** Put a block back: `ap` is what malloc returned. */
    method Free(ap: nat)
      requires Valid() && freep != 0 && 0 < ap && ap - 1 in used
      modifies this
      ensures Valid() && freep != 0
      ensures used == old(used) - {ap - 1} && brk == old(brk) && obtained == old(obtained)
      ensures forall a :: IsFree(fl, a) <==> IsFree(old(fl), a) || Run(ap - 1, old(used)[ap - 1]).Covers(a)
      ensures var b := Run(ap - 1, old(used)[ap - 1]);
              FitsAt(base, old(fl), rover, b) && fl == Insert(old(fl), rover, b)
    {
      hide Insert, Relink, Ring, Held, Total, IsFree;
      var bp := ap - 1;
      HeldBlock(mem, base, brk, fl, used, bp);
      ghost var b := Run(bp, used[bp]);
      ghost var k := FindPlace(base, fl, b, |fl|);
      var p := FindPredecessor(bp, k);
      RelinkInserts(mem, base, fl, k, b);
      HeldAfterFree(mem, base, brk, fl, used, k, bp);
      InsertKeeps(base, fl, k, b);
      SumSplit(used, bp);
      Link(p, bp);
      freep := p;
      fl, rover, used := Insert(fl, k, b), k, used - {bp};
      RingAt(mem, base, fl, 0);
    }

    /** The search loop of `free`: around the circle from `freep` to the node below
        `bp` whose successor is above it, or to the wrap. */
    method FindPredecessor(bp: nat, ghost k: nat) returns (p: nat)
      requires Valid() && freep != 0 && base < bp && k <= |fl|
      requires forall i :: 0 <= i < |fl| ==> fl[i].addr != bp && (i < k <==> fl[i].addr < bp)
      ensures p == Node(base, fl, k)
    {
      hide Held, Total, Ring;
      p := freep;
      ghost var i: nat := rover;
      RingAt(mem, base, fl, i);
      while !(bp > p && bp < mem[p].ptr)
        invariant i <= |fl| && p == Node(base, fl, i) && Linked(mem, base, fl, i)
        decreases if i <= k then k - i else |fl| + 1 - i + k
      {
        if p >= mem[p].ptr && (bp > p || bp < mem[p].ptr) {
          break;
        }
        p := mem[p].ptr;
        i := Next(fl, i);
        RingAt(mem, base, fl, i);
      }
    }

    /** The relinking part of `free`. */
    method Link(p: nat, bp: nat)
      requires p in mem && bp in mem && mem[p].ptr in mem && p != bp && mem[p].ptr != bp
      modifies this`mem
      ensures mem == Relink(old(mem), p, Run(bp, old(mem)[bp].size))
    {
      var nx := mem[p].ptr;
      if bp + mem[bp].size == nx {
        mem := mem[bp := Header(mem[bp].ptr, mem[bp].size + mem[nx].size)];
        mem := mem[bp := Header(mem[nx].ptr, mem[bp].size)];
      } else {
        mem := mem[bp := Header(nx, mem[bp].size)];
      }
      if p + mem[p].size == bp {
        mem := mem[p := Header(mem[p].ptr, mem[p].size + mem[bp].size)];
        mem := mem[p := Header(mem[bp].ptr, mem[p].size)];
      } else {
        mem := mem[p := Header(bp, mem[p].size)];
      }
    }

    /** Ask the system for more memory and put it on the free list. `answer` is
        what sbrk returns: memory above all that was obtained before, or failure.
        `wild` says that the byte count did not fit an int: by `SbrkGives` the memory
        is then not what the new header claims, and the heap is left as it was. */
    method MoreCore(nu0: nat, answer: Sbrk) returns (p: nat, wild: bool)
      requires Valid() && freep != 0 && 0 < nu0
      requires answer.Gives? ==> brk <= answer.addr
      modifies this
      ensures Valid() && freep != 0 && used == old(used)
      ensures wild <==> answer.Gives? && Asked(AtLeast(nu0)) != 8 * AtLeast(nu0)
      ensures p == (if answer.Fails? || wild then 0 else freep)
      ensures answer.Fails? || wild ==> fl == old(fl) && obtained == old(obtained) && brk == old(brk) && freep == old(freep)
      ensures answer.Gives? && !wild ==> obtained - old(obtained) >= 4096 && obtained - old(obtained) >= nu0
      ensures answer.Gives? && !wild ==>
                var nu := AtLeast(nu0);
                && obtained == old(obtained) + nu && brk == answer.addr + nu
                && Supplied(old(fl), fl, nu0, answer)
                && Fits(fl, nu0)
    {
      hide Insert, Ring, Held, Total, IsFree;
      var nu := AtLeast(nu0);
      if answer.Fails? {
        return 0, false;
      }
      if Asked(nu) != 8 * nu {
        return 0, true;
      }
      var hp := answer.addr;
      FreshBlock(mem, base, brk, fl, used, hp, nu);
      mem := mem[hp := Header(0, nu)];
      used, brk, obtained := used[hp := nu], hp + nu, obtained + nu;
      ghost var fl0 := fl;
      Free(hp + 1);
      assert used == old(used);
      InsertedSize(base, fl0, rover, Run(hp, nu));
      return freep, false;
    }

    /** Hand out `n` units from the end of the run at `p`, whose predecessor is
        `prevp`; the whole run if it is no larger. */
    method TakeBlock(prevp: nat, p: nat, n: nat, ghost k: nat) returns (ap: nat)
      requires Valid() && freep != 0 && 0 < n && k < |fl| && n <= fl[k].size
      requires prevp == Node(base, fl, k) && p == Node(base, fl, k + 1)
      modifies this
      ensures Valid() && freep == prevp && brk == old(brk) && obtained == old(obtained)
      ensures fl == Take(old(fl), k, n) && ap - 1 == Cut(old(fl), k, n).addr
      ensures ap - 1 !in old(used) && used == old(used)[ap - 1 := n]
    {
      hide Take, Ring, Held, Total, IsFree, Coalesced, Cut;
      TakeLinks(mem, base, brk, fl, used, k, n);
      TakeKeeps(base, fl, k, n);
      NodeAbove(base, fl, k);
      var q := p;
      if mem[p].size == n {
        mem := mem[prevp := Header(mem[p].ptr, mem[prevp].size)];
      } else {
        mem := mem[p := Header(mem[p].ptr, mem[p].size - n)];
        q := p + mem[p].size;
        mem := mem[q := Header(0, n)];
      }
      TakenSum(used, q, n);
      freep := prevp;
      fl, rover, used := Take(fl, k, n), k, used[q := n];
      RingAt(mem, base, fl, 0);
      return q + 1;
    }

    /** Hand out a block of `Units(nbytes)` units, or 0 when the system gives no
        more memory. `answer` is what sbrk returns if it is called; it is called at
        most once. `wild` says that it was, for bytes that do not fit an int, and did
        not fail; the heap is then left as it was. */
    method Malloc(nbytes: nat, answer: Sbrk) returns (ap: nat, wild: bool)
      requires Valid() && nbytes < WORD
      requires answer.Gives? ==> brk <= answer.addr
      modifies this
      ensures Valid() && freep != 0
      ensures wild <==>
                !Fits(old(fl), Units(nbytes)) && answer.Gives? && Asked(AtLeast(Units(nbytes))) != 8 * AtLeast(Units(nbytes))
      ensures ap == 0 <==> wild || (!Fits(old(fl), Units(nbytes)) && answer.Fails?)
      ensures ap == 0 ==> fl == old(fl) && used == old(used) && brk == old(brk) && obtained == old(obtained)
      ensures ap != 0 ==> ap - 1 !in old(used) && used == old(used)[ap - 1 := Units(nbytes)]
      ensures ap != 0 && Fits(old(fl), Units(nbytes)) ==>
                && brk == old(brk) && obtained == old(obtained)
                && HandedOut(old(fl), fl, Run(0, 0), Run(ap - 1, Units(nbytes)))
      ensures ap != 0 && !Fits(old(fl), Units(nbytes)) ==>
                var got := Run(answer.addr, AtLeast(Units(nbytes)));
                && brk == got.End() && obtained == old(obtained) + got.size
                && HandedOut(old(fl), fl, got, Run(ap - 1, Units(nbytes)))
    {
      hide Take, Ring, Held, Total, IsFree, Coalesced, Cut, Insert, Supplied, Fits, HandedOut, Units, Walk, Linked;
      var n := Units(nbytes);
      var prevp := freep;
      if prevp == 0 {
        StartRing(mem, base, brk);
        mem := mem[base := Header(base, 0)];
        freep, prevp, rover := base, base, 0;
      }
      wild := false;
      var grown := false;
      ghost var c := 0;
      WalkNext(fl, rover, 0);
      NodeHeader(mem, base, fl, rover);
      var p := mem[prevp].ptr;
      while true
        invariant Valid() && freep != 0 && 0 <= c <= |fl|
        invariant Walk(fl, rover, c) <= |fl| && Walk(fl, rover, c + 1) <= |fl|
        invariant prevp == Node(base, fl, Walk(fl, rover, c)) && p == Node(base, fl, Walk(fl, rover, c + 1))
        invariant forall d :: 1 <= d <= c ==> Walk(fl, rover, d) <= |fl| && Size(fl, Walk(fl, rover, d)) < n
        invariant used == old(used) && !wild
        invariant !grown ==> fl == old(fl) && brk == old(brk) && obtained == old(obtained)
        invariant grown ==>
                    && answer.Gives? && Asked(AtLeast(n)) == 8 * AtLeast(n) && brk == answer.addr + AtLeast(n) && obtained == old(obtained) + AtLeast(n)
                    && !Fits(old(fl), n) && Fits(fl, n) && Supplied(old(fl), fl, n, answer)
        decreases if grown then 0 else 1, |fl| - c
      {
        WalkNext(fl, rover, c);
        ghost var k := Walk(fl, rover, c + 1);
        NodeHeader(mem, base, fl, k);
        if mem[p].size >= n {
          TookFrom(base, old(fl), fl, n, answer, grown, k - 1);
          ap := TakeBlock(prevp, p, n, k - 1);
          return;
        }
        if p == freep {
          BackAtStart(base, fl, rover, c, n);
          p, wild := MoreCore(n, answer);
          if p == 0 {
            return 0, wild;
          }
          grown := true;
          c := 0;
        } else {
          c := c + 1;
        }
        WalkNext(fl, rover, c);
        NodeHeader(mem, base, fl, Walk(fl, rover, c));
        prevp, p := p, mem[p].ptr;
      }
    }
  }

  lemma HeldBlock(mem: map<nat, Header>, base: nat, brk: nat, fl: seq<Run>, used: map<nat, nat>, u: nat)
    requires Held(mem, base, brk, fl, used) && u in used
    ensures base < u && 0 < used[u] && u in mem && mem[u].size == used[u]
    ensures forall i :: 0 <= i < |fl| ==> Run(u, used[u]).Apart(fl[i])
  {}

  datatype Sbrk = Fails | Gives(addr: nat)

  function AtLeast(nu: nat): nat { if nu < 4096 then 4096 else nu }

  /** Memory above all that was obtained before can be held as one block. */
  lemma FreshBlock(mem: map<nat, Header>, base: nat, brk: nat, fl: seq<Run>, used: map<nat, nat>, hp: nat, nu: nat)
    requires Held(mem, base, brk, fl, used) && Ring(mem, base, fl) && Coalesced(base, fl)
    requires base < brk <= hp && 0 < nu
    ensures var mem' := mem[hp := Header(0, nu)];
            && Held(mem', base, hp + nu, fl, used[hp := nu]) && Ring(mem', base, fl)
            && hp !in used && Sum(used[hp := nu]) == Sum(used) + nu && used[hp := nu] - {hp} == used
  {
    hide Ring;
    assert hp !in used && used[hp := nu] - {hp} == used;
    SumSplit(used[hp := nu], hp);
    RingElsewhere(mem, base, fl, hp, Header(0, nu));
  }

  lemma InsertedSize(base: nat, fl: seq<Run>, k: nat, b: Run)
    requires k <= |fl|
    ensures exists i :: 0 <= i < |Insert(fl, k, b)| && Insert(fl, k, b)[i].size >= b.size
  {
    hide Replace;
    InsertLength(fl, k, b);
    InsertRuns(fl, k, b, Left(fl, k, b));
  }

  lemma TakeWhole(fl: seq<Run>, k: nat, n: nat)
    requires k < |fl| && n == fl[k].size
    ensures Take(fl, k, n) == Replace(fl, k, k + 1, []) && Cut(fl, k, n) == fl[k]
  {}

  /** Neither way of taking units touches the headers of held blocks. */
  lemma HeldHeaders(mem: map<nat, Header>, mem': map<nat, Header>, base: nat, brk: nat, fl: seq<Run>,
                    used: map<nat, nat>, k: nat, n: nat, prevp: nat, p: nat, q: nat)
    requires Coalesced(base, fl) && Held(mem, base, brk, fl, used) && k < |fl| && 0 < n <= fl[k].size
    requires prevp == Node(base, fl, k) && p == Node(base, fl, k + 1) && q == Cut(fl, k, n).addr
    requires forall v :: v in mem && v != prevp && v != p && v != q ==> v in mem' && mem'[v] == mem[v]
    ensures forall v :: v in used ==> v in mem' && mem'[v].size == mem[v].size
  {
    hide AllApart;
    forall v | v in used
      ensures v != prevp && v != p && v != q
    {
      NodesNotHeld(mem, base, brk, fl, used, k, v);
      NodesNotHeld(mem, base, brk, fl, used, k + 1, v);
    }
  }

  lemma TakenSum(used: map<nat, nat>, q: nat, n: nat)
    requires q !in used
    ensures Sum(used[q := n]) == Sum(used) + n
  {
    SumSplit(used[q := n], q);
    assert used[q := n] - {q} == used;
  }

  /** The headers after units are taken from the run at `p`. */
  function TakeMem(mem: map<nat, Header>, prevp: nat, p: nat, n: nat): map<nat, Header>
    requires prevp in mem && p in mem && n <= mem[p].size
  {
    if mem[p].size == n then mem[prevp := Header(mem[p].ptr, mem[prevp].size)]
    else mem[p := Header(mem[p].ptr, mem[p].size - n)][p + (mem[p].size - n) := Header(0, n)]
  }

  lemma TakeLinks(mem: map<nat, Header>, base: nat, brk: nat, fl: seq<Run>, used: map<nat, nat>, k: nat, n: nat)
    requires Ring(mem, base, fl) && Coalesced(base, fl) && Held(mem, base, brk, fl, used)
    requires k < |fl| && 0 < n <= fl[k].size
    ensures var p, prevp, q := Node(base, fl, k + 1), Node(base, fl, k), Cut(fl, k, n).addr;
            && p in mem && prevp in mem && mem[p].size == fl[k].size && q == p + (mem[p].size - n)
            && var mem' := TakeMem(mem, prevp, p, n);
               && Ring(mem', base, Take(fl, k, n)) && k <= |Take(fl, k, n)|
               && Node(base, Take(fl, k, n), k) == prevp
               && q !in used && Held(mem', base, brk, Take(fl, k, n), used[q := n])
  {
    hide Take, Ring, Held, Coalesced;
    var p, prevp, q := Node(base, fl, k + 1), Node(base, fl, k), Cut(fl, k, n).addr;
    RingAt(mem, base, fl, k);
    RingAt(mem, base, fl, k + 1);
    if mem[p].size == n {
      UnlinkRemoves(mem, base, fl, k);
      TakeWhole(fl, k, n);
    } else {
      ShrinkTakes(mem, base, fl, k, n, 0);
    }
    var mem' := TakeMem(mem, prevp, p, n);
    NodesAscend(base, fl, k, k + 1);
    HeldHeaders(mem, mem', base, brk, fl, used, k, n, prevp, p, q);
    HeldAfterTake(mem, mem', base, brk, fl, used, k, n);
  }

  lemma NodeAbove(base: nat, fl: seq<Run>, i: nat)
    requires Coalesced(base, fl) && i <= |fl|
    ensures base <= Node(base, fl, i)
  {}

  /** Units for a request: one for the header and enough for the bytes, computed
      in 32 bits. */
  function Units(nbytes: nat): (n: nat)
    ensures 0 < n
  {
    (nbytes + 8 - 1) % 0x1_0000_0000 / 8 + 1
  }

  /** The block has room for the request exactly when the request is not among the
      seven largest; those wrap around and get a single unit. */
  lemma UnitsSuffice(nbytes: nat)
    requires nbytes < WORD
    ensures (Units(nbytes) - 1) * 8 >= nbytes <==> nbytes <= 0xFFFF_FFF8
    ensures nbytes <= 0xFFFF_FFF8 ==> (Units(nbytes) - 2) * 8 < nbytes
    ensures nbytes > 0xFFFF_FFF8 ==> Units(nbytes) == 1
  {}

  // ----- what sbrk is asked for

  const WORD: nat := 0x1_0000_0000
  const KERNBASE: nat := 0x8000_0000

  /** The argument of sbrk for `nu` units: the bytes in 32 bits, taken as an int. */
  function Asked(nu: nat): int {
    var bytes := nu * 8 % WORD;
    if bytes < 0x8000_0000 then bytes else bytes - WORD
  }

  /** `sbrk(n)` of a process of `sz` bytes: its new size, or -1. `roomy` says whether
      there are pages enough. */
  function Sized(sz: nat, n: int, roomy: bool): int {
    var target := (sz + n) % WORD;
    if n > 0 then
      if target >= KERNBASE then -1 else if target < sz then sz else if roomy then target else -1
    else if n < 0 then
      var size := if target >= sz then sz else target;
      if size == 0 then -1 else size
    else sz
  }

  /** Whenever sbrk succeeds, the process has grown by the units whose number `morecore`
      writes into the new header. */
  ghost predicate Delivers(nu: nat) {
    forall sz: nat, roomy :: sz < KERNBASE && Sized(sz, Asked(nu), roomy) != -1 ==> Sized(sz, Asked(nu), roomy) == sz + 8 * nu
  }

  /** Memory of the size that the header claims is obtained exactly if its bytes fit an
      int. */
  lemma SbrkGives(nu: nat)
    requires 0 < nu
    ensures Delivers(nu) <==> Asked(nu) == 8 * nu
    ensures Delivers(nu) <==> 8 * nu < 0x8000_0000
  {
    if Asked(nu) <= 0 {
      assert Sized(1, Asked(nu), true) == 1;
    } else {
      assert Sized(0, Asked(nu), true) == Asked(nu);
    }
  }

  /** That is so for requests up to 0x7FFFFFF0 bytes and for the seven that wrap around. */
  lemma MallocAsks(nbytes: nat)
    requires nbytes < WORD
    ensures Delivers(AtLeast(Units(nbytes))) <==> nbytes <= 0x7FFF_FFF0 || nbytes > 0xFFFF_FFF8
  {
    SbrkGives(AtLeast(Units(nbytes)));
  }

  /** The largest request with room in its block: sbrk is asked for nothing, succeeds and
      gives nothing, under a header of 0x20000000 units. Sixteen bytes less, and sbrk
      takes memory away. */
  lemma SbrkGivesNothing(sz: nat, roomy: bool)
    requires 16 < sz < KERNBASE
    ensures Units(0xFFFF_FFF8) == 0x2000_0000 && Sized(sz, Asked(0x2000_0000), roomy) == sz
    ensures Units(0xFFFF_FFE8) == 0x1FFF_FFFE && Sized(sz, Asked(0x1FFF_FFFE), roomy) == sz - 16
  {}

  /** `c` steps along the ring from node `f`. */
  function Walk(fl: seq<Run>, f: nat, c: nat): nat {
    if f + c <= |fl| then f + c else f + c - (|fl| + 1)
  }

  lemma WalkNext(fl: seq<Run>, f: nat, c: nat)
    requires f <= |fl| && c <= |fl|
    ensures Walk(fl, f, c) <= |fl| && Walk(fl, f, c + 1) <= |fl|
    ensures Walk(fl, f, c + 1) == Next(fl, Walk(fl, f, c))
    ensures c == 0 ==> Walk(fl, f, c) == f
    ensures c == |fl| ==> Walk(fl, f, c + 1) == f
  {}

  lemma NodeHeader(mem: map<nat, Header>, base: nat, fl: seq<Run>, i: nat)
    requires Ring(mem, base, fl) && i <= |fl|
    ensures var p := Node(base, fl, i); p in mem && mem[p].ptr == Node(base, fl, Next(fl, i)) && mem[p].size == Size(fl, i)
  {
    RingAt(mem, base, fl, i);
  }

  lemma StartRing(mem: map<nat, Header>, base: nat, brk: nat)
    ensures Ring(mem[base := Header(base, 0)], base, []) && Held(mem[base := Header(base, 0)], base, brk, [], map[])
  {}

  /** Some run is large enough. */
  ghost predicate Fits(fl: seq<Run>, n: nat) {
    exists i :: 0 <= i < |fl| && fl[i].size >= n
  }

  /** `fl` is `fl0` with what sbrk gave. */
  ghost predicate Supplied(fl0: seq<Run>, fl: seq<Run>, n: nat, answer: Sbrk) {
    && answer.Gives?
    && forall a :: IsFree(fl, a) <==> IsFree(fl0, a) || Run(answer.addr, AtLeast(n)).Covers(a)
  }

  /** The free units are those of `fl0` and of `extra`, without those of `block`,
      which all were among them. */
  ghost predicate HandedOut(fl0: seq<Run>, fl: seq<Run>, extra: Run, block: Run) {
    && (forall a :: IsFree(fl, a) <==> (IsFree(fl0, a) || extra.Covers(a)) && !block.Covers(a))
    && (forall a :: block.Covers(a) ==> IsFree(fl0, a) || extra.Covers(a))
  }

  lemma TookFrom(base: nat, fl0: seq<Run>, fl: seq<Run>, n: nat, answer: Sbrk, grown: bool, k: nat)
    requires Coalesced(base, fl) && k < |fl| && 0 < n <= fl[k].size
    requires if grown then Supplied(fl0, fl, n, answer) else fl == fl0
    ensures HandedOut(fl0, Take(fl, k, n), if grown then Run(answer.addr, AtLeast(n)) else Run(0, 0),
                      Run(Cut(fl, k, n).addr, n))
    ensures Fits(fl, n)
  {
    hide Take, Total, IsFree, Coalesced;
    TakeKeeps(base, fl, k, n);
  }

  /** Coming back to the start after too small nodes only: all runs are too small. */
  lemma BackAtStart(base: nat, fl: seq<Run>, f: nat, c: nat, n: nat)
    requires Coalesced(base, fl) && f <= |fl| && c <= |fl| && Walk(fl, f, c + 1) <= |fl|
    requires Node(base, fl, Walk(fl, f, c + 1)) == Node(base, fl, f)
    requires forall d :: 1 <= d <= c ==> Walk(fl, f, d) <= |fl| && Size(fl, Walk(fl, f, d)) < n
    requires Size(fl, Walk(fl, f, c + 1)) < n
    ensures !Fits(fl, n)
  {
    var w := Walk(fl, f, c + 1);
    if w < f {
      NodesAscend(base, fl, w, f);
    } else if f < w {
      NodesAscend(base, fl, f, w);
    }
    forall i | 0 <= i < |fl|
      ensures fl[i].size < n
    {
      var d := if i + 1 > f then i + 1 - f else i + 1 + |fl| + 1 - f;
      assert Walk(fl, f, d) == i + 1;
    }
  }
}
