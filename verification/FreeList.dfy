/** The free list of the user-level allocator as a value: runs of free units in
    address order, never touching, and the ring of headers that represents it. */
module FreeList {

  /** `size` units starting at unit address `addr`, header included. */
  datatype Run = Run(addr: nat, size: nat) {
    function End(): nat { addr + size }
    predicate Covers(a: nat) { addr <= a < End() }
    predicate Apart(r: Run) { End() <= r.addr || r.End() <= addr }
  }

  datatype Header = Header(ptr: nat, size: nat)

  /** Non-empty runs above `base`, ascending, with a gap between neighbours. */
  ghost predicate Coalesced(base: nat, fl: seq<Run>) {
    && (forall i :: 0 <= i < |fl| ==> base < fl[i].addr && 0 < fl[i].size)
    && (forall i, j :: 0 <= i < j < |fl| ==> fl[i].End() < fl[j].addr)
  }

  ghost predicate IsFree(fl: seq<Run>, a: nat) {
    exists i :: 0 <= i < |fl| && fl[i].Covers(a)
  }

  function Total(fl: seq<Run>): nat {
    if fl == [] then 0 else Total(fl[..|fl| - 1]) + fl[|fl| - 1].size
  }

  lemma {:induction false} TotalConcat(a: seq<Run>, b: seq<Run>)
    ensures Total(a + b) == Total(a) + Total(b)
  {
    if b == [] {
      assert a + b == a;
    } else {
      TotalConcat(a, b[..|b| - 1]);
      assert (a + b)[..|a + b| - 1] == a + b[..|b| - 1];
    }
  }

  /** The runs `fl[l..h]` replaced by `xs`. */
  function Replace(fl: seq<Run>, l: nat, h: nat, xs: seq<Run>): (r: seq<Run>)
    requires l <= h <= |fl|
    ensures |r| == |fl| - (h - l) + |xs|
    ensures forall i :: 0 <= i < l ==> r[i] == fl[i]
    ensures forall i :: l <= i < l + |xs| ==> r[i] == xs[i - l]
    ensures forall i :: l + |xs| <= i < |r| ==> r[i] == fl[i - |xs| + (h - l)]
    ensures forall i :: h <= i < |fl| ==> fl[i] == r[i - (h - l) + |xs|]
  {
    fl[..l] + xs + fl[h..]
  }

  lemma ReplaceTotal(fl: seq<Run>, l: nat, h: nat, xs: seq<Run>)
    requires l <= h <= |fl|
    ensures Total(Replace(fl, l, h, xs)) == Total(fl) - Total(fl[l..h]) + Total(xs)
  {
    TotalConcat(fl[..l] + xs, fl[h..]);
    TotalConcat(fl[..l], xs);
    TotalConcat(fl[..l] + fl[l..h], fl[h..]);
    TotalConcat(fl[..l], fl[l..h]);
    assert fl == fl[..l] + fl[l..h] + fl[h..];
  }

  /** One run in place of others keeps the list coalesced if it fits. */
  lemma ReplaceCoalesced(base: nat, fl: seq<Run>, l: nat, h: nat, x: Run)
    requires Coalesced(base, fl) && l <= h <= |fl| && base < x.addr && 0 < x.size
    requires (l > 0 ==> fl[l - 1].End() < x.addr) && (h < |fl| ==> x.End() < fl[h].addr)
    ensures Coalesced(base, Replace(fl, l, h, [x]))
  {
    hide Replace, Coalesced;
    var r := Replace(fl, l, h, [x]);
    forall i | 0 <= i < |r|
      ensures r[i] == Around(fl, l, h, x, i)
    {}
    CoalescedAround(base, fl, l, h, x, r);
  }

  /** Run `i` of the list with `x` in place of runs `l` to before `h`. */
  function Around(fl: seq<Run>, l: nat, h: nat, x: Run, i: nat): Run
    requires l <= h <= |fl| && i <= |fl| - (h - l)
  {
    if i < l then fl[i] else if i == l then x else fl[i - 1 + (h - l)]
  }

  lemma CoalescedAround(base: nat, fl: seq<Run>, l: nat, h: nat, x: Run, r: seq<Run>)
    requires Coalesced(base, fl) && l <= h <= |fl| && base < x.addr && 0 < x.size
    requires (l > 0 ==> fl[l - 1].End() < x.addr) && (h < |fl| ==> x.End() < fl[h].addr)
    requires |r| == |fl| - (h - l) + 1 && forall i :: 0 <= i < |r| ==> r[i] == Around(fl, l, h, x, i)
    ensures Coalesced(base, r)
  {
    forall i | 0 <= i < |r|
      ensures base < r[i].addr && 0 < r[i].size
    {
      assert r[i] == Around(fl, l, h, x, i);
    }
    forall i, j | 0 <= i < j < |r|
      ensures r[i].End() < r[j].addr
    {
      assert r[i] == Around(fl, l, h, x, i) && r[j] == Around(fl, l, h, x, j);
      assert i < l ==> i == l - 1 || fl[i].End() < fl[l - 1].addr;
      assert j > l ==> j - 1 + (h - l) == h || fl[h].End() < fl[j - 1 + (h - l)].addr;
    }
  }

  lemma ReplaceUnits(fl: seq<Run>, l: nat, h: nat, xs: seq<Run>, a: nat)
    requires l <= h <= |fl|
    ensures IsFree(Replace(fl, l, h, xs), a) <==> IsFree(fl[..l], a) || IsFree(xs, a) || IsFree(fl[h..], a)
  {
    hide Replace;
    var r := Replace(fl, l, h, xs);
    if IsFree(r, a) {
      var i :| 0 <= i < |r| && r[i].Covers(a);
      if i < l {
        assert fl[..l][i].Covers(a);
      } else if i < l + |xs| {
        assert xs[i - l].Covers(a);
      } else {
        assert fl[h..][i - |xs| - l].Covers(a);
      }
    }
    if IsFree(fl[..l], a) {
      var i :| 0 <= i < l && fl[..l][i].Covers(a);
      assert r[i].Covers(a);
    }
    if IsFree(xs, a) {
      var i :| 0 <= i < |xs| && xs[i].Covers(a);
      assert r[l + i].Covers(a);
    }
    if IsFree(fl[h..], a) {
      var i :| 0 <= i < |fl| - h && fl[h..][i].Covers(a);
      assert fl[h + i] == r[h + i - (h - l) + |xs|];
    }
  }

  // ----- putting a run back

  /** `b` belongs between `fl[k - 1]` and `fl[k]`. */
  ghost predicate FitsAt(base: nat, fl: seq<Run>, k: nat, b: Run) {
    && k <= |fl| && base < b.addr && 0 < b.size
    && (k > 0 ==> fl[k - 1].End() <= b.addr)
    && (k < |fl| ==> b.End() <= fl[k].addr)
  }

  predicate TouchesLeft(fl: seq<Run>, k: nat, b: Run)
    requires k <= |fl|
  {
    k > 0 && fl[k - 1].End() == b.addr
  }

  predicate TouchesRight(fl: seq<Run>, k: nat, b: Run)
    requires k <= |fl|
  {
    k < |fl| && b.End() == fl[k].addr
  }

  /** The run that `b` and the neighbours it touches make together. */
  function Merged(fl: seq<Run>, k: nat, b: Run): Run
    requires k <= |fl|
  {
    Run(if TouchesLeft(fl, k, b) then fl[k - 1].addr else b.addr,
        (if TouchesLeft(fl, k, b) then fl[k - 1].size else 0) + b.size +
        (if TouchesRight(fl, k, b) then fl[k].size else 0))
  }

  /** The neighbours that `b` touches are `fl[Left..Right]`. */
  function Left(fl: seq<Run>, k: nat, b: Run): nat
    requires k <= |fl|
  {
    if TouchesLeft(fl, k, b) then k - 1 else k
  }

  function Right(fl: seq<Run>, k: nat, b: Run): (r: nat)
    requires k <= |fl|
    ensures Left(fl, k, b) <= r <= |fl|
  {
    if TouchesRight(fl, k, b) then k + 1 else k
  }

  /** The list with `b` put back at `k` and merged with what it touches. */
  function Insert(fl: seq<Run>, k: nat, b: Run): seq<Run>
    requires k <= |fl|
  {
    Replace(fl, Left(fl, k, b), Right(fl, k, b), [Merged(fl, k, b)])
  }

  lemma TotalPair(m: seq<Run>)
    requires |m| <= 2
    ensures Total(m) == (if |m| > 0 then m[0].size else 0) + (if |m| > 1 then m[1].size else 0)
  {
    if |m| == 2 {
      assert m[..1][..0] == [];
    } else if |m| == 1 {
      assert m[..0] == [];
    }
  }

  lemma InsertUnits(fl: seq<Run>, k: nat, b: Run, a: nat)
    requires k <= |fl|
    ensures IsFree(Insert(fl, k, b), a) <==> IsFree(fl, a) || b.Covers(a)
  {
    hide Replace, IsFree, Merged, Left, Right;
    var l, h, x := Left(fl, k, b), Right(fl, k, b), Merged(fl, k, b);
    ReplaceUnits(fl, l, h, [x], a);
    SplitUnits(fl, l, h, a);
    MergedUnits(fl, k, b, a);
  }

  /** Putting a run back keeps the list coalesced, frees exactly the units of the
      run, and adds exactly its size. */
  lemma InsertKeeps(base: nat, fl: seq<Run>, k: nat, b: Run)
    requires Coalesced(base, fl) && FitsAt(base, fl, k, b)
    ensures Coalesced(base, Insert(fl, k, b))
    ensures Total(Insert(fl, k, b)) == Total(fl) + b.size
    ensures forall a :: IsFree(Insert(fl, k, b), a) <==> IsFree(fl, a) || b.Covers(a)
  {
    hide Replace, Total, IsFree;
    var l, h, x := Left(fl, k, b), Right(fl, k, b), Merged(fl, k, b);
    ReplaceCoalesced(base, fl, l, h, x);
    assert Total(Insert(fl, k, b)) == Total(fl) + b.size by {
      ReplaceTotal(fl, l, h, [x]);
      TotalPair(fl[l..h]);
      TotalPair([x]);
    }
    forall a: nat
      ensures IsFree(Insert(fl, k, b), a) <==> IsFree(fl, a) || b.Covers(a)
    {
      InsertUnits(fl, k, b, a);
    }
  }

  lemma SplitUnits(fl: seq<Run>, l: nat, h: nat, a: nat)
    requires l <= h <= |fl|
    ensures IsFree(fl, a) <==> IsFree(fl[..l], a) || IsFree(fl[l..h], a) || IsFree(fl[h..], a)
  {
    assert Replace(fl, l, h, fl[l..h]) == fl;
    ReplaceUnits(fl, l, h, fl[l..h], a);
  }

  lemma MergedUnits(fl: seq<Run>, k: nat, b: Run, a: nat)
    requires k <= |fl|
    ensures IsFree([Merged(fl, k, b)], a) <==> IsFree(fl[Left(fl, k, b)..Right(fl, k, b)], a) || b.Covers(a)
  {
    var m, x := fl[Left(fl, k, b)..Right(fl, k, b)], Merged(fl, k, b);
    assert IsFree([x], a) <==> x.Covers(a) by { assert [x][0] == x; }
    assert IsFree(m, a) <==> (|m| > 0 && m[0].Covers(a)) || (|m| > 1 && m[1].Covers(a));
  }

  // ----- taking units out

  /** The run cut from the end of `fl[k]`. */
  function Cut(fl: seq<Run>, k: nat, n: nat): Run
    requires k < |fl| && n <= fl[k].size
  {
    Run(fl[k].addr + (fl[k].size - n), n)
  }

  function Take(fl: seq<Run>, k: nat, n: nat): seq<Run>
    requires k < |fl| && n <= fl[k].size
  {
    Replace(fl, k, k + 1, if fl[k].size == n then [] else [Run(fl[k].addr, fl[k].size - n)])
  }

  /** Taking `n` units keeps the list coalesced and removes exactly those units. */
  lemma TakeKeeps(base: nat, fl: seq<Run>, k: nat, n: nat)
    requires Coalesced(base, fl) && k < |fl| && 0 < n <= fl[k].size
    ensures Coalesced(base, Take(fl, k, n))
    ensures Total(Take(fl, k, n)) == Total(fl) - n
    ensures forall a :: IsFree(Take(fl, k, n), a) <==> IsFree(fl, a) && !Cut(fl, k, n).Covers(a)
    ensures forall a :: Cut(fl, k, n).Covers(a) ==> IsFree(fl, a)
  {
    hide Replace, Total, IsFree;
    var xs := if fl[k].size == n then [] else [Run(fl[k].addr, fl[k].size - n)];
    if fl[k].size == n {
      RemoveCoalesced(base, fl, k);
    } else {
      ReplaceCoalesced(base, fl, k, k + 1, xs[0]);
    }
    ReplaceTotal(fl, k, k + 1, xs);
    TotalPair(fl[k..k + 1]);
    TotalPair(xs);
    forall a: nat
      ensures IsFree(Take(fl, k, n), a) <==> IsFree(fl, a) && !Cut(fl, k, n).Covers(a)
      ensures Cut(fl, k, n).Covers(a) ==> IsFree(fl, a)
    {
      ReplaceUnits(fl, k, k + 1, xs, a);
      SplitUnits(fl, k, k + 1, a);
      OneRun(base, fl, k, a);
      RestOfRun(fl, k, n, a);
    }
  }

  lemma RemoveCoalesced(base: nat, fl: seq<Run>, k: nat)
    requires Coalesced(base, fl) && k < |fl|
    ensures Coalesced(base, Replace(fl, k, k + 1, []))
  {
    hide Replace;
  }

  lemma OneRun(base: nat, fl: seq<Run>, k: nat, a: nat)
    requires Coalesced(base, fl) && k < |fl|
    ensures IsFree(fl[k..k + 1], a) <==> fl[k].Covers(a)
    ensures fl[k].Covers(a) ==> !IsFree(fl[..k], a) && !IsFree(fl[k + 1..], a)
  {
    assert fl[k..k + 1][0] == fl[k];
  }

  lemma RestOfRun(fl: seq<Run>, k: nat, n: nat, a: nat)
    requires k < |fl| && n <= fl[k].size
    ensures IsFree(if fl[k].size == n then [] else [Run(fl[k].addr, fl[k].size - n)], a) <==>
              fl[k].Covers(a) && !Cut(fl, k, n).Covers(a)
  {
    if fl[k].size != n {
      var xs := [Run(fl[k].addr, fl[k].size - n)];
      assert xs[0].Covers(a) <==> fl[k].Covers(a) && !Cut(fl, k, n).Covers(a);
    }
  }

  // ----- the ring of headers

  /** The nodes of the ring: the static header `base`, then the runs. */
  function Node(base: nat, fl: seq<Run>, i: nat): nat
    requires i <= |fl|
  {
    if i == 0 then base else fl[i - 1].addr
  }

  function Size(fl: seq<Run>, i: nat): nat
    requires i <= |fl|
  {
    if i == 0 then 0 else fl[i - 1].size
  }

  function Next(fl: seq<Run>, i: nat): (n: nat)
    requires i <= |fl|
    ensures n <= |fl|
  {
    if i == |fl| then 0 else i + 1
  }

  /** Memory holds the list as a circle in address order with one wrap. */
  ghost predicate Ring(mem: map<nat, Header>, base: nat, fl: seq<Run>) {
    forall i :: 0 <= i <= |fl| ==> Linked(mem, base, fl, i)
  }

  ghost predicate Linked(mem: map<nat, Header>, base: nat, fl: seq<Run>, i: nat)
    requires i <= |fl|
  {
    var p := Node(base, fl, i);
    p in mem && mem[p] == Header(Node(base, fl, Next(fl, i)), Size(fl, i))
  }

  /** What `free` does to the headers once it has found the predecessor `p`. */
  function Relink(mem: map<nat, Header>, p: nat, b: Run): map<nat, Header>
    requires p in mem && mem[p].ptr in mem
  {
    var nx := mem[p].ptr;
    var hb := if b.End() == nx then Header(mem[nx].ptr, b.size + mem[nx].size) else Header(nx, b.size);
    var m := mem[b.addr := hb];
    if p + m[p].size == b.addr then m[p := Header(hb.ptr, m[p].size + hb.size)]
    else m[p := Header(b.addr, m[p].size)]
  }

  /** Nodes strictly increase along the ring. */
  lemma NodesAscend(base: nat, fl: seq<Run>, i: nat, j: nat)
    requires Coalesced(base, fl) && i < j <= |fl|
    ensures Node(base, fl, i) < Node(base, fl, j)
  {}

  /** How the nodes of the list with `b` put back are found among the old ones. */
  lemma InsertNodes(base: nat, fl: seq<Run>, k: nat, b: Run, i: nat)
    requires Coalesced(base, fl) && FitsAt(base, fl, k, b) && i <= |Insert(fl, k, b)|
    ensures var r, l, h := Insert(fl, k, b), Left(fl, k, b), Right(fl, k, b);
            && (i <= l ==> i <= |fl| && Node(base, r, i) == Node(base, fl, i) && Size(r, i) == Size(fl, i))
            && (i == l + 1 ==> Node(base, r, i) == Merged(fl, k, b).addr && Size(r, i) == Merged(fl, k, b).size)
            && (i > l + 1 ==> i - 1 + (h - l) <= |fl| && Node(base, r, i) == Node(base, fl, i - 1 + (h - l)) &&
                              Size(r, i) == Size(fl, i - 1 + (h - l)))
  {
    hide Replace;
  }

  /** Nodes below the predecessor keep their headers. */
  lemma RelinkBelow(mem: map<nat, Header>, base: nat, fl: seq<Run>, k: nat, b: Run, i: nat)
    requires Ring(mem, base, fl) && Coalesced(base, fl) && FitsAt(base, fl, k, b)
    requires Linked(mem, base, fl, k) && Linked(mem, base, fl, Next(fl, k))
    requires i < k
    ensures i <= |Insert(fl, k, b)| && Linked(Relink(mem, Node(base, fl, k), b), base, Insert(fl, k, b), i)
  {
    hide Insert, Ring, Coalesced, FitsAt;
    InsertLength(fl, k, b);
    InsertNodes(base, fl, k, b, i);
    InsertNodes(base, fl, k, b, i + 1);
    RingAt(mem, base, fl, i);
    NodesAscend(base, fl, i, k);
    BelowRun(base, fl, k, b, i);
  }

  lemma BelowRun(base: nat, fl: seq<Run>, k: nat, b: Run, i: nat)
    requires Coalesced(base, fl) && FitsAt(base, fl, k, b) && i <= |fl|
    ensures i <= k ==> Node(base, fl, i) + Size(fl, i) <= b.addr && Node(base, fl, i) < b.addr
    ensures i > k ==> b.End() <= Node(base, fl, i) && b.addr < Node(base, fl, i)
  {}

  /** Nodes above the run keep their headers. */
  lemma RelinkAbove(mem: map<nat, Header>, base: nat, fl: seq<Run>, k: nat, b: Run, i: nat)
    requires Ring(mem, base, fl) && Coalesced(base, fl) && FitsAt(base, fl, k, b)
    requires Linked(mem, base, fl, k) && Linked(mem, base, fl, Next(fl, k))
    requires Left(fl, k, b) + 1 < i <= |Insert(fl, k, b)|
    ensures Linked(Relink(mem, Node(base, fl, k), b), base, Insert(fl, k, b), i)
  {
    hide Insert, Ring, Coalesced, FitsAt;
    var r, l, h := Insert(fl, k, b), Left(fl, k, b), Right(fl, k, b);
    InsertLength(fl, k, b);
    InsertNodes(base, fl, k, b, i);
    InsertNodes(base, fl, k, b, Next(r, i));
    var j := i - 1 + (h - l);
    RingAt(mem, base, fl, j);
    NodesAscend(base, fl, k, j);
    BelowRun(base, fl, k, b, j);
  }

  /** The predecessor and the merged run get the headers of the new list. */
  lemma RelinkAt(mem: map<nat, Header>, base: nat, fl: seq<Run>, k: nat, b: Run, i: nat)
    requires Coalesced(base, fl) && FitsAt(base, fl, k, b)
    requires Linked(mem, base, fl, k) && Linked(mem, base, fl, Next(fl, k))
    requires k <= i <= Left(fl, k, b) + 1
    ensures i <= |Insert(fl, k, b)| && Linked(Relink(mem, Node(base, fl, k), b), base, Insert(fl, k, b), i)
  {
    hide Insert, Coalesced, FitsAt;
    var r, l, h := Insert(fl, k, b), Left(fl, k, b), Right(fl, k, b);
    InsertLength(fl, k, b);
    InsertNodes(base, fl, k, b, i);
    InsertNodes(base, fl, k, b, Next(r, i));
    BelowRun(base, fl, k, b, k);
    BelowRun(base, fl, k, b, Next(fl, k));
  }

  lemma RelinkOne(mem: map<nat, Header>, base: nat, fl: seq<Run>, k: nat, b: Run, i: nat)
    requires Ring(mem, base, fl) && Coalesced(base, fl) && FitsAt(base, fl, k, b)
    requires Linked(mem, base, fl, k) && Linked(mem, base, fl, Next(fl, k))
    requires i <= |Insert(fl, k, b)|
    ensures Linked(Relink(mem, Node(base, fl, k), b), base, Insert(fl, k, b), i)
  {
    hide Insert, Ring, Coalesced, FitsAt, Relink;
    if i < k {
      RelinkBelow(mem, base, fl, k, b, i);
    } else if i <= Left(fl, k, b) + 1 {
      RelinkAt(mem, base, fl, k, b, i);
    } else {
      RelinkAbove(mem, base, fl, k, b, i);
    }
  }

  lemma InsertLength(fl: seq<Run>, k: nat, b: Run)
    requires k <= |fl|
    ensures |Insert(fl, k, b)| == |fl| + 1 - (Right(fl, k, b) - Left(fl, k, b))
  {
    hide Replace;
  }

  lemma RingAt(mem: map<nat, Header>, base: nat, fl: seq<Run>, i: nat)
    requires Ring(mem, base, fl) && i <= |fl|
    ensures Linked(mem, base, fl, i)
  {
    hide Linked;
  }

  /** The relinked headers are the ring of the list with the run put back. */
  lemma RelinkInserts(mem: map<nat, Header>, base: nat, fl: seq<Run>, k: nat, b: Run)
    requires Ring(mem, base, fl) && Coalesced(base, fl) && FitsAt(base, fl, k, b)
    ensures Linked(mem, base, fl, k) && Linked(mem, base, fl, Next(fl, k))
    ensures Ring(Relink(mem, Node(base, fl, k), b), base, Insert(fl, k, b))
    ensures k <= |Insert(fl, k, b)| && Node(base, Insert(fl, k, b), k) == Node(base, fl, k)
  {
    hide Insert, Relink;
    RingAt(mem, base, fl, k);
    RingAt(mem, base, fl, Next(fl, k));
    InsertLength(fl, k, b);
    forall i | 0 <= i <= |Insert(fl, k, b)|
      ensures Linked(Relink(mem, Node(base, fl, k), b), base, Insert(fl, k, b), i)
    {
      RelinkOne(mem, base, fl, k, b, i);
    }
    InsertNodes(base, fl, k, b, k);
  }

  /** The nodes left when run `k` is removed. */
  lemma RemoveNodes(base: nat, fl: seq<Run>, k: nat, i: nat)
    requires k < |fl| && i < |fl|
    ensures var r, j := Replace(fl, k, k + 1, []), if i <= k then i else i + 1;
            |r| == |fl| - 1 && Node(base, r, i) == Node(base, fl, j) && Size(r, i) == Size(fl, j)
  {
    hide Replace;
  }

  /** Unlinking a whole run: the predecessor points past it. */
  lemma UnlinkRemoves(mem: map<nat, Header>, base: nat, fl: seq<Run>, k: nat)
    requires Ring(mem, base, fl) && Coalesced(base, fl) && k < |fl|
    requires Linked(mem, base, fl, k) && Linked(mem, base, fl, k + 1)
    ensures var p, prev := Node(base, fl, k + 1), Node(base, fl, k);
            var r := Replace(fl, k, k + 1, []);
            && Ring(mem[prev := Header(mem[p].ptr, mem[prev].size)], base, r)
            && |r| == |fl| - 1 && Node(base, r, k) == prev
  {
    hide Replace, Coalesced, Ring;
    var p, prev := Node(base, fl, k + 1), Node(base, fl, k);
    var r, mem' := Replace(fl, k, k + 1, []), mem[prev := Header(mem[p].ptr, mem[prev].size)];
    RemoveNodes(base, fl, k, k);
    forall i | 0 <= i <= |r|
      ensures Linked(mem', base, r, i)
    {
      RemoveNodes(base, fl, k, i);
      RemoveNodes(base, fl, k, Next(r, i));
      RingAt(mem, base, fl, if i <= k then i else i + 1);
      if i < k {
        NodesAscend(base, fl, i, k);
      } else if i > k {
        NodesAscend(base, fl, k, i + 1);
      }
    }
    assert Ring(mem', base, r) by { RingAll(mem', base, r); }
  }

  lemma RingAll(mem: map<nat, Header>, base: nat, fl: seq<Run>)
    requires forall i :: 0 <= i <= |fl| ==> Linked(mem, base, fl, i)
    ensures Ring(mem, base, fl)
  {
    hide Linked;
  }

  lemma ShrinkNodes(base: nat, fl: seq<Run>, k: nat, n: nat, i: nat)
    requires Coalesced(base, fl) && k < |fl| && 0 < n < fl[k].size && i <= |fl|
    ensures var r := Take(fl, k, n);
            && |r| == |fl| && Node(base, r, i) == Node(base, fl, i)
            && Size(r, i) == (if i == k + 1 then Size(fl, i) - n else Size(fl, i))
            && Node(base, fl, i) != Cut(fl, k, n).addr
  {
    hide Replace;
    if i > k + 1 {
      assert fl[k].End() < fl[i - 1].addr;
    } else if 0 < i < k + 1 {
      assert fl[i - 1].End() < fl[k].addr;
    }
  }

  /** Shrinking a run: its header changes, and a header is written inside it. */
  lemma ShrinkTakes(mem: map<nat, Header>, base: nat, fl: seq<Run>, k: nat, n: nat, junk: nat)
    requires Ring(mem, base, fl) && Coalesced(base, fl) && k < |fl| && 0 < n < fl[k].size
    requires Linked(mem, base, fl, k + 1)
    ensures var p, q := Node(base, fl, k + 1), Cut(fl, k, n).addr;
            var r := Take(fl, k, n);
            && Ring(mem[p := Header(mem[p].ptr, mem[p].size - n)][q := Header(junk, n)], base, r)
            && |r| == |fl| && forall i :: 0 <= i <= |fl| ==> Node(base, r, i) == Node(base, fl, i)
  {
    hide Take, Coalesced, Ring, Cut;
    var p, q := Node(base, fl, k + 1), Cut(fl, k, n).addr;
    var r, mem' := Take(fl, k, n), mem[p := Header(mem[p].ptr, mem[p].size - n)][q := Header(junk, n)];
    ShrinkNodes(base, fl, k, n, k);
    forall i | 0 <= i <= |fl|
      ensures Linked(mem', base, r, i) && Node(base, r, i) == Node(base, fl, i)
    {
      ShrinkNodes(base, fl, k, n, i);
      ShrinkNodes(base, fl, k, n, Next(fl, i));
      RingAt(mem, base, fl, i);
      if i < k + 1 {
        NodesAscend(base, fl, i, k + 1);
      } else if i > k + 1 {
        NodesAscend(base, fl, k + 1, i);
      }
    }
    assert Ring(mem', base, r) by { RingAll(mem', base, r); }
  }

  /** Writing a header that is no node of the ring leaves the ring alone. */
  lemma RingElsewhere(mem: map<nat, Header>, base: nat, fl: seq<Run>, a: nat, h: Header)
    requires Ring(mem, base, fl) && forall i :: 0 <= i <= |fl| ==> Node(base, fl, i) != a
    ensures Ring(mem[a := h], base, fl)
  {
    var mem' := mem[a := h];
    forall i | 0 <= i <= |fl|
      ensures Linked(mem', base, fl, i)
    {
      assert Linked(mem, base, fl, i);
    }
  }

  // ----- the blocks handed out

  /** Units handed out. */
  ghost function Sum(used: map<nat, nat>): nat
    decreases |used|
  {
    if used == map[] then 0
    else
      var u :| u in used;
      used[u] + Sum(used - {u})
  }

  lemma {:induction false} SumSplit(used: map<nat, nat>, u: nat)
    requires u in used
    ensures Sum(used) == used[u] + Sum(used - {u})
    decreases |used|
  {
    var x :| x in used && Sum(used) == used[x] + Sum(used - {x});
    if x != u {
      SumSplit(used - {x}, u);
      SumSplit(used - {u}, x);
      assert used - {x} - {u} == used - {u} - {x};
    }
  }

  /** Blocks handed out lie above `base` and below `brk`, apart from one another
      and from every free run, and their headers still hold their sizes. */
  ghost predicate Held(mem: map<nat, Header>, base: nat, brk: nat, fl: seq<Run>, used: map<nat, nat>) {
    && Sized(mem, base, brk, used)
    && AllApart(fl, used)
    && (forall u, v :: u in used && v in used && u != v ==> Run(u, used[u]).Apart(Run(v, used[v])))
    && (forall i :: 0 <= i < |fl| ==> fl[i].End() <= brk)
  }

  ghost predicate Sized(mem: map<nat, Header>, base: nat, brk: nat, used: map<nat, nat>) {
    forall u :: u in used ==>
      base < u && 0 < used[u] && u + used[u] <= brk && u in mem && mem[u].size == used[u]
  }

  ghost predicate AllApart(fl: seq<Run>, used: map<nat, nat>) {
    forall u, i :: u in used && 0 <= i < |fl| ==> Run(u, used[u]).Apart(fl[i])
  }

  /** The place of a run among the free ones: the nodes below it are `0..k`. */
  lemma {:induction false} FindPlace(base: nat, fl: seq<Run>, b: Run, n: nat) returns (k: nat)
    requires Coalesced(base, fl) && base < b.addr && 0 < b.size && n <= |fl|
    requires forall i :: 0 <= i < |fl| ==> b.Apart(fl[i])
    requires forall i :: n <= i < |fl| ==> b.addr < fl[i].addr
    ensures FitsAt(base, fl, k, b)
    ensures forall i :: 0 <= i < |fl| ==> (i < k <==> fl[i].addr < b.addr)
    decreases n
  {
    if n == 0 || fl[n - 1].addr < b.addr {
      k := n;
    } else {
      k := FindPlace(base, fl, b, n - 1);
    }
  }

  lemma InsertRuns(fl: seq<Run>, k: nat, b: Run, i: nat)
    requires k <= |fl| && i < |Insert(fl, k, b)|
    ensures var r, l, h := Insert(fl, k, b), Left(fl, k, b), Right(fl, k, b);
            if i < l then r[i] == fl[i]
            else if i == l then r[i] == Merged(fl, k, b)
            else i - 1 + (h - l) < |fl| && r[i] == fl[i - 1 + (h - l)]
  {
    hide Replace;
  }

  /** Putting a held block back leaves the other held blocks held. */
  lemma HeldAfterFree(mem: map<nat, Header>, base: nat, brk: nat, fl: seq<Run>, used: map<nat, nat>, k: nat, u: nat)
    requires Coalesced(base, fl) && Held(mem, base, brk, fl, used)
    requires u in used && FitsAt(base, fl, k, Run(u, used[u]))
    requires Linked(mem, base, fl, k) && Linked(mem, base, fl, Next(fl, k))
    ensures var b := Run(u, used[u]);
            Held(Relink(mem, Node(base, fl, k), b), base, brk, Insert(fl, k, b), used - {u})
  {
    hide Insert, Relink, Sized, AllApart, Coalesced, FitsAt;
    var b := Run(u, used[u]);
    var r := Insert(fl, k, b);
    SizedAfterFree(mem, base, brk, fl, used, k, u);
    ApartAfterFree(mem, base, brk, fl, used, k, u);
    forall i | 0 <= i < |r|
      ensures r[i].End() <= brk
    {
      InsertRuns(fl, k, b, i);
      SizedOne(mem, base, brk, used, u);
    }
  }

  lemma SizedOne(mem: map<nat, Header>, base: nat, brk: nat, used: map<nat, nat>, u: nat)
    requires Sized(mem, base, brk, used) && u in used
    ensures base < u && 0 < used[u] && u + used[u] <= brk && u in mem && mem[u].size == used[u]
  {}

  lemma SizedAfterFree(mem: map<nat, Header>, base: nat, brk: nat, fl: seq<Run>, used: map<nat, nat>, k: nat, u: nat)
    requires Coalesced(base, fl) && Held(mem, base, brk, fl, used) && u in used && k <= |fl|
    requires Linked(mem, base, fl, k) && Linked(mem, base, fl, Next(fl, k))
    ensures Sized(Relink(mem, Node(base, fl, k), Run(u, used[u])), base, brk, used - {u})
  {
    hide AllApart, Coalesced;
    var p := Node(base, fl, k);
    forall v | v in used && v != u
      ensures v != p
    {
      NodesNotHeld(mem, base, brk, fl, used, k, v);
    }
  }

  lemma ApartAfterFree(mem: map<nat, Header>, base: nat, brk: nat, fl: seq<Run>, used: map<nat, nat>, k: nat, u: nat)
    requires Coalesced(base, fl) && Held(mem, base, brk, fl, used) && u in used && k <= |fl|
    ensures AllApart(Insert(fl, k, Run(u, used[u])), used - {u})
  {
    hide Insert;
    var b := Run(u, used[u]);
    var r, used' := Insert(fl, k, b), used - {u};
    forall v, i | v in used' && 0 <= i < |r|
      ensures Run(v, used'[v]).Apart(r[i])
    {
      InsertRuns(fl, k, b, i);
    }
  }

  /** Cutting units from a free run makes them a held block. */
  lemma HeldAfterTake(mem: map<nat, Header>, mem': map<nat, Header>, base: nat, brk: nat, fl: seq<Run>,
                      used: map<nat, nat>, k: nat, n: nat)
    requires Coalesced(base, fl) && Held(mem, base, brk, fl, used) && k < |fl| && 0 < n <= fl[k].size
    requires forall v :: v in used ==> v in mem' && mem'[v].size == mem[v].size
    requires var q := Cut(fl, k, n).addr; q in mem' && mem'[q].size == n
    ensures Held(mem', base, brk, Take(fl, k, n), used[Cut(fl, k, n).addr := n]) && Cut(fl, k, n).addr !in used
  {
    hide Take, AllApart;
    var q, r := Cut(fl, k, n).addr, Take(fl, k, n);
    assert forall v :: v in used ==> Run(v, used[v]).Apart(fl[k]) by { ApartRow(fl, used, k); }
    forall i | 0 <= i < |r|
      ensures r[i].End() <= brk
    {
      TakeRuns(fl, k, n, i);
    }
    ApartAfterTake(base, fl, used, k, n);
  }

  lemma ApartRow(fl: seq<Run>, used: map<nat, nat>, k: nat)
    requires AllApart(fl, used) && k < |fl|
    ensures forall v :: v in used ==> Run(v, used[v]).Apart(fl[k])
  {}

  lemma TakeRuns(fl: seq<Run>, k: nat, n: nat, i: nat)
    requires k < |fl| && n <= fl[k].size && i < |Take(fl, k, n)|
    ensures var r := Take(fl, k, n);
            if i < k then r[i] == fl[i]
            else if i == k && fl[k].size != n then r[i] == Run(fl[k].addr, fl[k].size - n)
            else if fl[k].size != n then i < |fl| && r[i] == fl[i]
            else i + 1 < |fl| && r[i] == fl[i + 1]
  {
    hide Replace;
  }

  lemma ApartAfterTake(base: nat, fl: seq<Run>, used: map<nat, nat>, k: nat, n: nat)
    requires Coalesced(base, fl) && AllApart(fl, used) && k < |fl| && 0 < n <= fl[k].size
    ensures AllApart(Take(fl, k, n), used[Cut(fl, k, n).addr := n])
  {
    hide Take;
    var q := Cut(fl, k, n);
    var r, used' := Take(fl, k, n), used[q.addr := n];
    forall v, i | v in used' && 0 <= i < |r|
      ensures Run(v, used'[v]).Apart(r[i])
    {
      TakeRuns(fl, k, n, i);
      if v != q.addr {
        ApartRow(fl, used, k);
      }
    }
  }

  /** Nodes of the ring are not headers of held blocks. */
  lemma NodesNotHeld(mem: map<nat, Header>, base: nat, brk: nat, fl: seq<Run>, used: map<nat, nat>, i: nat, u: nat)
    requires Coalesced(base, fl) && Held(mem, base, brk, fl, used) && i <= |fl| && u in used
    ensures Node(base, fl, i) != u
    ensures i > 0 ==> !fl[i - 1].Covers(u)
  {
    if i > 0 {
      assert Run(u, used[u]).Apart(fl[i - 1]);
    }
  }
}
