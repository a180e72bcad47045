/** The walk of `deallocuvm` through a page directory, round by round in 32 bits: when it
    ends, when it panics and when it does neither. */
module VmWalk {
  import opened Frames
  import opened VmSteps
  import opened VmFill
  import opened VmKernel

  // ----- which frames kfree takes

  /** The kernel's address of a frame. */
  function Kva(f: nat): nat {
    (KERNBASE + f * PGSIZE) % WORD
  }

  /** The frame at a kernel address. */
  function FrameAt(v: nat): nat {
    if v < KERNBASE then 0 else (v - KERNBASE) / PGSIZE
  }

  /** The test with which `kfree` panics; `end` is the first address after the kernel. */
  predicate Refused(end: nat, v: nat) {
    v % PGSIZE != 0 || v < end || v - KERNBASE >= PHYSTOP
  }

  lemma RefusedIs(end: nat, v: nat)
    ensures Refused(end, v) <==> !(v % PGSIZE == 0 && end <= v < KERNBASE + PHYSTOP)
  {}

  predicate InMemory(end: nat, f: nat) {
    end <= KERNBASE + f * PGSIZE && f * PGSIZE < PHYSTOP
  }

  lemma KvaFrame(end: nat, f: nat)
    requires KERNBASE < end && f < ALLPAGES
    ensures Refused(end, Kva(f)) <==> !InMemory(end, f)
    ensures InMemory(end, f) ==> 0 < f && FrameAt(Kva(f)) == f && Kva(f) < WORD
  {}

  /** All frames are in memory that `kfree` takes. */
  ghost predicate Managed(end: nat, ow: Owners) {
    forall f :: f in ow ==> InMemory(end, f)
  }

  lemma ManagedKeys(end: nat, ow: Owners, ow': Owners)
    requires Managed(end, ow) && ow'.Keys == ow.Keys
    ensures Managed(end, ow')
  {}

  lemma ManagedFrame(end: nat, ow: Owners, f: nat)
    requires KERNBASE < end && Managed(end, ow) && f in ow
    ensures !Refused(end, Kva(f)) && FrameAt(Kva(f)) == f && f != 0
  {
    KvaFrame(end, f);
  }

  /** The first whole page after the kernel. */
  lemma FirstFrame(end: nat)
    requires KERNBASE < end
    ensures USERPAGES < PagesOf(end) && PagesOf(end) * PGSIZE == KERNBASE + (PagesOf(end) - USERPAGES) * PGSIZE >= end
    ensures forall f: nat :: end <= KERNBASE + f * PGSIZE <==> PagesOf(end) - USERPAGES <= f
  {}

  lemma FrameHere(end: nat, vend: nat, g: nat)
    requires KERNBASE < end <= KERNBASE + g * PGSIZE && KERNBASE + (g + 1) * PGSIZE <= vend <= KERNBASE + PHYSTOP
    ensures !Refused(end, KERNBASE + g * PGSIZE) && FrameAt(KERNBASE + g * PGSIZE) == g && InMemory(end, g) && g > 0
  {}

  // ----- the rounds

  /** How a walk ends: not yet, at `oldsz`, in the panic of `kfree`, or at a page whose
      frame `kfree` takes although somebody else has it. What happens after that last one
      is not described: the frame may be the directory, or a stack in use. */
  datatype Ending = Going | Ended | Panicked | Astray

  /** Page `v` is mapped to memory that `kfree` does not take. */
  predicate Bad(ps: Pages, d: nat, end: nat, v: nat) {
    Find(ps, d, v).Mapped? && (Find(ps, d, v).entry.frame == 0 || Refused(end, Kva(Find(ps, d, v).entry.frame)))
  }

  /** Page `v` is mapped to a frame that is not its own. */
  predicate Foreign(ps: Pages, ow: Owners, d: nat, v: nat) {
    Find(ps, d, v).Mapped? && !(Find(ps, d, v).entry.frame in ow && ow[Find(ps, d, v).entry.frame] == User(d, v))
  }

  /** The walk cannot go past page `v`. */
  predicate Stops(ps: Pages, ow: Owners, d: nat, end: nat, v: nat) {
    Bad(ps, d, end, v) || Foreign(ps, ow, d, v)
  }

  /** The pages after `kfree` of the page at `v` and the clearing of its entry. */
  function Unmapped(ps: Pages, d: nat, v: nat, freelist: int): Pages {
    var t := TableOf(ps, d, v);
    if Find(ps, d, v).Mapped? && t in ps && IsTable(ps[t]) && t != Find(ps, d, v).entry.frame
    then PutEntry(ps[Find(ps, d, v).entry.frame := Run(freelist)], t, v, NoEntry())
    else ps
  }

  /** How `n` rounds from address `a` on end, each on the pages the one before left. */
  function Rounds(ps: Pages, ow: Owners, freelist: int, d: nat, end: nat, a: nat, oldsz: nat, n: nat): Ending
    decreases n
  {
    var v := a / PGSIZE;
    if a >= oldsz then Ended
    else if n == 0 then Going
    else if TableOf(ps, d, v) == 0 then Rounds(ps, ow, freelist, d, end, NextTable(a), oldsz, n - 1)
    else if Find(ps, d, v) == Nothing then Rounds(ps, ow, freelist, d, end, (a + PGSIZE) % WORD, oldsz, n - 1)
    else if Bad(ps, d, end, v) then Panicked
    else if Foreign(ps, ow, d, v) then Astray
    else
      var f := Find(ps, d, v).entry.frame;
      Rounds(Unmapped(ps, d, v, freelist), ow[f := Free], f, d, end, (a + PGSIZE) % WORD, oldsz, n - 1)
  }

  /** The first address of the last page table. */
  const LASTTABLE: nat := WORD - TABLESPAN

  /** Neither the jump nor the last step can take the walk back to address 0. */
  predicate NoWrap(ps: Pages, d: nat, oldsz: nat) {
    oldsz <= LASTTABLE || (TableOf(ps, d, ALLPAGES - 1) != 0 && oldsz <= WORD - PGSIZE)
  }

  ghost predicate Clear(ps: Pages, ow: Owners, d: nat, end: nat, lo: nat, hi: nat) {
    forall v :: lo <= v < hi ==> !Stops(ps, ow, d, end, v)
  }

  /** To the walk, both states of the memory are the same but for pages already gone. */
  ghost predicate SameWay(ps: Pages, ow: Owners, ps': Pages, ow': Owners, d: nat, end: nat) {
    && (forall v: nat :: TableOf(ps', d, v) == TableOf(ps, d, v))
    && (forall v: nat :: Stops(ps', ow', d, end, v) == Stops(ps, ow, d, end, v) && Bad(ps', d, end, v) == Bad(ps, d, end, v))
  }

  /** Freeing a page of the directory's own touches no table of it and no other page. */
  lemma RoundKeeps(ps: Pages, ow: Owners, d: nat, end: nat, v: nat, freelist: int)
    requires Sound(ps, ow) && IsDir(ow, d) && Find(ps, d, v).Mapped? && !Stops(ps, ow, d, end, v)
    ensures var ps', ow' := Unmapped(ps, d, v, freelist), ow[Find(ps, d, v).entry.frame := Free];
            Sound(ps', ow') && IsDir(ow', d) && SameWay(ps, ow, ps', ow', d, end)
  {
    hide Sound, Find, TableOf, Refused, Kva;
    SoundKeys(ps, ow);
    var f := Find(ps, d, v).entry.frame;
    assert v < USERPAGES by { UserPage(ps, ow, f); }
    var t := OwnTable(ps, ow, d, v);
    UnmapUserKeeps(ps, ow, d, v, t);
    var ps1, ow1 := PutEntry(ps, t, v, NoEntry()), ow[f := Held];
    LooseKeeps(ps1, ow1, f, Run(freelist), Free);
    var ps', ow' := Unmapped(ps, d, v, freelist), ow[f := Free];
    assert ps' == ps1[f := Run(freelist)] && ow' == ow1[f := Free];
    UnmapFinds(ps, ow, d, v, t, f, ps1, ow1, Run(freelist));
    UnmapTables(ps, ow, d, v, t, f, ps1, ow1, Run(freelist));
    UnmapWay(ps, ow, ps', ow', d, end, v, f);
  }

  lemma UserPage(ps: Pages, ow: Owners, f: nat)
    requires Sound(ps, ow) && f in ow && ow[f].User?
    ensures ow[f].vpn < USERPAGES
  {
    assert FrameOk(ps, ow, f);
  }

  lemma OwnTable(ps: Pages, ow: Owners, d: nat, v: nat) returns (t: nat)
    requires Sound(ps, ow) && IsDir(ow, d) && Find(ps, d, v).Mapped? && v < USERPAGES
    ensures t == TableOf(ps, d, v) && HasTable(ps, ow, d, v, t) && t in ps && IsTable(ps[t])
    ensures Present(ps[t].es[v % NENTRIES]) && ps[t].es[v % NENTRIES] == Find(ps, d, v).entry
    ensures Find(ps, d, v).entry.frame in ow && ow[Find(ps, d, v).entry.frame] == User(d, v) && t != Find(ps, d, v).entry.frame
  {
    TableIs(ps, ow, d, v);
    MappedOwner(ps, ow, d, v);
    t := TableOf(ps, d, v);
  }

  lemma UnmapTables(ps: Pages, ow: Owners, d: nat, v: nat, t: nat, f: nat, ps1: Pages, ow1: Owners, p: Page)
    requires Sound(ps, ow) && HasTable(ps, ow, d, v, t) && ps1 == PutEntry(ps, t, v, NoEntry()) && f in ow && ow[f].User?
    ensures forall u: nat :: TableOf(ps1[f := p], d, u) == TableOf(ps, d, u)
  {}

  lemma UnmapWay(ps: Pages, ow: Owners, ps': Pages, ow': Owners, d: nat, end: nat, v: nat, f: nat)
    requires Find(ps, d, v).Mapped? && Find(ps, d, v).entry.frame == f && f in ow && ow[f] == User(d, v) && !Stops(ps, ow, d, end, v)
    requires Cleared(ps, ps', d, v, v + 1) && ow' == ow[f := Free] && forall u: nat :: TableOf(ps', d, u) == TableOf(ps, d, u)
    ensures SameWay(ps, ow, ps', ow', d, end)
  {
    hide Find, TableOf, Refused, Kva;
    forall u: nat
      ensures Stops(ps', ow', d, end, u) == Stops(ps, ow, d, end, u) && Bad(ps', d, end, u) == Bad(ps, d, end, u)
    {
      assert Find(ps', d, u) == if v <= u < v + 1 then Nothing else Find(ps, d, u);
    }
  }

  lemma JumpTo(a: nat, v: nat)
    requires a == v * PGSIZE && a < LASTTABLE
    ensures v < ALLPAGES && a / PGSIZE == v && NextTable(a) == (v / NENTRIES + 1) * NENTRIES * PGSIZE
    ensures v < (v / NENTRIES + 1) * NENTRIES <= ALLPAGES - NENTRIES
    ensures forall w :: v <= w < (v / NENTRIES + 1) * NENTRIES ==> w / NENTRIES == v / NENTRIES
  {}

  /** The jump goes forward over pages that are not mapped, except in the last table. */
  lemma JumpForward(ps: Pages, d: nat, a: nat)
    requires 0 !in ps && a % PGSIZE == 0 && a < LASTTABLE && TableOf(ps, d, a / PGSIZE) == 0
    ensures a < NextTable(a) <= LASTTABLE && NextTable(a) % PGSIZE == 0
    ensures forall v :: a / PGSIZE <= v < NextTable(a) / PGSIZE ==> Find(ps, d, v) == Nothing
  {
    hide Find, TableOf, NextTable;
    var v := a / PGSIZE;
    JumpTo(a, v);
    var w := (v / NENTRIES + 1) * NENTRIES;
    assert NextTable(a) == w * PGSIZE;
    Whole(w);
    forall u | v <= u < w
      ensures Find(ps, d, u) == Nothing
    {
      NoTableNoPages(ps, d, v, u);
    }
  }

  lemma Whole(w: nat)
    ensures w * PGSIZE / PGSIZE == w && w * PGSIZE % PGSIZE == 0
  {}

  /** In the last table it goes to 0. */
  lemma JumpWraps(ps: Pages, d: nat, a: nat)
    requires LASTTABLE <= a < WORD
    ensures NextTable(a) == 0 && TableOf(ps, d, a / PGSIZE) == TableOf(ps, d, ALLPAGES - 1)
  {
    assert a / PGSIZE / NENTRIES == NENTRIES - 1;
  }

  /** Addresses one page apart; the last step of all wraps to 0. */
  lemma PageStep(a: nat)
    requires a % PGSIZE == 0 && a < WORD
    ensures a / PGSIZE < ALLPAGES && (a + PGSIZE) / PGSIZE == a / PGSIZE + 1 && (a + PGSIZE) % PGSIZE == 0
    ensures if a == WORD - PGSIZE then (a + PGSIZE) % WORD == 0 else a + PGSIZE < WORD && (a + PGSIZE) % WORD == a + PGSIZE
    ensures a < LASTTABLE ==> a + PGSIZE <= LASTTABLE
  {}

  /** One round from `a` to the next address, when there is one. */
  ghost predicate Steps(ps: Pages, ow: Owners, fl: int, d: nat, end: nat, a: nat, oldsz: nat, ps': Pages, ow': Owners, fl': int, b: nat) {
    && Sound(ps', ow') && IsDir(ow', d) && SameWay(ps, ow, ps', ow', d, end) && b % PGSIZE == 0 && b < WORD
    && (forall n: nat :: Rounds(ps, ow, fl, d, end, a, oldsz, n + 1) == Rounds(ps', ow', fl', d, end, b, oldsz, n))
    && b == if TableOf(ps, d, a / PGSIZE) == 0 then NextTable(a) else (a + PGSIZE) % WORD
  }

  lemma OneRound(ps: Pages, ow: Owners, fl: int, d: nat, end: nat, a: nat, oldsz: nat) returns (ps': Pages, ow': Owners, fl': int, b: nat)
    requires Sound(ps, ow) && IsDir(ow, d) && a % PGSIZE == 0 && a < oldsz < WORD && !Stops(ps, ow, d, end, a / PGSIZE)
    ensures Steps(ps, ow, fl, d, end, a, oldsz, ps', ow', fl', b)
  {
    hide Sound, Find, TableOf, Refused, Kva, Unmapped, NextTable;
    var v := a / PGSIZE;
    PageStep(a);
    ps', ow', fl', b := ps, ow, fl, (a + PGSIZE) % WORD;
    if TableOf(ps, d, v) == 0 {
      b := NextTable(a);
      NextAligned(a);
    } else if Find(ps, d, v).Mapped? {
      RoundKeeps(ps, ow, d, end, v, fl);
      fl' := Find(ps, d, v).entry.frame;
      ps', ow' := Unmapped(ps, d, v, fl), ow[fl' as nat := Free];
    }
  }

  lemma NextAligned(a: nat)
    requires a < WORD
    ensures NextTable(a) % PGSIZE == 0 && NextTable(a) < WORD
  {
    var q := a / TABLESPAN + 1;
    if q < NENTRIES {
      assert NextTable(a) == q * NENTRIES * PGSIZE;
      Whole(q * NENTRIES);
    }
  }

  lemma ClearSame(ps: Pages, ow: Owners, ps': Pages, ow': Owners, d: nat, end: nat, lo: nat, hi: nat)
    requires SameWay(ps, ow, ps', ow', d, end) && Clear(ps, ow, d, end, lo, hi)
    ensures Clear(ps', ow', d, end, lo, hi)
  {
    hide Stops, Bad, TableOf;
  }

  /** A missing table has no page to stop at. */
  lemma JumpClear(ps: Pages, ow: Owners, d: nat, end: nat, a: nat, v: nat)
    requires 0 !in ps && a % PGSIZE == 0 && a < WORD && TableOf(ps, d, a / PGSIZE) == 0 && a / PGSIZE <= v < ALLPAGES && Stops(ps, ow, d, end, v)
    ensures a < LASTTABLE && a < NextTable(a) && NextTable(a) / PGSIZE <= v
  {
    hide TableOf, Refused, Kva, NextTable, Find;
    if a >= LASTTABLE {
      LastTable(a, v);
      NoTableNoPages(ps, d, a / PGSIZE, v);
    } else {
      JumpForward(ps, d, a);
    }
  }

  lemma LastTable(a: nat, v: nat)
    requires LASTTABLE <= a < WORD && a / PGSIZE <= v < ALLPAGES
    ensures a / PGSIZE < ALLPAGES && a / PGSIZE / NENTRIES == v / NENTRIES
  {}

  /** The walk stops at the first page it cannot pass. */
  lemma {:induction false} WalkStops(ps: Pages, ow: Owners, fl: int, d: nat, end: nat, a: nat, oldsz: nat, v: nat) returns (n: nat)
    requires Sound(ps, ow) && IsDir(ow, d) && a % PGSIZE == 0 && a < WORD && oldsz < WORD
    requires a / PGSIZE <= v < PagesOf(oldsz) && Stops(ps, ow, d, end, v) && Clear(ps, ow, d, end, a / PGSIZE, v)
    ensures Rounds(ps, ow, fl, d, end, a, oldsz, n) == if Bad(ps, d, end, v) then Panicked else Astray
    decreases WORD - a
  {
    hide Sound, Find, TableOf, NextTable, Stops, Bad, Foreign, Rounds, PagesOf, Clear, SameWay;
    var u := a / PGSIZE;
    SizeInPages(oldsz, v);
    PageStep(a);
    InWord(oldsz, v, a);
    if u == v {
      StopsHere(ps, ow, fl, d, end, a, oldsz);
      return 1;
    }
    ClearAt(ps, ow, d, end, u, v, u);
    var ps', ow', fl', b := OneRound(ps, ow, fl, d, end, a, oldsz);
    SoundKeys(ps, ow);
    if TableOf(ps, d, u) == 0 {
      JumpClear(ps, ow, d, end, a, v);
    } else {
      PageStep(a);
    }
    ClearSame(ps, ow, ps', ow', d, end, u, v);
    ClearFewer(ps', ow', d, end, u, b / PGSIZE, v, v);
    SameAt(ps, ow, ps', ow', d, end, v);
    var m := WalkStops(ps', ow', fl', d, end, b, oldsz, v);
    return m + 1;
  }

  lemma InWord(oldsz: nat, v: nat, a: nat)
    requires v * PGSIZE < oldsz < WORD && a % PGSIZE == 0 && a / PGSIZE <= v
    ensures v < ALLPAGES && a < oldsz && (a / PGSIZE < v ==> a != WORD - PGSIZE)
  {}

  lemma StopsHere(ps: Pages, ow: Owners, fl: int, d: nat, end: nat, a: nat, oldsz: nat)
    requires Sound(ps, ow) && a < oldsz && Stops(ps, ow, d, end, a / PGSIZE)
    ensures Rounds(ps, ow, fl, d, end, a, oldsz, 1) == if Bad(ps, d, end, a / PGSIZE) then Panicked else Astray
  {
    hide Sound, TableOf, Refused, Kva, NextTable;
    MappedHasTable(ps, ow, d, a / PGSIZE);
  }

  lemma SameAt(ps: Pages, ow: Owners, ps': Pages, ow': Owners, d: nat, end: nat, v: nat)
    requires SameWay(ps, ow, ps', ow', d, end)
    ensures Stops(ps', ow', d, end, v) == Stops(ps, ow, d, end, v) && Bad(ps', d, end, v) == Bad(ps, d, end, v)
    ensures TableOf(ps', d, v) == TableOf(ps, d, v)
  {
    hide Stops, Bad, TableOf;
  }

  lemma ClearAt(ps: Pages, ow: Owners, d: nat, end: nat, lo: nat, hi: nat, v: nat)
    requires Clear(ps, ow, d, end, lo, hi) && lo <= v < hi
    ensures !Stops(ps, ow, d, end, v)
  {}

  lemma ClearFewer(ps: Pages, ow: Owners, d: nat, end: nat, lo: nat, lo': nat, hi': nat, hi: nat)
    requires Clear(ps, ow, d, end, lo, hi) && lo <= lo' && hi' <= hi
    ensures Clear(ps, ow, d, end, lo', hi')
  {
    hide Stops;
  }

  // ----- when the walk ends

  /** The address after `a`. */
  lemma NextAddress(ps: Pages, d: nat, a: nat, oldsz: nat, b: nat)
    requires a % PGSIZE == 0 && a < oldsz < WORD && b == if TableOf(ps, d, a / PGSIZE) == 0 then NextTable(a) else (a + PGSIZE) % WORD
    ensures NoWrap(ps, d, oldsz) ==> a < b
    ensures !NoWrap(ps, d, oldsz) ==> b < oldsz && (b == 0 || a < b)
  {
    hide TableOf, NextTable;
    PageStep(a);
    if a >= LASTTABLE {
      JumpWraps(ps, d, a);
    } else {
      JumpOn(a);
    }
  }

  lemma JumpOn(a: nat)
    requires a < LASTTABLE
    ensures a < NextTable(a) <= LASTTABLE
  {}

  /** Nothing in the way and no way back to 0: the walk gets to the end. */
  lemma {:induction false} WalkRuns(ps: Pages, ow: Owners, fl: int, d: nat, end: nat, a: nat, oldsz: nat) returns (n: nat)
    requires Sound(ps, ow) && IsDir(ow, d) && a % PGSIZE == 0 && a < WORD && oldsz < WORD
    requires NoWrap(ps, d, oldsz) && Clear(ps, ow, d, end, a / PGSIZE, PagesOf(oldsz))
    ensures Rounds(ps, ow, fl, d, end, a, oldsz, n) == Ended
    decreases WORD - a
  {
    hide Sound, Find, TableOf, NextTable, Stops, Bad, Foreign, PagesOf, Clear, SameWay, NoWrap;
    if a >= oldsz {
      return 0;
    }
    var ps', ow', fl', b := NextRound(ps, ow, fl, d, end, a, oldsz, PagesOf(oldsz));
    ClearFewer(ps', ow', d, end, a / PGSIZE, b / PGSIZE, PagesOf(oldsz), PagesOf(oldsz));
    var m := WalkRuns(ps', ow', fl', d, end, b, oldsz);
    return m + 1;
  }

  lemma NextRound(ps: Pages, ow: Owners, fl: int, d: nat, end: nat, a: nat, oldsz: nat, hi: nat) returns (ps': Pages, ow': Owners, fl': int, b: nat)
    requires Sound(ps, ow) && IsDir(ow, d) && a % PGSIZE == 0 && a < oldsz < WORD && hi == PagesOf(oldsz)
    requires Clear(ps, ow, d, end, a / PGSIZE, hi)
    ensures Steps(ps, ow, fl, d, end, a, oldsz, ps', ow', fl', b) && NoWrap(ps', d, oldsz) == NoWrap(ps, d, oldsz)
    ensures Clear(ps', ow', d, end, a / PGSIZE, hi)
    ensures NoWrap(ps, d, oldsz) ==> a < b
    ensures !NoWrap(ps, d, oldsz) ==> b < oldsz && (b == 0 || a < b)
  {
    hide Sound, Find, TableOf, NextTable, Stops, Bad, Foreign, Rounds, PagesOf, Clear, SameWay;
    SizeInPages(oldsz, a / PGSIZE);
    ClearAt(ps, ow, d, end, a / PGSIZE, hi, a / PGSIZE);
    ps', ow', fl', b := OneRound(ps, ow, fl, d, end, a, oldsz);
    NextAddress(ps, d, a, oldsz, b);
    ClearSame(ps, ow, ps', ow', d, end, a / PGSIZE, hi);
    SameAt(ps, ow, ps', ow', d, end, ALLPAGES - 1);
  }

  /** The walk goes back to 0 and stops at the first page in the way from there. */
  lemma {:induction false} WalkComesRound(ps: Pages, ow: Owners, fl: int, d: nat, end: nat, a: nat, oldsz: nat, v: nat) returns (n: nat)
    requires Sound(ps, ow) && IsDir(ow, d) && a % PGSIZE == 0 && a < oldsz < WORD && !NoWrap(ps, d, oldsz)
    requires Clear(ps, ow, d, end, a / PGSIZE, PagesOf(oldsz)) && v < PagesOf(oldsz) && Stops(ps, ow, d, end, v) && Clear(ps, ow, d, end, 0, v)
    ensures Rounds(ps, ow, fl, d, end, a, oldsz, n) != Going
    decreases WORD - a
  {
    hide Sound, Find, TableOf, NextTable, Stops, Bad, Foreign, Rounds, PagesOf, Clear, SameWay, NoWrap;
    var ps', ow', fl', b := NextRound(ps, ow, fl, d, end, a, oldsz, PagesOf(oldsz));
    SameAt(ps, ow, ps', ow', d, end, v);
    ClearSame(ps, ow, ps', ow', d, end, 0, v);
    var m;
    if b == 0 {
      m := WalkStops(ps', ow', fl', d, end, 0, oldsz, v);
    } else {
      ClearFewer(ps', ow', d, end, a / PGSIZE, b / PGSIZE, PagesOf(oldsz), PagesOf(oldsz));
      m := WalkComesRound(ps', ow', fl', d, end, b, oldsz, v);
    }
    return m + 1;
  }

  /** With nothing in its way anywhere, a walk that comes back to 0 goes on for ever. */
  lemma {:induction false} WalkGoesOn(ps: Pages, ow: Owners, fl: int, d: nat, end: nat, a: nat, oldsz: nat, n: nat)
    requires Sound(ps, ow) && IsDir(ow, d) && a % PGSIZE == 0 && a < oldsz < WORD && !NoWrap(ps, d, oldsz)
    requires Clear(ps, ow, d, end, 0, PagesOf(oldsz))
    ensures Rounds(ps, ow, fl, d, end, a, oldsz, n) == Going
    decreases n
  {
    hide Sound, Find, TableOf, NextTable, Stops, Bad, Foreign, PagesOf, Clear, SameWay, NoWrap;
    if n > 0 {
      ClearFewer(ps, ow, d, end, 0, a / PGSIZE, PagesOf(oldsz), PagesOf(oldsz));
      var ps', ow', fl', b := NextRound(ps, ow, fl, d, end, a, oldsz, PagesOf(oldsz));
      ClearSame(ps, ow, ps', ow', d, end, 0, PagesOf(oldsz));
      WalkGoesOn(ps', ow', fl', d, end, b, oldsz, n - 1);
      assert Rounds(ps, ow, fl, d, end, a, oldsz, n - 1 + 1) == Rounds(ps', ow', fl', d, end, b, oldsz, n - 1);
    }
  }

  /** The first page of a stretch at which the walk stops, if there is one. */
  lemma {:induction false} FirstStop(ps: Pages, ow: Owners, d: nat, end: nat, lo: nat, hi: nat) returns (v: nat)
    requires lo <= hi
    ensures lo <= v <= hi && Clear(ps, ow, d, end, lo, v) && (v < hi ==> Stops(ps, ow, d, end, v))
    decreases hi - lo
  {
    hide Stops;
    if lo == hi || Stops(ps, ow, d, end, lo) {
      return lo;
    }
    v := FirstStop(ps, ow, d, end, lo + 1, hi);
  }

  /** Exactly when `deallocuvm` comes to an end, for every directory, start and size. */
  lemma WalkEndsIff(ps: Pages, ow: Owners, fl: int, d: nat, end: nat, a: nat, oldsz: nat)
    requires Sound(ps, ow) && IsDir(ow, d) && a % PGSIZE == 0 && a < WORD && oldsz < WORD
    ensures (exists n :: Rounds(ps, ow, fl, d, end, a, oldsz, n) != Going) <==>
            a >= oldsz || NoWrap(ps, d, oldsz) || exists v :: 0 <= v < PagesOf(oldsz) && Stops(ps, ow, d, end, v)
  {
    hide Sound, Find, TableOf, NextTable, Stops, Bad, Foreign, PagesOf, Clear, NoWrap;
    var lo, hi := a / PGSIZE, PagesOf(oldsz);
    if a >= oldsz {
      assert Rounds(ps, ow, fl, d, end, a, oldsz, 0) != Going;
    } else {
      SizeInPages(oldsz, lo);
      var n := AnEnding(ps, ow, fl, d, end, a, oldsz);
      var v0 := FirstStop(ps, ow, d, end, 0, hi);
      if !NoWrap(ps, d, oldsz) && v0 == hi {
        forall n: nat
          ensures Rounds(ps, ow, fl, d, end, a, oldsz, n) == Going
        {
          WalkGoesOn(ps, ow, fl, d, end, a, oldsz, n);
        }
        forall v | 0 <= v < hi
          ensures !Stops(ps, ow, d, end, v)
        {
          ClearAt(ps, ow, d, end, 0, hi, v);
        }
      }
    }
  }

  /** Two directories on which it does not: an empty one, when the jump over the last table
      goes back to 0, and one whose last table is there and empty, when the last step does. */
  lemma WalkNeverEnds(last: bool, oldsz: nat, n: nat)
    requires (if last then WORD - PGSIZE else LASTTABLE) < oldsz < WORD
    ensures var none := EmptyTable();
            var ps := if last then map[1 := SetEntry(none, NENTRIES - 1, Entry(2, ALLRIGHTS)), 2 := none] else map[1 := none];
            var ow := if last then map[1 := Dir, 2 := Table(1, NENTRIES - 1)] else map[1 := Dir];
            Sound(ps, ow) && Rounds(ps, ow, -1, 1, KERNBASE + PGSIZE, 0, oldsz, n) == Going
  {
    hide Rounds, PagesOf;
    var none := EmptyTable();
    var ps: Pages := if last then map[1 := SetEntry(none, NENTRIES - 1, Entry(2, ALLRIGHTS)), 2 := none] else map[1 := none];
    var ow: Owners := if last then map[1 := Dir, 2 := Table(1, NENTRIES - 1)] else map[1 := Dir];
    assert FrameOk(ps, ow, 1);
    assert last ==> FrameOk(ps, ow, 2);
    assert Sound(ps, ow);
    assert Clear(ps, ow, 1, KERNBASE + PGSIZE, 0, PagesOf(oldsz)) by {
      forall v: nat
        ensures Find(ps, 1, v) == Nothing
      {}
    }
    WalkGoesOn(ps, ow, -1, 1, KERNBASE + PGSIZE, 0, oldsz, n);
  }

  lemma AnEnding(ps: Pages, ow: Owners, fl: int, d: nat, end: nat, a: nat, oldsz: nat) returns (n: nat)
    requires Sound(ps, ow) && IsDir(ow, d) && a % PGSIZE == 0 && a < oldsz < WORD && a / PGSIZE < PagesOf(oldsz)
    ensures NoWrap(ps, d, oldsz) || (exists v :: 0 <= v < PagesOf(oldsz) && Stops(ps, ow, d, end, v)) ==>
              Rounds(ps, ow, fl, d, end, a, oldsz, n) != Going
  {
    hide Sound, Find, TableOf, NextTable, Stops, Bad, Foreign, Rounds, PagesOf, Clear, NoWrap;
    n := 0;
    var lo, hi := a / PGSIZE, PagesOf(oldsz);
    var v := FirstStop(ps, ow, d, end, lo, hi);
    var v0 := FirstStop(ps, ow, d, end, 0, hi);
    if v < hi {
      n := WalkStops(ps, ow, fl, d, end, a, oldsz, v);
    } else if NoWrap(ps, d, oldsz) {
      n := WalkRuns(ps, ow, fl, d, end, a, oldsz);
    } else if v0 < hi {
      n := WalkComesRound(ps, ow, fl, d, end, a, oldsz, v0);
    } else {
      forall v | 0 <= v < hi
        ensures !Stops(ps, ow, d, end, v)
      {
        ClearAt(ps, ow, d, end, 0, hi, v);
      }
    }
  }

  // ----- directories as setupkvm makes them

  /** The kernel's part of a directory is as `setupkvm` made it. */
  ghost predicate KernelPart(ps: Pages, d: nat, data: nat)
    requires GoodData(data)
  {
    forall v: nat :: USERPAGES <= v ==> Find(ps, d, v) == KernelFind(Kmaps(data), 4, v)
  }

  /** What the four mappings come to. */
  lemma KernelFindIs(data: nat, v: nat)
    requires GoodData(data) && USERPAGES <= v
    ensures var e := KernelFind(Kmaps(data), 4, v);
            && (v < USERPAGES + PHYSTOP / PGSIZE ==> e.Mapped? && e.entry.frame == v - USERPAGES)
            && (DEVSPACE / PGSIZE <= v < ALLPAGES ==> e.Mapped? && e.entry.frame == v)
            && (USERPAGES + PHYSTOP / PGSIZE <= v < DEVSPACE / PGSIZE || ALLPAGES <= v ==> e == Nothing)
  {
    var ks := Kmaps(data);
    var k4 := KernelFind(ks, 4, v);
    var k3 := KernelFind(ks, 3, v);
    var k2 := KernelFind(ks, 2, v);
    var k1 := KernelFind(ks, 1, v);
    assert KernelFind(ks, 0, v) == Nothing;
  }

  /** Which pages of such a directory are bad. */
  lemma KernelBad(ps: Pages, ow: Owners, d: nat, data: nat, end: nat, v: nat)
    requires GoodData(data) && KERNBASE < end <= KERNBASE + PHYSTOP && KernelPart(ps, d, data)
    requires Sound(ps, ow) && IsDir(ow, d) && Managed(end, ow)
    ensures Bad(ps, d, end, v) <==> (USERPAGES <= v && v * PGSIZE < end) || DEVSPACE / PGSIZE <= v < ALLPAGES
  {
    hide Find, Kmaps, Sound;
    if v < USERPAGES {
      if Find(ps, d, v).Mapped? {
        MappedOwner(ps, ow, d, v);
        KvaFrame(end, Find(ps, d, v).entry.frame);
      }
    } else {
      KernelFindIs(data, v);
      assert Find(ps, d, v) == KernelFind(Kmaps(data), 4, v);
      if v < USERPAGES + PHYSTOP / PGSIZE {
        KvaFrame(end, v - USERPAGES);
      } else if DEVSPACE / PGSIZE <= v < ALLPAGES {
        KvaFrame(end, v);
      }
    }
  }

  /** Where the walk stops in such a directory: at every mapped page beyond KERNBASE. */
  lemma KernelStops(ps: Pages, ow: Owners, d: nat, data: nat, end: nat, v: nat)
    requires GoodData(data) && KERNBASE < end <= KERNBASE + PHYSTOP && KernelPart(ps, d, data)
    requires Sound(ps, ow) && IsDir(ow, d) && Managed(end, ow)
    ensures Stops(ps, ow, d, end, v) <==> USERPAGES <= v < USERPAGES + PHYSTOP / PGSIZE || DEVSPACE / PGSIZE <= v < ALLPAGES
  {
    hide Find, Kmaps, Sound, Bad;
    KernelBad(ps, ow, d, data, end, v);
    if v < USERPAGES {
      if Find(ps, d, v).Mapped? {
        MappedOwner(ps, ow, d, v);
      }
    } else {
      KernelFindIs(data, v);
      assert Find(ps, d, v) == KernelFind(Kmaps(data), 4, v);
      if Find(ps, d, v).Mapped? && Find(ps, d, v).entry.frame in ow && ow[Find(ps, d, v).entry.frame].User? {
        UserPage(ps, ow, Find(ps, d, v).entry.frame);
      }
    }
  }

  /** `deallocuvm` on an address space of the kernel's making, for every two sizes. It
      panics if it comes to the kernel's own pages or the devices' pages first, and goes
      astray if it starts among the pages through which the kernel sees all memory. */
  lemma KernelWalk(ps: Pages, ow: Owners, fl: int, d: nat, data: nat, end: nat, oldsz: nat, newsz: nat) returns (n: nat)
    requires GoodData(data) && KERNBASE < end <= KERNBASE + PHYSTOP && newsz < oldsz < WORD && KernelPart(ps, d, data)
    requires Sound(ps, ow) && IsDir(ow, d) && Managed(end, ow)
    ensures Rounds(ps, ow, fl, d, end, Start(newsz) * PGSIZE, oldsz, n) == KernelEnding(end, Start(newsz) * PGSIZE, oldsz)
  {
    hide Find, Kmaps, Sound, Bad, Stops, KernelPart, PagesOf, Start, Clear, TableOf, Foreign, Unmapped, NextTable;
    StartIs(newsz);
    var a, lo, hi := Start(newsz) * PGSIZE, Start(newsz), PagesOf(oldsz);
    if a >= oldsz {
      return 0;
    }
    WordPage(a, lo);
    KernelNoWrap(ps, ow, d, data, end);
    forall v: nat
      ensures Stops(ps, ow, d, end, v) <==> USERPAGES <= v < USERPAGES + PHYSTOP / PGSIZE || DEVSPACE / PGSIZE <= v < ALLPAGES
      ensures Bad(ps, d, end, v) <==> (USERPAGES <= v && v * PGSIZE < end) || DEVSPACE / PGSIZE <= v < ALLPAGES
    {
      KernelStops(ps, ow, d, data, end, v);
      KernelBad(ps, ow, d, data, end, v);
    }
    KernelPages(oldsz, lo);
    if KernelEnding(end, a, oldsz) == Ended {
      ClearBetween(ps, ow, d, end, lo, hi);
      n := WalkRuns(ps, ow, fl, d, end, a, oldsz);
    } else {
      var v := if lo < USERPAGES then USERPAGES else if lo < USERPAGES + PHYSTOP / PGSIZE || DEVSPACE / PGSIZE < lo then lo else DEVSPACE / PGSIZE;
      ClearBetween(ps, ow, d, end, lo, v);
      n := WalkStops(ps, ow, fl, d, end, a, oldsz, v);
    }
  }

  /** Which of the endings it is, from the two addresses alone. */
  function KernelEnding(end: nat, a: nat, oldsz: nat): Ending {
    if a >= oldsz || oldsz <= KERNBASE then Ended
    else if a < end then Panicked
    else if a < KERNBASE + PHYSTOP then Astray
    else if oldsz > DEVSPACE then Panicked
    else Ended
  }

  lemma ClearBetween(ps: Pages, ow: Owners, d: nat, end: nat, lo: nat, hi: nat)
    requires forall v: nat :: lo <= v < hi ==> !Stops(ps, ow, d, end, v)
    ensures Clear(ps, ow, d, end, lo, hi)
  {
    hide Stops;
  }

  lemma KernelPages(oldsz: nat, lo: nat)
    requires oldsz < WORD
    ensures PagesOf(oldsz) <= ALLPAGES && (lo * PGSIZE < oldsz <==> lo < PagesOf(oldsz))
    ensures (oldsz > KERNBASE <==> PagesOf(oldsz) > USERPAGES) && (oldsz > DEVSPACE <==> PagesOf(oldsz) > DEVSPACE / PGSIZE)
  {}

  /** The devices' table is the last one, so that nothing wraps below it. */
  lemma KernelNoWrap(ps: Pages, ow: Owners, d: nat, data: nat, end: nat)
    requires GoodData(data) && KERNBASE < end <= KERNBASE + PHYSTOP && KernelPart(ps, d, data)
    requires Sound(ps, ow) && IsDir(ow, d) && Managed(end, ow)
    ensures TableOf(ps, d, ALLPAGES - 1) != 0
  {
    hide Find, Kmaps, Sound, KernelPart, TableOf;
    KernelBad(ps, ow, d, data, end, ALLPAGES - 1);
    MappedHasTable(ps, ow, d, ALLPAGES - 1);
  }

  // ----- for the loop of deallocuvm

  /** The page at which a call starts; rounding up may wrap. */
  function Start(newsz: nat): nat {
    PagesOf(newsz) % ALLPAGES
  }

  lemma StartIs(newsz: nat)
    requires newsz < WORD
    ensures (newsz + PGSIZE - 1) / PGSIZE * PGSIZE % WORD == Start(newsz) * PGSIZE < WORD
    ensures newsz <= KERNBASE ==> Start(newsz) == PagesOf(newsz) <= USERPAGES
  {}

  lemma WordPage(a: nat, v: nat)
    requires a == v * PGSIZE && a < WORD
    ensures a / PGSIZE == v && v < ALLPAGES && (a >= KERNBASE <==> v >= USERPAGES)
  {}

  /** The kernel's part of a directory is not touched by unmapping pages below it. */
  lemma KernelPartStays(ps0: Pages, ow0: Owners, ps: Pages, ow: Owners, d: nat, data: nat, lo: nat, hi: nat)
    requires GoodData(data) && KernelPart(ps0, d, data) && Unmapping(ps0, ow0, ps, ow, d, lo, hi) && (hi <= USERPAGES || hi <= lo)
    ensures KernelPart(ps, d, data)
  {
    hide Find, Kmaps;
    assert Cleared(ps0, ps, d, lo, hi);
  }

  /** How far a walk from page `lo` gets without an ending. */
  predicate InReach(lo: nat, v: nat) {
    && (lo < USERPAGES + PHYSTOP / PGSIZE ==> v <= if lo < USERPAGES then USERPAGES else lo)
    && v <= if lo < DEVSPACE / PGSIZE then DEVSPACE / PGSIZE else lo
  }

  /** A page beyond KERNBASE within reach: mapped, it is the ending of the walk. */
  lemma AtKernelPage(ps: Pages, ow: Owners, d: nat, data: nat, end: nat, lo: nat, v: nat, oldsz: nat)
    requires GoodData(data) && KERNBASE < end <= KERNBASE + PHYSTOP && KernelPart(ps, d, data)
    requires Sound(ps, ow) && IsDir(ow, d) && Managed(end, ow)
    requires lo <= v && USERPAGES <= v < ALLPAGES && InReach(lo, v) && v * PGSIZE < oldsz
    ensures Find(ps, d, v).Mapped? ==> KernelEnding(end, lo * PGSIZE, oldsz) == if Bad(ps, d, end, v) then Panicked else Astray
    ensures Find(ps, d, v).Mapped? && !Bad(ps, d, end, v) ==> v == lo
    ensures !Find(ps, d, v).Mapped? ==> v < DEVSPACE / PGSIZE && InReach(lo, v + 1) && InReach(lo, (v / NENTRIES + 1) * NENTRIES) && lo > USERPAGES
  {
    hide Find, Kmaps, Sound, Bad, KernelPart;
    KernelBad(ps, ow, d, data, end, v);
    KernelFindIs(data, v);
    assert Find(ps, d, v) == KernelFind(Kmaps(data), 4, v) by { KernelPartAt(ps, d, data, v); }
  }

  lemma KernelPartAt(ps: Pages, d: nat, data: nat, v: nat)
    requires GoodData(data) && KernelPart(ps, d, data) && USERPAGES <= v
    ensures Find(ps, d, v) == KernelFind(Kmaps(data), 4, v)
  {}

  /** A page that is not mapped is left behind, and so is a table that is not there. */
  lemma PassOver(ps0: Pages, ow0: Owners, ps: Pages, ow: Owners, d: nat, lo: nat, v: nat, hi: nat, next: nat)
    requires Sound(ps, ow) && IsDir(ow, d) && lo <= v && lo <= hi && Unmapping(ps0, ow0, ps, ow, d, lo, if v <= hi then v else hi)
    requires (next == v + 1 && Find(ps, d, v) == Nothing) || (TableOf(ps, d, v) == 0 && v * PGSIZE < LASTTABLE && next == (v / NENTRIES + 1) * NENTRIES)
    ensures Unmapping(ps0, ow0, ps, ow, d, lo, if next <= hi then next else hi)
    ensures TableOf(ps, d, v) == 0 && v * PGSIZE < LASTTABLE ==> NextTable(v * PGSIZE) == (v / NENTRIES + 1) * NENTRIES * PGSIZE
  {
    hide Find, Unmapping, Sound, NextTable, TableOf;
    if v * PGSIZE < LASTTABLE {
      JumpTo(v * PGSIZE, v);
    }
    if next != v + 1 {
      SkipTable(ps, ow, d, v, next);
    } else {
      NextAlone(ps, ow, d, v);
    }
    if v <= hi {
      UnmappingSkips(ps0, ow0, ps, ow, d, lo, v, if next <= hi then next else hi);
    }
  }

  lemma NextAlone(ps: Pages, ow: Owners, d: nat, v: nat)
    requires Sound(ps, ow) && (Find(ps, d, v) == Nothing || TableOf(ps, d, v) == 0)
    ensures Find(ps, d, v) == Nothing
  {}

  lemma StartInReach(lo: nat)
    ensures InReach(lo, lo)
  {}

  lemma IsBad(ps: Pages, d: nat, end: nat, v: nat)
    requires Find(ps, d, v).Mapped?
    ensures Bad(ps, d, end, v) <==> Find(ps, d, v).entry.frame == 0 || Refused(end, Kva(Find(ps, d, v).entry.frame))
  {}

  lemma InReachUser(lo: nat, v: nat)
    requires v < USERPAGES && lo <= v
    ensures InReach(lo, v + 1) && InReach(lo, (v / NENTRIES + 1) * NENTRIES) && v < (v / NENTRIES + 1) * NENTRIES
  {}

  /** Past `oldsz` without having met an ending. */
  lemma EndsHere(end: nat, lo: nat, v: nat, oldsz: nat)
    requires KERNBASE < end <= KERNBASE + PHYSTOP && lo <= v && oldsz <= v * PGSIZE && (oldsz > KERNBASE ==> InReach(lo, v))
    ensures KernelEnding(end, lo * PGSIZE, oldsz) == Ended && (oldsz > KERNBASE ==> lo >= USERPAGES)
  {}

  lemma UserNotRefused(ps: Pages, ow: Owners, end: nat, d: nat, v: nat)
    requires Sound(ps, ow) && IsDir(ow, d) && KERNBASE < end && Managed(end, ow) && v < USERPAGES && Find(ps, d, v).Mapped?
    ensures !Bad(ps, d, end, v)
  {
    hide Find, Sound, Refused;
    MappedOwner(ps, ow, d, v);
    ManagedFrame(end, ow, Find(ps, d, v).entry.frame);
  }
}
