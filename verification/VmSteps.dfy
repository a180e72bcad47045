/** One step at a time: what taking and giving frames and changing page-table entries
    do to everything else. */
module VmSteps {
  import opened Blocks
  import opened Frames

  // ----- the free list

  /** The free pages, linked through themselves in the order of `list`. */
  ghost predicate Listed(ps: Pages, ow: Owners, freelist: int, list: seq<nat>) {
    && freelist == (if list == [] then -1 else list[0])
    && (forall i, j :: 0 <= i < j < |list| ==> list[i] != list[j])
    && (forall i :: 0 <= i < |list| ==> Linked(ps, list, i))
    && (forall f :: f in list <==> f in ow && ow[f] == Free)
  }

  ghost predicate Linked(ps: Pages, list: seq<nat>, i: nat)
    requires i < |list|
  {
    list[i] in ps && ps[list[i]] == Run(if i + 1 < |list| then list[i + 1] else -1)
  }

  lemma TakeFirst(ps: Pages, ow: Owners, freelist: int, list: seq<nat>)
    requires Listed(ps, ow, freelist, list) && list != []
    ensures freelist >= 0 && freelist in ps && ps[freelist].Run?
    ensures Listed(ps, ow[freelist as nat := Held], ps[freelist].next, list[1..])
  {
    assert Linked(ps, list, 0);
    var rest := list[1..];
    forall i | 0 <= i < |rest|
      ensures Linked(ps, rest, i)
    {
      assert Linked(ps, list, i + 1);
    }
    assert list == [list[0]] + rest;
  }

  lemma PutFirst(ps: Pages, ow: Owners, freelist: int, list: seq<nat>, f: nat)
    requires Listed(ps, ow, freelist, list) && f in ow && ow[f] != Free
    ensures Listed(ps[f := Run(freelist)], ow[f := Free], f, [f] + list)
  {
    var ps', all := ps[f := Run(freelist)], [f] + list;
    forall i | 0 <= i < |all|
      ensures Linked(ps', all, i)
    {
      if i > 0 {
        assert Linked(ps, list, i - 1);
      }
    }
  }

  /** The list depends on the free pages alone. */
  lemma ListedSame(ps: Pages, ow: Owners, ps': Pages, ow': Owners, freelist: int, list: seq<nat>)
    requires Listed(ps, ow, freelist, list) && (forall f :: f in ow && ow[f] == Free <==> f in ow' && ow'[f] == Free)
    requires forall f :: f in ow && ow[f] == Free ==> f in ps && f in ps' && ps'[f] == ps[f]
    ensures Listed(ps', ow', freelist, list)
  {
    forall i | 0 <= i < |list|
      ensures Linked(ps', list, i)
    {
      assert Linked(ps, list, i) && list[i] in list;
    }
  }

  lemma NoFrames()
    ensures Sound(map[], map[]) && Listed(map[], map[], -1, [])
  {}

  /** A frame that was not under management yet. */
  lemma NewFrame(ps: Pages, ow: Owners, freelist: int, list: seq<nat>, f: nat, p: Page)
    requires Sound(ps, ow) && Listed(ps, ow, freelist, list) && f !in ow && f > 0
    ensures Sound(ps[f := p], ow[f := Held]) && Listed(ps[f := p], ow[f := Held], freelist, list)
  {
    forall g | g in ow
      ensures FrameOk(ps[f := p], ow[f := Held], g)
    {
      assert FrameOk(ps, ow, g);
    }
    ListedSame(ps, ow, ps[f := p], ow[f := Held], freelist, list);
  }

  function ZeroPage(): Page {
    Data(seq(PGSIZE, i => 0 as Byte))
  }

  lemma FirstIs(ps: Pages, ow: Owners, freelist: int, list: seq<nat>)
    requires Listed(ps, ow, freelist, list) && Sound(ps, ow)
    ensures list == [] <==> freelist == -1
    ensures list != [] ==> freelist in ow && ow[freelist as nat] == Free && freelist in ps
  {
    if list != [] {
      assert list[0] in list;
    }
  }

  ghost predicate IsDir(ow: Owners, d: nat) {
    d in ow && ow[d] == Dir
  }

  /** Free frames may have become tables of `d`; all else is as it was. */
  ghost predicate Grew(ow: Owners, ow': Owners, d: nat) {
    ow'.Keys == ow.Keys && forall f :: f in ow ==> ow'[f] == ow[f] || (ow[f] == Free && ow'[f].Table? && ow'[f].dir == d)
  }

  ghost predicate SameFinds(ps: Pages, ow: Owners, ps': Pages) {
    forall d, v :: IsDir(ow, d) ==> Find(ps', d, v) == Find(ps, d, v)
  }

  /** Pages of data, mapped or in somebody's hands, have not changed. */
  ghost predicate SameData(ps: Pages, ow: Owners, ps': Pages, ow': Owners) {
    ow'.Keys == ow.Keys &&
    forall f :: f in ow && Contents(ow[f]) && Contents(ow'[f]) ==> f in ps && f in ps' && ps'[f] == ps[f]
  }

  predicate Contents(o: Owner) {
    o.User? || o == Held
  }

  lemma SameRefl(ps: Pages, ow: Owners)
    requires Sound(ps, ow)
    ensures SameFinds(ps, ow, ps) && SameData(ps, ow, ps, ow)
  {}

  lemma NoTable(ps: Pages, ow: Owners, d: nat, v: nat)
    requires Sound(ps, ow) && IsDir(ow, d) && v < ALLPAGES && TableOf(ps, d, v) == 0
    ensures IsTable(ps[d]) && v / NENTRIES < NENTRIES && !Present(ps[d].es[v / NENTRIES])
  {
    TableIs(ps, ow, d, v);
  }

  lemma AddTableIs(ps: Pages, d: nat, x: nat, f: nat)
    requires d in ps && IsTable(ps[d]) && x < NENTRIES
    ensures ps[f := EmptyTable()][d := SetEntry(ps[d], x, Entry(f, {PTE_P, PTE_W, PTE_U}))] == AddTable(ps, d, x, f)
  {}

  /** A page just allocated becomes a page table. */
  lemma AddTableStep(ps0: Pages, ow0: Owners, ps: Pages, ow: Owners, freelist: int, list: seq<nat>, d: nat, v: nat, f: nat)
    requires Sound(ps, ow) && Listed(ps, ow, freelist, list) && IsDir(ow, d) && v < ALLPAGES && f in ow && ow[f] == Held
    requires IsTable(ps[d]) && v / NENTRIES < NENTRIES && !Present(ps[d].es[v / NENTRIES])
    requires Sound(ps0, ow0) && ps0 == ps && f in ow0 && ow0[f] == Free && ow == ow0[f := Held]
    ensures var ps', ow' := AddTable(ps, d, v / NENTRIES, f), ow[f := Table(d, v / NENTRIES)];
            && Sound(ps', ow') && Listed(ps', ow', freelist, list) && HasTable(ps', ow', d, v, f)
            && Grew(ow0, ow', d) && SameFinds(ps0, ow0, ps') && SameData(ps0, ow0, ps', ow')
  {
    hide Sound, Listed, Find, Grew, SameData, AddTable;
    SoundKeys(ps, ow);
    var x := v / NENTRIES;
    var ps', ow' := AddTable(ps, d, x, f), ow[f := Table(d, x)];
    AddTableKeeps(ps, ow, d, x, f);
    AddTableSame(ps, ow0, ow, d, x, f);
    ListedSame(ps, ow, ps', ow', freelist, list);
    forall d2, v2 | IsDir(ow0, d2)
      ensures Find(ps', d2, v2) == Find(ps0, d2, v2)
    {
      AddTableFinds(ps, ow, d, x, f, d2, v2);
    }
    AddTableHas(ps, ow, d, v, f);
  }

  lemma AddTableSame(ps: Pages, ow0: Owners, ow: Owners, d: nat, x: nat, f: nat)
    requires d in ps && IsTable(ps[d]) && x < NENTRIES && ow0.Keys == ps.Keys && f in ow0 && ow0[f] == Free && ow == ow0[f := Held] && IsDir(ow, d)
    ensures var ps', ow' := AddTable(ps, d, x, f), ow[f := Table(d, x)];
            && Grew(ow0, ow', d) && SameData(ps, ow0, ps', ow')
            && forall g :: g in ow && ow[g] == Free ==> g in ps && g in ps' && ps'[g] == ps[g]
  {}

  lemma AddTableHas(ps: Pages, ow: Owners, d: nat, v: nat, f: nat)
    requires d in ps && IsTable(ps[d]) && v < ALLPAGES && v / NENTRIES < NENTRIES && IsDir(ow, d) && f in ow && ow[f] == Held
    ensures HasTable(AddTable(ps, d, v / NENTRIES, f), ow[f := Table(d, v / NENTRIES)], d, v, f)
  {}

  lemma SoundKeys(ps: Pages, ow: Owners)
    requires Sound(ps, ow)
    ensures ow.Keys == ps.Keys && 0 !in ow
  {}

  // ----- mapping one page

  ghost predicate MapsTo(ps: Pages, ps': Pages, d: nat, first: nat, n: nat, frame: nat, flags: set<nat>) {
    forall v: nat :: Find(ps', d, v) == if first <= v < first + n then Mapped(Entry(frame + (v - first), flags)) else Find(ps, d, v)
  }

  ghost predicate OtherFinds(ps: Pages, ow: Owners, ps': Pages, d: nat) {
    forall d2, v :: IsDir(ow, d2) && d2 != d ==> Find(ps', d2, v) == Find(ps, d2, v)
  }

  /** A user page takes the frame over from its holder. */
  function Claim(ow: Owners, d: nat, v: nat, frame: nat): Owners {
    if v < USERPAGES then ow[frame := User(d, v)] else ow
  }

  /** The caller may map `frame` at page `v`. */
  ghost predicate MayMap(ps: Pages, ow: Owners, v: nat, frame: nat) {
    v < USERPAGES ==> frame in ow && frame in ps && ow[frame] == Held && ps[frame].Data?
  }

  /** Writing an absent entry of a table that is there. */
  lemma PutStep(ps: Pages, ow: Owners, freelist: int, list: seq<nat>, d: nat, v: nat, t: nat, frame: nat, flags: set<nat>)
    requires Sound(ps, ow) && Listed(ps, ow, freelist, list) && HasTable(ps, ow, d, v, t) && Find(ps, d, v) == Nothing
    requires PTE_P in flags && MayMap(ps, ow, v, frame)
    ensures var ps', ow' := PutEntry(ps, t, v, Entry(frame, flags)), Claim(ow, d, v, frame);
            && Sound(ps', ow') && Listed(ps', ow', freelist, list) && ow'.Keys == ow.Keys == ps'.Keys
            && MapsTo(ps, ps', d, v, 1, frame, flags) && OtherFinds(ps, ow, ps', d) && SameData(ps, ow, ps', ow')
  {
    hide Sound, Listed, Find;
    SoundKeys(ps, ow);
    var e := Entry(frame, flags);
    var ps', ow' := PutEntry(ps, t, v, e), Claim(ow, d, v, frame);
    AbsentEntry(ps, ow, d, v, t);
    if v < USERPAGES {
      MapUserKeeps(ps, ow, d, v, t, frame, e);
    } else {
      MapKernelKeeps(ps, ow, d, v, t, e);
    }
    ListedSame(ps, ow, ps', ow', freelist, list);
    forall d2, v2 | IsDir(ow, d2)
      ensures Find(ps', d2, v2) == if d2 == d && v2 == v then Mapped(e) else Find(ps, d2, v2)
    {
      PutFinds(ps, ow, d, v, t, e, d2, v2);
    }
  }

  lemma AbsentEntry(ps: Pages, ow: Owners, d: nat, v: nat, t: nat)
    requires HasTable(ps, ow, d, v, t)
    ensures Find(ps, d, v) == (if Present(ps[t].es[v % NENTRIES]) then Mapped(ps[t].es[v % NENTRIES]) else Nothing)
  {}

  /** A table may have been added before the entry was written. */
  lemma MapThrough(ps: Pages, ow: Owners, mid: Pages, mow: Owners, ps': Pages, d: nat, v: nat, frame: nat, flags: set<nat>)
    requires IsDir(ow, d) && SameFinds(ps, ow, mid) && Grew(ow, mow, d) && SameData(ps, ow, mid, mow) && MayMap(ps, ow, v, frame)
    requires MapsTo(mid, ps', d, v, 1, frame, flags) && OtherFinds(mid, mow, ps', d) && SameData(mid, mow, ps', Claim(mow, d, v, frame))
    ensures MayMap(mid, mow, v, frame) && MapsTo(ps, ps', d, v, 1, frame, flags) && OtherFinds(ps, ow, ps', d)
    ensures SameData(ps, ow, ps', Claim(mow, d, v, frame)) && Grew(Claim(ow, d, v, frame), Claim(mow, d, v, frame), d)
  {
    hide Find;
  }

  lemma StillMay(ps: Pages, ow: Owners, mid: Pages, mow: Owners, d: nat, v: nat, frame: nat)
    requires IsDir(ow, d) && SameFinds(ps, ow, mid) && Grew(ow, mow, d) && SameData(ps, ow, mid, mow) && MayMap(ps, ow, v, frame)
    ensures MayMap(mid, mow, v, frame) && IsDir(mow, d) && Find(mid, d, v) == Find(ps, d, v)
  {
    hide Find;
  }

  // ----- mapping several pages

  /** The caller may map `n` frames from `frame` on, at pages from `first` on. */
  ghost predicate MayMapAll(ps: Pages, ow: Owners, first: nat, n: nat, frame: nat) {
    forall i :: 0 <= i < n ==> MayMapAt(ps, ow, first, frame, i)
  }

  ghost predicate MayMapAt(ps: Pages, ow: Owners, first: nat, frame: nat, i: nat) {
    MayMap(ps, ow, first + i, frame + i)
  }

  function Claims(ow: Owners, d: nat, first: nat, n: nat, frame: nat): Owners {
    if n == 0 then ow else Claim(Claims(ow, d, first, n - 1, frame), d, first + n - 1, frame + n - 1)
  }

  /** Claiming takes frames that were held, and no others. */
  lemma {:induction false} ClaimsKeep(ps: Pages, ow: Owners, d: nat, first: nat, n: nat, frame: nat, f: nat)
    requires MayMapAll(ps, ow, first, n, frame) && f in ow
    ensures var o := Claims(ow, d, first, n, frame);
            && o.Keys == ow.Keys && (o[f] == ow[f] || (ow[f] == Held && o[f].User? && frame <= f < frame + n))
  {
    if n > 0 {
      ClaimsKeep(ps, ow, d, first, n - 1, frame, f);
      assert MayMapAt(ps, ow, first, frame, n - 1);
    }
  }

  lemma ClaimsOne(ow: Owners, d: nat, first: nat, frame: nat)
    ensures Claims(ow, d, first, 1, frame) == Claim(ow, d, first, frame) && Claims(ow, d, first, 0, frame) == ow
  {}

  /** Kernel pages claim nothing. */
  lemma {:induction false} ClaimsKernel(ow: Owners, d: nat, first: nat, n: nat, frame: nat)
    requires USERPAGES <= first
    ensures Claims(ow, d, first, n, frame) == ow
  {
    if n > 0 {
      ClaimsKernel(ow, d, first, n - 1, frame);
    }
  }

  /** From (`ps`, `ow`) to (`ps'`, `ow'`), `n` pages of `d` were mapped and nothing else
      was touched. */
  ghost predicate Mapping(ps: Pages, ow: Owners, ps': Pages, ow': Owners, d: nat, first: nat, n: nat, frame: nat, flags: set<nat>) {
    && MapsTo(ps, ps', d, first, n, frame, flags) && OtherFinds(ps, ow, ps', d) && SameData(ps, ow, ps', ow')
    && Grew(Claims(ow, d, first, n, frame), ow', d)
  }

  lemma NoMapping(ps: Pages, ow: Owners, d: nat, first: nat, frame: nat, flags: set<nat>)
    requires Sound(ps, ow)
    ensures Mapping(ps, ow, ps, ow, d, first, 0, frame, flags)
  {
    hide Find;
  }

  lemma MappingMore(ps: Pages, ow: Owners, mid: Pages, mow: Owners, ps': Pages, ow': Owners, d: nat, first: nat, n: nat, frame: nat, flags: set<nat>)
    requires IsDir(ow, d) && Mapping(ps, ow, mid, mow, d, first, n, frame, flags) && MayMapAll(ps, ow, first, n + 1, frame)
    requires MapsTo(mid, ps', d, first + n, 1, frame + n, flags) && OtherFinds(mid, mow, ps', d)
    requires SameData(mid, mow, ps', ow') && Grew(Claim(mow, d, first + n, frame + n), ow', d)
    ensures Mapping(ps, ow, ps', ow', d, first, n + 1, frame, flags)
  {
    hide Find, Claims, MayMap;
    MayMapFewer(ps, ow, first, n, frame);
    forall f | f in ow
      ensures mow.Keys == ow.Keys && (IsDir(ow, f) ==> IsDir(mow, f)) && (Contents(ow[f]) ==> Contents(mow[f]))
    {
      ClaimsKeep(ps, ow, d, first, n, frame, f);
    }
    ClaimsGrow(ps, ow, mow, ow', d, first, n, frame);
  }

  lemma MayMapFewer(ps: Pages, ow: Owners, first: nat, n: nat, frame: nat)
    requires MayMapAll(ps, ow, first, n + 1, frame)
    ensures MayMapAll(ps, ow, first, n, frame) && MayMap(ps, ow, first + n, frame + n)
  {
    assert MayMapAt(ps, ow, first, frame, n);
  }

  lemma ClaimsGrow(ps: Pages, ow: Owners, mow: Owners, ow': Owners, d: nat, first: nat, n: nat, frame: nat)
    requires MayMapAll(ps, ow, first, n + 1, frame)
    requires Grew(Claims(ow, d, first, n, frame), mow, d) && Grew(Claim(mow, d, first + n, frame + n), ow', d)
    ensures Grew(Claims(ow, d, first, n + 1, frame), ow', d)
  {
    MayMapFewer(ps, ow, first, n, frame);
    var cl := Claims(ow, d, first, n, frame);
    assert Claims(ow, d, first, n + 1, frame) == Claim(cl, d, first + n, frame + n);
    if first + n < USERPAGES {
      ClaimsKeep(ps, ow, d, first, n, frame, frame + n);
    }
  }

  /** The next frame is still in the caller's hands. */
  lemma StillMayNext(ps: Pages, ow: Owners, mid: Pages, mow: Owners, d: nat, first: nat, n: nat, frame: nat, flags: set<nat>)
    requires Mapping(ps, ow, mid, mow, d, first, n, frame, flags) && MayMapAll(ps, ow, first, n + 1, frame) && IsDir(ow, d)
    ensures MayMap(mid, mow, first + n, frame + n) && IsDir(mow, d)
  {
    hide Find, Claims;
    MayMapFewer(ps, ow, first, n, frame);
    ClaimsKeep(ps, ow, d, first, n, frame, d);
    if first + n < USERPAGES {
      ClaimsKeep(ps, ow, d, first, n, frame, frame + n);
    }
  }

  // ----- unmapping pages

  ghost predicate Cleared(ps: Pages, ps': Pages, d: nat, lo: nat, hi: nat) {
    forall v: nat :: Find(ps', d, v) == if lo <= v < hi then Nothing else Find(ps, d, v)
  }

  predicate MappedIn(o: Owner, d: nat, lo: nat, hi: nat) {
    o.User? && o.dir == d && lo <= o.vpn < hi
  }

  /** The frames of user pages `lo` to before `hi` of `d` are free. */
  ghost function Released(ow: Owners, d: nat, lo: nat, hi: nat): Owners {
    map f | f in ow :: if MappedIn(ow[f], d, lo, hi) then Free else ow[f]
  }

  ghost predicate Unmapping(ps: Pages, ow: Owners, ps': Pages, ow': Owners, d: nat, lo: nat, hi: nat) {
    Cleared(ps, ps', d, lo, hi) && OtherFinds(ps, ow, ps', d) && SameData(ps, ow, ps', ow') && ow' == Released(ow, d, lo, hi)
  }

  lemma NoUnmapping(ps: Pages, ow: Owners, d: nat, lo: nat)
    requires Sound(ps, ow)
    ensures Unmapping(ps, ow, ps, ow, d, lo, lo)
  {
    hide Find;
  }

  /** Pages that were not mapped anyway count as unmapped. */
  lemma UnmappingSkips(ps: Pages, ow: Owners, mid: Pages, mow: Owners, d: nat, lo: nat, v: nat, hi: nat)
    requires Sound(mid, mow) && IsDir(mow, d) && Unmapping(ps, ow, mid, mow, d, lo, v) && lo <= v <= hi
    requires forall w :: v <= w < hi ==> Find(mid, d, w) == Nothing
    ensures Unmapping(ps, ow, mid, mow, d, lo, hi)
  {
    hide Find;
    assert mow == Released(ow, d, lo, hi) by {
      forall f | f in mow
        ensures !MappedIn(mow[f], d, v, hi)
      {
        if MappedIn(mow[f], d, v, hi) {
          MappedWhere(mid, mow, d, f);
        }
      }
    }
  }

  lemma MappedWhere(ps: Pages, ow: Owners, d: nat, f: nat)
    requires Sound(ps, ow) && f in ow && ow[f].User? && ow[f].dir == d
    ensures Find(ps, d, ow[f].vpn).Mapped? && Find(ps, d, ow[f].vpn).entry.frame == f
  {
    assert FrameOk(ps, ow, f);
  }

  /** The page mapped at `v` goes to the free list and its entry is cleared. */
  lemma UnmapStep(ps: Pages, ow: Owners, freelist: int, list: seq<nat>, d: nat, v: nat, t: nat)
    requires Sound(ps, ow) && Listed(ps, ow, freelist, list) && HasTable(ps, ow, d, v, t) && v < USERPAGES
    requires Present(ps[t].es[v % NENTRIES])
    ensures var f := ps[t].es[v % NENTRIES].frame;
            && f in ow && f in ps && f != t && f != 0
            && var ps', ow' := PutEntry(ps[f := Run(freelist)], t, v, NoEntry()), ow[f := Free];
               && Sound(ps', ow') && Listed(ps', ow', f, [f] + list) && Unmapping(ps, ow, ps', ow', d, v, v + 1)
               && ow'.Keys == ps'.Keys
  {
    hide Sound, Listed, Find, MapsTo, OtherFinds;
    SoundKeys(ps, ow);
    var f := ps[t].es[v % NENTRIES].frame;
    UnmapUserKeeps(ps, ow, d, v, t);
    var ps1, ow1 := PutEntry(ps, t, v, NoEntry()), ow[f := Held];
    ListedSame(ps, ow, ps1, ow1, freelist, list);
    PutFirst(ps1, ow1, freelist, list, f);
    LooseKeeps(ps1, ow1, f, Run(freelist), Free);
    var ps', ow' := PutEntry(ps[f := Run(freelist)], t, v, NoEntry()), ow[f := Free];
    assert ps' == ps1[f := Run(freelist)] && ow' == ow1[f := Free];
    UnmapFinds(ps, ow, d, v, t, f, ps1, ow1, Run(freelist));
    UnmapOwners(ps, ow, d, v, t, f);
  }

  lemma UnmapFinds(ps: Pages, ow: Owners, d: nat, v: nat, t: nat, f: nat, ps1: Pages, ow1: Owners, p: Page)
    requires Sound(ps, ow) && HasTable(ps, ow, d, v, t) && ps1 == PutEntry(ps, t, v, NoEntry()) && f in ow && ow[f].User?
    requires ow1 == ow[f := Held] && Sound(ps1, ow1)
    ensures Cleared(ps, ps1[f := p], d, v, v + 1) && OtherFinds(ps, ow, ps1[f := p], d)
  {
    hide Sound, Find;
    SoundKeys(ps, ow);
    var ps' := ps1[f := p];
    forall d2, v2: nat | IsDir(ow, d2)
      ensures Find(ps', d2, v2) == if d2 == d && v2 == v then Nothing else Find(ps, d2, v2)
    {
      PutFinds(ps, ow, d, v, t, NoEntry(), d2, v2);
      LooseFinds(ps1, ow1, f, p, d2, v2);
    }
  }

  lemma UnmapOwners(ps: Pages, ow: Owners, d: nat, v: nat, t: nat, f: nat)
    requires Sound(ps, ow) && HasTable(ps, ow, d, v, t) && f in ow && ow[f] == User(d, v)
    requires ps[t].es[v % NENTRIES].frame == f && Present(ps[t].es[v % NENTRIES])
    ensures ow[f := Free] == Released(ow, d, v, v + 1)
  {
    hide Sound, Find;
    forall g | g in ow && MappedIn(ow[g], d, v, v + 1)
      ensures g == f
    {
      MappedWhere(ps, ow, d, g);
      AbsentEntry(ps, ow, d, v, t);
    }
  }

  lemma UnmappingMore(ps: Pages, ow: Owners, mid: Pages, mow: Owners, ps': Pages, ow': Owners, d: nat, lo: nat, v: nat)
    requires Unmapping(ps, ow, mid, mow, d, lo, v) && Unmapping(mid, mow, ps', ow', d, v, v + 1) && lo <= v
    ensures Unmapping(ps, ow, ps', ow', d, lo, v + 1)
  {
    hide Find;
  }

  /** A directory without a table for `v` maps no page of that table. */
  lemma NoTableNoPages(ps: Pages, d: nat, v: nat, w: nat)
    requires v < ALLPAGES && v / NENTRIES == w / NENTRIES && TableOf(ps, d, v) == 0 && 0 !in ps
    ensures Find(ps, d, w) == Nothing
  {}

  // ----- addresses

  /** The bytes that one page table maps. */
  const TABLESPAN: nat := 0x40_0000

  const WORD: nat := 0x1_0000_0000

  /** The number of pages that hold `size` bytes. */
  function PagesOf(size: nat): nat {
    (size + PGSIZE - 1) / PGSIZE
  }

  /** Where the next page table's pages start, in 32 bits. */
  function NextTable(a: nat): nat {
    (a / TABLESPAN + 1) * TABLESPAN % WORD
  }

  lemma SizeInPages(size: nat, v: nat)
    ensures v * PGSIZE < size <==> v < PagesOf(size)
    ensures PagesOf(size) * PGSIZE >= size && (size <= KERNBASE ==> PagesOf(size) <= USERPAGES)
  {}

  lemma PagesOfIs(size: nat)
    ensures PagesOf(size) == (size + PGSIZE - 1) / PGSIZE
  {}

  lemma PagesMonotone(a: nat, b: nat)
    requires a <= b
    ensures PagesOf(a) <= PagesOf(b)
  {}

  /** Pages not mapped yet are still not mapped, in a directory that is still one. */
  lemma NotYet(ps: Pages, ow: Owners, ps': Pages, ow': Owners, d: nat, first: nat, n: nat, frame: nat, flags: set<nat>)
    requires Mapping(ps, ow, ps', ow', d, first, n, frame, flags)
    ensures Find(ps', d, first + n) == Find(ps, d, first + n)
  {
    hide Find;
  }

  lemma SkipTable(ps: Pages, ow: Owners, d: nat, v: nat, next: nat)
    requires Sound(ps, ow) && v < ALLPAGES && TableOf(ps, d, v) == 0
    requires forall w :: v <= w < next ==> w / NENTRIES == v / NENTRIES
    ensures forall w :: v <= w < next ==> Find(ps, d, w) == Nothing
  {
    hide Find, TableOf, Sound;
    SoundKeys(ps, ow);
    forall w | v <= w < next
      ensures Find(ps, d, w) == Nothing
    {
      NoTableNoPages(ps, d, v, w);
    }
  }

  lemma DirStays(ps: Pages, ow: Owners, ps': Pages, ow': Owners, d: nat, lo: nat, hi: nat, d2: nat)
    requires Unmapping(ps, ow, ps', ow', d, lo, hi) && IsDir(ow, d2)
    ensures IsDir(ow', d2)
  {}

  // ----- freeing a directory

  /** Frame `f`, owned as `o`, is part of the address space of directory `d`. */
  predicate Mine(o: Owner, f: nat, d: nat) {
    f == d || (o.Table? && o.dir == d) || (o.User? && o.dir == d)
  }

  /** The frames of address space `d` are free. */
  ghost function Gone(ow: Owners, d: nat): Owners {
    map f | f in ow :: if Mine(ow[f], f, d) then Free else ow[f]
  }

  lemma LooseSame(ps: Pages, ow: Owners, f: nat, p: Page)
    requires Sound(ps, ow) && f in ow && ow[f] == Held
    ensures SameFinds(ps, ow, ps[f := p]) && SameData(ps, ow, ps[f := p], ow[f := Free])
  {
    hide Sound, Find;
    SoundKeys(ps, ow);
    forall d, v | IsDir(ow, d)
      ensures Find(ps[f := p], d, v) == Find(ps, d, v)
    {
      LooseFinds(ps, ow, f, p, d, v);
    }
  }

  /** Nothing is left but the directory and its tables, and they are in our hands. */
  lemma DisownStep(ps: Pages, ow: Owners, freelist: int, list: seq<nat>, d: nat)
    requires Sound(ps, ow) && Listed(ps, ow, freelist, list) && IsDir(ow, d) && forall v :: 0 <= v < USERPAGES ==> Find(ps, d, v) == Nothing
    ensures var ow' := Disowned(ow, d); Sound(ps, ow') && Listed(ps, ow', freelist, list) && ow'.Keys == ow.Keys && ow' == Dropped(ow, d, 0)
  {
    hide Sound, Listed, Find;
    SoundKeys(ps, ow);
    DisownKeeps(ps, ow, d);
    ListedSame(ps, ow, ps, Disowned(ow, d), freelist, list);
  }

  /** The tables of `d` for slots below `i` are free, the others and `d` held. */
  ghost function Dropped(ow: Owners, d: nat, i: nat): Owners {
    map f | f in ow ::
      if ow[f].Table? && ow[f].dir == d then (if ow[f].slot < i then Free else Held) else if f == d then Held else ow[f]
  }

  lemma DropNext(ps: Pages, ow: Owners, d: nat, i: nat)
    requires Sound(ps, ow) && IsDir(ow, d) && i < NENTRIES
    ensures IsTable(ps[d])
    ensures var e := ps[d].es[i];
            if Present(e) then e.frame in ow && ow[e.frame] == Table(d, i) && e.frame != d && e.frame in Dropped(ow, d, i) && Dropped(ow, d, i)[e.frame] == Held && Dropped(ow, d, i + 1) == Dropped(ow, d, i)[e.frame := Free]
            else Dropped(ow, d, i + 1) == Dropped(ow, d, i)
  {
    assert FrameOk(ps, ow, d);
    var e := ps[d].es[i];
    assert PdeOk(ow, d, i, e);
    forall f | f in ow && ow[f] == Table(d, i)
      ensures Present(e) && e.frame == f
    {
      assert FrameOk(ps, ow, f);
    }
  }

  /** With no user pages left, dropping all tables and the directory leaves nothing. */
  lemma DroppedAll(ps0: Pages, ow0: Owners, ps: Pages, ow: Owners, d: nat)
    requires Sound(ps0, ow0) && Sound(ps, ow) && IsDir(ow0, d) && IsDir(ow, d) && ow == Released(ow0, d, 0, USERPAGES)
    ensures Dropped(ow, d, NENTRIES)[d := Free] == Gone(ow0, d)
  {
    forall f | f in ow0
      ensures ow0[f].User? ==> ow0[f].vpn < USERPAGES
      ensures ow0[f].Table? ==> ow0[f].slot < NENTRIES
    {
      assert FrameOk(ps0, ow0, f);
    }
  }

  lemma NoUserPages(ps: Pages, ps': Pages, d: nat)
    requires Cleared(ps, ps', d, 0, USERPAGES)
    ensures forall v :: 0 <= v < USERPAGES ==> Find(ps', d, v) == Nothing
  {}

  lemma UserSize()
    ensures PagesOf(0) == 0 && PagesOf(KERNBASE) == USERPAGES
  {}

  /** While `d` is being freed, other directories and the data are as at the start, and
      no frame but those of `d` has changed hands. */
  ghost predicate Dropping(ps0: Pages, ow0: Owners, ps': Pages, ow': Owners, d: nat) {
    && OtherFinds(ps0, ow0, ps', d) && SameData(ps0, ow0, ps', ow')
    && ow'.Keys == ow0.Keys && forall f :: f in ow0 ==> Fading(ow0[f], ow'[f], f, d)
  }

  /** How the owner of a frame may change on the way. */
  predicate Fading(o: Owner, o': Owner, f: nat, d: nat) {
    o' == o || (Mine(o, f, d) && (o' == Free || (o' == Held && !o.User?)))
  }

  lemma DropStart(ps0: Pages, ow0: Owners, ps: Pages, ow: Owners, d: nat)
    requires Unmapping(ps0, ow0, ps, ow, d, 0, USERPAGES) && IsDir(ow0, d)
    ensures Dropping(ps0, ow0, ps, Disowned(ow, d), d)
  {
    hide Find;
  }

  lemma DropMore(ps0: Pages, ow0: Owners, mid: Pages, mow: Owners, ps': Pages, ow': Owners, d: nat, f: nat)
    requires Dropping(ps0, ow0, mid, mow, d) && SameFinds(mid, mow, ps') && SameData(mid, mow, ps', ow')
    requires f in mow && mow[f] == Held && ow' == mow[f := Free] && f in ow0 && Mine(ow0[f], f, d) && ow0[f] != Held
    ensures Dropping(ps0, ow0, ps', ow', d)
  {
    hide Find;
  }

  lemma WasTable(ow0: Owners, ow: Owners, d: nat, f: nat)
    requires ow == Released(ow0, d, 0, USERPAGES) && f in ow && ow[f].Table?
    ensures f in ow0 && ow0[f] == ow[f]
  {}

  lemma HeldDir(ow: Owners, d: nat, i: nat)
    requires IsDir(ow, d)
    ensures d in Dropped(ow, d, i) && Dropped(ow, d, i)[d] == Held
  {}

  /** No page from `lo` to before `hi` is mapped. */
  ghost predicate Vacant(ps: Pages, d: nat, lo: nat, hi: nat) {
    forall v :: lo <= v < hi ==> Find(ps, d, v) == Nothing
  }

  lemma VacantNone(ps: Pages, d: nat, lo: nat)
    ensures Vacant(ps, d, lo, lo)
  {}

  lemma VacantMore(ps: Pages, d: nat, lo: nat, hi: nat)
    requires Vacant(ps, d, lo, hi) && Find(ps, d, hi) == Nothing
    ensures Vacant(ps, d, lo, hi + 1)
  {
    hide Find;
  }

  lemma NotMapped(ps: Pages, d: nat, v: nat)
    requires !Find(ps, d, v).Mapped?
    ensures Find(ps, d, v) == Nothing
  {}

  lemma MayMapSome(ps: Pages, ow: Owners, first: nat, n: nat, all: nat, frame: nat)
    requires MayMapAll(ps, ow, first, all, frame) && n <= all
    ensures MayMapAll(ps, ow, first, n, frame)
  {}

  lemma MayMapOne(ps: Pages, ow: Owners, v: nat, frame: nat)
    requires MayMap(ps, ow, v, frame)
    ensures MayMapAll(ps, ow, v, 1, frame)
  {
    assert MayMapAt(ps, ow, v, frame, 0);
  }

  lemma MayMapKernel(ps: Pages, ow: Owners, first: nat, n: nat, frame: nat)
    requires USERPAGES <= first
    ensures MayMapAll(ps, ow, first, n, frame)
  {}

  /** A mapped page has a page table. */
  lemma MappedHasTable(ps: Pages, ow: Owners, d: nat, v: nat)
    requires Sound(ps, ow)
    ensures Find(ps, d, v).Mapped? ==> TableOf(ps, d, v) != 0
  {}

  /** The pages that `size` bytes from `va` on lie in. */
  function Count(va: nat, size: nat): nat
    requires 0 < size
  {
    (va + size - 1) / PGSIZE - va / PGSIZE + 1
  }

  lemma OnePage(a: nat, v: nat, f: nat)
    requires a == v * PGSIZE
    ensures a / PGSIZE == v && Count(a, PGSIZE) == 1 && f * PGSIZE / PGSIZE == f && f * PGSIZE % PGSIZE == 0
  {}

  lemma VacantOne(ps: Pages, d: nat, v: nat, n: nat)
    requires Vacant(ps, d, v, v + n) && n <= 1
    ensures n == 1 ==> Find(ps, d, v) == Nothing
  {}

  lemma NotVacant(ps: Pages, d: nat, lo: nat, hi: nat, v: nat)
    requires lo <= v < hi && Find(ps, d, v) != Nothing
    ensures !Vacant(ps, d, lo, hi)
  {}

  lemma NoTableNoPage(ps: Pages, ow: Owners, d: nat, v: nat)
    requires Sound(ps, ow) && TableOf(ps, d, v) == 0
    ensures Find(ps, d, v) == Nothing
  {}

  // ----- how many page tables it takes

  /** The page tables that `n` pages from `first` on lie in. */
  function Span(first: nat, n: nat): nat {
    if n == 0 then 0 else (first + n - 1) / NENTRIES - first / NENTRIES + 1
  }

  lemma NoSpan(first: nat)
    ensures Span(first, 0) == 0 && Span(first, 1) == 1
  {}

  lemma SpanMonotone(first: nat, n: nat, m: nat)
    requires n <= m
    ensures Span(first, n) <= Span(first, m)
  {}

  /** One more page needs one more table only if the page before it has another one. */
  lemma MoreTables(ps: Pages, d: nat, first: nat, n: nat)
    requires first + n < ALLPAGES && (n > 0 ==> TableOf(ps, d, first + n - 1) != 0)
    ensures Span(first, n) + (if TableOf(ps, d, first + n) == 0 then 1 else 0) <= Span(first, n + 1)
  {
    if n > 0 && (first + n) / NENTRIES == (first + n - 1) / NENTRIES {
      assert TableOf(ps, d, first + n) == TableOf(ps, d, first + n - 1);
    }
  }

  lemma LastMapped(ps: Pages, ow: Owners, mid: Pages, mow: Owners, d: nat, first: nat, n: nat, frame: nat, flags: set<nat>)
    requires Mapping(ps, ow, mid, mow, d, first, n, frame, flags) && Sound(mid, mow)
    ensures n > 0 ==> TableOf(mid, d, first + n - 1) != 0
  {
    hide Find, TableOf, Sound;
    if n > 0 {
      assert Find(mid, d, first + n - 1).Mapped?;
      MappedHasTable(mid, mow, d, first + n - 1);
    }
  }
}
