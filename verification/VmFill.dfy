/** Giving an address space new pages, and taking them back when memory runs out. */
module VmFill {
  import opened Frames
  import opened VmSteps

  /** What a user page should be: its flags and its contents. */
  datatype Want = Want(flags: set<nat>, page: Page)

  ghost predicate Got(ps: Pages, d: nat, v: nat, w: Want) {
    && Find(ps, d, v).Mapped? && Find(ps, d, v).entry.flags == w.flags
    && Find(ps, d, v).entry.frame in ps && ps[Find(ps, d, v).entry.frame] == w.page
  }

  /** Pages from `lo` on of `d` are as wanted, all others as they were. */
  ghost predicate GotAll(ps: Pages, ps': Pages, d: nat, lo: nat, ws: seq<Want>) {
    forall v: nat :: GotAt(ps, ps', d, lo, ws, v)
  }

  ghost predicate GotAt(ps: Pages, ps': Pages, d: nat, lo: nat, ws: seq<Want>, v: nat) {
    if lo <= v < lo + |ws| then Got(ps', d, v, ws[v - lo]) else Find(ps', d, v) == Find(ps, d, v)
  }

  /** From (`ps`, `ow`) on, pages from `lo` on of `d` were given new frames as wanted. */
  ghost predicate Filled(ps: Pages, ow: Owners, ps': Pages, ow': Owners, d: nat, lo: nat, ws: seq<Want>) {
    && GotAll(ps, ps', d, lo, ws) && OtherFinds(ps, ow, ps', d) && SameData(ps, ow, ps', ow')
    && AddedTo(ow, ow', d, lo, lo + |ws|)
  }

  ghost predicate AddedTo(ow: Owners, ow': Owners, d: nat, lo: nat, hi: nat) {
    ow'.Keys == ow.Keys && forall f :: f in ow ==> Added(ow[f], ow'[f], d, lo, hi)
  }

  /** A frame kept its owner, or was free and is a new table or page of `d`. */
  predicate Added(o: Owner, o': Owner, d: nat, lo: nat, hi: nat) {
    o' == o || (o == Free && ((o'.Table? && o'.dir == d) || MappedIn(o', d, lo, hi)))
  }

  lemma NotFilled(ps: Pages, ow: Owners, d: nat, lo: nat)
    requires Sound(ps, ow)
    ensures Filled(ps, ow, ps, ow, d, lo, [])
  {
    hide Find;
  }

  /** The frame of a mapped user page is owned by that page. */
  lemma MappedOwner(ps: Pages, ow: Owners, d: nat, v: nat)
    requires Sound(ps, ow) && IsDir(ow, d) && Find(ps, d, v).Mapped? && v < USERPAGES
    ensures var f := Find(ps, d, v).entry.frame; f in ow && ow[f] == User(d, v) && f in ps && ps[f].Data?
  {
    TableIs(ps, ow, d, v);
    PageParts(v);
    var t := TableOf(ps, d, v);
    assert FrameOk(ps, ow, t);
    assert PteOk(ow, d, v / NENTRIES * NENTRIES + v % NENTRIES, ps[t].es[v % NENTRIES]);
    assert FrameOk(ps, ow, ps[t].es[v % NENTRIES].frame);
  }

  /** A page keeps what it should be while a frame that is not its own changes. */
  lemma GotStays(ps: Pages, ow: Owners, d: nat, v: nat, w: Want, f: nat, p: Page)
    requires Sound(ps, ow) && IsDir(ow, d) && Got(ps, d, v, w) && v < USERPAGES && f in ow && ow[f] == Free
    ensures Got(ps[f := p], d, v, w)
  {
    hide Sound, Find;
    LooseFinds(ps, ow, f, p, d, v);
    MappedOwner(ps, ow, d, v);
  }

  /** As if frame `f` had been in our hands from the start. */
  lemma FilledHolding(ps: Pages, ow: Owners, mid: Pages, mow: Owners, d: nat, lo: nat, ws: seq<Want>, f: nat, p: Page)
    requires Sound(ps, ow) && Sound(mid, mow) && IsDir(ow, d) && IsDir(mow, d) && Filled(ps, ow, mid, mow, d, lo, ws)
    requires f in mow && mow[f] == Free && lo + |ws| <= USERPAGES
    ensures f in ow && ow[f] == Free
    ensures Filled(ps[f := p], ow[f := Held], mid[f := p], mow[f := Held], d, lo, ws)
  {
    hide Sound, Find, Got;
    SoundKeys(ps, ow);
    SoundKeys(mid, mow);
    assert Added(ow[f], mow[f], d, lo, lo + |ws|);
    var ps', mid' := ps[f := p], mid[f := p];
    forall d2, v: nat | IsDir(ow, d2)
      ensures Find(ps', d2, v) == Find(ps, d2, v) && Find(mid', d2, v) == Find(mid, d2, v)
    {
      assert Added(ow[d2], mow[d2], d, lo, lo + |ws|);
      LooseFinds(ps, ow, f, p, d2, v);
      LooseFinds(mid, mow, f, p, d2, v);
    }
    forall v: nat
      ensures GotAt(ps', mid', d, lo, ws, v)
    {
      assert GotAt(ps, mid, d, lo, ws, v);
      if lo <= v < lo + |ws| {
        GotStays(mid, mow, d, v, ws[v - lo], f, p);
      }
    }
    forall g | g in ow
      ensures Added(ow[f := Held][g], mow[f := Held][g], d, lo, lo + |ws|)
    {
      assert Added(ow[g], mow[g], d, lo, lo + |ws|);
    }
  }

  /** A failed mapping may have added a table, but no page. */
  lemma FilledStays(ps: Pages, ow: Owners, mid: Pages, mow: Owners, ps': Pages, ow': Owners, d: nat, lo: nat, ws: seq<Want>, v: nat, frame: nat, flags: set<nat>)
    requires Sound(mid, mow) && IsDir(ow, d) && IsDir(mow, d) && Filled(ps, ow, mid, mow, d, lo, ws) && lo + |ws| <= USERPAGES
    requires Mapping(mid, mow, ps', ow', d, v, 0, frame, flags)
    ensures Filled(ps, ow, ps', ow', d, lo, ws)
  {
    hide Sound, Find;
    forall u: nat
      ensures GotAt(ps, ps', d, lo, ws, u)
    {
      assert GotAt(ps, mid, d, lo, ws, u);
      assert Find(ps', d, u) == Find(mid, d, u);
      if lo <= u < lo + |ws| {
        MappedOwner(mid, mow, d, u);
      }
    }
    AddedMore(ow, mow, ow', d, lo, lo + |ws|);
  }

  lemma AddedMore(ow: Owners, mow: Owners, ow': Owners, d: nat, lo: nat, hi: nat)
    requires AddedTo(ow, mow, d, lo, hi) && Grew(mow, ow', d)
    ensures AddedTo(ow, ow', d, lo, hi)
  {
    forall f | f in ow
      ensures Added(ow[f], ow'[f], d, lo, hi)
    {
      assert Added(ow[f], mow[f], d, lo, hi);
    }
  }

  /** The frame in our hands was mapped: one page more is as wanted. */
  lemma FilledMore(ps: Pages, ow: Owners, f: nat, p: Page, mid: Pages, mow: Owners, ps': Pages, ow': Owners, d: nat, lo: nat, ws: seq<Want>, flags: set<nat>)
    requires Sound(mid, mow) && IsDir(ow, d) && IsDir(mow, d) && f in ow && ow[f] == Free && f in mow && mow[f] == Held && f in mid && mid[f] == p
    requires Sound(ps, ow) && Filled(ps[f := p], ow[f := Held], mid, mow, d, lo, ws) && lo + |ws| < USERPAGES
    requires Mapping(mid, mow, ps', ow', d, lo + |ws|, 1, f, flags)
    ensures Filled(ps, ow, ps', ow', d, lo, ws + [Want(flags, p)])
  {
    hide Sound, Find;
    SoundKeys(ps, ow);
    var v, all := lo + |ws|, ws + [Want(flags, p)];
    ClaimsOne(mow, d, v, f);
    FilledMoreGot(ps, ow, f, p, mid, mow, ps', ow', d, lo, ws, flags);
    FilledMoreOthers(ps, ow, f, p, mid, mow, ps', ow', d, lo, ws, flags);
    forall g | g in ow
      ensures Added(ow[g], ow'[g], d, lo, lo + |all|)
    {
      assert Added(ow[f := Held][g], mow[g], d, lo, v);
    }
  }

  lemma FilledMoreGot(ps: Pages, ow: Owners, f: nat, p: Page, mid: Pages, mow: Owners, ps': Pages, ow': Owners, d: nat, lo: nat, ws: seq<Want>, flags: set<nat>)
    requires Sound(ps, ow) && Sound(mid, mow) && IsDir(ow, d) && IsDir(mow, d) && f in ow && ow[f] == Free && f in mow && mow[f] == Held && f in mid && mid[f] == p
    requires GotAll(ps[f := p], mid, d, lo, ws) && lo + |ws| < USERPAGES && Mapping(mid, mow, ps', ow', d, lo + |ws|, 1, f, flags)
    ensures GotAll(ps, ps', d, lo, ws + [Want(flags, p)])
  {
    hide Sound, Find;
    ClaimsOne(mow, d, lo + |ws|, f);
    var all := ws + [Want(flags, p)];
    forall u: nat
      ensures GotAt(ps, ps', d, lo, all, u)
    {
      assert GotAt(ps[f := p], mid, d, lo, ws, u);
      LooseFinds(ps, ow, f, p, d, u);
      assert Find(ps', d, u) == if u == lo + |ws| then Mapped(Entry(f, flags)) else Find(mid, d, u);
      if lo <= u < lo + |ws| {
        MappedOwner(mid, mow, d, u);
        assert all[u - lo] == ws[u - lo];
      }
    }
  }

  lemma FilledMoreOthers(ps: Pages, ow: Owners, f: nat, p: Page, mid: Pages, mow: Owners, ps': Pages, ow': Owners, d: nat, lo: nat, ws: seq<Want>, flags: set<nat>)
    requires Sound(ps, ow) && IsDir(ow, d) && f in ow && ow[f] == Free && f in mow && mow[f] == Held
    requires Filled(ps[f := p], ow[f := Held], mid, mow, d, lo, ws) && Mapping(mid, mow, ps', ow', d, lo + |ws|, 1, f, flags) && lo + |ws| < USERPAGES
    ensures OtherFinds(ps, ow, ps', d) && SameData(ps, ow, ps', ow')
  {
    hide Sound, Find;
    SoundKeys(ps, ow);
    forall d2, v | IsDir(ow, d2) && d2 != d
      ensures Find(ps', d2, v) == Find(ps, d2, v)
    {
      assert Added(ow[f := Held][d2], mow[d2], d, lo, lo + |ws|);
      LooseFinds(ps, ow, f, p, d2, v);
      assert Find(mid, d2, v) == Find(ps[f := p], d2, v);
    }
    forall g | g in ow && Contents(ow[g]) && Contents(ow'[g])
      ensures g in ps && g in ps' && ps'[g] == ps[g]
    {
      assert Added(ow[f := Held][g], mow[g], d, lo, lo + |ws|);
    }
  }

  // ----- taking it all back

  /** Pages `lo` to before `hi` of `d` are not mapped, whether they were before or not;
      everything else is as it was, but for new tables of `d`. */
  ghost predicate Unfilled(ps: Pages, ow: Owners, ps': Pages, ow': Owners, d: nat, lo: nat, hi: nat) {
    && Cleared(ps, ps', d, lo, hi) && OtherFinds(ps, ow, ps', d) && SameData(ps, ow, ps', ow')
    && Grew(Released(ow, d, lo, hi), ow', d)
  }

  /** Everything is as it was, but for new tables of `d`. */
  ghost predicate Restored(ps: Pages, ow: Owners, ps': Pages, ow': Owners, d: nat) {
    (forall v: nat :: Find(ps', d, v) == Find(ps, d, v)) && OtherFinds(ps, ow, ps', d) && SameData(ps, ow, ps', ow') && Grew(ow, ow', d)
  }

  /** If the pages were not mapped before, that is everything as it was. */
  lemma UnfilledRestores(ps: Pages, ow: Owners, ps': Pages, ow': Owners, d: nat, lo: nat, hi: nat)
    requires Sound(ps, ow) && Unfilled(ps, ow, ps', ow', d, lo, hi) && Vacant(ps, d, lo, hi)
    ensures Restored(ps, ow, ps', ow', d)
  {
    hide Sound, Find;
    forall f | f in ow
      ensures !MappedIn(ow[f], d, lo, hi)
    {
      if MappedIn(ow[f], d, lo, hi) {
        MappedWhere(ps, ow, d, f);
      }
    }
    assert Released(ow, d, lo, hi) == ow;
  }

  lemma FilledUndone(ps: Pages, ow: Owners, mid: Pages, mow: Owners, ps': Pages, ow': Owners, d: nat, lo: nat, ws: seq<Want>, hi: nat)
    requires IsDir(ow, d) && Filled(ps, ow, mid, mow, d, lo, ws) && lo + |ws| <= hi
    requires Unmapping(mid, mow, ps', ow', d, lo, hi)
    ensures Unfilled(ps, ow, ps', ow', d, lo, hi)
  {
    hide Find, SameData, Released, AddedTo;
    forall v: nat
      ensures Find(ps', d, v) == if lo <= v < hi then Nothing else Find(ps, d, v)
    {
      assert GotAt(ps, mid, d, lo, ws, v);
    }
    UndoneOwners(ow, mow, ow', d, lo, lo + |ws|, hi);
    UndoneData(ps, ow, mid, mow, ps', ow', d, lo, lo + |ws|, hi);
    UndoneOthers(ps, ow, mid, mow, ps', d, lo, lo + |ws|);
  }

  lemma UndoneOwners(ow: Owners, mow: Owners, ow': Owners, d: nat, lo: nat, v: nat, hi: nat)
    requires AddedTo(ow, mow, d, lo, v) && v <= hi && ow' == Released(mow, d, lo, hi)
    ensures Grew(Released(ow, d, lo, hi), ow', d)
  {
    var o := Released(ow, d, lo, hi);
    forall f | f in o
      ensures ow'[f] == o[f] || (o[f] == Free && ow'[f].Table? && ow'[f].dir == d)
    {
      assert Added(ow[f], mow[f], d, lo, v);
    }
  }

  lemma UndoneData(ps: Pages, ow: Owners, mid: Pages, mow: Owners, ps': Pages, ow': Owners, d: nat, lo: nat, v: nat, hi: nat)
    requires AddedTo(ow, mow, d, lo, v) && SameData(ps, ow, mid, mow) && SameData(mid, mow, ps', ow')
    ensures SameData(ps, ow, ps', ow')
  {
    forall f | f in ow && Contents(ow[f]) && Contents(ow'[f])
      ensures f in ps && f in ps' && ps'[f] == ps[f]
    {
      assert Added(ow[f], mow[f], d, lo, v);
    }
  }

  lemma UndoneOthers(ps: Pages, ow: Owners, mid: Pages, mow: Owners, ps': Pages, d: nat, lo: nat, v: nat)
    requires AddedTo(ow, mow, d, lo, v) && OtherFinds(ps, ow, mid, d) && OtherFinds(mid, mow, ps', d)
    ensures OtherFinds(ps, ow, ps', d)
  {
    hide Find;
    forall d2, u | IsDir(ow, d2) && d2 != d
      ensures Find(ps', d2, u) == Find(ps, d2, u)
    {
      assert Added(ow[d2], mow[d2], d, lo, v);
      assert Find(mid, d2, u) == Find(ps, d2, u);
    }
  }

  /** Giving back the frame in our hands. */
  lemma UnfilledFrame(ps: Pages, ow: Owners, f: nat, p: Page, mid: Pages, mow: Owners, ps': Pages, ow': Owners, d: nat, lo: nat, hi: nat)
    requires Sound(ps, ow) && IsDir(ow, d) && f in ow && ow[f] == Free
    requires Unfilled(ps[f := p], ow[f := Held], mid, mow, d, lo, hi) && SameFinds(mid, mow, ps') && SameData(mid, mow, ps', ow')
    requires f in mow && ow' == mow[f := Free]
    ensures Unfilled(ps, ow, ps', ow', d, lo, hi)
  {
    hide Sound, Find, Cleared, OtherFinds, SameFinds, SameData, Grew;
    SoundKeys(ps, ow);
    UnfilledFinds(ps, ow, f, p, mid, mow, ps', d, lo, hi);
    UnfilledOwners(ps, ow, f, p, mid, mow, ps', ow', d, lo, hi);
  }

  lemma UnfilledOwners(ps: Pages, ow: Owners, f: nat, p: Page, mid: Pages, mow: Owners, ps': Pages, ow': Owners, d: nat, lo: nat, hi: nat)
    requires f in ow && ow[f] == Free && f in mow && ow' == mow[f := Free] && Grew(Released(ow[f := Held], d, lo, hi), mow, d)
    requires SameData(ps[f := p], ow[f := Held], mid, mow) && SameData(mid, mow, ps', ow')
    ensures Grew(Released(ow, d, lo, hi), ow', d) && SameData(ps, ow, ps', ow')
  {
    var o, o' := Released(ow[f := Held], d, lo, hi), Released(ow, d, lo, hi);
    assert forall g :: g in ow ==> g in o && g in o' && (g != f ==> o[g] == o'[g]);
  }

  lemma UnfilledFinds(ps: Pages, ow: Owners, f: nat, p: Page, mid: Pages, mow: Owners, ps': Pages, d: nat, lo: nat, hi: nat)
    requires Sound(ps, ow) && IsDir(ow, d) && f in ow && ow[f] == Free && SameFinds(mid, mow, ps')
    requires Cleared(ps[f := p], mid, d, lo, hi) && OtherFinds(ps[f := p], ow[f := Held], mid, d) && Grew(Released(ow[f := Held], d, lo, hi), mow, d)
    ensures Cleared(ps, ps', d, lo, hi) && OtherFinds(ps, ow, ps', d)
  {
    hide Sound, Find;
    forall d2, v: nat | IsDir(ow, d2)
      ensures Find(ps', d2, v) == if d2 == d && lo <= v < hi then Nothing else Find(ps, d2, v)
    {
      LooseFinds(ps, ow, f, p, d2, v);
      assert Find(mid, d2, v) == if d2 == d && lo <= v < hi then Nothing else Find(ps[f := p], d2, v);
      assert IsDir(mow, d2);
    }
  }

  /** The next page to fill is not mapped yet. */
  lemma NextIsFree(ps: Pages, ow: Owners, mid: Pages, mow: Owners, d: nat, lo: nat, ws: seq<Want>)
    requires Filled(ps, ow, mid, mow, d, lo, ws)
    ensures Find(mid, d, lo + |ws|) == Find(ps, d, lo + |ws|)
  {
    assert GotAt(ps, mid, d, lo, ws, lo + |ws|);
  }

  lemma FilledDir(ps: Pages, ow: Owners, mid: Pages, mow: Owners, d: nat, lo: nat, ws: seq<Want>)
    requires Filled(ps, ow, mid, mow, d, lo, ws) && IsDir(ow, d)
    ensures IsDir(mow, d)
  {
    assert Added(ow[d], mow[d], d, lo, lo + |ws|);
  }

  lemma UnfilledDir(ps: Pages, ow: Owners, ps': Pages, ow': Owners, d: nat, lo: nat, hi: nat)
    requires Unfilled(ps, ow, ps', ow', d, lo, hi) && IsDir(ow, d)
    ensures IsDir(ow', d)
  {}

  /** A page taken off the free list for new contents. */
  lemma TakePage(ps: Pages, ow: Owners, freelist: int, list: seq<nat>, f: nat, p: Page, d: nat, v: nat)
    requires Sound(ps, ow) && Listed(ps, ow, freelist, list) && f in ow && ow[f] == Held && IsDir(ow, d)
    ensures Sound(ps[f := p], ow) && Listed(ps[f := p], ow, freelist, list) && Find(ps[f := p], d, v) == Find(ps, d, v)
  {
    hide Sound, Listed, Find;
    SoundKeys(ps, ow);
    LooseKeeps(ps, ow, f, p, Held);
    assert ow[f := Held] == ow;
    ListedSame(ps, ow, ps[f := p], ow, freelist, list);
    LooseFinds(ps, ow, f, p, d, v);
  }

  lemma HeldMayMap(ps: Pages, ow: Owners, v: nat, f: nat)
    requires f in ow && f in ps && ow[f] == Held && ps[f].Data?
    ensures MayMap(ps, ow, v, f)
  {}

  lemma StillHeld(ps: Pages, ow: Owners, ps': Pages, ow': Owners, d: nat, v: nat, frame: nat, flags: set<nat>, f: nat)
    requires Mapping(ps, ow, ps', ow', d, v, 0, frame, flags) && f in ow && ow[f] == Held
    ensures f in ow' && ow'[f] == Held
  {}

  lemma KeptFrame(ps: Pages, ow: Owners, ps': Pages, ow': Owners, d: nat, lo: nat, hi: nat, f: nat)
    requires Unmapping(ps, ow, ps', ow', d, lo, hi) && f in ow && ow[f] == Held
    ensures f in ow' && ow'[f] == Held
  {}
}
