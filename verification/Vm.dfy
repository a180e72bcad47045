/** kalloc.c and the address spaces of vm.c. */
module Vm {
  import opened Blocks
  import opened Frames
  import opened VmSteps
  import opened VmFill
  import opened VmKernel
  import opened VmWalk
  import opened VmAccess

  /** A result, or the kernel's panic. */
  datatype Outcome = Ok(value: int) | Panic(why: string)

  datatype Mapped = All | NoMemory | Remap

  class Memory {
    /** The first address after the kernel. */
    const end: nat
    var freelist: int
    var pages: Pages
    ghost var owner: Owners
    ghost var list: seq<nat>

    ghost predicate Valid()
      reads this
    {
      KERNBASE < end <= KERNBASE + PHYSTOP && Managed(end, owner) && owner.Keys == pages.Keys && Sound(pages, owner) && Listed(pages, owner, freelist, list)
    }

    /** `kinit1` and `kinit2`, with `freerange`: all whole pages from `end` to `vend` are free. */
    constructor (end: nat, vend: nat)
      requires KERNBASE < end <= KERNBASE + PHYSTOP && vend <= KERNBASE + PHYSTOP
      ensures Valid() && this.end == end
      ensures forall f :: f in owner <==> end <= KERNBASE + f * PGSIZE && KERNBASE + (f + 1) * PGSIZE <= vend
      ensures forall f :: f in owner ==> owner[f] == Free
    {
      this.end := end;
      freelist, list := -1, [];
      pages, owner := map[], map[];
      new;
      hide Sound, Listed, SameFinds, SameData;
      NoFrames();
      var p := PagesOf(end) * PGSIZE;
      ghost var g: nat := PagesOf(end) - USERPAGES;
      FirstFrame(end);
      while p + PGSIZE <= vend
        invariant p == KERNBASE + g * PGSIZE && end <= p && Valid()
        invariant forall f :: f in owner <==> end <= KERNBASE + f * PGSIZE && f < g
        invariant g > PagesOf(end) - USERPAGES ==> p <= vend
        invariant forall f :: f in owner ==> owner[f] == Free
      {
        FrameHere(end, vend, g);
        NewFrame(pages, owner, freelist, list, g, ZeroPage());
        pages, owner := pages[FrameAt(p) := ZeroPage()], owner[g := Held];
        var ok := KFree(p);
        p := p + PGSIZE;
        g := g + 1;
      }
    }

    /** Take a page off the free list; -1 if there is none. */
    method KAlloc() returns (r: int)
      requires Valid()
      modifies this`freelist, this`owner, this`list
      ensures Valid()
      ensures r == -1 ==> old(list) == [] && owner == old(owner) && list == old(list)
      ensures r != -1 ==> r >= 0 && r in old(owner) && old(owner)[r as nat] == Free && owner == old(owner)[r as nat := Held]
      ensures r != -1 ==> |list| + 1 == |old(list)|
    {
      hide Sound, Listed;
      r := freelist;
      FirstIs(pages, owner, freelist, list);
      if r != -1 {
        TakeFirst(pages, owner, freelist, list);
        LooseKeeps(pages, owner, r, pages[r], Held);
        assert pages[r as nat := pages[r]] == pages;
        freelist := pages[r].next;
        owner, list := owner[r as nat := Held], list[1..];
      }
    }

    /** Put the page at kernel address `v` on the free list; false is the panic. */
    method KFree(v: nat) returns (ok: bool)
      requires Valid() && (!Refused(end, v) ==> FrameAt(v) in owner && owner[FrameAt(v)] == Held)
      modifies this
      ensures Valid() && (ok <==> v % PGSIZE == 0 && end <= v < KERNBASE + PHYSTOP)
      ensures !ok ==> pages == old(pages) && owner == old(owner) && freelist == old(freelist)
      ensures ok ==> var f := FrameAt(v); owner == old(owner)[f := Free] && f in pages && pages == old(pages)[f := pages[f]]
      ensures SameFinds(old(pages), old(owner), pages) && SameData(old(pages), old(owner), pages, owner)
    {
      hide Sound, Listed, SameFinds, SameData, Refused;
      RefusedIs(end, v);
      if Refused(end, v) {
        SameRefl(pages, owner);
        return false;
      }
      var f := FrameAt(v);
      LooseSame(pages, owner, f, Run(freelist));
      PutFirst(pages, owner, freelist, list, f);
      LooseKeeps(pages, owner, f, Run(freelist), Free);
      owner, list := owner[f := Free], [f] + list;
      Push(f);
      return true;
    }

    /** `kfree` of a frame in the caller's hands, which never panics. */
    method KFreeFrame(f: nat)
      requires Valid() && f in owner && owner[f] == Held
      modifies this
      ensures Valid() && owner == old(owner)[f := Free] && f in pages && pages == old(pages)[f := pages[f]]
      ensures SameFinds(old(pages), old(owner), pages) && SameData(old(pages), old(owner), pages, owner)
    {
      hide Sound, Listed, SameFinds, SameData, Refused, FrameAt, Kva;
      ManagedFrame(end, owner, f);
      RefusedIs(end, Kva(f));
      var ok := KFree(Kva(f));
      assert ok;
    }

    method Push(f: nat)
      modifies this`pages, this`freelist
      ensures pages == old(pages)[f := Run(old(freelist))] && freelist == f
    {
      pages := pages[f := Run(freelist)];
      freelist := f;
    }

    // ----- page tables

    /** `walkpgdir` without allocation: the page table for page `v`, -1 if there is none. */
    method Walk(d: nat, v: nat) returns (t: int)
      requires Valid() && IsDir(owner, d) && v < ALLPAGES
      ensures t == -1 ==> TableOf(pages, d, v) == 0
      ensures t != -1 ==> t >= 0 && HasTable(pages, owner, d, v, t) && t in pages && IsTable(pages[t])
    {
      hide Sound, Listed, Find;
      TableIs(pages, owner, d, v);
      var pde := pages[d].es[v / NENTRIES];
      return if Present(pde) then pde.frame else -1;
    }

    /** `walkpgdir` with allocation; -1 if there is no memory for a new table. */
    method WalkAlloc(d: nat, v: nat) returns (t: int)
      requires Valid() && IsDir(owner, d) && v < ALLPAGES
      modifies this
      ensures Valid()
      ensures t == -1 ==> pages == old(pages) && owner == old(owner) && list == old(list) == [] && TableOf(old(pages), d, v) == 0
      ensures TableOf(old(pages), d, v) != 0 ==> pages == old(pages) && owner == old(owner) && list == old(list)
      ensures |list| + 1 >= |old(list)|
      ensures t != -1 ==> t >= 0 && HasTable(pages, owner, d, v, t) && ALLRIGHTS <= pages[d].es[v / NENTRIES].flags
      ensures Grew(old(owner), owner, d) && SameFinds(old(pages), old(owner), pages) && SameData(old(pages), old(owner), pages, owner)
    {
      hide Sound, Listed, Find, HasTable, SameFinds, SameData, AddTable, EmptyTable;
      SameRefl(pages, owner);
      t := Walk(d, v);
      if t == -1 {
        TableIs(pages, owner, d, v);
        NoTable(pages, owner, d, v);
        t := KAlloc();
        if t != -1 {
          var x := v / NENTRIES;
          ghost var ps, ow := pages, owner;
          AddTableStep(old(pages), old(owner), ps, ow, freelist, list, d, v, t);
          pages := pages[t as nat := EmptyTable()];
          pages := pages[d := SetEntry(pages[d], x, Entry(t, {PTE_P, PTE_W, PTE_U}))];
          owner := owner[t as nat := Table(d, x)];
          assert pages == AddTable(ps, d, x, t) by { AddTableIs(ps, d, x, t); }
        }
      }
      if t != -1 {
        TableRights(pages, owner, d, v, t);
      }
    }

    /** One round of `mappages`: `frame` at page `v`, unless there is no memory or the page
        is mapped already. */
    method MapOne(d: nat, v: nat, frame: nat, flags: set<nat>) returns (r: Mapped)
      requires Valid() && IsDir(owner, d) && v < ALLPAGES && PTE_P in flags && MayMap(pages, owner, v, frame)
      modifies this
      ensures Valid() && (r == Remap <==> Find(old(pages), d, v).Mapped?)
      ensures r != All ==> pages == old(pages) && owner == old(owner) && list == old(list)
      ensures r == NoMemory ==> old(list) == [] && TableOf(old(pages), d, v) == 0
      ensures |list| + (if TableOf(old(pages), d, v) == 0 then 1 else 0) >= |old(list)|
      ensures r == All ==> MapsTo(old(pages), pages, d, v, 1, frame, flags) && OtherFinds(old(pages), old(owner), pages, d)
      ensures r == All ==> SameData(old(pages), old(owner), pages, owner) && Grew(Claim(old(owner), d, v, frame), owner, d)
    {
      hide Sound, Listed, Find, SameFinds, SameData, MapsTo, OtherFinds, MayMap, Claim, PutEntry, Grew, Managed;
      MappedHasTable(pages, owner, d, v);
      var t := WalkAlloc(d, v);
      if t == -1 {
        return NoMemory;
      }
      ghost var mid, mow := pages, owner;
      StillMay(old(pages), old(owner), mid, mow, d, v, frame);
      AbsentEntry(mid, mow, d, v, t);
      if Present(pages[t].es[v % NENTRIES]) {
        return Remap;
      }
      PutStep(mid, mow, freelist, list, d, v, t, frame, flags);
      pages := PutEntry(pages, t, v, Entry(frame, flags));
      owner := Claim(owner, d, v, frame);
      ManagedKeys(end, mow, owner);
      MapThrough(old(pages), old(owner), mid, mow, pages, d, v, frame, flags);
      return All;
    }

    /** `mappages`: pages for `size` bytes at `va`, backed by memory from `pa` on. `n` is
        how many were mapped before memory ran out or a page turned up that was mapped
        already. */
    method MapPages(d: nat, va: nat, size: nat, pa: nat, perm: set<nat>) returns (r: Mapped, ghost n: nat)
      requires Valid() && IsDir(owner, d) && 0 < size && va + size <= WORD && pa % PGSIZE == 0
      requires MayMapAll(pages, owner, va / PGSIZE, Count(va, size), pa / PGSIZE)
      modifies this
      ensures Valid() && n <= Count(va, size)
      ensures r == All <==> n == Count(va, size)
      ensures r == Remap ==> Find(old(pages), d, va / PGSIZE + n).Mapped?
      ensures r == NoMemory ==> Find(old(pages), d, va / PGSIZE + n) == Nothing && |old(list)| < Span(va / PGSIZE, Count(va, size))
      ensures |list| + Span(va / PGSIZE, n) >= |old(list)|
      ensures Vacant(old(pages), d, va / PGSIZE, va / PGSIZE + n)
      ensures Mapping(old(pages), old(owner), pages, owner, d, va / PGSIZE, n, pa / PGSIZE, perm + {PTE_P})
      ensures GivesRights(old(pages), pages, d, va / PGSIZE, n, (perm + {PTE_P}) * ALLRIGHTS)
    {
      hide Sound, Listed, Find, Mapping, MapsTo, OtherFinds, SameData, Grew, MayMap, Claim, MayMapAll, Vacant, Managed, TableOf, Span, GivesRights;
      var a, last, p := va / PGSIZE * PGSIZE, (va + size - 1) / PGSIZE * PGSIZE, pa;
      ghost var first, frame, flags, all := va / PGSIZE, pa / PGSIZE, perm + {PTE_P}, Count(va, size);
      n := 0;
      NoSpan(first);
      NoMapping(pages, owner, d, first, frame, flags);
      VacantNone(pages, d, first);
      while true
        invariant Valid() && a == (first + n) * PGSIZE <= last && p == (frame + n) * PGSIZE && n < all
        invariant Mapping(old(pages), old(owner), pages, owner, d, first, n, frame, flags)
        invariant Vacant(old(pages), d, first, first + n) && |list| + Span(first, n) >= |old(list)|
        decreases last - a
      {
        ghost var mid, mow := pages, owner;
        NotYet(old(pages), old(owner), mid, mow, d, first, n, frame, flags);
        LastMapped(old(pages), old(owner), mid, mow, d, first, n, frame, flags);
        MayMapSome(old(pages), old(owner), first, n + 1, all, frame);
        StillMayNext(old(pages), old(owner), mid, mow, d, first, n, frame, flags);
        MoreTables(mid, d, first, n);
        SpanMonotone(first, n + 1, all);
        r := MapOne(d, a / PGSIZE, p / PGSIZE, perm + {PTE_P});
        if r != All {
          if r == NoMemory {
            NotMapped(old(pages), d, first + n);
          }
          MayMapSome(old(pages), old(owner), first, n, all, frame);
          MappingRights(old(pages), old(owner), pages, owner, d, first, n, frame, flags);
          return;
        }
        MappingMore(old(pages), old(owner), mid, mow, pages, owner, d, first, n, frame, flags);
        VacantMore(old(pages), d, first, first + n);
        n := n + 1;
        if a == last {
          MappingRights(old(pages), old(owner), pages, owner, d, first, n, frame, flags);
          return;
        }
        a, p := a + PGSIZE, p + PGSIZE;
      }
    }

    // ----- user memory

    /** `kfree` the page mapped at `v` and clear its entry in table `t`. */
    method UnmapOne(d: nat, v: nat, t: nat)
      requires Valid() && v < USERPAGES && HasTable(pages, owner, d, v, t) && Present(pages[t].es[v % NENTRIES])
      modifies this
      ensures Valid() && Unmapping(old(pages), old(owner), pages, owner, d, v, v + 1)
    {
      hide Sound, Listed, Find, Unmapping, Managed, PutEntry;
      UnmapStep(pages, owner, freelist, list, d, v, t);
      var f := pages[t].es[v % NENTRIES].frame;
      Push(f);
      pages := PutEntry(pages, t, v, NoEntry());
      owner, list := owner[f := Free], [f] + list;
      ManagedKeys(end, old(owner), owner);
    }

    /** `deallocuvm`. How it ends beyond KERNBASE depends on where it comes upon the
        kernel's part of the directory, which is `setupkvm`'s for some `data`. It goes
        astray at once or not at all; the frame there is not its own. */
    method DeallocUvm(d: nat, oldsz: nat, newsz: nat, ghost data: nat) returns (r: nat, e: Ending)
      requires Valid() && IsDir(owner, d) && newsz < WORD && oldsz < WORD
      requires newsz < oldsz && oldsz > KERNBASE ==> GoodData(data) && KernelPart(pages, d, data)
      modifies this
      ensures Valid() && IsDir(owner, d)
      ensures e == if newsz >= oldsz then Ended else KernelEnding(end, Start(newsz) * PGSIZE, oldsz)
      ensures e == Ended ==> r == if newsz >= oldsz then oldsz else newsz
      ensures newsz >= oldsz || (oldsz > KERNBASE && Start(newsz) >= USERPAGES) ==> pages == old(pages) && owner == old(owner)
      ensures newsz < oldsz && oldsz > KERNBASE && Start(newsz) < USERPAGES ==>
                Unmapping(old(pages), old(owner), pages, owner, d, Start(newsz), USERPAGES)
      ensures newsz < oldsz <= KERNBASE ==> Unmapping(old(pages), old(owner), pages, owner, d, PagesOf(newsz), PagesOf(oldsz))
    {
      hide Sound, Listed, Find, Unmapping, HasTable, PutEntry, PagesOf, NextTable, Refused, Kva, Managed, KernelPart, Start, Bad, InReach, KernelEnding, TableOf;
      if newsz >= oldsz {
        return oldsz, Ended;
      }
      ghost var lo := Start(newsz);
      ghost var hi := if oldsz <= KERNBASE then PagesOf(oldsz) else if lo < USERPAGES then USERPAGES else lo;
      NoUnmapping(pages, owner, d, lo);
      SizeInPages(oldsz, lo);
      StartIs(newsz);
      PagesMonotone(newsz, oldsz);
      StartInReach(lo);
      r := newsz;
      var a := (newsz + PGSIZE - 1) / PGSIZE * PGSIZE % WORD;
      ghost var v := lo;
      while a < oldsz
        invariant Valid() && IsDir(owner, d) && a == v * PGSIZE && lo <= v && lo <= hi && InReach(lo, v)
        invariant Unmapping(old(pages), old(owner), pages, owner, d, lo, if v <= hi then v else hi)
        invariant lo >= USERPAGES ==> pages == old(pages) && owner == old(owner)
        decreases oldsz - a
      {
        SizeInPages(oldsz, v);
        ghost var mid, mow := pages, owner;
        WordPage(a, v);
        if a >= KERNBASE {
          KernelPartStays(old(pages), old(owner), pages, owner, d, data, lo, if v <= hi then v else hi);
          AtKernelPage(pages, owner, d, data, end, lo, v, oldsz);
        } else {
          InReachUser(lo, v);
        }
        var t := Walk(d, a / PGSIZE);
        if t == -1 {
          ghost var next := (v / NENTRIES + 1) * NENTRIES;
          NoTableNoPage(pages, owner, d, v);
          PassOver(old(pages), old(owner), pages, owner, d, lo, v, hi, next);
          a := NextTable(a) - PGSIZE;
          v := next - 1;
        } else if Present(pages[t].es[a / PGSIZE % NENTRIES]) {
          AbsentEntry(pages, owner, d, v, t);
          var f := pages[t].es[a / PGSIZE % NENTRIES].frame;
          IsBad(pages, d, end, v);
          if f == 0 || Refused(end, Kva(f)) {
            if a < KERNBASE {
              UserNotRefused(pages, owner, end, d, v);
            }
            return r, Panicked;
          }
          if a >= KERNBASE {
            return r, Astray;
          }
          UnmapOne(d, a / PGSIZE, t);
          UnmappingMore(old(pages), old(owner), mid, mow, pages, owner, d, lo, v);
          DirStays(mid, mow, pages, owner, d, v, v + 1, d);
        } else {
          AbsentEntry(pages, owner, d, v, t);
          PassOver(old(pages), old(owner), pages, owner, d, lo, v, hi, v + 1);
        }
        a := a + PGSIZE;
        v := v + 1;
      }
      SizeInPages(oldsz, v);
      EndsHere(end, lo, v, oldsz);
      return r, Ended;
    }

    /** Free an address space: its user pages, its page tables and its directory. */
    method FreeVm(d: nat)
      requires Valid() && IsDir(owner, d)
      modifies this
      ensures Valid() && owner == Gone(old(owner), d)
      ensures OtherFinds(old(pages), old(owner), pages, d) && SameData(old(pages), old(owner), pages, owner)
    {
      hide Sound, Listed, Find, OtherFinds, SameData, SameFinds, Dropped, Gone, Disowned, Released, Cleared, PagesOf;
      SizeInPages(0, 0);
      var _, _ := DeallocUvm(d, KERNBASE, 0, 0);
      assert PagesOf(0) == 0 && PagesOf(KERNBASE) == USERPAGES by { UserSize(); }
      ghost var ps, ow := pages, owner;
      NoUserPages(old(pages), ps, d);
      DisownStep(ps, ow, freelist, list, d);
      owner := Disowned(owner, d);
      DropStart(old(pages), old(owner), ps, ow, d);
      FreeTables(d, old(pages), old(owner), ps, ow);
      ghost var mid, mow := pages, owner;
      HeldDir(ow, d, NENTRIES);
      KFreeFrame(d);
      DropMore(old(pages), old(owner), mid, mow, pages, owner, d, d);
      DroppedAll(old(pages), old(owner), ps, ow, d);
    }

    /** The loop of `freevm` over the directory. */
    method FreeTables(d: nat, ghost ps0: Pages, ghost ow0: Owners, ghost ps: Pages, ghost ow: Owners)
      requires Valid() && Sound(ps, ow) && IsDir(ow, d) && d in ps && pages == ps && owner == Dropped(ow, d, 0)
      requires Dropping(ps0, ow0, pages, owner, d) && ow == Released(ow0, d, 0, USERPAGES)
      modifies this
      ensures Valid() && owner == Dropped(ow, d, NENTRIES) && Dropping(ps0, ow0, pages, owner, d)
    {
      hide Sound, Listed, Find, OtherFinds, SameData, SameFinds, Dropped, Released, Dropping;
      DropNext(ps, ow, d, 0);
      var i := 0;
      while i < NENTRIES
        invariant 0 <= i <= NENTRIES && Valid() && owner == Dropped(ow, d, i) && d in pages && pages[d] == ps[d]
        invariant Dropping(ps0, ow0, pages, owner, d)
      {
        DropNext(ps, ow, d, i);
        if Present(pages[d].es[i]) {
          ghost var mid, mow := pages, owner;
          var f := pages[d].es[i].frame;
          WasTable(ow0, ow, d, f);
          KFreeFrame(f);
          DropMore(ps0, ow0, mid, mow, pages, owner, d, f);
        }
        i := i + 1;
      }
    }

    // ----- growing and copying

    /** `kalloc` for a page with contents `p`; -1 if there is none. */
    method NewPage(p: Page, ghost d: nat, ghost v: nat) returns (f: int)
      requires Valid() && IsDir(owner, d)
      modifies this
      ensures Valid() && (f == -1 ==> pages == old(pages) && owner == old(owner))
      ensures f != -1 ==> f >= 0 && f in old(owner) && old(owner)[f as nat] == Free
      ensures f != -1 ==> owner == old(owner)[f as nat := Held] && pages == old(pages)[f as nat := p]
      ensures f != -1 ==> Find(pages, d, v) == Find(old(pages), d, v)
      ensures if f == -1 then old(list) == [] else |list| + 1 == |old(list)|
    {
      hide Sound, Listed, Find;
      f := KAlloc();
      if f != -1 {
        TakePage(pages, owner, freelist, list, f, p, d, v);
        pages := pages[f as nat := p];
      }
    }

    /** Map one more user page of `d`, new and with contents `p`; if there is no memory,
        `d` is as it was. `lo` and `ws` say what has been filled in since (`ps`, `ow`). */
    method FillOne(d: nat, a: nat, p: Page, perm: set<nat>, ghost ps: Pages, ghost ow: Owners, ghost lo: nat, ghost ws: seq<Want>)
      returns (f: int, r: Mapped)
      requires Valid() && IsDir(owner, d) && a == (lo + |ws|) * PGSIZE < KERNBASE && p.Data?
      requires Sound(ps, ow) && IsDir(ow, d) && Filled(ps, ow, pages, owner, d, lo, ws)
      modifies this
      ensures Valid() && IsDir(owner, d)
      ensures f == -1 ==> pages == old(pages) && owner == old(owner) && old(list) == []
      ensures f != -1 ==> |list| + 2 >= |old(list)| && (r == NoMemory ==> |old(list)| == 1)
      ensures f != -1 ==> f >= 0 && f in ow && ow[f as nat] == Free
      ensures f != -1 ==> (r == Remap <==> Find(ps, d, lo + |ws|) != Nothing)
      ensures f != -1 && r == All ==> Filled(ps, ow, pages, owner, d, lo, ws + [Want(perm + {PTE_P}, p)])
      ensures f != -1 && r == NoMemory ==> f in owner && owner[f as nat] == Held && Filled(ps[f as nat := p], ow[f as nat := Held], pages, owner, d, lo, ws)
    {
      hide Sound, Listed, Find, Filled, Mapping, MayMap, Grew, Managed, MayMapAll, Vacant;
      ghost var v := lo + |ws|;
      NextIsFree(ps, ow, pages, owner, d, lo, ws);
      r := All;
      ghost var mid, mow := pages, owner;
      f := NewPage(p, d, v);
      if f != -1 {
        FilledHolding(ps, ow, mid, mow, d, lo, ws, f, p);
        ghost var mid1, mow1 := pages, owner;
        HeldMayMap(pages, owner, v, f);
        MayMapOne(pages, owner, v, f);
        OnePage(a, v, f);
        NoSpan(v);
        ghost var n;
        r, n := MapPages(d, a, PGSIZE, f * PGSIZE, perm);
        VacantOne(mid1, d, v, n);
        if r == All {
          FilledMore(ps, ow, f, p, mid1, mow1, pages, owner, d, lo, ws, perm + {PTE_P});
          FilledDir(ps, ow, pages, owner, d, lo, ws + [Want(perm + {PTE_P}, p)]);
        } else {
          FilledStays(ps[f as nat := p], ow[f as nat := Held], mid1, mow1, pages, owner, d, lo, ws, v, f, perm + {PTE_P});
          FilledDir(ps[f as nat := p], ow[f as nat := Held], pages, owner, d, lo, ws);
          StillHeld(mid1, mow1, pages, owner, d, v, f, perm + {PTE_P}, f);
        }
      }
    }

    /** `allocuvm`. A page in the range that is mapped already makes it panic; running out
        of memory before that unmaps the whole range. */
    method AllocUvm(d: nat, oldsz: nat, newsz: nat) returns (r: Outcome)
      requires Valid() && IsDir(owner, d) && oldsz < WORD && newsz < WORD
      modifies this
      ensures Valid() && IsDir(owner, d)
      ensures newsz >= KERNBASE ==> r == Ok(0) && pages == old(pages) && owner == old(owner)
      ensures newsz < KERNBASE && newsz < oldsz ==> r == Ok(oldsz) && pages == old(pages) && owner == old(owner)
      ensures oldsz <= newsz < KERNBASE ==>
                var lo, hi := PagesOf(oldsz), PagesOf(newsz);
                || (r == Ok(newsz) && Vacant(old(pages), d, lo, hi) && Filled(old(pages), old(owner), pages, owner, d, lo, Zeros(hi - lo)) && ZeroSpace(pages, d, lo, hi))
                || (r == Ok(0) && Unfilled(old(pages), old(owner), pages, owner, d, lo, hi))
                || (r.Panic? && !Vacant(old(pages), d, lo, hi))
      ensures oldsz <= newsz < KERNBASE && r == Ok(0) && newsz != 0 && Vacant(old(pages), d, PagesOf(oldsz), PagesOf(newsz)) ==>
                Restored(old(pages), old(owner), pages, owner, d)
      ensures oldsz <= newsz < KERNBASE && newsz != 0 && r == Ok(0) ==> TooFew(old(pages), d, PagesOf(oldsz), PagesOf(newsz), |old(list)|)
    {
      hide Sound, Listed, Find, Filled, Unfilled, Restored, PagesOf, Zeros, Vacant, Managed, TooFew, ZeroSpace;
      if newsz >= KERNBASE {
        return Ok(0);
      }
      if newsz < oldsz {
        return Ok(oldsz);
      }
      r := Grow(d, oldsz, newsz);
      if r == Ok(0) && newsz != 0 && Vacant(old(pages), d, PagesOf(oldsz), PagesOf(newsz)) {
        UnfilledRestores(old(pages), old(owner), pages, owner, d, PagesOf(oldsz), PagesOf(newsz));
      }
    }

    /** The loop of `allocuvm`. */
    method Grow(d: nat, oldsz: nat, newsz: nat) returns (r: Outcome)
      requires Valid() && IsDir(owner, d) && oldsz <= newsz < KERNBASE
      modifies this
      ensures Valid() && IsDir(owner, d)
      ensures var lo, hi := PagesOf(oldsz), PagesOf(newsz);
              || (r == Ok(newsz) && lo <= hi && Vacant(old(pages), d, lo, hi) && Filled(old(pages), old(owner), pages, owner, d, lo, Zeros(hi - lo)) && ZeroSpace(pages, d, lo, hi))
              || (r == Ok(0) && Unfilled(old(pages), old(owner), pages, owner, d, lo, hi))
              || (r.Panic? && !Vacant(old(pages), d, lo, hi))
      ensures newsz != 0 && r == Ok(0) ==> TooFew(old(pages), d, PagesOf(oldsz), PagesOf(newsz), |old(list)|)
    {
      hide Sound, Listed, Find, Filled, Unfilled, PagesOf, Zeros, Vacant, Managed, TooFew, ZeroSpace;
      ghost var ps, ow, lo, hi := pages, owner, PagesOf(oldsz), PagesOf(newsz);
      PagesOfIs(oldsz);
      PagesMonotone(oldsz, newsz);
      SizeInPages(newsz, lo);
      SizeInPages(oldsz, lo);
      NotFilled(ps, ow, d, lo);
      NoZeros();
      VacantNone(ps, d, lo);
      var a := (oldsz + PGSIZE - 1) / PGSIZE * PGSIZE;
      ghost var n: nat := 0;
      while a < newsz
        invariant Valid() && IsDir(owner, d) && a == (lo + n) * PGSIZE && lo + n <= hi && Filled(ps, ow, pages, owner, d, lo, Zeros(n))
        invariant Vacant(ps, d, lo, lo + n) && |list| + 2 * n >= |old(list)|
      {
        SizeInPages(newsz, lo + n);
        RanOut(ps, d, lo, n, hi, |old(list)|);
        var f, m := FillOne(d, a, ZeroPage(), {PTE_W, PTE_U}, ps, ow, lo, Zeros(n));
        if f == -1 {
          ghost var mid, mow := pages, owner;
          var _, _ := DeallocUvm(d, newsz, oldsz, 0);
          FilledUndone(ps, ow, mid, mow, pages, owner, d, lo, Zeros(n), hi);
          return Ok(0);
        }
        if m == NoMemory {
          TakeBack(d, newsz, oldsz, f, ZeroPage(), ps, ow, Zeros(n));
          return Ok(0);
        }
        if m == Remap {
          NotVacant(ps, d, lo, hi, lo + n);
          return Panic("remap");
        }
        MoreZeros(n);
        VacantMore(ps, d, lo, lo + n);
        n := n + 1;
        a := a + PGSIZE;
      }
      SizeInPages(newsz, lo + n);
      ZerosFill(ps, ow, pages, owner, d, lo, n);
      return Ok(newsz);
    }

    /** Out of memory with a page in hand: unmap what was mapped and free the page. */
    method TakeBack(d: nat, newsz: nat, oldsz: nat, f: nat, p: Page, ghost ps: Pages, ghost ow: Owners, ghost ws: seq<Want>)
      requires Valid() && IsDir(owner, d) && oldsz < newsz < KERNBASE && PagesOf(oldsz) + |ws| <= PagesOf(newsz)
      requires Sound(ps, ow) && IsDir(ow, d) && f in ow && ow[f] == Free && f in owner && owner[f] == Held
      requires Filled(ps[f := p], ow[f := Held], pages, owner, d, PagesOf(oldsz), ws)
      modifies this
      ensures Valid() && IsDir(owner, d) && Unfilled(ps, ow, pages, owner, d, PagesOf(oldsz), PagesOf(newsz))
    {
      hide Sound, Listed, Find, Filled, Unfilled, PagesOf, Unmapping, SameData, SameFinds, Managed;
      ghost var lo, hi := PagesOf(oldsz), PagesOf(newsz);
      ghost var mid, mow := pages, owner;
      var _, _ := DeallocUvm(d, newsz, oldsz, 0);
      FilledUndone(ps[f := p], ow[f := Held], mid, mow, pages, owner, d, lo, ws, hi);
      ghost var mid2, mow2 := pages, owner;
      KeptFrame(mid, mow, pages, owner, d, lo, hi, f);
      KFreeFrame(f);
      UnfilledFrame(ps, ow, f, p, mid2, mow2, pages, owner, d, lo, hi);
      UnfilledDir(ps, ow, pages, owner, d, lo, hi);
    }

    /** `freevm` of an address space made since (`ps0`, `ow0`): all is as it was then. */
    method GiveUp(d: nat, ghost ps0: Pages, ghost ow0: Owners)
      requires Valid() && IsDir(owner, d) && Sound(ps0, ow0) && d in ow0 && ow0[d] == Free && Born(ow0, owner, d)
      requires OtherFinds(ps0, ow0, pages, d) && SameData(ps0, ow0, pages, owner)
      modifies this
      ensures Valid() && owner == ow0 && SameFinds(ps0, ow0, pages) && SameData(ps0, ow0, pages, owner)
    {
      hide Sound, Listed, Find, SameFinds, SameData, OtherFinds, Born, Gone, Managed;
      ghost var mid, mow := pages, owner;
      FreeVm(d);
      Unborn(ps0, ow0, mid, mow, pages, owner, d);
    }

    /** A new address space with the kernel's part only; -1 if there is no memory. */
    method SetupKvm(data: nat) returns (r: int)
      requires Valid() && GoodData(data)
      modifies this
      ensures Valid()
      ensures r == -1 ==> owner == old(owner) && SameFinds(old(pages), old(owner), pages) && SameData(old(pages), old(owner), pages, owner)
      ensures if r == -1 then |old(list)| < KVMPAGES else |list| + KVMPAGES >= |old(list)|
      ensures r != -1 ==> r >= 0 && Built(old(pages), old(owner), pages, owner, r, Kmaps(data), 4) && KernelSpace(pages, r, data, 0)
    {
      hide Sound, Listed, Find, SameFinds, SameData, OtherFinds, Built, Mapping, Kmaps, GoodData, EmptyTable, Born, MayMap, Managed, MayMapAll, Count, Span, KvmTables, KmapTables, KernelSpace;
      SameRefl(pages, owner);
      r := KAlloc();
      if r == -1 {
        return;
      }
      var d: nat := r;
      var ks := Kmaps(data);
      NewDir(old(pages), old(owner), freelist, list, d, ks);
      pages := pages[d := EmptyTable()];
      owner := owner[d := Dir];
      assert owner == old(owner)[d := Dir];
      ManagedKeys(end, old(owner), owner);
      NoKvmTables(data);
      KvmTablesIs(data, 3);
      var k := 0;
      while k < |ks|
        invariant 0 <= k <= 4 && Valid() && Built(old(pages), old(owner), pages, owner, d, ks, k)
        invariant |list| + 1 + KvmTables(data, k) >= |old(list)|
      {
        ghost var mid, mow := pages, owner;
        KmapsApart(data, k, 0);
        KmapVacant(old(pages), old(owner), pages, owner, d, data, k);
        BuiltDir(old(pages), old(owner), pages, owner, d, ks, k);
        KmapMay(mid, mow, data, k);
        var m, n := MapPages(d, ks[k].virt, ks[k].size, ks[k].phys, ks[k].perm);
        KmapCount(ks[k]);
        KvmTablesIs(data, k);
        KmapTablesIs(ks[k]);
        if m != All {
          BuiltPartly(old(pages), old(owner), mid, mow, pages, owner, d, ks, k, ks[k].virt / PGSIZE, n, ks[k].phys / PGSIZE, ks[k].perm + {PTE_P});
          GiveUp(d, old(pages), old(owner));
          return -1;
        }
        BuiltMore(old(pages), old(owner), mid, mow, pages, owner, d, ks, k);
        k := k + 1;
      }
      BuiltKernel(old(pages), old(owner), pages, owner, d, data);
    }

    /** One page of `copyuvm`; without memory the new address space is given up. */
    method CopyPage(c: nat, i: nat, pte: Entry, ghost ps0: Pages, ghost ow0: Owners, ghost ps1: Pages, ghost ow1: Owners, ghost d: nat, ghost v: nat, ghost data: nat)
      returns (ok: bool)
      requires Valid() && GoodData(data) && i == v * PGSIZE < KERNBASE && IsDir(owner, c) && IsDir(owner, d)
      requires Sound(ps0, ow0) && Sound(ps1, ow1) && Built(ps0, ow0, ps1, ow1, c, Kmaps(data), 4) && IsDir(ow0, d)
      requires Filled(ps1, ow1, pages, owner, c, 0, WantsOf(ps0, d, v)) && Find(ps0, d, v) == Found.Mapped(pte)
      modifies this
      ensures Valid()
      ensures ok ==> IsDir(owner, c) && Filled(ps1, ow1, pages, owner, c, 0, WantsOf(ps0, d, v + 1))
      ensures if ok then |list| + 2 >= |old(list)| else |old(list)| <= 1
      ensures !ok ==> owner == ow0 && SameFinds(ps0, ow0, pages) && SameData(ps0, ow0, pages, owner)
    {
      hide Sound, Listed, Find, SameFinds, SameData, OtherFinds, Built, Filled, Kmaps, GoodData, Born, WantsOf, HasTable, Gone, Managed;
      BuiltIs(ps0, ow0, ps1, ow1, c, Kmaps(data), 4);
      BornFilled(ps0, ow0, ps1, ow1, pages, owner, c, WantsOf(ps0, d, v));
      WordPage(i, v);
      SourceSame(ps0, ow0, pages, owner, d, c, v);
      KernelFree(ps0, ow0, ps1, ow1, c, data, v);
      var page := pages[pte.frame];
      var f, m := FillOne(c, i, page, pte.flags, ps1, ow1, 0, WantsOf(ps0, d, v));
      ok := f != -1 && m == All;
      if !ok {
        ghost var mid, mow := pages, owner;
        if f != -1 {
          KFreeFrame(f);
          BornHolding(ps0, ow0, ps1, ow1, f, page, mid, mow, pages, owner, c, WantsOf(ps0, d, v));
        }
        GiveUp(c, ps0, ow0);
      } else {
        assert pte.flags + {PTE_P} == pte.flags;
        MoreWants(ps0, d, v);
      }
    }

    /** `copyuvm` at KERNBASE: the page is in the new address space already. */
    method CopyBeyond(c: nat, i: nat, flags: set<nat>, ghost ps0: Pages, ghost ow0: Owners, ghost ps1: Pages, ghost ow1: Owners, ghost ws: seq<Want>, ghost data: nat)
      returns (r: Outcome)
      requires Valid() && GoodData(data) && i == KERNBASE && IsDir(owner, c) && |ws| == USERPAGES
      requires Sound(ps0, ow0) && Built(ps0, ow0, ps1, ow1, c, Kmaps(data), 4) && Filled(ps1, ow1, pages, owner, c, 0, ws)
      modifies this
      ensures Valid() && (r == Ok(-1) || r.Panic?)
      ensures r == Ok(-1) ==> owner == ow0 && SameFinds(ps0, ow0, pages) && SameData(ps0, ow0, pages, owner) && old(list) == []
    {
      hide Sound, Listed, Find, SameFinds, SameData, OtherFinds, Built, Filled, Kmaps, GoodData, Born, Gone, Managed, Mapping, MayMapAll, Vacant, Grew;
      BuiltIs(ps0, ow0, ps1, ow1, c, Kmaps(data), 4);
      BornFilled(ps0, ow0, ps1, ow1, pages, owner, c, ws);
      KernelThere(ps0, ow0, ps1, ow1, pages, owner, c, data, ws);
      ghost var mid, mow := pages, owner;
      var f := KAlloc();
      if f == -1 {
        GiveUp(c, ps0, ow0);
        return Ok(-1);
      }
      MayMapKernel(pages, owner, USERPAGES, 1, f);
      OnePage(i, USERPAGES, f);
      var m, n := MapPages(c, i, PGSIZE, f * PGSIZE, flags);
      VacantOne(mid, c, USERPAGES, n);
      assert m == Remap;
      return Panic("remap");
    }

    /** `copyuvm`: a copy of the first `sz` bytes of `d`; -1 if there is no memory, and then
        nothing has changed. It panics at a page that is not there, and beyond KERNBASE. */
    method CopyUvm(d: nat, sz: nat, data: nat) returns (r: Outcome)
      requires Valid() && GoodData(data) && IsDir(owner, d) && sz < WORD
      modifies this
      ensures Valid()
      ensures r == Ok(-1) ==> owner == old(owner) && SameFinds(old(pages), old(owner), pages) && SameData(old(pages), old(owner), pages, owner)
      ensures r == Ok(-1) ==> |old(list)| < KVMPAGES + 2 * PagesOf(sz)
      ensures r == Ok(-1) ==> forall v :: 0 <= v < PagesOf(sz) && Find(old(pages), d, v) == Nothing ==> |old(list)| < KVMPAGES + 2 * v
      ensures r.Ok? && r != Ok(-1) ==>
                && r.value >= 0 && sz <= KERNBASE && (forall v :: 0 <= v < PagesOf(sz) ==> Find(old(pages), d, v).Mapped?)
                && Copied(old(pages), old(owner), pages, owner, d, r.value, PagesOf(sz), data)
                && SameSpace(old(pages), d, pages, r.value, PagesOf(sz)) && KernelSpace(pages, r.value, data, PagesOf(sz))
      ensures r.Panic? ==> sz > KERNBASE || exists v :: 0 <= v < PagesOf(sz) && Find(old(pages), d, v) == Nothing
    {
      hide Sound, Listed, Find, SameFinds, SameData, OtherFinds, Built, Filled, Kmaps, GoodData, Born, PagesOf, WantsOf, Copied, HasTable, Gone, Managed, SameSpace, KernelSpace;
      ghost var ps0, ow0 := pages, owner;
      var c := SetupKvm(data);
      if c == -1 {
        return Ok(-1);
      }
      ghost var ps1, ow1 := pages, owner;
      BuiltIs(ps0, ow0, ps1, ow1, c, Kmaps(data), 4);
      NotFilled(ps1, ow1, c, 0);
      assert WantsOf(ps0, d, 0) == [] by { NoWants(ps0, d); }
      var i := 0;
      ghost var v: nat := 0;
      while i < sz
        invariant Valid() && i == v * PGSIZE && v <= PagesOf(sz) && v <= USERPAGES && IsDir(owner, c)
        invariant Filled(ps1, ow1, pages, owner, c, 0, WantsOf(ps0, d, v))
        invariant forall u :: 0 <= u < v ==> Find(ps0, d, u).Mapped?
        invariant |list| + KVMPAGES + 2 * v >= |old(list)|
      {
        SizeInPages(sz, v);
        BornFilled(ps0, ow0, ps1, ow1, pages, owner, c, WantsOf(ps0, d, v));
        BornDir(ow0, owner, c, d);
        WordPage(i, v);
        SourceFound(ps0, ow0, pages, d, c, v);
        var t := Walk(d, i / PGSIZE);
        if t == -1 {
          NoTableNoPage(pages, owner, d, v);
          return Panic("copyuvm: pte should exist");
        }
        AbsentEntry(pages, owner, d, v, t);
        var pte := pages[t].es[i / PGSIZE % NENTRIES];
        if !Present(pte) {
          return Panic("copyuvm: page not present");
        }
        if i >= KERNBASE {
          r := CopyBeyond(c, i, pte.flags, ps0, ow0, ps1, ow1, WantsOf(ps0, d, v), data);
          return;
        }
        var ok := CopyPage(c, i, pte, ps0, ow0, ps1, ow1, d, v, data);
        if !ok {
          return Ok(-1);
        }
        i := i + PGSIZE;
        v := v + 1;
      }
      SizeInPages(sz, v);
      CopyDone(ps0, ow0, ps1, ow1, pages, owner, d, c, v, data);
      CopiedSpace(ps0, ow0, pages, owner, d, c, v, data);
      CopiedKernel(ps0, ow0, pages, owner, d, c, v, data);
      return Ok(c);
    }
  }

  /** With `free` pages, `allocuvm` may run out before it is done and before it comes to a
      page that is mapped: two pages for each new one may be needed, one for the last. */
  ghost predicate TooFew(ps: Pages, d: nat, lo: nat, hi: nat, free: nat) {
    free < 2 * (hi - lo) && forall v :: lo <= v < hi && Find(ps, d, v) != Nothing ==> free <= 2 * (v - lo)
  }

  lemma RanOut(ps: Pages, d: nat, lo: nat, n: nat, hi: nat, free: nat)
    requires Vacant(ps, d, lo, lo + n) && lo + n < hi
    ensures free <= 2 * n ==> TooFew(ps, d, lo, hi, free)
    ensures free <= 2 * n + 1 && Find(ps, d, lo + n) == Nothing ==> TooFew(ps, d, lo, hi, free)
  {
    hide Find;
  }

  /** Pages as `allocuvm` makes them. */
  function Zeros(n: nat): (r: seq<Want>)
    ensures |r| == n
  {
    seq(n, i => Want({PTE_W, PTE_U} + {PTE_P}, ZeroPage()))
  }

  lemma ZerosFill(ps: Pages, ow: Owners, ps': Pages, ow': Owners, d: nat, lo: nat, n: nat)
    requires Sound(ps', ow') && IsDir(ow', d) && Filled(ps, ow, ps', ow', d, lo, Zeros(n))
    ensures ZeroSpace(ps', d, lo, lo + n)
  {
    hide Sound, Find, GotAll, ZeroPage, ZeroSpace;
    FilledZeros(ps, ps', ow', d, lo, Zeros(n));
  }

  lemma NoZeros()
    ensures Zeros(0) == []
  {}

  lemma MoreZeros(n: nat)
    ensures Zeros(n + 1) == Zeros(n) + [Want({PTE_W, PTE_U} + {PTE_P}, ZeroPage())]
  {}
}
