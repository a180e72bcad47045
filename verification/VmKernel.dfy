/** The kernel's part of every address space, and address spaces made from nothing. */
module VmKernel {
  import opened Frames
  import opened VmSteps
  import opened VmFill

  const EXTMEM: nat := 0x10_0000
  const PHYSTOP: nat := 0xE00_0000
  const DEVSPACE: nat := 0xFE00_0000
  const KERNLINK: nat := KERNBASE + EXTMEM

  datatype Kmap = Kmap(virt: nat, phys: nat, size: nat, perm: set<nat>)

  /** Where the kernel's data starts, as the linker placed it. */
  predicate GoodData(data: nat) {
    KERNLINK < data < KERNBASE + PHYSTOP && data % PGSIZE == 0
  }

  /** The kernel's mappings. */
  function Kmaps(data: nat): (ks: seq<Kmap>)
    requires GoodData(data)
    ensures |ks| == 4
  {
    [ Kmap(KERNBASE, 0, EXTMEM, {PTE_W}),
      Kmap(KERNLINK, EXTMEM, data - KERNLINK, {}),
      Kmap(data, data - KERNBASE, PHYSTOP - (data - KERNBASE), {PTE_W}),
      Kmap(DEVSPACE, DEVSPACE, WORD - DEVSPACE, {PTE_W}) ]
  }

  predicate InKmap(k: Kmap, v: nat) {
    k.size > 0 && k.virt / PGSIZE <= v <= (k.virt + k.size - 1) / PGSIZE
  }

  function KmapEntry(k: Kmap, v: nat): Entry
    requires k.virt / PGSIZE <= v
  {
    Entry(k.phys / PGSIZE + (v - k.virt / PGSIZE), k.perm + {PTE_P})
  }

  /** What the first `n` mappings say about page `v`. */
  function KernelFind(ks: seq<Kmap>, n: nat, v: nat): Found
    requires n <= |ks|
  {
    if n == 0 then Nothing
    else if InKmap(ks[n - 1], v) then Mapped(KmapEntry(ks[n - 1], v))
    else KernelFind(ks, n - 1, v)
  }

  /** The mappings do not overlap, are in the kernel's part and in 32 bits. */
  lemma KmapsApart(data: nat, n: nat, v: nat)
    requires GoodData(data) && n < 4
    ensures var k := Kmaps(data)[n];
            k.size > 0 && k.phys % PGSIZE == 0 && KERNBASE <= k.virt && k.virt + k.size <= WORD && k.virt % PGSIZE == 0
    ensures InKmap(Kmaps(data)[n], v) ==> KernelFind(Kmaps(data), n, v) == Nothing
  {
    if InKmap(Kmaps(data)[n], v) {
      KernelBelow(data, n, v);
    }
  }

  lemma {:induction false} KernelBelow(data: nat, n: nat, v: nat)
    requires GoodData(data) && n < 4 && Kmaps(data)[n].virt / PGSIZE <= v
    ensures KernelFind(Kmaps(data), n, v) == Nothing
  {
    if n > 0 {
      assert !InKmap(Kmaps(data)[n - 1], v);
      KernelBelow(data, n - 1, v);
    }
  }

  lemma {:induction false} KernelAbove(data: nat, n: nat, v: nat)
    requires GoodData(data) && n <= 4 && v < USERPAGES
    ensures KernelFind(Kmaps(data), n, v) == Nothing
  {
    if n > 0 {
      KernelAbove(data, n - 1, v);
    }
  }

  // ----- a new directory

  /** From `ow0` to `ow`, free frames became part of address space `d`. */
  ghost predicate Born(ow0: Owners, ow: Owners, d: nat) {
    ow.Keys == ow0.Keys && forall f :: f in ow0 ==> ow[f] == ow0[f] || (ow0[f] == Free && Mine(ow[f], f, d))
  }

  /** A new directory with the first `n` kernel mappings; the rest is as it was. */
  ghost predicate Built(ps0: Pages, ow0: Owners, ps: Pages, ow: Owners, d: nat, ks: seq<Kmap>, n: nat)
    requires n <= |ks|
  {
    && (forall v: nat :: Find(ps, d, v) == KernelFind(ks, n, v))
    && OtherFinds(ps0, ow0, ps, d) && SameData(ps0, ow0, ps, ow) && Born(ow0, ow, d)
    && IsDir(ow, d) && d in ow0 && ow0[d] == Free
  }

  lemma NewDirSound(ps: Pages, ow: Owners, d: nat)
    requires Sound(ps, ow) && d in ow && ow[d] == Free
    ensures Sound(ps[d := EmptyTable()], ow[d := Dir])
  {
    var ps', ow' := ps[d := EmptyTable()], ow[d := Dir];
    forall f | f in ow
      ensures FrameOk(ps', ow', f)
    {
      assert FrameOk(ps, ow, f);
    }
  }

  /** A page in hand becomes an empty directory. */
  lemma NewDir(ps0: Pages, ow0: Owners, freelist: int, list: seq<nat>, d: nat, ks: seq<Kmap>)
    requires Sound(ps0, ow0) && d in ow0 && ow0[d] == Free && Listed(ps0, ow0[d := Held], freelist, list)
    ensures var ps, ow := ps0[d := EmptyTable()], ow0[d := Dir];
            Sound(ps, ow) && Listed(ps, ow, freelist, list) && ow.Keys == ps.Keys && Built(ps0, ow0, ps, ow, d, ks, 0)
  {
    hide Listed, Sound, Find, EmptyTable;
    SoundKeys(ps0, ow0);
    var ps, ow := ps0[d := EmptyTable()], ow0[d := Dir];
    NewDirSound(ps0, ow0, d);
    ListedSame(ps0, ow0[d := Held], ps, ow, freelist, list);
    forall d2, v | IsDir(ow0, d2)
      ensures Find(ps, d2, v) == Find(ps0, d2, v)
    {
      LooseFinds(ps0, ow0, d, EmptyTable(), d2, v);
    }
    forall v: nat
      ensures Find(ps, d, v) == Nothing
    {
      EmptyFinds(ps, d, v);
    }
  }

  lemma EmptyFinds(ps: Pages, d: nat, v: nat)
    requires d in ps && ps[d] == EmptyTable() && 0 !in ps
    ensures Find(ps, d, v) == Nothing
  {}

  /** One more kernel mapping was made. */
  lemma BuiltMore(ps0: Pages, ow0: Owners, mid: Pages, mow: Owners, ps: Pages, ow: Owners, d: nat, ks: seq<Kmap>, n: nat)
    requires n < |ks| && Built(ps0, ow0, mid, mow, d, ks, n) && ks[n].size > 0 && KERNBASE <= ks[n].virt
    requires Mapping(mid, mow, ps, ow, d, ks[n].virt / PGSIZE, (ks[n].virt + ks[n].size - 1) / PGSIZE - ks[n].virt / PGSIZE + 1,
                     ks[n].phys / PGSIZE, ks[n].perm + {PTE_P})
    ensures Built(ps0, ow0, ps, ow, d, ks, n + 1)
  {
    hide Find, OtherFinds, SameData, Born, Grew, Claims;
    ClaimsKernel(mow, d, ks[n].virt / PGSIZE, (ks[n].virt + ks[n].size - 1) / PGSIZE - ks[n].virt / PGSIZE + 1, ks[n].phys / PGSIZE);
    forall v: nat
      ensures Find(ps, d, v) == KernelFind(ks, n + 1, v)
    {
      assert Find(mid, d, v) == KernelFind(ks, n, v);
    }
    BornMore(ps0, ow0, mid, mow, ps, ow, d);
  }

  /** Mapping kernel pages adds only tables. */
  lemma BornMore(ps0: Pages, ow0: Owners, mid: Pages, mow: Owners, ps: Pages, ow: Owners, d: nat)
    requires OtherFinds(ps0, ow0, mid, d) && SameData(ps0, ow0, mid, mow) && Born(ow0, mow, d) && IsDir(mow, d)
    requires OtherFinds(mid, mow, ps, d) && SameData(mid, mow, ps, ow) && Grew(mow, ow, d)
    ensures OtherFinds(ps0, ow0, ps, d) && SameData(ps0, ow0, ps, ow) && Born(ow0, ow, d) && IsDir(ow, d)
  {
    hide Find;
  }

  /** Freeing an address space that was made from free frames leaves everything as it
      was. */
  lemma Unborn(ps0: Pages, ow0: Owners, mid: Pages, mow: Owners, ps: Pages, ow: Owners, d: nat)
    requires Sound(ps0, ow0) && d in ow0 && ow0[d] == Free && Born(ow0, mow, d) && IsDir(mow, d)
    requires OtherFinds(ps0, ow0, mid, d) && SameData(ps0, ow0, mid, mow)
    requires OtherFinds(mid, mow, ps, d) && SameData(mid, mow, ps, ow) && ow == Gone(mow, d)
    ensures ow == ow0 && SameFinds(ps0, ow0, ps) && SameData(ps0, ow0, ps, ow0)
  {
    hide Find, Sound, OtherFinds, SameData, SameFinds, Gone;
    assert ow == ow0 by { UnbornOwners(ps0, ow0, mow, d); }
    UnbornFinds(ow0, mow, ps0, mid, ps, d);
    UnbornData(ow0, mow, ps0, mid, ps, d);
  }

  lemma UnbornOwners(ps0: Pages, ow0: Owners, mow: Owners, d: nat)
    requires Sound(ps0, ow0) && d in ow0 && ow0[d] == Free && Born(ow0, mow, d)
    ensures Gone(mow, d) == ow0
  {
    forall f | f in ow0
      ensures Gone(mow, d)[f] == ow0[f]
    {
      assert FrameOk(ps0, ow0, f);
    }
  }

  lemma UnbornFinds(ow0: Owners, mow: Owners, ps0: Pages, mid: Pages, ps: Pages, d: nat)
    requires d in ow0 && ow0[d] == Free && Born(ow0, mow, d) && OtherFinds(ps0, ow0, mid, d) && OtherFinds(mid, mow, ps, d)
    ensures SameFinds(ps0, ow0, ps)
  {
    hide Find;
  }

  lemma UnbornData(ow0: Owners, mow: Owners, ps0: Pages, mid: Pages, ps: Pages, d: nat)
    requires Born(ow0, mow, d) && SameData(ps0, ow0, mid, mow) && SameData(mid, mow, ps, ow0)
    ensures SameData(ps0, ow0, ps, ow0)
  {}

  // ----- copying

  /** What user page `v` of `d` is. */
  function WantOf(ps: Pages, d: nat, v: nat): Want {
    var e := Find(ps, d, v);
    if e.Mapped? && e.entry.frame in ps then Want(e.entry.flags, ps[e.entry.frame]) else Want({}, Run(-1))
  }

  function WantsOf(ps: Pages, d: nat, n: nat): (ws: seq<Want>)
    ensures |ws| == n
  {
    if n == 0 then [] else WantsOf(ps, d, n - 1) + [WantOf(ps, d, n - 1)]
  }

  lemma {:induction false} WantsAt(ps: Pages, d: nat, n: nat, v: nat)
    requires v < n
    ensures WantsOf(ps, d, n)[v] == WantOf(ps, d, v)
  {
    if v < n - 1 {
      WantsAt(ps, d, n - 1, v);
    }
  }

  /** The next kernel mapping finds its pages free. */
  lemma KmapVacant(ps0: Pages, ow0: Owners, ps: Pages, ow: Owners, d: nat, data: nat, n: nat)
    requires GoodData(data) && n < 4 && Built(ps0, ow0, ps, ow, d, Kmaps(data), n)
    ensures var k := Kmaps(data)[n];
            forall v :: k.virt / PGSIZE <= v <= (k.virt + k.size - 1) / PGSIZE ==> Find(ps, d, v) == Nothing
  {
    hide Find, OtherFinds, SameData, Born, Kmaps, GoodData, KernelFind;
    var k := Kmaps(data)[n];
    forall v | k.virt / PGSIZE <= v <= (k.virt + k.size - 1) / PGSIZE
      ensures Find(ps, d, v) == Nothing
    {
      KmapsApart(data, n, v);
      assert Find(ps, d, v) == KernelFind(Kmaps(data), n, v);
    }
  }

  /** A kernel mapping that ran out of memory half way. */
  lemma BuiltPartly(ps0: Pages, ow0: Owners, mid: Pages, mow: Owners, ps: Pages, ow: Owners, d: nat, ks: seq<Kmap>, n: nat, first: nat, m: nat, frame: nat, flags: set<nat>)
    requires n <= |ks| && Built(ps0, ow0, mid, mow, d, ks, n) && Mapping(mid, mow, ps, ow, d, first, m, frame, flags) && USERPAGES <= first
    ensures OtherFinds(ps0, ow0, ps, d) && SameData(ps0, ow0, ps, ow) && Born(ow0, ow, d) && IsDir(ow, d)
  {
    hide Find, OtherFinds, SameData, Born, Grew, Claims;
    ClaimsKernel(mow, d, first, m, frame);
    BornMore(ps0, ow0, mid, mow, ps, ow, d);
  }

  // ----- the copy and its source

  /** Address space `c` is a copy of the first `n` pages of `d`, made of frames that
      were free; everything else is as it was. */
  ghost predicate Copied(ps0: Pages, ow0: Owners, ps: Pages, ow: Owners, d: nat, c: nat, n: nat, data: nat)
    requires GoodData(data)
  {
    && (forall v: nat :: CopiedAt(ps0, ps, d, c, n, data, v))
    && OtherFinds(ps0, ow0, ps, c) && SameData(ps0, ow0, ps, ow) && Born(ow0, ow, c) && IsDir(ow, c)
  }

  ghost predicate CopiedAt(ps0: Pages, ps: Pages, d: nat, c: nat, n: nat, data: nat, v: nat)
    requires GoodData(data)
  {
    if v < n then Got(ps, c, v, WantOf(ps0, d, v)) else Find(ps, c, v) == KernelFind(Kmaps(data), 4, v)
  }

  lemma CopyDone(ps0: Pages, ow0: Owners, ps1: Pages, ow1: Owners, ps: Pages, ow: Owners, d: nat, c: nat, n: nat, data: nat)
    requires GoodData(data) && Built(ps0, ow0, ps1, ow1, c, Kmaps(data), 4) && Filled(ps1, ow1, ps, ow, c, 0, WantsOf(ps0, d, n))
    ensures Copied(ps0, ow0, ps, ow, d, c, n, data)
  {
    hide Find, OtherFinds, SameData, Born, Kmaps, GoodData, KernelFind, Got, AddedTo, WantsOf, WantOf;
    BornFilled(ps0, ow0, ps1, ow1, ps, ow, c, WantsOf(ps0, d, n));
    forall v: nat
      ensures CopiedAt(ps0, ps, d, c, n, data, v)
    {
      assert GotAt(ps1, ps, c, 0, WantsOf(ps0, d, n), v);
      assert Find(ps1, c, v) == KernelFind(Kmaps(data), 4, v);
      if v < n {
        WantsAt(ps0, d, n, v);
      }
    }
  }

  lemma BornFilled(ps0: Pages, ow0: Owners, ps1: Pages, ow1: Owners, ps: Pages, ow: Owners, c: nat, ws: seq<Want>)
    requires OtherFinds(ps0, ow0, ps1, c) && SameData(ps0, ow0, ps1, ow1) && Born(ow0, ow1, c) && IsDir(ow1, c)
    requires Filled(ps1, ow1, ps, ow, c, 0, ws)
    ensures OtherFinds(ps0, ow0, ps, c) && SameData(ps0, ow0, ps, ow) && Born(ow0, ow, c) && IsDir(ow, c)
  {
    hide Find, GotAll;
    forall f | f in ow0
      ensures Added(ow1[f], ow[f], c, 0, |ws|)
    {
      assert f in ow1;
    }
  }

  /** The frame in hand was given back before the copy is undone. */
  lemma BornHolding(ps0: Pages, ow0: Owners, ps1: Pages, ow1: Owners, f: nat, p: Page, mid: Pages, mow: Owners, ps: Pages, ow: Owners, c: nat, ws: seq<Want>)
    requires Sound(ps1, ow1) && OtherFinds(ps0, ow0, ps1, c) && SameData(ps0, ow0, ps1, ow1) && Born(ow0, ow1, c) && IsDir(ow1, c)
    requires f in ow1 && ow1[f] == Free && Filled(ps1[f := p], ow1[f := Held], mid, mow, c, 0, ws)
    requires SameFinds(mid, mow, ps) && SameData(mid, mow, ps, ow) && f in mow && ow == mow[f := Free]
    ensures OtherFinds(ps0, ow0, ps, c) && SameData(ps0, ow0, ps, ow) && Born(ow0, ow, c) && IsDir(ow, c)
  {
    hide Find, GotAll, Sound, SameFinds, OtherFinds, SameData, AddedTo, Born;
    SoundKeys(ps1, ow1);
    HoldingOwners(ow0, ow1, f, mow, ow, c, |ws|);
    HoldingData(ps0, ow0, ps1, ow1, f, p, mid, mow, ps, ow, c, |ws|);
    HoldingFinds(ps0, ow0, ps1, ow1, f, p, mid, mow, ps, c, |ws|);
  }

  lemma HoldingOwners(ow0: Owners, ow1: Owners, f: nat, mow: Owners, ow: Owners, c: nat, n: nat)
    requires Born(ow0, ow1, c) && IsDir(ow1, c) && f in ow1 && ow1[f] == Free && AddedTo(ow1[f := Held], mow, c, 0, n)
    requires f in mow && ow == mow[f := Free]
    ensures Born(ow0, ow, c) && IsDir(ow, c)
  {
    var ow2 := ow1[f := Held];
    forall g | g in ow0
      ensures Added(ow2[g], mow[g], c, 0, n)
    {
      assert g in ow2;
    }
    assert Added(ow2[c], mow[c], c, 0, n);
  }

  lemma HoldingData(ps0: Pages, ow0: Owners, ps1: Pages, ow1: Owners, f: nat, p: Page, mid: Pages, mow: Owners, ps: Pages, ow: Owners, c: nat, n: nat)
    requires SameData(ps0, ow0, ps1, ow1) && Born(ow0, ow1, c) && f in ow1 && ow1[f] == Free && AddedTo(ow1[f := Held], mow, c, 0, n)
    requires SameData(ps1[f := p], ow1[f := Held], mid, mow) && SameData(mid, mow, ps, ow) && f in mow && ow == mow[f := Free]
    ensures SameData(ps0, ow0, ps, ow)
  {
    var ow2 := ow1[f := Held];
    forall g | g in ow0
      ensures g in ow2 && g in mow && Added(ow2[g], mow[g], c, 0, n)
    {
      assert g in ow2;
    }
  }

  lemma HoldingFinds(ps0: Pages, ow0: Owners, ps1: Pages, ow1: Owners, f: nat, p: Page, mid: Pages, mow: Owners, ps: Pages, c: nat, n: nat)
    requires Sound(ps1, ow1) && OtherFinds(ps0, ow0, ps1, c) && Born(ow0, ow1, c) && f in ow1 && ow1[f] == Free
    requires OtherFinds(ps1[f := p], ow1[f := Held], mid, c) && AddedTo(ow1[f := Held], mow, c, 0, n) && SameFinds(mid, mow, ps)
    ensures OtherFinds(ps0, ow0, ps, c)
  {
    hide Find, Sound;
    var ow2 := ow1[f := Held];
    forall d2, v | IsDir(ow0, d2) && d2 != c
      ensures Find(ps, d2, v) == Find(ps0, d2, v)
    {
      assert Added(ow2[d2], mow[d2], c, 0, n);
      assert Find(ps1, d2, v) == Find(ps0, d2, v);
      LooseFinds(ps1, ow1, f, p, d2, v);
      assert Find(mid, d2, v) == Find(ps1[f := p], d2, v);
    }
  }

  /** The page to copy is still what it was at the start. */
  lemma SourceSame(ps0: Pages, ow0: Owners, ps: Pages, ow: Owners, d: nat, c: nat, v: nat)
    requires Sound(ps0, ow0) && Sound(ps, ow) && IsDir(ow0, d) && IsDir(ow, d) && d != c && v < USERPAGES
    requires OtherFinds(ps0, ow0, ps, c) && SameData(ps0, ow0, ps, ow) && Find(ps0, d, v).Mapped?
    ensures Find(ps, d, v) == Find(ps0, d, v) && WantOf(ps, d, v) == WantOf(ps0, d, v) && TableOf(ps, d, v) != 0
    ensures var e := Find(ps, d, v).entry; e.frame in ps && ps[e.frame].Data? && PTE_P in e.flags
  {
    MappedOwner(ps0, ow0, d, v);
    MappedOwner(ps, ow, d, v);
    assert Find(ps, d, v) == Find(ps0, d, v);
  }

  lemma BornDir(ow0: Owners, ow: Owners, c: nat, d: nat)
    requires Born(ow0, ow, c) && IsDir(ow0, d)
    ensures IsDir(ow, d)
  {}

  lemma BuiltDir(ps0: Pages, ow0: Owners, ps: Pages, ow: Owners, d: nat, ks: seq<Kmap>, n: nat)
    requires n <= |ks| && Built(ps0, ow0, ps, ow, d, ks, n)
    ensures IsDir(ow, d)
  {}

  lemma BuiltIs(ps0: Pages, ow0: Owners, ps: Pages, ow: Owners, d: nat, ks: seq<Kmap>, n: nat)
    requires n <= |ks| && Built(ps0, ow0, ps, ow, d, ks, n)
    ensures OtherFinds(ps0, ow0, ps, d) && SameData(ps0, ow0, ps, ow) && Born(ow0, ow, d) && IsDir(ow, d) && d in ow0 && ow0[d] == Free
  {}

  /** A new address space has no user pages. */
  lemma KernelFree(ps0: Pages, ow0: Owners, ps: Pages, ow: Owners, c: nat, data: nat, v: nat)
    requires GoodData(data) && Built(ps0, ow0, ps, ow, c, Kmaps(data), 4) && v < USERPAGES
    ensures Find(ps, c, v) == Nothing
  {
    hide Find, Kmaps, GoodData, KernelFind;
    KernelAbove(data, 4, v);
    assert Find(ps, c, v) == KernelFind(Kmaps(data), 4, v);
  }

  lemma NoWants(ps: Pages, d: nat)
    ensures WantsOf(ps, d, 0) == []
  {}

  lemma MoreWants(ps: Pages, d: nat, n: nat)
    ensures WantsOf(ps, d, n + 1) == WantsOf(ps, d, n) + [WantOf(ps, d, n)]
  {}

  /** The kernel's pages may be mapped to any frame. */
  lemma KmapMay(ps: Pages, ow: Owners, data: nat, k: nat)
    requires GoodData(data) && k < 4
    ensures var m := Kmaps(data)[k]; m.size > 0 && MayMapAll(ps, ow, m.virt / PGSIZE, Count(m.virt, m.size), m.phys / PGSIZE)
  {
    hide Kmaps, GoodData, Count;
    KmapsApart(data, k, 0);
    var m := Kmaps(data)[k];
    MayMapKernel(ps, ow, m.virt / PGSIZE, Count(m.virt, m.size), m.phys / PGSIZE);
  }

  lemma KmapCount(k: Kmap)
    requires k.size > 0
    ensures Count(k.virt, k.size) == (k.virt + k.size - 1) / PGSIZE - k.virt / PGSIZE + 1
  {}

  /** The page tables of the first `k` mappings, shared ones counted for each. */
  function KvmTables(data: nat, k: nat): nat
    requires GoodData(data) && k <= 4
  {
    if k == 0 then 0 else KvmTables(data, k - 1) + KmapTables(Kmaps(data)[k - 1])
  }

  function KmapTables(m: Kmap): nat {
    if m.size == 0 then 0 else Span(m.virt / PGSIZE, Count(m.virt, m.size))
  }

  /** Free pages that are always enough for `setupkvm`. */
  const KVMPAGES: nat := 67

  lemma KvmTablesIs(data: nat, k: nat)
    requires GoodData(data) && k < 4
    ensures KvmTables(data, k + 1) == KvmTables(data, k) + KmapTables(Kmaps(data)[k]) < KVMPAGES
  {
    hide KmapTables, Kmaps;
    EachKmap(data);
    var t0, t1, t2, t3 := KvmTables(data, 1), KvmTables(data, 2), KvmTables(data, 3), KvmTables(data, 4);
    assert t0 == KvmTables(data, 0) + KmapTables(Kmaps(data)[0]) && KvmTables(data, 0) == 0;
    assert t1 == t0 + KmapTables(Kmaps(data)[1]) && t2 == t1 + KmapTables(Kmaps(data)[2]) && t3 == t2 + KmapTables(Kmaps(data)[3]);
  }

  lemma EachKmap(data: nat)
    requires GoodData(data)
    ensures var ks := Kmaps(data);
            KmapTables(ks[0]) == 1 && KmapTables(ks[1]) + KmapTables(ks[2]) <= 57 && KmapTables(ks[3]) == 8
  {
    var ks := Kmaps(data);
    assert KmapTables(ks[0]) == 1 && KmapTables(ks[3]) == 8;
  }

  lemma NoKvmTables(data: nat)
    requires GoodData(data)
    ensures KvmTables(data, 0) == 0
  {}

  lemma KmapTablesIs(m: Kmap)
    requires m.size > 0
    ensures KmapTables(m) == Span(m.virt / PGSIZE, Count(m.virt, m.size))
  {}

  /** Another directory finds what it found before the copy was begun. */
  lemma SourceFound(ps0: Pages, ow0: Owners, ps: Pages, d: nat, c: nat, v: nat)
    requires OtherFinds(ps0, ow0, ps, c) && IsDir(ow0, d) && d != c
    ensures Find(ps, d, v) == Find(ps0, d, v)
  {
    hide Find;
  }

  /** The page at KERNBASE is mapped in every new address space. */
  lemma KernelThere(ps0: Pages, ow0: Owners, ps1: Pages, ow1: Owners, ps: Pages, ow: Owners, c: nat, data: nat, ws: seq<Want>)
    requires GoodData(data) && Built(ps0, ow0, ps1, ow1, c, Kmaps(data), 4) && Filled(ps1, ow1, ps, ow, c, 0, ws) && |ws| == USERPAGES
    ensures Find(ps, c, USERPAGES).Mapped?
  {
    hide Find, OtherFinds, SameData, Born, AddedTo;
    assert GotAt(ps1, ps, c, 0, ws, USERPAGES);
    assert Find(ps1, c, USERPAGES) == KernelFind(Kmaps(data), 4, USERPAGES);
    var ks := Kmaps(data);
    assert KernelFind(ks, 3, USERPAGES) == KernelFind(ks, 2, USERPAGES) == KernelFind(ks, 1, USERPAGES);
  }
}
