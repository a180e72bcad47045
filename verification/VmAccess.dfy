/** What the processor makes of the page tables: which accesses it lets through, and which
    bytes a program sees (Intel 64 and IA-32 Architectures Software Developer's Manual,
    volume 3A, section 4.6). */
module VmAccess {
  import opened Blocks
  import opened Frames
  import opened VmSteps
  import opened VmFill
  import opened VmKernel
  import opened VmWalk

  /** The rights at page `v` are those that its directory entry and its table entry both
      give; none if it is not mapped. */
  function Rights(ps: Pages, d: nat, v: nat): set<nat> {
    if Find(ps, d, v).Mapped? && v < ALLPAGES && d in ps && IsTable(ps[d])
    then ps[d].es[v / NENTRIES].flags * Find(ps, d, v).entry.flags * ALLRIGHTS
    else {}
  }

  /** The byte at address `a`; -1 if there is none. */
  function ByteAt(ps: Pages, d: nat, a: nat): int {
    var e := Find(ps, d, a / PGSIZE);
    if e.Mapped? && e.entry.frame in ps && ps[e.entry.frame].Data? && a % PGSIZE < |ps[e.entry.frame].bytes|
    then ps[e.entry.frame].bytes[a % PGSIZE] else -1
  }

  /** In sound memory the table entry decides. */
  lemma RightsAre(ps: Pages, ow: Owners, d: nat, v: nat)
    requires Sound(ps, ow) && IsDir(ow, d)
    ensures Rights(ps, d, v) == if Find(ps, d, v).Mapped? then Find(ps, d, v).entry.flags * ALLRIGHTS else {}
  {
    if v < ALLPAGES {
      TableIs(ps, ow, d, v);
      assert FrameOk(ps, ow, d);
      assert PdeOk(ow, d, v / NENTRIES, ps[d].es[v / NENTRIES]);
    }
  }

  // ----- mapping pages

  /** Pages of `d` from `first` on have these rights, all others what they had. */
  ghost predicate GivesRights(ps: Pages, ps': Pages, d: nat, first: nat, n: nat, rights: set<nat>) {
    forall v: nat :: Rights(ps', d, v) == if first <= v < first + n then rights else Rights(ps, d, v)
  }

  lemma MappingRights(ps: Pages, ow: Owners, ps': Pages, ow': Owners, d: nat, first: nat, n: nat, frame: nat, flags: set<nat>)
    requires Sound(ps, ow) && Sound(ps', ow') && IsDir(ow, d)
    requires MayMapAll(ps, ow, first, n, frame) && Mapping(ps, ow, ps', ow', d, first, n, frame, flags)
    ensures GivesRights(ps, ps', d, first, n, flags * ALLRIGHTS)
  {
    hide Sound, Find, Rights, Claims, MayMap;
    ClaimsKeep(ps, ow, d, first, n, frame, d);
    assert IsDir(ow', d);
    forall v: nat
      ensures Rights(ps', d, v) == if first <= v < first + n then flags * ALLRIGHTS else Rights(ps, d, v)
    {
      RightsAre(ps, ow, d, v);
      RightsAre(ps', ow', d, v);
      assert Find(ps', d, v) == if first <= v < first + n then Mapped(Entry(frame + (v - first), flags)) else Find(ps, d, v);
    }
  }

  // ----- user pages

  /** Every byte of the pages from `lo` to before `hi` is there and zero, and the program
      may read and write it. */
  ghost predicate ZeroSpace(ps: Pages, d: nat, lo: nat, hi: nat) {
    && (forall v :: lo <= v < hi ==> Rights(ps, d, v) == ALLRIGHTS)
    && (forall a :: lo * PGSIZE <= a < hi * PGSIZE ==> ByteAt(ps, d, a) == 0)
  }

  lemma PageAddress(a: nat, lo: nat, hi: nat)
    requires lo * PGSIZE <= a < hi * PGSIZE
    ensures lo <= a / PGSIZE < hi && 0 <= a % PGSIZE < PGSIZE
  {}

  lemma GotRights(ps: Pages, ow: Owners, d: nat, v: nat, w: Want)
    requires Sound(ps, ow) && IsDir(ow, d) && Got(ps, d, v, w)
    ensures Rights(ps, d, v) == w.flags * ALLRIGHTS
  {
    hide Sound, Rights, Find;
    RightsAre(ps, ow, d, v);
  }

  lemma GotByte(ps: Pages, d: nat, a: nat, w: Want)
    requires Got(ps, d, a / PGSIZE, w) && w.page.Data? && a % PGSIZE < |w.page.bytes|
    ensures ByteAt(ps, d, a) == w.page.bytes[a % PGSIZE]
  {
    hide Find;
  }

  lemma FilledZeros(ps: Pages, ps': Pages, ow': Owners, d: nat, lo: nat, ws: seq<Want>)
    requires Sound(ps', ow') && IsDir(ow', d) && GotAll(ps, ps', d, lo, ws)
    requires forall i :: 0 <= i < |ws| ==> ws[i] == Want({PTE_W, PTE_U} + {PTE_P}, ZeroPage())
    ensures ZeroSpace(ps', d, lo, lo + |ws|)
  {
    hide Sound, Rights, Find, ByteAt, Got, ZeroPage;
    ZeroBytes();
    forall v | lo <= v < lo + |ws|
      ensures Rights(ps', d, v) == ALLRIGHTS
    {
      assert GotAt(ps, ps', d, lo, ws, v);
      GotRights(ps', ow', d, v, ws[v - lo]);
    }
    forall a | lo * PGSIZE <= a < (lo + |ws|) * PGSIZE
      ensures ByteAt(ps', d, a) == 0
    {
      PageAddress(a, lo, lo + |ws|);
      var v := a / PGSIZE;
      assert GotAt(ps, ps', d, lo, ws, v);
      GotByte(ps', d, a, ws[v - lo]);
    }
  }

  lemma ZeroBytes()
    ensures ZeroPage().Data? && |ZeroPage().bytes| == PGSIZE && forall i :: 0 <= i < PGSIZE ==> ZeroPage().bytes[i] == 0
  {}

  /** The first `n` pages of `c` look to a program as those of `d` did. */
  ghost predicate SameSpace(ps: Pages, d: nat, ps': Pages, c: nat, n: nat) {
    && (forall v :: 0 <= v < n ==> Rights(ps', c, v) == Rights(ps, d, v))
    && (forall a :: 0 <= a < n * PGSIZE ==> ByteAt(ps', c, a) == ByteAt(ps, d, a))
  }

  lemma CopiedSpace(ps0: Pages, ow0: Owners, ps: Pages, ow: Owners, d: nat, c: nat, n: nat, data: nat)
    requires GoodData(data) && Sound(ps0, ow0) && Sound(ps, ow) && IsDir(ow0, d) && Copied(ps0, ow0, ps, ow, d, c, n, data)
    requires n <= USERPAGES && forall v :: 0 <= v < n ==> Find(ps0, d, v).Mapped?
    ensures SameSpace(ps0, d, ps, c, n)
  {
    hide Sound, Rights, Find, ByteAt, Kmaps;
    forall v | 0 <= v < n
      ensures Rights(ps, c, v) == Rights(ps0, d, v)
    {
      assert CopiedAt(ps0, ps, d, c, n, data, v);
      MappedOwner(ps0, ow0, d, v);
      RightsAre(ps0, ow0, d, v);
      RightsAre(ps, ow, c, v);
    }
    forall a | 0 <= a < n * PGSIZE
      ensures ByteAt(ps, c, a) == ByteAt(ps0, d, a)
    {
      PageAddress(a, 0, n);
      var v := a / PGSIZE;
      assert CopiedAt(ps0, ps, d, c, n, data, v);
      MappedOwner(ps0, ow0, d, v);
      SameByte(ps0, d, ps, c, a);
    }
  }

  lemma SameByte(ps0: Pages, d: nat, ps: Pages, c: nat, a: nat)
    requires Find(ps0, d, a / PGSIZE).Mapped? && Find(ps0, d, a / PGSIZE).entry.frame in ps0
    requires Got(ps, c, a / PGSIZE, WantOf(ps0, d, a / PGSIZE))
    ensures ByteAt(ps, c, a) == ByteAt(ps0, d, a)
  {
    hide Find;
  }

  // ----- the kernel's pages

  /** What a directory of `setupkvm` gives at page `v`: the kernel sees all memory and the
      devices there, its own text it cannot write, and the program gets at none of it. */
  ghost predicate KernelPage(ps: Pages, d: nat, data: nat, v: nat) {
    var a := v * PGSIZE;
    var e := Find(ps, d, v);
    if KERNBASE <= a < KERNBASE + PHYSTOP then
      e.Mapped? && e.entry.frame * PGSIZE == a - KERNBASE && Rights(ps, d, v) == if KERNLINK <= a < data then {PTE_P} else {PTE_P, PTE_W}
    else if DEVSPACE <= a < WORD then
      e.Mapped? && e.entry.frame * PGSIZE == a && Rights(ps, d, v) == {PTE_P, PTE_W}
    else
      e == Nothing && Rights(ps, d, v) == {}
  }

  ghost predicate KernelSpace(ps: Pages, d: nat, data: nat, lo: nat) {
    forall v: nat :: lo <= v ==> KernelPage(ps, d, data, v)
  }

  lemma KernelEntry(data: nat, v: nat)
    requires GoodData(data)
    ensures var e, a := KernelFind(Kmaps(data), 4, v), v * PGSIZE;
            && (KERNBASE <= a < KERNBASE + PHYSTOP ==>
                  e.Mapped? && e.entry.frame * PGSIZE == a - KERNBASE && e.entry.flags == if KERNLINK <= a < data then {PTE_P} else {PTE_P, PTE_W})
            && (DEVSPACE <= a < WORD ==> e.Mapped? && e.entry.frame * PGSIZE == a && e.entry.flags == {PTE_P, PTE_W})
            && (!(KERNBASE <= a < KERNBASE + PHYSTOP) && !(DEVSPACE <= a < WORD) ==> e == Nothing)
  {
    var ks := Kmaps(data);
    var k4 := KernelFind(ks, 4, v);
    var k3 := KernelFind(ks, 3, v);
    var k2 := KernelFind(ks, 2, v);
    var k1 := KernelFind(ks, 1, v);
    assert KernelFind(ks, 0, v) == Nothing;
  }

  lemma KernelRights(ps: Pages, ow: Owners, d: nat, data: nat, lo: nat)
    requires GoodData(data) && Sound(ps, ow) && IsDir(ow, d) && forall v: nat :: lo <= v ==> Find(ps, d, v) == KernelFind(Kmaps(data), 4, v)
    ensures KernelSpace(ps, d, data, lo)
  {
    hide Sound, Rights, Find, Kmaps, KernelFind;
    forall v: nat | lo <= v
      ensures KernelPage(ps, d, data, v)
    {
      RightsAre(ps, ow, d, v);
      KernelEntry(data, v);
    }
  }

  lemma BuiltKernel(ps0: Pages, ow0: Owners, ps: Pages, ow: Owners, d: nat, data: nat)
    requires GoodData(data) && Sound(ps, ow) && Built(ps0, ow0, ps, ow, d, Kmaps(data), 4)
    ensures KernelSpace(ps, d, data, 0)
  {
    hide Sound, Find, Kmaps, KernelFind, KernelSpace;
    KernelRights(ps, ow, d, data, 0);
  }

  lemma CopiedKernel(ps0: Pages, ow0: Owners, ps: Pages, ow: Owners, d: nat, c: nat, n: nat, data: nat)
    requires GoodData(data) && Sound(ps, ow) && Copied(ps0, ow0, ps, ow, d, c, n, data)
    ensures KernelSpace(ps, c, data, n)
  {
    hide Sound, Find, Kmaps, KernelFind, KernelSpace, Got;
    forall v: nat | n <= v
      ensures Find(ps, c, v) == KernelFind(Kmaps(data), 4, v)
    {
      assert CopiedAt(ps0, ps, d, c, n, data, v);
    }
    KernelRights(ps, ow, c, data, n);
  }

  /** A table takes no rights away from its pages. */
  lemma TableRights(ps: Pages, ow: Owners, d: nat, v: nat, t: nat)
    requires Sound(ps, ow) && HasTable(ps, ow, d, v, t)
    ensures ALLRIGHTS <= ps[d].es[v / NENTRIES].flags
  {
    assert FrameOk(ps, ow, d);
    assert PdeOk(ow, d, v / NENTRIES, ps[d].es[v / NENTRIES]);
  }

  // ----- isolation

  /** No program gets at a frame other than those of its own pages: not at another
      program's, and not at a page table, a directory or a free frame. */
  lemma UserIsolation(ps: Pages, ow: Owners, d: nat, data: nat, v: nat)
    requires Sound(ps, ow) && IsDir(ow, d) && KernelSpace(ps, d, data, USERPAGES) && PTE_U in Rights(ps, d, v)
    ensures v < USERPAGES && Find(ps, d, v).Mapped?
    ensures Find(ps, d, v).entry.frame in ow && ow[Find(ps, d, v).entry.frame] == User(d, v)
    ensures forall d2, u: nat :: IsDir(ow, d2) && u < USERPAGES && Find(ps, d2, u).Mapped? && Find(ps, d2, u).entry.frame == Find(ps, d, v).entry.frame ==>
              d2 == d && u == v
  {
    hide Sound, Find;
    RightsAre(ps, ow, d, v);
    forall u: nat | USERPAGES <= u
      ensures PTE_U !in Rights(ps, d, u)
    {
      assert KernelPage(ps, d, data, u);
    }
    MappedOwner(ps, ow, d, v);
    forall d2, u: nat | IsDir(ow, d2) && u < USERPAGES && Find(ps, d2, u).Mapped? && Find(ps, d2, u).entry.frame == Find(ps, d, v).entry.frame
      ensures d2 == d && u == v
    {
      MappedOwner(ps, ow, d2, u);
    }
  }
}
