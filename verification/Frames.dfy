/** Physical frames as values: what each one holds, who owns it, and how a two-level
    page table finds its way through them. */
module Frames {
  import opened Blocks

  const PGSIZE: nat := 4096
  const NENTRIES: nat := 1024
  const KERNBASE: nat := 0x8000_0000

  /** The number of pages below KERNBASE. */
  const USERPAGES: nat := 0x8_0000
  const ALLPAGES: nat := 0x10_0000

  /** Flag bits of an entry. */
  const PTE_P: nat := 0
  const PTE_W: nat := 1
  const PTE_U: nat := 2
  const ALLRIGHTS: set<nat> := {PTE_P, PTE_W, PTE_U}

  datatype Entry = Entry(frame: nat, flags: set<nat>)

  predicate Present(e: Entry) {
    PTE_P in e.flags
  }

  function NoEntry(): Entry {
    Entry(0, {})
  }

  /** A free page holds the next one of the free list, -1 at its end. */
  datatype Page = Run(next: int) | Entries(es: seq<Entry>) | Data(bytes: seq<Byte>)

  predicate IsTable(p: Page) {
    p.Entries? && |p.es| == NENTRIES
  }

  function EmptyTable(): Page {
    Entries(seq(NENTRIES, i => NoEntry()))
  }

  datatype Owner = Free | Held | Dir | Table(dir: nat, slot: nat) | User(dir: nat, vpn: nat)

  type Pages = map<nat, Page>
  type Owners = map<nat, Owner>

  /** Neither a directory nor reachable from one. */
  predicate Loose(o: Owner) {
    o == Free || o == Held
  }

  // ----- walking a page table

  datatype Found = Nothing | Mapped(entry: Entry)

  /** The page table of directory `d` for page `v`, 0 if there is none. */
  function TableOf(ps: Pages, d: nat, v: nat): nat {
    if v < ALLPAGES && d in ps && IsTable(ps[d]) && Present(ps[d].es[v / NENTRIES]) then ps[d].es[v / NENTRIES].frame else 0
  }

  /** What directory `d` maps page `v` to. */
  function Find(ps: Pages, d: nat, v: nat): Found {
    var t := TableOf(ps, d, v);
    if t in ps && IsTable(ps[t]) && Present(ps[t].es[v % NENTRIES]) then Mapped(ps[t].es[v % NENTRIES]) else Nothing
  }

  // ----- every frame is where its owner has it

  ghost predicate Sound(ps: Pages, ow: Owners) {
    ow.Keys == ps.Keys && 0 !in ow && forall f :: f in ow ==> FrameOk(ps, ow, f)
  }

  ghost predicate FrameOk(ps: Pages, ow: Owners, f: nat)
    requires ow.Keys == ps.Keys && f in ow
  {
    match ow[f]
    case Free => ps[f].Run?
    case Held => true
    case Dir => IsTable(ps[f]) && forall x :: 0 <= x < NENTRIES ==> PdeOk(ow, f, x, ps[f].es[x])
    case Table(d, x) =>
      && IsTable(ps[f]) && x < NENTRIES && IsPde(ps, ow, d, x, f)
      && (x * NENTRIES < USERPAGES ==> forall y :: 0 <= y < NENTRIES ==> PteOk(ow, d, x * NENTRIES + y, ps[f].es[y]))
    case User(d, v) => ps[f].Data? && v < USERPAGES && IsPte(ps, ow, d, v, f)
  }

  /** An entry of directory `d` is empty, or has a table of its own and takes no rights
      away from the pages in it. */
  ghost predicate PdeOk(ow: Owners, d: nat, x: nat, e: Entry) {
    Present(e) ==> e.frame in ow && ow[e.frame] == Table(d, x) && ALLRIGHTS <= e.flags
  }

  ghost predicate PteOk(ow: Owners, d: nat, v: nat, e: Entry) {
    Present(e) ==> e.frame in ow && ow[e.frame] == User(d, v)
  }

  ghost predicate IsPde(ps: Pages, ow: Owners, d: nat, x: nat, f: nat)
    requires ow.Keys == ps.Keys && x < NENTRIES
  {
    d in ow && ow[d] == Dir && IsTable(ps[d]) && Present(ps[d].es[x]) && ps[d].es[x].frame == f
  }

  ghost predicate IsPte(ps: Pages, ow: Owners, d: nat, v: nat, f: nat)
    requires ow.Keys == ps.Keys && v < USERPAGES
  {
    && d in ow && ow[d] == Dir && IsTable(ps[d]) && Present(ps[d].es[v / NENTRIES])
    && var t := ps[d].es[v / NENTRIES].frame;
       t in ow && ow[t] == Table(d, v / NENTRIES) && IsTable(ps[t]) && Present(ps[t].es[v % NENTRIES]) && ps[t].es[v % NENTRIES].frame == f
  }

  /** A frame that nobody refers to changes hands or contents. */
  lemma LooseKeeps(ps: Pages, ow: Owners, f: nat, p: Page, o: Owner)
    requires Sound(ps, ow) && f in ow && Loose(ow[f]) && Loose(o) && (o == Free ==> p.Run?)
    ensures Sound(ps[f := p], ow[f := o])
  {
    forall g | g in ow
      ensures FrameOk(ps[f := p], ow[f := o], g)
    {
      assert FrameOk(ps, ow, g);
    }
  }

  lemma LooseFinds(ps: Pages, ow: Owners, f: nat, p: Page, d: nat, v: nat)
    requires Sound(ps, ow) && f in ow && Loose(ow[f]) && d in ow && ow[d] == Dir
    ensures Find(ps[f := p], d, v) == Find(ps, d, v) && TableOf(ps[f := p], d, v) == TableOf(ps, d, v)
  {
    assert FrameOk(ps, ow, d);
  }

  /** The table that a directory has for a page. */
  lemma TableIs(ps: Pages, ow: Owners, d: nat, v: nat)
    requires Sound(ps, ow) && d in ow && ow[d] == Dir && v < ALLPAGES
    ensures IsTable(ps[d]) && v / NENTRIES < NENTRIES
    ensures var t := TableOf(ps, d, v);
            if Present(ps[d].es[v / NENTRIES]) then t in ow && ow[t] == Table(d, v / NENTRIES) && IsTable(ps[t])
            else t == 0 && Find(ps, d, v) == Nothing
  {
    assert FrameOk(ps, ow, d);
    var x := v / NENTRIES;
    assert PdeOk(ow, d, x, ps[d].es[x]);
    if Present(ps[d].es[x]) {
      assert FrameOk(ps, ow, ps[d].es[x].frame);
    }
  }

  // ----- changing entries

  function SetEntry(p: Page, x: nat, e: Entry): Page
    requires IsTable(p) && x < NENTRIES
  {
    Entries(p.es[x := e])
  }

  /** Frame `f` becomes the empty page table for slot `x` of directory `d`. */
  function AddTable(ps: Pages, d: nat, x: nat, f: nat): Pages
    requires d in ps && IsTable(ps[d]) && x < NENTRIES
  {
    ps[f := EmptyTable()][d := SetEntry(ps[d], x, Entry(f, {PTE_P, PTE_W, PTE_U}))]
  }

  lemma AddTableKeeps(ps: Pages, ow: Owners, d: nat, x: nat, f: nat)
    requires Sound(ps, ow) && d in ow && ow[d] == Dir && x < NENTRIES && f in ow && ow[f] == Held
    requires IsTable(ps[d]) && !Present(ps[d].es[x])
    ensures Sound(AddTable(ps, d, x, f), ow[f := Table(d, x)])
  {
    var ps', ow' := AddTable(ps, d, x, f), ow[f := Table(d, x)];
    forall g | g in ow
      ensures FrameOk(ps', ow', g)
    {
      assert FrameOk(ps, ow, g);
      if g == d {
        forall z | 0 <= z < NENTRIES
          ensures PdeOk(ow', d, z, ps'[d].es[z])
        {
          assert PdeOk(ow, d, z, ps[d].es[z]);
        }
      }
    }
  }

  lemma AddTableFinds(ps: Pages, ow: Owners, d: nat, x: nat, f: nat, d2: nat, v: nat)
    requires Sound(ps, ow) && d in ow && ow[d] == Dir && x < NENTRIES && f in ow && ow[f] == Held
    requires IsTable(ps[d]) && !Present(ps[d].es[x]) && d2 in ow && ow[d2] == Dir
    ensures Find(AddTable(ps, d, x, f), d2, v) == Find(ps, d2, v)
  {
    assert FrameOk(ps, ow, d2);
    if v < ALLPAGES {
      assert PdeOk(ow, d2, v / NENTRIES, ps[d2].es[v / NENTRIES]);
    }
  }

  /** Entry `v % NENTRIES` of table `t` becomes `e`. */
  function PutEntry(ps: Pages, t: nat, v: nat, e: Entry): Pages
    requires t in ps && IsTable(ps[t])
  {
    ps[t := SetEntry(ps[t], v % NENTRIES, e)]
  }

  /** `t` is the page table of `d` for page `v`. */
  ghost predicate HasTable(ps: Pages, ow: Owners, d: nat, v: nat, t: nat) {
    && v < ALLPAGES && t in ps && t in ow && ow[t] == Table(d, v / NENTRIES) && IsTable(ps[t])
    && d in ps && d in ow && ow[d] == Dir && IsTable(ps[d]) && ps[d].es[v / NENTRIES].frame == t && Present(ps[d].es[v / NENTRIES])
  }

  /** Tables other than `t` refer to frames other than those of `t`. */
  lemma PutOther(ps: Pages, ow: Owners, ow': Owners, d: nat, v: nat, t: nat, e: Entry, f: nat, g: nat)
    requires Sound(ps, ow) && HasTable(ps, ow, d, v, t) && f in ow && f in ow' && ow' == ow[f := ow'[f]]
    requires g in ow && g != t && g != f && ow[g] != Dir
    requires f == 0 || Loose(ow[f]) || ow[f] == User(d, v)
    requires ow[g].User? ==> !(ow[g].dir == d && ow[g].vpn == v)
    ensures FrameOk(PutEntry(ps, t, v, e), ow', g)
  {
    assert FrameOk(ps, ow, g);
  }

  lemma PageParts(v: nat)
    ensures v / NENTRIES * NENTRIES + v % NENTRIES == v
  {}

  /** Frame `f`, in the caller's hands, is mapped at user page `v`. */
  lemma MapUserKeeps(ps: Pages, ow: Owners, d: nat, v: nat, t: nat, f: nat, e: Entry)
    requires Sound(ps, ow) && HasTable(ps, ow, d, v, t) && v < USERPAGES && !Present(ps[t].es[v % NENTRIES])
    requires f in ow && ow[f] == Held && ps[f].Data? && e.frame == f && Present(e)
    ensures Sound(PutEntry(ps, t, v, e), ow[f := User(d, v)])
  {
    var ps', ow' := PutEntry(ps, t, v, e), ow[f := User(d, v)];
    var x := v / NENTRIES;
    PageParts(v);
    assert FrameOk(ps, ow, t);
    forall g | g in ow
      ensures FrameOk(ps', ow', g)
    {
      assert FrameOk(ps, ow, g);
      if g == t {
        forall y | 0 <= y < NENTRIES
          ensures PteOk(ow', d, x * NENTRIES + y, ps'[t].es[y])
        {
          assert PteOk(ow, d, x * NENTRIES + y, ps[t].es[y]);
        }
      } else if g != f && ow[g] != Dir {
        PutOther(ps, ow, ow', d, v, t, e, f, g);
      }
    }
  }

  lemma MapKernelKeeps(ps: Pages, ow: Owners, d: nat, v: nat, t: nat, e: Entry)
    requires Sound(ps, ow) && HasTable(ps, ow, d, v, t) && USERPAGES <= v
    ensures Sound(PutEntry(ps, t, v, e), ow)
  {
    var ps' := PutEntry(ps, t, v, e);
    assert v / NENTRIES * NENTRIES >= USERPAGES by { PageParts(v); }
    forall g | g in ow
      ensures FrameOk(ps', ow, g)
    {
      assert FrameOk(ps, ow, g);
    }
  }

  /** The frame mapped at user page `v` is taken out of the page table. */
  lemma UnmapUserKeeps(ps: Pages, ow: Owners, d: nat, v: nat, t: nat)
    requires Sound(ps, ow) && HasTable(ps, ow, d, v, t) && v < USERPAGES && Present(ps[t].es[v % NENTRIES])
    ensures var f := ps[t].es[v % NENTRIES].frame;
            f in ow && ow[f] == User(d, v) && ps[f].Data? && Sound(PutEntry(ps, t, v, NoEntry()), ow[f := Held])
  {
    var x, f := v / NENTRIES, ps[t].es[v % NENTRIES].frame;
    PageParts(v);
    assert FrameOk(ps, ow, t);
    assert PteOk(ow, d, x * NENTRIES + v % NENTRIES, ps[t].es[v % NENTRIES]);
    assert FrameOk(ps, ow, f);
    var ps', ow' := PutEntry(ps, t, v, NoEntry()), ow[f := Held];
    forall g | g in ow
      ensures FrameOk(ps', ow', g)
    {
      assert FrameOk(ps, ow, g);
      if g == t {
        forall y | 0 <= y < NENTRIES
          ensures PteOk(ow', d, x * NENTRIES + y, ps'[t].es[y])
        {
          assert PteOk(ow, d, x * NENTRIES + y, ps[t].es[y]);
        }
      } else if g != f && ow[g] != Dir {
        PutOther(ps, ow, ow', d, v, t, NoEntry(), f, g);
      }
    }
  }

  lemma PutFinds(ps: Pages, ow: Owners, d: nat, v: nat, t: nat, e: Entry, d2: nat, v2: nat)
    requires Sound(ps, ow) && HasTable(ps, ow, d, v, t) && d2 in ow && ow[d2] == Dir
    ensures Find(PutEntry(ps, t, v, e), d2, v2) ==
            if d2 == d && v2 == v then (if Present(e) then Mapped(e) else Nothing) else Find(ps, d2, v2)
  {
    assert FrameOk(ps, ow, d2);
    PageParts(v);
    PageParts(v2);
    if v2 < ALLPAGES {
      assert PdeOk(ow, d2, v2 / NENTRIES, ps[d2].es[v2 / NENTRIES]);
    }
  }

  // ----- giving up a whole directory

  /** Frame `f` is directory `d` or one of its tables. */
  predicate TableOfDir(ow: Owners, d: nat, f: nat)
    requires f in ow
  {
    f == d || (ow[f].Table? && ow[f].dir == d)
  }

  ghost function Disowned(ow: Owners, d: nat): Owners {
    map f | f in ow :: if TableOfDir(ow, d, f) then Held else ow[f]
  }

  lemma DisownKeeps(ps: Pages, ow: Owners, d: nat)
    requires Sound(ps, ow) && d in ow && ow[d] == Dir && forall v :: 0 <= v < USERPAGES ==> Find(ps, d, v) == Nothing
    ensures Sound(ps, Disowned(ow, d))
  {
    var ow' := Disowned(ow, d);
    forall g | g in ow
      ensures FrameOk(ps, ow', g)
    {
      DisownFrame(ps, ow, d, g);
    }
  }

  lemma DisownFrame(ps: Pages, ow: Owners, d: nat, g: nat)
    requires Sound(ps, ow) && d in ow && ow[d] == Dir && g in ow && forall v :: 0 <= v < USERPAGES ==> Find(ps, d, v) == Nothing
    ensures Disowned(ow, d).Keys == ow.Keys && FrameOk(ps, Disowned(ow, d), g)
  {
    var ow' := Disowned(ow, d);
    assert FrameOk(ps, ow, g);
    match ow[g]
    case Free =>
    case Held =>
    case Dir =>
      if g != d {
        forall x | 0 <= x < NENTRIES
          ensures PdeOk(ow', g, x, ps[g].es[x])
        {
          assert PdeOk(ow, g, x, ps[g].es[x]);
        }
      }
    case Table(d2, x) =>
      if d2 != d && x * NENTRIES < USERPAGES {
        forall y | 0 <= y < NENTRIES
          ensures PteOk(ow', d2, x * NENTRIES + y, ps[g].es[y])
        {
          assert PteOk(ow, d2, x * NENTRIES + y, ps[g].es[y]);
        }
      }
    case User(d2, v) =>
      assert Find(ps, d, v) == Nothing;
  }
}
