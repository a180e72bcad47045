/** Directories and link counts as values: what every create, link and unlink keeps. */
module Dirs {

  const DIRSIZ: nat := 14

  /** What of a name a directory entry keeps, and `namecmp` compares. */
  function Key(name: string): string {
    if |name| <= DIRSIZ then name else name[..DIRSIZ]
  }

  datatype Kind = NoInode | Directory | Plain | Device

  /** An entry with inode number 0 is unused. */
  datatype Dirent = Dirent(inum: nat, name: string)

  datatype Node = Node(kind: Kind, nlink: nat, entries: seq<Dirent>)

  type Inodes = map<nat, Node>

  predicate LiveDir(t: Inodes, d: nat) {
    d in t && t[d].kind == Directory && t[d].nlink > 0
  }

  /** Entry `s` of the live directory `d`, which is not its ".", names `i`. */
  predicate Names(t: Inodes, d: nat, s: nat, i: nat) {
    LiveDir(t, d) && s < |t[d].entries| && t[d].entries[s].inum == i && t[d].entries[s].name != "."
  }

  ghost function Refs(t: Inodes, i: nat): set<(nat, nat)> {
    set d, s | d in t && 0 <= s < |t[d].entries| && Names(t, d, s, i) :: (d, s)
  }

  ghost predicate Sound(t: Inodes, root: nat) {
    0 !in t && LiveDir(t, root) && forall i {:trigger NodeOk(t, root, i)} :: i in t ==> NodeOk(t, root, i)
  }

  /** The link count is the number of entries that name the inode. */
  ghost predicate NodeOk(t: Inodes, root: nat, i: nat)
    requires i in t
  {
    && t[i].nlink == |Refs(t, i)|
    && (if t[i].kind == Directory then DirOk(t, root, i) else t[i].entries == [])
    && (t[i].kind == NoInode ==> t[i].nlink == 0)
  }

  ghost predicate DirOk(t: Inodes, root: nat, d: nat)
    requires d in t
  {
    var es := t[d].entries;
    && |es| >= 2 && es[0] == Dirent(d, ".") && es[1].name == ".." && es[1].inum != 0 && es[1].inum in t
    && Unique(es)
    && (forall s :: 2 <= s < |es| && es[s].inum != 0 ==> EntryOk(t, root, d, s))
    && (t[d].nlink == 0 ==> Empty(es))
    && (t[d].nlink > 0 ==> LiveDir(t, es[1].inum) && HasParent(t, root, d))
  }

  /** No two entries have the same name. */
  ghost predicate Unique(es: seq<Dirent>) {
    forall s, u :: 0 <= s < u < |es| && es[s].inum != 0 && es[u].inum != 0 ==> es[s].name != es[u].name
  }

  /** Nothing but "." and "..". */
  predicate Empty(es: seq<Dirent>) {
    forall s :: 2 <= s < |es| ==> es[s].inum == 0
  }

  /** An entry names an inode in use; a directory is named by one entry of its parent. */
  ghost predicate EntryOk(t: Inodes, root: nat, d: nat, s: nat)
    requires d in t && s < |t[d].entries|
  {
    var es := t[d].entries;
    var i := es[s].inum;
    && i in t && t[i].kind != NoInode && i != root
    && (t[i].kind == Directory ==>
          && t[i].nlink > 0 && |t[i].entries| >= 2 && t[i].entries[1].inum == d
          && forall u :: 2 <= u < |es| && es[u].inum == i ==> u == s)
  }

  ghost predicate HasParent(t: Inodes, root: nat, d: nat)
    requires d in t && |t[d].entries| >= 2
  {
    var p := t[d].entries[1].inum;
    if d == root then p == root else exists s :: 2 <= s && Names(t, p, s, d)
  }

  // ----- the entry that a name has, or will have

  /** The first entry from `s` on with this name; |es| if there is none. */
  function SlotOf(es: seq<Dirent>, name: string, s: nat): (r: nat)
    requires s <= |es|
    ensures s <= r <= |es| && (r < |es| ==> es[r].inum != 0 && es[r].name == name)
    ensures forall u :: s <= u < r ==> es[u].inum == 0 || es[u].name != name
    decreases |es| - s
  {
    if s == |es| || (es[s].inum != 0 && es[s].name == name) then s else SlotOf(es, name, s + 1)
  }

  /** The first unused entry from `s` on; |es| if there is none. */
  function FreeSlot(es: seq<Dirent>, s: nat): (r: nat)
    requires s <= |es|
    ensures s <= r <= |es| && (r < |es| ==> es[r].inum == 0)
    ensures forall u :: s <= u < r ==> es[u].inum != 0
    decreases |es| - s
  {
    if s == |es| || es[s].inum == 0 then s else FreeSlot(es, s + 1)
  }

  function PutEntry(es: seq<Dirent>, s: nat, e: Dirent): (r: seq<Dirent>)
    requires s <= |es|
    ensures |r| == (if s < |es| then |es| else |es| + 1) && r[s] == e
    ensures forall u :: 0 <= u < |es| && u != s ==> r[u] == es[u]
  {
    if s < |es| then es[s := e] else es + [e]
  }

  function WithEntry(t: Inodes, d: nat, s: nat, e: Dirent): Inodes
    requires d in t && s <= |t[d].entries|
  {
    t[d := t[d].(entries := PutEntry(t[d].entries, s, e))]
  }

  /** What `dirlookup` finds under a name, 0 if nothing. */
  function Find(es: seq<Dirent>, name: string): nat {
    var s := SlotOf(es, name, 0);
    if s < |es| then es[s].inum else 0
  }

  /** With unique names, an entry is found under its name. */
  lemma FindIs(es: seq<Dirent>, s: nat)
    requires s < |es| && es[s].inum != 0 && Unique(es)
    ensures Find(es, es[s].name) == es[s].inum
  {}

  lemma FindNone(es: seq<Dirent>, name: string)
    requires forall s :: 0 <= s < |es| && es[s].inum != 0 ==> es[s].name != name
    ensures Find(es, name) == 0
  {}

  /** A new entry is found under its name and no other name is affected. */
  lemma FindPut(es: seq<Dirent>, s: nat, e: Dirent, name: string)
    requires s <= |es| && (s < |es| ==> es[s].inum == 0) && e.inum != 0 && SlotOf(es, e.name, 0) == |es| && Unique(es)
    ensures Find(PutEntry(es, s, e), name) == if name == e.name then e.inum else Find(es, name)
  {
    var es' := PutEntry(es, s, e);
    assert Unique(es');
    SameFind(es, es', name, s, e);
  }

  lemma SameFind(es: seq<Dirent>, es': seq<Dirent>, name: string, s: nat, e: Dirent)
    requires s <= |es| && (s < |es| ==> es[s].inum == 0) && e.inum != 0 && es' == PutEntry(es, s, e) && Unique(es') && Unique(es)
    ensures Find(es', name) == if name == e.name then e.inum else Find(es, name)
  {
    var u := SlotOf(es, name, 0);
    if name == e.name {
      FindIs(es', s);
    } else if u < |es| {
      assert es'[u] == es[u];
      FindIs(es', u);
    } else {
      FindNone(es', name);
    }
  }

  /** A cleared entry's name is gone and no other name is affected. */
  lemma FindClear(es: seq<Dirent>, s: nat, name: string)
    requires s < |es| && es[s].inum != 0 && Unique(es)
    ensures Find(PutEntry(es, s, Dirent(0, "")), name) == if name == es[s].name then 0 else Find(es, name)
  {
    var es' := PutEntry(es, s, Dirent(0, ""));
    var u := SlotOf(es, name, 0);
    assert Unique(es');
    if name == es[s].name {
      FindNone(es', name);
    } else if u < |es| {
      assert es'[u] == es[u];
      FindIs(es', u);
    } else {
      FindNone(es', name);
    }
  }

  // ----- how changes move the counts

  /** An unused place of a live directory gets an entry. */
  lemma RefsAdded(t: Inodes, d: nat, s: nat, e: Dirent, i: nat)
    requires LiveDir(t, d) && s <= |t[d].entries| && (s < |t[d].entries| ==> t[d].entries[s].inum == 0) && e.inum != 0 && e.name != "." && i != 0
    ensures Refs(WithEntry(t, d, s, e), i) == Refs(t, i) + (if i == e.inum then {(d, s)} else {})
    ensures (d, s) !in Refs(t, i)
  {
    var t' := WithEntry(t, d, s, e);
    forall c: nat, u: nat
      ensures (c, u) in Refs(t', i) <==> (c, u) in Refs(t, i) || (i == e.inum && c == d && u == s)
    {
      assert (c, u) in Refs(t', i) <==> Names(t', c, u, i);
      assert (c, u) in Refs(t, i) <==> Names(t, c, u, i);
    }
  }

  /** An entry is cleared. */
  lemma RefsRemoved(t: Inodes, d: nat, s: nat, i: nat)
    requires LiveDir(t, d) && s < |t[d].entries| && t[d].entries[s].name != "." && i != 0
    ensures Refs(WithEntry(t, d, s, Dirent(0, "")), i) == Refs(t, i) - {(d, s)}
    ensures (d, s) in Refs(t, i) <==> t[d].entries[s].inum == i
  {
    var t' := WithEntry(t, d, s, Dirent(0, ""));
    forall c: nat, u: nat
      ensures (c, u) in Refs(t', i) <==> (c, u) in Refs(t, i) && !(c == d && u == s)
    {
      assert (c, u) in Refs(t', i) <==> Names(t', c, u, i);
      assert (c, u) in Refs(t, i) <==> Names(t, c, u, i);
    }
  }

  /** A change of link counts that leaves the live directories alone. */
  lemma RefsSame(t: Inodes, t': Inodes, i: nat)
    requires t'.Keys == t.Keys && forall d :: d in t ==> (LiveDir(t', d) <==> LiveDir(t, d)) && (LiveDir(t, d) ==> t'[d].entries == t[d].entries)
    ensures Refs(t', i) == Refs(t, i)
  {
    forall c: nat, u: nat
      ensures (c, u) in Refs(t', i) <==> (c, u) in Refs(t, i)
    {
      assert (c, u) in Refs(t', i) <==> Names(t', c, u, i);
      assert (c, u) in Refs(t, i) <==> Names(t, c, u, i);
    }
  }

  /** A directory with nothing in it dies: only its ".." counted. */
  lemma RefsDied(t: Inodes, t': Inodes, x: nat, i: nat)
    requires LiveDir(t, x) && !LiveDir(t', x) && t'.Keys == t.Keys && i != 0
    requires forall d :: d in t && d != x ==> (LiveDir(t', d) <==> LiveDir(t, d)) && (LiveDir(t, d) ==> t'[d].entries == t[d].entries)
    requires |t[x].entries| >= 2 && t[x].entries[0].name == "." && t[x].entries[1].name == ".." && Empty(t[x].entries)
    ensures Refs(t', i) == Refs(t, i) - {(x, 1)}
    ensures (x, 1) in Refs(t, i) <==> t[x].entries[1].inum == i
  {
    forall c: nat, u: nat
      ensures (c, u) in Refs(t', i) <==> (c, u) in Refs(t, i) && !(c == x && u == 1)
    {
      assert (c, u) in Refs(t', i) <==> Names(t', c, u, i);
      assert (c, u) in Refs(t, i) <==> Names(t, c, u, i);
    }
  }

  // ----- what a directory depends on

  /** To those who name it, inode `i` is as before. */
  ghost predicate SameTo(t: Inodes, t': Inodes, i: nat) {
    && i in t && i in t' && t'[i].kind == t[i].kind
    && (t[i].kind == Directory ==> t[i].nlink > 0 && t'[i].nlink > 0 && |t'[i].entries| >= 2 && |t[i].entries| >= 2 && t'[i].entries[1] == t[i].entries[1])
  }

  lemma DirFrame(t: Inodes, t': Inodes, root: nat, d: nat)
    requires d in t && DirOk(t, root, d) && d in t' && t'[d].entries == t[d].entries && (t'[d].nlink > 0 <==> t[d].nlink > 0) && t.Keys <= t'.Keys
    requires forall s :: 2 <= s < |t[d].entries| && t[d].entries[s].inum != 0 ==> SameTo(t, t', t[d].entries[s].inum)
    requires t[d].nlink > 0 ==> LiveDir(t', t[d].entries[1].inum) && HasParent(t', root, d)
    ensures DirOk(t', root, d)
  {
    forall s | 2 <= s < |t[d].entries| && t[d].entries[s].inum != 0
      ensures EntryOk(t', root, d, s)
    {
      assert EntryOk(t, root, d, s) && SameTo(t, t', t[d].entries[s].inum);
    }
  }

  /** The parent of `d` still names it. */
  lemma ParentStays(t: Inodes, t': Inodes, root: nat, d: nat)
    requires d in t && d in t' && |t[d].entries| >= 2 && |t'[d].entries| >= 2 && t'[d].entries[1] == t[d].entries[1] && HasParent(t, root, d)
    requires forall p, s :: Names(t, p, s, d) ==> Names(t', p, s, d)
    ensures HasParent(t', root, d)
  {}

  // ----- an entry for a file

  /** File `i`, new or not, is of kind `k` and has one more link. */
  function Bumped(t: Inodes, i: nat, k: Kind): Inodes
    requires i in t
  {
    t[i := Node(k, t[i].nlink + 1, [])]
  }

  /** A file may be linked as `k`: it is new, or not a directory and of this kind. */
  predicate MayBump(t: Inodes, i: nat, k: Kind) {
    i in t && t[i].kind != Directory && k != Directory && k != NoInode && (t[i].kind == NoInode || k == t[i].kind)
  }

  /** Slot `s` of directory `d` is where a new name goes. */
  ghost predicate NewSlot(t: Inodes, d: nat, s: nat, name: string) {
    && LiveDir(t, d) && 2 <= s <= |t[d].entries| && (s < |t[d].entries| ==> t[d].entries[s].inum == 0)
    && (forall u :: 0 <= u < |t[d].entries| && t[d].entries[u].inum != 0 ==> t[d].entries[u].name != name)
  }

  lemma NewSlotIs(t: Inodes, root: nat, d: nat, name: string)
    requires LiveDir(t, d) && SlotOf(t[d].entries, name, 0) == |t[d].entries| && DirOk(t, root, d) && d != 0
    ensures NewSlot(t, d, FreeSlot(t[d].entries, 0), name) && name != "." && name != ".."
  {}

  lemma SoundAt(t: Inodes, root: nat, i: nat)
    requires i in t && Sound(t, root)
    ensures i != 0 && t[i].nlink == |Refs(t, i)| && (if t[i].kind == Directory then DirOk(t, root, i) else t[i].entries == [])
    ensures t[i].kind == NoInode ==> t[i].nlink == 0
  {
    assert NodeOk(t, root, i);
  }

  lemma RefsBumped(t: Inodes, i: nat, k: Kind, d: nat, s: nat, name: string, j: nat)
    requires MayBump(t, i, k) && NewSlot(t, d, s, name) && name != "." && i != d && i != 0 && j != 0 && t[i].entries == []
    ensures d in Bumped(t, i, k) && s <= |Bumped(t, i, k)[d].entries|
    ensures |Refs(WithEntry(Bumped(t, i, k), d, s, Dirent(i, name)), j)| == |Refs(t, j)| + if j == i then 1 else 0
  {
    var t1 := Bumped(t, i, k);
    RefsSame(t, t1, j);
    RefsAdded(t1, d, s, Dirent(i, name), j);
  }

  lemma BumpedDir(t: Inodes, root: nat, i: nat, k: Kind, d: nat, s: nat, name: string, j: nat)
    requires MayBump(t, i, k) && NewSlot(t, d, s, name) && name != "." && i != d && i != 0 && i != root && d != 0
    requires j in t && t[j].kind == Directory && j != 0 && DirOk(t, root, j)
    ensures d in Bumped(t, i, k) && s <= |Bumped(t, i, k)[d].entries|
    ensures DirOk(WithEntry(Bumped(t, i, k), d, s, Dirent(i, name)), root, j)
  {
    var e := Dirent(i, name);
    var t' := WithEntry(Bumped(t, i, k), d, s, e);
    forall p, u | Names(t, p, u, j)
      ensures Names(t', p, u, j)
    {
    }
    if t[j].nlink > 0 {
      ParentStays(t, t', root, j);
    }
    forall u | 2 <= u < |t[j].entries| && t[j].entries[u].inum != 0
      ensures SameTo(t, t', t[j].entries[u].inum)
    {
      assert EntryOk(t, root, j, u);
    }
    if j != d {
      DirFrame(t, t', root, j);
    } else {
      BumpedHere(t, t', root, i, d, s, name);
    }
  }

  /** The directory that got the entry. */
  lemma BumpedHere(t: Inodes, t': Inodes, root: nat, i: nat, d: nat, s: nat, name: string)
    requires NewSlot(t, d, s, name) && name != "." && i != 0 && i != root && DirOk(t, root, d)
    requires d in t' && t'[d] == t[d].(entries := PutEntry(t[d].entries, s, Dirent(i, name)))
    requires i in t' && t'[i].kind != NoInode && t'[i].kind != Directory
    requires forall u :: 2 <= u < |t[d].entries| && t[d].entries[u].inum != 0 ==> SameTo(t, t', t[d].entries[u].inum)
    requires LiveDir(t', t[d].entries[1].inum) && HasParent(t', root, d)
    ensures DirOk(t', root, d)
  {
    var es, es' := t[d].entries, t'[d].entries;
    forall u | 2 <= u < |es'| && es'[u].inum != 0
      ensures EntryOk(t', root, d, u)
    {
      if u != s {
        assert EntryOk(t, root, d, u) && SameTo(t, t', es[u].inum);
      }
    }
  }

  lemma NewEntryKeeps(t: Inodes, root: nat, i: nat, k: Kind, d: nat, s: nat, name: string)
    requires MayBump(t, i, k) && NewSlot(t, d, s, name) && name != "." && i != d && i != root && Sound(t, root)
    ensures d in Bumped(t, i, k) && s <= |Bumped(t, i, k)[d].entries|
    ensures Sound(WithEntry(Bumped(t, i, k), d, s, Dirent(i, name)), root)
  {
    hide Refs, DirOk;
    var t' := WithEntry(Bumped(t, i, k), d, s, Dirent(i, name));
    SoundAt(t, root, i);
    SoundAt(t, root, d);
    forall j | j in t'
      ensures NodeOk(t', root, j)
    {
      SoundAt(t, root, j);
      RefsBumped(t, i, k, d, s, name, j);
      if t[j].kind == Directory {
        BumpedDir(t, root, i, k, d, s, name, j);
      }
    }
  }

  // ----- an entry for a new directory

  /** The new directory `i` in `d`, with "." and "..", before `d` has an entry for it. */
  function BornIn(t: Inodes, d: nat, i: nat): Inodes
    requires d in t
  {
    t[i := Node(Directory, 1, [Dirent(i, "."), Dirent(d, "..")])][d := t[d].(nlink := t[d].nlink + 1)]
  }

  lemma RefsBornIn(t: Inodes, d: nat, i: nat, j: nat)
    requires LiveDir(t, d) && i in t && t[i].kind == NoInode && t[i].entries == [] && d != 0 && i != 0 && j != 0
    ensures Refs(BornIn(t, d, i), j) == Refs(t, j) + (if j == d then {(i, 1)} else {}) && (i, 1) !in Refs(t, j)
  {
    var t1 := BornIn(t, d, i);
    forall c: nat, u: nat
      ensures (c, u) in Refs(t1, j) <==> (c, u) in Refs(t, j) || (j == d && c == i && u == 1)
    {
      assert (c, u) in Refs(t1, j) <==> Names(t1, c, u, j);
      assert (c, u) in Refs(t, j) <==> Names(t, c, u, j);
    }
  }

  lemma RefsBorn(t: Inodes, d: nat, i: nat, s: nat, name: string, j: nat)
    requires NewSlot(t, d, s, name) && name != "." && i in t && t[i].kind == NoInode && t[i].entries == [] && d != 0 && i != 0 && j != 0
    ensures i != d && s <= |BornIn(t, d, i)[d].entries|
    ensures |Refs(WithEntry(BornIn(t, d, i), d, s, Dirent(i, name)), j)| == |Refs(t, j)| + if j == i || j == d then 1 else 0
  {
    hide Refs;
    RefsBornIn(t, d, i, j);
    RefsAdded(BornIn(t, d, i), d, s, Dirent(i, name), j);
  }

  lemma BornDir(t: Inodes, root: nat, d: nat, i: nat, s: nat, name: string, j: nat)
    requires NewSlot(t, d, s, name) && name != "." && i in t && t[i].kind == NoInode && i != 0 && i != root && d != 0
    requires j in t && t[j].kind == Directory && j != 0 && DirOk(t, root, j)
    ensures i != d && s <= |BornIn(t, d, i)[d].entries|
    ensures DirOk(WithEntry(BornIn(t, d, i), d, s, Dirent(i, name)), root, j)
  {
    var t' := WithEntry(BornIn(t, d, i), d, s, Dirent(i, name));
    forall p, u | Names(t, p, u, j)
      ensures Names(t', p, u, j)
    {
    }
    if t[j].nlink > 0 {
      ParentStays(t, t', root, j);
    }
    forall u | 2 <= u < |t[j].entries| && t[j].entries[u].inum != 0
      ensures SameTo(t, t', t[j].entries[u].inum) && t[j].entries[u].inum != i
    {
      assert EntryOk(t, root, j, u);
    }
    if j != d {
      DirFrame(t, t', root, j);
    } else {
      BornHere(t, t', root, i, d, s, name);
    }
  }

  lemma BornHere(t: Inodes, t': Inodes, root: nat, i: nat, d: nat, s: nat, name: string)
    requires NewSlot(t, d, s, name) && name != "." && i != 0 && i != root && i != d && DirOk(t, root, d)
    requires d in t' && t'[d] == t[d].(nlink := t[d].nlink + 1, entries := PutEntry(t[d].entries, s, Dirent(i, name)))
    requires i in t' && t'[i] == Node(Directory, 1, [Dirent(i, "."), Dirent(d, "..")])
    requires forall u :: 2 <= u < |t[d].entries| && t[d].entries[u].inum != 0 ==> SameTo(t, t', t[d].entries[u].inum) && t[d].entries[u].inum != i
    requires LiveDir(t', t[d].entries[1].inum) && HasParent(t', root, d)
    ensures DirOk(t', root, d)
  {
    var es, es' := t[d].entries, t'[d].entries;
    forall u | 2 <= u < |es'| && es'[u].inum != 0
      ensures EntryOk(t', root, d, u)
    {
      if u != s {
        assert EntryOk(t, root, d, u) && SameTo(t, t', es[u].inum);
      }
    }
  }

  lemma NewDirKeeps(t: Inodes, root: nat, d: nat, i: nat, s: nat, name: string)
    requires NewSlot(t, d, s, name) && name != "." && i in t && t[i].kind == NoInode && Sound(t, root)
    ensures i != d && s <= |BornIn(t, d, i)[d].entries|
    ensures Sound(WithEntry(BornIn(t, d, i), d, s, Dirent(i, name)), root)
  {
    hide Refs, DirOk;
    SoundAt(t, root, i);
    SoundAt(t, root, d);
    var t' := WithEntry(BornIn(t, d, i), d, s, Dirent(i, name));
    forall j | j in t'
      ensures NodeOk(t', root, j)
    {
      SoundAt(t, root, j);
      RefsBorn(t, d, i, s, name, j);
      if t[j].kind == Directory {
        BornDir(t, root, d, i, s, name, j);
      } else if j == i {
        NewbornOk(t', root, d, i, s);
      }
    }
  }

  lemma NewbornOk(t: Inodes, root: nat, d: nat, i: nat, s: nat)
    requires LiveDir(t, d) && i in t && t[i] == Node(Directory, 1, [Dirent(i, "."), Dirent(d, "..")]) && i != root && d != 0
    requires 2 <= s && Names(t, d, s, i)
    ensures DirOk(t, root, i)
  {}

  // ----- clearing an entry

  /** Entry `s` of `d` is cleared and the inode it named has one link less. */
  function Dropped(t: Inodes, d: nat, s: nat, i: nat): Inodes
    requires d in t && s <= |t[d].entries| && i in t && t[i].nlink > 0 && i != d
  {
    var t1 := WithEntry(t, d, s, Dirent(0, ""));
    t1[i := t1[i].(nlink := t1[i].nlink - 1)]
  }

  /** Entry `s` of `d` is a name for `i`. */
  ghost predicate IsNamed(t: Inodes, root: nat, d: nat, s: nat, i: nat) {
    && LiveDir(t, d) && 2 <= s < |t[d].entries| && t[d].entries[s].inum == i && i != 0 && DirOk(t, root, d) && d != 0
  }

  lemma NamedOk(t: Inodes, root: nat, d: nat, s: nat, i: nat)
    requires IsNamed(t, root, d, s, i)
    ensures EntryOk(t, root, d, s) && i in t && i != root && Names(t, d, s, i) && (d, s) in Refs(t, i)
  {
    assert EntryOk(t, root, d, s);
    assert t[d].entries[0].name == ".";
  }

  lemma RefsDropped(t: Inodes, root: nat, d: nat, s: nat, i: nat, j: nat)
    requires IsNamed(t, root, d, s, i) && i in t && t[i].kind != Directory && t[i].nlink > 0 && j != 0 && i != d
    ensures |Refs(Dropped(t, d, s, i), j)| == |Refs(t, j)| - if j == i then 1 else 0
  {
    NamedOk(t, root, d, s, i);
    var t1 := WithEntry(t, d, s, Dirent(0, ""));
    RefsRemoved(t, d, s, j);
    RefsSame(t1, Dropped(t, d, s, i), j);
  }

  lemma DroppedDir(t: Inodes, root: nat, d: nat, s: nat, i: nat, j: nat)
    requires IsNamed(t, root, d, s, i) && i in t && t[i].kind != Directory && t[i].nlink > 0 && i != d
    requires j in t && t[j].kind == Directory && j != 0 && DirOk(t, root, j)
    ensures DirOk(Dropped(t, d, s, i), root, j)
  {
    var t' := Dropped(t, d, s, i);
    forall p, u | Names(t, p, u, j)
      ensures Names(t', p, u, j)
    {
    }
    if t[j].nlink > 0 {
      ParentStays(t, t', root, j);
    }
    forall u | 2 <= u < |t[j].entries| && t[j].entries[u].inum != 0
      ensures SameTo(t, t', t[j].entries[u].inum)
    {
      assert EntryOk(t, root, j, u);
    }
    if j != d {
      DirFrame(t, t', root, j);
    } else {
      ClearedHere(t, t', root, d, s);
    }
  }

  /** The directory that lost an entry. */
  lemma ClearedHere(t: Inodes, t': Inodes, root: nat, d: nat, s: nat)
    requires d in t && DirOk(t, root, d) && 2 <= s < |t[d].entries|
    requires d in t' && t'[d].entries == t[d].entries[s := Dirent(0, "")] && t[d].nlink > 0 && t'[d].nlink > 0
    requires forall u :: 2 <= u < |t[d].entries| && u != s && t[d].entries[u].inum != 0 ==> SameTo(t, t', t[d].entries[u].inum)
    requires LiveDir(t', t[d].entries[1].inum) && HasParent(t', root, d)
    ensures DirOk(t', root, d)
  {
    var es, es' := t[d].entries, t'[d].entries;
    forall u | 2 <= u < |es'| && es'[u].inum != 0
      ensures EntryOk(t', root, d, u)
    {
      assert EntryOk(t, root, d, u) && SameTo(t, t', es[u].inum);
    }
  }

  lemma UnlinkFileKeeps(t: Inodes, root: nat, d: nat, s: nat, i: nat)
    requires IsNamed(t, root, d, s, i) && i in t && t[i].kind != Directory && Sound(t, root)
    ensures i != d && t[i].nlink > 0 && Sound(Dropped(t, d, s, i), root)
  {
    hide Refs, DirOk, IsNamed;
    SoundAt(t, root, i);
    assert i != d && LiveDir(t, d) && (d, s) in Refs(t, i) by { NamedOk(t, root, d, s, i); NamedLive(t, root, d, s, i); }
    assert t[i].nlink > 0;
    NamedLive(t, root, d, s, i);
    var t' := Dropped(t, d, s, i);
    forall j | j in t'
      ensures NodeOk(t', root, j)
    {
      SoundAt(t, root, j);
      RefsDropped(t, root, d, s, i, j);
      if t[j].kind == Directory {
        DroppedDir(t, root, d, s, i, j);
      }
    }
  }

  lemma NamedLive(t: Inodes, root: nat, d: nat, s: nat, i: nat)
    requires IsNamed(t, root, d, s, i)
    ensures LiveDir(t, d) && 2 <= s < |t[d].entries| && t[d].entries[s].inum == i && i != 0 && d != 0
  {}

  // ----- removing a directory

  /** The empty directory `i` is named by entry `s` of `d` and by nothing else, and `d`
      has another name besides its "..". */
  lemma OnlyName(t: Inodes, root: nat, d: nat, s: nat, i: nat)
    requires IsNamed(t, root, d, s, i) && i in t && t[i].kind == Directory && Empty(t[i].entries)
    requires 0 !in t && forall j :: j in t && t[j].kind == Directory ==> DirOk(t, root, j)
    ensures i != d && Refs(t, i) == {(d, s)} && t[i].nlink > 0 && t[i].entries[1].inum == d
  {
    NamedOk(t, root, d, s, i);
    forall c: nat, u: nat | (c, u) in Refs(t, i)
      ensures c == d && u == s
    {
      assert Names(t, c, u, i) && DirOk(t, root, c);
      assert u == 1 ==> HasParent(t, root, c);
      assert u >= 2 ==> EntryOk(t, root, c, u);
    }
  }

  lemma ParentHasMore(t: Inodes, root: nat, d: nat, i: nat)
    requires LiveDir(t, d) && DirOk(t, root, d) && LiveDir(t, i) && DirOk(t, root, i) && i != root && t[i].entries[1].inum == d && Empty(t[i].entries)
    requires d != 0 && i != d
    ensures |Refs(t, d)| >= 2
  {
    assert Names(t, i, 1, d) by { assert t[i].entries[1].name == ".."; }
    assert (i, 1) in Refs(t, d);
    if d == root {
      assert Names(t, root, 1, root);
      assert {(i, 1), (root, 1)} <= Refs(t, d);
      TwoIn(Refs(t, d), (i, 1), (root, 1));
    } else {
      var p := t[d].entries[1].inum;
      var w :| 2 <= w && Names(t, p, w, d);
      assert (p, w) in Refs(t, d);
      TwoIn(Refs(t, d), (i, 1), (p, w));
    }
  }

  lemma TwoIn(a: set<(nat, nat)>, x: (nat, nat), y: (nat, nat))
    requires x in a && y in a && x != y
    ensures |a| >= 2
  {
    var b := a - {x};
    assert y in b && |b| == |a| - 1;
    assert |b - {y}| == |b| - 1;
  }

  /** Directory `i` is taken out of `d`: its entry cleared and both counts lowered. */
  function Removed(t: Inodes, d: nat, s: nat, i: nat): Inodes
    requires d in t && s < |t[d].entries| && i in t && i != d && t[i].nlink > 0 && t[d].nlink > 0
  {
    t[d := t[d].(nlink := t[d].nlink - 1, entries := PutEntry(t[d].entries, s, Dirent(0, "")))][i := t[i].(nlink := t[i].nlink - 1)]
  }

  lemma RefsRemovedDir(t: Inodes, root: nat, d: nat, s: nat, i: nat, j: nat)
    requires IsNamed(t, root, d, s, i) && i in t && t[i].kind == Directory && i != d && t[i].nlink == 1 && t[d].nlink >= 2 && j != 0
    requires |t[i].entries| >= 2 && t[i].entries[0].name == "." && t[i].entries[1] == Dirent(d, "..") && Empty(t[i].entries)
    ensures |Refs(Removed(t, d, s, i), j)| == |Refs(t, j)| - if j == i || j == d then 1 else 0
  {
    NamedOk(t, root, d, s, i);
    var t1 := WithEntry(t, d, s, Dirent(0, ""));
    RefsRemoved(t, d, s, j);
    RefsDied(t1, Removed(t, d, s, i), i, j);
  }

  lemma RemovedDir(t: Inodes, root: nat, d: nat, s: nat, i: nat, j: nat)
    requires IsNamed(t, root, d, s, i) && i in t && t[i].kind == Directory && i != d && t[i].nlink == 1 && t[d].nlink >= 2
    requires Refs(t, i) == {(d, s)} && Empty(t[i].entries)
    requires j in t && t[j].kind == Directory && j != 0 && DirOk(t, root, j)
    ensures DirOk(Removed(t, d, s, i), root, j)
  {
    var t' := Removed(t, d, s, i);
    forall p: nat, u: nat | Names(t, p, u, i)
      ensures p == d && u == s
    {
      assert (p, u) in Refs(t, i);
    }
    if j == i {
      assert t'[i].entries == t[i].entries;
    } else {
      RemovedOther(t, t', root, d, s, i, j);
    }
  }

  lemma RemovedOther(t: Inodes, t': Inodes, root: nat, d: nat, s: nat, i: nat, j: nat)
    requires IsNamed(t, root, d, s, i) && i in t && t[i].kind == Directory && i != d && t[i].nlink == 1 && t[d].nlink >= 2
    requires forall p: nat, u: nat | Names(t, p, u, i) :: p == d && u == s
    requires Empty(t[i].entries) && t' == Removed(t, d, s, i) && j in t && t[j].kind == Directory && j != 0 && j != i && DirOk(t, root, j)
    ensures DirOk(t', root, j)
  {
    var es := t[j].entries;
    assert t[j].nlink > 0 ==> es[1].inum != i by {
      if t[j].nlink > 0 && es[1].inum == i {
        assert Names(t, j, 1, i);
      }
    }
    forall u | 2 <= u < |es| && es[u].inum != 0 && !(j == d && u == s)
      ensures SameTo(t, t', es[u].inum)
    {
      assert EntryOk(t, root, j, u) && t[j].nlink > 0;
      assert Names(t, j, u, es[u].inum);
    }
    forall p, u | Names(t, p, u, j) && p != i
      ensures Names(t', p, u, j)
    {
    }
    if t[j].nlink > 0 && j != root {
      var p := es[1].inum;
      var w :| 2 <= w && Names(t, p, w, j);
      assert Names(t', p, w, j);
    }
    if j == d {
      ClearedHere(t, t', root, d, s);
    } else {
      DirFrame(t, t', root, j);
    }
  }

  lemma UnlinkDirKeeps(t: Inodes, root: nat, d: nat, s: nat, i: nat)
    requires IsNamed(t, root, d, s, i) && i in t && t[i].kind == Directory && Empty(t[i].entries) && Sound(t, root)
    ensures i != d && t[i].nlink == 1 && t[d].nlink >= 2 && Sound(Removed(t, d, s, i), root)
  {
    hide Refs, DirOk, IsNamed, Empty;
    AllDirsOk(t, root);
    NamedLive(t, root, d, s, i);
    OnlyName(t, root, d, s, i);
    SoundAt(t, root, i);
    SoundAt(t, root, d);
    assert i != root by { NamedOk(t, root, d, s, i); }
    ParentHasMore(t, root, d, i);
    assert |t[i].entries| >= 2 && t[i].entries[0].name == "." && t[i].entries[1] == Dirent(d, "..") by { DotsOf(t, root, i); }
    var t' := Removed(t, d, s, i);
    forall j | j in t'
      ensures NodeOk(t', root, j)
    {
      SoundAt(t, root, j);
      RefsRemovedDir(t, root, d, s, i, j);
      if t[j].kind == Directory {
        RemovedDir(t, root, d, s, i, j);
      }
    }
  }

  lemma DotsOf(t: Inodes, root: nat, i: nat)
    requires i in t && DirOk(t, root, i)
    ensures |t[i].entries| >= 2 && t[i].entries[0] == Dirent(i, ".") && t[i].entries[1].name == ".."
  {}

  lemma AllDirsOk(t: Inodes, root: nat)
    requires Sound(t, root)
    ensures forall j :: j in t && t[j].kind == Directory ==> DirOk(t, root, j)
  {
    hide DirOk, Refs;
    forall j | j in t && t[j].kind == Directory
      ensures DirOk(t, root, j)
    {
      SoundAt(t, root, j);
    }
  }

  // ----- the last reference goes

  function Freed(t: Inodes, i: nat): Inodes {
    t[i := Node(NoInode, 0, [])]
  }

  lemma FreedDir(t: Inodes, root: nat, i: nat, j: nat)
    requires i in t && t[i].nlink == 0 && i != root && i != 0 && Refs(t, i) == {} && j in t && j != i && j != 0 && t[j].kind == Directory && DirOk(t, root, j)
    ensures DirOk(Freed(t, i), root, j)
  {
    var t', es := Freed(t, i), t[j].entries;
    forall p: nat, u: nat
      ensures !Names(t, p, u, i)
    {
      assert Names(t, p, u, i) ==> (p, u) in Refs(t, i);
    }
    forall u | 2 <= u < |es| && es[u].inum != 0
      ensures SameTo(t, t', es[u].inum)
    {
      assert EntryOk(t, root, j, u) && t[j].nlink > 0;
      assert Names(t, j, u, es[u].inum);
    }
    if t[j].nlink > 0 && j != root {
      var w :| 2 <= w && Names(t, es[1].inum, w, j);
      assert Names(t', es[1].inum, w, j);
    }
    DirFrame(t, t', root, j);
  }

  lemma FreeKeeps(t: Inodes, root: nat, i: nat)
    requires i in t && t[i].nlink == 0 && Sound(t, root)
    ensures Sound(Freed(t, i), root)
  {
    hide Refs, DirOk;
    SoundAt(t, root, i);
    var t' := Freed(t, i);
    forall j | j in t'
      ensures NodeOk(t', root, j)
    {
      SoundAt(t, root, j);
      RefsSame(t, t', j);
      if j != i && t[j].kind == Directory {
        FreedDir(t, root, i, j);
      }
    }
  }

  // ----- directories that are no longer linked

  /** Directory `d` has been removed but is still open. */
  predicate DeadDir(t: Inodes, d: nat) {
    d in t && t[d].kind == Directory && t[d].nlink == 0
  }

  /** An entry in such a directory is counted by nothing. */
  lemma DeadParent(t: Inodes, root: nat, i: nat, k: Kind, d: nat, s: nat, name: string)
    requires MayBump(t, i, k) && DeadDir(t, d) && s <= |t[d].entries| && Sound(t, root)
    ensures i != d && s <= |Bumped(t, i, k)[d].entries| && !Sound(WithEntry(Bumped(t, i, k), d, s, Dirent(i, name)), root)
  {
    hide DirOk, Refs, Sound;
    SoundAt(t, root, i);
    var t' := WithEntry(Bumped(t, i, k), d, s, Dirent(i, name));
    RefsSame(t, t', i);
    if Sound(t', root) {
      SoundAt(t', root, i);
    }
  }

  /** A new directory in it gives it a link again, but no name: it is a live directory
      without a parent. */
  lemma DeadGrandparent(t: Inodes, root: nat, d: nat, i: nat, s: nat, name: string)
    requires DeadDir(t, d) && i in t && t[i].kind == NoInode && 2 <= s <= |t[d].entries| && Sound(t, root)
    ensures i != d && s <= |BornIn(t, d, i)[d].entries| && LiveDir(WithEntry(BornIn(t, d, i), d, s, Dirent(i, name)), d)
    ensures !Sound(WithEntry(BornIn(t, d, i), d, s, Dirent(i, name)), root)
  {
    hide Sound;
    SoundAt(t, root, d);
    RootIsDir(t, root);
    var t' := WithEntry(BornIn(t, d, i), d, s, Dirent(i, name));
    forall p: nat, u: nat | Names(t', p, u, d)
      ensures u < 2
    {
      assert Names(t, p, u, d) ==> (p, u) in Refs(t, d);
    }
    if Sound(t', root) {
      SoundAt(t', root, d);
    }
  }

  /** A file, new or not, gets a new name: the counts stay right just when the directory
      is still linked itself. */
  lemma EntryKeepsIff(t: Inodes, root: nat, i: nat, k: Kind, d: nat, name: string)
    requires MayBump(t, i, k) && d in t && t[d].kind == Directory
    requires SlotOf(t[d].entries, name, 0) == |t[d].entries| && Sound(t, root)
    ensures i != d && FreeSlot(t[d].entries, 0) <= |Bumped(t, i, k)[d].entries|
    ensures Sound(WithEntry(Bumped(t, i, k), d, FreeSlot(t[d].entries, 0), Dirent(i, name)), root) <==> t[d].nlink > 0
  {
    hide DirOk, Sound, Refs, SlotOf;
    SoundAt(t, root, d);
    SoundAt(t, root, i);
    if t[d].nlink == 0 {
      DeadParent(t, root, i, k, d, FreeSlot(t[d].entries, 0), name);
    } else {
      NewSlotIs(t, root, d, name);
      assert i != root by { RootIsDir(t, root); }
      NewEntryKeeps(t, root, i, k, d, FreeSlot(t[d].entries, 0), name);
    }
  }

  /** The same for a new directory. */
  lemma MkdirKeepsIff(t: Inodes, root: nat, i: nat, d: nat, name: string)
    requires i in t && t[i].kind == NoInode && d in t && t[d].kind == Directory
    requires SlotOf(t[d].entries, name, 0) == |t[d].entries| && Sound(t, root)
    ensures i != d && FreeSlot(t[d].entries, 0) <= |BornIn(t, d, i)[d].entries|
    ensures Sound(WithEntry(BornIn(t, d, i), d, FreeSlot(t[d].entries, 0), Dirent(i, name)), root) <==> t[d].nlink > 0
  {
    hide DirOk, Sound, Refs, SlotOf;
    SoundAt(t, root, d);
    if t[d].nlink == 0 {
      DotsFirst(t, root, d);
      DeadGrandparent(t, root, d, i, FreeSlot(t[d].entries, 0), name);
    } else {
      NewSlotIs(t, root, d, name);
      NewDirKeeps(t, root, d, i, FreeSlot(t[d].entries, 0), name);
    }
  }

  /** The first two places of a directory are taken. */
  lemma DotsFirst(t: Inodes, root: nat, d: nat)
    requires d in t && DirOk(t, root, d) && d != 0
    ensures 2 <= FreeSlot(t[d].entries, 0) <= |t[d].entries|
  {}

  /** Such directories come about: make one, remove it, and create in it. */
  lemma RemovedThenUsed(t: Inodes, root: nat, d: nat, i: nat, j: nat, name: string, file: string)
    requires LiveDir(t, d) && i in t && j in t && i != j && t[i].kind == NoInode && t[j].kind == NoInode
    requires SlotOf(t[d].entries, name, 0) == |t[d].entries| && file != "." && file != ".." && Sound(t, root)
    ensures var s := FreeSlot(t[d].entries, 0);
            && i != d && s <= |BornIn(t, d, i)[d].entries|
            && var made := WithEntry(BornIn(t, d, i), d, s, Dirent(i, name));
            && Sound(made, root)
            && var gone := Removed(made, d, s, i);
            && Sound(gone, root) && DeadDir(gone, i)
            && !Sound(WithEntry(Bumped(gone, j, Plain), i, 2, Dirent(j, file)), root)
  {
    hide DirOk, Sound, Refs, SlotOf, IsNamed;
    SoundAt(t, root, d);
    NewSlotIs(t, root, d, name);
    var s := FreeSlot(t[d].entries, 0);
    NewDirKeeps(t, root, d, i, s, name);
    var made := WithEntry(BornIn(t, d, i), d, s, Dirent(i, name));
    SoundAt(made, root, d);
    assert IsNamed(made, root, d, s, i) by { SoundAt(t, root, i); IsNamedHere(made, root, d, s, i); }
    UnlinkDirKeeps(made, root, d, s, i);
    DeadParent(Removed(made, d, s, i), root, j, Plain, i, 2, file);
  }

  lemma IsNamedHere(t: Inodes, root: nat, d: nat, s: nat, i: nat)
    requires LiveDir(t, d) && 2 <= s < |t[d].entries| && t[d].entries[s].inum == i && i != 0 && DirOk(t, root, d) && d != 0
    ensures IsNamed(t, root, d, s, i)
  {}

  lemma RootIsDir(t: Inodes, root: nat)
    requires Sound(t, root)
    ensures LiveDir(t, root) && 0 !in t
  {}
}
