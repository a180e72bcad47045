/** create, link and unlink of sysfile.c over the directories of fs.c. Paths are already
    resolved: an operation gets the parent directory and the last name. `room` is the
    number of free blocks on the disk. */
module FileTree {
  import opened Dirs
  import opened Blocks
  import opened FsLayout
  import FsFiles

  datatype CreateResult = Created | Existing(inum: nat) | Failed | Panics

  /** How `dirlink` and `sys_link` end. */
  datatype LinkResult = Linked | Refused | Panicked

  /** Entries in a directory of the largest file size. */
  const MAXENTRIES: nat := (12 + 128) * 512 / 16

  class Tree {
    const root: nat
    var nodes: Inodes

    ghost predicate Valid()
      reads this
    {
      Sound(nodes, root)
    }

    /** The image that mkfs starts from: a root directory that is its own parent. */
    constructor (root: nat, inodes: set<nat>)
      requires root in inodes && 0 !in inodes
      ensures Valid() && this.root == root && nodes.Keys == inodes
    {
      this.root := root;
      nodes := map i | i in inodes ::
        if i == root then Node(Directory, 1, [Dirent(root, "."), Dirent(root, "..")]) else Node(NoInode, 0, []);
      new;
      FirstTree(nodes, root);
    }

    /** `dirlookup`: the entry with this name; the number of entries if there is none. */
    method DirLookup(d: nat, name: string) returns (s: nat)
      requires d in nodes && nodes[d].kind == Directory
      ensures s == SlotOf(nodes[d].entries, Key(name), 0)
    {
      s := 0;
      while s < |nodes[d].entries|
        invariant s <= |nodes[d].entries| && SlotOf(nodes[d].entries, Key(name), 0) == SlotOf(nodes[d].entries, Key(name), s)
      {
        var de := nodes[d].entries[s];
        if de.inum != 0 && Key(name) == de.name {
          return;
        }
        s := s + 1;
      }
    }

    /** `dirlink`: a new entry in the first unused place, unless the name is there. */
    method DirLink(d: nat, name: string, i: nat, room: nat) returns (r: LinkResult)
      requires d in nodes && nodes[d].kind == Directory
      modifies this`nodes
      ensures r == Refused <==> Find(old(nodes)[d].entries, Key(name)) != 0
      ensures r == Linked <==>
                var es := old(nodes)[d].entries;
                var s := FreeSlot(es, 0);
                Find(es, Key(name)) == 0 && 16 * (s + 1) <= MAXFILE * BSIZE && Needed(es, s) <= room
      ensures nodes == if r == Linked then WithEntry(old(nodes), d, FreeSlot(old(nodes)[d].entries, 0), Dirent(i, Key(name))) else old(nodes)
    {
      var there := DirLookup(d, name);
      if there < |nodes[d].entries| {
        return Refused;
      }
      var s := 0;
      while s < |nodes[d].entries| && nodes[d].entries[s].inum != 0
        invariant s <= |nodes[d].entries| && FreeSlot(nodes[d].entries, 0) == FreeSlot(nodes[d].entries, s)
      {
        s := s + 1;
      }
      if s >= MAXENTRIES || Needed(nodes[d].entries, s) > room {
        return Panicked;
      }
      nodes := nodes[d := nodes[d].(entries := PutEntry(nodes[d].entries, s, Dirent(i, Key(name))))];
      return Linked;
    }

    method IsDirEmpty(d: nat) returns (e: bool)
      requires d in nodes
      ensures e == Empty(nodes[d].entries)
    {
      var s := 2;
      while s < |nodes[d].entries|
        invariant 2 <= s && forall u :: 2 <= u < s && u < |nodes[d].entries| ==> nodes[d].entries[u].inum == 0
      {
        if nodes[d].entries[s].inum != 0 {
          return false;
        }
        s := s + 1;
      }
      return true;
    }

    /** `sys_link`: a new name for file `i`; `parent` is -1 if the new path has none. The
        counts stay right exactly if the directory has not been removed. */
    method Link(i: nat, parent: int, name: string, room: nat) returns (r: LinkResult)
      requires i in nodes && nodes[i].kind != NoInode && Valid()
      requires parent == -1 || (parent >= 0 && parent in nodes && nodes[parent as nat].kind == Directory)
      modifies this`nodes
      ensures r == Refused <==> old(nodes)[i].kind == Directory || parent == -1 || Find(old(nodes)[parent].entries, Key(name)) != 0
      ensures r == Linked <==> r != Refused && RoomFor(old(nodes)[parent].entries, room)
      ensures r == Refused ==> nodes == old(nodes)
      ensures r == Linked ==> nodes.Keys == old(nodes).Keys && forall e :: e in nodes && e != i && e != parent ==> nodes[e] == old(nodes)[e]
      ensures r == Linked ==> nodes == WithEntry(Bumped(old(nodes), i, old(nodes)[i].kind), parent, FreeSlot(old(nodes)[parent].entries, 0), Dirent(i, Key(name)))
      ensures r == Linked ==> forall n :: Find(nodes[parent].entries, n) == if n == Key(name) then i else Find(old(nodes)[parent].entries, n)
      ensures r == Linked ==> (Valid() <==> LiveDir(old(nodes), parent))
      ensures r == Refused ==> Valid()
    {
      hide Sound, DirOk, SlotOf, FreeSlot, Find, Needed;
      SoundAt(nodes, root, i);
      if nodes[i].kind == Directory {
        return Refused;
      }
      nodes := nodes[i := nodes[i].(nlink := nodes[i].nlink + 1)];
      assert nodes == Bumped(old(nodes), i, old(nodes)[i].kind);
      r := Refused;
      if parent != -1 {
        r := DirLink(parent, name, i, room);
      }
      if r == Linked {
        SoundAt(old(nodes), root, parent);
        FindSlot(old(nodes)[parent].entries, Key(name));
        EntryKeepsIff(old(nodes), root, i, old(nodes)[i].kind, parent, Key(name));
        PutFinds(old(nodes), root, parent, Key(name), i);
      } else if r == Refused {
        nodes := nodes[i := nodes[i].(nlink := nodes[i].nlink - 1)];
        assert nodes == old(nodes);
      }
    }

    /** `sys_unlink` of a name in directory `d`, up to giving up the last references. */
    method Unlink(d: nat, name: string) returns (ok: bool)
      requires d in nodes && nodes[d].kind == Directory && Valid()
      modifies this`nodes
      ensures d in nodes && (ok ==> forall n :: Find(nodes[d].entries, n) == if n == Key(name) then 0 else Find(old(nodes)[d].entries, n))
      ensures var found := Find(old(nodes)[d].entries, Key(name));
              ok <==> && Key(name) != "." && Key(name) != ".." && found in old(nodes)
                      && (old(nodes)[found].kind == Directory ==> forall u :: 2 <= u < |old(nodes)[found].entries| ==> old(nodes)[found].entries[u].inum == 0)
      ensures ok <==> Unlinkable(old(nodes), d, name)
      ensures ok ==> nodes.Keys == old(nodes).Keys && forall e :: e in nodes && e != d && e != Named(old(nodes), d, name) ==> nodes[e] == old(nodes)[e]
      ensures Found(old(nodes), d, name) ==> old(nodes)[Named(old(nodes), d, name)].nlink >= 1 && LiveDir(old(nodes), d) && (ok ==> Named(old(nodes), d, name) != d)
      ensures nodes == if ok then Unlinked(old(nodes), d, name) else old(nodes)
      ensures Valid()
    {
      hide Sound, DirOk, SlotOf, IsNamed, Find;
      SoundAt(nodes, root, d);
      NoZero(nodes, root);
      FindSlot(nodes[d].entries, Key(name));
      if Key(name) == "." || Key(name) == ".." {
        return false;
      }
      var s := DirLookup(d, name);
      if s == |nodes[d].entries| {
        return false;
      }
      FoundIs(nodes, root, d, name);
      var i := nodes[d].entries[s].inum;
      NamedHere(nodes, root, d, s, i);
      SoundAt(nodes, root, i);
      assert nodes[i].nlink >= 1;
      ClearFinds(nodes, root, d, s, Key(name));
      if nodes[i].kind == Directory {
        var empty := IsDirEmpty(i);
        if !empty {
          return false;
        }
        UnlinkDirKeeps(nodes, root, d, s, i);
        nodes := nodes[d := nodes[d].(entries := PutEntry(nodes[d].entries, s, Dirent(0, "")))];
        nodes := nodes[d := nodes[d].(nlink := nodes[d].nlink - 1)];
        nodes := nodes[i := nodes[i].(nlink := nodes[i].nlink - 1)];
        assert nodes == Removed(old(nodes), d, s, i);
      } else {
        UnlinkFileKeeps(nodes, root, d, s, i);
        nodes := nodes[d := nodes[d].(entries := PutEntry(nodes[d].entries, s, Dirent(0, "")))];
        nodes := nodes[i := nodes[i].(nlink := nodes[i].nlink - 1)];
        assert nodes == Dropped(old(nodes), d, s, i);
      }
      return true;
    }

    /** `iput` by one of `refs` that have the inode open. */
    method Put(i: nat, refs: nat)
      requires i in nodes && 0 < refs && Valid()
      modifies this`nodes
      ensures nodes == if refs == 1 && old(nodes)[i].nlink == 0 then Freed(old(nodes), i) else old(nodes)
      ensures Valid()
    {
      if refs == 1 && nodes[i].nlink == 0 {
        FreeKeeps(nodes, root, i);
        nodes := nodes[i := Node(NoInode, 0, [])];
      }
    }

    /** The new inode of `create`, with "." and ".." if it is a directory; false is the
        panic for want of a block to put them in. */
    method Begin(d: nat, kind: Kind, ino: nat, room: nat) returns (ok: bool)
      requires d in nodes && ino in nodes && ino != d && ino != 0 && nodes[ino] == Node(NoInode, 0, []) && kind != NoInode
      modifies this`nodes
      ensures ok <==> room >= DotBlocks(kind)
      ensures ok ==> nodes == if kind == Directory then BornIn(old(nodes), d, ino) else Bumped(old(nodes), ino, kind)
    {
      hide SlotOf, FreeSlot, Needed;
      nodes := nodes[ino := Node(kind, 1, [])];
      if kind == Directory {
        nodes := nodes[d := nodes[d].(nlink := nodes[d].nlink + 1)];
        DotsFit(nodes, ino, d);
        var dot := DirLink(ino, ".", ino, room);
        if dot != Linked {
          return false;
        }
        var dots := DirLink(ino, "..", d, room - 1);
        assert dots == Linked;
      }
      return true;
    }

    /** `create` in directory `d`; `ino` is the inode that `ialloc` gives. The counts stay
        right exactly if the directory has not been removed. */
    method Create(d: nat, name: string, kind: Kind, ino: nat, room: nat) returns (r: CreateResult)
      requires d in nodes && nodes[d].kind == Directory && ino in nodes && nodes[ino].kind == NoInode && kind != NoInode && Valid()
      modifies this`nodes
      ensures var found := Find(old(nodes)[d].entries, Key(name));
              && (r.Existing? <==> found in old(nodes) && kind == Plain && old(nodes)[found].kind == Plain)
              && (r.Existing? ==> r.inum == found)
              && (r == Failed <==> found in old(nodes) && old(nodes)[found].kind != NoInode && !(kind == Plain && old(nodes)[found].kind == Plain))
              && (r == Created <==> found == 0 && room >= DotBlocks(kind) && RoomFor(old(nodes)[d].entries, room - DotBlocks(kind)))
      ensures r == Panics && LiveDir(old(nodes), d) ==> room < DotBlocks(kind) || !RoomFor(old(nodes)[d].entries, room - DotBlocks(kind))
      ensures r == Created ==> nodes.Keys == old(nodes).Keys && forall e :: e in nodes && e != d && e != ino ==> nodes[e] == old(nodes)[e]
      ensures r == Created ==> nodes == WithNew(old(nodes), d, name, kind, ino)
      ensures r.Existing? || r == Failed ==> nodes == old(nodes)
      ensures r == Created ==> forall n :: Find(nodes[d].entries, n) == if n == Key(name) then ino else Find(old(nodes)[d].entries, n)
      ensures r == Created ==> (Valid() <==> LiveDir(old(nodes), d))
      ensures r.Existing? || r == Failed ==> Valid()
    {
      hide Sound, DirOk, SlotOf, FreeSlot, IsNamed, Find, Needed;
      SoundAt(nodes, root, d);
      SoundAt(nodes, root, ino);
      FindSlot(nodes[d].entries, Key(name));
      var s := DirLookup(d, name);
      if s < |nodes[d].entries| {
        var i := nodes[d].entries[s].inum;
        FoundInode(nodes, root, d, s);
        if nodes[i].kind == NoInode {
          return Panics;
        }
        return if kind == Plain && nodes[i].kind == Plain then Existing(i) else Failed;
      }
      PutFinds(nodes, root, d, Key(name), ino);
      RootIsDir(nodes, root);
      if kind == Directory {
        MkdirKeepsIff(nodes, root, ino, d, Key(name));
      } else {
        EntryKeepsIff(nodes, root, ino, kind, d, Key(name));
      }
      var begun := Begin(d, kind, ino, room);
      if !begun {
        return Panics;
      }
      var done := DirLink(d, name, ino, room - DotBlocks(kind));
      return if done == Linked then Created else Panics;
    }
  }

  /** The disk blocks that writing entry `s` takes: none below the size of the directory's
      file; past it perhaps a block, and once the indirect block. */
  function Needed(es: seq<Dirent>, s: nat): nat {
    FsFiles.Grown(16 * |es|, 16 * (s + 1))
  }

  /** The blocks for "." and "..". */
  function DotBlocks(kind: Kind): nat {
    if kind == Directory then 1 else 0
  }

  lemma NoZero(t: Inodes, root: nat)
    requires Sound(t, root)
    ensures 0 !in t
  {}

  lemma FindSlot(es: seq<Dirent>, name: string)
    ensures var s := SlotOf(es, name, 0); if s < |es| then Find(es, name) == es[s].inum != 0 else Find(es, name) == 0
  {}

  /** A new entry fits the largest file, and its blocks the disk. */
  predicate RoomFor(es: seq<Dirent>, room: nat) {
    16 * (FreeSlot(es, 0) + 1) <= MAXFILE * BSIZE && Needed(es, FreeSlot(es, 0)) <= room
  }

  /** A place in use before takes nothing; a new one takes a block when the last one is
      full, and one more at the 385th entry. */
  lemma NeededIs(es: seq<Dirent>, s: nat)
    requires s <= |es|
    ensures Needed(es, s) == if s < |es| || |es| % 32 != 0 then 0 else if |es| == 384 then 2 else 1
  {}

  /** Directory `d` has this name for an inode other than itself and its parent. */
  predicate Found(t: Inodes, d: nat, name: string)
    requires d in t
  {
    var es := t[d].entries;
    var s := SlotOf(es, Key(name), 0);
    Key(name) != "." && Key(name) != ".." && s < |es| && es[s].inum in t
  }

  function Named(t: Inodes, d: nat, name: string): (i: nat)
    requires d in t && Found(t, d, name)
    ensures i in t
  {
    t[d].entries[SlotOf(t[d].entries, Key(name), 0)].inum
  }

  /** When a name can be removed. */
  predicate Unlinkable(t: Inodes, d: nat, name: string)
    requires d in t
  {
    Found(t, d, name) && (t[Named(t, d, name)].kind == Directory ==> Empty(t[Named(t, d, name)].entries))
  }

  /** The tree without the name. */
  ghost function Unlinked(t: Inodes, d: nat, name: string): Inodes
    requires d in t && Unlinkable(t, d, name)
  {
    var s := SlotOf(t[d].entries, Key(name), 0);
    var i := t[d].entries[s].inum;
    if i == d || t[i].nlink == 0 || t[d].nlink == 0 then t
    else if t[i].kind == Directory then Removed(t, d, s, i) else Dropped(t, d, s, i)
  }

  /** The tree with a new file or directory. */
  ghost function WithNew(t: Inodes, d: nat, name: string, kind: Kind, i: nat): Inodes
    requires d in t && i in t && i != d
  {
    WithEntry(if kind == Directory then BornIn(t, d, i) else Bumped(t, i, kind), d, FreeSlot(t[d].entries, 0), Dirent(i, Key(name)))
  }

  /** A name other than "." and ".." is found among the other entries, in a directory
      that is still linked. */
  lemma FoundIs(t: Inodes, root: nat, d: nat, name: string)
    requires d in t && t[d].kind == Directory && DirOk(t, root, d) && d != 0
    requires SlotOf(t[d].entries, Key(name), 0) < |t[d].entries| && Key(name) != "." && Key(name) != ".."
    ensures var s := SlotOf(t[d].entries, Key(name), 0); 2 <= s && IsNamed(t, root, d, s, t[d].entries[s].inum)
  {}

  lemma PutFinds(t: Inodes, root: nat, d: nat, name: string, i: nat)
    requires d in t && DirOk(t, root, d) && SlotOf(t[d].entries, name, 0) == |t[d].entries| && i != 0
    ensures forall n :: Find(PutEntry(t[d].entries, FreeSlot(t[d].entries, 0), Dirent(i, name)), n) == if n == name then i else Find(t[d].entries, n)
  {
    hide Find, SlotOf, PutEntry;
    var es := t[d].entries;
    forall n
      ensures Find(PutEntry(es, FreeSlot(es, 0), Dirent(i, name)), n) == if n == name then i else Find(es, n)
    {
      FindPut(es, FreeSlot(es, 0), Dirent(i, name), n);
    }
  }

  lemma ClearFinds(t: Inodes, root: nat, d: nat, s: nat, name: string)
    requires d in t && DirOk(t, root, d) && s < |t[d].entries| && t[d].entries[s].inum != 0 && t[d].entries[s].name == name
    ensures forall n :: Find(PutEntry(t[d].entries, s, Dirent(0, "")), n) == if n == name then 0 else Find(t[d].entries, n)
  {
    hide Find, SlotOf, PutEntry;
    var es := t[d].entries;
    forall n
      ensures Find(PutEntry(es, s, Dirent(0, "")), n) == if n == name then 0 else Find(es, n)
    {
      FindClear(es, s, n);
    }
  }

  lemma NamedHere(t: Inodes, root: nat, d: nat, s: nat, i: nat)
    requires IsNamed(t, root, d, s, i)
    ensures i in t && LiveDir(t, d) && 2 <= s < |t[d].entries| && i != 0 && (d, s) in Refs(t, i)
  {
    NamedOk(t, root, d, s, i);
  }

  lemma FoundInode(t: Inodes, root: nat, d: nat, s: nat)
    requires d in t && DirOk(t, root, d) && s < |t[d].entries| && t[d].entries[s].inum != 0
    ensures t[d].entries[s].inum in t && (LiveDir(t, d) ==> t[t[d].entries[s].inum].kind != NoInode)
  {
    if s >= 2 {
      assert EntryOk(t, root, d, s);
    }
  }

  /** A new directory takes "." and ".." as its first two entries. */
  lemma DotsFit(t: Inodes, i: nat, d: nat)
    requires i in t && t[i].entries == [] && i != 0
    ensures Key(".") == "." && Key("..") == ".." && SlotOf([], ".", 0) == 0 && FreeSlot([], 0) == 0 && PutEntry([], 0, Dirent(i, ".")) == [Dirent(i, ".")]
    ensures SlotOf([Dirent(i, ".")], "..", 0) == 1 && FreeSlot([Dirent(i, ".")], 0) == 1
    ensures PutEntry([Dirent(i, ".")], 1, Dirent(d, "..")) == [Dirent(i, "."), Dirent(d, "..")]
    ensures Needed([], 0) == 1 && Needed([Dirent(i, ".")], 1) == 0
  {}

  lemma FirstTree(t: Inodes, root: nat)
    requires root in t && 0 !in t && t[root] == Node(Directory, 1, [Dirent(root, "."), Dirent(root, "..")])
    requires forall i :: i in t && i != root ==> t[i] == Node(NoInode, 0, [])
    ensures Sound(t, root)
  {
    forall i | i in t
      ensures NodeOk(t, root, i)
    {
      forall d: nat, s: nat
        ensures (d, s) in Refs(t, i) <==> d == root && s == 1 && i == root
      {
        assert (d, s) in Refs(t, i) <==> Names(t, d, s, i);
      }
      assert Refs(t, i) == if i == root then {(root, 1)} else {};
    }
  }
}
