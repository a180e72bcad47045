/** Directory entries as the bytes of a directory's file: sixteen each, two for the inode
    number and fourteen for the name, padded with zeros. */
module Dirents {
  import opened Blocks
  import opened Dirs
  import FsLayout

  const DIRENT: nat := 16

  /** The entry fits its record: a short, and a name without zero bytes. */
  predicate Storable(e: Dirent) {
    e.inum < 0x1_0000 && |e.name| <= DIRSIZ && forall i :: 0 <= i < |e.name| ==> e.name[i] != '\0' && (e.name[i] as int) < 256
  }

  function Encode(e: Dirent): (b: seq<Byte>)
    requires Storable(e)
    ensures |b| == DIRENT
  {
    [e.inum % 256, e.inum / 256] + seq(DIRSIZ, i requires 0 <= i < DIRSIZ => if i < |e.name| then e.name[i] as int else 0)
  }

  /** The characters from `i` on, up to a zero byte or the end of the field. */
  function NameFrom(b: seq<Byte>, i: nat): string
    requires |b| == DIRENT && i <= DIRSIZ
    decreases DIRSIZ - i
  {
    if i == DIRSIZ || b[2 + i] == 0 then "" else [b[2 + i] as char] + NameFrom(b, i + 1)
  }

  function Decode(b: seq<Byte>): Dirent
    requires |b| == DIRENT
  {
    Dirent(b[0] as int + 256 * (b[1] as int), NameFrom(b, 0))
  }

  lemma {:induction false} NameBack(e: Dirent, i: nat)
    requires Storable(e) && i <= |e.name|
    ensures NameFrom(Encode(e), i) == e.name[i..]
    decreases |e.name| - i
  {
    if i < |e.name| {
      NameBack(e, i + 1);
      assert (Encode(e)[2 + i] as char) == e.name[i];
      assert [e.name[i]] + e.name[i + 1..] == e.name[i..];
    }
  }

  /** What `dirlink` writes is what `dirlookup` reads. */
  lemma DecodeEncode(e: Dirent)
    requires Storable(e)
    ensures Decode(Encode(e)) == e
  {
    hide Encode, NameFrom;
    NameBack(e, 0);
    assert e.name[0..] == e.name;
    assert Encode(e)[0] == e.inum % 256 && Encode(e)[1] == e.inum / 256 by { FirstBytes(e); }
  }

  lemma FirstBytes(e: Dirent)
    requires Storable(e)
    ensures Encode(e)[0] == e.inum % 256 && Encode(e)[1] == e.inum / 256
  {}

  // ----- whole directories

  predicate AllStorable(es: seq<Dirent>) {
    forall s :: 0 <= s < |es| ==> Storable(es[s])
  }

  /** The contents of a directory's file. */
  function EncodeAll(es: seq<Dirent>): (b: seq<Byte>)
    requires AllStorable(es)
    ensures |b| == DIRENT * |es|
  {
    if es == [] then [] else EncodeAll(es[..|es| - 1]) + Encode(es[|es| - 1])
  }

  /** The record at offset 16 * `s`, as `readi` gives it. */
  lemma {:induction false} RecordAt(es: seq<Dirent>, s: nat)
    requires AllStorable(es) && s < |es|
    ensures EncodeAll(es)[DIRENT * s..DIRENT * s + DIRENT] == Encode(es[s])
  {
    hide Encode;
    var front := es[..|es| - 1];
    if s < |es| - 1 {
      RecordAt(front, s);
      assert EncodeAll(es)[DIRENT * s..DIRENT * s + DIRENT] == EncodeAll(front)[DIRENT * s..DIRENT * s + DIRENT];
    }
  }

  lemma {:induction false} EncodeBoth(a: seq<Dirent>, b: seq<Dirent>)
    requires AllStorable(a) && AllStorable(b)
    ensures AllStorable(a + b) && EncodeAll(a + b) == EncodeAll(a) + EncodeAll(b)
  {
    hide Encode;
    if b == [] {
      assert a + b == a;
    } else {
      var front := b[..|b| - 1];
      EncodeBoth(a, front);
      assert (a + b)[..|a + b| - 1] == a + front;
    }
  }

  lemma EncodeOne(e: Dirent)
    requires Storable(e)
    ensures EncodeAll([e]) == Encode(e)
  {
    hide Encode;
    assert [e][..0] == [];
  }

  /** A directory around one of its entries. */
  lemma EncodeAround(a: seq<Dirent>, e: Dirent, c: seq<Dirent>)
    requires AllStorable(a) && Storable(e) && AllStorable(c)
    ensures AllStorable(a + ([e] + c)) && EncodeAll(a + ([e] + c)) == EncodeAll(a) + (Encode(e) + EncodeAll(c))
  {
    hide Encode, EncodeAll;
    EncodeOne(e);
    EncodeBoth([e], c);
    EncodeBoth(a, [e] + c);
  }

  lemma RecordReplaced(a: seq<Dirent>, e0: Dirent, c: seq<Dirent>, e: Dirent)
    requires AllStorable(a) && Storable(e0) && AllStorable(c) && Storable(e)
    ensures AllStorable(a + ([e0] + c)) && AllStorable(a + ([e] + c))
    ensures FsLayout.Splice(EncodeAll(a + ([e0] + c)), DIRENT * |a|, Encode(e)) == EncodeAll(a + ([e] + c))
  {
    hide Encode, EncodeAll, FsLayout.Splice, Storable;
    EncodeAround(a, e0, c);
    EncodeAround(a, e, c);
    Replaced(EncodeAll(a), Encode(e0), EncodeAll(c), Encode(e));
  }

  lemma RecordAppended(es: seq<Dirent>, e: Dirent)
    requires AllStorable(es) && Storable(e)
    ensures AllStorable(es + [e]) && FsLayout.Splice(EncodeAll(es), DIRENT * |es|, Encode(e)) == EncodeAll(es + [e])
  {
    hide Encode, EncodeAll, FsLayout.Splice, Storable;
    EncodeOne(e);
    EncodeBoth(es, [e]);
    Appended(EncodeAll(es), Encode(e));
  }

  /** Writing one record with `writei`, in place or at the end, is putting one entry. */
  lemma RecordWritten(es: seq<Dirent>, s: nat, e: Dirent)
    requires AllStorable(es) && Storable(e) && s <= |es|
    ensures AllStorable(PutEntry(es, s, e))
    ensures FsLayout.Splice(EncodeAll(es), DIRENT * s, Encode(e)) == EncodeAll(PutEntry(es, s, e))
  {
    hide Encode, EncodeAll, FsLayout.Splice, Storable, AllStorable, PutEntry;
    PutParts(es, s, e);
    if s < |es| {
      RecordReplaced(es[..s], es[s], es[s + 1..], e);
    } else {
      RecordAppended(es, e);
    }
  }

  lemma PutParts(es: seq<Dirent>, s: nat, e: Dirent)
    requires AllStorable(es) && s <= |es|
    ensures s < |es| ==>
              && AllStorable(es[..s]) && Storable(es[s]) && AllStorable(es[s + 1..])
              && es == es[..s] + ([es[s]] + es[s + 1..]) && PutEntry(es, s, e) == es[..s] + ([e] + es[s + 1..])
    ensures s == |es| ==> PutEntry(es, s, e) == es + [e]
  {
    hide Storable;
  }

  lemma Replaced(a: seq<Byte>, old1: seq<Byte>, c: seq<Byte>, new1: seq<Byte>)
    requires |new1| == |old1|
    ensures FsLayout.Splice(a + (old1 + c), |a|, new1) == a + (new1 + c)
  {}

  lemma Appended(a: seq<Byte>, b: seq<Byte>)
    ensures FsLayout.Splice(a, |a|, b) == a + b
  {}

  lemma ClearedRecord()
    ensures Storable(Dirent(0, "")) && Encode(Dirent(0, "")) == seq(DIRENT, _ => 0)
  {}

  /** Sixteen zeros over a record, as `sys_unlink` writes them, clear one entry of the
      directory and leave the others. */
  lemma RecordCleared(es: seq<Dirent>, s: nat)
    requires AllStorable(es) && s < |es|
    ensures AllStorable(PutEntry(es, s, Dirent(0, "")))
    ensures FsLayout.Splice(EncodeAll(es), DIRENT * s, seq(DIRENT, _ => 0)) == EncodeAll(PutEntry(es, s, Dirent(0, "")))
  {
    hide Encode, EncodeAll, FsLayout.Splice, PutEntry, AllStorable, Storable;
    ClearedRecord();
    RecordWritten(es, s, Dirent(0, ""));
  }
}
