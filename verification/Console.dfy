/** The line editing of console.c: keys go into a ring, readers take finished lines out.
    Each method runs with cons.lock held, so interrupts and readers interleave as calls. */
module Console {
  import opened Ring

  const INPUT_BUF: nat := 128

  const NEWLINE: int := 10
  const RETURN: int := 13
  const DEL: int := 127
  const CTRL_D: int := 4
  const CTRL_H: int := 8
  const CTRL_P: int := 16
  const CTRL_U: int := 21

  // ----- a line editor without a ring

  datatype Editor = Editor(committed: seq<int>, pending: seq<int>)

  predicate EndsLine(c: int) {
    c == NEWLINE || c == CTRL_D
  }

  /** One key, when `unread` characters of what was committed have not been read. */
  function Press(ed: Editor, c: int, unread: nat): Editor {
    if c == CTRL_P then ed
    else if c == CTRL_U then ed.(pending := [])
    else if c == CTRL_H || c == DEL then (if ed.pending == [] then ed else ed.(pending := ed.pending[..|ed.pending| - 1]))
    else if c == 0 || unread + |ed.pending| >= INPUT_BUF then ed
    else
      var ch := if c == RETURN then NEWLINE else c;
      var line := ed.pending + [ch];
      if EndsLine(ch) || unread + |line| == INPUT_BUF then Editor(ed.committed + line, []) else ed.(pending := line)
  }

  function PressAll(ed: Editor, keys: seq<int>, read: nat): Editor
    decreases |keys|
  {
    if keys == [] then ed
    else
      var before := PressAll(ed, keys[..|keys| - 1], read);
      Press(before, keys[|keys| - 1], if read <= |before.committed| then |before.committed| - read else 0)
  }

  // ----- what the keys do, apart from the editor's own definition

  /** ^U after any keys leaves no pending line and what was committed as it was. */
  lemma KillsTheLine(ed: Editor, keys: seq<int>, read: nat)
    ensures PressAll(ed, keys + [CTRL_U], read).pending == []
    ensures PressAll(ed, keys + [CTRL_U], read).committed == PressAll(ed, keys, read).committed
  {
    assert (keys + [CTRL_U])[..|keys|] == keys;
  }

  /** A key that puts a character into the line and does not finish it. */
  predicate Types(ed: Editor, c: int, unread: nat) {
    && c != 0 && c != CTRL_P && c != CTRL_U && c != CTRL_H && c != DEL && c != RETURN && !EndsLine(c)
    && unread + |ed.pending| + 1 < INPUT_BUF
  }

  /** Such a character is at the end of the line, and a backspace, of either kind, takes
      it away again. */
  lemma TypeThenErase(ed: Editor, c: int, back: int, unread: nat)
    requires Types(ed, c, unread) && (back == CTRL_H || back == DEL)
    ensures Press(ed, c, unread) == Editor(ed.committed, ed.pending + [c])
    ensures Press(Press(ed, c, unread), back, unread) == ed
  {
    assert (ed.pending + [c])[..|ed.pending|] == ed.pending;
  }

  /** A line typed without editing keys and finished by return, newline or ^D is committed
      as typed; a return counts as a newline. */
  lemma {:induction false} TypedLine(ed: Editor, line: seq<int>, last: int, read: nat)
    requires read <= |ed.committed| && |ed.committed| - read + |ed.pending| + |line| + 1 <= INPUT_BUF
    requires last == RETURN || EndsLine(last)
    requires forall k :: 0 <= k < |line| ==> Types(Editor([], []), line[k], 0)
    ensures PressAll(ed, line, read) == Editor(ed.committed, ed.pending + line)
    ensures PressAll(ed, line + [last], read) ==
            Editor(ed.committed + ed.pending + line + [if last == RETURN then NEWLINE else last], [])
  {
    hide Press, PressAll;
    Typed(ed, line, read);
    PressNext(ed, line, last, read);
    var ch := if last == RETURN then NEWLINE else last;
    LastKey(Editor(ed.committed, ed.pending + line), last, |ed.committed| - read);
    assert ed.committed + (ed.pending + line + [ch]) == ed.committed + ed.pending + line + [ch];
  }

  lemma {:induction false} Typed(ed: Editor, line: seq<int>, read: nat)
    requires read <= |ed.committed| && |ed.committed| - read + |ed.pending| + |line| < INPUT_BUF
    requires forall k :: 0 <= k < |line| ==> Types(Editor([], []), line[k], 0)
    ensures PressAll(ed, line, read) == Editor(ed.committed, ed.pending + line)
  {
    hide Press;
    if line == [] {
      assert ed.pending + line == ed.pending;
    } else {
      var front, c := line[..|line| - 1], line[|line| - 1];
      Typed(ed, front, read);
      assert line == front + [c] && ed.pending + front + [c] == ed.pending + line;
      TypeThenErase(Editor(ed.committed, ed.pending + front), c, DEL, |ed.committed| - read);
    }
  }

  lemma PressNext(ed: Editor, keys: seq<int>, c: int, read: nat)
    ensures var before := PressAll(ed, keys, read);
            PressAll(ed, keys + [c], read) == Press(before, c, if read <= |before.committed| then |before.committed| - read else 0)
  {
    hide Press;
    var all := keys + [c];
    assert all[..|all| - 1] == keys && all[|all| - 1] == c;
  }

  lemma LastKey(ed: Editor, c: int, unread: nat)
    requires (c == RETURN || EndsLine(c)) && unread + |ed.pending| < INPUT_BUF
    ensures Press(ed, c, unread) == Editor(ed.committed + (ed.pending + [if c == RETURN then NEWLINE else c]), [])
  {}

  /** No key changes what was committed before, or makes the line and the unread text longer
      than the ring. */
  lemma CommittedStays(ed: Editor, c: int, unread: nat)
    requires unread + |ed.pending| <= INPUT_BUF
    ensures var ed' := Press(ed, c, unread);
            && ed.committed <= ed'.committed
            && unread + (|ed'.committed| - |ed.committed|) + |ed'.pending| <= INPUT_BUF
  {}

  /** What readers see of a text: all but the end-of-file marks. */
  function NoEof(s: seq<int>): seq<int> {
    if s == [] then [] else NoEof(s[..|s| - 1]) + if s[|s| - 1] == CTRL_D then [] else [s[|s| - 1]]
  }

  lemma NoEofNext(s: seq<int>, k: nat)
    requires k < |s|
    ensures NoEof(s[..k + 1]) == NoEof(s[..k]) + if s[k] == CTRL_D then [] else [s[k]]
  {
    assert s[..k + 1][..k] == s[..k];
  }

  // ----- the ring

  ghost predicate NoLineEnd(s: seq<int>) {
    forall k :: 0 <= k < |s| ==> !EndsLine(s[k])
  }

  datatype ReadState = Done | Sleeps | Fails

  class Console {
    const buf: array<int>
    var r: nat
    var w: nat
    var e: nat

    /** The text in the editor's hands, how much of it is committed, how much of that has
        been read, and what readers were given. */
    ghost var ed: Editor
    ghost var read: nat
    ghost var given: seq<int>

    ghost predicate Valid()
      reads this, buf
    {
      && buf.Length == INPUT_BUF && read <= |ed.committed| && |ed.committed| + |ed.pending| <= read + INPUT_BUF
      && r == Wrap(read) && w == Wrap(|ed.committed|) && e == Wrap(|ed.committed| + |ed.pending|)
      && InRing(buf[..], ed.committed + ed.pending, read, INPUT_BUF)
      && NoLineEnd(ed.pending)
      && given == NoEof(ed.committed[..read])
    }

    constructor ()
      ensures Valid() && fresh(buf) && ed == Editor([], []) && read == 0
    {
      buf := new int[INPUT_BUF];
      r, w, e := 0, 0, 0;
      ed, read, given := Editor([], []), 0, [];
    }

    /** The loop of `consoleintr` for one key. */
    method Key(c: int)
      requires Valid()
      modifies this`w, this`e, this`ed, buf
      ensures Valid() && ed == Press(old(ed), c, |old(ed).committed| - read)
      ensures c == CTRL_U ==> ed == Editor(old(ed).committed, [])
    {
      hide Wrap, Minus, Slot, InRing, NoEof;
      ghost var text := ed.committed + ed.pending;
      if c == CTRL_P {
      } else if c == CTRL_U {
        KillLine();
      } else if c == CTRL_H || c == DEL {
        Apart(|ed.committed|, |text|, INPUT_BUF);
        if e != w {
          Backspace();
        }
      } else {
        Apart(read, |text|, INPUT_BUF);
        if c != 0 && Minus(e, r) < INPUT_BUF {
          var ch := if c == RETURN then NEWLINE else c;
          Counts(|text|, INPUT_BUF);
          PutKeeps(buf[..], text, read, INPUT_BUF, ch);
          buf[Slot(e, INPUT_BUF)] := ch;
          e := Wrap(e + 1);
          assert text + [ch] == ed.committed + (ed.pending + [ch]);
          Apart(read, |text| + 1, INPUT_BUF);
          if ch == NEWLINE || ch == CTRL_D || e == Wrap(r + INPUT_BUF) {
            w := e;
            assert (ed.committed + (ed.pending + [ch])) + [] == text + [ch];
            assert (ed.committed + (ed.pending + [ch]))[..read] == ed.committed[..read];
            ed := Editor(ed.committed + (ed.pending + [ch]), []);
          } else {
            ed := ed.(pending := ed.pending + [ch]);
          }
        }
      }
    }

    /** One character of the pending line is taken back. */
    method Backspace()
      requires Valid() && ed.pending != []
      modifies this`e, this`ed
      ensures Valid() && ed == old(ed).(pending := old(ed).pending[..|old(ed).pending| - 1])
    {
      hide Wrap, Minus, Slot, InRing, NoEof;
      ghost var text := ed.committed + ed.pending;
      Counts(|text|, INPUT_BUF);
      DropKeeps(buf[..], text, read, INPUT_BUF);
      e := Minus(e, 1);
      assert text[..|text| - 1] == ed.committed + ed.pending[..|ed.pending| - 1];
      ed := ed.(pending := ed.pending[..|ed.pending| - 1]);
    }

    /** Kill the pending line: it has no newline in it, so all of it goes. */
    method KillLine()
      requires Valid()
      modifies this`e, this`ed
      ensures Valid() && ed == old(ed).(pending := [])
    {
      hide Wrap, Minus, Slot, InRing, NoEof;
      Apart(|ed.committed|, |ed.committed| + |ed.pending|, INPUT_BUF);
      while e != w && buf[Slot(Minus(e, 1), INPUT_BUF)] != NEWLINE
        invariant Valid() && ed == old(ed).(pending := ed.pending)
        invariant e != w <==> ed.pending != []
        decreases |ed.pending|
      {
        Backspace();
        Apart(|ed.committed|, |ed.committed| + |ed.pending|, INPUT_BUF);
      }
      if ed.pending != [] {
        LastIs(buf[..], ed.committed, ed.pending, read);
      }
    }

    /** `consoleintr` with the keys that are waiting. */
    method Intr(keys: seq<int>)
      requires Valid()
      modifies this`w, this`e, this`ed, buf
      ensures Valid() && ed == PressAll(old(ed), keys, read)
    {
      var i := 0;
      while i < |keys|
        invariant 0 <= i <= |keys| && Valid() && ed == PressAll(old(ed), keys[..i], read)
      {
        assert keys[..i + 1][..i] == keys[..i];
        Key(keys[i]);
        i := i + 1;
      }
      assert keys[..i] == keys;
    }

    /** `consoleread` with `left` of `target` characters still to come, until done, asleep
        or killed. */
    method Read(target: nat, left: nat, killed: bool) returns (out: seq<int>, n: nat, st: ReadState)
      requires Valid() && left <= target
      modifies this`r, this`read, this`given
      ensures Valid() && n + |out| == left && given == old(given) + out
      ensures old(read) <= read <= |ed.committed| && out == NoEof(ed.committed[old(read)..read])
      ensures forall k :: 0 <= k < |out| - 1 ==> out[k] != NEWLINE
      ensures st == Sleeps || st == Fails ==> read == |ed.committed| && n > 0 && (st == Fails <==> killed)
      ensures st == Done && n > 0 ==>
                || (out != [] && out[|out| - 1] == NEWLINE)
                || (n == target && read > old(read) && ed.committed[read - 1] == CTRL_D)
                || (n < target && read < |ed.committed| && ed.committed[read] == CTRL_D)
    {
      hide Wrap, Minus, Slot, InRing, NoEof;
      out, n := [], left;
      assert ed.committed[read..read] == [];
      NoEofEmpty();
      while n > 0
        invariant Valid() && n + |out| == left && given == old(given) + out && old(read) <= read
        invariant out == NoEof(ed.committed[old(read)..read])
        invariant forall k :: 0 <= k < |out| ==> out[k] != NEWLINE
      {
        Apart(read, |ed.committed|, INPUT_BUF);
        if r == w {
          return out, n, if killed then Fails else Sleeps;
        }
        Counts(read, INPUT_BUF);
        Counts(read + 1, INPUT_BUF);
        TakeKeeps(buf[..], ed.committed + ed.pending, read, INPUT_BUF);
        NoEofNext(ed.committed, read);
        NoEofPart(ed.committed, old(read), read);
        var c := buf[Slot(r, INPUT_BUF)];
        r := Wrap(r + 1);
        if c == CTRL_D {
          if n < target {
            r := Minus(r, 1);
          } else {
            read := read + 1;
          }
          return out, n, Done;
        }
        read, given := read + 1, given + [c];
        out := out + [c];
        n := n - 1;
        if c == NEWLINE {
          return out, n, Done;
        }
      }
      return out, n, Done;
    }
  }

  lemma LastIs(buf: seq<int>, committed: seq<int>, pending: seq<int>, read: nat)
    requires InRing(buf, committed + pending, read, INPUT_BUF) && pending != [] && NoLineEnd(pending) && read <= |committed|
    ensures buf[Slot(Minus(Wrap(|committed| + |pending|), 1), INPUT_BUF)] != NEWLINE
  {
    hide Slot, Wrap, Minus;
    var k := |committed| + |pending|;
    Counts(k, INPUT_BUF);
    Counts(k - 1, INPUT_BUF);
    assert (committed + pending)[k - 1] == pending[|pending| - 1];
  }

  lemma NoEofEmpty()
    ensures NoEof([]) == []
  {}

  lemma NoEofPart(s: seq<int>, a: nat, k: nat)
    requires a <= k < |s|
    ensures NoEof(s[a..k + 1]) == NoEof(s[a..k]) + if s[k] == CTRL_D then [] else [s[k]]
  {
    assert s[a..k + 1][..k - a] == s[a..k];
  }
}
