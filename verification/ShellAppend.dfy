/** `>>` against `>`: the shell reads both the same way. */
module ShellAppend {
  import opened ShellLexer
  import opened ShellParser

  /** Position `k` holds the second character of a `>>`. */
  predicate Second(text: string, k: nat) {
    0 < k < |text| && text[k] == '>' && text[k - 1] == '>' && !Second(text, k - 1)
  }

  /** The text with every `>>` written as `>` and a blank. */
  function Single(text: string): (r: string)
    ensures |r| == |text|
  {
    seq(|text|, k requires 0 <= k < |text| => if Second(text, k) then ' ' else text[k])
  }

  /** A scanner that starts at `i` is not in the middle of a `>>`. */
  predicate Boundary(text: string, i: nat) {
    i <= |text| && !Second(text, i)
  }

  lemma {:induction false} SpaceSame(text: string, i: nat)
    requires Boundary(text, i)
    ensures SkipSpace(Single(text), i) == SkipSpace(text, i) && Boundary(text, SkipSpace(text, i))
    decreases |text| - i
  {
    if i < |text| && Whitespace(text[i]) {
      SpaceSame(text, i + 1);
    }
  }

  lemma {:induction false} WordSame(text: string, i: nat)
    requires Boundary(text, i)
    ensures WordEnd(Single(text), i) == WordEnd(text, i) && Boundary(text, WordEnd(text, i))
    decreases |text| - i
  {
    if i < |text| && Plain(text[i]) {
      WordSame(text, i + 1);
    }
  }

  /** The same token, except that an append is now an output. */
  lemma TokenSame(text: string, i: nat)
    requires Boundary(text, i)
    ensures var a, b := GetToken(text, i), GetToken(Single(text), i);
            && a.next == b.next && Boundary(text, a.next)
            && b.kind == (if a.kind == Append then Sign('>') else a.kind)
            && (a.kind != Append ==> a.span == b.span)
  {
    hide SkipSpace, WordEnd, Whitespace;
    SpaceSame(text, i);
    var q := SkipSpace(text, i);
    var a, b := GetToken(text, i), GetToken(Single(text), i);
    if q < |text| && Plain(text[q]) {
      WordSame(text, q);
    }
    if a.kind == Append {
      assert Second(text, q + 1) && !Second(text, q + 2);
      BlankSkips(Single(text), q + 1);
      SpaceSame(text, q + 2);
    } else {
      SpaceSame(text, a.span.hi);
    }
  }

  lemma BlankSkips(text: string, i: nat)
    requires i < |text| && text[i] == ' '
    ensures SkipSpace(text, i) == SkipSpace(text, i + 1)
  {}

  lemma PeekSame(text: string, i: nat, toks: string)
    requires Boundary(text, i)
    ensures Peek(Single(text), i, toks) == Peek(text, i, toks)
    ensures SkipSpace(Single(text), i) == SkipSpace(text, i) && Boundary(text, SkipSpace(text, i))
  {
    hide SkipSpace;
    SpaceSame(text, i);
  }

  /** Two parses agree and leave the cursor at a boundary. */
  ghost predicate Agree<T>(text: string, a: Parse<T>, b: Parse<T>) {
    a == b && (a.Ok? ==> Boundary(text, a.value.next))
  }

  lemma {:induction false} RedirsSame(text: string, i: nat, rs: seq<File<Span>>)
    requires Boundary(text, i)
    ensures Agree(text, Redirs(text, i, rs), Redirs(Single(text), i, rs))
    decreases |text| - i
  {
    hide GetToken, Peek, SkipSpace, Single, Second;
    PeekSame(text, i, "<>");
    if Peek(text, i, "<>") {
      Skipped(text, i, "<>");
      TokenSame(text, i);
      var tok := GetToken(text, i);
      TokenSame(text, tok.next);
      var file := GetToken(text, tok.next);
      if file.kind == Word {
        RedirsSame(text, file.next, rs + [File(file.span, tok.kind != Sign('<'))]);
      }
    }
  }

  lemma {:induction false} ArgsSame(text: string, i: nat, words: seq<Span>, rs: seq<File<Span>>)
    requires Boundary(text, i)
    ensures Agree(text, Args(text, i, words, rs), Args(Single(text), i, words, rs))
    decreases |text| - i
  {
    hide GetToken, Peek, SkipSpace, Redirs, Single, Second, Wrap;
    PeekSame(text, i, "|)&;");
    TokenSame(text, i);
    var tok := GetToken(text, i);
    if tok.kind == Word && !Peek(text, i, "|)&;") && |words| + 1 < MAXARGS {
      RedirsSame(text, tok.next, rs);
      var more := Redirs(text, tok.next, rs);
      if more.Ok? {
        ArgsSame(text, more.value.next, words + [tok.span], more.value.value);
      }
    }
  }

  lemma {:induction false} SimpleSame(text: string, i: nat)
    requires Boundary(text, i)
    ensures Agree(text, Simple(text, i), Simple(Single(text), i))
    decreases |text| - i, 1
  {
    hide GetToken, Peek, SkipSpace, Redirs, Args, Block, Single, Second;
    PeekSame(text, i, "(");
    if Peek(text, i, "(") {
      BlockSame(text, i);
    } else {
      RedirsSame(text, i, []);
      var rs := Redirs(text, i, []);
      if rs.Ok? {
        ArgsSame(text, rs.value.next, [], rs.value.value);
      }
    }
  }

  lemma {:induction false} BlockSame(text: string, i: nat)
    requires Boundary(text, i)
    ensures Agree(text, Block(text, i), Block(Single(text), i))
    decreases |text| - i, 0
  {
    hide GetToken, Peek, SkipSpace, Redirs, Line, Single, Second, Wrap;
    PeekSame(text, i, "(");
    if Peek(text, i, "(") {
      Skipped(text, i, "(");
      TokenSame(text, i);
      LineSame(text, GetToken(text, i).next);
      var inner := Line(text, GetToken(text, i).next);
      if inner.Ok? {
        PeekSame(text, inner.value.next, ")");
        TokenSame(text, inner.value.next);
        RedirsSame(text, GetToken(text, inner.value.next).next, []);
      }
    }
  }

  lemma {:induction false} PipedSame(text: string, i: nat)
    requires Boundary(text, i)
    ensures Agree(text, Piped(text, i), Piped(Single(text), i))
    decreases |text| - i, 2
  {
    hide GetToken, Peek, SkipSpace, Simple, Single, Second;
    SimpleSame(text, i);
    var first := Simple(text, i);
    if first.Ok? {
      PeekSame(text, first.value.next, "|");
      if Peek(text, first.value.next, "|") {
        Skipped(text, first.value.next, "|");
        TokenSame(text, first.value.next);
        PipedSame(text, GetToken(text, first.value.next).next);
      }
    }
  }

  lemma {:induction false} AmpersandsSame(text: string, i: nat, c: Cmd<Span>)
    requires Boundary(text, i)
    ensures Ampersands(Single(text), i, c) == Ampersands(text, i, c) && Boundary(text, Ampersands(text, i, c).next)
    decreases |text| - i
  {
    hide GetToken, Peek, SkipSpace, Single, Second;
    PeekSame(text, i, "&");
    if Peek(text, i, "&") {
      Skipped(text, i, "&");
      TokenSame(text, i);
      AmpersandsSame(text, GetToken(text, i).next, Back(c));
    }
  }

  lemma {:induction false} LineSame(text: string, i: nat)
    requires Boundary(text, i)
    ensures Agree(text, Line(text, i), Line(Single(text), i))
    decreases |text| - i, 3
  {
    hide GetToken, Peek, SkipSpace, Piped, Ampersands, Single, Second;
    PipedSame(text, i);
    var first := Piped(text, i);
    if first.Ok? {
      AmpersandsSame(text, first.value.next, first.value.value);
      var cmd := Ampersands(text, first.value.next, first.value.value);
      PeekSame(text, cmd.next, ";");
      if Peek(text, cmd.next, ";") {
        Skipped(text, cmd.next, ";");
        TokenSame(text, cmd.next);
        LineSame(text, GetToken(text, cmd.next).next);
      }
    }
  }

  /** No line means anything else, or panics otherwise, when its appends are written as
      plain outputs. */
  lemma AppendIsOutput(text: string)
    ensures Command(Single(text)) == Command(text)
    ensures forall i :: Boundary(text, i) ==> GetToken(Single(text), i).kind != Append
  {
    hide Line, SkipSpace, Single, GetToken;
    LineSame(text, 0);
    var r := Line(text, 0);
    if r.Ok? {
      SpaceSame(text, r.value.next);
    }
    forall i | Boundary(text, i)
      ensures GetToken(Single(text), i).kind != Append
    {
      TokenSame(text, i);
    }
  }

  /** The tokens of a line with an append. */
  lemma WitnessTokens()
    ensures var t := "a>>b";
            && GetToken(t, 0) == Token(Word, Span(0, 1), 1) && GetToken(t, 1) == Token(Append, Span(1, 3), 3)
            && GetToken(t, 3) == Token(Word, Span(3, 4), 4) && GetToken(t, 4).kind == End
            && SkipSpace(t, 0) == 0 && SkipSpace(t, 4) == 4
  {
    var t := "a>>b";
    assert WordEnd(t, 1) == 1 && WordEnd(t, 0) == 1;
    assert WordEnd(t, 4) == 4 && WordEnd(t, 3) == 4;
  }

  lemma WitnessPeeks(toks: string)
    requires 'a' !in toks
    ensures var t := "a>>b"; !Peek(t, 0, toks) && Peek(t, 1, "<>") && !Peek(t, 4, toks)
  {}

  lemma WitnessRedirs()
    ensures Redirs("a>>b", 0, []) == Ok(At([], 0)) && Redirs("a>>b", 1, []) == Ok(At([File(Span(3, 4), true)], 4))
  {
    hide GetToken, Peek, SkipSpace;
    WitnessTokens();
    WitnessPeeks("<>");
    var f := File(Span(3, 4), true);
    assert Redirs("a>>b", 4, [f]) == Ok(At([f], 4));
    assert [] + [f] == [f];
  }

  /** Its tree. */
  lemma AppendWitness()
    ensures Single("a>>b") == "a> b" && GetToken("a>>b", 1).kind == Append
    ensures Command("a>>b") == Ok(Redir(Exec([Span(0, 1)]), Span(3, 4), true))
  {
    hide GetToken, Peek, SkipSpace, Redirs;
    var t := "a>>b";
    assert Single(t)[0] == 'a' && Single(t)[1] == '>' && Single(t)[2] == ' ' && Single(t)[3] == 'b';
    WitnessTokens();
    WitnessRedirs();
    WitnessPeeks("|)&;");
    WitnessPeeks("(");
    WitnessPeeks("|");
    WitnessPeeks("&");
    WitnessPeeks(";");
    var f, c := File(Span(3, 4), true), Exec([Span(0, 1)]);
    assert Wrap(c, [f]) == Redir(c, Span(3, 4), true) by {
      assert [f][..0] == [];
    }
    assert Args(t, 4, [Span(0, 1)], [f]) == Ok(At(Wrap(c, [f]), 4));
    assert [] + [Span(0, 1)] == [Span(0, 1)];
    assert Args(t, 0, [], []) == Ok(At(Wrap(c, [f]), 4));
    assert Simple(t, 0) == Ok(At(Wrap(c, [f]), 4));
  }
}
