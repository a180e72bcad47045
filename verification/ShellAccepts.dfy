/** Everything in the shell's language is accepted, and what acceptance says about the
    text. */
module ShellAccepts {
  import opened ShellLexer
  import opened ShellParser
  import opened ShellWords
  import opened ShellGrammar

  // ----- what is in the language is read

  /** The parse gives `c` and has read exactly the first `n` tokens. */
  ghost predicate Reads<T(!new)>(text: string, i: nat, r: Parse<T>, c: T, n: nat)
    requires i <= |text|
  {
    r.Ok? && r.value.value == c && i <= r.value.next <= |text| && n <= |Toks(text, i)| && Toks(text, r.value.next) == Toks(text, i)[n..]
  }

  lemma {:induction false} RedirsRead(text: string, i: nat, rs: seq<File<Span>>, n: nat)
    requires i <= |text| && n <= |Toks(text, i)| && OnlyFiles(Toks(text, i)[..n])
    requires n < |Toks(text, i)| ==> !RedirKind(Toks(text, i)[n].kind)
    ensures Reads(text, i, Redirs(text, i, rs), rs + ArgFiles(Toks(text, i)[..n]), n)
    decreases |text| - i
  {
    hide GetToken, Peek, SkipSpace, OnlyFiles, ArgFiles, Toks;
    var ts := Toks(text, i);
    PeekRedir(text, i);
    FilesUnfold(ts[..n]);
    if n == 0 {
      ToksSkip(text, i);
      assert ts[..0] == [] && ts[0..] == ts && rs + [] == rs;
    } else {
      FirstTok(text, i);
      var tok := GetToken(text, i);
      FirstTok(text, tok.next);
      var file := GetToken(text, tok.next);
      var f := File(file.span, tok.kind != Sign('<'));
      assert ts[2..] == ts[1..][1..] && ts[..n][2..] == ts[2..][..n - 2] && ts[1] == ts[1..][0];
      RedirsRead(text, file.next, rs + [f], n - 2);
      FilePair(ts[0], ts[1], ts[2..][..n - 2]);
      assert ts[..n] == [ts[0], ts[1]] + ts[2..][..n - 2] && ts[n..] == ts[2..][n - 2..];
      Regroup(rs, [f], ArgFiles(ts[2..][..n - 2]));
    }
  }

  /** What follows ends a simple command. */
  predicate Stopped(ts: seq<Tok>, n: nat) {
    n < |ts| ==> StopKind(ts[n].kind)
  }

  lemma WordFirst(ts: seq<Tok>)
    requires ts != [] && ts[0].kind == Word
    ensures ArgsOk(ts) == ArgsOk(ts[1..]) && ArgWords(ts) == [ts[0].span] + ArgWords(ts[1..]) && ArgFiles(ts) == ArgFiles(ts[1..])
  {}

  lemma {:induction false} ArgsRead(text: string, i: nat, words: seq<Span>, rs: seq<File<Span>>, n: nat)
    requires i <= |text| && n <= |Toks(text, i)| && ArgsOk(Toks(text, i)[..n]) && Stopped(Toks(text, i), n)
    requires |words| + |ArgWords(Toks(text, i)[..n])| < MAXARGS && (n > 0 ==> Toks(text, i)[0].kind == Word)
    ensures var us := Toks(text, i)[..n];
            Reads(text, i, Args(text, i, words, rs), Wrap(Exec(words + ArgWords(us)), rs + ArgFiles(us)), n)
    decreases |text| - i
  {
    hide GetToken, Peek, SkipSpace, OnlyFiles, ArgsOk, ArgWords, ArgFiles, Toks, Redirs, Wrap, Args, Stopped;
    if n == 0 {
      NoArgsRead(text, i, words, rs);
    } else {
      var us, rest := Toks(text, i)[..n], Toks(text, i)[1..];
      FirstTok(text, i);
      var tok := GetToken(text, i);
      WordFirst(us);
      assert us[1..] == rest[..n - 1];
      var m := Leading(us[1..]);
      Parted(Toks(text, i), n, m);
      var more := OneArgRead(text, i, words, rs, m);
      var k := n - 1 - m;
      assert rest[m..] == Toks(text, more.next);
      ArgsRead(text, more.next, words + [tok.span], more.value, k);
      Regroup(words, [tok.span], ArgWords(rest[m..][..k]));
      Regroup(rs, ArgFiles(rest[..m]), ArgFiles(rest[m..][..k]));
    }
  }

  lemma NoArgsRead(text: string, i: nat, words: seq<Span>, rs: seq<File<Span>>)
    requires i <= |text| && Stopped(Toks(text, i), 0)
    ensures var us := Toks(text, i)[..0];
            Reads(text, i, Args(text, i, words, rs), Wrap(Exec(words + ArgWords(us)), rs + ArgFiles(us)), 0)
  {
    hide GetToken, Peek, SkipSpace, ArgWords, ArgFiles, Toks, Redirs, Wrap;
    var ts := Toks(text, i);
    PeekStop(text, i);
    FirstTok(text, i);
    FilesUnfold([]);
    ToksSkip(text, i);
    assert ts[..0] == [] && ts[0..] == ts && rs + [] == rs && words + [] == words;
  }

  /** One word and the redirections after it. */
  lemma OneArgRead(text: string, i: nat, words: seq<Span>, rs: seq<File<Span>>, m: nat) returns (more: At<seq<File<Span>>>)
    requires i <= |text| && Starts(Toks(text, i), Word) && |words| + 1 < MAXARGS && m < |Toks(text, i)|
    requires var rest := Toks(text, i)[1..]; OnlyFiles(rest[..m]) && (m < |rest| ==> !RedirKind(rest[m].kind))
    ensures var rest := Toks(text, i)[1..];
            i < more.next <= |text| && more.value == rs + ArgFiles(rest[..m]) && Toks(text, more.next) == rest[m..]
    ensures Args(text, i, words, rs) == Args(text, more.next, words + [GetToken(text, i).span], more.value)
  {
    hide GetToken, Peek, SkipSpace, OnlyFiles, ArgFiles, Toks, Redirs, Wrap;
    PeekStop(text, i);
    FirstTok(text, i);
    var tok := GetToken(text, i);
    RedirsRead(text, tok.next, rs, m);
    more := Redirs(text, tok.next, rs).value;
  }

  lemma Parted(ts: seq<Tok>, n: nat, m: nat)
    requires 0 < n <= |ts| && m <= n - 1 && Stopped(ts, n) && (m == n - 1 || ts[..n][1..][m].kind == Word)
    ensures var rest, k := ts[1..], n - 1 - m;
            && (m < |rest| ==> !RedirKind(rest[m].kind)) && m < |ts|
            && k <= |rest[m..]| && Stopped(rest[m..], k) && (k > 0 ==> rest[m..][0].kind == Word)
            && ts[..n][1..][..m] == rest[..m] && ts[..n][1..][m..] == rest[m..][..k] && ts[n..] == rest[m..][k..]
  {
    NextIsNoRedir(ts, n, m);
  }

  /** After the redirections comes a word or the end of the command. */
  lemma NextIsNoRedir(ts: seq<Tok>, n: nat, m: nat)
    requires 0 < n <= |ts| && m <= n - 1 && Stopped(ts, n) && (m == n - 1 || ts[..n][1..][m].kind == Word)
    ensures m < |ts[1..]| ==> !RedirKind(ts[1..][m].kind)
    ensures n - 1 - m <= |ts[1..][m..]| && Stopped(ts[1..][m..], n - 1 - m) && (n - 1 - m > 0 ==> ts[1..][m..][0].kind == Word)
  {}

  lemma {:induction false} SimpleRead(text: string, i: nat, c: Cmd<Span>, n: nat)
    requires i <= |text| && n <= |Toks(text, i)| && IsSimple(Toks(text, i)[..n], c) && Stopped(Toks(text, i), n)
    ensures Reads(text, i, Simple(text, i), c, n)
    decreases |text| - i, 1
  {
    hide GetToken, Peek, SkipSpace, Block, Redirs, Args, Toks, BlockAt, ExecOf;
    var ts := Toks(text, i);
    PeekIs(text, i, '(');
    if ExecOf(ts[..n], c) {
      ExecRead(text, i, c, n);
    } else {
      var k :| 0 < k < n && BlockAt(ts[..n], c, k);
      BlockOpens(ts[..n], c, k);
      BlockRead(text, i, c, n, k);
    }
  }

  lemma BlockOpens(ts: seq<Tok>, c: Cmd<Span>, n: nat)
    requires 0 < n < |ts| && BlockAt(ts, c, n)
    ensures ts[0].kind == Sign('(')
  {
    hide IsLine;
  }

  lemma ExecRead(text: string, i: nat, c: Cmd<Span>, n: nat)
    requires i <= |text| && n <= |Toks(text, i)| && ExecOf(Toks(text, i)[..n], c) && Stopped(Toks(text, i), n)
    ensures Reads(text, i, Simple(text, i), c, n)
  {
    hide GetToken, Peek, SkipSpace, Block, Redirs, Args, Toks, OnlyFiles, ArgsOk, ArgWords, ArgFiles, Wrap;
    var ts := Toks(text, i);
    var us := ts[..n];
    PeekIs(text, i, '(');
    if n > 0 {
      FilesUnfold(us);
      assert us[0] == ts[0];
    }
    var m := Leading(us);
    assert us[..m] == ts[..m] && us[m..] == ts[m..][..n - m];
    RedirsRead(text, i, [], m);
    var rs := Redirs(text, i, []).value;
    ArgsRead(text, rs.next, [], rs.value, n - m);
    assert ts[n..] == ts[m..][n - m..];
    assert [] + ArgWords(us[m..]) == ArgWords(us[m..]) && [] + ArgFiles(us[..m]) == ArgFiles(us[..m]);
  }

  lemma {:induction false} BlockRead(text: string, i: nat, c: Cmd<Span>, n: nat, k: nat)
    requires i <= |text| && n <= |Toks(text, i)| && 0 < k < n && BlockAt(Toks(text, i)[..n], c, k) && Stopped(Toks(text, i), n)
    ensures Reads(text, i, Block(text, i), c, n)
    decreases |text| - i, 0
  {
    hide GetToken, Peek, SkipSpace, Redirs, Toks, Line, IsLine, OnlyFiles, ArgFiles, Wrap, Strip;
    var ts := Toks(text, i);
    var us := ts[..n];
    PeekIs(text, i, '(');
    FirstTok(text, i);
    var open := GetToken(text, i).next;
    BlockParts(ts, n, k);
    var fs := ArgFiles(us[k + 1..]);
    LineRead(text, open, Strip(c, |fs|), k - 1);
    var inner := Line(text, open).value;
    StartsAt(ts, k, Sign(')'));
    PeekIs(text, inner.next, ')');
    FirstTok(text, inner.next);
    var close := GetToken(text, inner.next).next;
    assert Toks(text, close) == ts[k + 1..];
    RedirsRead(text, close, [], n - k - 1);
    assert [] + fs == fs;
  }

  /** Where the parts of a block are among all tokens. */
  lemma BlockParts(ts: seq<Tok>, n: nat, k: nat)
    requires 0 < k < n <= |ts| && Stopped(ts, n)
    ensures var us := ts[..n];
            && us[0] == ts[0] && us[k] == ts[k] && us[1..k] == ts[1..][..k - 1] && ts[1..][k - 1] == ts[k] && ts[1..][k - 1..] == ts[k..]
            && ts[k..][1..] == ts[k + 1..] && us[k + 1..] == ts[k + 1..][..n - k - 1] && ts[k + 1..][n - k - 1..] == ts[n..]
            && (n - k - 1 < |ts[k + 1..]| ==> !RedirKind(ts[k + 1..][n - k - 1].kind))
  {}

  lemma StartsAt(ts: seq<Tok>, k: nat, kind: Kind)
    requires k < |ts| && ts[k].kind == kind
    ensures Starts(ts[k..], kind)
  {
    assert ts[k..][0] == ts[k];
  }

  lemma {:induction false} PipedRead(text: string, i: nat, c: Cmd<Span>, n: nat)
    requires i <= |text| && n <= |Toks(text, i)| && IsPipe(Toks(text, i)[..n], c)
    requires Stopped(Toks(text, i), n) && (n < |Toks(text, i)| ==> Toks(text, i)[n].kind != Sign('|'))
    ensures Reads(text, i, Piped(text, i), c, n)
    decreases |text| - i, 2
  {
    hide GetToken, Peek, SkipSpace, Simple, Toks, IsSimple;
    var ts := Toks(text, i);
    var us := ts[..n];
    if IsSimple(us, c) {
      SimpleRead(text, i, c, n);
      var first := Simple(text, i).value;
      PeekIs(text, first.next, '|');
      ToksSkip(text, first.next);
    } else {
      var k :| 0 <= k < n && PipeAt(us, c, k);
      assert us[..k] == ts[..k] && us[k] == ts[k] && us[k + 1..] == ts[k + 1..][..n - k - 1];
      SimpleRead(text, i, c.left, k);
      var first := Simple(text, i).value;
      StartsAt(ts, k, Sign('|'));
      PeekIs(text, first.next, '|');
      FirstTok(text, first.next);
      assert ts[k..][1..] == ts[k + 1..] && (n < |ts| ==> ts[k + 1..][n - k - 1] == ts[n]);
      PipedRead(text, GetToken(text, first.next).next, c.right, n - k - 1);
      assert ts[k + 1..][n - k - 1..] == ts[n..];
    }
  }

  lemma {:induction false} AmpersandsRead(text: string, i: nat, c: Cmd<Span>, n: nat)
    requires i <= |text| && n <= |Toks(text, i)| && (forall k :: 0 <= k < n ==> Toks(text, i)[k].kind == Sign('&'))
    requires n < |Toks(text, i)| ==> Toks(text, i)[n].kind != Sign('&')
    ensures var r := Ampersands(text, i, c); r.value == Backs(c, n) && Toks(text, r.next) == Toks(text, i)[n..]
  {
    hide GetToken, Peek, SkipSpace, Toks, Ampersands;
    var ts := Toks(text, i);
    var m := AmpersandsSound(text, i, c);
    assert !(m < n) by {
      assert m < |ts| ==> ts[m..] != [] && ts[m..][0] == ts[m];
    }
  }

  /** What follows ends a line. */
  predicate Closed(ts: seq<Tok>, n: nat) {
    n < |ts| ==> ts[n].kind == Sign(')')
  }

  /** Ampersands may follow a pipeline. */
  lemma {:induction false} BackRead(text: string, i: nat, c: Cmd<Span>, n: nat)
    requires i <= |text| && n <= |Toks(text, i)| && IsBack(Toks(text, i)[..n], c)
    requires n < |Toks(text, i)| ==> Toks(text, i)[n].kind == Sign(')') || Toks(text, i)[n].kind == Sign(';')
    ensures Piped(text, i).Ok? && i <= Piped(text, i).value.next <= |text|
    ensures var r := Ampersands(text, Piped(text, i).value.next, Piped(text, i).value.value);
            r.value == c && i <= r.next <= |text| && Toks(text, r.next) == Toks(text, i)[n..]
    decreases |text| - i, 3
  {
    hide GetToken, Peek, SkipSpace, Toks, Piped, Ampersands, IsPipe, Backs, Unback;
    var ts := Toks(text, i);
    var us := ts[..n];
    var m :| 0 <= m <= n && BackAt(us, c, m);
    assert us[..m] == ts[..m];
    var d := Unback(c, n - m);
    if m < n {
      assert us[m] == ts[m];
    }
    PipedRead(text, i, d, m);
    var first := Piped(text, i).value;
    assert Toks(text, first.next) == ts[m..];
    forall k | 0 <= k < n - m
      ensures ts[m..][k].kind == Sign('&')
    {
      assert us[m + k] == ts[m..][k];
    }
    AmpersandsRead(text, first.next, d, n - m);
    assert ts[m..][n - m..] == ts[n..];
  }

  lemma {:induction false} LineRead(text: string, i: nat, c: Cmd<Span>, n: nat)
    requires i <= |text| && n <= |Toks(text, i)| && IsLine(Toks(text, i)[..n], c) && Closed(Toks(text, i), n)
    ensures Reads(text, i, Line(text, i), c, n)
    decreases |text| - i, 4
  {
    hide GetToken, Peek, SkipSpace, Toks, Piped, Ampersands, IsBack;
    var ts := Toks(text, i);
    var us := ts[..n];
    if IsBack(us, c) {
      BackRead(text, i, c, n);
      var cmd := Ampersands(text, Piped(text, i).value.next, Piped(text, i).value.value);
      PeekIs(text, cmd.next, ';');
      ToksSkip(text, cmd.next);
    } else {
      var k :| 0 <= k < n && ListAt(us, c, k);
      assert us[..k] == ts[..k] && us[k] == ts[k] && us[k + 1..] == ts[k + 1..][..n - k - 1];
      BackRead(text, i, c.left, k);
      var cmd := Ampersands(text, Piped(text, i).value.next, Piped(text, i).value.value);
      StartsAt(ts, k, Sign(';'));
      PeekIs(text, cmd.next, ';');
      FirstTok(text, cmd.next);
      assert ts[k..][1..] == ts[k + 1..] && (n < |ts| ==> ts[k + 1..][n - k - 1] == ts[n]);
      LineRead(text, GetToken(text, cmd.next).next, c.right, n - k - 1);
      assert ts[k + 1..][n - k - 1..] == ts[n..];
    }
  }

  // ----- the parser is the grammar

  lemma NoMoreToks(text: string, i: nat)
    requires i <= |text|
    ensures Toks(text, i) == [] <==> SkipSpace(text, i) == |text|
  {
    hide SkipSpace, WordEnd, Whitespace;
    FirstTok(text, i);
  }

  /** A text is accepted with tree `c` if and only if the grammar gives its tokens that
      tree; so the grammar gives no text two trees, and any other text is a panic. */
  lemma AcceptsIff(text: string, c: Cmd<Span>)
    ensures Command(text) == Ok(c) <==> IsLine(Toks(text, 0), c)
  {
    hide SkipSpace, Toks, Line, IsLine;
    var ts := Toks(text, 0);
    assert ts[..|ts|] == ts && ts[|ts|..] == [];
    if IsLine(ts, c) {
      LineRead(text, 0, c, |ts|);
      NoMoreToks(text, Line(text, 0).value.next);
    }
    if Command(text) == Ok(c) {
      var n := LineSound(text, 0);
      NoMoreToks(text, Line(text, 0).value.next);
      assert n == |ts|;
    }
  }

  // ----- words

  function WordsOf(ts: seq<Tok>): set<Span> {
    set i | 0 <= i < |ts| && ts[i].kind == Word :: ts[i].span
  }

  lemma WordsBoth(a: seq<Tok>, b: seq<Tok>)
    ensures WordsOf(a + b) == WordsOf(a) + WordsOf(b)
  {
    forall s
      ensures s in WordsOf(a + b) <==> s in WordsOf(a) || s in WordsOf(b)
    {
      if s in WordsOf(a) {
        var i :| 0 <= i < |a| && a[i].kind == Word && a[i].span == s;
        assert (a + b)[i] == a[i];
      }
      if s in WordsOf(b) {
        var i :| 0 <= i < |b| && b[i].kind == Word && b[i].span == s;
        assert (a + b)[|a| + i] == b[i];
      }
    }
  }

  lemma WordsOne(x: Tok)
    ensures WordsOf([x]) == if x.kind == Word then {x.span} else {}
  {
    assert [x][0] == x;
  }

  function FileSet(fs: seq<File<Span>>): set<Span> {
    set i | 0 <= i < |fs| :: fs[i].name
  }

  lemma {:induction false} WrapSpans(c: Cmd<Span>, fs: seq<File<Span>>)
    ensures Spans(Wrap(c, fs)) == Spans(c) + FileSet(fs)
  {
    if fs != [] {
      var front := fs[..|fs| - 1];
      WrapSpans(c, front);
      assert FileSet(fs) == FileSet(front) + {fs[|fs| - 1].name} by { FileSetMore(front, fs[|fs| - 1]); assert fs == front + [fs[|fs| - 1]]; }
    }
  }

  lemma FileSetMore(fs: seq<File<Span>>, f: File<Span>)
    ensures FileSet(fs + [f]) == FileSet(fs) + {f.name}
  {
    forall s
      ensures s in FileSet(fs + [f]) <==> s in FileSet(fs) + {f.name}
    {
      if s in FileSet(fs) {
        var i :| 0 <= i < |fs| && fs[i].name == s;
        assert (fs + [f])[i] == fs[i];
      }
      assert (fs + [f])[|fs|] == f;
    }
  }

  lemma FileSetFirst(f: File<Span>, fs: seq<File<Span>>)
    ensures FileSet([f] + fs) == {f.name} + FileSet(fs)
  {
    forall s
      ensures s in FileSet([f] + fs) <==> s in {f.name} + FileSet(fs)
    {
      if s in FileSet(fs) {
        var i :| 0 <= i < |fs| && fs[i].name == s;
        assert ([f] + fs)[i + 1] == fs[i];
      }
      assert ([f] + fs)[0] == f;
    }
  }

  lemma {:induction false} ArgSpans(ts: seq<Tok>)
    requires ArgsOk(ts)
    ensures SetOf(ArgWords(ts)) + FileSet(ArgFiles(ts)) == WordsOf(ts)
  {
    hide FileSet, WordsOf;
    if ts == [] {
      assert FileSet([]) == {} && WordsOf([]) == {} by { NoWords(); }
    } else if ts[0].kind == Word {
      ArgSpans(ts[1..]);
      WordsBoth([ts[0]], ts[1..]);
      WordsOne(ts[0]);
      assert ts == [ts[0]] + ts[1..];
      assert SetOf(ArgWords(ts)) == {ts[0].span} + SetOf(ArgWords(ts[1..]));
    } else {
      ArgSpans(ts[2..]);
      WordsBoth([ts[0]], [ts[1]]);
      WordsBoth([ts[0]] + [ts[1]], ts[2..]);
      WordsOne(ts[0]);
      WordsOne(ts[1]);
      assert ts == [ts[0]] + [ts[1]] + ts[2..];
      FileSetFirst(File(ts[1].span, ts[0].kind != Sign('<')), ArgFiles(ts[2..]));
    }
  }

  lemma NoWords()
    ensures FileSet([]) == {} && WordsOf([]) == {}
  {}

  lemma {:induction false} FilesAreArgs(ts: seq<Tok>)
    requires OnlyFiles(ts)
    ensures ArgsOk(ts) && ArgWords(ts) == []
  {
    if ts != [] {
      FilesAreArgs(ts[2..]);
    }
  }

  // ----- parentheses

  /** How many parentheses are open after the tokens; -1 once one too many was closed. */
  function Depth(ts: seq<Tok>, d: int): int {
    if ts == [] || d < 0 then d
    else Depth(ts[1..], if ts[0].kind == Sign('(') then d + 1 else if ts[0].kind == Sign(')') then d - 1 else d)
  }

  lemma {:induction false} DepthBoth(a: seq<Tok>, b: seq<Tok>, d: int)
    ensures Depth(a + b, d) == Depth(b, Depth(a, d))
  {
    if a == [] {
      assert a + b == b;
    } else if d < 0 {
    } else {
      assert (a + b)[1..] == a[1..] + b;
      DepthBoth(a[1..], b, if a[0].kind == Sign('(') then d + 1 else if a[0].kind == Sign(')') then d - 1 else d);
    }
  }

  /** The tokens leave the depth as they find it. */
  ghost predicate Even(ts: seq<Tok>) {
    forall d: nat :: Depth(ts, d) == d
  }

  lemma EvenBoth(a: seq<Tok>, b: seq<Tok>)
    requires Even(a) && Even(b)
    ensures Even(a + b)
  {
    forall d: nat
      ensures Depth(a + b, d) == d
    {
      DepthBoth(a, b, d);
    }
  }

  lemma EvenOne(x: Tok)
    requires x.kind != Sign('(') && x.kind != Sign(')')
    ensures Even([x]) && Even([])
  {
    assert [x][1..] == [];
  }

  lemma EvenBlock(x: Tok, ts: seq<Tok>, y: Tok)
    requires x.kind == Sign('(') && y.kind == Sign(')') && Even(ts)
    ensures Even([x] + ts + [y])
  {
    forall d: nat
      ensures Depth([x] + ts + [y], d) == d
    {
      DepthBoth([x] + ts, [y], d);
      DepthBoth([x], ts, d);
      assert [x][1..] == [] && [y][1..] == [];
      assert Depth([x], d) == Depth([], d + 1) && Depth([y], d + 1) == Depth([], d);
    }
  }

  lemma {:induction false} EvenArgs(ts: seq<Tok>)
    requires ArgsOk(ts)
    ensures Even(ts)
  {
    hide Even;
    if ts == [] {
      EvenOne(Tok(Word, Span(0, 0)));
    } else if ts[0].kind == Word {
      EvenArgs(ts[1..]);
      EvenOne(ts[0]);
      EvenBoth([ts[0]], ts[1..]);
      assert ts == [ts[0]] + ts[1..];
    } else {
      EvenArgs(ts[2..]);
      EvenOne(ts[0]);
      EvenOne(ts[1]);
      EvenBoth([ts[0]], [ts[1]]);
      EvenBoth([ts[0]] + [ts[1]], ts[2..]);
      assert ts == [ts[0]] + [ts[1]] + ts[2..];
    }
  }

  // ----- what a derivation says about its tokens

  /** The words of the tree are those of the tokens, and parentheses match. */
  ghost predicate Accounted(ts: seq<Tok>, c: Cmd<Span>) {
    Spans(c) == WordsOf(ts) && Even(ts)
  }

  lemma {:induction false} SimpleAccounts(ts: seq<Tok>, c: Cmd<Span>)
    requires IsSimple(ts, c)
    ensures Accounted(ts, c)
    decreases |ts|, 1
  {
    hide Even, WordsOf, ArgsOk, ArgWords, ArgFiles, Wrap, BlockAt, FileSet;
    if ExecOf(ts, c) {
      ArgSpans(ts);
      WrapSpans(Exec(ArgWords(ts)), ArgFiles(ts));
      EvenArgs(ts);
    } else {
      var n :| 0 < n < |ts| && BlockAt(ts, c, n);
      BlockAccounts(ts, c, n);
    }
  }

  lemma {:induction false} BlockAccounts(ts: seq<Tok>, c: Cmd<Span>, n: nat)
    requires 0 < n < |ts| && BlockAt(ts, c, n)
    ensures Accounted(ts, c)
    decreases |ts|, 0
  {
    hide Even, WordsOf, ArgsOk, ArgWords, ArgFiles, OnlyFiles, Wrap, Strip, IsLine, FileSet, Spans;
    var inside, after := ts[1..n], ts[n + 1..];
    var fs := ArgFiles(after);
    var inner := Strip(c, |fs|);
    LineAccounts(inside, inner);
    FilesAreArgs(after);
    ArgSpans(after);
    EvenArgs(after);
    WrapSpans(inner, fs);
    assert SetOf([]) == {};
    var block := [ts[0]] + inside + [ts[n]];
    assert ts == block + after;
    EvenBlock(ts[0], inside, ts[n]);
    EvenBoth(block, after);
    WordsBoth([ts[0]], inside);
    WordsBoth([ts[0]] + inside, [ts[n]]);
    WordsBoth(block, after);
    WordsOne(ts[0]);
    WordsOne(ts[n]);
  }

  /** Two parts with a sign between them. */
  lemma BothAccount(ts: seq<Tok>, n: nat, l: Cmd<Span>, r: Cmd<Span>)
    requires n < |ts| && ts[n].kind.Sign? && ts[n].kind != Sign('(') && ts[n].kind != Sign(')')
    requires Accounted(ts[..n], l) && Accounted(ts[n + 1..], r)
    ensures Even(ts) && WordsOf(ts) == Spans(l) + Spans(r)
  {
    hide Even, WordsOf, Spans;
    EvenOne(ts[n]);
    EvenBoth(ts[..n], [ts[n]]);
    EvenBoth(ts[..n] + [ts[n]], ts[n + 1..]);
    WordsOne(ts[n]);
    WordsBoth(ts[..n], [ts[n]]);
    WordsBoth(ts[..n] + [ts[n]], ts[n + 1..]);
    assert ts == ts[..n] + [ts[n]] + ts[n + 1..];
  }

  lemma {:induction false} PipeAccounts(ts: seq<Tok>, c: Cmd<Span>)
    requires IsPipe(ts, c)
    ensures Accounted(ts, c)
    decreases |ts|, 2
  {
    hide IsSimple, Even, WordsOf;
    if IsSimple(ts, c) {
      SimpleAccounts(ts, c);
    } else {
      var n :| 0 <= n < |ts| && PipeAt(ts, c, n);
      SimpleAccounts(ts[..n], c.left);
      PipeAccounts(ts[n + 1..], c.right);
      BothAccount(ts, n, c.left, c.right);
    }
  }

  lemma {:induction false} BacksSpans(c: Cmd<Span>, k: nat)
    ensures Spans(Backs(c, k)) == Spans(c)
  {
    if k > 0 {
      BacksSpans(c, k - 1);
    }
  }

  lemma {:induction false} Ampersanded(ts: seq<Tok>, m: nat)
    requires m <= |ts| && forall k :: m <= k < |ts| ==> ts[k].kind == Sign('&')
    ensures WordsOf(ts) == WordsOf(ts[..m]) && (Even(ts[..m]) ==> Even(ts))
    decreases |ts| - m
  {
    hide Even, WordsOf;
    if m == |ts| {
      assert ts[..m] == ts;
    } else {
      Ampersanded(ts, m + 1);
      assert ts[..m + 1] == ts[..m] + [ts[m]];
      WordsBoth(ts[..m], [ts[m]]);
      WordsOne(ts[m]);
      EvenOne(ts[m]);
      if Even(ts[..m]) {
        EvenBoth(ts[..m], [ts[m]]);
      }
    }
  }

  lemma {:induction false} BackAccounts(ts: seq<Tok>, c: Cmd<Span>)
    requires IsBack(ts, c)
    ensures Accounted(ts, c)
    decreases |ts|, 3
  {
    hide IsPipe, Even, WordsOf, Spans;
    var m :| 0 <= m <= |ts| && BackAt(ts, c, m);
    PipeAccounts(ts[..m], Unback(c, |ts| - m));
    BacksSpans(Unback(c, |ts| - m), |ts| - m);
    Ampersanded(ts, m);
  }

  lemma {:induction false} LineAccounts(ts: seq<Tok>, c: Cmd<Span>)
    requires IsLine(ts, c)
    ensures Accounted(ts, c)
    decreases |ts|, 4
  {
    hide IsBack, Even, WordsOf;
    if IsBack(ts, c) {
      BackAccounts(ts, c);
    } else {
      var n :| 0 <= n < |ts| && ListAt(ts, c, n);
      BackAccounts(ts[..n], c.left);
      LineAccounts(ts[n + 1..], c.right);
      BothAccount(ts, n, c.left, c.right);
    }
  }

  // ----- tokens come from left to right

  lemma {:induction false} ToksAscend(text: string, i: nat)
    requires i <= |text|
    ensures var ts := Toks(text, i);
            && (forall j :: 0 <= j < |ts| ==> i <= ts[j].span.lo < ts[j].span.hi <= |text|)
            && (forall j, k :: 0 <= j < k < |ts| ==> ts[j].span.hi <= ts[k].span.lo)
    decreases |text| - i
  {
    hide SkipSpace, WordEnd, Whitespace;
    FirstTok(text, i);
    var t, ts := GetToken(text, i), Toks(text, i);
    if t.kind != End {
      ToksAscend(text, t.next);
      TokenNotEmpty(text, i);
      assert forall j :: 0 < j < |ts| ==> ts[j] == ts[1..][j - 1];
    }
  }

  lemma TokenNotEmpty(text: string, i: nat)
    requires i <= |text| && GetToken(text, i).kind != End
    ensures GetToken(text, i).span.lo < GetToken(text, i).span.hi
  {}

  // ----- every character of a word is in a word token

  lemma {:induction false} InAWord(text: string, i: nat, k: nat) returns (s: Span)
    requires i <= k < |text| && Plain(text[k])
    ensures s in WordsOf(Toks(text, i)) && s.lo <= k < s.hi
    decreases |text| - i
  {
    hide SkipSpace, WordEnd, WordsOf;
    FirstTok(text, i);
    var t, ts := GetToken(text, i), Toks(text, i);
    WordsBoth([ts[0]], ts[1..]);
    WordsOne(ts[0]);
    assert ts == [ts[0]] + ts[1..];
    if k < t.span.hi {
      s := t.span;
    } else {
      s := InAWord(text, t.next, k);
    }
  }

  /** When a text is accepted, nothing of it is lost: every character that is neither blank
      nor sign lies in a word of the tree, the words of the tree are the word tokens, and
      its parentheses match. */
  lemma NothingLost(text: string)
    requires Command(text).Ok?
    ensures var c := Command(text).value;
            && Spans(c) == WordsOf(Toks(text, 0))
            && (forall k :: 0 <= k < |text| && Plain(text[k]) ==> exists s :: s in Spans(c) && s.lo <= k < s.hi)
            && Depth(Toks(text, 0), 0) == 0
            && (forall s, t :: s in Spans(c) && t in Spans(c) && s != t ==> s.hi <= t.lo || t.hi <= s.lo)
  {
    hide Toks, Command, IsLine, Plain;
    ToksAscend(text, 0);
    var c := Command(text).value;
    AcceptsIff(text, c);
    LineAccounts(Toks(text, 0), c);
    forall k | 0 <= k < |text| && Plain(text[k])
      ensures exists s :: s in Spans(c) && s.lo <= k < s.hi
    {
      var s := InAWord(text, 0, k);
    }
  }
}
