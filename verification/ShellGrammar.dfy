/** The shell's language as a grammar over tokens, apart from how it is read, and the proof
    that the parser accepts exactly that language and builds exactly those trees. */
module ShellGrammar {
  import opened ShellLexer
  import opened ShellParser
  import opened ShellWords

  // ----- all tokens of a text

  datatype Tok = Tok(kind: Kind, span: Span)

  function Toks(text: string, i: nat): seq<Tok>
    requires i <= |text|
    decreases |text| - i
  {
    var t := GetToken(text, i);
    if t.kind == End then [] else [Tok(t.kind, t.span)] + Toks(text, t.next)
  }

  predicate Starts(ts: seq<Tok>, k: Kind) {
    ts != [] && ts[0].kind == k
  }

  predicate RedirKind(k: Kind) {
    k == Sign('<') || k == Sign('>') || k == Append
  }

  /** What ends a simple command. */
  predicate StopKind(k: Kind) {
    k == Sign('|') || k == Sign(')') || k == Sign('&') || k == Sign(';')
  }

  // ----- the grammar

  /** Redirections, one after the other. */
  predicate OnlyFiles(ts: seq<Tok>) {
    ts == [] || (|ts| >= 2 && RedirKind(ts[0].kind) && ts[1].kind == Word && OnlyFiles(ts[2..]))
  }

  /** Words and redirections in any order. */
  predicate ArgsOk(ts: seq<Tok>) {
    || ts == []
    || (ts[0].kind == Word && ArgsOk(ts[1..]))
    || (RedirKind(ts[0].kind) && |ts| >= 2 && ts[1].kind == Word && ArgsOk(ts[2..]))
  }

  /** The words among them, in order, that are not the names of files. */
  function ArgWords(ts: seq<Tok>): seq<Span> {
    if ts == [] then []
    else if ts[0].kind == Word then [ts[0].span] + ArgWords(ts[1..])
    else if |ts| >= 2 then ArgWords(ts[2..])
    else []
  }

  function ArgFiles(ts: seq<Tok>): seq<File<Span>> {
    if ts == [] then []
    else if ts[0].kind == Word then ArgFiles(ts[1..])
    else if |ts| >= 2 then [File(ts[1].span, ts[0].kind != Sign('<'))] + ArgFiles(ts[2..])
    else []
  }

  /** A command of at most nine words. */
  predicate ExecOf(ts: seq<Tok>, c: Cmd<Span>) {
    ArgsOk(ts) && |ArgWords(ts)| < MAXARGS && c == Wrap(Exec(ArgWords(ts)), ArgFiles(ts))
  }

  /** The command without its outermost `k` redirections. */
  function Strip(c: Cmd<Span>, k: nat): Cmd<Span> {
    if k > 0 && c.Redir? then Strip(c.cmd, k - 1) else c
  }

  function Backs(c: Cmd<Span>, k: nat): Cmd<Span> {
    if k == 0 then c else Back(Backs(c, k - 1))
  }

  function Unback(c: Cmd<Span>, k: nat): Cmd<Span> {
    if k > 0 && c.Back? then Unback(c.cmd, k - 1) else c
  }

  /** A line in parentheses, closed by token `n`, and redirections of it all. */
  ghost predicate BlockAt(ts: seq<Tok>, c: Cmd<Span>, n: nat)
    requires 0 < n < |ts|
    decreases |ts|, 0
  {
    && ts[0].kind == Sign('(') && ts[n].kind == Sign(')') && OnlyFiles(ts[n + 1..])
    && var fs := ArgFiles(ts[n + 1..]);
       c == Wrap(Strip(c, |fs|), fs) && IsLine(ts[1..n], Strip(c, |fs|))
  }

  ghost predicate IsSimple(ts: seq<Tok>, c: Cmd<Span>)
    decreases |ts|, 1
  {
    ExecOf(ts, c) || exists n :: 0 < n < |ts| && BlockAt(ts, c, n)
  }

  ghost predicate PipeAt(ts: seq<Tok>, c: Cmd<Span>, n: nat)
    requires n < |ts| && c.Pipe?
    decreases |ts|, 0
  {
    ts[n].kind == Sign('|') && IsSimple(ts[..n], c.left) && IsPipe(ts[n + 1..], c.right)
  }

  ghost predicate IsPipe(ts: seq<Tok>, c: Cmd<Span>)
    decreases |ts|, 2
  {
    IsSimple(ts, c) || (c.Pipe? && exists n :: 0 <= n < |ts| && PipeAt(ts, c, n))
  }

  /** A pipeline and then an ampersand for every token from `m` on. */
  ghost predicate BackAt(ts: seq<Tok>, c: Cmd<Span>, m: nat)
    requires m <= |ts|
    decreases |ts|, 3
  {
    && (forall k :: m <= k < |ts| ==> ts[k].kind == Sign('&'))
    && c == Backs(Unback(c, |ts| - m), |ts| - m) && IsPipe(ts[..m], Unback(c, |ts| - m))
  }

  ghost predicate IsBack(ts: seq<Tok>, c: Cmd<Span>)
    decreases |ts|, 4
  {
    exists m :: 0 <= m <= |ts| && BackAt(ts, c, m)
  }

  ghost predicate ListAt(ts: seq<Tok>, c: Cmd<Span>, n: nat)
    requires n < |ts| && c.List?
    decreases |ts|, 0
  {
    ts[n].kind == Sign(';') && IsBack(ts[..n], c.left) && IsLine(ts[n + 1..], c.right)
  }

  ghost predicate IsLine(ts: seq<Tok>, c: Cmd<Span>)
    decreases |ts|, 5
  {
    IsBack(ts, c) || (c.List? && exists n :: 0 <= n < |ts| && ListAt(ts, c, n))
  }

  // ----- looking ahead is looking at the next token

  lemma FirstTok(text: string, i: nat)
    requires i <= |text|
    ensures var ts, t := Toks(text, i), GetToken(text, i);
            if t.kind == End then ts == [] else i < t.next && ts != [] && ts[0] == Tok(t.kind, t.span) && ts[1..] == Toks(text, t.next)
  {}

  lemma ToksSkip(text: string, i: nat)
    requires i <= |text|
    ensures Toks(text, SkipSpace(text, i)) == Toks(text, i)
  {
    hide GetToken, SkipSpace;
    Skipped(text, i, "");
  }

  lemma PeekIs(text: string, i: nat, c: char)
    requires i <= |text| && Symbol(c) && c != '>'
    ensures Peek(text, i, [c]) <==> Starts(Toks(text, i), Sign(c))
  {
    hide SkipSpace, WordEnd, Whitespace;
    FirstTok(text, i);
  }

  lemma PeekStop(text: string, i: nat)
    requires i <= |text|
    ensures Peek(text, i, "|)&;") <==> Toks(text, i) != [] && StopKind(Toks(text, i)[0].kind)
  {
    hide SkipSpace, WordEnd, Whitespace;
    FirstTok(text, i);
  }

  lemma PeekRedir(text: string, i: nat)
    requires i <= |text|
    ensures Peek(text, i, "<>") <==> Toks(text, i) != [] && RedirKind(Toks(text, i)[0].kind)
  {
    hide SkipSpace, WordEnd, Whitespace;
    FirstTok(text, i);
  }

  // ----- words and redirections

  lemma {:induction false} FilesThenArgs(a: seq<Tok>, b: seq<Tok>)
    requires OnlyFiles(a) && ArgsOk(b)
    ensures ArgsOk(a + b) && ArgWords(a + b) == ArgWords(b) && ArgFiles(a + b) == ArgFiles(a) + ArgFiles(b)
  {
    if a == [] {
      assert a + b == b && [] + ArgFiles(b) == ArgFiles(b);
    } else {
      hide OnlyFiles, ArgsOk, ArgWords, ArgFiles;
      FilesUnfold(a);
      FilesThenArgs(a[2..], b);
      FilePair(a[0], a[1], a[2..]);
      FilePair(a[0], a[1], a[2..] + b);
      assert a == [a[0], a[1]] + a[2..] && a + b == [a[0], a[1]] + (a[2..] + b);
      Regroup([File(a[1].span, a[0].kind != Sign('<'))], ArgFiles(a[2..]), ArgFiles(b));
    }
  }

  lemma FilesUnfold(ts: seq<Tok>)
    ensures OnlyFiles([]) && ArgFiles([]) == [] && ArgWords([]) == [] && ArgsOk([])
    ensures OnlyFiles(ts) && ts != [] ==> |ts| >= 2 && RedirKind(ts[0].kind) && ts[1].kind == Word && OnlyFiles(ts[2..])
    ensures ArgsOk(ts) && ts != [] && ts[0].kind != Word ==> |ts| >= 2 && RedirKind(ts[0].kind) && ts[1].kind == Word && ArgsOk(ts[2..])
  {}

  /** One redirection before the rest. */
  lemma FilePair(x: Tok, y: Tok, ts: seq<Tok>)
    requires RedirKind(x.kind) && y.kind == Word
    ensures OnlyFiles([x, y] + ts) == OnlyFiles(ts) && ArgsOk([x, y] + ts) == ArgsOk(ts)
    ensures ArgWords([x, y] + ts) == ArgWords(ts) && ArgFiles([x, y] + ts) == [File(y.span, x.kind != Sign('<'))] + ArgFiles(ts)
  {
    assert ([x, y] + ts)[2..] == ts;
  }

  /** The redirections that come first. */
  lemma {:induction false} Leading(ts: seq<Tok>) returns (m: nat)
    requires ArgsOk(ts)
    ensures m <= |ts| && OnlyFiles(ts[..m]) && ArgsOk(ts[m..]) && (m == |ts| || ts[m].kind == Word)
    ensures ArgWords(ts) == ArgWords(ts[m..]) && ArgFiles(ts) == ArgFiles(ts[..m]) + ArgFiles(ts[m..])
  {
    hide OnlyFiles, ArgsOk, ArgWords, ArgFiles;
    FilesUnfold(ts);
    if ts == [] || ts[0].kind == Word {
      m := 0;
      assert ts[0..] == ts && ts[..0] == [] && [] + ArgFiles(ts) == ArgFiles(ts);
    } else {
      var rest := ts[2..];
      var k := Leading(rest);
      m := k + 2;
      FilePair(ts[0], ts[1], rest);
      FilePair(ts[0], ts[1], rest[..k]);
      assert ts == [ts[0], ts[1]] + rest && ts[..m] == [ts[0], ts[1]] + rest[..k] && ts[m..] == rest[k..];
      Regroup([File(ts[1].span, ts[0].kind != Sign('<'))], ArgFiles(rest[..k]), ArgFiles(rest[k..]));
    }
  }

  lemma Regroup<T>(a: seq<T>, b: seq<T>, c: seq<T>)
    ensures a + b + c == a + (b + c)
  {}

  // ----- what is read is in the language

  lemma {:induction false} RedirsSound(text: string, i: nat, rs: seq<File<Span>>) returns (n: nat)
    requires i <= |text| && Redirs(text, i, rs).Ok?
    ensures var r, ts := Redirs(text, i, rs).value, Toks(text, i);
            n <= |ts| && Toks(text, r.next) == ts[n..] && OnlyFiles(ts[..n]) && r.value == rs + ArgFiles(ts[..n])
    decreases |text| - i
  {
    hide GetToken, Peek, SkipSpace;
    var ts := Toks(text, i);
    PeekRedir(text, i);
    if !Peek(text, i, "<>") {
      ToksSkip(text, i);
      n := 0;
      assert ts[0..] == ts;
    } else {
      FirstTok(text, i);
      var tok := GetToken(text, i);
      FirstTok(text, tok.next);
      var file := GetToken(text, tok.next);
      var f := File(file.span, tok.kind != Sign('<'));
      var m := RedirsSound(text, file.next, rs + [f]);
      n := m + 2;
      assert ts[2..] == Toks(text, file.next) && ts[n..] == ts[2..][m..] && ts[..n][2..] == ts[2..][..m];
      Regroup(rs, [f], ArgFiles(ts[2..][..m]));
    }
  }

  lemma {:induction false} ArgsSound(text: string, i: nat, words: seq<Span>, rs: seq<File<Span>>) returns (n: nat)
    requires i <= |text| && Args(text, i, words, rs).Ok? && |words| < MAXARGS
    ensures var r, ts := Args(text, i, words, rs).value, Toks(text, i);
            && n <= |ts| && Toks(text, r.next) == ts[n..] && ArgsOk(ts[..n]) && |words + ArgWords(ts[..n])| < MAXARGS
            && r.value == Wrap(Exec(words + ArgWords(ts[..n])), rs + ArgFiles(ts[..n]))
    decreases |text| - i
  {
    hide GetToken, Peek, SkipSpace, Redirs, Wrap;
    var ts := Toks(text, i);
    var tok := GetToken(text, i);
    FirstTok(text, i);
    if Peek(text, i, "|)&;") || tok.kind == End {
      ToksSkip(text, i);
      n := 0;
      assert ts[0..] == ts && words + [] == words && rs + [] == rs;
    } else {
      var m := RedirsSound(text, tok.next, rs);
      var more := Redirs(text, tok.next, rs).value;
      var k := ArgsSound(text, more.next, words + [tok.span], more.value);
      n := 1 + m + k;
      var rest := ts[1..];
      FilesThenArgs(rest[..m], rest[m..][..k]);
      assert rest[..m] + rest[m..][..k] == ts[..n][1..] && ts[n..] == rest[m..][k..];
      Regroup(words, [tok.span], ArgWords(rest[m..][..k]));
      Regroup(rs, ArgFiles(rest[..m]), ArgFiles(rest[m..][..k]));
    }
  }

  lemma {:induction false} SimpleSound(text: string, i: nat) returns (n: nat)
    requires i <= |text| && Simple(text, i).Ok?
    ensures var r, ts := Simple(text, i).value, Toks(text, i);
            n <= |ts| && Toks(text, r.next) == ts[n..] && IsSimple(ts[..n], r.value)
    decreases |text| - i, 1
  {
    hide GetToken, Peek, SkipSpace, Redirs, Args, Block, BlockAt, Wrap, OnlyFiles, ArgsOk, ArgWords, ArgFiles, Toks;
    var ts := Toks(text, i);
    if Peek(text, i, "(") {
      n := BlockSound(text, i);
    } else {
      var m := RedirsSound(text, i, []);
      var rs := Redirs(text, i, []).value;
      var k := ArgsSound(text, rs.next, [], rs.value);
      n := m + k;
      FilesThenArgs(ts[..m], ts[m..][..k]);
      assert ts[..m] + ts[m..][..k] == ts[..n] && ts[n..] == ts[m..][k..];
      assert [] + ArgWords(ts[m..][..k]) == ArgWords(ts[m..][..k]) && [] + ArgFiles(ts[..m]) == ArgFiles(ts[..m]);
      assert ExecOf(ts[..n], Simple(text, i).value.value);
    }
  }

  lemma {:induction false} StripWrap(c: Cmd<Span>, fs: seq<File<Span>>)
    ensures Strip(Wrap(c, fs), |fs|) == c
  {
    if fs != [] {
      StripWrap(c, fs[..|fs| - 1]);
    }
  }

  lemma {:induction false} BlockSound(text: string, i: nat) returns (n: nat)
    requires i <= |text| && Block(text, i).Ok?
    ensures var r, ts := Block(text, i).value, Toks(text, i);
            n <= |ts| && Toks(text, r.next) == ts[n..] && IsSimple(ts[..n], r.value)
    decreases |text| - i, 0
  {
    hide GetToken, Peek, SkipSpace, Redirs, Line, IsLine, ExecOf, Wrap;
    var ts := Toks(text, i);
    PeekIs(text, i, '(');
    FirstTok(text, i);
    var open := GetToken(text, i).next;
    var m := LineSound(text, open);
    var inner := Line(text, open).value;
    PeekIs(text, inner.next, ')');
    FirstTok(text, inner.next);
    var close := GetToken(text, inner.next).next;
    var k := RedirsSound(text, close, []);
    var rs := Redirs(text, close, []).value.value;
    n := m + 2 + k;
    assert ts[m + 1..] == ts[1..][m..] && ts[m + 2..] == ts[m + 1..][1..];
    var us := ts[..n];
    assert us[1..m + 1] == ts[1..][..m] && us[m + 2..] == ts[m + 2..][..k] && ts[n..] == ts[m + 2..][k..];
    assert [] + ArgFiles(us[m + 2..]) == ArgFiles(us[m + 2..]);
    StripWrap(inner.value, rs);
    assert BlockAt(us, Wrap(inner.value, rs), m + 1);
  }

  lemma {:induction false} PipedSound(text: string, i: nat) returns (n: nat)
    requires i <= |text| && Piped(text, i).Ok?
    ensures var r, ts := Piped(text, i).value, Toks(text, i);
            n <= |ts| && Toks(text, r.next) == ts[n..] && IsPipe(ts[..n], r.value)
    decreases |text| - i, 2
  {
    hide GetToken, Peek, SkipSpace, Simple, IsSimple;
    var ts := Toks(text, i);
    n := SimpleSound(text, i);
    var first := Simple(text, i).value;
    PeekIs(text, first.next, '|');
    if !Peek(text, first.next, "|") {
      ToksSkip(text, first.next);
    } else {
      FirstTok(text, first.next);
      var next := GetToken(text, first.next).next;
      var k := PipedSound(text, next);
      var m := n;
      n := m + 1 + k;
      assert ts[m + 1..] == ts[m..][1..];
      assert ts[..n][..m] == ts[..m] && ts[..n][m + 1..] == ts[m + 1..][..k] && ts[n..] == ts[m + 1..][k..];
      assert PipeAt(ts[..n], Piped(text, i).value.value, m);
    }
  }

  lemma {:induction false} UnbackBacks(c: Cmd<Span>, k: nat)
    ensures Unback(Backs(c, k), k) == c
  {
    if k > 0 {
      UnbackBacks(c, k - 1);
    }
  }

  lemma {:induction false} BacksMore(c: Cmd<Span>, k: nat)
    ensures Backs(Back(c), k) == Backs(c, k + 1)
  {
    if k > 0 {
      BacksMore(c, k - 1);
    }
  }

  lemma {:induction false} AmpersandsSound(text: string, i: nat, cmd: Cmd<Span>) returns (n: nat)
    requires i <= |text|
    ensures var r, ts := Ampersands(text, i, cmd), Toks(text, i);
            && n <= |ts| && Toks(text, r.next) == ts[n..] && (forall k :: 0 <= k < n ==> ts[k].kind == Sign('&')) && r.value == Backs(cmd, n)
            && !Starts(ts[n..], Sign('&'))
    decreases |text| - i
  {
    hide GetToken, Peek, SkipSpace;
    var ts := Toks(text, i);
    PeekIs(text, i, '&');
    if !Peek(text, i, "&") {
      ToksSkip(text, i);
      n := 0;
      assert ts[0..] == ts;
    } else {
      FirstTok(text, i);
      var m := AmpersandsSound(text, GetToken(text, i).next, Back(cmd));
      n := m + 1;
      BacksMore(cmd, m);
      assert ts[n..] == ts[1..][m..];
      forall k | 0 <= k < n
        ensures ts[k].kind == Sign('&')
      {
        if k > 0 {
          assert ts[1..][k - 1] == ts[k];
        }
      }
    }
  }

  lemma {:induction false} LineSound(text: string, i: nat) returns (n: nat)
    requires i <= |text| && Line(text, i).Ok?
    ensures var r, ts := Line(text, i).value, Toks(text, i);
            n <= |ts| && Toks(text, r.next) == ts[n..] && IsLine(ts[..n], r.value)
    decreases |text| - i, 3
  {
    hide GetToken, Peek, SkipSpace, Piped, Ampersands, IsPipe, IsBack, Toks;
    var ts := Toks(text, i);
    var m := PipedSound(text, i);
    var first := Piped(text, i).value;
    var a := AmpersandsSound(text, first.next, first.value);
    var cmd := Ampersands(text, first.next, first.value);
    n := m + a;
    assert ts[n..] == ts[m..][a..];
    BacksAreBack(ts, m, a, first.value);
    PeekIs(text, cmd.next, ';');
    if !Peek(text, cmd.next, ";") {
      ToksSkip(text, cmd.next);
    } else {
      FirstTok(text, cmd.next);
      var next := GetToken(text, cmd.next).next;
      var k := LineSound(text, next);
      var b := n;
      n := b + 1 + k;
      assert ts[b + 1..] == ts[b..][1..];
      assert ts[..n][..b] == ts[..b] && ts[..n][b + 1..] == ts[b + 1..][..k] && ts[n..] == ts[b + 1..][k..];
      assert ListAt(ts[..n], Line(text, i).value.value, b);
    }
  }

  lemma BacksAreBack(ts: seq<Tok>, m: nat, a: nat, c: Cmd<Span>)
    requires m + a <= |ts| && IsPipe(ts[..m], c) && forall k :: 0 <= k < a ==> ts[m..][k].kind == Sign('&')
    ensures IsBack(ts[..m + a], Backs(c, a))
  {
    hide IsPipe;
    var us := ts[..m + a];
    UnbackBacks(c, a);
    assert us[..m] == ts[..m];
    forall k | m <= k < |us|
      ensures us[k].kind == Sign('&')
    {
      assert ts[m..][k - m] == us[k];
    }
    assert BackAt(us, Backs(c, a), m);
  }
}
