/** Printing a shell command so that parsing gives it back. */
module ShellPrinter {
  import opened ShellLexer
  import opened ShellParser

  // ----- trees with their words as text

  function TextOf(text: string, s: Span): string {
    if s.lo <= s.hi <= |text| then text[s.lo..s.hi] else ""
  }

  function TextsOf(text: string, ss: seq<Span>): seq<string> {
    seq(|ss|, i requires 0 <= i < |ss| => TextOf(text, ss[i]))
  }

  function FileOf(text: string, f: File<Span>): File<string> {
    File(TextOf(text, f.name), f.output)
  }

  function FilesOf(text: string, fs: seq<File<Span>>): seq<File<string>> {
    seq(|fs|, i requires 0 <= i < |fs| => FileOf(text, fs[i]))
  }

  /** The tree that a tree of spans stands for. */
  function Read(text: string, c: Cmd<Span>): Cmd<string> {
    match c
    case Exec(ws) => Exec(TextsOf(text, ws))
    case Redir(d, f, out) => Redir(Read(text, d), TextOf(text, f), out)
    case Pipe(l, r) => Pipe(Read(text, l), Read(text, r))
    case List(l, r) => List(Read(text, l), Read(text, r))
    case Back(d) => Back(Read(text, d))
  }

  lemma {:induction false} ReadWrap(text: string, c: Cmd<Span>, fs: seq<File<Span>>)
    ensures Read(text, Wrap(c, fs)) == Wrap(Read(text, c), FilesOf(text, fs))
  {
    if fs != [] {
      var init := fs[..|fs| - 1];
      ReadWrap(text, c, init);
      assert FilesOf(text, fs)[..|fs| - 1] == FilesOf(text, init);
    }
  }

  // ----- the printer

  /** How tightly the place where a command is printed binds. */
  datatype Level = InLine | InBacks | InPipe | InSimple

  function Words(ws: seq<string>): string {
    if ws == [] then "" else ws[0] + " " + Words(ws[1..])
  }

  function RedirText(f: File<string>): string {
    (if f.output then "> " else "< ") + f.name + " "
  }

  function RedirTexts(fs: seq<File<string>>): string {
    if fs == [] then "" else RedirText(fs[0]) + RedirTexts(fs[1..])
  }

  function Rank(c: Cmd<string>, level: Level): nat {
    match c
    case List(_, _) => (match level case InLine => 0 case InSimple => 1 case InPipe => 2 case InBacks => 3)
    case Back(_) => (match level case InBacks => 0 case InLine => 1 case InSimple => 2 case InPipe => 3)
    case Pipe(_, _) => (match level case InPipe => 0 case InBacks => 1 case InLine => 2 case InSimple => 3)
    case _ => (match level case InSimple => 0 case InPipe => 1 case InBacks => 2 case InLine => 3)
  }

  function Size(c: Cmd<string>): nat {
    match c
    case Exec(_) => 1
    case Redir(d, _, _) => 1 + Size(d)
    case Pipe(l, r) => 1 + Size(l) + Size(r)
    case List(l, r) => 1 + Size(l) + Size(r)
    case Back(d) => 1 + Size(d)
  }

  /** The text of a command, in parentheses where its place binds tighter than it. */
  function Print(c: Cmd<string>, level: Level): string
    decreases Size(c), Rank(c, level)
  {
    match level
    case InLine => if c.List? then Print(c.left, InBacks) + "; " + Print(c.right, InLine) else Print(c, InBacks)
    case InBacks => if c.Back? then Print(c.cmd, InBacks) + "& " else Print(c, InPipe)
    case InPipe => if c.Pipe? then Print(c.left, InSimple) + "| " + Print(c.right, InPipe) else Print(c, InSimple)
    case InSimple =>
      match c
      case Exec(ws) => Words(ws)
      case Redir(d, f, out) => Print(d, InSimple) + RedirText(File(f, out))
      case _ => "( " + Print(c, InLine) + ") "
  }

  /** A word that the scanner reads as one word. */
  predicate Wordy(w: string) {
    w != "" && forall i :: 0 <= i < |w| ==> Plain(w[i])
  }

  predicate AllWordy(ws: seq<string>) {
    forall i :: 0 <= i < |ws| ==> Wordy(ws[i])
  }

  predicate AllNamed(fs: seq<File<string>>) {
    forall i :: 0 <= i < |fs| ==> Wordy(fs[i].name)
  }

  /** At most nine words to a command, each of them one word to the scanner. */
  predicate Printable(c: Cmd<string>) {
    match c
    case Exec(ws) => |ws| < MAXARGS && AllWordy(ws)
    case Redir(d, f, _) => Printable(d) && Wordy(f)
    case Pipe(l, r) => Printable(l) && Printable(r)
    case List(l, r) => Printable(l) && Printable(r)
    case Back(d) => Printable(d)
  }

  /** The command inside its redirections, and the redirections. */
  function Base(c: Cmd<string>): (r: Cmd<string>)
    ensures !r.Redir? && Size(r) <= Size(c) && (c.Redir? ==> Size(r) < Size(c)) && (Printable(c) ==> Printable(r))
  {
    if c.Redir? then Base(c.cmd) else c
  }

  function Files(c: Cmd<string>): (fs: seq<File<string>>)
    ensures Printable(c) ==> AllNamed(fs)
  {
    if c.Redir? then Files(c.cmd) + [File(c.file, c.output)] else []
  }

  lemma {:induction false} WrapBase(c: Cmd<string>)
    ensures c == Wrap(Base(c), Files(c))
    ensures Print(c, InSimple) == Print(Base(c), InSimple) + RedirTexts(Files(c))
  {
    if c.Redir? {
      WrapBase(c.cmd);
      var fs := Files(c.cmd);
      RedirTextsLast(fs, File(c.file, c.output));
      assert (fs + [File(c.file, c.output)])[..|fs|] == fs;
      Assoc(Print(Base(c), InSimple), RedirTexts(fs), RedirText(File(c.file, c.output)));
    } else {
      assert Print(c, InSimple) + "" == Print(c, InSimple);
    }
  }

  lemma Assoc(a: string, b: string, c: string)
    ensures (a + b) + c == a + (b + c)
  {}

  lemma {:induction false} RedirTextsLast(fs: seq<File<string>>, f: File<string>)
    ensures RedirTexts(fs + [f]) == RedirTexts(fs) + RedirText(f)
  {
    if fs == [] {
      assert RedirTexts([f][1..]) == "";
      assert RedirText(f) + "" == "" + RedirText(f);
    } else {
      RedirTextsLast(fs[1..], f);
      assert (fs + [f])[1..] == fs[1..] + [f];
      Assoc(RedirText(fs[0]), RedirTexts(fs[1..]), RedirText(f));
    }
  }

  // ----- where the text is

  predicate Occurs(text: string, i: nat, u: string) {
    i + |u| <= |text| && text[i..i + |u|] == u
  }

  lemma OccursBoth(text: string, i: nat, u: string, v: string)
    requires Occurs(text, i, u + v)
    ensures Occurs(text, i, u) && Occurs(text, i + |u|, v)
  {
    assert (u + v)[..|u|] == u && (u + v)[|u|..] == v;
    assert text[i..i + |u + v|][..|u|] == text[i..i + |u|];
    assert text[i..i + |u + v|][|u|..] == text[i + |u|..i + |u| + |v|];
  }

  lemma OccursAt(text: string, i: nat, u: string, k: nat)
    requires Occurs(text, i, u) && k < |u|
    ensures text[i + k] == u[k]
  {
    assert text[i..i + |u|][k] == text[i + k];
  }

  /** Nothing to skip here. */
  predicate Settled(text: string, i: nat) {
    i <= |text| && (i < |text| ==> !Whitespace(text[i]))
  }

  lemma WordAt(text: string, i: nat, w: string)
    requires Occurs(text, i, w + " ") && Wordy(w) && Settled(text, i + |w| + 1)
    ensures GetToken(text, i) == Token(Word, Span(i, i + |w|), i + |w| + 1) && TextOf(text, Span(i, i + |w|)) == w
    ensures Plain(text[i])
  {
    forall k | 0 <= k < |w|
      ensures text[i + k] == w[k] && Plain(text[i + k])
    {
      OccursAt(text, i, w + " ", k);
    }
    OccursAt(text, i, w + " ", |w|);
    assert text[i] == w[0];
    EndOfWord(text, i, i + |w|);
    assert text[i..i + |w|] == w;
  }

  lemma {:induction false} EndOfWord(text: string, i: nat, j: nat)
    requires i <= j < |text| && !Plain(text[j]) && forall k :: i <= k < j ==> Plain(text[k])
    ensures WordEnd(text, i) == j
    decreases j - i
  {
    if i < j {
      EndOfWord(text, i + 1, j);
    }
  }

  lemma SignAt(text: string, i: nat, c: char)
    requires Occurs(text, i, [c, ' ']) && Symbol(c) && Settled(text, i + 2)
    ensures GetToken(text, i) == Token(Sign(c), Span(i, i + 1), i + 2) && text[i] == c
  {
    OccursAt(text, i, [c, ' '], 0);
    OccursAt(text, i, [c, ' '], 1);
  }

  lemma PeekSettled(text: string, i: nat, toks: string)
    requires Settled(text, i)
    ensures SkipSpace(text, i) == i && (Peek(text, i, toks) <==> i < |text| && text[i] in toks)
  {}

  /** Text that does not start with whitespace. */
  predicate Tight(s: string) {
    s == "" || !Whitespace(s[0])
  }

  lemma TightStart(text: string, i: nat, u: string)
    requires Occurs(text, i, u) && Tight(u) && Settled(text, i + |u|)
    ensures Settled(text, i)
  {
    if u != "" {
      OccursAt(text, i, u, 0);
    }
  }

  lemma TightWords(ws: seq<string>)
    requires forall i :: 0 <= i < |ws| ==> Wordy(ws[i])
    ensures Tight(Words(ws)) && (ws != [] ==> Words(ws) != "" && Plain(Words(ws)[0]))
  {
    if ws != [] {
      assert Wordy(ws[0]);
      assert Words(ws)[0] == ws[0][0];
    }
  }

  lemma TightRedirs(fs: seq<File<string>>)
    ensures Tight(RedirTexts(fs)) && (fs != [] ==> RedirTexts(fs) != "" && RedirTexts(fs)[0] in "<>")
  {
    if fs != [] {
      assert RedirTexts(fs)[0] == RedirText(fs[0])[0];
    }
  }

  lemma {:induction false} TightPrint(c: Cmd<string>, level: Level)
    requires Printable(c)
    ensures Tight(Print(c, level))
    decreases Size(c), Rank(c, level)
  {
    match level
    case InLine => TightPrint(if c.List? then c.left else c, InBacks);
    case InBacks => if c.Back? { TightPrint(c.cmd, InBacks); } else { TightPrint(c, InPipe); }
    case InPipe => TightPrint(if c.Pipe? then c.left else c, InSimple);
    case InSimple =>
      if c.Exec? {
        TightWords(c.words);
      } else if c.Redir? {
        TightPrint(c.cmd, InSimple);
      }
  }

  // ----- parsing what was printed

  /** A word and a space, and then `rest`. */
  lemma OneWord(text: string, i: nat, w: string, rest: string)
    requires Occurs(text, i, (w + " ") + rest) && Wordy(w) && Tight(rest) && Settled(text, i + |w| + 1 + |rest|)
    ensures var next := i + |w| + 1;
            && GetToken(text, i) == Token(Word, Span(i, i + |w|), next) && TextOf(text, Span(i, i + |w|)) == w
            && i < |text| && Plain(text[i]) && Settled(text, i)
            && Occurs(text, next, rest) && Settled(text, next)
  {
    hide GetToken, Occurs, TextOf;
    OccursBoth(text, i, w + " ", rest);
    TightStart(text, i + |w| + 1, rest);
    WordAt(text, i, w);
  }

  /** A sign and a space, and then `rest`. */
  lemma OneSign(text: string, i: nat, c: char, rest: string)
    requires Occurs(text, i, [c, ' '] + rest) && Symbol(c) && Tight(rest) && Settled(text, i + 2 + |rest|)
    ensures GetToken(text, i) == Token(Sign(c), Span(i, i + 1), i + 2) && i < |text| && text[i] == c && Settled(text, i)
    ensures Occurs(text, i + 2, rest) && Settled(text, i + 2)
  {
    hide GetToken, Occurs;
    OccursBoth(text, i, [c, ' '], rest);
    TightStart(text, i + 2, rest);
    SignAt(text, i, c);
  }

  /** The redirections printed at `i`. */
  function FileSpans(i: nat, fs: seq<File<string>>): seq<File<Span>>
    decreases |fs|
  {
    if fs == [] then []
    else [File(Span(i + 2, i + 2 + |fs[0].name|), fs[0].output)] + FileSpans(i + 3 + |fs[0].name|, fs[1..])
  }

  lemma RedirTextsParts(fs: seq<File<string>>)
    requires fs != []
    ensures var sign := if fs[0].output then '>' else '<';
            RedirTexts(fs) == [sign, ' '] + ((fs[0].name + " ") + RedirTexts(fs[1..]))
  {
    hide RedirTexts;
    var sign := if fs[0].output then '>' else '<';
    assert RedirText(fs[0]) == [sign, ' '] + (fs[0].name + " ");
    assert RedirTexts(fs) == RedirText(fs[0]) + RedirTexts(fs[1..]) by { RedirTextsHead(fs); }
    Assoc([sign, ' '], fs[0].name + " ", RedirTexts(fs[1..]));
  }

  lemma RedirTextsHead(fs: seq<File<string>>)
    requires fs != []
    ensures RedirTexts(fs) == RedirText(fs[0]) + RedirTexts(fs[1..])
  {}

  /** The first of some redirections. */
  lemma OneRedir(text: string, i: nat, fs: seq<File<string>>)
    requires fs != [] && Occurs(text, i, RedirTexts(fs)) && AllNamed(fs) && Settled(text, i + |RedirTexts(fs)|)
    ensures var f, next := fs[0], i + 3 + |fs[0].name|;
            && Peek(text, i, "<>")
            && GetToken(text, i) == Token(Sign(if f.output then '>' else '<'), Span(i, i + 1), i + 2)
            && GetToken(text, i + 2) == Token(Word, Span(i + 2, i + 2 + |f.name|), next)
            && TextOf(text, Span(i + 2, i + 2 + |f.name|)) == f.name
            && Occurs(text, next, RedirTexts(fs[1..])) && next + |RedirTexts(fs[1..])| == i + |RedirTexts(fs)|
  {
    hide GetToken, SkipSpace, Peek, RedirTexts, Occurs, TextOf, Settled;
    var f := fs[0];
    var sign := if f.output then '>' else '<';
    RedirTextsParts(fs);
    TightRedirs(fs[1..]);
    assert Wordy(f.name);
    OneSign(text, i, sign, (f.name + " ") + RedirTexts(fs[1..]));
    OneWord(text, i + 2, f.name, RedirTexts(fs[1..]));
    PeekSettled(text, i, "<>");
  }

  lemma {:induction false} RedirsRound(text: string, i: nat, fs: seq<File<string>>, done: seq<File<Span>>)
    requires Occurs(text, i, RedirTexts(fs)) && AllNamed(fs)
    requires var j := i + |RedirTexts(fs)|; Settled(text, j) && !Peek(text, j, "<>")
    ensures Redirs(text, i, done) == Ok(At(done + FileSpans(i, fs), i + |RedirTexts(fs)|))
    decreases |fs|
  {
    hide GetToken, SkipSpace, Peek, Occurs, TextOf, Settled, RedirTexts, FileSpans, Redirs, Wordy;
    var j := i + |RedirTexts(fs)|;
    FileSpansHead(i, fs);
    if fs == [] {
      NoRedirTexts(fs);
      RedirsEnd(text, i, done);
      assert done + [] == done;
    } else {
      var f, next := fs[0], i + 3 + |fs[0].name|;
      var span := File(Span(i + 2, i + 2 + |f.name|), f.output);
      OneRedir(text, i, fs);
      RedirsStep(text, i, done, span, next);
      RedirsRound(text, next, fs[1..], done + [span]);
      assert done + [span] + FileSpans(next, fs[1..]) == done + ([span] + FileSpans(next, fs[1..]));
    }
  }

  lemma FileSpansHead(i: nat, fs: seq<File<string>>)
    ensures fs == [] ==> FileSpans(i, fs) == []
    ensures fs != [] ==> FileSpans(i, fs) == [File(Span(i + 2, i + 2 + |fs[0].name|), fs[0].output)] + FileSpans(i + 3 + |fs[0].name|, fs[1..])
  {}

  lemma RedirsEnd(text: string, i: nat, done: seq<File<Span>>)
    requires Settled(text, i) && !Peek(text, i, "<>")
    ensures Redirs(text, i, done) == Ok(At(done, i))
  {
    PeekSettled(text, i, "<>");
  }

  lemma RedirsStep(text: string, i: nat, done: seq<File<Span>>, f: File<Span>, next: nat)
    requires i + 2 <= |text| && Peek(text, i, "<>")
    requires GetToken(text, i) == Token(Sign(if f.output then '>' else '<'), Span(i, i + 1), i + 2)
    requires GetToken(text, i + 2) == Token(Word, f.name, next)
    ensures next <= |text| && Redirs(text, i, done) == Redirs(text, next, done + [f])
  {
    hide GetToken, Peek;
  }

  lemma NoRedirTexts(fs: seq<File<string>>)
    requires fs == []
    ensures RedirTexts(fs) == ""
  {}

  lemma {:induction false} FilesRead(text: string, i: nat, fs: seq<File<string>>)
    requires Occurs(text, i, RedirTexts(fs)) && AllNamed(fs) && Settled(text, i + |RedirTexts(fs)|)
    ensures FilesOf(text, FileSpans(i, fs)) == fs
    decreases |fs|
  {
    hide GetToken, SkipSpace, Peek, Occurs, TextOf, Settled, RedirTexts;
    if fs != [] {
      var next := i + 3 + |fs[0].name|;
      OneRedir(text, i, fs);
      FilesRead(text, next, fs[1..]);
      var span := File(Span(i + 2, i + 2 + |fs[0].name|), fs[0].output);
      assert FilesOf(text, [span] + FileSpans(next, fs[1..])) == [FileOf(text, span)] + FilesOf(text, FileSpans(next, fs[1..]));
    }
  }

  function WordSpans(i: nat, ws: seq<string>): seq<Span>
    decreases |ws|
  {
    if ws == [] then [] else [Span(i, i + |ws[0]|)] + WordSpans(i + |ws[0]| + 1, ws[1..])
  }

  predicate Follows(text: string, j: nat, level: Level) {
    && Settled(text, j)
    && (j < |text| ==> text[j] in (match level case InLine => ")" case InSimple => "|)&;" case _ => ")&;"))
  }

  lemma WordsParts(ws: seq<string>, tail: string)
    requires ws != []
    ensures Words(ws) + tail == (ws[0] + " ") + (Words(ws[1..]) + tail)
    ensures |Words(ws)| == |ws[0]| + 1 + |Words(ws[1..])|
  {
    hide Words;
    assert Words(ws) == (ws[0] + " ") + Words(ws[1..]) by { WordsHead(ws); }
    Assoc(ws[0] + " ", Words(ws[1..]), tail);
  }

  lemma WordsHead(ws: seq<string>)
    requires ws != []
    ensures Words(ws) == (ws[0] + " ") + Words(ws[1..])
  {}

  lemma TightBoth(u: string, v: string)
    requires Tight(u) && Tight(v)
    ensures Tight(u + v)
  {}

  /** The first of some words, with some redirections behind them all. */
  lemma FirstWord(text: string, i: nat, ws: seq<string>, tail: string)
    requires ws != [] && AllWordy(ws) && Tight(tail) && Occurs(text, i, Words(ws) + tail) && Settled(text, i + |Words(ws)| + |tail|)
    ensures var w, next := ws[0], i + |ws[0]| + 1;
            && GetToken(text, i) == Token(Word, Span(i, i + |w|), next) && TextOf(text, Span(i, i + |w|)) == w
            && i < |text| && Plain(text[i]) && Settled(text, i)
            && Occurs(text, next, Words(ws[1..]) + tail) && Settled(text, next)
            && next + |Words(ws[1..])| == i + |Words(ws)|
  {
    hide GetToken, SkipSpace, Peek, Occurs, TextOf, Settled, Words, Tight;
    WordsParts(ws, tail);
    TightWords(ws[1..]);
    TightBoth(Words(ws[1..]), tail);
    assert Wordy(ws[0]);
    OneWord(text, i, ws[0], Words(ws[1..]) + tail);
  }

  /** At a word there is no redirection, no block and no end of the words. */
  lemma AtWord(text: string, i: nat, done: seq<File<Span>>)
    requires i < |text| && Plain(text[i]) && Settled(text, i)
    ensures Redirs(text, i, done) == Ok(At(done, i)) && !Peek(text, i, "(") && !Peek(text, i, "|)&;")
  {
    PeekSettled(text, i, "<>");
  }

  lemma AtEndOfArgs(text: string, j: nat)
    requires Follows(text, j, InSimple)
    ensures Peek(text, j, "|)&;") || GetToken(text, j).kind == End
    ensures SkipSpace(text, j) == j && !Peek(text, j, "<>") && !Peek(text, j, "(")
  {
    PeekSettled(text, j, "|)&;");
  }

  lemma NoMoreArgs(text: string, j: nat, words: seq<Span>, files: seq<File<Span>>)
    requires Follows(text, j, InSimple)
    ensures Args(text, j, words, files) == Ok(At(Wrap(Exec(words), files), j))
  {
    hide GetToken, SkipSpace, Peek, Redirs, Wrap;
    AtEndOfArgs(text, j);
  }

  /** Words and then redirections, with the redirections read once the words are. */
  lemma {:induction false} ArgsRound(text: string, i: nat, ws: seq<string>, fs: seq<File<string>>, words: seq<Span>, done: seq<File<Span>>)
    requires ws != [] && |words| + |ws| < MAXARGS && AllWordy(ws) && AllNamed(fs) && Occurs(text, i, Words(ws) + RedirTexts(fs))
    requires Follows(text, i + |Words(ws)| + |RedirTexts(fs)|, InSimple)
    ensures var m := i + |Words(ws)|;
            Args(text, i, words, done) == Ok(At(Wrap(Exec(words + WordSpans(i, ws)), done + FileSpans(m, fs)), m + |RedirTexts(fs)|))
    decreases |ws|
  {
    hide GetToken, SkipSpace, Peek, Redirs, Occurs, TextOf, Settled, Words, RedirTexts, Wordy, FileSpans, Wrap;
    var next, m := i + |ws[0]| + 1, i + |Words(ws)|;
    var j := m + |RedirTexts(fs)|;
    var span, rest := Span(i, i + |ws[0]|), ws[1..];
    TightRedirs(fs);
    FirstWord(text, i, ws, RedirTexts(fs));
    AtWord(text, i, done);
    if rest == [] {
      LastWord(text, next, rest, RedirTexts(fs));
      AtEndOfArgs(text, j);
      RedirsRound(text, next, fs, done);
      NoMoreArgs(text, j, words + [span], done + FileSpans(next, fs));
      assert WordSpans(i, ws) == [span];
    } else {
      FirstWord(text, next, rest, RedirTexts(fs));
      AtWord(text, next, done);
      ArgsRound(text, next, rest, fs, words + [span], done);
      assert words + [span] + WordSpans(next, rest) == words + ([span] + WordSpans(next, rest));
    }
  }

  lemma LastWord(text: string, i: nat, ws: seq<string>, tail: string)
    requires ws == [] && Occurs(text, i, Words(ws) + tail)
    ensures Occurs(text, i, tail) && |Words(ws)| == 0
  {
    assert Words(ws) + tail == tail;
  }

  lemma {:induction false} WordsRead(text: string, i: nat, ws: seq<string>, tail: string)
    requires AllWordy(ws) && Tight(tail) && Occurs(text, i, Words(ws) + tail) && Settled(text, i + |Words(ws)| + |tail|)
    ensures TextsOf(text, WordSpans(i, ws)) == ws
    decreases |ws|
  {
    hide GetToken, Occurs, TextOf, Settled, Words, Tight, Wordy;
    if ws != [] {
      var next := i + |ws[0]| + 1;
      FirstWord(text, i, ws, tail);
      WordsRead(text, next, ws[1..], tail);
      var span := Span(i, i + |ws[0]|);
      assert TextsOf(text, [span] + WordSpans(next, ws[1..])) == [TextOf(text, span)] + TextsOf(text, WordSpans(next, ws[1..]));
    }
  }

  /** A parse that stopped at `j` with the tree `c`. */
  ghost predicate Gives(text: string, r: Parse<Cmd<Span>>, c: Cmd<string>, j: nat) {
    r.Ok? && r.value.next == j && Read(text, r.value.value) == c
  }

  lemma ExecRound(text: string, i: nat, ws: seq<string>, fs: seq<File<string>>)
    requires |ws| < MAXARGS && AllWordy(ws) && AllNamed(fs) && Occurs(text, i, Words(ws) + RedirTexts(fs))
    requires Follows(text, i + |Words(ws)| + |RedirTexts(fs)|, InSimple)
    ensures Gives(text, Simple(text, i), Wrap(Exec(ws), fs), i + |Words(ws)| + |RedirTexts(fs)|)
  {
    hide Gives, Simple, Follows, Occurs, Words, RedirTexts, AllWordy, AllNamed;
    if ws == [] {
      NoWordsRound(text, i, ws, fs);
    } else {
      SomeWordsRound(text, i, ws, fs);
    }
  }

  lemma NoWordsRound(text: string, i: nat, ws: seq<string>, fs: seq<File<string>>)
    requires ws == [] && AllNamed(fs) && Occurs(text, i, Words(ws) + RedirTexts(fs))
    requires Follows(text, i + |Words(ws)| + |RedirTexts(fs)|, InSimple)
    ensures Gives(text, Simple(text, i), Wrap(Exec(ws), fs), i + |Words(ws)| + |RedirTexts(fs)|)
  {
    hide GetToken, SkipSpace, Peek, Redirs, Args, Occurs, TextOf, Settled, Words, RedirTexts, Wordy, FileSpans, WordSpans, Wrap, Tight, AllNamed;
    var m := i + |Words(ws)|;
    var j := m + |RedirTexts(fs)|;
    var words, files := WordSpans(i, ws), FileSpans(m, fs);
    TightRedirs(fs);
    OccursBoth(text, i, Words(ws), RedirTexts(fs));
    WordsRead(text, i, ws, RedirTexts(fs));
    FilesRead(text, m, fs);
    ReadWrap(text, Exec(words), files);
    AtEndOfArgs(text, j);
    LastWord(text, i, ws, RedirTexts(fs));
    RedirsRound(text, i, fs, []);
    NoBlock(text, i, fs);
    assert [] + files == files && words == [] by { NoWords(i, ws); }
    NoMoreArgs(text, j, [], files);
  }

  lemma SomeWordsRound(text: string, i: nat, ws: seq<string>, fs: seq<File<string>>)
    requires ws != [] && |ws| < MAXARGS && AllWordy(ws) && AllNamed(fs) && Occurs(text, i, Words(ws) + RedirTexts(fs))
    requires Follows(text, i + |Words(ws)| + |RedirTexts(fs)|, InSimple)
    ensures Gives(text, Simple(text, i), Wrap(Exec(ws), fs), i + |Words(ws)| + |RedirTexts(fs)|)
  {
    hide GetToken, SkipSpace, Peek, Redirs, Args, Occurs, TextOf, Settled, Words, RedirTexts, Wordy, FileSpans, WordSpans, Wrap, Tight, AllWordy, AllNamed;
    var m := i + |Words(ws)|;
    var words, files := WordSpans(i, ws), FileSpans(m, fs);
    TightRedirs(fs);
    OccursBoth(text, i, Words(ws), RedirTexts(fs));
    WordsRead(text, i, ws, RedirTexts(fs));
    FilesRead(text, m, fs);
    ReadWrap(text, Exec(words), files);
    FirstWord(text, i, ws, RedirTexts(fs));
    AtWord(text, i, []);
    ArgsRound(text, i, ws, fs, [], []);
    assert [] + words == words && [] + files == files;
  }

  lemma NoWords(i: nat, ws: seq<string>)
    requires ws == []
    ensures WordSpans(i, ws) == []
  {}

  lemma NoBlock(text: string, i: nat, fs: seq<File<string>>)
    requires Occurs(text, i, RedirTexts(fs)) && Follows(text, i + |RedirTexts(fs)|, InSimple)
    ensures !Peek(text, i, "(")
  {
    TightRedirs(fs);
    TightStart(text, i, RedirTexts(fs));
    PeekSettled(text, i, "(");
    if fs != [] {
      OccursAt(text, i, RedirTexts(fs), 0);
    }
  }

  /** A command in parentheses, with redirections behind it. */
  lemma BlockRound(text: string, i: nat, body: string, c: Cmd<string>, fs: seq<File<string>>)
    requires Tight(body) && AllNamed(fs) && Occurs(text, i, "( " + (body + (") " + RedirTexts(fs))))
    requires Follows(text, i + 4 + |body| + |RedirTexts(fs)|, InSimple)
    requires i + 2 <= |text| && Gives(text, Line(text, i + 2), c, i + 2 + |body|)
    ensures Gives(text, Simple(text, i), Wrap(c, fs), i + 4 + |body| + |RedirTexts(fs)|)
  {
    hide GetToken, SkipSpace, Peek, Redirs, Args, Occurs, Settled, RedirTexts, Line, Wrap, Read, Tight, AllNamed, FileSpans;
    var k := i + 2 + |body|;
    TightRedirs(fs);
    TightSign(')', RedirTexts(fs));
    TightBoth(body, ") " + RedirTexts(fs));
    OneSign(text, i, '(', body + (") " + RedirTexts(fs)));
    OccursBoth(text, i + 2, body, ") " + RedirTexts(fs));
    OneSign(text, k, ')', RedirTexts(fs));
    PeekSettled(text, i, "(");
    PeekSettled(text, k, ")");
    AtEndOfArgs(text, k + 2 + |RedirTexts(fs)|);
    RedirsRound(text, k + 2, fs, []);
    FilesRead(text, k + 2, fs);
    assert [] + FileSpans(k + 2, fs) == FileSpans(k + 2, fs);
    ReadWrap(text, Line(text, i + 2).value.value, FileSpans(k + 2, fs));
  }

  lemma TightSign(c: char, rest: string)
    requires Symbol(c)
    ensures Tight([c, ' '] + rest)
  {}

  /** A pipeline was read at `i`, and counting ampersands from there reaches `j` with
      the tree `c`. */
  ghost predicate BacksTo(text: string, i: nat, c: Cmd<string>, j: nat)
    requires i <= |text| && j <= |text|
  {
    && Piped(text, i).Ok?
    && var p := Piped(text, i).value;
       exists d :: Read(text, d) == c && Ampersands(text, p.next, p.value) == Ampersands(text, j, d)
  }

  lemma BacksStart(text: string, i: nat, c: Cmd<string>, j: nat)
    requires i <= |text| && j <= |text| && Gives(text, Piped(text, i), c, j)
    ensures BacksTo(text, i, c, j)
  {}

  lemma BacksMore(text: string, i: nat, c: Cmd<string>, k: nat)
    requires i <= |text| && k + 2 <= |text| && BacksTo(text, i, c, k) && Occurs(text, k, "& " + "") && Settled(text, k + 2)
    ensures BacksTo(text, i, Back(c), k + 2)
  {
    hide Piped, GetToken, SkipSpace, Peek, Occurs, Settled;
    var p := Piped(text, i).value;
    var d :| Read(text, d) == c && Ampersands(text, p.next, p.value) == Ampersands(text, k, d);
    OneSign(text, k, '&', "");
    PeekSettled(text, k, "&");
    assert Read(text, Back(d)) == Back(c);
  }

  /** No further ampersand: what was counted is the tree. */
  lemma BacksEnd(text: string, i: nat, c: Cmd<string>, j: nat)
    requires i <= |text| && j <= |text| && BacksTo(text, i, c, j) && Settled(text, j) && (j < |text| ==> text[j] != '&')
    ensures Piped(text, i).Ok?
    ensures var p := Piped(text, i).value; var r := Ampersands(text, p.next, p.value); Read(text, r.value) == c && r.next == j
  {
    hide Piped, GetToken, SkipSpace, Peek;
    PeekSettled(text, j, "&");
  }

  lemma LineOne(text: string, i: nat, c: Cmd<string>, j: nat)
    requires i <= |text| && j <= |text| && BacksTo(text, i, c, j) && Follows(text, j, InLine)
    ensures Gives(text, Line(text, i), c, j)
  {
    hide Piped, GetToken, SkipSpace, Peek, Ampersands, BacksTo, Read;
    BacksEnd(text, i, c, j);
    PeekSettled(text, j, ";");
  }

  lemma LineTwo(text: string, i: nat, l: Cmd<string>, k: nat, rest: string, r: Cmd<string>)
    requires i <= |text| && k <= |text| && BacksTo(text, i, l, k) && Occurs(text, k, "; " + rest) && Tight(rest) && Settled(text, k + 2 + |rest|)
    requires k + 2 <= |text| && Gives(text, Line(text, k + 2), r, k + 2 + |rest|)
    ensures Gives(text, Line(text, i), List(l, r), k + 2 + |rest|)
  {
    hide Piped, GetToken, SkipSpace, Peek, Ampersands, BacksTo, Occurs, Settled, Tight;
    OneSign(text, k, ';', rest);
    BacksEnd(text, i, l, k);
    PeekSettled(text, k, ";");
  }

  lemma PipeOne(text: string, i: nat, c: Cmd<string>, j: nat)
    requires i <= |text| && j <= |text| && Gives(text, Simple(text, i), c, j) && Follows(text, j, InPipe)
    ensures Gives(text, Piped(text, i), c, j)
  {
    hide Simple, GetToken, SkipSpace, Peek, Read;
    PeekSettled(text, j, "|");
  }

  lemma PipeTwo(text: string, i: nat, l: Cmd<string>, k: nat, rest: string, r: Cmd<string>)
    requires i <= |text| && k <= |text| && Gives(text, Simple(text, i), l, k) && Occurs(text, k, "| " + rest) && Tight(rest)
    requires Settled(text, k + 2 + |rest|) && k + 2 <= |text| && Gives(text, Piped(text, k + 2), r, k + 2 + |rest|)
    ensures Gives(text, Piped(text, i), Pipe(l, r), k + 2 + |rest|)
  {
    hide Simple, GetToken, SkipSpace, Peek, Occurs, Settled, Tight;
    OneSign(text, k, '|', rest);
    PeekSettled(text, k, "|");
  }

  ghost predicate Parses(text: string, i: nat, c: Cmd<string>, level: Level, j: nat)
    requires i <= |text| && j <= |text|
  {
    match level
    case InLine => Gives(text, Line(text, i), c, j)
    case InBacks => BacksTo(text, i, c, j)
    case InPipe => Gives(text, Piped(text, i), c, j)
    case InSimple => Gives(text, Simple(text, i), c, j)
  }

  ghost predicate Printed(text: string, i: nat, c: Cmd<string>, level: Level) {
    Printable(c) && Occurs(text, i, Print(c, level)) && Follows(text, i + |Print(c, level)|, level)
  }

  lemma {:induction false} Round(text: string, i: nat, c: Cmd<string>, level: Level)
    requires Printed(text, i, c, level)
    ensures Parses(text, i, c, level, i + |Print(c, level)|)
    decreases Size(c), Rank(c, level)
  {
    hide Occurs, Settled, Follows, BacksTo, Gives, Words, RedirTexts;
    match level
    case InLine => RoundLine(text, i, c);
    case InBacks => RoundBacks(text, i, c);
    case InPipe => RoundPipe(text, i, c);
    case InSimple => RoundSimple(text, i, c);
  }

  lemma OccursFits(text: string, i: nat, u: string)
    requires Occurs(text, i, u)
    ensures i + |u| <= |text|
  {}

  lemma PrintLine(c: Cmd<string>)
    ensures c.List? ==> Print(c, InLine) == Print(c.left, InBacks) + ("; " + Print(c.right, InLine))
    ensures !c.List? ==> Print(c, InLine) == Print(c, InBacks)
  {
    if c.List? {
      Assoc(Print(c.left, InBacks), "; ", Print(c.right, InLine));
    }
  }

  lemma PrintBacks(c: Cmd<string>)
    ensures c.Back? ==> Print(c, InBacks) == Print(c.cmd, InBacks) + "& "
    ensures !c.Back? ==> Print(c, InBacks) == Print(c, InPipe)
  {}

  lemma PrintPipe(c: Cmd<string>)
    ensures c.Pipe? ==> Print(c, InPipe) == Print(c.left, InSimple) + ("| " + Print(c.right, InPipe))
    ensures !c.Pipe? ==> Print(c, InPipe) == Print(c, InSimple)
  {
    if c.Pipe? {
      Assoc(Print(c.left, InSimple), "| ", Print(c.right, InPipe));
    }
  }

  lemma PrintSimple(c: Cmd<string>)
    requires !c.Redir?
    ensures Print(c, InSimple) == if c.Exec? then Words(c.words) else "( " + Print(c, InLine) + ") "
  {}

  /** A place that is followed by a sign. */
  lemma FollowedBy(text: string, k: nat, c: char, level: Level)
    requires k < |text| && text[k] == c && (c == '|' || c == ')' || c == '&' || c == ';')
    requires match level case InLine => c == ')' case InSimple => true case _ => c != '|'
    ensures Follows(text, k, level)
  {}

  lemma FollowsSettled(text: string, k: nat, level: Level)
    requires Follows(text, k, level)
    ensures Settled(text, k)
  {}

  lemma FollowsMore(text: string, k: nat, level: Level, level': Level)
    requires Follows(text, k, level) && (level == InLine || level' == InSimple || (level' == InPipe && level == InBacks))
    ensures Follows(text, k, level')
  {}

  lemma {:induction false} RoundLine(text: string, i: nat, c: Cmd<string>)
    requires Printed(text, i, c, InLine)
    ensures Parses(text, i, c, InLine, i + |Print(c, InLine)|)
    decreases Size(c), Rank(c, InLine), 0
  {
    hide Occurs, Settled, Follows, BacksTo, Gives, Line, Print, Tight;
    var j := i + |Print(c, InLine)|;
    OccursFits(text, i, Print(c, InLine));
    PrintLine(c);
    if c.List? {
      var u, v := Print(c.left, InBacks), Print(c.right, InLine);
      OccursBoth(text, i, u, "; " + v);
      TightPrint(c.right, InLine);
      FollowsSettled(text, j, InLine);
      OneSign(text, i + |u|, ';', v);
      FollowedBy(text, i + |u|, ';', InBacks);
      Round(text, i, c.left, InBacks);
      Round(text, i + |u| + 2, c.right, InLine);
      LineTwo(text, i, c.left, i + |u|, v, c.right);
    } else {
      FollowsMore(text, j, InLine, InBacks);
      Round(text, i, c, InBacks);
      LineOne(text, i, c, j);
    }
  }

  lemma {:induction false} RoundBacks(text: string, i: nat, c: Cmd<string>)
    requires Printed(text, i, c, InBacks)
    ensures Parses(text, i, c, InBacks, i + |Print(c, InBacks)|)
    decreases Size(c), Rank(c, InBacks), 0
  {
    hide Occurs, Settled, Follows, BacksTo, Gives, Piped, Print;
    var j := i + |Print(c, InBacks)|;
    OccursFits(text, i, Print(c, InBacks));
    PrintBacks(c);
    if c.Back? {
      var u := Print(c.cmd, InBacks);
      assert "& " == "& " + "";
      OccursBoth(text, i, u, "& ");
      FollowsSettled(text, j, InBacks);
      OneSign(text, i + |u|, '&', "");
      FollowedBy(text, i + |u|, '&', InBacks);
      Round(text, i, c.cmd, InBacks);
      BacksMore(text, i, c.cmd, i + |u|);
    } else {
      FollowsMore(text, j, InBacks, InPipe);
      Round(text, i, c, InPipe);
      BacksStart(text, i, c, j);
    }
  }

  lemma {:induction false} RoundPipe(text: string, i: nat, c: Cmd<string>)
    requires Printed(text, i, c, InPipe)
    ensures Parses(text, i, c, InPipe, i + |Print(c, InPipe)|)
    decreases Size(c), Rank(c, InPipe), 0
  {
    hide Occurs, Settled, Follows, Gives, Piped, Simple, Print, Tight;
    var j := i + |Print(c, InPipe)|;
    OccursFits(text, i, Print(c, InPipe));
    PrintPipe(c);
    if c.Pipe? {
      var u, v := Print(c.left, InSimple), Print(c.right, InPipe);
      OccursBoth(text, i, u, "| " + v);
      TightPrint(c.right, InPipe);
      FollowsSettled(text, j, InPipe);
      OneSign(text, i + |u|, '|', v);
      FollowedBy(text, i + |u|, '|', InSimple);
      Round(text, i, c.left, InSimple);
      Round(text, i + |u| + 2, c.right, InPipe);
      PipeTwo(text, i, c.left, i + |u|, v, c.right);
    } else {
      FollowsMore(text, j, InPipe, InSimple);
      Round(text, i, c, InSimple);
      PipeOne(text, i, c, j);
    }
  }

  lemma {:induction false} RoundSimple(text: string, i: nat, c: Cmd<string>)
    requires Printed(text, i, c, InSimple)
    ensures Parses(text, i, c, InSimple, i + |Print(c, InSimple)|)
    decreases Size(c), Rank(c, InSimple), 0
  {
    hide Occurs, Settled, Follows, Gives, Simple, Words, RedirTexts, Wrap, Tight, Files, Print;
    var base, fs := Base(c), Files(c);
    WrapBase(c);
    PrintSimple(base);
    if base.Exec? {
      ExecRound(text, i, base.words, fs);
    } else {
      var body := Print(base, InLine);
      ParenParts(body, RedirTexts(fs));
      TightPrint(base, InLine);
      BlockPlaces(text, i, body, fs);
      Round(text, i + 2, base, InLine);
      BlockRound(text, i, body, base, fs);
    }
  }

  /** What is inside the parentheses, and that a parenthesis follows it. */
  lemma BlockPlaces(text: string, i: nat, body: string, fs: seq<File<string>>)
    requires Tight(body) && Occurs(text, i, "( " + (body + (") " + RedirTexts(fs))))
    requires Follows(text, i + 4 + |body| + |RedirTexts(fs)|, InSimple)
    ensures i + 2 <= |text| && Occurs(text, i + 2, body) && Follows(text, i + 2 + |body|, InLine)
  {
    hide GetToken, Occurs, Settled, Follows, RedirTexts, Tight;
    var tail := ") " + RedirTexts(fs);
    FollowsSettled(text, i + 4 + |body| + |RedirTexts(fs)|, InSimple);
    TightRedirs(fs);
    TightSign(')', RedirTexts(fs));
    TightBoth(body, tail);
    OneSign(text, i, '(', body + tail);
    OccursBoth(text, i + 2, body, tail);
    OneSign(text, i + 2 + |body|, ')', RedirTexts(fs));
    FollowedBy(text, i + 2 + |body|, ')', InLine);
    OccursFits(text, i + 2, body);
  }

  lemma ParenParts(body: string, tail: string)
    ensures ("( " + body + ") ") + tail == "( " + (body + (") " + tail))
  {}

  /** Parsing undoes printing: every printable command is what its text parses to. */
  lemma ParsePrinted(c: Cmd<string>)
    requires Printable(c)
    ensures Command(Print(c, InLine)).Ok? && Read(Print(c, InLine), Command(Print(c, InLine)).value) == c
  {
    hide Line, Print;
    var text := Print(c, InLine);
    assert text[0..|text|] == text;
    Round(text, 0, c, InLine);
  }
}
