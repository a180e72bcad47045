/** The words of a parsed command line, and how `nulterminate` makes strings of them
    in the buffer they were read from. */
module ShellWords {
  import opened ShellLexer
  import opened ShellParser
  import opened ShellPrinter

  /** Every word in the tree is a maximal run of word characters, and no command has
      too many. */
  predicate AllWords(text: string, c: Cmd<Span>) {
    match c
    case Exec(ws) => |ws| < MAXARGS && forall i :: 0 <= i < |ws| ==> WordSpan(text, ws[i])
    case Redir(d, f, _) => AllWords(text, d) && WordSpan(text, f)
    case Pipe(l, r) => AllWords(text, l) && AllWords(text, r)
    case List(l, r) => AllWords(text, l) && AllWords(text, r)
    case Back(d) => AllWords(text, d)
  }

  predicate AllFiles(text: string, fs: seq<File<Span>>) {
    forall i :: 0 <= i < |fs| ==> WordSpan(text, fs[i].name)
  }

  lemma {:induction false} WrapWords(text: string, c: Cmd<Span>, fs: seq<File<Span>>)
    requires AllWords(text, c) && AllFiles(text, fs)
    ensures AllWords(text, Wrap(c, fs))
  {
    if fs != [] {
      WrapWords(text, c, fs[..|fs| - 1]);
    }
  }

  lemma {:induction false} RedirsWords(text: string, i: nat, fs: seq<File<Span>>)
    requires i <= |text| && AllFiles(text, fs)
    ensures Redirs(text, i, fs).Ok? ==> AllFiles(text, Redirs(text, i, fs).value.value)
    decreases |text| - i
  {
    hide GetToken, Peek, SkipSpace, WordSpan;
    if Peek(text, i, "<>") {
      Skipped(text, i, "<>");
      var tok := GetToken(text, i);
      var file := GetToken(text, tok.next);
      if file.kind == Word {
        WordTokens(text, tok.next);
        RedirsWords(text, file.next, fs + [File(file.span, tok.kind != Sign('<'))]);
      }
    }
  }

  lemma {:induction false} ArgsWords(text: string, i: nat, words: seq<Span>, fs: seq<File<Span>>)
    requires i <= |text| && AllWords(text, Exec(words)) && AllFiles(text, fs)
    ensures Args(text, i, words, fs).Ok? ==> AllWords(text, Args(text, i, words, fs).value.value)
    decreases |text| - i
  {
    hide GetToken, Peek, SkipSpace, WordSpan, Redirs;
    WrapWords(text, Exec(words), fs);
    var tok := GetToken(text, i);
    if !(Peek(text, i, "|)&;") || tok.kind == End) && tok.kind == Word && |words| + 1 < MAXARGS {
      EndStays(text, i);
      WordTokens(text, i);
      RedirsWords(text, tok.next, fs);
      var more := Redirs(text, tok.next, fs);
      if more.Ok? {
        ArgsWords(text, more.value.next, words + [tok.span], more.value.value);
      }
    }
  }

  lemma {:induction false} SimpleWords(text: string, i: nat)
    requires i <= |text|
    ensures Simple(text, i).Ok? ==> AllWords(text, Simple(text, i).value.value)
    decreases |text| - i, 1
  {
    hide GetToken, Peek, SkipSpace, WordSpan, Redirs, Args, Block;
    if Peek(text, i, "(") {
      BlockWords(text, i);
    } else {
      RedirsWords(text, i, []);
      var rs := Redirs(text, i, []);
      if rs.Ok? {
        ArgsWords(text, rs.value.next, [], rs.value.value);
      }
    }
  }

  lemma {:induction false} BlockWords(text: string, i: nat)
    requires i <= |text|
    ensures Block(text, i).Ok? ==> AllWords(text, Block(text, i).value.value)
    decreases |text| - i, 0
  {
    hide GetToken, Peek, SkipSpace, WordSpan, Redirs, Line;
    if Peek(text, i, "(") {
      Skipped(text, i, "(");
      LineWords(text, GetToken(text, i).next);
      var inner := Line(text, GetToken(text, i).next);
      if inner.Ok? {
        var at := GetToken(text, inner.value.next).next;
        RedirsWords(text, at, []);
        var rs := Redirs(text, at, []);
        if rs.Ok? {
          WrapWords(text, inner.value.value, rs.value.value);
        }
      }
    }
  }

  lemma {:induction false} PipedWords(text: string, i: nat)
    requires i <= |text|
    ensures Piped(text, i).Ok? ==> AllWords(text, Piped(text, i).value.value)
    decreases |text| - i, 2
  {
    hide GetToken, Peek, SkipSpace, WordSpan, Simple;
    SimpleWords(text, i);
    var first := Simple(text, i);
    if first.Ok? && Peek(text, first.value.next, "|") {
      Skipped(text, first.value.next, "|");
      PipedWords(text, GetToken(text, first.value.next).next);
    }
  }

  lemma {:induction false} AmpersandsWords(text: string, i: nat, c: Cmd<Span>)
    requires i <= |text| && AllWords(text, c)
    ensures AllWords(text, Ampersands(text, i, c).value)
    decreases |text| - i
  {
    hide GetToken, Peek, SkipSpace, WordSpan;
    if Peek(text, i, "&") {
      Skipped(text, i, "&");
      AmpersandsWords(text, GetToken(text, i).next, Back(c));
    }
  }

  lemma {:induction false} LineWords(text: string, i: nat)
    requires i <= |text|
    ensures Line(text, i).Ok? ==> AllWords(text, Line(text, i).value.value)
    decreases |text| - i, 3
  {
    hide GetToken, Peek, SkipSpace, WordSpan, Piped, Ampersands;
    PipedWords(text, i);
    var first := Piped(text, i);
    if first.Ok? {
      AmpersandsWords(text, first.value.next, first.value.value);
      var cmd := Ampersands(text, first.value.next, first.value.value);
      if Peek(text, cmd.next, ";") {
        Skipped(text, cmd.next, ";");
        LineWords(text, GetToken(text, cmd.next).next);
      }
    }
  }

  // ----- nulterminate

  /** The words of a tree. */
  function Spans(c: Cmd<Span>): set<Span> {
    match c
    case Exec(ws) => SetOf(ws)
    case Redir(d, f, _) => Spans(d) + {f}
    case Pipe(l, r) => Spans(l) + Spans(r)
    case List(l, r) => Spans(l) + Spans(r)
    case Back(d) => Spans(d)
  }

  function SetOf(ws: seq<Span>): set<Span> {
    set s | s in ws
  }

  lemma {:induction false} SpansAreWords(text: string, c: Cmd<Span>, s: Span)
    requires AllWords(text, c) && s in Spans(c)
    ensures WordSpan(text, s)
  {
    match c
    case Exec(ws) =>
    case Redir(d, f, _) => if s != f { SpansAreWords(text, d, s); }
    case Pipe(l, r) => if s in Spans(l) { SpansAreWords(text, l, s); } else { SpansAreWords(text, r, s); }
    case List(l, r) => if s in Spans(l) { SpansAreWords(text, l, s); } else { SpansAreWords(text, r, s); }
    case Back(d) => SpansAreWords(text, d, s);
  }

  /** The buffer with a NUL right after every word in `ss`. */
  ghost predicate Cut(before: seq<char>, after: seq<char>, ss: set<Span>) {
    && |after| == |before|
    && forall k :: 0 <= k < |before| ==> after[k] == if EndsAt(ss, k) then '\0' else before[k]
  }

  predicate EndsAt(ss: set<Span>, k: nat) {
    exists s :: s in ss && s.hi == k
  }

  lemma CutBoth(a: seq<char>, b: seq<char>, c: seq<char>, ss: set<Span>, ts: set<Span>)
    requires Cut(a, b, ss) && Cut(b, c, ts)
    ensures Cut(a, c, ss + ts)
  {
    forall k | 0 <= k < |a|
      ensures EndsAt(ss + ts, k) <==> EndsAt(ss, k) || EndsAt(ts, k)
    {
      if EndsAt(ss, k) {
        var s :| s in ss && s.hi == k;
        assert s in ss + ts;
      }
      if EndsAt(ts, k) {
        var s :| s in ts && s.hi == k;
        assert s in ss + ts;
      }
    }
  }

  /** NUL-terminate the words of a tree, in the buffer that holds the text and the NUL
      at its end. */
  method NulTerminate(buf: array<char>, c: Cmd<Span>)
    requires forall s :: s in Spans(c) ==> s.hi < buf.Length
    modifies buf
    ensures Cut(old(buf[..]), buf[..], Spans(c))
    decreases c
  {
    match c
    case Exec(ws) =>
      NulWords(buf, ws);
    case Redir(d, f, _) =>
      NulTerminate(buf, d);
      ghost var mid := buf[..];
      buf[f.hi] := '\0';
      assert Cut(mid, buf[..], {f}) by { CutOne(mid, buf[..], f); }
      CutBoth(old(buf[..]), mid, buf[..], Spans(d), {f});
    case Pipe(l, r) =>
      NulTerminate(buf, l);
      ghost var mid := buf[..];
      NulTerminate(buf, r);
      CutBoth(old(buf[..]), mid, buf[..], Spans(l), Spans(r));
    case List(l, r) =>
      NulTerminate(buf, l);
      ghost var mid := buf[..];
      NulTerminate(buf, r);
      CutBoth(old(buf[..]), mid, buf[..], Spans(l), Spans(r));
    case Back(d) => NulTerminate(buf, d);
  }

  lemma CutOne(a: seq<char>, b: seq<char>, f: Span)
    requires f.hi < |a| && b == a[f.hi := '\0']
    ensures Cut(a, b, {f})
  {
    assert EndsAt({f}, f.hi) by { assert f in {f}; }
  }

  /** The loop over the words of one command. */
  method NulWords(buf: array<char>, ws: seq<Span>)
    requires forall s :: s in ws ==> s.hi < buf.Length
    modifies buf
    ensures Cut(old(buf[..]), buf[..], SetOf(ws))
  {
    var i := 0;
    while i < |ws|
      invariant 0 <= i <= |ws| && Cut(old(buf[..]), buf[..], SetOf(ws[..i]))
    {
      ghost var mid := buf[..];
      assert ws[i] in ws;
      buf[ws[i].hi] := '\0';
      CutOne(mid, buf[..], ws[i]);
      CutBoth(old(buf[..]), mid, buf[..], SetOf(ws[..i]), {ws[i]});
      assert SetOf(ws[..i]) + {ws[i]} == SetOf(ws[..i + 1]);
      i := i + 1;
    }
    assert ws[..i] == ws;
  }

  /** The string that starts at `i` is `w`. */
  ghost predicate StringAt(buf: seq<char>, i: nat, w: string) {
    i + |w| < |buf| && buf[i..i + |w|] == w && buf[i + |w|] == '\0' && '\0' !in w
  }

  /** No word ends inside another, so every word is its own text afterwards. */
  lemma CutWords(text: string, c: Cmd<Span>, after: seq<char>, s: Span)
    requires AllWords(text, c) && '\0' !in text && Cut(text + ['\0'], after, Spans(c)) && s in Spans(c)
    ensures s.lo <= s.hi <= |text| && StringAt(after, s.lo, text[s.lo..s.hi])
  {
    SpansAreWords(text, c, s);
    forall k | s.lo <= k < s.hi
      ensures after[k] == text[k]
    {
      if EndsAt(Spans(c), k) {
        var t :| t in Spans(c) && t.hi == k;
        SpansAreWords(text, c, t);
      }
    }
    assert EndsAt(Spans(c), s.hi);
    assert after[s.lo..s.hi] == text[s.lo..s.hi];
  }

  /** `parsecmd`: parse the line in the buffer and make strings of its words. */
  method ParseCmd(buf: array<char>, text: string) returns (r: Outcome<Cmd<Span>>)
    requires '\0' !in text && buf[..] == text + ['\0']
    modifies buf
    ensures r == Command(text)
    ensures r.Ok? ==> forall s :: s in Spans(r.value) ==> s.lo <= s.hi <= |text| && StringAt(buf[..], s.lo, text[s.lo..s.hi])
  {
    hide Line, StringAt, Cut, WordSpan;
    r := ParseCommand(text);
    if r.Ok? {
      LineWords(text, 0);
      forall s | s in Spans(r.value)
        ensures s.hi < buf.Length
      {
        SpanFits(text, r.value, s);
      }
      NulTerminate(buf, r.value);
      forall s | s in Spans(r.value)
        ensures s.lo <= s.hi <= |text| && StringAt(buf[..], s.lo, text[s.lo..s.hi])
      {
        CutWords(text, r.value, buf[..], s);
      }
    }
  }

  lemma SpanFits(text: string, c: Cmd<Span>, s: Span)
    requires AllWords(text, c) && s in Spans(c)
    ensures s.hi <= |text|
  {
    SpansAreWords(text, c, s);
  }

  // ----- what the parser accepts

  lemma SpanText(text: string, s: Span)
    requires WordSpan(text, s)
    ensures Wordy(TextOf(text, s))
  {}

  lemma {:induction false} ReadPrintable(text: string, c: Cmd<Span>)
    requires AllWords(text, c)
    ensures Printable(Read(text, c))
  {
    hide WordSpan, Wordy, TextOf;
    match c
    case Exec(ws) =>
      forall i | 0 <= i < |ws|
        ensures Wordy(TextsOf(text, ws)[i])
      {
        SpanText(text, ws[i]);
      }
    case Redir(d, f, _) => ReadPrintable(text, d); SpanText(text, f);
    case Pipe(l, r) => ReadPrintable(text, l); ReadPrintable(text, r);
    case List(l, r) => ReadPrintable(text, l); ReadPrintable(text, r);
    case Back(d) => ReadPrintable(text, d);
  }

  /** Whatever the parser accepts, printing the tree and parsing again gives the same
      tree: every accepted line has a normal form. */
  lemma NormalForm(text: string)
    requires Command(text).Ok?
    ensures var c := Read(text, Command(text).value);
            var line := Print(c, InLine);
            Command(line).Ok? && Read(line, Command(line).value) == c
  {
    hide Line, Print, Read;
    LineWords(text, 0);
    ReadPrintable(text, Command(text).value);
    ParsePrinted(Read(text, Command(text).value));
  }
}
