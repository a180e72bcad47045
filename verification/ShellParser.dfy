/** The recursive-descent parser of sh.c: its grammar as functions of the text and a
    position, and the methods that move the cursor. */
module ShellParser {
  import opened ShellLexer

  const MAXARGS: nat := 10

  /** A command tree, over whatever stands for words. */
  datatype Cmd<W> =
    | Exec(words: seq<W>)
    | Redir(cmd: Cmd<W>, file: W, output: bool)
    | Pipe(left: Cmd<W>, right: Cmd<W>)
    | List(left: Cmd<W>, right: Cmd<W>)
    | Back(cmd: Cmd<W>)

  datatype Why = MissingFile | TooManyArgs | Syntax | MissingParen | NoParen | Leftovers

  datatype Outcome<T> = Ok(value: T) | Panic(why: Why)

  /** A value and the position after it. */
  datatype At<T> = At(value: T, next: nat)

  type Parse<T> = Outcome<At<T>>

  datatype File<W> = File(name: W, output: bool)

  /** Redirections apply in the order they are read, each around the last. */
  function Wrap<W>(cmd: Cmd<W>, rs: seq<File<W>>): Cmd<W> {
    if rs == [] then cmd
    else Redir(Wrap(cmd, rs[..|rs| - 1]), rs[|rs| - 1].name, rs[|rs| - 1].output)
  }

  // ----- the grammar

  /** The end of the text that a parse leaves unread. */
  predicate Within<T>(text: string, i: nat, r: Parse<T>) {
    r.Ok? ==> i <= r.value.next <= |text|
  }

  function Redirs(text: string, i: nat, rs: seq<File<Span>>): (r: Parse<seq<File<Span>>>)
    requires i <= |text|
    ensures Within(text, i, r)
    decreases |text| - i
  {
    if !Peek(text, i, "<>") then Ok(At(rs, SkipSpace(text, i)))
    else
      var tok := GetToken(text, i);
      var file := GetToken(text, tok.next);
      if file.kind != Word then Panic(MissingFile)
      else Redirs(text, file.next, rs + [File(file.span, tok.kind != Sign('<'))])
  }

  /** The words of a command, with redirections anywhere among them. */
  function Args(text: string, i: nat, words: seq<Span>, rs: seq<File<Span>>): (r: Parse<Cmd<Span>>)
    requires i <= |text|
    ensures Within(text, i, r)
    decreases |text| - i
  {
    var tok := GetToken(text, i);
    if Peek(text, i, "|)&;") || tok.kind == End then Ok(At(Wrap(Exec(words), rs), SkipSpace(text, i)))
    else if tok.kind != Word then Panic(Syntax)
    else if |words| + 1 >= MAXARGS then Panic(TooManyArgs)
    else
      var more := Redirs(text, tok.next, rs);
      if more.Panic? then Panic(more.why)
      else Args(text, more.value.next, words + [tok.span], more.value.value)
  }

  function Simple(text: string, i: nat): (r: Parse<Cmd<Span>>)
    requires i <= |text|
    ensures Within(text, i, r)
    decreases |text| - i, 1
  {
    if Peek(text, i, "(") then Block(text, i)
    else
      var rs := Redirs(text, i, []);
      if rs.Panic? then Panic(rs.why) else Args(text, rs.value.next, [], rs.value.value)
  }

  function Block(text: string, i: nat): (r: Parse<Cmd<Span>>)
    requires i <= |text|
    ensures Within(text, i, r)
    decreases |text| - i, 0
  {
    if !Peek(text, i, "(") then Panic(NoParen)
    else
      var inner := Line(text, GetToken(text, i).next);
      if inner.Panic? then inner
      else if !Peek(text, inner.value.next, ")") then Panic(MissingParen)
      else
        var rs := Redirs(text, GetToken(text, inner.value.next).next, []);
        if rs.Panic? then Panic(rs.why) else Ok(At(Wrap(inner.value.value, rs.value.value), rs.value.next))
  }

  function Piped(text: string, i: nat): (r: Parse<Cmd<Span>>)
    requires i <= |text|
    ensures Within(text, i, r)
    decreases |text| - i, 2
  {
    var first := Simple(text, i);
    if first.Panic? then first
    else if !Peek(text, first.value.next, "|") then Ok(At(first.value.value, SkipSpace(text, first.value.next)))
    else
      var rest := Piped(text, GetToken(text, first.value.next).next);
      if rest.Panic? then rest else Ok(At(Pipe(first.value.value, rest.value.value), rest.value.next))
  }

  /** Any number of `&` after a command. */
  function Ampersands(text: string, i: nat, cmd: Cmd<Span>): (r: At<Cmd<Span>>)
    requires i <= |text|
    ensures i <= r.next <= |text|
    decreases |text| - i
  {
    if Peek(text, i, "&") then Ampersands(text, GetToken(text, i).next, Back(cmd)) else At(cmd, SkipSpace(text, i))
  }

  function Line(text: string, i: nat): (r: Parse<Cmd<Span>>)
    requires i <= |text|
    ensures Within(text, i, r)
    decreases |text| - i, 3
  {
    var first := Piped(text, i);
    if first.Panic? then first
    else
      var cmd := Ampersands(text, first.value.next, first.value.value);
      if !Peek(text, cmd.next, ";") then Ok(At(cmd.value, SkipSpace(text, cmd.next)))
      else
        var rest := Line(text, GetToken(text, cmd.next).next);
        if rest.Panic? then rest else Ok(At(List(cmd.value, rest.value.value), rest.value.next))
  }

  /** A whole command line. */
  function Command(text: string): Outcome<Cmd<Span>> {
    var r := Line(text, 0);
    if r.Panic? then Panic(r.why)
    else if SkipSpace(text, r.value.next) != |text| then Panic(Leftovers)
    else Ok(r.value.value)
  }

  // ----- the methods

  /** The outcome of a method and where it left the cursor. */
  ghost function Left<T>(r: Outcome<T>, pos: nat): Parse<T> {
    match r
    case Ok(v) => Ok(At(v, pos))
    case Panic(w) => Panic(w)
  }

  /** Whitespace makes no difference to what is read next. */
  lemma Skipped(text: string, i: nat, toks: string)
    requires i <= |text|
    ensures SkipSpace(text, SkipSpace(text, i)) == SkipSpace(text, i)
    ensures Peek(text, i, toks) ==> i < GetToken(text, i).next
    ensures Peek(text, SkipSpace(text, i), toks) == Peek(text, i, toks)
    ensures GetToken(text, SkipSpace(text, i)) == GetToken(text, i)
  {}

  lemma RedirsSkips(text: string, i: nat, rs: seq<File<Span>>)
    requires i <= |text|
    ensures Redirs(text, SkipSpace(text, i), rs) == Redirs(text, i, rs)
  {
    hide SkipSpace, GetToken, Peek;
    Skipped(text, i, "<>");
  }

  method ParseRedirs(sc: Scanner, rs: seq<File<Span>>) returns (r: Outcome<seq<File<Span>>>)
    requires sc.Valid()
    modifies sc
    ensures sc.Valid() && Left(r, sc.pos) == Redirs(sc.text, old(sc.pos), rs)
  {
    hide GetToken, Peek, SkipSpace;
    var files := rs;
    RedirsSkips(sc.text, sc.pos, rs);
    Skipped(sc.text, sc.pos, "<>");
    var more := sc.Peeks("<>");
    while more
      invariant sc.Valid() && more == Peek(sc.text, sc.pos, "<>") && sc.pos == SkipSpace(sc.text, sc.pos)
      invariant Redirs(sc.text, old(sc.pos), rs) == Redirs(sc.text, sc.pos, files)
      decreases |sc.text| - sc.pos
    {
      Skipped(sc.text, sc.pos, "<>");
      var tok, _ := sc.Next();
      var kind, file := sc.Next();
      if kind != Word {
        return Panic(MissingFile);
      }
      files := files + [File(file, tok != Sign('<'))];
      RedirsSkips(sc.text, sc.pos, files);
      Skipped(sc.text, sc.pos, "<>");
      more := sc.Peeks("<>");
    }
    return Ok(files);
  }

  lemma ArgsSkips(text: string, i: nat, words: seq<Span>, rs: seq<File<Span>>)
    requires i <= |text|
    ensures Args(text, SkipSpace(text, i), words, rs) == Args(text, i, words, rs)
  {
    hide SkipSpace, GetToken, Peek, Redirs;
    Skipped(text, i, "|)&;");
  }

  method ParseSimple(sc: Scanner) returns (r: Outcome<Cmd<Span>>)
    requires sc.Valid()
    modifies sc
    ensures sc.Valid() && Left(r, sc.pos) == Simple(sc.text, old(sc.pos))
    decreases |sc.text| - sc.pos, 1
  {
    hide GetToken, Peek, SkipSpace, Redirs, Block;
    var start := sc.pos;
    BlockSkips(sc.text, sc.pos);
    RedirsSkips(sc.text, sc.pos, []);
    Skipped(sc.text, sc.pos, "(");
    var block := sc.Peeks("(");
    if block {
      r := ParseBlock(sc);
      return;
    }
    var files := ParseRedirs(sc, []);
    if files.Panic? {
      return Panic(files.why);
    }
    r := ParseArgs(sc, files.value);
  }

  /** The loop over a command's words. */
  method ParseArgs(sc: Scanner, files: seq<File<Span>>) returns (r: Outcome<Cmd<Span>>)
    requires sc.Valid()
    modifies sc
    ensures sc.Valid() && Left(r, sc.pos) == Args(sc.text, old(sc.pos), [], files)
  {
    hide GetToken, Peek, SkipSpace, Redirs;
    var words, rs: seq<File<Span>> := [], files;
    ArgsSkips(sc.text, sc.pos, words, rs);
    Skipped(sc.text, sc.pos, "|)&;");
    var stop := sc.Peeks("|)&;");
    while !stop
      invariant sc.Valid() && stop == Peek(sc.text, sc.pos, "|)&;") && sc.pos == SkipSpace(sc.text, sc.pos)
      invariant Args(sc.text, old(sc.pos), [], files) == Args(sc.text, sc.pos, words, rs)
      decreases |sc.text| - sc.pos
    {
      EndStays(sc.text, sc.pos);
      var kind, word := sc.Next();
      if kind == End {
        break;
      }
      if kind != Word {
        return Panic(Syntax);
      }
      if |words| + 1 >= MAXARGS {
        return Panic(TooManyArgs);
      }
      words := words + [word];
      var more := ParseRedirs(sc, rs);
      if more.Panic? {
        return Panic(more.why);
      }
      rs := more.value;
      ArgsSkips(sc.text, sc.pos, words, rs);
      Skipped(sc.text, sc.pos, "|)&;");
      stop := sc.Peeks("|)&;");
    }
    return Ok(Wrap(Exec(words), rs));
  }

  /** At the end of the text there is nothing to skip. */
  lemma EndStays(text: string, i: nat)
    requires i <= |text|
    ensures GetToken(text, i).kind == End ==> GetToken(text, i).next == SkipSpace(text, i)
    ensures GetToken(text, i).kind != End ==> i < GetToken(text, i).next
  {}

  lemma BlockSkips(text: string, i: nat)
    requires i <= |text|
    ensures Block(text, SkipSpace(text, i)) == Block(text, i)
  {
    hide SkipSpace, GetToken, Peek, Redirs, Line;
    Skipped(text, i, "(");
  }

  method ParseBlock(sc: Scanner) returns (r: Outcome<Cmd<Span>>)
    requires sc.Valid()
    modifies sc
    ensures sc.Valid() && Left(r, sc.pos) == Block(sc.text, old(sc.pos))
    decreases |sc.text| - sc.pos, 0
  {
    hide GetToken, Peek, SkipSpace, Redirs, Line;
    Skipped(sc.text, sc.pos, "(");
    var open := sc.Peeks("(");
    if !open {
      return Panic(NoParen);
    }
    var _, _ := sc.Next();
    var inner := ParseLine(sc);
    if inner.Panic? {
      return inner;
    }
    Skipped(sc.text, sc.pos, ")");
    var close := sc.Peeks(")");
    if !close {
      return Panic(MissingParen);
    }
    var _, _ := sc.Next();
    var files := ParseRedirs(sc, []);
    if files.Panic? {
      return Panic(files.why);
    }
    return Ok(Wrap(inner.value, files.value));
  }

  method ParsePipe(sc: Scanner) returns (r: Outcome<Cmd<Span>>)
    requires sc.Valid()
    modifies sc
    ensures sc.Valid() && Left(r, sc.pos) == Piped(sc.text, old(sc.pos))
    decreases |sc.text| - sc.pos, 2
  {
    hide GetToken, Peek, SkipSpace, Simple;
    r := ParseSimple(sc);
    if r.Panic? {
      return;
    }
    Skipped(sc.text, sc.pos, "|");
    var more := sc.Peeks("|");
    if more {
      var _, _ := sc.Next();
      var rest := ParsePipe(sc);
      return if rest.Panic? then rest else Ok(Pipe(r.value, rest.value));
    }
  }

  lemma AmpersandsSkips(text: string, i: nat, cmd: Cmd<Span>)
    requires i <= |text|
    ensures Ampersands(text, SkipSpace(text, i), cmd) == Ampersands(text, i, cmd)
  {
    hide SkipSpace, GetToken, Peek;
    Skipped(text, i, "&");
  }

  method ParseLine(sc: Scanner) returns (r: Outcome<Cmd<Span>>)
    requires sc.Valid()
    modifies sc
    ensures sc.Valid() && Left(r, sc.pos) == Line(sc.text, old(sc.pos))
    decreases |sc.text| - sc.pos, 3
  {
    hide GetToken, Peek, SkipSpace, Piped, Ampersands;
    r := ParsePipe(sc);
    if r.Panic? {
      return;
    }
    r := ParseBacks(sc, r.value);
    Skipped(sc.text, sc.pos, ";");
    var more := sc.Peeks(";");
    if more {
      var _, _ := sc.Next();
      var rest := ParseLine(sc);
      return if rest.Panic? then rest else Ok(List(r.value, rest.value));
    }
  }

  /** The loop over a command's ampersands. */
  method ParseBacks(sc: Scanner, first: Cmd<Span>) returns (r: Outcome<Cmd<Span>>)
    requires sc.Valid()
    modifies sc
    ensures sc.Valid() && r.Ok? && At(r.value, sc.pos) == Ampersands(sc.text, old(sc.pos), first)
  {
    hide GetToken, Peek, SkipSpace;
    var cmd := first;
    AmpersandsSkips(sc.text, sc.pos, cmd);
    Skipped(sc.text, sc.pos, "&");
    var back := sc.Peeks("&");
    while back
      invariant sc.Valid() && back == Peek(sc.text, sc.pos, "&") && sc.pos == SkipSpace(sc.text, sc.pos)
      invariant Ampersands(sc.text, old(sc.pos), first) == Ampersands(sc.text, sc.pos, cmd)
      decreases |sc.text| - sc.pos
    {
      Skipped(sc.text, sc.pos, "&");
      var _, _ := sc.Next();
      cmd := Back(cmd);
      AmpersandsSkips(sc.text, sc.pos, cmd);
      Skipped(sc.text, sc.pos, "&");
      back := sc.Peeks("&");
    }
    return Ok(cmd);
  }

  /** Parse a command line, or say which panic it meets. */
  method ParseCommand(text: string) returns (r: Outcome<Cmd<Span>>)
    ensures r == Command(text)
  {
    hide Line, SkipSpace;
    var sc := new Scanner(text);
    r := ParseLine(sc);
    if r.Ok? {
      var _ := sc.Peeks("");
      if sc.pos != |text| {
        return Panic(Leftovers);
      }
    }
  }
}
