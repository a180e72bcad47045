/** Tokens of a shell command line: `peek` and `gettoken` of sh.c. */
module ShellLexer {

  predicate Whitespace(c: char) {
    c == ' ' || c == '\t' || c == '\r' || c == '\n' || c == '\U{0B}'
  }

  predicate Symbol(c: char) {
    c == '<' || c == '|' || c == '>' || c == '&' || c == ';' || c == '(' || c == ')'
  }

  /** A character of a word. */
  predicate Plain(c: char) {
    !Whitespace(c) && !Symbol(c)
  }

  /** The first position from `i` on that is not whitespace. */
  function SkipSpace(text: string, i: nat): (j: nat)
    requires i <= |text|
    ensures i <= j <= |text| && (j < |text| ==> !Whitespace(text[j]))
    ensures forall k :: i <= k < j ==> Whitespace(text[k])
    decreases |text| - i
  {
    if i < |text| && Whitespace(text[i]) then SkipSpace(text, i + 1) else i
  }

  /** The first position from `i` on that is not in a word. */
  function WordEnd(text: string, i: nat): (j: nat)
    requires i <= |text|
    ensures i <= j <= |text| && (j < |text| ==> !Plain(text[j]))
    ensures forall k :: i <= k < j ==> Plain(text[k])
    decreases |text| - i
  {
    if i < |text| && Plain(text[i]) then WordEnd(text, i + 1) else i
  }

  /** The part of the text from `lo` to before `hi`. */
  datatype Span = Span(lo: nat, hi: nat)

  datatype Kind = End | Sign(c: char) | Append | Word

  datatype Token = Token(kind: Kind, span: Span, next: nat)

  function GetToken(text: string, i: nat): (t: Token)
    requires i <= |text|
    ensures i <= t.span.lo <= t.span.hi <= t.next <= |text|
    ensures t.kind != End ==> i < t.next
  {
    var q := SkipSpace(text, i);
    var end :=
      if q == |text| then q
      else if text[q] == '>' then (if q + 1 < |text| && text[q + 1] == '>' then q + 2 else q + 1)
      else if Symbol(text[q]) then q + 1
      else WordEnd(text, q);
    var kind :=
      if q == |text| then End
      else if end == q + 2 && text[q] == '>' then Append
      else if Symbol(text[q]) then Sign(text[q])
      else Word;
    Token(kind, Span(q, end), SkipSpace(text, end))
  }

  /** Whether the next token starts with one of `toks`. */
  predicate Peek(text: string, i: nat, toks: string)
    requires i <= |text|
  {
    var j := SkipSpace(text, i);
    j < |text| && text[j] in toks
  }

  /** A maximal run of word characters. */
  predicate WordSpan(text: string, s: Span) {
    && s.lo < s.hi <= |text|
    && (forall k :: s.lo <= k < s.hi ==> Plain(text[k]))
    && (s.hi < |text| ==> !Plain(text[s.hi]))
  }

  lemma WordTokens(text: string, i: nat)
    requires i <= |text| && GetToken(text, i).kind == Word
    ensures WordSpan(text, GetToken(text, i).span)
  {}

  /** The scanner as the source runs it, with its cursor. */
  class Scanner {
    const text: string
    var pos: nat

    ghost predicate Valid()
      reads this
    {
      pos <= |text|
    }

    constructor (text: string)
      ensures Valid() && this.text == text && pos == 0
    {
      this.text := text;
      pos := 0;
    }

    method Skip(from: nat) returns (s: nat)
      requires from <= |text|
      ensures s == SkipSpace(text, from)
    {
      s := from;
      while s < |text| && Whitespace(text[s])
        invariant s <= |text| && SkipSpace(text, from) == SkipSpace(text, s)
      {
        s := s + 1;
      }
    }

    method Peeks(toks: string) returns (r: bool)
      requires Valid()
      modifies this
      ensures Valid() && pos == SkipSpace(text, old(pos)) && r == Peek(text, old(pos), toks)
    {
      pos := Skip(pos);
      return pos < |text| && text[pos] in toks;
    }

    method ReadWord(from: nat) returns (s: nat)
      requires from <= |text|
      ensures s == WordEnd(text, from)
    {
      s := from;
      while s < |text| && Plain(text[s])
        invariant s <= |text| && WordEnd(text, from) == WordEnd(text, s)
      {
        s := s + 1;
      }
    }

    method Next() returns (kind: Kind, span: Span)
      requires Valid()
      modifies this
      ensures Valid() && Token(kind, span, pos) == GetToken(text, old(pos))
    {
      hide SkipSpace, WordEnd, Whitespace;
      var q := Skip(pos);
      var s := q;
      if s == |text| {
        kind := End;
      } else if text[s] == '>' {
        kind := Sign('>');
        s := s + 1;
        if s < |text| && text[s] == '>' {
          kind := Append;
          s := s + 1;
        }
      } else if Symbol(text[s]) {
        kind := Sign(text[s]);
        s := s + 1;
      } else {
        kind := Word;
        s := ReadWord(s);
      }
      span := Span(q, s);
      pos := Skip(s);
    }
  }
}
