/** The pattern matcher of grep.c, and what its patterns mean. */
module Grep {

  // ----- what a pattern means

  /** One character, any number of a character, or the end of the text. */
  datatype Item = One(c: char) | Star(c: char) | Dollar

  /** The items of a pattern from position `p` on. */
  function Items(re: string, p: nat): seq<Item>
    requires p <= |re|
    decreases |re| - p
  {
    if p == |re| then []
    else if p + 1 < |re| && re[p + 1] == '*' then [Star(re[p])] + Items(re, p + 2)
    else if re[p] == '$' && p + 1 == |re| then [Dollar]
    else [One(re[p])] + Items(re, p + 1)
  }

  predicate CharFits(c: char, x: char) {
    c == '.' || c == x
  }

  /** An item stands for the part of the text from `a` to before `b`. */
  ghost predicate Fits(item: Item, text: string, a: nat, b: nat) {
    && a <= b <= |text|
    && match item
       case One(c) => b == a + 1 && CharFits(c, text[a])
       case Star(c) => forall k :: a <= k < b ==> CharFits(c, text[k])
       case Dollar => a == b == |text|
  }

  /** The text from `ks[0]` on, cut at the positions `ks`, fits the items one by one. */
  ghost predicate Cut(items: seq<Item>, text: string, ks: seq<nat>) {
    |ks| == |items| + 1 && forall j :: 0 <= j < |items| ==> Fits(items[j], text, ks[j], ks[j + 1])
  }

  /** The items can be found in the text from position `i` on. */
  ghost predicate FoundAt(items: seq<Item>, text: string, i: nat) {
    exists ks: seq<nat> :: |ks| > 0 && ks[0] == i && Cut(items, text, ks)
  }

  /** The whole pattern: anywhere in the text, or at its start after '^'. */
  ghost predicate Found(re: string, text: string) {
    if re != "" && re[0] == '^' then FoundAt(Items(re, 1), text, 0)
    else exists i :: 0 <= i <= |text| && FoundAt(Items(re, 0), text, i)
  }

  // ----- the matcher

  /** `matchhere` on the pattern from `p` on and the text from `i` on. */
  predicate MatchHere(re: string, p: nat, text: string, i: nat)
    requires p <= |re| && i <= |text|
    decreases |re| - p, 0
  {
    if p == |re| then true
    else if p + 1 < |re| && re[p + 1] == '*' then MatchStar(re[p], re, p + 2, text, i)
    else if re[p] == '$' && p + 1 == |re| then i == |text|
    else i < |text| && CharFits(re[p], text[i]) && MatchHere(re, p + 1, text, i + 1)
  }

  /** `matchstar`: any number of `c` and then the pattern from `p` on. */
  predicate MatchStar(c: char, re: string, p: nat, text: string, i: nat)
    requires p <= |re| && i <= |text|
    decreases |re| - p, 1, |text| - i
  {
    MatchHere(re, p, text, i) || (i < |text| && CharFits(c, text[i]) && MatchStar(c, re, p, text, i + 1))
  }

  // ----- the matcher finds what the pattern means

  lemma CutCons(item: Item, items: seq<Item>, text: string, i: nat, ks: seq<nat>)
    requires |ks| > 0 && Cut(items, text, ks) && Fits(item, text, i, ks[0])
    ensures FoundAt([item] + items, text, i)
  {
    var all := [i] + ks;
    forall j | 0 <= j < |items| + 1
      ensures Fits(([item] + items)[j], text, all[j], all[j + 1])
    {
      if j > 0 {
        assert Fits(items[j - 1], text, ks[j - 1], ks[j]);
      }
    }
    assert Cut([item] + items, text, all);
  }

  lemma CutHead(item: Item, items: seq<Item>, text: string, i: nat) returns (b: nat)
    requires FoundAt([item] + items, text, i)
    ensures Fits(item, text, i, b) && FoundAt(items, text, b)
  {
    var all := [item] + items;
    var ks: seq<nat> :| |ks| > 0 && ks[0] == i && Cut(all, text, ks);
    assert Fits(all[0], text, ks[0], ks[1]);
    b := ks[1];
    var rest := ks[1..];
    forall j | 0 <= j < |items|
      ensures Fits(items[j], text, rest[j], rest[j + 1])
    {
      assert Fits(all[j + 1], text, ks[j + 1], ks[j + 2]);
    }
    assert Cut(items, text, rest);
  }

  lemma FoundCons(item: Item, items: seq<Item>, text: string, i: nat, b: nat)
    requires Fits(item, text, i, b) && FoundAt(items, text, b)
    ensures FoundAt([item] + items, text, i)
  {
    var ks: seq<nat> :| |ks| > 0 && ks[0] == b && Cut(items, text, ks);
    CutCons(item, items, text, i, ks);
  }

  lemma {:induction false} HereIff(re: string, p: nat, text: string, i: nat)
    requires p <= |re| && i <= |text|
    ensures MatchHere(re, p, text, i) <==> FoundAt(Items(re, p), text, i)
    decreases |re| - p, 0
  {
    if p == |re| {
      assert Cut([], text, [i]);
    } else if p + 1 < |re| && re[p + 1] == '*' {
      StarIff(re[p], re, p + 2, text, i);
    } else if re[p] == '$' && p + 1 == |re| {
      DollarIff(text, i);
    } else {
      if i < |text| {
        HereIff(re, p + 1, text, i + 1);
      }
      OneIff(re[p], Items(re, p + 1), text, i);
    }
  }

  lemma DollarIff(text: string, i: nat)
    requires i <= |text|
    ensures FoundAt([Dollar], text, i) <==> i == |text|
  {
    if i == |text| {
      assert Cut([Dollar], text, [i, i]);
    }
    if FoundAt([Dollar], text, i) {
      assert [Dollar] == [Dollar] + [];
      var b := CutHead(Dollar, [], text, i);
    }
  }

  lemma OneIff(c: char, items: seq<Item>, text: string, i: nat)
    requires i <= |text|
    ensures FoundAt([One(c)] + items, text, i) <==> i < |text| && CharFits(c, text[i]) && FoundAt(items, text, i + 1)
  {
    if FoundAt([One(c)] + items, text, i) {
      var b := CutHead(One(c), items, text, i);
    }
    if i < |text| && CharFits(c, text[i]) && FoundAt(items, text, i + 1) {
      FoundCons(One(c), items, text, i, i + 1);
    }
  }

  lemma {:induction false} StarIff(c: char, re: string, p: nat, text: string, i: nat)
    requires p <= |re| && i <= |text|
    ensures MatchStar(c, re, p, text, i) <==> FoundAt([Star(c)] + Items(re, p), text, i)
    decreases |re| - p, 1, |text| - i
  {
    var items := Items(re, p);
    HereIff(re, p, text, i);
    if i < |text| && CharFits(c, text[i]) {
      StarIff(c, re, p, text, i + 1);
    }
    StarStep(c, items, text, i);
  }

  /** A star stands for nothing, or for one character and a star. */
  lemma StarStep(c: char, items: seq<Item>, text: string, i: nat)
    requires i <= |text|
    ensures FoundAt([Star(c)] + items, text, i) <==>
            FoundAt(items, text, i) || (i < |text| && CharFits(c, text[i]) && FoundAt([Star(c)] + items, text, i + 1))
  {
    if FoundAt([Star(c)] + items, text, i) {
      var b := CutHead(Star(c), items, text, i);
      if b > i {
        assert Fits(Star(c), text, i + 1, b);
        FoundCons(Star(c), items, text, i + 1, b);
      }
    }
    if FoundAt(items, text, i) {
      assert Fits(Star(c), text, i, i);
      FoundCons(Star(c), items, text, i, i);
    }
    if i < |text| && CharFits(c, text[i]) && FoundAt([Star(c)] + items, text, i + 1) {
      var b := CutHead(Star(c), items, text, i + 1);
      assert Fits(Star(c), text, i, b);
      FoundCons(Star(c), items, text, i, b);
    }
  }

  // ----- the loops

  method DoMatchHere(re: string, p: nat, text: string, i: nat) returns (r: bool)
    requires p <= |re| && i <= |text|
    ensures r == MatchHere(re, p, text, i)
    decreases |re| - p, 0
  {
    if p == |re| {
      return true;
    }
    if p + 1 < |re| && re[p + 1] == '*' {
      r := DoMatchStar(re[p], re, p + 2, text, i);
      return;
    }
    if re[p] == '$' && p + 1 == |re| {
      return i == |text|;
    }
    if i < |text| && (re[p] == '.' || re[p] == text[i]) {
      r := DoMatchHere(re, p + 1, text, i + 1);
      return;
    }
    return false;
  }

  method DoMatchStar(c: char, re: string, p: nat, text: string, i: nat) returns (r: bool)
    requires p <= |re| && i <= |text|
    ensures r == MatchStar(c, re, p, text, i)
    decreases |re| - p, 1
  {
    var t := i;
    while true
      invariant i <= t <= |text| && MatchStar(c, re, p, text, i) == MatchStar(c, re, p, text, t)
      decreases |text| - t
    {
      r := DoMatchHere(re, p, text, t);
      if r {
        return;
      }
      if !(t < |text| && (text[t] == c || c == '.')) {
        return false;
      }
      t := t + 1;
    }
  }

  /** `match`: whether the pattern is found in the text. */
  method Match(re: string, text: string) returns (r: bool)
    ensures r <==> Found(re, text)
  {
    if re != "" && re[0] == '^' {
      HereIff(re, 1, text, 0);
      r := DoMatchHere(re, 1, text, 0);
      return;
    }
    var i := 0;
    while true
      invariant 0 <= i <= |text| && forall j :: 0 <= j < i ==> !FoundAt(Items(re, 0), text, j)
      decreases |text| - i
    {
      HereIff(re, 0, text, i);
      r := DoMatchHere(re, 0, text, i);
      if r {
        return;
      }
      if i == |text| {
        return false;
      }
      i := i + 1;
    }
  }
}
