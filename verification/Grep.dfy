/**
 The regular-expression matcher of user/grep.c.  C strings are sequences without NUL; the end
 of a sequence is where the NUL is.
 */
module Grep {

  /** A pattern item: one character (any, if it is '.'), or zero or more of it. */
  datatype Item = One(c: char) | Star(c: char)

  /** The items of a pattern without leading '^', and whether it ends in a '$' that stands for the end of the text. */
  datatype Pattern = Pattern(items: seq<Item>, anchored: bool)

  /** A '*' after any character is a repetition, also after '$'; a '*' with nothing before it is itself. */
  function Parse(re: string): (p: Pattern) {
    if re == [] then Pattern([], false)
    else if |re| > 1 && re[1] == '*' then
      var rest := Parse(re[2..]);
      Pattern([Star(re[0])] + rest.items, rest.anchored)
    else if re == "$" then Pattern([], true)
    else
      var rest := Parse(re[1..]);
      Pattern([One(re[0])] + rest.items, rest.anchored)
  }

  predicate Fits(c: char, x: char) {
    c == '.' || c == x
  }

  /** The first n characters of w all fit c. */
  predicate Repeats(c: char, w: string, n: nat) {
    n <= |w| && forall i :: 0 <= i < n ==> Fits(c, w[i])
  }

  /** w is in the language of the items. */
  ghost predicate InLanguage(items: seq<Item>, w: string)
  {
    if items == [] then w == []
    else match items[0]
      case One(c) => w != [] && Fits(c, w[0]) && InLanguage(items[1..], w[1..])
      case Star(c) => exists n: nat :: Repeats(c, w, n) && InLanguage(items[1..], w[n..])
  }

  ghost predicate RepeatsThen(rest: seq<Item>, c: char, w: string, n: nat) {
    Repeats(c, w, n) && InLanguage(rest, w[n..])
  }

  /** The first k characters of text are in the language, and end the text if the pattern is anchored. */
  ghost predicate MatchesPrefix(p: Pattern, text: string, k: nat) {
    k <= |text| && InLanguage(p.items, text[..k]) && (p.anchored ==> k == |text|)
  }

  ghost predicate MatchesHere(re: string, text: string) {
    exists k: nat :: MatchesPrefix(Parse(re), text, k)
  }

  /** What match() is for: a substring of the text is in the language, or a prefix after '^'. */
  ghost predicate Matches(re: string, text: string) {
    if re != [] && re[0] == '^' then MatchesHere(re[1..], text)
    else exists i :: 0 <= i <= |text| && MatchesHere(re, text[i..])
  }

  // ----- one step of a pattern -----

  lemma LanguageOfStar(items: seq<Item>, w: string)
    requires items != [] && items[0].Star?
    ensures InLanguage(items, w) <==> exists n: nat :: RepeatsThen(items[1..], items[0].c, w, n)
  {
    var c := items[0].c;
    if InLanguage(items, w) {
      var n: nat :| Repeats(c, w, n) && InLanguage(items[1..], w[n..]);
      assert RepeatsThen(items[1..], c, w, n);
    }
    if n: nat :| RepeatsThen(items[1..], c, w, n) {
      assert Repeats(c, w, n) && InLanguage(items[1..], w[n..]);
    }
  }

  lemma HereEmpty(text: string)
    ensures MatchesHere([], text)
  {
    assert MatchesPrefix(Parse([]), text, 0);
  }

  lemma HereEnd(text: string)
    ensures MatchesHere("$", text) <==> text == []
  {
    if text == [] {
      assert MatchesPrefix(Parse("$"), text, 0);
    }
  }

  lemma HereOne(re: string, text: string)
    requires re != [] && !(|re| > 1 && re[1] == '*') && re != "$"
    ensures MatchesHere(re, text) <==> text != [] && Fits(re[0], text[0]) && MatchesHere(re[1..], text[1..])
  {
    var p, q := Parse(re), Parse(re[1..]);
    assert p.items[1..] == q.items;
    if MatchesHere(re, text) {
      var k: nat :| MatchesPrefix(p, text, k);
      assert text[..k][1..] == text[1..][..k - 1];
      assert MatchesPrefix(q, text[1..], k - 1);
    }
    if text != [] && Fits(re[0], text[0]) && MatchesHere(re[1..], text[1..]) {
      var k: nat :| MatchesPrefix(q, text[1..], k);
      assert text[..k + 1][1..] == text[1..][..k];
      assert MatchesPrefix(p, text, k + 1);
    }
  }

  /** n characters are taken by the star, and the rest of the pattern goes on there. */
  ghost predicate StarThen(c: char, re: string, text: string, n: nat) {
    Repeats(c, text, n) && MatchesHere(re, text[n..])
  }

  lemma HereStar(re: string, text: string)
    requires |re| > 1 && re[1] == '*'
    ensures MatchesHere(re, text) <==> exists n: nat :: StarThen(re[0], re[2..], text, n)
  {
    hide InLanguage;
    var c, p, q := re[0], Parse(re), Parse(re[2..]);
    assert p.items[0] == Star(c) && p.items[1..] == q.items;
    if MatchesHere(re, text) {
      var k: nat :| MatchesPrefix(p, text, k);
      LanguageOfStar(p.items, text[..k]);
      var n: nat :| RepeatsThen(q.items, c, text[..k], n);
      assert text[..k][n..] == text[n..][..k - n];
      assert MatchesPrefix(q, text[n..], k - n);
      assert StarThen(c, re[2..], text, n);
    }
    if n: nat :| StarThen(c, re[2..], text, n) {
      var k: nat :| MatchesPrefix(q, text[n..], k);
      assert text[..n + k][n..] == text[n..][..k];
      assert RepeatsThen(p.items[1..], c, text[..n + k], n);
      LanguageOfStar(p.items, text[..n + k]);
      assert MatchesPrefix(p, text, n + k);
    }
  }

  // ----- the program -----

  /** match(). */
  method Match(re: string, text: string) returns (found: bool)
    ensures found <==> Matches(re, text)
  {
    if re != [] && re[0] == '^' {
      found := MatchHere(re[1..], text);
      return;
    }
    var i := 0;
    while true
      invariant 0 <= i <= |text| && forall j :: 0 <= j < i ==> !MatchesHere(re, text[j..])
      decreases |text| - i
    {
      var here := MatchHere(re, text[i..]);
      if here {
        return true;
      }
      if i == |text| {
        return false;
      }
      i := i + 1;
    }
  }

  /** matchhere(). */
  method MatchHere(re: string, text: string) returns (found: bool)
    ensures found <==> MatchesHere(re, text)
    decreases |re|, |text|, 0
  {
    if re == [] {
      HereEmpty(text);
      return true;
    }
    if |re| > 1 && re[1] == '*' {
      HereStar(re, text);
      found := MatchStar(re[0], re[2..], text);
      return;
    }
    if re[0] == '$' && |re| == 1 {
      assert re == "$";
      HereEnd(text);
      return text == [];
    }
    HereOne(re, text);
    if text != [] && (re[0] == '.' || re[0] == text[0]) {
      found := MatchHere(re[1..], text[1..]);
      return;
    }
    return false;
  }

  /** matchstar(). */
  method MatchStar(c: char, re: string, text: string) returns (found: bool)
    ensures found <==> exists n: nat :: StarThen(c, re, text, n)
    decreases |re|, |text|, 1
  {
    var i := 0;
    while true
      invariant Repeats(c, text, i) && forall n :: 0 <= n < i ==> !StarThen(c, re, text, n)
      decreases |text| - i
    {
      var here := MatchHere(re, text[i..]);
      if here {
        assert StarThen(c, re, text, i);
        return true;
      }
      if !(i < |text| && (text[i] == c || c == '.')) {
        return false;
      }
      i := i + 1;
    }
  }
}
