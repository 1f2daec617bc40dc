// The regular-expression matcher of xv6/user/grep.c and the languages its patterns stand for.

module Grep {
  /** A C string without its terminating '\0'. */
  type CString = s: string | '\0' !in s

  // ---- what a pattern means -------------------------------------------------------------------------------

  /** One character, or any number of them. */
  datatype Token = One(c: char) | Star(c: char)

  /** Tokens, and whether the match has to reach the end of the text. */
  datatype Pattern = Pattern(tokens: seq<Token>, toEnd: bool)

  predicate Fits(c: char, x: char) { c == '.' || c == x }

  /** The words of a token. */
  predicate Spells(t: Token, w: string) {
    (t.One? ==> |w| == 1) && forall i | 0 <= i < |w| :: Fits(t.c, w[i])
  }

  function Flatten(pieces: seq<string>): string { if pieces == [] then [] else pieces[0] + Flatten(pieces[1..]) }

  ghost predicate Splits(tokens: seq<Token>, w: string, pieces: seq<string>) {
    |pieces| == |tokens| && Flatten(pieces) == w && forall i | 0 <= i < |tokens| :: Spells(tokens[i], pieces[i])
  }

  /** A word of the pattern is a word of each token, one after the other. */
  ghost predicate InLanguage(tokens: seq<Token>, w: string) { exists pieces :: Splits(tokens, w, pieces) }

  /** How a pattern is read after a leading '^': a character before '*' is repeated, '$' is special
      only as the last character, everything else stands for itself or, if '.', for any character. */
  function Parse(re: string): Pattern {
    if re == [] then Pattern([], false)
    else if |re| >= 2 && re[1] == '*' then var p := Parse(re[2..]); Pattern([Star(re[0])] + p.tokens, p.toEnd)
    else if re == "$" then Pattern([], true)
    else var p := Parse(re[1..]); Pattern([One(re[0])] + p.tokens, p.toEnd)
  }

  /** Some part of `text` that starts at `i` is a word of the pattern. */
  ghost predicate FoundAt(p: Pattern, text: string, i: nat) {
    exists n :: i <= n <= |text| && WordAt(p, text, i, n)
  }

  ghost predicate WordAt(p: Pattern, text: string, i: nat, n: nat)
    requires i <= n <= |text|
  {
    (p.toEnd ==> n == |text|) && InLanguage(p.tokens, text[i..n])
  }

  /** What match(re, text) decides. */
  ghost predicate Found(re: string, text: string) {
    if re != [] && re[0] == '^' then FoundAt(Parse(re[1..]), text, 0)
    else exists i :: 0 <= i <= |text| && FoundAt(Parse(re), text, i)
  }

  // ---- the language, token by token ---------------------------------------------------------------------

  /** A word of a longer pattern is a word of its first token and one of the rest. */
  lemma {:induction false} FirstToken(tokens: seq<Token>, w: string)
    requires tokens != []
    ensures InLanguage(tokens, w) <==>
            exists k :: 0 <= k <= |w| && Spells(tokens[0], w[..k]) && InLanguage(tokens[1..], w[k..])
  {
    if pieces :| Splits(tokens, w, pieces) {
      var k := |pieces[0]|;
      assert w[..k] == pieces[0] && w[k..] == Flatten(pieces[1..]);
      assert Splits(tokens[1..], w[k..], pieces[1..]);
    }
    if k :| 0 <= k <= |w| && Spells(tokens[0], w[..k]) && InLanguage(tokens[1..], w[k..]) {
      var rest :| Splits(tokens[1..], w[k..], rest);
      var pieces := [w[..k]] + rest;
      assert pieces[1..] == rest && w == w[..k] + w[k..];
      forall i | 0 <= i < |tokens| ensures Spells(tokens[i], pieces[i]) {
        if i > 0 { assert tokens[i] == tokens[1..][i - 1] && pieces[i] == rest[i - 1]; }
      }
      assert Splits(tokens, w, pieces);
    }
  }

  lemma NoTokens(w: string)
    ensures InLanguage([], w) <==> w == []
  {
    if w == [] { assert Splits([], w, []); }
  }

  /** An empty pattern is found anywhere, or, with '$', at the end only. */
  lemma FoundEmpty(toEnd: bool, text: string)
    ensures FoundAt(Pattern([], toEnd), text, 0) <==> (toEnd ==> text == [])
  {
    var p := Pattern([], toEnd);
    forall n | 0 <= n <= |text| ensures WordAt(p, text, 0, n) <==> (toEnd ==> n == |text|) && n == 0 {
      NoTokens(text[0..n]);
    }
    if toEnd ==> text == [] { assert WordAt(p, text, 0, 0); }
  }

  /** The rest of the pattern is found where a word of the first token ends. */
  lemma FoundFirst(t: Token, p: Pattern, text: string)
    ensures FoundAt(Pattern([t] + p.tokens, p.toEnd), text, 0) <==>
            exists k :: 0 <= k <= |text| && Spells(t, text[..k]) && FoundAt(p, text[k..], 0)
  {
    hide InLanguage, Spells;
    var q := Pattern([t] + p.tokens, p.toEnd);
    if n :| 0 <= n <= |text| && WordAt(q, text, 0, n) {
      var k := WordFirst(t, p, text, n);
    }
    if k :| 0 <= k <= |text| && Spells(t, text[..k]) && FoundAt(p, text[k..], 0) {
      var m :| 0 <= m <= |text[k..]| && WordAt(p, text[k..], 0, m);
      FirstWord(t, p, text, k, m);
    }
  }

  lemma WordFirst(t: Token, p: Pattern, text: string, n: nat) returns (k: nat)
    requires n <= |text| && WordAt(Pattern([t] + p.tokens, p.toEnd), text, 0, n)
    ensures k <= n && Spells(t, text[..k]) && WordAt(p, text[k..], 0, n - k)
  {
    hide InLanguage, Spells;
    var tokens, w := [t] + p.tokens, text[0..n];
    FirstToken(tokens, w);
    assert tokens[1..] == p.tokens;
    k :| 0 <= k <= |w| && Spells(t, w[..k]) && InLanguage(tokens[1..], w[k..]);
    assert w[..k] == text[..k] && w[k..] == text[k..][0..n - k];
  }

  lemma FirstWord(t: Token, p: Pattern, text: string, k: nat, m: nat)
    requires k <= |text| && m <= |text[k..]| && Spells(t, text[..k]) && WordAt(p, text[k..], 0, m)
    ensures WordAt(Pattern([t] + p.tokens, p.toEnd), text, 0, k + m)
  {
    hide InLanguage, Spells;
    var tokens, w := [t] + p.tokens, text[0..k + m];
    assert tokens[1..] == p.tokens;
    assert w[..k] == text[..k] && w[k..] == text[k..][0..m];
    FirstToken(tokens, w);
  }

  /** One character: the rest of the pattern is found after it. */
  lemma FoundOne(c: char, p: Pattern, text: string)
    ensures FoundAt(Pattern([One(c)] + p.tokens, p.toEnd), text, 0) <==>
            text != [] && Fits(c, text[0]) && FoundAt(p, text[1..], 0)
  {
    FoundFirst(One(c), p, text);
    if text != [] && Fits(c, text[0]) { assert Spells(One(c), text[..1]); }
  }

  // ---- the code -----------------------------------------------------------------------------------------

  method Match(re: CString, text: CString) returns (r: bool)
    ensures r <==> Found(re, text)
  {
    if re != [] && re[0] == '^' {
      r := MatchHere(re[1..], text);
      return;
    }
    var i := 0;
    while true
      invariant 0 <= i <= |text| && forall j | 0 <= j < i :: !FoundAt(Parse(re), text, j)
      decreases |text| - i
    {
      var here := MatchHere(re, text[i..]);
      Shift(Parse(re), text, i);
      if here {
        return true;
      }
      if i == |text| {
        return false;
      }
      i := i + 1;
    }
  }

  /** Looking from the start of the rest of a text is looking from inside the text. */
  lemma Shift(p: Pattern, text: string, i: nat)
    requires i <= |text|
    ensures FoundAt(p, text, i) <==> FoundAt(p, text[i..], 0)
  {
    forall n | i <= n <= |text| ensures WordAt(p, text, i, n) <==> WordAt(p, text[i..], 0, n - i) {
      assert text[i..n] == text[i..][0..n - i];
    }
    if FoundAt(p, text[i..], 0) {
      var m :| 0 <= m <= |text[i..]| && WordAt(p, text[i..], 0, m);
      assert WordAt(p, text, i, i + m);
    }
  }

  /** matchhere: search for `re` at the beginning of `text`. */
  method MatchHere(re: CString, text: CString) returns (r: bool)
    ensures r <==> FoundAt(Parse(re), text, 0)
    decreases |re|, 0
  {
    if re == [] {
      FoundEmpty(false, text);
      return true;
    }
    if |re| >= 2 && re[1] == '*' {
      r := MatchStar(re[0], re[2..], text);
      return;
    }
    if re == "$" {
      FoundEmpty(true, text);
      return text == [];
    }
    FoundOne(re[0], Parse(re[1..]), text);
    if text != [] && (re[0] == '.' || re[0] == text[0]) {
      r := MatchHere(re[1..], text[1..]);
      return;
    }
    return false;
  }

  /** matchstar: search for `c`* and then `re` at the beginning of `text`. */
  method MatchStar(c: char, re: CString, text: CString) returns (r: bool)
    ensures r <==> FoundAt(Pattern([Star(c)] + Parse(re).tokens, Parse(re).toEnd), text, 0)
    decreases |re|, 1
  {
    FoundFirst(Star(c), Parse(re), text);
    var k := 0;
    while true
      invariant 0 <= k <= |text| && Spells(Star(c), text[..k])
      invariant forall j | 0 <= j < k :: !FoundAt(Parse(re), text[j..], 0)
      decreases |text| - k
    {
      r := MatchHere(re, text[k..]);
      if r {
        return true;
      }
      if k == |text| || !(text[k] == c || c == '.') {
        StarEnds(c, text, k);
        return false;
      }
      StarMore(c, text, k);
      k := k + 1;
    }
  }

  lemma StarMore(c: char, text: string, k: nat)
    requires k < |text| && Spells(Star(c), text[..k]) && Fits(c, text[k])
    ensures Spells(Star(c), text[..k + 1])
  {
  }

  /** Words of a starred character end where another character stands. */
  lemma StarEnds(c: char, text: string, k: nat)
    requires k == |text| || (k < |text| && !Fits(c, text[k]))
    ensures forall j | 0 <= j <= |text| && Spells(Star(c), text[..j]) :: j <= k
  {
    forall j | 0 <= j <= |text| && Spells(Star(c), text[..j]) ensures j <= k {
      var w := text[..j];
      assert forall i | 0 <= i < |w| :: w[i] == text[i] && Fits(c, text[i]);
    }
  }
}
