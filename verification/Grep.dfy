/** The regular-expression matcher of grep.c against the language its patterns denote. */
module Grep {

  // ---------- what a pattern means ----------

  datatype Atom = One(c: char) | Many(c: char)

  /** `end` says that the pattern ends in a `$` that anchors it. */
  datatype Pattern = Pattern(atoms: seq<Atom>, end: bool)

  /** The pattern a regular expression, without its leading `^`, stands for. */
  function Parse(re: string): Pattern {
    if re == "" then Pattern([], false)
    else if |re| >= 2 && re[1] == '*' then Cons(Many(re[0]), Parse(re[2..]))
    else if re == "$" then Pattern([], true)
    else Cons(One(re[0]), Parse(re[1..]))
  }

  function Cons(a: Atom, p: Pattern): Pattern {
    Pattern([a] + p.atoms, p.end)
  }

  predicate Fits(c: char, x: char) {
    c == '.' || c == x
  }

  /** The words of one atom. */
  predicate InAtom(a: Atom, w: string) {
    match a
    case One(c) => |w| == 1 && Fits(c, w[0])
    case Many(c) => forall i | 0 <= i < |w| :: Fits(c, w[i])
  }

  /** The words of a sequence of atoms: the concatenations of words of each. */
  ghost predicate InLang(atoms: seq<Atom>, s: string)
    decreases |atoms|
  {
    if atoms == [] then s == ""
    else exists n :: 0 <= n <= |s| && InAtom(atoms[0], s[..n]) && InLang(atoms[1..], s[n..])
  }

  /** Some prefix of the text is in the language, or the whole text if the pattern is anchored at the end. */
  ghost predicate Here(re: string, text: string) {
    exists n :: HereUpTo(re, text, n)
  }

  ghost predicate HereUpTo(re: string, text: string, n: int) {
    0 <= n <= |text| && InLang(Parse(re).atoms, text[..n]) && (Parse(re).end ==> n == |text|)
  }

  /** The text has a match at its start if the expression starts with `^`, and anywhere otherwise. */
  ghost predicate Somewhere(re: string, text: string) {
    if re != "" && re[0] == '^' then Here(re[1..], text)
    else exists i :: 0 <= i <= |text| && Here(re, text[i..])
  }

  // ---------- how a match starts ----------

  lemma HereEmpty(text: string)
    ensures Here("", text)
  {
    assert HereUpTo("", text, 0);
  }

  lemma HereEnd(text: string)
    ensures Here("$", text) <==> text == ""
  {
    assert Parse("$") == Pattern([], true);
    assert text == "" ==> HereUpTo("$", text, 0);
  }

  lemma ParseOne(re: string)
    requires re != "" && !(|re| >= 2 && re[1] == '*') && re != "$"
    ensures Parse(re).atoms != [] && Parse(re).atoms[0] == One(re[0])
    ensures Parse(re).atoms[1..] == Parse(re[1..]).atoms && Parse(re).end == Parse(re[1..]).end
  {
  }

  lemma ParseMany(re: string)
    requires |re| >= 2 && re[1] == '*'
    ensures Parse(re).atoms != [] && Parse(re).atoms[0] == Many(re[0])
    ensures Parse(re).atoms[1..] == Parse(re[2..]).atoms && Parse(re).end == Parse(re[2..]).end
  {
  }

  /** A single character, then the rest. */
  lemma HereOne(re: string, text: string)
    requires re != "" && !(|re| >= 2 && re[1] == '*') && re != "$"
    ensures Here(re, text) <==> text != "" && Fits(re[0], text[0]) && Here(re[1..], text[1..])
  {
    hide Parse, Fits;
    ParseOne(re);
    var rest := re[1..];
    forall n | HereUpTo(re, text, n)
      ensures text != "" && Fits(re[0], text[0]) && HereUpTo(rest, text[1..], n - 1)
    {
      var m :| 0 <= m <= |text[..n]| && InAtom(One(re[0]), text[..n][..m]) && InLang(Parse(rest).atoms, text[..n][m..]);
      assert text[..n][1..] == text[1..][..n - 1];
    }
    if text != "" && Fits(re[0], text[0]) {
      forall n | HereUpTo(rest, text[1..], n)
        ensures HereUpTo(re, text, n + 1)
      {
        assert text[..n + 1][..1] == [text[0]] && text[..n + 1][1..] == text[1..][..n];
      }
    }
  }

  /** k characters of the closure, then the rest. */
  ghost predicate StarUpTo(c: char, rest: string, text: string, k: int) {
    0 <= k <= |text| && (forall i | 0 <= i < k :: Fits(c, text[i])) && Here(rest, text[k..])
  }

  lemma HereMany(re: string, text: string)
    requires |re| >= 2 && re[1] == '*'
    ensures Here(re, text) <==> exists k :: StarUpTo(re[0], re[2..], text, k)
  {
    hide Parse, Fits;
    ParseMany(re);
    var c, rest := re[0], re[2..];
    forall n | HereUpTo(re, text, n)
      ensures exists k :: StarUpTo(c, rest, text, k)
    {
      var k :| 0 <= k <= |text[..n]| && InAtom(Many(c), text[..n][..k]) && InLang(Parse(rest).atoms, text[..n][k..]);
      assert text[..n][k..] == text[k..][..n - k];
      assert HereUpTo(rest, text[k..], n - k);
      assert forall i | 0 <= i < k :: text[..n][..k][i] == text[i];
      assert StarUpTo(c, rest, text, k);
    }
    forall k | StarUpTo(c, rest, text, k)
      ensures Here(re, text)
    {
      var n :| HereUpTo(rest, text[k..], n);
      assert text[..k + n][..k] == text[..k] && text[..k + n][k..] == text[k..][..n];
      assert HereUpTo(re, text, k + n);
    }
  }

  // ---------- the matcher ----------

  /** The character a pointer into a string sees: 0 at the end. */
  function At(s: string, i: nat): char
    requires i <= |s|
  {
    if i < |s| then s[i] else '\0'
  }

  method MatchHere(re: string, text: string) returns (b: bool)
    requires '\0' !in re && '\0' !in text
    ensures b <==> Here(re, text)
    decreases |re|, 0
  {
    hide Here;
    if At(re, 0) == '\0' {
      HereEmpty(text);
      return true;
    }
    if At(re, 1) == '*' {
      HereMany(re, text);
      b := MatchStar(re[0], re[2..], text);
      return;
    }
    if re[0] == '$' && At(re, 1) == '\0' {
      assert re == "$";
      HereEnd(text);
      return At(text, 0) == '\0';
    }
    HereOne(re, text);
    if At(text, 0) != '\0' && (re[0] == '.' || re[0] == text[0]) {
      b := MatchHere(re[1..], text[1..]);
      return;
    }
    return false;
  }

  method MatchStar(c: char, re: string, text: string) returns (b: bool)
    requires '\0' !in re && '\0' !in text && c != '\0'
    ensures b <==> exists k :: StarUpTo(c, re, text, k)
    decreases |re|, 1
  {
    hide Here;
    var i := 0;
    while true
      invariant 0 <= i <= |text| && forall j | 0 <= j < i :: Fits(c, text[j]) && !Here(re, text[j..])
      decreases |text| - i
    {
      b := MatchHere(re, text[i..]);
      if b {
        assert StarUpTo(c, re, text, i);
        return;
      }
      if !(At(text, i) != '\0' && (At(text, i) == c || c == '.')) {
        StarStops(c, re, text, i);
        return;
      }
      i := i + 1;
    }
  }

  lemma StarStops(c: char, re: string, text: string, i: nat)
    requires i <= |text| && (i < |text| ==> !Fits(c, text[i])) && forall j | 0 <= j <= i :: !Here(re, text[j..])
    ensures forall k :: !StarUpTo(c, re, text, k)
  {
    hide Here;
  }

  method Match(re: string, text: string) returns (b: bool)
    requires '\0' !in re && '\0' !in text
    ensures b <==> Somewhere(re, text)
  {
    hide Here;
    if At(re, 0) == '^' {
      b := MatchHere(re[1..], text);
      return;
    }
    var i := 0;
    while true
      invariant 0 <= i <= |text| && forall j | 0 <= j < i :: !Here(re, text[j..])
      decreases |text| - i
    {
      b := MatchHere(re, text[i..]);
      if b || At(text, i) == '\0' {
        return;
      }
      i := i + 1;
    }
  }
}
