/**
  * The handful of Python `str` operations the recipe graph relies on: `lower`,
  * the `in` substring test, `split()`, `strip()`, `replace(w, '')` and the
  * code-point ordering that `sorted` uses on strings.
  */
module Text {

  /** Python's `str.isspace` (the separators `split()` and `strip()` use). */
  predicate IsSpace(c: char) {
    || ('\t' <= c <= '\r')
    || ('\U{1C}' <= c <= '\U{1F}')
    || c == ' '
    || c == '\U{85}'
    || c == '\U{A0}'
    || c == '\U{1680}'
    || ('\U{2000}' <= c <= '\U{200A}')
    || c == '\U{2028}'
    || c == '\U{2029}'
    || c == '\U{202F}'
    || c == '\U{205F}'
    || c == '\U{3000}'
  }

  /** `str.lower` on ASCII letters; every other character is its own lower case. */
  function LowerChar(c: char): char {
    if 'A' <= c <= 'Z' then (c as int + 32) as char else c
  }

  function Lower(s: string): (r: string)
    ensures |r| == |s|
    ensures forall i :: 0 <= i < |s| ==> r[i] == LowerChar(s[i])
  {
    if s == [] then [] else [LowerChar(s[0])] + Lower(s[1..])
  }

  /** `sub` occurs in `s` starting at index `i`. */
  predicate OccursAt(s: string, sub: string, i: int) {
    0 <= i <= |s| - |sub| && s[i..i + |sub|] == sub
  }

  /** Python's `sub in s`. */
  predicate Contains(s: string, sub: string) {
    exists i | 0 <= i <= |s| :: OccursAt(s, sub, i)
  }

  lemma ContainsSelf(s: string)
    ensures Contains(s, s)
  {
    assert OccursAt(s, s, 0);
  }

  /** Lowering commutes with taking a slice, so a substring stays a substring after lowering. */
  lemma {:induction false} LowerKeepsContains(s: string, sub: string)
    requires Contains(s, sub)
    ensures Contains(Lower(s), Lower(sub))
  {
    var i :| 0 <= i <= |s| && OccursAt(s, sub, i);
    assert 0 <= i <= |s| - |sub| && s[i..i + |sub|] == sub;
    var ls, lsub := Lower(s), Lower(sub);
    forall k | 0 <= k < |sub|
      ensures ls[i..i + |sub|][k] == lsub[k]
    {
      assert s[i + k] == sub[k];
    }
    assert ls[i..i + |sub|] == lsub;
    assert OccursAt(ls, lsub, i);
  }

  /** A substring of a substring is a substring. */
  lemma ContainsTrans(a: string, b: string, c: string)
    requires Contains(a, b) && Contains(b, c)
    ensures Contains(a, c)
  {
    var i :| 0 <= i <= |a| && OccursAt(a, b, i);
    var j :| 0 <= j <= |b| && OccursAt(b, c, j);
    assert a[i..i + |b|] == b;
    forall k | 0 <= k < |c|
      ensures a[i + j + k] == c[k]
    {
      assert a[i + j + k] == a[i..i + |b|][j + k] == b[j + k];
      assert b[j..j + |c|][k] == c[k];
    }
    assert a[i + j..i + j + |c|] == c;
    assert OccursAt(a, c, i + j);
  }

  /** Python's `str.split()` with no argument: the maximal runs of non-space characters. */
  function Split(s: string): seq<string> {
    SplitFrom(s, [])
  }

  /** Splits `s` while `word` holds the characters of the token read so far. */
  function SplitFrom(s: string, word: string): seq<string>
    decreases |s|
  {
    if s == [] then
      (if word == [] then [] else [word])
    else if IsSpace(s[0]) then
      (if word == [] then [] else [word]) + SplitFrom(s[1..], [])
    else
      SplitFrom(s[1..], word + [s[0]])
  }

  predicate IsToken(w: string) {
    w != [] && forall i :: 0 <= i < |w| ==> !IsSpace(w[i])
  }

  /** Every word `split()` returns is non-empty, free of spaces and occurs in the string. */
  lemma {:induction false} SplitTokens(s: string, word: string, w: string)
    requires forall i :: 0 <= i < |word| ==> !IsSpace(word[i])
    requires w in SplitFrom(s, word)
    ensures IsToken(w)
    ensures Contains(word + s, w)
    decreases |s|
  {
    if s == [] {
      assert w == word;
      ContainsSelf(word);
      assert word + s == word;
    } else if IsSpace(s[0]) {
      if word != [] && w == word {
        assert (word + s)[0..|w|] == w;
        assert OccursAt(word + s, w, 0);
      } else {
        assert w in SplitFrom(s[1..], []);
        SplitTokens(s[1..], [], w);
        assert [] + s[1..] == s[1..];
        ContainsShift(word, s, w);
      }
    } else {
      SplitTokens(s[1..], word + [s[0]], w);
      assert (word + [s[0]]) + s[1..] == word + s;
    }
  }

  /** An occurrence after the first character of `s` is an occurrence in `word + s`. */
  lemma ContainsShift(word: string, s: string, w: string)
    requires s != [] && Contains(s[1..], w)
    ensures Contains(word + s, w)
  {
    var t := s[1..];
    var i :| 0 <= i <= |t| && OccursAt(t, w, i);
    var j := |word| + 1 + i;
    assert (word + s)[j..j + |w|] == t[i..i + |w|];
    assert OccursAt(word + s, w, j);
  }

  lemma SplitTokensOf(s: string, w: string)
    requires w in Split(s)
    ensures IsToken(w) && Contains(s, w)
  {
    SplitTokens(s, [], w);
    assert [] + s == s;
  }

  /** Python's `str.strip()`. */
  function Strip(s: string): string {
    StripRight(StripLeft(s))
  }

  function StripLeft(s: string): (r: string)
    ensures |r| <= |s|
    ensures r != [] ==> !IsSpace(r[0])
    ensures r == s[|s| - |r|..]
  {
    if s != [] && IsSpace(s[0]) then StripLeft(s[1..]) else s
  }

  function StripRight(s: string): (r: string)
    ensures |r| <= |s|
    ensures r != [] ==> !IsSpace(r[|r| - 1])
    ensures r == s[..|r|]
  {
    if s != [] && IsSpace(s[|s| - 1]) then StripRight(s[..|s| - 1]) else s
  }

  /** Neither the first nor the last character is a space. */
  predicate Trimmed(r: string) {
    r != [] ==> !IsSpace(r[0]) && !IsSpace(r[|r| - 1])
  }

  /** The result of `strip()` neither starts nor ends with a space. */
  lemma StripTrims(s: string)
    ensures Trimmed(Strip(s))
  {
    var l := StripLeft(s);
    var r := StripRight(l);
    if r != [] {
      assert r[0] == l[0];
    }
  }

  /** Python's `s.replace(w, '')` for a non-empty `w`: one left-to-right pass that drops every non-overlapping occurrence. */
  function RemoveAll(s: string, w: string): (r: string)
    requires w != []
    ensures |r| <= |s|
    decreases |s|
  {
    if |s| < |w| then s
    else if s[..|w|] == w then RemoveAll(s[|w|..], w)
    else [s[0]] + RemoveAll(s[1..], w)
  }

  /** Python's `a < b` on strings: lexicographic by code point, a proper prefix first. */
  predicate StrLess(a: string, b: string)
    decreases |a|
  {
    if a == [] then b != []
    else if b == [] then false
    else if a[0] != b[0] then a[0] < b[0]
    else StrLess(a[1..], b[1..])
  }

  lemma {:induction false} StrLessIrreflexive(a: string)
    ensures !StrLess(a, a)
    decreases |a|
  {
    if a != [] {
      StrLessIrreflexive(a[1..]);
    }
  }

  /** Two different strings are ordered one way or the other, and never both. */
  lemma {:induction false} StrLessTotal(a: string, b: string)
    ensures a != b ==> StrLess(a, b) || StrLess(b, a)
    ensures !(StrLess(a, b) && StrLess(b, a))
    decreases |a|
  {
    if a != [] && b != [] && a[0] == b[0] {
      StrLessTotal(a[1..], b[1..]);
      if a != b {
        assert a == [a[0]] + a[1..] && b == [b[0]] + b[1..];
      }
    }
  }

  /** The characters of a string, as Python's `set(s)`. */
  function CharSet(s: string): set<char> {
    set i | 0 <= i < |s| :: s[i]
  }
}
