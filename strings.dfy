/** The string operations the gloss pipeline relies on: Python's `str.lower`,
    the substring test `w in s`, and `" ".join` together with its inverse
    `str.split(" ")`. */
module Strings {

  predicate IsUpperChar(c: char) { 'A' <= c <= 'Z' }

  predicate IsLowerChar(c: char) { 'a' <= c <= 'z' }

  /** Python's `str.lower` on one character, restricted to ASCII letters. */
  function LowerChar(c: char): char
  {
    if IsUpperChar(c) then (c as int - 'A' as int + 'a' as int) as char else c
  }

  function Lower(s: string): string
  {
    seq(|s|, i requires 0 <= i < |s| => LowerChar(s[i]))
  }

  /** No character of `s` is an upper-case letter. */
  predicate IsLowercase(s: string)
  {
    forall i :: 0 <= i < |s| ==> !IsUpperChar(s[i])
  }

  /** Lowering produces a lower-case string of the same length and fixes every
      lower-case string, so lowering twice is lowering once. */
  lemma LowerProperties(s: string)
    ensures |Lower(s)| == |s|
    ensures IsLowercase(Lower(s))
    ensures IsLowercase(s) ==> Lower(s) == s
    ensures Lower(Lower(s)) == Lower(s)
  {
    var l := Lower(s);
    assert forall i :: 0 <= i < |l| ==> l[i] == LowerChar(s[i]);
    assert Lower(l) == l by {
      assert forall i :: 0 <= i < |l| ==> Lower(l)[i] == l[i];
    }
  }

  /** Python's `w in s` for two strings: `w` occurs contiguously in `s`.
      The empty string occurs in every string. */
  predicate IsSubstring(w: string, s: string)
  {
    exists i :: 0 <= i <= |s| && OccursAt(w, s, i)
  }

  /** `w` occurs in `s` starting at index `i`. */
  predicate OccursAt(w: string, s: string, i: nat)
  {
    i + |w| <= |s| && s[i..i + |w|] == w
  }

  /** Every character of a substring of `s` is a character of `s`. */
  lemma SubstringChars(w: string, s: string)
    requires IsSubstring(w, s)
    ensures forall k :: 0 <= k < |w| ==> w[k] in s
  {
    var i :| 0 <= i <= |s| && OccursAt(w, s, i);
    forall k | 0 <= k < |w| ensures w[k] in s {
      assert w[k] == s[i + k];
    }
  }

  /** Python's `" ".join(xs)`. */
  function Join(xs: seq<string>): string
  {
    if xs == [] then ""
    else if |xs| == 1 then xs[0]
    else xs[0] + " " + Join(xs[1..])
  }

  /** Python's `s.split(" ")`: the pieces between single spaces, always at
      least one piece. */
  function Split(s: string): (r: seq<string>)
    ensures |r| >= 1
  {
    if s == [] then [""]
    else if s[0] == ' ' then [""] + Split(s[1..])
    else var rest := Split(s[1..]); [[s[0]] + rest[0]] + rest[1..]
  }

  lemma {:induction false} SplitNoSpace(w: string)
    requires ' ' !in w
    ensures Split(w) == [w]
  {
    if w != [] {
      SplitNoSpace(w[1..]);
      assert [w[0]] + w[1..] == w;
    }
  }

  lemma {:induction false} SplitSpaceAfter(w: string, rest: string)
    requires ' ' !in w
    ensures Split(w + " " + rest) == [w] + Split(rest)
  {
    if w == [] {
      assert w + " " + rest == [' '] + rest;
      assert (w + " " + rest)[1..] == rest;
    } else {
      assert (w + " " + rest)[1..] == w[1..] + " " + rest;
      SplitSpaceAfter(w[1..], rest);
      assert [w[0]] + w[1..] == w;
    }
  }

  /** `" ".join` separates the pieces by exactly one space each: splitting on
      a single space recovers them, provided no piece holds a space itself.
      The one ambiguity is `[]` and `[""]`, which both join to `""`. */
  lemma {:induction false} SplitJoin(xs: seq<string>)
    requires xs != []
    requires forall i :: 0 <= i < |xs| ==> ' ' !in xs[i]
    ensures Split(Join(xs)) == xs
  {
    if |xs| == 1 {
      SplitNoSpace(xs[0]);
    } else {
      SplitJoin(xs[1..]);
      SplitSpaceAfter(xs[0], Join(xs[1..]));
      assert [xs[0]] + xs[1..] == xs;
    }
  }

  /** The joined string is exactly the pieces plus one separator between each
      two neighbours; it is empty only when every piece is empty and there is
      at most one piece. */
  lemma {:induction false} JoinLength(xs: seq<string>)
    ensures xs != [] ==> |Join(xs)| == TotalLength(xs) + |xs| - 1
    ensures Join(xs) == "" <==> (|xs| <= 1 && TotalLength(xs) == 0)
  {
    if |xs| > 1 {
      JoinLength(xs[1..]);
    }
  }

  function TotalLength(xs: seq<string>): nat
  {
    if xs == [] then 0 else |xs[0]| + TotalLength(xs[1..])
  }
}
