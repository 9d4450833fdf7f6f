/** Splitting texts at a separator character: the reasoning behind recovering the parts of a message. */
module Texts {
  lemma StripPrefix(p: string, x: string, y: string)
    requires p + x == p + y
    ensures x == y
  {
    assert x == (p + x)[|p|..];
    assert y == (p + y)[|p|..];
  }

  /** The position of the first `c` in `s`, or `|s|` when there is none. */
  function FirstIndex(c: char, s: string): nat
  {
    if s == [] || s[0] == c then 0 else 1 + FirstIndex(c, s[1..])
  }

  /** `FirstIndex` finds the first occurrence, and runs off the end exactly when there is none. */
  lemma {:induction false} FirstIndexBound(c: char, s: string)
    ensures FirstIndex(c, s) <= |s|
    ensures FirstIndex(c, s) == |s| <==> c !in s
    ensures FirstIndex(c, s) < |s| ==> s[FirstIndex(c, s)] == c && c !in s[..FirstIndex(c, s)]
  {
    if s != [] && s[0] != c {
      FirstIndexBound(c, s[1..]);
      assert s == [s[0]] + s[1..];
    }
  }

  lemma {:induction false} FirstIndexAfterHead(c: char, x: string, r: string)
    requires c !in x
    ensures FirstIndex(c, x + ([c] + r)) == |x|
  {
    if x != [] {
      assert (x + ([c] + r))[1..] == x[1..] + ([c] + r);
      FirstIndexAfterHead(c, x[1..], r);
    }
  }

  /** Two strings that each continue with `c` after a `c`-free head split identically. */
  lemma SplitAt(c: char, x: string, r: string, y: string, t: string)
    requires c !in x && c !in y
    requires x + ([c] + r) == y + ([c] + t)
    ensures x == y && r == t
  {
    var s := x + ([c] + r);
    FirstIndexAfterHead(c, x, r);
    FirstIndexAfterHead(c, y, t);
    assert x == s[..|x|];
    assert y == s[..|y|];
    assert s == (x + [c]) + r;
    assert y + ([c] + t) == (x + [c]) + t;
    StripPrefix(x + [c], r, t);
  }

  /**
    Two texts `p + x + s + y` and `p + x' + s + y'` that agree, where the character `s[k]` occurs
    neither in `x`, in `x'` nor earlier in `s`, agree part by part.
  */
  lemma SplitAround(p: string, x: string, s: string, y: string, x2: string, y2: string, k: nat)
    requires k < |s| && s[k] !in x && s[k] !in x2 && s[k] !in s[..k]
    requires p + x + s + y == p + x2 + s + y2
    ensures x == x2 && y == y2
  {
    var c := s[k];
    assert p + x + s + y == p + ((x + s[..k]) + ([c] + (s[k + 1..] + y)));
    assert p + x2 + s + y2 == p + ((x2 + s[..k]) + ([c] + (s[k + 1..] + y2)));
    StripPrefix(p, (x + s[..k]) + ([c] + (s[k + 1..] + y)), (x2 + s[..k]) + ([c] + (s[k + 1..] + y2)));
    SplitAt(c, x + s[..k], s[k + 1..] + y, x2 + s[..k], s[k + 1..] + y2);
    assert x == (x + s[..k])[..|x|];
    assert x2 == (x2 + s[..k])[..|x2|];
    StripPrefix(s[k + 1..], y, y2);
  }

  /** How often `c` occurs in `s`. */
  function Occurrences(c: char, s: string): nat
  {
    if s == [] then 0 else (if s[0] == c then 1 else 0) + Occurrences(c, s[1..])
  }

  lemma {:induction false} OccurrencesOfConcat(c: char, a: string, b: string)
    ensures Occurrences(c, a + b) == Occurrences(c, a) + Occurrences(c, b)
  {
    if a == [] {
      assert a + b == b;
    } else {
      assert (a + b)[0] == a[0];
      assert (a + b)[1..] == a[1..] + b;
      OccurrencesOfConcat(c, a[1..], b);
    }
  }

  lemma {:induction false} NoOccurrences(c: char, s: string)
    requires c !in s
    ensures Occurrences(c, s) == 0
  {
    if s != [] {
      NoOccurrences(c, s[1..]);
    }
  }
}
