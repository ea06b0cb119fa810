/** Splitting strings at a character, and prefixes. */
module Paths {

  /** The part of `s` before the first `c`, or all of it. */
  function Before(s: string, c: char): string {
    if s == [] || s[0] == c then [] else [s[0]] + Before(s[1..], c)
  }

  /** The part of `s` after the first `c`, or nothing. */
  function After(s: string, c: char): string {
    if s == [] then [] else if s[0] == c then s[1..] else After(s[1..], c)
  }

  lemma {:induction false} SplitsAt(a: string, c: char, rest: string)
    requires c !in a
    ensures Before(a + [c] + rest, c) == a && After(a + [c] + rest, c) == rest
    ensures Before(a, c) == a && After(a, c) == ""
    decreases |a|
  {
    var s := a + [c] + rest;
    if a == [] {
      assert s == [c] + rest && s[1..] == rest;
    } else {
      assert s[1..] == a[1..] + [c] + rest;
      SplitsAt(a[1..], c, rest);
    }
  }

  lemma {:induction false} BeforeLacks(s: string, c: char)
    ensures c !in Before(s, c)
    decreases |s|
  {
    if s != [] && s[0] != c {
      BeforeLacks(s[1..], c);
    }
  }

  lemma Prepends(x: char, a: string, c: char, b: string)
    ensures [x] + a + [c] + b == [x] + (a + [c] + b)
  {}

  lemma {:induction false} Rejoins(s: string, c: char)
    ensures if c in s then s == Before(s, c) + [c] + After(s, c) else s == Before(s, c) && After(s, c) == ""
    decreases |s|
  {
    if s != [] {
      assert s == [s[0]] + s[1..];
      if s[0] != c {
        Rejoins(s[1..], c);
        Prepends(s[0], Before(s[1..], c), c, After(s[1..], c));
      }
    }
  }

  lemma SplitIsWhole(s: string, c: char)
    ensures c !in Before(s, c)
    ensures c in s ==> s == Before(s, c) + [c] + After(s, c)
    ensures c !in s ==> s == Before(s, c) && After(s, c) == ""
    ensures Before(s, c) <= s
  {
    BeforeLacks(s, c);
    Rejoins(s, c);
  }

  /** Splitting adds no character. */
  lemma {:induction false} PartsOf(s: string, c: char)
    ensures forall x :: x in Before(s, c) || x in After(s, c) ==> x in s
    decreases |s|
  {
    if s != [] {
      assert forall x :: x in s[1..] ==> x in s;
      if s[0] != c {
        PartsOf(s[1..], c);
        assert forall x :: x in Before(s, c) ==> x == s[0] || x in Before(s[1..], c);
      }
    }
  }

  /** Two prefixes of one string are comparable. */
  lemma Comparable(a: string, b: string, s: string)
    requires a <= s && b <= s
    ensures |a| <= |b| ==> a <= b
    ensures |b| <= |a| ==> b <= a
  {
    if |a| <= |b| {
      assert a == s[..|a|] == b[..|a|];
    } else {
      assert b == s[..|b|] == a[..|b|];
    }
  }

  /** The first segment depends on the text before the slash only. */
  lemma {:induction false} SameFirstSegment(a: string, r1: string, r2: string)
    ensures Before(a + "/" + r1, '/') == Before(a + "/" + r2, '/')
    decreases |a|
  {
    var s1, s2 := a + "/" + r1, a + "/" + r2;
    if a != [] {
      assert s1[1..] == a[1..] + "/" + r1 && s2[1..] == a[1..] + "/" + r2;
      SameFirstSegment(a[1..], r1, r2);
    }
  }
}
