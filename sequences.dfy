/**
 * Facts about lists of strings shared by both stores: a JavaScript `Set` and
 * the Rugged selection are lists without repeats, and both stores count
 * occurrences.
 */
module Sequences {

  /** No value occurs twice. */
  predicate NoDuplicates(s: seq<string>) {
    forall i, j :: 0 <= i < j < |s| ==> s[i] != s[j]
  }

  /** How many times `x` occurs in `s`. */
  function Count(s: seq<string>, x: string): nat {
    if s == [] then 0 else (if s[0] == x then 1 else 0) + Count(s[1..], x)
  }

  /** One more value at the end adds one occurrence of it and of nothing else. */
  lemma {:induction false} CountSnoc(s: seq<string>, x: string)
    ensures forall p :: Count(s + [x], p) == Count(s, p) + (if p == x then 1 else 0)
  {
    if s != [] {
      assert (s + [x])[0] == s[0] && (s + [x])[1..] == s[1..] + [x];
      CountSnoc(s[1..], x);
    }
  }

  /** In a list without duplicates a member occurs exactly once. */
  lemma {:induction false} OccursOnce(s: seq<string>, x: string)
    requires NoDuplicates(s) && x in s
    ensures Count(s, x) == 1
  {
    if s[0] == x {
      assert x !in s[1..];
      CountAbsent(s[1..], x);
    } else {
      OccursOnce(s[1..], x);
    }
  }

  /** A value that is not in the list occurs zero times. */
  lemma {:induction false} CountAbsent(s: seq<string>, x: string)
    requires x !in s
    ensures Count(s, x) == 0
  {
    if s != [] {
      CountAbsent(s[1..], x);
    }
  }
}
