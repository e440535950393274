/** Sequences kept in order: selection by a set of keys, deduplication, pigeonhole. */
module Sequences {

  /** The elements of `s` that lie in `keys`, in their original order. */
  function Keep<T(==,!new)>(s: seq<T>, keys: set<T>): (r: seq<T>)
    ensures forall x :: x in r <==> x in s && x in keys
  {
    if s == [] then []
    else
      var last := s[|s| - 1];
      if last in keys then Keep(s[..|s| - 1], keys) + [last] else Keep(s[..|s| - 1], keys)
  }

  ghost predicate Distinct<T>(s: seq<T>) {
    forall i, j :: 0 <= i < j < |s| ==> s[i] != s[j]
  }

  lemma KeepSnoc<T(!new)>(s: seq<T>, x: T, keys: set<T>)
    ensures Keep(s + [x], keys) == if x in keys then Keep(s, keys) + [x] else Keep(s, keys)
  {
    assert (s + [x])[..|s|] == s;
  }

  /** Only the members of `s` matter to what is kept. */
  lemma {:induction false} KeepAgree<T(!new)>(s: seq<T>, a: set<T>, b: set<T>)
    requires forall x :: x in s ==> (x in a <==> x in b)
    ensures Keep(s, a) == Keep(s, b)
  {
    if s != [] {
      KeepAgree(s[..|s| - 1], a, b);
    }
  }

  lemma {:induction false} KeepAll<T(!new)>(s: seq<T>, keys: set<T>)
    requires forall x :: x in s ==> x in keys
    ensures Keep(s, keys) == s
  {
    if s != [] {
      KeepAll(s[..|s| - 1], keys);
    }
  }

  lemma {:induction false} KeepKeep<T(!new)>(s: seq<T>, a: set<T>, b: set<T>)
    ensures Keep(Keep(s, a), b) == Keep(s, a * b)
  {
    if s != [] {
      var last := s[|s| - 1];
      KeepKeep(s[..|s| - 1], a, b);
      if last in a {
        KeepSnoc(Keep(s[..|s| - 1], a), last, b);
      }
    }
  }

  lemma {:induction false} KeepDistinct<T(!new)>(s: seq<T>, keys: set<T>)
    requires Distinct(s)
    ensures Distinct(Keep(s, keys))
  {
    if s != [] {
      KeepDistinct(s[..|s| - 1], keys);
    }
  }

  /** A list with no repetition is no longer than a set that holds all its members. */
  lemma {:induction false} Pigeonhole<T(!new)>(s: seq<T>, keys: set<T>)
    requires Distinct(s)
    requires forall x :: x in s ==> x in keys
    ensures |s| <= |keys|
  {
    if s != [] {
      var last := s[|s| - 1];
      Pigeonhole(s[..|s| - 1], keys - {last});
    }
  }
}
