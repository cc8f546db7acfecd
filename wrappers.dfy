/** Small shared vocabulary: an optional value and "no duplicates" for sequences. */
module Wrappers {

  /** A JavaScript value that may be `undefined` (or `null`). */
  datatype Option<T> = None | Some(value: T)

  /** No element of `s` occurs twice. */
  predicate NoDup<T(==)>(s: seq<T>) {
    forall i, j :: 0 <= i < j < |s| ==> s[i] != s[j]
  }

  /** A sequence with the same multiset of elements as a duplicate-free one is duplicate-free. */
  lemma NoDupPermutation<T>(s: seq<T>, t: seq<T>)
    requires NoDup(s) && multiset(s) <= multiset(t) && multiset(t) <= multiset(s)
    ensures NoDup(t)
  {
    forall x ensures multiset(t)[x] <= 1 {
      MultiplicityAtMostOne(s, x);
    }
    NoDupFromMultiplicity(t);
  }

  /** A sequence in which nothing occurs twice is duplicate-free. */
  lemma NoDupFromMultiplicity<T>(t: seq<T>)
    requires forall x :: multiset(t)[x] <= 1
    ensures NoDup(t)
  {
    forall i, j | 0 <= i < j < |t|
      ensures t[i] != t[j]
    {
      if t[i] == t[j] {
        TwoOccurrences(t, i, j);
      }
    }
  }

  /** An element found at two indices occurs at least twice. */
  lemma TwoOccurrences<T>(t: seq<T>, i: nat, j: nat)
    requires i < j < |t| && t[i] == t[j]
    ensures multiset(t)[t[i]] >= 2
  {
    assert t == t[..i] + [t[i]] + t[i+1..j] + [t[j]] + t[j+1..];
  }

  /** In a duplicate-free sequence every element occurs at most once. */
  lemma {:induction false} MultiplicityAtMostOne<T>(s: seq<T>, x: T)
    requires NoDup(s)
    ensures multiset(s)[x] <= 1
  {
    if s != [] {
      assert s == [s[0]] + s[1..];
      MultiplicityAtMostOne(s[1..], x);
      if s[0] == x {
        assert x !in s[1..];
      }
    }
  }
}
