/** Small facts about sequences used by the graph and the cache. */
module Sequences {

  /** No element occurs twice in `s`. */
  predicate NoDuplicates<T(==)>(s: seq<T>) {
    forall i, j :: 0 <= i < j < |s| ==> s[i] != s[j]
  }

  /** The position of the first occurrence of `x` in `s`. */
  function FirstIndex<T(==)>(s: seq<T>, x: T): (k: nat)
    requires x in s
    ensures k < |s| && s[k] == x && x !in s[..k]
  {
    if s[0] == x then 0 else 1 + FirstIndex(s[1..], x)
  }

  /** `r` is `s` with some elements dropped and the others kept in their order. */
  predicate IsSubsequence<T(==)>(r: seq<T>, s: seq<T>)
    decreases |s|
  {
    if r == [] then true
    else if s == [] then false
    else (r[0] == s[0] && IsSubsequence(r[1..], s[1..])) || IsSubsequence(r, s[1..])
  }

  /** Everything in a subsequence is in the sequence. */
  lemma {:induction false} SubsequenceMembers<T>(r: seq<T>, s: seq<T>)
    requires IsSubsequence(r, s)
    ensures forall z :: z in r ==> z in s
    decreases |s|
  {
    if r != [] {
      if r[0] == s[0] && IsSubsequence(r[1..], s[1..]) {
        SubsequenceMembers(r[1..], s[1..]);
        assert r == [r[0]] + r[1..];
      } else {
        SubsequenceMembers(r, s[1..]);
      }
    }
  }

  /** A subsequence of a sequence without duplicates keeps the relative order of its elements. */
  lemma {:induction false} SubsequenceOrder<T>(r: seq<T>, s: seq<T>, x: T, y: T)
    requires IsSubsequence(r, s) && NoDuplicates(s)
    requires x in r && y in r && x in s && y in s && FirstIndex(s, x) < FirstIndex(s, y)
    ensures FirstIndex(r, x) < FirstIndex(r, y)
    decreases |s|
  {
    if r[0] == s[0] && IsSubsequence(r[1..], s[1..]) {
      if s[0] != x {
        assert s[0] != y;
        assert x in r[1..] && y in r[1..];
        SubsequenceMembers(r[1..], s[1..]);
        SubsequenceOrder(r[1..], s[1..], x, y);
      }
    } else {
      SubsequenceMembers(r, s[1..]);
      assert s[0] !in s[1..];
      SubsequenceOrder(r, s[1..], x, y);
    }
  }

  /** Appending leaves the first position of an element already present unchanged. */
  lemma {:induction false} FirstIndexConcat<T>(a: seq<T>, b: seq<T>, x: T)
    requires x in a
    ensures FirstIndex(a + b, x) == FirstIndex(a, x)
  {
    if a[0] != x {
      assert (a + b)[1..] == a[1..] + b;
      FirstIndexConcat(a[1..], b, x);
    }
  }

  /** `s` with every occurrence of `k` taken out, the rest in order. */
  function Without<T(==)>(s: seq<T>, k: T): (r: seq<T>)
    ensures IsSubsequence(r, s)
    ensures forall i :: 0 <= i < |r| ==> r[i] in s && r[i] != k
    ensures forall i :: 0 <= i < |s| && s[i] != k ==> s[i] in r
    ensures k !in s ==> r == s
    ensures NoDuplicates(s) ==> NoDuplicates(r)
    ensures NoDuplicates(s) && k in s ==> |r| == |s| - 1
  {
    if s == [] then []
    else if s[0] == k then Without(s[1..], k)
    else
      var rest := Without(s[1..], k);
      assert ([s[0]] + rest)[1..] == rest;
      [s[0]] + rest
  }

  /** A sequence without duplicates has as many elements as the set of its elements. */
  lemma {:induction false} DistinctCardinality<T>(s: seq<T>)
    requires NoDuplicates(s)
    ensures |set x | x in s| == |s|
  {
    if s != [] {
      DistinctCardinality(s[1..]);
      assert (set x | x in s) == (set x | x in s[1..]) + {s[0]};
      assert s[0] !in s[1..];
    }
  }

  /** A sequence without duplicates drawn from `elements` is no longer than `elements` is large. */
  lemma DistinctBound<T>(s: seq<T>, elements: set<T>)
    requires NoDuplicates(s)
    requires forall k :: 0 <= k < |s| ==> s[k] in elements
    ensures |s| <= |elements|
  {
    DistinctCardinality(s);
    var used := set x | x in s;
    assert elements == used + (elements - used);
  }
}
