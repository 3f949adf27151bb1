/** Order-preserving filtering of sequences, the shape of every "for each, add if" loop in the core. */
module Sequences {

  /** The elements of s that satisfy p, in their original order. */
  function Filter<T>(s: seq<T>, p: T -> bool): (r: seq<T>)
    ensures |r| <= |s|
  {
    if s == [] then []
    else Filter(s[..|s| - 1], p) + (if p(s[|s| - 1]) then [s[|s| - 1]] else [])
  }

  /** The positions i of s at which p(s[i]) holds, in ascending order. */
  function FilterIndices<T>(s: seq<T>, p: T -> bool): seq<nat>
  {
    if s == [] then []
    else FilterIndices(s[..|s| - 1], p) + (if p(s[|s| - 1]) then [|s| - 1] else [])
  }

  ghost predicate StrictlyIncreasing(idx: seq<nat>)
  {
    forall a, b :: 0 <= a < b < |idx| ==> idx[a] < idx[b]
  }

  /** The selected positions are in range and strictly increasing. */
  lemma {:induction false} FilterIndicesIncreasing<T>(s: seq<T>, p: T -> bool)
    ensures forall k :: 0 <= k < |FilterIndices(s, p)| ==> FilterIndices(s, p)[k] < |s|
    ensures StrictlyIncreasing(FilterIndices(s, p))
  {
    if s != [] {
      FilterIndicesIncreasing(s[..|s| - 1], p);
    }
  }

  /** A position is selected exactly when the element there satisfies p. */
  lemma {:induction false} FilterIndicesExact<T>(s: seq<T>, p: T -> bool)
    ensures forall i :: 0 <= i < |s| ==> (i in FilterIndices(s, p) <==> p(s[i]))
  {
    if s != [] {
      var n := |s| - 1;
      FilterIndicesExact(s[..n], p);
      FilterIndicesIncreasing(s[..n], p);
      forall i | 0 <= i < n
        ensures i in FilterIndices(s, p) <==> p(s[i])
      {
        assert s[..n][i] == s[i];
      }
    }
  }

  /** The k-th kept element is the element at the k-th selected position. */
  lemma {:induction false} FilterAtIndices<T>(s: seq<T>, p: T -> bool)
    ensures |FilterIndices(s, p)| == |Filter(s, p)|
    ensures forall k :: 0 <= k < |Filter(s, p)| ==>
      FilterIndices(s, p)[k] < |s| && Filter(s, p)[k] == s[FilterIndices(s, p)[k]]
  {
    FilterIndicesIncreasing(s, p);
    if s != [] {
      var n := |s| - 1;
      FilterAtIndices(s[..n], p);
      FilterIndicesIncreasing(s[..n], p);
      var idx, r := FilterIndices(s[..n], p), Filter(s[..n], p);
      forall k | 0 <= k < |r|
        ensures Filter(s, p)[k] == s[idx[k]]
      {
        assert s[..n][idx[k]] == s[idx[k]];
      }
    }
  }

  /**
   * Filter(s, p) is the subsequence of s taken at exactly the positions where p holds:
   * the positions are strictly increasing, every one satisfies p, and every position
   * satisfying p is taken.
   */
  lemma FilterSelectsInOrder<T>(s: seq<T>, p: T -> bool)
    ensures |FilterIndices(s, p)| == |Filter(s, p)|
    ensures StrictlyIncreasing(FilterIndices(s, p))
    ensures forall k :: 0 <= k < |FilterIndices(s, p)| ==>
      FilterIndices(s, p)[k] < |s| && Filter(s, p)[k] == s[FilterIndices(s, p)[k]]
    ensures forall i :: 0 <= i < |s| ==> (i in FilterIndices(s, p) <==> p(s[i]))
  {
    FilterIndicesIncreasing(s, p);
    FilterIndicesExact(s, p);
    FilterAtIndices(s, p);
  }

  /** Membership in the filtered sequence, both directions. */
  lemma {:induction false} FilterMembership<T>(s: seq<T>, p: T -> bool, x: T)
    ensures x in Filter(s, p) <==> x in s && p(x)
  {
    if s != [] {
      var n := |s| - 1;
      FilterMembership(s[..n], p, x);
      assert s == s[..n] + [s[n]];
    }
  }

  /** Two pointwise-equal predicates filter every sequence the same way. */
  lemma {:induction false} FilterExtensional<T>(s: seq<T>, p: T -> bool, q: T -> bool)
    requires forall x :: x in s ==> p(x) == q(x)
    ensures Filter(s, p) == Filter(s, q)
  {
    if s != [] {
      var n := |s| - 1;
      assert forall x :: x in s[..n] ==> x in s;
      FilterExtensional(s[..n], p, q);
    }
  }

  /** Filtering with a predicate that every element meets changes nothing. */
  lemma {:induction false} FilterKeepsAll<T>(s: seq<T>, p: T -> bool)
    requires forall i :: 0 <= i < |s| ==> p(s[i])
    ensures Filter(s, p) == s
  {
    if s != [] {
      var n := |s| - 1;
      assert forall i :: 0 <= i < n ==> s[..n][i] == s[i];
      FilterKeepsAll(s[..n], p);
      assert s == s[..n] + [s[n]];
    }
  }

  /** Multiset of a filtered sequence: the elements of s satisfying p, with their multiplicities. */
  lemma {:induction false} FilterMultiset<T>(s: seq<T>, p: T -> bool, x: T)
    ensures multiset(Filter(s, p))[x] == if p(x) then multiset(s)[x] else 0
  {
    if s != [] {
      var n := |s| - 1;
      FilterMultiset(s[..n], p, x);
      assert s == s[..n] + [s[n]];
    }
  }
}
