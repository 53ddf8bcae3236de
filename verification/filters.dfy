/** Keeping the elements of a sequence that satisfy a predicate, in order and
    with their multiplicities: the shape of a Python loop that appends each
    element passing a test to a fresh list.
 */
module Filters {

  import opened Subsequences

  /** The elements of `s` that satisfy `p`, in their original order. */
  function Filter<T(!new)>(p: T -> bool, s: seq<T>): (r: seq<T>)
    ensures |r| <= |s|
  {
    if |s| == 0 then []
    else
      var previous := Filter(p, s[..|s| - 1]);
      if p(s[|s| - 1]) then previous + [s[|s| - 1]] else previous
  }

  /** Every element satisfying `p` is kept as often as it occurs in `s`; every
      other element is dropped. */
  lemma {:induction false} FilterCounts<T(!new)>(p: T -> bool, s: seq<T>)
    ensures forall x :: multiset(Filter(p, s))[x] == if p(x) then multiset(s)[x] else 0
  {
    if |s| > 0 {
      var init, last := s[..|s| - 1], s[|s| - 1];
      FilterCounts(p, init);
      assert s == init + [last];
    }
  }

  /** The positions of `s` whose elements satisfy `p`, in increasing order. */
  function Positions<T(!new)>(p: T -> bool, s: seq<T>): (idx: seq<nat>)
    ensures forall k :: 0 <= k < |idx| ==> idx[k] < |s| && p(s[idx[k]])
    ensures forall k, l :: 0 <= k < l < |idx| ==> idx[k] < idx[l]
    ensures forall j :: 0 <= j < |s| && p(s[j]) ==> j in idx
  {
    if |s| == 0 then []
    else
      var previous := Positions(p, s[..|s| - 1]);
      assert forall k :: 0 <= k < |previous| ==> s[previous[k]] == s[..|s| - 1][previous[k]];
      if p(s[|s| - 1]) then previous + [|s| - 1] else previous
  }

  /** The filtered sequence lists, one for one, the elements at the positions
      that satisfy `p`. */
  lemma {:induction false} FilterFollowsPositions<T(!new)>(p: T -> bool, s: seq<T>)
    ensures |Filter(p, s)| == |Positions(p, s)|
    ensures forall k :: 0 <= k < |Filter(p, s)| ==> Filter(p, s)[k] == s[Positions(p, s)[k]]
  {
    if |s| > 0 {
      var init, last := s[..|s| - 1], s[|s| - 1];
      FilterFollowsPositions(p, init);
      var r, idx := Filter(p, init), Positions(p, init);
      var r', idx' := Filter(p, s), Positions(p, s);
      if p(last) {
        assert r' == r + [last];
        assert idx' == idx + [|s| - 1];
      } else {
        assert r' == r && idx' == idx;
      }
      forall k | 0 <= k < |r'|
        ensures r'[k] == s[idx'[k]]
      {
        if k < |r| {
          assert s[idx[k]] == init[idx[k]];
        }
      }
    }
  }

  /** The filtered sequence is an order-preserving subsequence of the input. */
  lemma FilterIsSubsequence<T(!new)>(p: T -> bool, s: seq<T>)
    ensures IsSubsequence(Filter(p, s), s)
  {
    FilterFollowsPositions(p, s);
    assert Embedding(Filter(p, s), s, Positions(p, s));
  }

  /** An element is kept exactly when it occurs in the input and satisfies `p`. */
  lemma FilterMembership<T(!new)>(p: T -> bool, s: seq<T>)
    ensures forall x :: x in Filter(p, s) <==> x in s && p(x)
  {
    var r := Filter(p, s);
    FilterCounts(p, s);
    forall x
      ensures x in r <==> x in s && p(x)
    {
      assert x in r <==> multiset(r)[x] > 0;
      assert x in s <==> multiset(s)[x] > 0;
    }
  }

  /** Filtering with a weaker test keeps everything a stronger one keeps, in
      the same order. */
  lemma {:induction false} FilterMonotonic<T(!new)>(p: T -> bool, q: T -> bool, s: seq<T>)
    requires forall x :: p(x) ==> q(x)
    ensures IsSubsequence(Filter(p, s), Filter(q, s))
  {
    if |s| == 0 {
      EmptyIsSubsequence(Filter(q, s));
    } else {
      var init, last := s[..|s| - 1], s[|s| - 1];
      FilterMonotonic(p, q, init);
      var r, r' := Filter(p, init), Filter(q, init);
      if p(last) {
        ExtendBoth(r, r', last);
      } else if q(last) {
        ExtendRight(r, r', last);
      }
    }
  }

  /** Filtering a concatenation concatenates the filtered parts. */
  lemma {:induction false} FilterAppend<T(!new)>(p: T -> bool, first: seq<T>, second: seq<T>)
    ensures Filter(p, first + second) == Filter(p, first) + Filter(p, second)
  {
    if |second| == 0 {
      assert first + second == first;
    } else {
      var init, last := second[..|second| - 1], second[|second| - 1];
      FilterAppend(p, first, init);
      var whole := first + second;
      assert whole[..|whole| - 1] == first + init;
      var a, b := Filter(p, first), Filter(p, init);
      if p(last) {
        assert (a + b) + [last] == a + (b + [last]);
      }
    }
  }

  /** Filtering a second time with the same test changes nothing. */
  lemma {:induction false} FilterIdempotent<T(!new)>(p: T -> bool, s: seq<T>)
    ensures Filter(p, Filter(p, s)) == Filter(p, s)
  {
    if |s| > 0 {
      var init, last := s[..|s| - 1], s[|s| - 1];
      FilterIdempotent(p, init);
      if p(last) {
        FilterAppend(p, Filter(p, init), [last]);
        assert [last][..0] == [];
      }
    }
  }
}
