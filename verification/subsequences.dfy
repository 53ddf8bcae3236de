/** Order-preserving subsequences, witnessed by the positions they keep. */
module Subsequences {

  /** `idx` lists, in strictly increasing order, positions of `b` whose
      elements spell out `a`. */
  ghost predicate Embedding<T>(a: seq<T>, b: seq<T>, idx: seq<int>) {
    && |idx| == |a|
    && (forall k :: 0 <= k < |idx| ==> 0 <= idx[k] < |b| && a[k] == b[idx[k]])
    && (forall k, l :: 0 <= k < l < |idx| ==> idx[k] < idx[l])
  }

  /** `a` is `b` with some elements deleted and the rest left in order. */
  ghost predicate IsSubsequence<T>(a: seq<T>, b: seq<T>) {
    exists idx :: Embedding(a, b, idx)
  }

  /** Appending the same element to both sides keeps a subsequence. */
  lemma ExtendBoth<T>(a: seq<T>, b: seq<T>, x: T)
    requires IsSubsequence(a, b)
    ensures IsSubsequence(a + [x], b + [x])
  {
    var idx :| Embedding(a, b, idx);
    assert Embedding(a + [x], b + [x], idx + [|b|]);
  }

  /** Appending an element to the longer side keeps a subsequence. */
  lemma ExtendRight<T>(a: seq<T>, b: seq<T>, x: T)
    requires IsSubsequence(a, b)
    ensures IsSubsequence(a, b + [x])
  {
    var idx :| Embedding(a, b, idx);
    assert Embedding(a, b + [x], idx);
  }

  /** The empty sequence is a subsequence of everything. */
  lemma EmptyIsSubsequence<T>(b: seq<T>)
    ensures IsSubsequence([], b)
  {
    assert Embedding([], b, []);
  }
}
