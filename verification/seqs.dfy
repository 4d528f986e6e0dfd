/**
 * `Array.prototype.filter`: keep the elements a predicate accepts, in their
 * original order. Both the search box and the chart's positivity test are
 * instances of it.
 */
module Seqs {

  /** The elements of `s` that `p` accepts, in order (a left fold, like `filter`). */
  function Filter<T>(s: seq<T>, p: T -> bool): (r: seq<T>)
    ensures |r| <= |s|
    ensures forall i :: 0 <= i < |r| ==> p(r[i]) && r[i] in s
    ensures forall i :: 0 <= i < |s| && p(s[i]) ==> s[i] in r
  {
    if s == [] then []
    else Filter(s[..|s| - 1], p) + (if p(s[|s| - 1]) then [s[|s| - 1]] else [])
  }

  /** The positions of `s` that `p` accepts, in increasing order. */
  function KeptIndices<T>(s: seq<T>, p: T -> bool): (idx: seq<nat>)
    ensures forall k :: 0 <= k < |idx| ==> idx[k] < |s|
  {
    if s == [] then []
    else KeptIndices(s[..|s| - 1], p) + (if p(s[|s| - 1]) then [|s| - 1] else [])
  }

  ghost predicate Increasing(idx: seq<nat>)
  {
    forall i, j :: 0 <= i < j < |idx| ==> idx[i] < idx[j]
  }

  /** The kept positions are listed in increasing order. */
  lemma {:induction false} KeptIndicesIncreasing<T>(s: seq<T>, p: T -> bool)
    ensures Increasing(KeptIndices(s, p))
  {
    if s != [] {
      var n := |s| - 1;
      KeptIndicesIncreasing(s[..n], p);
      var idx0, idx := KeptIndices(s[..n], p), KeptIndices(s, p);
      assert idx == idx0 + (if p(s[n]) then [n] else []);
      forall i, j | 0 <= i < j < |idx|
        ensures idx[i] < idx[j]
      {
        assert idx[i] == idx0[i];
      }
    }
  }

  /** A position is kept exactly when `p` accepts the element there. */
  lemma {:induction false} KeptIndicesExact<T>(s: seq<T>, p: T -> bool)
    ensures forall j :: 0 <= j < |s| ==> (p(s[j]) <==> j in KeptIndices(s, p))
  {
    if s != [] {
      var n := |s| - 1;
      KeptIndicesExact(s[..n], p);
      var idx0, idx := KeptIndices(s[..n], p), KeptIndices(s, p);
      assert idx == idx0 + (if p(s[n]) then [n] else []);
      assert n !in idx0;
      forall j | 0 <= j < |s|
        ensures p(s[j]) <==> j in idx
      {
        if j < n {
          assert s[j] == s[..n][j];
        }
      }
    }
  }

  /** The `k`-th element `Filter` keeps is the one at the `k`-th kept position. */
  lemma {:induction false} FilterAtKeptIndices<T>(s: seq<T>, p: T -> bool)
    ensures |Filter(s, p)| == |KeptIndices(s, p)|
    ensures forall k :: 0 <= k < |Filter(s, p)| ==> Filter(s, p)[k] == s[KeptIndices(s, p)[k]]
  {
    if s != [] {
      var n := |s| - 1;
      FilterAtKeptIndices(s[..n], p);
      var idx0, r0 := KeptIndices(s[..n], p), Filter(s[..n], p);
      var idx, r := KeptIndices(s, p), Filter(s, p);
      assert idx == idx0 + (if p(s[n]) then [n] else []);
      assert r == r0 + (if p(s[n]) then [s[n]] else []);
      forall k | 0 <= k < |r|
        ensures r[k] == s[idx[k]]
      {
        if k < |r0| {
          assert r[k] == r0[k] == s[..n][idx0[k]];
        }
      }
    }
  }

  /**
   * `Filter` picks out exactly the accepted positions, one element per
   * position, in increasing order: it is an order-preserving subsequence.
   */
  lemma FilterByIndices<T>(s: seq<T>, p: T -> bool)
    ensures Increasing(KeptIndices(s, p))
    ensures |Filter(s, p)| == |KeptIndices(s, p)|
    ensures forall k :: 0 <= k < |Filter(s, p)| ==> Filter(s, p)[k] == s[KeptIndices(s, p)[k]]
    ensures forall j :: 0 <= j < |s| ==> (p(s[j]) <==> j in KeptIndices(s, p))
  {
    KeptIndicesIncreasing(s, p);
    KeptIndicesExact(s, p);
    FilterAtKeptIndices(s, p);
  }

  /** Filtering distributes over concatenation. */
  lemma {:induction false} FilterAppend<T>(a: seq<T>, b: seq<T>, p: T -> bool)
    ensures Filter(a + b, p) == Filter(a, p) + Filter(b, p)
    decreases |b|
  {
    if b == [] {
      assert a + b == a;
    } else {
      var b' := b[..|b| - 1];
      assert (a + b)[..|a + b| - 1] == a + b';
      FilterAppend(a, b', p);
    }
  }

  /** When `p` accepts every element, filtering changes nothing. */
  lemma {:induction false} FilterKeepsAll<T>(s: seq<T>, p: T -> bool)
    requires forall i :: 0 <= i < |s| ==> p(s[i])
    ensures Filter(s, p) == s
  {
    if s != [] {
      FilterKeepsAll(s[..|s| - 1], p);
      assert s[..|s| - 1] + [s[|s| - 1]] == s;
    }
  }

  /** The filter is empty exactly when `p` accepts no element. */
  lemma FilterEmpty<T>(s: seq<T>, p: T -> bool)
    ensures Filter(s, p) == [] <==> forall i :: 0 <= i < |s| ==> !p(s[i])
  {
    if Filter(s, p) != [] {
      assert Filter(s, p)[0] in Filter(s, p);
    }
    if exists i :: 0 <= i < |s| && p(s[i]) {
      var i :| 0 <= i < |s| && p(s[i]);
      assert s[i] in Filter(s, p);
    }
  }

  /** Filtering again with the same predicate changes nothing. */
  lemma FilterIdempotent<T>(s: seq<T>, p: T -> bool)
    ensures Filter(Filter(s, p), p) == Filter(s, p)
  {
    var r := Filter(s, p);
    assert forall i :: 0 <= i < |r| ==> r[i] in r;
    FilterKeepsAll(r, p);
  }

  /** Predicates that agree on every element of `s` filter it alike. */
  lemma {:induction false} FilterAgrees<T>(s: seq<T>, p: T -> bool, q: T -> bool)
    requires forall i :: 0 <= i < |s| ==> p(s[i]) == q(s[i])
    ensures Filter(s, p) == Filter(s, q)
  {
    if s != [] {
      FilterAgrees(s[..|s| - 1], p, q);
    }
  }
}
