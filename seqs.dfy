/** Order-preserving selection over sequences, used wherever the source filters a list. */
module Seqs {

  /** The elements of `xs` that satisfy `p`, in their original order
      (JavaScript's `Array.prototype.filter`, or a Go loop that `continue`s past the others). */
  function Filter<T>(xs: seq<T>, p: T -> bool): seq<T>
  {
    if xs == [] then []
    else Filter(xs[..|xs| - 1], p) + (if p(xs[|xs| - 1]) then [xs[|xs| - 1]] else [])
  }

  /** An element is kept exactly when it occurs in the input and satisfies the predicate. */
  lemma {:induction false} FilterMembers<T>(xs: seq<T>, p: T -> bool)
    ensures forall x :: x in Filter(xs, p) <==> x in xs && p(x)
  {
    if xs != [] {
      var init := xs[..|xs| - 1];
      FilterMembers(init, p);
      assert xs == init + [xs[|xs| - 1]];
    }
  }

  /** Filtering a concatenation filters each part. */
  lemma {:induction false} FilterAppend<T>(xs: seq<T>, ys: seq<T>, p: T -> bool)
    ensures Filter(xs + ys, p) == Filter(xs, p) + Filter(ys, p)
    decreases |ys|
  {
    if ys == [] {
      assert xs + ys == xs;
    } else {
      var init := ys[..|ys| - 1];
      FilterAppend(xs, init, p);
      assert (xs + ys)[..|xs + ys| - 1] == xs + init;
    }
  }

  /** The kept elements are the input elements at a strictly increasing family of positions,
      and every position whose element satisfies the predicate is one of them. */
  lemma {:induction false} FilterIndices<T>(xs: seq<T>, p: T -> bool) returns (idx: seq<nat>)
    ensures |idx| == |Filter(xs, p)|
    ensures forall i :: 0 <= i < |idx| ==> idx[i] < |xs| && Filter(xs, p)[i] == xs[idx[i]]
    ensures forall i, j :: 0 <= i < j < |idx| ==> idx[i] < idx[j]
    ensures forall j :: 0 <= j < |xs| && p(xs[j]) ==> j in idx
  {
    if xs == [] {
      idx := [];
    } else {
      var last := |xs| - 1;
      var init := xs[..last];
      var prev := FilterIndices(init, p);
      assert xs == init + [xs[last]];
      idx := IndicesSnoc(init, xs[last], p, Filter(init, p), prev);
    }
  }

  /** The positions of the kept elements, extended by one more input element. */
  lemma {:induction false} IndicesSnoc<T>(init: seq<T>, x: T, p: T -> bool, kept: seq<T>, prev: seq<nat>)
    returns (idx: seq<nat>)
    requires |prev| == |kept|
    requires forall i :: 0 <= i < |prev| ==> prev[i] < |init| && kept[i] == init[prev[i]]
    requires forall i, j :: 0 <= i < j < |prev| ==> prev[i] < prev[j]
    requires forall j :: 0 <= j < |init| && p(init[j]) ==> j in prev
    ensures var xs, more := init + [x], kept + (if p(x) then [x] else []);
            && |idx| == |more|
            && (forall i :: 0 <= i < |idx| ==> idx[i] < |xs| && more[i] == xs[idx[i]])
            && (forall i, j :: 0 <= i < j < |idx| ==> idx[i] < idx[j])
            && (forall j :: 0 <= j < |xs| && p(xs[j]) ==> j in idx)
  {
    var xs := init + [x];
    var last := |init|;
    if p(x) {
      idx := prev + [last];
    } else {
      idx := prev;
    }
    forall i | 0 <= i < |prev|
      ensures idx[i] == prev[i] && xs[prev[i]] == init[prev[i]]
    {
    }
    forall j | 0 <= j < |xs| && p(xs[j])
      ensures j in idx
    {
      if j < last {
        assert xs[j] == init[j];
        var i :| 0 <= i < |prev| && prev[i] == j;
        assert idx[i] == j;
      } else {
        assert idx[|prev|] == j;
      }
    }
  }

  /** Nothing is dropped when every element satisfies the predicate, everything when none does. */
  lemma {:induction false} FilterAllOrNone<T>(xs: seq<T>, p: T -> bool)
    ensures (forall i :: 0 <= i < |xs| ==> p(xs[i])) ==> Filter(xs, p) == xs
    ensures (forall i :: 0 <= i < |xs| ==> !p(xs[i])) ==> Filter(xs, p) == []
  {
    if xs != [] {
      FilterAllOrNone(xs[..|xs| - 1], p);
    }
  }

  /** No element occurs twice. */
  predicate Distinct<T(==)>(xs: seq<T>)
  {
    forall i, j :: 0 <= i < j < |xs| ==> xs[i] != xs[j]
  }

  /** The elements of a sequence, as a set. */
  function Elements<T(==)>(xs: seq<T>): set<T>
  {
    set x | x in xs
  }

  /** A sequence without repetitions has as many elements as its set. */
  lemma {:induction false} DistinctCard<T>(xs: seq<T>)
    requires Distinct(xs)
    ensures |Elements(xs)| == |xs|
  {
    if xs != [] {
      var init := xs[..|xs| - 1];
      var x := xs[|xs| - 1];
      DistinctCard(init);
      assert xs == init + [x];
      assert Elements(xs) == Elements(init) + {x};
      assert x !in Elements(init);
    }
  }

  /** A subset as large as its superset is the whole of it (for finite sets). */
  lemma {:induction false} SubsetSameSize<T>(a: set<T>, b: set<T>)
    requires a <= b && |a| == |b|
    ensures a == b
  {
    if a != b {
      var x :| x in b && x !in a;
      assert a <= b - {x};
      SubsetCard(a, b - {x});
    }
  }

  lemma {:induction false} SubsetCard<T>(a: set<T>, b: set<T>)
    requires a <= b
    ensures |a| <= |b|
  {
    assert b == a + (b - a);
  }
}
