/** Sequence operations of JavaScript arrays that the canvas code relies on, over any element
    type with equality. */
module Sequences {

  /** `indexOf`: the first position of `x` in `xs`, or -1 when it is absent. */
  function IndexOf<T(==)>(xs: seq<T>, x: T): (i: int)
    ensures -1 <= i < |xs|
    ensures i == -1 <==> x !in xs
    ensures i >= 0 ==> xs[i] == x && forall j :: 0 <= j < i ==> xs[j] != x
  {
    if |xs| == 0 then -1
    else if xs[0] == x then 0
    else
      var k := IndexOf(xs[1..], x);
      if k == -1 then -1 else k + 1
  }

  /** `a` is `b` with some elements left out, the rest kept in order. */
  predicate IsSubsequence<T(==)>(a: seq<T>, b: seq<T>)
    decreases |b|
  {
    |a| == 0 || (|b| > 0 && ((a[0] == b[0] && IsSubsequence(a[1..], b[1..])) || IsSubsequence(a, b[1..])))
  }

  /** A sequence without repeated elements. */
  predicate Distinct<T(==)>(xs: seq<T>)
  {
    forall i, j :: 0 <= i < j < |xs| ==> xs[i] != xs[j]
  }

  /** `xs.map(x => within.indexOf(x)).filter(i => i !== -1)`: the first position in `within` of
      each element of `xs` that occurs there, in the order of `xs`. */
  function IndexesIn<T(==)>(xs: seq<T>, within: seq<T>): (r: seq<int>)
    ensures |r| <= |xs|
    ensures forall k :: 0 <= k < |r| ==> 0 <= r[k] < |within| && within[r[k]] in xs && IndexOf(within, within[r[k]]) == r[k]
  {
    if |xs| == 0 then []
    else
      var i := IndexOf(within, xs[0]);
      var rest := IndexesIn(xs[1..], within);
      if i != -1 then [i] + rest else rest
  }

  /** Every element of `xs` found in `within` has its first position listed, and when all of
      them are found there is exactly one position per element, in the order of `xs`. */
  lemma {:induction false} IndexesInComplete<T>(xs: seq<T>, within: seq<T>)
    ensures forall x :: x in xs && x in within ==> IndexOf(within, x) in IndexesIn(xs, within)
    ensures (forall x :: x in xs ==> x in within) ==>
              |IndexesIn(xs, within)| == |xs| && forall k :: 0 <= k < |xs| ==> IndexesIn(xs, within)[k] == IndexOf(within, xs[k])
  {
    if |xs| > 0 {
      IndexesInComplete(xs[1..], within);
      assert forall x :: x in xs <==> x == xs[0] || x in xs[1..];
      if forall x :: x in xs ==> x in within {
        var r, rest := IndexesIn(xs, within), IndexesIn(xs[1..], within);
        assert r == [IndexOf(within, xs[0])] + rest;
        forall k | 1 <= k < |xs|
          ensures r[k] == IndexOf(within, xs[k])
        {
          assert xs[k] == xs[1..][k - 1];
        }
      }
    }
  }
}
