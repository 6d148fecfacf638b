/** Order-preserving selection over sequences (`Array.prototype.filter`). */
module Seqs {

  /** `ys` can be obtained from `xs` by deleting elements, keeping order. */
  predicate IsSubsequence<T(==)>(ys: seq<T>, xs: seq<T>)
    decreases |xs|
  {
    if ys == [] then true
    else if xs == [] then false
    else (ys[0] == xs[0] && IsSubsequence(ys[1..], xs[1..])) || IsSubsequence(ys, xs[1..])
  }

  /** `xs.filter(p)`. */
  function Filter<T(==)>(xs: seq<T>, p: T -> bool): (ys: seq<T>)
    ensures |ys| <= |xs|
    ensures IsSubsequence(ys, xs)
  {
    if xs == [] then []
    else
      var rest := Filter(xs[1..], p);
      if p(xs[0]) then [xs[0]] + rest else rest
  }

  /** The filter keeps exactly the elements that satisfy the predicate, each
      as often as it occurs. */
  lemma {:induction false} FilterContents<T(!new)>(xs: seq<T>, p: T -> bool)
    ensures forall y :: y in Filter(xs, p) <==> y in xs && p(y)
    ensures forall x :: multiset(Filter(xs, p))[x] == if p(x) then multiset(xs)[x] else 0
  {
    if xs != [] {
      FilterContents(xs[1..], p);
      assert xs == [xs[0]] + xs[1..];
    }
  }

  /** Filtering with a predicate every element satisfies changes nothing. */
  lemma {:induction false} FilterAll<T(!new)>(xs: seq<T>, p: T -> bool)
    requires forall x :: x in xs ==> p(x)
    ensures Filter(xs, p) == xs
  {
    if xs != [] {
      FilterAll(xs[1..], p);
    }
  }

  /** Filters distribute over concatenation. */
  lemma {:induction false} FilterAppend<T(!new)>(xs: seq<T>, zs: seq<T>, p: T -> bool)
    ensures Filter(xs + zs, p) == Filter(xs, p) + Filter(zs, p)
  {
    if xs == [] {
      assert xs + zs == zs;
    } else {
      assert (xs + zs)[1..] == xs[1..] + zs;
      FilterAppend(xs[1..], zs, p);
    }
  }

  /** Filtering out at least one element makes the sequence shorter. */
  lemma {:induction false} FilterDropsOne<T>(xs: seq<T>, p: T -> bool, i: nat)
    requires i < |xs| && !p(xs[i])
    ensures |Filter(xs, p)| < |xs|
  {
    if i > 0 {
      FilterDropsOne(xs[1..], p, i - 1);
    }
  }
}
