/**
 * Linear search, the "first element that matches, else nothing" loop the
 * bookkeeping code writes out by hand (`for ... : if ...: break`).
 */
module Sequences {
  import opened Wrappers

  /** The position of the first occurrence of `x` in `xs`, if any. */
  function FirstIndex<T(==)>(xs: seq<T>, x: T): (r: Option<nat>)
    ensures r.None? <==> x !in xs
    ensures r.Some? ==> r.value < |xs| && xs[r.value] == x
    ensures r.Some? ==> forall j :: 0 <= j < r.value ==> xs[j] != x
  {
    if |xs| == 0 then None
    else if xs[0] == x then Some(0)
    else match FirstIndex(xs[1..], x)
      case None => None
      case Some(i) => Some(i + 1)
  }

  /** Moving one element across a concatenation. */
  lemma AppendOne<T>(a: seq<T>, x: T, b: seq<T>)
    ensures a + ([x] + b) == (a + [x]) + b
  {
  }

  /** In a sequence without repeated elements the first occurrence is the only one. */
  lemma FirstIndexDistinct<T>(xs: seq<T>, i: nat)
    requires i < |xs|
    requires forall a, b :: 0 <= a < b < |xs| ==> xs[a] != xs[b]
    ensures FirstIndex(xs, xs[i]) == Some(i)
  {
  }
}
