/**
 Batches: the engine evaluates every matrix of a batch independently. A batch
 is a sequence; the leading array axes of the source are flattened into it.
 */
module Batch {

  /** Applies `f` to every element of the batch, in order. */
  function Map<X, Y>(f: X -> Y, xs: seq<X>): (r: seq<Y>)
    ensures |r| == |xs|
    ensures forall i :: 0 <= i < |xs| ==> r[i] == f(xs[i])
  {
    if xs == [] then [] else [f(xs[0])] + Map(f, xs[1..])
  }

  /** Mapping a concatenated batch is concatenating the mapped batches: no element sees another. */
  lemma {:induction false} MapConcat<X, Y>(f: X -> Y, xs: seq<X>, ys: seq<X>)
    ensures Map(f, xs + ys) == Map(f, xs) + Map(f, ys)
  {
    if xs == [] {
      assert xs + ys == ys;
    } else {
      assert (xs + ys)[1..] == xs[1..] + ys;
      MapConcat(f, xs[1..], ys);
    }
  }
}
