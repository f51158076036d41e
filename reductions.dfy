/**
 * Reductions over non-empty sequences of coordinates.
 * `MinOf` and `MaxOf` model `iter().reduce(f32::min).unwrap()` and
 * `iter().reduce(f32::max).unwrap()`: a left fold that panics on an empty
 * iterator, hence the `requires |xs| > 0`.
 */
module Reductions {

  function MinOf(xs: seq<real>): (m: real)
    requires |xs| > 0
    ensures m in xs
    ensures forall i :: 0 <= i < |xs| ==> m <= xs[i]
  {
    if |xs| == 1 then xs[0]
    else
      var acc := MinOf(xs[..|xs| - 1]);
      var last := xs[|xs| - 1];
      if last < acc then last else acc
  }

  function MaxOf(xs: seq<real>): (m: real)
    requires |xs| > 0
    ensures m in xs
    ensures forall i :: 0 <= i < |xs| ==> xs[i] <= m
  {
    if |xs| == 1 then xs[0]
    else
      var acc := MaxOf(xs[..|xs| - 1]);
      var last := xs[|xs| - 1];
      if acc < last then last else acc
  }

  /** The minimum never exceeds the maximum of the same values. */
  lemma MinAtMostMax(xs: seq<real>)
    requires |xs| > 0
    ensures MinOf(xs) <= MaxOf(xs)
  {
    assert MinOf(xs) <= xs[0] <= MaxOf(xs);
  }
}
