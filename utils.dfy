/** `clamp` and `avg`, the two numeric helpers of the renderer. */
module Utils {

  /** `clamp(val, min, max)`: the lower bound is tested first, so a value
      below `lo` yields `lo` even when the bounds are inverted. */
  function Clamp(v: real, lo: real, hi: real): (r: real)
    ensures v < lo ==> r == lo
    ensures lo <= v && hi < v ==> r == hi
    ensures lo <= v <= hi ==> r == v
    ensures lo <= hi ==> lo <= r <= hi
  {
    if v < lo then lo
    else if v > hi then hi
    else v
  }

  /** With well-ordered bounds clamping twice is clamping once. */
  lemma ClampIdempotent(v: real, lo: real, hi: real)
    requires lo <= hi
    ensures Clamp(Clamp(v, lo, hi), lo, hi) == Clamp(v, lo, hi)
  {
  }

  /** With inverted bounds (`hi < lo`) a value below `lo` becomes `lo` and
      every other value becomes `hi`, which is then below `lo`. */
  lemma ClampInvertedBounds(v: real, lo: real, hi: real)
    requires hi < lo
    ensures Clamp(v, lo, hi) == (if v < lo then lo else hi)
  {
  }

  /** `avg(a, b)`: the midpoint, equally far from both arguments. */
  function Avg(a: real, b: real): (r: real)
    ensures r - a == b - r
    ensures a <= b ==> a <= r <= b
    ensures b <= a ==> b <= r <= a
  {
    (a + b) / 2.0
  }

  lemma AvgSymmetric(a: real, b: real)
    ensures Avg(a, b) == Avg(b, a)
  {
  }
}
