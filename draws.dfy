/**
 * Random draws. The simulation draws from Python's `random` module and from numpy; here every
 * draw is an explicit value handed to the operation that consumes it.
 */
module Draws {
  /** A value of `random.random()`: a real in [0, 1). */
  type Unit = r: real | 0.0 <= r < 1.0

  /** `random.uniform(lo, hi)`, which CPython computes as `lo + (hi - lo) * random()`. */
  function Uniform(lo: real, hi: real, u: Unit): (r: real)
    requires lo <= hi
    ensures lo <= r <= hi
    ensures lo < hi ==> r < hi
  {
    var width := hi - lo;
    ScaleBelow(width, u);
    var offset := width * u;
    assert 0.0 <= offset <= width;
    lo + offset
  }

  /** Scaling a non-negative width by a unit draw stays inside the width. */
  lemma ScaleBelow(d: real, u: Unit)
    requires d >= 0.0
    ensures 0.0 <= d * u <= d
    ensures d > 0.0 ==> d * u < d
  {
    assert d - d * u == d * (1.0 - u);
    assert 1.0 - u > 0.0;
  }

  /** A product of two positive reals is positive. */
  lemma MulPositive(a: real, b: real)
    ensures a > 0.0 && b > 0.0 ==> a * b > 0.0
  {
    if a > 0.0 && b > 0.0 {
      assert a * b > 0.0;
    }
  }

  /** `np.random.normal(loc, scale)`, given the standard normal value `z` that numpy drew. */
  function Normal(loc: real, scale: real, z: real): real
  {
    loc + scale * z
  }
}
