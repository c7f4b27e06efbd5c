/**
 * Interpolation between two numbers: the linear and the smoothstep
 * ("Perlin") strategies, the laws every interpolator obeys, and the
 * sawtooth function that turns a position into a percent.
 */
module Interpolate {

  function Min(a: real, b: real): real { if a <= b then a else b }

  function Max(a: real, b: real): real { if a <= b then b else a }

  function Abs(x: real): real { if x < 0.0 then -x else x }

  /** An interpolation percent: between 0 and 1, both inclusive. */
  predicate IsPercent(p: real) { 0.0 <= p <= 1.0 }

  /** The smoothstep remap `3p^2 - 2p^3` the Perlin interpolator applies first. */
  function Smoothstep(p: real): (x: real)
    requires IsPercent(p)
    ensures IsPercent(x)
    ensures p == 0.0 ==> x == 0.0
    ensures p == 1.0 ==> x == 1.0
  {
    SmoothstepInUnitInterval(p);
    p * p * (3.0 - 2.0 * p)
  }

  lemma SmoothstepInUnitInterval(p: real)
    requires IsPercent(p)
    ensures 0.0 <= p * p * (3.0 - 2.0 * p) <= 1.0
  {
    NonNegativeProduct(p, p);
    NonNegativeProduct(p * p, 3.0 - 2.0 * p);
    assert 1.0 - p * p * (3.0 - 2.0 * p) == (1.0 - p) * (1.0 - p) * (1.0 + 2.0 * p);
    NonNegativeProduct(1.0 - p, 1.0 - p);
    NonNegativeProduct((1.0 - p) * (1.0 - p), 1.0 + 2.0 * p);
  }

  lemma NonNegativeProduct(x: real, y: real)
    requires 0.0 <= x && 0.0 <= y
    ensures 0.0 <= x * y
  {
  }

  /** The interpolation strategies; the cosine one is not part of this model. */
  datatype Interpolator = Linear | Perlin {

    /**
     * Interpolates between `a` and `b`. The endpoints are reproduced and
     * the result never leaves the interval the endpoints span.
     */
    function Interpolate(a: real, b: real, percent: real): (r: real)
      requires IsPercent(percent)
      ensures percent == 0.0 ==> r == a
      ensures percent == 1.0 ==> r == b
      ensures Min(a, b) <= r <= Max(a, b)
    {
      match this
      case Linear => Lerp(a, b, percent)
      case Perlin => Lerp(a, b, Smoothstep(percent))
    }
  }

  /** Linear interpolation `a * (1 - p) + b * p`. */
  function Lerp(a: real, b: real, p: real): (r: real)
    requires IsPercent(p)
    ensures p == 0.0 ==> r == a
    ensures p == 1.0 ==> r == b
    ensures Min(a, b) <= r <= Max(a, b)
  {
    LerpBetween(a, b, p);
    a * (1.0 - p) + b * p
  }

  lemma LerpBetween(a: real, b: real, p: real)
    requires IsPercent(p)
    ensures Min(a, b) <= a * (1.0 - p) + b * p <= Max(a, b)
  {
    assert a * (1.0 - p) + b * p == a + (b - a) * p;
    if a <= b {
      NonNegativeProduct(b - a, p);
      NonNegativeProduct(b - a, 1.0 - p);
    } else {
      NonNegativeProduct(a - b, p);
      NonNegativeProduct(a - b, 1.0 - p);
    }
  }

  /** Sawtooth with period one: the position within its unit cell. */
  function Sawtooth(x: real): (r: real)
    ensures 0.0 <= r < 1.0
  {
    x - x.Floor as real
  }

  /** The smoothstep remap never decreases. */
  lemma SmoothstepMonotone(p: real, q: real)
    requires IsPercent(p) && IsPercent(q) && p <= q
    ensures Smoothstep(p) <= Smoothstep(q)
  {
    var slope := 3.0 * (p + q) - 2.0 * (p * p + p * q + q * q);
    assert Smoothstep(q) - Smoothstep(p) == (q - p) * slope;
    NonNegativeProduct(p, 1.0 - p);
    NonNegativeProduct(q, 1.0 - q);
    NonNegativeProduct(p, 1.0 - q);
    NonNegativeProduct(q, 1.0 - p);
    NonNegativeProduct(q - p, slope);
  }

  /** The smoothstep remap is point-symmetric around (0.5, 0.5). */
  lemma SmoothstepMirror(p: real)
    requires IsPercent(p)
    ensures Smoothstep(1.0 - p) == 1.0 - Smoothstep(p)
  {
    assert (1.0 - p) * (1.0 - p) == 1.0 - 2.0 * p + p * p;
    assert (1.0 - p) * (1.0 - p) * (3.0 - 2.0 * (1.0 - p))
        == (1.0 - 2.0 * p + p * p) * (1.0 + 2.0 * p);
  }

  lemma LerpMonotone(a: real, b: real, p: real, q: real)
    requires IsPercent(p) && IsPercent(q) && p <= q
    ensures a <= b ==> Lerp(a, b, p) <= Lerp(a, b, q)
    ensures b <= a ==> Lerp(a, b, q) <= Lerp(a, b, p)
  {
    assert Lerp(a, b, q) - Lerp(a, b, p) == (b - a) * (q - p);
    if a <= b {
      NonNegativeProduct(b - a, q - p);
    } else {
      NonNegativeProduct(a - b, q - p);
    }
  }

  /**
   * Monotonicity in the percent: rising between ordered endpoints, falling
   * between reversed ones.
   */
  lemma Monotone(i: Interpolator, a: real, b: real, p: real, q: real)
    requires IsPercent(p) && IsPercent(q) && p <= q
    ensures a <= b ==> i.Interpolate(a, b, p) <= i.Interpolate(a, b, q)
    ensures b <= a ==> i.Interpolate(a, b, q) <= i.Interpolate(a, b, p)
  {
    match i
    case Linear =>
      LerpMonotone(a, b, p, q);
    case Perlin =>
      SmoothstepMonotone(p, q);
      LerpMonotone(a, b, Smoothstep(p), Smoothstep(q));
  }

  /** The mirror law: interpolation is symmetric around the centre of the interval. */
  lemma Mirror(i: Interpolator, a: real, b: real, p: real)
    requires IsPercent(p)
    ensures i.Interpolate(a, b, p) == a + b - i.Interpolate(a, b, 1.0 - p)
  {
    match i
    case Linear =>
    case Perlin =>
      SmoothstepMirror(p);
  }

  /** Half way between `a` and `b` is their average. */
  lemma Midpoint(i: Interpolator, a: real, b: real)
    ensures i.Interpolate(a, b, 0.5) == (a + b) / 2.0
  {
    Mirror(i, a, b, 0.5);
  }

  /** Adjacent cells join: the end of one interpolation is the start of the next. */
  lemma CellsJoin(i: Interpolator, a: real, b: real, c: real)
    ensures i.Interpolate(a, b, 1.0) == i.Interpolate(b, c, 0.0)
  {
  }

  lemma InterpolateExamples()
    ensures Linear.Interpolate(10.0, 20.0, 0.75) == 17.5
    ensures Perlin.Interpolate(10.0, 20.0, 0.75) == 18.4375
  {
  }

  /** The monotonicity law as the interface documents it: for all endpoints. */
  ghost predicate DocumentedMonotonicity(i: Interpolator) {
    forall a: real, b: real, p: real, q: real
      | IsPercent(p) && IsPercent(q) && p < q
      :: i.Interpolate(a, b, p) <= i.Interpolate(a, b, q)
  }

  /** No interpolator obeys the documented law: it fails between 1 and 0. */
  lemma DocumentedMonotonicityFails(i: Interpolator)
    ensures !DocumentedMonotonicity(i)
  {
    assert i.Interpolate(1.0, 0.0, 0.0) == 1.0;
    assert i.Interpolate(1.0, 0.0, 1.0) == 0.0;
  }

  lemma SawtoothOfInteger(k: int)
    ensures Sawtooth(k as real) == 0.0
  {
  }

  /** Shifting by a whole number of cells does not change the sawtooth. */
  lemma SawtoothPeriodic(x: real, k: int)
    ensures Sawtooth(x + k as real) == Sawtooth(x)
  {
    assert (x + k as real).Floor == x.Floor + k;
  }

  lemma SawtoothExamples()
    ensures Sawtooth(0.0) == 0.0
    ensures Sawtooth(1.0) == 0.0 && Sawtooth(-1.0) == 0.0
    ensures Sawtooth(1.25) == 0.25
    ensures Sawtooth(-1.25) == 0.75
  {
    assert (1.25).Floor == 1;
    assert (-1.25).Floor == -2;
  }
}
