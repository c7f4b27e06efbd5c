/**
 * Interpolation over the integer lattice: a value at every `i32` lattice
 * point, and in between the interpolation of the two lattice points that
 * bound the cell a position falls in.
 */
module Lattice {
  import opened Int32
  import opened Interpolate

  /**
   * The value at `position`: the values at `floor(position)` and the next
   * lattice point, interpolated by the position within its cell. Only those
   * two lattice values are asked for; the result lies between them and is
   * the lattice value itself at a lattice point.
   */
  function Interpolated(interpolator: Interpolator, values: i32 --> real, position: real): (r: real)
    requires InRange(position.Floor)
    requires values.requires(position.Floor) && values.requires(WrappingIncrement(position.Floor))
    ensures Min(values(position.Floor), values(WrappingIncrement(position.Floor))) <= r
         <= Max(values(position.Floor), values(WrappingIncrement(position.Floor)))
    ensures position == position.Floor as real ==> r == values(position.Floor)
  {
    var a: i32 := position.Floor;
    interpolator.Interpolate(values(a), values(WrappingIncrement(a)), Sawtooth(position))
  }

  /** No two lattice values are more than `bound` apart. */
  ghost predicate Spread(values: i32 -> real, bound: real) {
    forall i: i32, j: i32 :: Abs(values(j) - values(i)) <= bound
  }

  /** Linear interpolation moves at most `bound` per unit of percent: by at most `bound * d` over `d == q - p`. */
  lemma LerpSlope(a: real, b: real, p: real, q: real, bound: real, d: real)
    requires IsPercent(p) && IsPercent(q) && p <= q && d == q - p
    requires Abs(b - a) <= bound
    ensures Abs(Lerp(a, b, q) - Lerp(a, b, p)) <= bound * d
  {
    assert Lerp(a, b, q) - Lerp(a, b, p) == (b - a) * d;
    WeightedBound(b - a, d, bound);
  }

  /** `|d * w| <= bound * w` when `|d| <= bound` and `w >= 0`. */
  lemma WeightedBound(d: real, w: real, bound: real)
    requires Abs(d) <= bound && 0.0 <= w
    ensures Abs(d * w) <= bound * w
  {
    NonNegativeProduct(bound - Abs(d), w);
    if d >= 0.0 {
      NonNegativeProduct(d, w);
    } else {
      NonNegativeProduct(-d, w);
    }
  }

  /** Two steps bounded by `bound` per unit add up to a step bounded by it per unit, over `d == d1 + d2`. */
  lemma ChainedBound(x: real, y: real, z: real, bound: real, d1: real, d2: real, d: real)
    requires Abs(y - x) <= bound * d1 && Abs(z - y) <= bound * d2 && d == d1 + d2
    ensures Abs(z - x) <= bound * d
  {
    assert bound * d == bound * d1 + bound * d2;
  }

  /** The linear interpolation over the lattice, written with `Lerp` directly. */
  function LinearInterpolated(values: i32 -> real, position: real): real
    requires InRange(position.Floor)
  {
    var a: i32 := position.Floor;
    Lerp(values(a), values(WrappingIncrement(a)), Sawtooth(position))
  }

  lemma LinearIsLerp(values: i32 -> real, position: real)
    requires InRange(position.Floor)
    ensures Interpolated(Linear, values, position) == LinearInterpolated(values, position)
  {
  }

  /** Inside one cell the linear interpolation moves in step with the position. */
  lemma LinearSameCell(values: i32 -> real, bound: real, s: real, t: real)
    requires s <= t && s.Floor == t.Floor && InRange(s.Floor)
    requires Abs(values(WrappingIncrement(s.Floor)) - values(s.Floor)) <= bound
    ensures Abs(LinearInterpolated(values, t) - LinearInterpolated(values, s)) <= bound * (t - s)
  {
    var a: i32 := s.Floor;
    assert Sawtooth(t) - Sawtooth(s) == t - s;
    LerpSlope(values(a), values(WrappingIncrement(a)), Sawtooth(s), Sawtooth(t), bound, t - s);
  }

  /** From a position to the start of the next cell the linear interpolation moves at most `bound` per unit. */
  lemma LinearToNextCell(values: i32 -> real, bound: real, s: real, t: real)
    requires InRange(s.Floor) && s.Floor < MAX && t == (s.Floor + 1) as real
    requires Abs(values(WrappingIncrement(s.Floor)) - values(s.Floor)) <= bound
    ensures InRange(t.Floor)
    ensures Abs(LinearInterpolated(values, t) - LinearInterpolated(values, s)) <= bound * (t - s)
  {
    var k: i32 := s.Floor + 1;
    assert t.Floor == k;
    var a := values(s.Floor);
    var b := values(k);
    assert LinearInterpolated(values, t) == b by {
      assert Sawtooth(t) == 0.0;
    }
    assert LinearInterpolated(values, s) == Lerp(a, b, Sawtooth(s));
    ToCellEnd(a, b, Sawtooth(s), bound, t - s, LinearInterpolated(values, s), LinearInterpolated(values, t));
  }

  /**
   * From `from`, at percent `p` of a cell, to `to`, at the end of the cell,
   * linear interpolation moves by at most `bound * d`, `d == 1 - p`.
   */
  lemma ToCellEnd(a: real, b: real, p: real, bound: real, d: real, from: real, to: real)
    requires IsPercent(p) && d == 1.0 - p && Abs(b - a) <= bound
    requires from == Lerp(a, b, p) && to == b
    ensures Abs(to - from) <= bound * d
  {
    LerpSlope(a, b, p, 1.0, bound, d);
  }

  /**
   * A function that moves at most `bound` per unit inside every cell from
   * `lo` to `hi`, up to and including the start of the next cell, moves at
   * most `bound` per unit between any two points of that range.
   */
  lemma {:induction false} CellwiseSlope(f: real -> real, bound: real, lo: int, hi: int, s: real, t: real)
    requires forall x: real, y: real
               | lo <= x.Floor && x <= y && (y.Floor == x.Floor <= hi || (x.Floor < hi && y == (x.Floor + 1) as real))
               :: Abs(f(y) - f(x)) <= bound * (y - x)
    requires s <= t && lo <= s.Floor && t.Floor <= hi
    ensures Abs(f(t) - f(s)) <= bound * (t - s)
    decreases t.Floor - s.Floor
  {
    if s.Floor < t.Floor {
      var k := (s.Floor + 1) as real;
      assert k.Floor == s.Floor + 1;
      CellwiseSlope(f, bound, lo, hi, k, t);
      ChainedBound(f(s), f(k), f(t), bound, k - s, t - k, t - s);
    }
  }

  /** Extends the linear interpolation by zero outside the positions it is defined at. */
  function LinearOrZero(values: i32 -> real): real -> real {
    (x: real) => if InRange(x.Floor) then LinearInterpolated(values, x) else 0.0
  }

  /**
   * Linear interpolation over lattice values at most `bound` apart is
   * Lipschitz: two positions `d` apart have values at most `bound * d` apart.
   */
  lemma LinearSlope(values: i32 -> real, bound: real, s: real, t: real)
    requires Spread(values, bound)
    requires s <= t && InRange(s.Floor) && InRange(t.Floor)
    ensures Abs(Interpolated(Linear, values, t) - Interpolated(Linear, values, s)) <= bound * (t - s)
  {
    var f := LinearOrZero(values);
    forall x: real, y: real
      | MIN <= x.Floor && x <= y && (y.Floor == x.Floor <= MAX || (x.Floor < MAX && y == (x.Floor + 1) as real))
      ensures Abs(f(y) - f(x)) <= bound * (y - x)
    {
      if y.Floor == x.Floor {
        LinearSameCell(values, bound, x, y);
      } else {
        LinearToNextCell(values, bound, x, y);
      }
    }
    CellwiseSlope(f, bound, MIN, MAX, s, t);
    LinearIsLerp(values, s);
    LinearIsLerp(values, t);
  }
}
