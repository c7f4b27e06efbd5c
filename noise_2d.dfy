/**
 * Two-dimensional smooth noise: pseudo-random base values at the integer
 * lattice points of the scaled plane, interpolated bilinearly in between.
 */
module Noise2D {
  import opened Int32
  import opened Interpolate
  import opened Noise1D

  /**
   * A two-dimensional smooth noise generator. `rng(seed, x, y)` stands for
   * the pseudo-random generator seeded with `[seed, x as u32, y as u32]` and
   * asked for one sample of [0, 1]; the lattice coordinates serve as the key.
   */
  datatype SmoothNoise2D = SmoothNoise2D(seed: u32, amplitude: real, frequency: (real, real),
                                         interpolator: Interpolator, rng: (u32, i32, i32) -> UnitSample)
  {
    /** The base value at lattice point `(x, y)`, scaled to [-amplitude, amplitude]. */
    function BaseValue(x: i32, y: i32): (r: real)
      ensures -Abs(amplitude) <= r <= Abs(amplitude)
    {
      var value: real := rng(seed, x, y);
      ScaledByAmplitude((value - 0.5) * 2.0, amplitude);
      (value - 0.5) * 2.0 * amplitude
    }

    /** The x coordinate scaled by its own frequency component. */
    function ScaledX(position: (real, real)): real
    {
      position.0 * frequency.0
    }

    /** The y coordinate scaled by its own frequency component. */
    function ScaledY(position: (real, real)): real
    {
      position.1 * frequency.1
    }

    /** Both lattice coordinates must fit an `i32` (the `as i32` casts). */
    predicate Defined(position: (real, real))
    {
      InRange(ScaledX(position).Floor) && InRange(ScaledY(position).Floor)
    }

    /**
     * The value at an already scaled point: the rows `basey` and `basey + 1`
     * are interpolated along x with the same percent, then the two results
     * along y.
     */
    function Sample(x: real, y: real): (r: real)
      requires InRange(x.Floor) && InRange(y.Floor)
      ensures -Abs(amplitude) <= r <= Abs(amplitude)
      ensures x == x.Floor as real && y == y.Floor as real ==> r == BaseValue(x.Floor, y.Floor)
    {
      var basex: i32, basey: i32 := x.Floor, y.Floor;
      var xPercent := Sawtooth(x);
      var xvalA := interpolator.Interpolate(BaseValue(basex, basey),
                                            BaseValue(WrappingIncrement(basex), basey), xPercent);
      var xvalB := interpolator.Interpolate(BaseValue(basex, WrappingIncrement(basey)),
                                            BaseValue(WrappingIncrement(basex), WrappingIncrement(basey)), xPercent);
      interpolator.Interpolate(xvalA, xvalB, Sawtooth(y))
    }

    function Value(position: (real, real)): (r: real)
      requires Defined(position)
      ensures -Abs(amplitude) <= r <= Abs(amplitude)
    {
      Sample(ScaledX(position), ScaledY(position))
    }
  }

  /** At a lattice point of the scaled plane the generator yields the base value stored there. */
  lemma LatticeCorner(n: SmoothNoise2D, position: (real, real))
    requires n.Defined(position)
    requires n.ScaledX(position) == n.ScaledX(position).Floor as real
    requires n.ScaledY(position) == n.ScaledY(position).Floor as real
    ensures n.Value(position) == n.BaseValue(n.ScaledX(position).Floor, n.ScaledY(position).Floor)
  {
  }

  /**
   * Each axis is scaled by its own frequency component and nothing else: a
   * generator agrees with the same generator at frequency `(1, 1)` on the
   * scaled position.
   */
  lemma AxesScaleIndependently(n: SmoothNoise2D, position: (real, real))
    requires n.Defined(position)
    ensures n.(frequency := (1.0, 1.0)).Defined((n.ScaledX(position), n.ScaledY(position)))
    ensures n.Value(position) == n.(frequency := (1.0, 1.0)).Value((n.ScaledX(position), n.ScaledY(position)))
  {
    var m := n.(frequency := (1.0, 1.0));
    var x, y := n.ScaledX(position), n.ScaledY(position);
    assert m.ScaledX((x, y)) == x && m.ScaledY((x, y)) == y;
    var ix: i32, iy: i32 := x.Floor, y.Floor;
    assert forall i: i32, j: i32 :: m.BaseValue(i, j) == n.BaseValue(i, j);
    assert m.Sample(x, y) == n.Sample(x, y);
  }

  /**
   * On a lattice row the plane generator is a line generator: at an integer
   * `y` it is the one-dimensional smooth noise whose base values are those of
   * that row.
   */
  lemma OnLatticeRow(n: SmoothNoise2D, x: real, y: i32)
    requires InRange(x.Floor)
    ensures n.Sample(x, y as real)
         == SmoothNoise1D(n.seed, n.amplitude, 1.0, n.interpolator, (s, i) => n.rng(s, i, y)).Sample(x)
  {
    var line := SmoothNoise1D(n.seed, n.amplitude, 1.0, n.interpolator, (s, i) => n.rng(s, i, y));
    var a: i32 := x.Floor;
    assert line.BaseValue(a) == n.BaseValue(a, y);
    assert line.BaseValue(WrappingIncrement(a)) == n.BaseValue(WrappingIncrement(a), y);
  }

  /**
   * The order of the axes does not matter: interpolating the columns along y
   * first and then the results along x gives the same value.
   */
  lemma CascadeOrder(i: Interpolator, a: real, b: real, c: real, d: real, p: real, q: real)
    requires IsPercent(p) && IsPercent(q)
    ensures i.Interpolate(i.Interpolate(a, b, p), i.Interpolate(c, d, p), q)
         == i.Interpolate(i.Interpolate(a, c, q), i.Interpolate(b, d, q), p)
  {
    var (p', q') := match i case Linear => (p, q) case Perlin => (Smoothstep(p), Smoothstep(q));
    assert i.Interpolate(a, b, p) == Lerp(a, b, p') && i.Interpolate(c, d, p) == Lerp(c, d, p');
    assert i.Interpolate(a, c, q) == Lerp(a, c, q') && i.Interpolate(b, d, q) == Lerp(b, d, q');
    BilinearSymmetric(a, b, c, d, p', q');
  }

  /** Bilinear interpolation of four corners does not depend on the axis order. */
  lemma BilinearSymmetric(a: real, b: real, c: real, d: real, p: real, q: real)
    requires IsPercent(p) && IsPercent(q)
    ensures Lerp(Lerp(a, b, p), Lerp(c, d, p), q) == Lerp(Lerp(a, c, q), Lerp(b, d, q), p)
  {
    var rowA, rowB := Lerp(a, b, p), Lerp(c, d, p);
    var colA, colB := Lerp(a, c, q), Lerp(b, d, q);
    LerpForm(a, b, p);
    LerpForm(c, d, p);
    LerpForm(a, c, q);
    LerpForm(b, d, q);
    LerpForm(rowA, rowB, q);
    LerpForm(colA, colB, p);
    BilinearExpansion(a, b, c, d, p, q, rowA, rowB, colA, colB);
  }

  lemma LerpForm(a: real, b: real, p: real)
    requires IsPercent(p)
    ensures Lerp(a, b, p) == a * (1.0 - p) + b * p
  {
  }

  /** Both cascades, written out, are the same polynomial in `p` and `q`. */
  lemma BilinearExpansion(a: real, b: real, c: real, d: real, p: real, q: real,
                          rowA: real, rowB: real, colA: real, colB: real)
    requires rowA == a * (1.0 - p) + b * p && rowB == c * (1.0 - p) + d * p
    requires colA == a * (1.0 - q) + c * q && colB == b * (1.0 - q) + d * q
    ensures rowA * (1.0 - q) + rowB * q == colA * (1.0 - p) + colB * p
  {
  }

  /**
   * The generator's value is also the column-first cascade: the columns
   * `basex` and `basex + 1` interpolated along y, then the results along x.
   */
  lemma ColumnsFirst(n: SmoothNoise2D, x: real, y: real)
    requires InRange(x.Floor) && InRange(y.Floor)
    ensures var ix: i32, iy: i32 := x.Floor, y.Floor;
            var (ix', iy') := (WrappingIncrement(ix), WrappingIncrement(iy));
            (n.Sample(x, y)
             == n.interpolator.Interpolate(
                  n.interpolator.Interpolate(n.BaseValue(ix, iy), n.BaseValue(ix, iy'), Sawtooth(y)),
                  n.interpolator.Interpolate(n.BaseValue(ix', iy), n.BaseValue(ix', iy'), Sawtooth(y)),
                  Sawtooth(x)))
  {
    var ix: i32, iy: i32 := x.Floor, y.Floor;
    var ix', iy' := WrappingIncrement(ix), WrappingIncrement(iy);
    CascadeOrder(n.interpolator, n.BaseValue(ix, iy), n.BaseValue(ix', iy),
                 n.BaseValue(ix, iy'), n.BaseValue(ix', iy'), Sawtooth(x), Sawtooth(y));
  }

  /**
   * The grid the generator is checked on, amplitude 1 at frequency `(1, 1)`
   * with the linear interpolator: every point `(x / 3, y / 3)` with `x` and
   * `y` in [-20, 20] can be asked, and the value lies in [-1, 1].
   */
  lemma GridBounded(rng: (u32, i32, i32) -> UnitSample, x: int, y: int)
    requires -20 <= x <= 20 && -20 <= y <= 20
    ensures var n := SmoothNoise2D(0, 1.0, (1.0, 1.0), Linear, rng);
            n.Defined((x as real / 3.0, y as real / 3.0))
            && -1.0 <= n.Value((x as real / 3.0, y as real / 3.0)) <= 1.0
  {
    var n := SmoothNoise2D(0, 1.0, (1.0, 1.0), Linear, rng);
    var position := (x as real / 3.0, y as real / 3.0);
    assert n.ScaledX(position) == x as real / 3.0 && n.ScaledY(position) == y as real / 3.0;
    assert -7 <= (x as real / 3.0).Floor <= 7 && -7 <= (y as real / 3.0).Floor <= 7;
  }
}
