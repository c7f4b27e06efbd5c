/**
 * Generators that turn discrete `i32` noise into continuous noise: value
 * interpolation in one dimension and gradient interpolation in two.
 */
module Interpolated {
  import opened Int32
  import opened Interpolate
  import opened Lattice
  import opened DefaultNoise
  import opened Output

  /**
   * Value-interpolated noise over a discrete source. `floor(position)` goes
   * through `float_to_i32`, which panics outside the `i32` range; here that
   * is the precondition of `Value`, together with the source being defined
   * at the two lattice points asked.
   */
  datatype InterpolatedNoise = InterpolatedNoise(source: Noise<i32, real>, interpolator: Interpolator)
  {
    /**
     * Asks the source at `a = floor(position)` and `a + 1` only, and the
     * result never leaves the interval the two answers span.
     */
    function Value(position: real): (r: real)
      requires InRange(position.Floor)
      requires source.requires(position.Floor) && source.requires(WrappingIncrement(position.Floor))
      ensures Min(source(position.Floor), source(WrappingIncrement(position.Floor))) <= r
           <= Max(source(position.Floor), source(WrappingIncrement(position.Floor)))
      ensures position == position.Floor as real ==> r == source(position.Floor)
    {
      Interpolated(interpolator, source, position)
    }
  }

  /** Across the whole `i32` range the interpolation of the identity source is the identity. */
  lemma IdentitySource(f: real)
    requires InRange(f.Floor) && f.Floor < MAX
    ensures InterpolatedNoise(OutputOp(NoOpNoise().Value, (i: i32) => i as real).Value, Linear).Value(f) == f
  {
    var source := OutputOp(NoOpNoise().Value, (i: i32) => i as real).Value;
    var a: i32 := f.Floor;
    assert source(a) == a as real;
    assert source(WrappingIncrement(a)) == a as real + 1.0;
    assert Lerp(a as real, a as real + 1.0, Sawtooth(f)) == a as real + Sawtooth(f);
  }

  /** Interpolating the integer hash noise keeps its range [-1, 1]. */
  lemma HashSourceBounded(seed: i32, interpolator: Interpolator, f: real)
    requires InRange(f.Floor)
    ensures -1.0 <= InterpolatedNoise(New(seed).Value, interpolator).Value(f) <= 1.0
  {
    var a: i32 := f.Floor;
    var v := New(seed).Value(a);
    var w := New(seed).Value(WrappingIncrement(a));
    assert -1.0 <= Min(v, w) && Max(v, w) <= 1.0;
  }

  /**
   * `dot`: the offset of the position from a lattice corner, dotted with the
   * gradient at that corner.
   */
  function Dot(posX: real, posY: real, gridX: i32, gridY: i32, gradient: (real, real)): (r: real)
    ensures posX == gridX as real && posY == gridY as real ==> r == 0.0
    ensures gradient == (0.0, 0.0) ==> r == 0.0
  {
    (posX - gridX as real) * gradient.0 + (posY - gridY as real) * gradient.1
  }

  /**
   * The offset of a position from the lower corner of its cell lies in
   * [0, 1), and from the upper corner in [-1, 0).
   */
  lemma CornerOffsets(pos: real)
    requires InRange(pos.Floor) && pos.Floor < MAX
    ensures 0.0 <= pos - (pos.Floor as i32) as real < 1.0
    ensures -1.0 <= pos - WrappingIncrement(pos.Floor) as real < 0.0
  {
  }

  /**
   * Two-dimensional gradient noise. The gradient at each lattice point is a
   * parameter: deriving it from the source involves a normalisation and a
   * rejection loop that are not part of this model.
   */
  datatype InterpolatedNoise2D = InterpolatedNoise2D(gradient: (i32, i32) -> (real, real), interpolator: Interpolator)
  {
    /**
     * The dot product at corner `(x, y)` for position `(posX, posY)`: zero at
     * the corner itself, and the only corner term that depends on the
     * gradient there.
     */
    function Corner(posX: real, posY: real, x: i32, y: i32): (r: real)
      ensures posX == x as real && posY == y as real ==> r == 0.0
      ensures gradient(x, y) == (0.0, 0.0) ==> r == 0.0
    {
      Dot(posX, posY, x, y, gradient(x, y))
    }

    /**
     * Interpolates the corner dots of the row `y0` and of the row `y1` along
     * x with one percent, then the two results along y. The result lies
     * between the smallest and the largest of the four corner dots.
     */
    function Value(position: (real, real)): (r: real)
      requires InRange(position.0.Floor) && InRange(position.1.Floor)
      ensures var (posX, posY) := position;
              var x0: i32, y0: i32 := posX.Floor, posY.Floor;
              var x1, y1 := WrappingIncrement(x0), WrappingIncrement(y0);
              Min(Min(Corner(posX, posY, x0, y0), Corner(posX, posY, x1, y0)),
                  Min(Corner(posX, posY, x0, y1), Corner(posX, posY, x1, y1))) <= r
              <= Max(Max(Corner(posX, posY, x0, y0), Corner(posX, posY, x1, y0)),
                     Max(Corner(posX, posY, x0, y1), Corner(posX, posY, x1, y1)))
    {
      var (posX, posY) := position;
      var x0: i32 := posX.Floor;
      var x1 := WrappingIncrement(x0);
      var y0: i32 := posY.Floor;
      var y1 := WrappingIncrement(y0);
      var px := Sawtooth(posX);
      var py := Sawtooth(posY);
      var val1 := interpolator.Interpolate(Corner(posX, posY, x0, y0), Corner(posX, posY, x1, y0), px);
      var val2 := interpolator.Interpolate(Corner(posX, posY, x0, y1), Corner(posX, posY, x1, y1), px);
      interpolator.Interpolate(val1, val2, py)
    }
  }

  /** Gradient noise vanishes at every lattice point. */
  lemma ZeroAtLatticePoints(n: InterpolatedNoise2D, x: i32, y: i32)
    ensures n.Value((x as real, y as real)) == 0.0
  {
    assert n.Corner(x as real, y as real, x, y) == 0.0;
  }

  /**
   * On a horizontal lattice line only the row `y0` counts: the value is the
   * interpolation of its two corner dots along x.
   */
  lemma OnRow(n: InterpolatedNoise2D, posX: real, y: i32)
    requires InRange(posX.Floor)
    ensures var x0: i32 := posX.Floor;
            (n.Value((posX, y as real))
             == n.interpolator.Interpolate(n.Corner(posX, y as real, x0, y),
                                           n.Corner(posX, y as real, WrappingIncrement(x0), y), Sawtooth(posX)))
  {
  }

  /**
   * On a vertical lattice line only the column `x0` counts: the value is the
   * interpolation of its two corner dots along y.
   */
  lemma OnColumn(n: InterpolatedNoise2D, x: i32, posY: real)
    requires InRange(posY.Floor)
    ensures var y0: i32 := posY.Floor;
            (n.Value((x as real, posY))
             == n.interpolator.Interpolate(n.Corner(x as real, posY, x, y0),
                                           n.Corner(x as real, posY, x, WrappingIncrement(y0)), Sawtooth(posY)))
  {
  }

  /**
   * With gradient components in [-1, 1] every corner dot, and so the value,
   * lies in [-2, 2]. The last cell of the `i32` range is excluded: there the
   * upper corner wraps around to `i32::MIN`.
   */
  lemma BoundedGradients(n: InterpolatedNoise2D, posX: real, posY: real)
    requires InRange(posX.Floor) && InRange(posY.Floor) && posX.Floor < MAX && posY.Floor < MAX
    requires forall x: i32, y: i32 :: -1.0 <= n.gradient(x, y).0 <= 1.0 && -1.0 <= n.gradient(x, y).1 <= 1.0
    ensures -2.0 <= n.Value((posX, posY)) <= 2.0
  {
    var x0: i32, y0: i32 := posX.Floor, posY.Floor;
    var x1, y1 := WrappingIncrement(x0), WrappingIncrement(y0);
    CornerBounded(n, posX, posY, x0, y0);
    CornerBounded(n, posX, posY, x1, y0);
    CornerBounded(n, posX, posY, x0, y1);
    CornerBounded(n, posX, posY, x1, y1);
    FourBounded(n.Corner(posX, posY, x0, y0), n.Corner(posX, posY, x1, y0),
                n.Corner(posX, posY, x0, y1), n.Corner(posX, posY, x1, y1), n.Value((posX, posY)));
  }

  /** A number between the least and the greatest of four numbers in [-2, 2] lies in [-2, 2]. */
  lemma FourBounded(a: real, b: real, c: real, d: real, r: real)
    requires -2.0 <= a <= 2.0 && -2.0 <= b <= 2.0 && -2.0 <= c <= 2.0 && -2.0 <= d <= 2.0
    requires Min(Min(a, b), Min(c, d)) <= r <= Max(Max(a, b), Max(c, d))
    ensures -2.0 <= r <= 2.0
  {
  }

  /** A corner at most one cell away, with gradient components in [-1, 1], has a dot in [-2, 2]. */
  lemma CornerBounded(n: InterpolatedNoise2D, posX: real, posY: real, x: i32, y: i32)
    requires -1.0 <= posX - x as real <= 1.0 && -1.0 <= posY - y as real <= 1.0
    requires -1.0 <= n.gradient(x, y).0 <= 1.0 && -1.0 <= n.gradient(x, y).1 <= 1.0
    ensures -2.0 <= n.Corner(posX, posY, x, y) <= 2.0
  {
    var (gx, gy) := n.gradient(x, y);
    UnitProduct(posX - x as real, gx);
    UnitProduct(posY - y as real, gy);
  }

  /** The product of two numbers in [-1, 1] lies in [-1, 1]. */
  lemma UnitProduct(d: real, g: real)
    requires -1.0 <= d <= 1.0 && -1.0 <= g <= 1.0
    ensures -1.0 <= d * g <= 1.0
  {
    NonNegativeProduct(1.0 - d, 1.0 - g);
    NonNegativeProduct(1.0 + d, 1.0 + g);
    NonNegativeProduct(1.0 - d, 1.0 + g);
    NonNegativeProduct(1.0 + d, 1.0 - g);
  }
}
