/**
 * One-dimensional smooth noise: pseudo-random base values at the integer
 * lattice points of the frequency-scaled axis, interpolated in between, and
 * the octave sum of several such generators.
 */
module Noise1D {
  import opened Int32
  import opened Interpolate
  import opened Sums
  import opened Lattice

  /** A sample of the closed unit interval, as `Closed01<f64>` yields. */
  type UnitSample = r: real | 0.0 <= r <= 1.0

  /** `f64::trunc`: the integer next to `x` on the side of zero. */
  function Trunc(x: real): (r: int)
    ensures x >= 0.0 ==> 0.0 <= r as real <= x < r as real + 1.0
    ensures x < 0.0 ==> r as real - 1.0 < x <= r as real <= 0.0
  {
    if x >= 0.0 then x.Floor else -((-x).Floor)
  }

  /** `f64::fract`: the part after the point, carrying the sign of `x`. */
  function Fract(x: real): (f: real)
    ensures x >= 0.0 ==> 0.0 <= f < 1.0
    ensures x < 0.0 ==> -1.0 < f <= 0.0
    ensures (x - f).Floor as real == x - f
  {
    x - Trunc(x) as real
  }

  /**
   * The position within its lattice cell as the generator computes it from
   * `fract`, with a correction for negative positions. It is the sawtooth.
   */
  function CellFraction(scaled: real): (f: real)
    ensures f == Sawtooth(scaled)
  {
    if scaled < 0.0 then
      NegativeFract(scaled);
      var fract := Fract(scaled);
      if fract == 0.0 then 0.0 else 1.0 + Fract(scaled)
    else
      Fract(scaled)
  }

  lemma NegativeFract(x: real)
    requires x < 0.0
    ensures Fract(x) == 0.0 ==> Sawtooth(x) == 0.0
    ensures Fract(x) != 0.0 ==> Sawtooth(x) == 1.0 + Fract(x)
  {
    var n := (-x).Floor;
    assert Fract(x) == x + n as real;
    if x + n as real == 0.0 {
      assert x.Floor == -n;
    } else {
      assert x.Floor == -n - 1;
    }
  }

  /** `t * amplitude` stays within `|amplitude|` when `t` lies in [-1, 1]. */
  lemma ScaledByAmplitude(t: real, amplitude: real)
    requires -1.0 <= t <= 1.0
    ensures -Abs(amplitude) <= t * amplitude <= Abs(amplitude)
  {
    if amplitude >= 0.0 {
      NonNegativeProduct(1.0 - t, amplitude);
      NonNegativeProduct(1.0 + t, amplitude);
    } else {
      NonNegativeProduct(1.0 - t, -amplitude);
      NonNegativeProduct(1.0 + t, -amplitude);
    }
  }

  /**
   * A smooth noise generator. `rng(seed, index)` stands for the pseudo-random
   * generator seeded with `[seed, index as u32]` and asked for one sample of
   * [0, 1]; as `index as u32` is one-to-one on `i32`, the index itself
   * serves as the key.
   */
  datatype SmoothNoise1D = SmoothNoise1D(seed: u32, amplitude: real, frequency: real,
                                         interpolator: Interpolator, rng: (u32, i32) -> UnitSample)
  {
    /** The base value at lattice point `index`, scaled to [-amplitude, amplitude]. */
    function BaseValue(index: i32): (r: real)
      ensures -Abs(amplitude) <= r <= Abs(amplitude)
    {
      var value: real := rng(seed, index);
      ScaledByAmplitude((value - 0.5) * 2.0, amplitude);
      (value - 0.5) * 2.0 * amplitude
    }

    /** The position on the lattice axis: scaled by the frequency. */
    function Scaled(position: real): real
    {
      position * frequency
    }

    /** The lattice index of a position must fit an `i32` (the `as i32` cast). */
    predicate Defined(position: real)
    {
      InRange(Scaled(position).Floor)
    }

    /**
     * The value at a position already scaled by the frequency: interpolates
     * between the base values at `index` and `index + 1`.
     */
    function Sample(scaled: real): (r: real)
      requires InRange(scaled.Floor)
      ensures -Abs(amplitude) <= r <= Abs(amplitude)
      ensures scaled == scaled.Floor as real ==> r == BaseValue(scaled.Floor)
    {
      var index: i32 := scaled.Floor;
      interpolator.Interpolate(BaseValue(index), BaseValue(WrappingIncrement(index)), CellFraction(scaled))
    }

    function Value(position: real): (r: real)
      requires Defined(position)
      ensures -Abs(amplitude) <= r <= Abs(amplitude)
    {
      Sample(Scaled(position))
    }
  }

  /** The sample is the lattice interpolation over the base values. */
  lemma SampleIsInterpolated(n: SmoothNoise1D, s: real)
    requires InRange(s.Floor)
    ensures n.Sample(s) == Interpolated(n.interpolator, n.BaseValue, s)
  {
  }

  /** No two base values are more than twice the amplitude apart. */
  lemma BaseValuesSpread(n: SmoothNoise1D)
    ensures Spread(n.BaseValue, 2.0 * Abs(n.amplitude))
  {
    forall i: i32, j: i32 ensures Abs(n.BaseValue(j) - n.BaseValue(i)) <= 2.0 * Abs(n.amplitude) {
    }
  }

  /**
   * The linear generator is Lipschitz on the scaled axis: two samples differ
   * by at most twice the amplitude times their distance, across any number of
   * lattice cells.
   */
  lemma LinearSampleSlope(n: SmoothNoise1D, bound: real, s: real, t: real)
    requires n.interpolator == Linear && bound == 2.0 * Abs(n.amplitude)
    requires s <= t && InRange(s.Floor) && InRange(t.Floor)
    ensures Abs(n.Sample(t) - n.Sample(s)) <= bound * (t - s)
  {
    var d := Interpolated(Linear, n.BaseValue, t) - Interpolated(Linear, n.BaseValue, s);
    assert Abs(d) <= bound * (t - s) by {
      BaseValuesSpread(n);
      LinearSlope(n.BaseValue, bound, s, t);
    }
    assert n.Sample(t) - n.Sample(s) == d by {
      SampleIsInterpolated(n, s);
      SampleIsInterpolated(n, t);
    }
  }

  /** Scaling both positions by `f` scales their distance by `|f|`. */
  lemma ScaledDistance(c: real, f: real, bound: real, x: real, y: real, sx: real, sy: real)
    requires x <= y && bound == c * Abs(f) && sx == x * f && sy == y * f
    ensures f >= 0.0 ==> sx <= sy && c * (sy - sx) == bound * (y - x)
    ensures f < 0.0 ==> sy <= sx && c * (sx - sy) == bound * (y - x)
  {
    assert sy - sx == (y - x) * f;
    if f >= 0.0 {
      NonNegativeProduct(y - x, f);
    } else {
      NonNegativeProduct(y - x, -f);
      assert sx - sy == (y - x) * -f;
    }
  }

  /**
   * With the linear interpolator, values at positions `y - x` apart differ
   * by at most `2 * |amplitude| * |frequency| * (y - x)`.
   */
  lemma LinearValueSlope(n: SmoothNoise1D, bound: real, x: real, y: real)
    requires n.interpolator == Linear && bound == 2.0 * Abs(n.amplitude) * Abs(n.frequency)
    requires x <= y && n.Defined(x) && n.Defined(y)
    ensures Abs(n.Value(y) - n.Value(x)) <= bound * (y - x)
  {
    var sx, sy := n.Scaled(x), n.Scaled(y);
    var c := 2.0 * Abs(n.amplitude);
    ScaledDistance(c, n.frequency, bound, x, y, sx, sy);
    if n.frequency >= 0.0 {
      LinearSampleSlope(n, c, sx, sy);
    } else {
      LinearSampleSlope(n, c, sy, sx);
      assert Abs(n.Sample(sy) - n.Sample(sx)) == Abs(n.Sample(sx) - n.Sample(sy));
    }
  }

  /** At a lattice point the generator yields the base value stored there. */
  lemma LatticePoint(n: SmoothNoise1D, position: real)
    requires n.Defined(position)
    requires n.Scaled(position).Floor as real == n.Scaled(position)
    ensures n.Value(position) == n.BaseValue(n.Scaled(position).Floor)
  {
  }

  /**
   * Frequency only scales the position: a generator at frequency `f` agrees
   * with the same generator at frequency 1 on the scaled position.
   */
  lemma FrequencyScalesPosition(n: SmoothNoise1D, position: real)
    requires n.Defined(position)
    ensures n.(frequency := 1.0).Defined(n.Scaled(position))
    ensures n.Value(position) == n.(frequency := 1.0).Value(n.Scaled(position))
  {
    var m := n.(frequency := 1.0);
    var s := n.Scaled(position);
    assert m.Scaled(s) == s;
    var a: i32 := s.Floor;
    assert m.BaseValue(a) == n.BaseValue(a);
    assert m.BaseValue(WrappingIncrement(a)) == n.BaseValue(WrappingIncrement(a));
    assert m.Sample(s) == n.Sample(s);
  }

  /** The octave sum of several one-dimensional smooth noise generators. */
  datatype PerlinNoise1D = PerlinNoise1D(octaves: seq<SmoothNoise1D>)
  {
    predicate Defined(position: real)
    {
      forall i | 0 <= i < |octaves| :: octaves[i].Defined(position)
    }

    /** Each octave's value at `position`, in list order. */
    function Samples(position: real): (s: seq<real>)
      requires Defined(position)
      ensures |s| == |octaves|
      ensures forall i | 0 <= i < |octaves| :: s[i] == octaves[i].Value(position)
    {
      seq(|octaves|, i requires 0 <= i < |octaves| && octaves[i].Defined(position) => octaves[i].Value(position))
    }

    /** Adds the octaves' values to a running result that starts at zero. */
    method Value(position: real) returns (result: real)
      requires Defined(position)
      ensures result == Sum(Samples(position))
    {
      ghost var samples := Samples(position);
      result := 0.0;
      for i := 0 to |octaves|
        invariant result == Sum(samples[..i])
      {
        assert samples[..i + 1][..i] == samples[..i];
        result := result + octaves[i].Value(position);
      }
      assert samples[..|octaves|] == samples;
    }

    /** The amplitudes of the octaves, in list order. */
    function Amplitudes(): (a: seq<real>)
      ensures |a| == |octaves|
      ensures forall i | 0 <= i < |octaves| :: a[i] == Abs(octaves[i].amplitude)
    {
      seq(|octaves|, i requires 0 <= i < |octaves| => Abs(octaves[i].amplitude))
    }
  }

  /** The octave sum never exceeds the sum of the octaves' amplitudes. */
  lemma OctaveSumBounded(n: PerlinNoise1D, position: real)
    requires n.Defined(position)
    ensures Abs(Sum(n.Samples(position))) <= Sum(n.Amplitudes())
  {
    SumBounded(n.Samples(position), n.Amplitudes());
  }

  /** An amplitude-1, frequency-1 octave and an amplitude-0.5, frequency-2 octave stay in [-1.5, 1.5]. */
  lemma TwoOctavesBounded(seed: u32, rng: (u32, i32) -> UnitSample, position: real)
    requires InRange(position.Floor) && InRange((position * 2.0).Floor)
    ensures var n := PerlinNoise1D([SmoothNoise1D(seed, 1.0, 1.0, Linear, rng),
                                    SmoothNoise1D(seed, 0.5, 2.0, Linear, rng)]);
            n.Defined(position) && -1.5 <= Sum(n.Samples(position)) <= 1.5
  {
    var n := PerlinNoise1D([SmoothNoise1D(seed, 1.0, 1.0, Linear, rng),
                            SmoothNoise1D(seed, 0.5, 2.0, Linear, rng)]);
    assert n.Defined(position);
    OctaveSumBounded(n, position);
    assert n.Amplitudes() == [1.0, 0.5];
    SumOfPair(1.0, 0.5);
  }
}
