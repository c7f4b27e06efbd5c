/**
 * The octave sum over generators of any position type: the values of all
 * octaves at one position, added from left to right starting at zero.
 */
module Perlin {
  import opened Int32
  import opened Interpolate
  import opened Sums
  import opened Noise1D

  /**
   * `PerlinNoise`: a list of octave generators. The datatype constructor is
   * `PerlinNoise::new`; like it, it accepts any list, the empty one included.
   * An octave may be partial (a smooth generator needs its lattice index to
   * fit an `i32`), so octaves are partial functions.
   */
  datatype PerlinNoise<!P> = PerlinNoise(octaves: seq<P --> real>)
  {
    /** Every octave can be asked at `position`. */
    ghost predicate Defined(position: P)
    {
      forall i | 0 <= i < |octaves| :: octaves[i].requires(position)
    }

    /** Each octave's value at the same `position`, in list order. */
    function Samples(position: P): (s: seq<real>)
      requires Defined(position)
      ensures |s| == |octaves|
      ensures forall i | 0 <= i < |octaves| :: s[i] == octaves[i](position)
    {
      seq(|octaves|, i requires 0 <= i < |octaves| && octaves[i].requires(position) => octaves[i](position))
    }

    /** Adds the octaves' values to a running result that starts at zero. */
    method Value(position: P) returns (result: real)
      requires Defined(position)
      ensures result == Sum(Samples(position))
    {
      ghost var samples := Samples(position);
      result := 0.0;
      for i := 0 to |octaves|
        invariant result == Sum(samples[..i])
      {
        assert samples[..i + 1][..i] == samples[..i];
        result := result + octaves[i](position);
      }
      assert samples[..|octaves|] == samples;
    }
  }

  /** No octaves: the sum is zero, as the constructor does not reject the empty list. */
  lemma NoOctaves<P>(n: PerlinNoise<P>, position: P)
    requires n.octaves == []
    ensures n.Defined(position)
    ensures Sum(n.Samples(position)) == 0.0
  {
    assert n.Samples(position) == [];
  }

  /**
   * The highest value is the sum of the highest values: when every octave
   * stays within its bound at `position`, the sum stays within the sum of the
   * bounds.
   */
  lemma OctaveSumBounded<P>(n: PerlinNoise<P>, bounds: seq<real>, position: P)
    requires n.Defined(position) && |bounds| == |n.octaves|
    requires forall i | 0 <= i < |bounds| :: Abs(n.octaves[i](position)) <= bounds[i]
    ensures Abs(Sum(n.Samples(position))) <= Sum(bounds)
  {
    SumBounded(n.Samples(position), bounds);
  }

  /** The one-dimensional octave sum is this octave sum over the octaves' value functions. */
  lemma OneDimensionalAgrees(n: PerlinNoise1D, position: real)
    requires n.Defined(position)
    ensures PerlinNoise(seq(|n.octaves|, i requires 0 <= i < |n.octaves| => n.octaves[i].Value)).Defined(position)
    ensures Sum(PerlinNoise(seq(|n.octaves|, i requires 0 <= i < |n.octaves| => n.octaves[i].Value)).Samples(position))
         == Sum(n.Samples(position))
  {
    var m := PerlinNoise(seq(|n.octaves|, i requires 0 <= i < |n.octaves| => n.octaves[i].Value));
    assert m.Defined(position);
    assert m.Samples(position) == n.Samples(position);
  }

  /**
   * Two linear smooth octaves, amplitude 1 at frequency 1 and amplitude 0.5
   * at frequency 2, stay within [-1.5, 1.5].
   */
  lemma TwoSmoothOctaves(seed: u32, rng: (u32, i32) -> UnitSample, position: real)
    requires InRange(position.Floor) && InRange((position * 2.0).Floor)
    ensures var n := PerlinNoise([SmoothNoise1D(seed, 1.0, 1.0, Linear, rng).Value,
                                  SmoothNoise1D(seed, 0.5, 2.0, Linear, rng).Value]);
            n.Defined(position) && -1.5 <= Sum(n.Samples(position)) <= 1.5
  {
    var o1 := SmoothNoise1D(seed, 1.0, 1.0, Linear, rng);
    var o2 := SmoothNoise1D(seed, 0.5, 2.0, Linear, rng);
    assert o1.Scaled(position) == position && o2.Scaled(position) == position * 2.0;
    assert o1.Defined(position) && o2.Defined(position);
    var n := PerlinNoise([o1.Value, o2.Value]);
    assert n.Defined(position);
    assert Abs(o1.Value(position)) <= 1.0 && Abs(o2.Value(position)) <= 0.5;
    OctaveSumBounded(n, [1.0, 0.5], position);
    SumOfPair(1.0, 0.5);
  }

  /** The amplitude of octave `i` when each octave halves the one before. */
  function Halved(base: real, i: nat): (a: real)
    ensures base >= 0.0 ==> 0.0 <= a <= base
    ensures base > 0.0 ==> 0.0 < a
  {
    if i == 0 then base else Halved(base, i - 1) / 2.0
  }

  /** The first `count` halving amplitudes. */
  function HalvingAmplitudes(base: real, count: nat): (s: seq<real>)
    ensures |s| == count
    ensures forall i | 0 <= i < count :: s[i] == Halved(base, i)
  {
    if count == 0 then [] else HalvingAmplitudes(base, count - 1) + [Halved(base, count - 1)]
  }

  /** The halving amplitudes add up to twice the base minus twice the next one. */
  lemma {:induction false} HalvingSum(base: real, count: nat)
    ensures Sum(HalvingAmplitudes(base, count)) == 2.0 * base - 2.0 * Halved(base, count)
  {
    if count > 0 {
      HalvingSum(base, count - 1);
      SumAppend(HalvingAmplitudes(base, count - 1), Halved(base, count - 1));
    }
  }

  /**
   * The bound of the octave sum when each octave halves the amplitude of the
   * one before: it stays below twice the base amplitude, however many
   * octaves there are.
   */
  lemma HalvingOctavesBounded<P>(n: PerlinNoise<P>, base: real, position: P)
    requires base > 0.0 && n.Defined(position)
    requires forall i | 0 <= i < |n.octaves| :: Abs(n.octaves[i](position)) <= Halved(base, i)
    ensures Abs(Sum(n.Samples(position))) < 2.0 * base
  {
    var amplitudes := HalvingAmplitudes(base, |n.octaves|);
    OctaveSumBounded(n, amplitudes, position);
    HalvingSum(base, |n.octaves|);
  }

  /**
   * The bound the octave generator documents for halving amplitudes: the
   * value never exceeds `1 + 2/3` times the first octave's amplitude.
   */
  ghost predicate DocumentedHalvingBound(n: PerlinNoise<real>, base: real)
  {
    forall position: real | n.Defined(position) :: Sum(n.Samples(position)) <= (1.0 + 2.0 / 3.0) * base
  }

  /**
   * Three linear octaves of amplitude 1, 0.5 and 0.25 whose random samples are
   * all 1 reach 1.75 at the origin, above the documented `1 + 2/3`.
   */
  lemma DocumentedHalvingBoundFails()
    ensures var rng := (s: u32, i: i32) => 1.0 as UnitSample;
            !DocumentedHalvingBound(PerlinNoise([SmoothNoise1D(0, 1.0, 1.0, Linear, rng).Value,
                                                 SmoothNoise1D(0, 0.5, 2.0, Linear, rng).Value,
                                                 SmoothNoise1D(0, 0.25, 4.0, Linear, rng).Value]), 1.0)
  {
    var rng := (s: u32, i: i32) => 1.0 as UnitSample;
    var o1 := SmoothNoise1D(0, 1.0, 1.0, Linear, rng);
    var o2 := SmoothNoise1D(0, 0.5, 2.0, Linear, rng);
    var o3 := SmoothNoise1D(0, 0.25, 4.0, Linear, rng);
    assert o1.Scaled(0.0) == 0.0 && o2.Scaled(0.0) == 0.0 && o3.Scaled(0.0) == 0.0;
    assert o1.Value(0.0) == 1.0 && o2.Value(0.0) == 0.5 && o3.Value(0.0) == 0.25;
    var n := PerlinNoise([o1.Value, o2.Value, o3.Value]);
    assert n.Defined(0.0);
    assert n.Samples(0.0) == [1.0, 0.5] + [0.25];
    SumOfPair(1.0, 0.5);
    SumAppend([1.0, 0.5], 0.25);
  }
}
