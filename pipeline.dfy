/**
 * Generators nest: a combinator takes any generator as its source, the
 * partial lattice generators included, and is defined exactly where its
 * sources are.
 */
module Pipeline {
  import opened Int32
  import opened Interpolate
  import opened Sums
  import opened Lattice
  import opened Output
  import opened Input
  import opened Combined
  import opened Noise1D

  /**
   * Doubling the output of a smooth noise generator: defined where the
   * generator is, and bounded by twice its amplitude.
   */
  lemma DoubledSmoothNoise(n: SmoothNoise1D, position: real)
    ensures OutputOp(n.Value, (x: real) => x * 2.0).Value.requires(position) <==> n.Defined(position)
    ensures n.Defined(position) ==>
              -2.0 * Abs(n.amplitude) <= OutputOp(n.Value, (x: real) => x * 2.0).Value(position) <= 2.0 * Abs(n.amplitude)
  {
  }

  /**
   * Scaling the position with an input operation is what the frequency
   * does: a generator at frequency 1 behind `p => p * f` is the generator
   * at frequency `f`, with the same positions defined.
   */
  lemma InputScaleIsFrequency(n: SmoothNoise1D, position: real)
    ensures InputOp(n.(frequency := 1.0).Value, (p: real) => p * n.frequency).Value.requires(position)
        <==> n.Defined(position)
    ensures n.Defined(position) ==>
              InputOp(n.(frequency := 1.0).Value, (p: real) => p * n.frequency).Value(position) == n.Value(position)
  {
    var m := n.(frequency := 1.0);
    var g := InputOp(m.Value, (p: real) => p * n.frequency);
    assert g.op(position) == n.Scaled(position);
    assert m.Scaled(n.Scaled(position)) == n.Scaled(position);
    assert g.Value.requires(position) <==> m.Defined(g.op(position));
    if n.Defined(position) {
      FrequencyScalesPosition(n, position);
    }
  }

  /**
   * Two smooth noise generators merged by addition are their octave sum:
   * the combined generator agrees with the one-dimensional Perlin noise of
   * the two.
   */
  lemma CombinedOctaves(a: SmoothNoise1D, b: SmoothNoise1D, add: (real, real) -> real, position: real)
    requires forall x: real, y: real :: add(x, y) == x + y
    requires a.Defined(position) && b.Defined(position)
    ensures CombinedNoise([a.Value, b.Value], add).Defined(position)
    ensures PerlinNoise1D([a, b]).Defined(position)
    ensures Reduce(add, CombinedNoise([a.Value, b.Value], add).Samples(position))
         == Sum(PerlinNoise1D([a, b]).Samples(position))
  {
    var s := CombinedNoise([a.Value, b.Value], add).Samples(position);
    assert s[..1] == [a.Value(position)];
    assert PerlinNoise1D([a, b]).Samples(position) == [a.Value(position), b.Value(position)];
    SumOfPair(a.Value(position), b.Value(position));
  }
}
