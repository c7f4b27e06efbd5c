/**
 * The base generators: libnoise's integer hash noise and the trivial
 * constant, identity and unboxing generators.
 */
module DefaultNoise {
  import opened Int32

  /**
   * A generator maps a position to a value. The interface promises that the
   * value at a position never changes; a Dafny function value has that
   * property by construction. It may be partial: its `requires` names the
   * positions it can be asked at (a lattice generator, for one, only those
   * whose cell index fits an `i32`).
   */
  type Noise<-In, Out> = In --> Out

  const PRIME_POSITION: bv32 := 999961
  const PRIME_SEED: bv32 := 748361

  /**
   * The integer noise generator. `seed` is the bit pattern of the scrambled
   * `i32` seed that the constructor stores.
   */
  datatype DefaultI32Noise = DefaultI32Noise(seed: bv32) {

    /**
     * The masked intermediate `c` at `position`. Clearing the sign bit
     * leaves 31 bits, which read as the same non-negative `i32`.
     */
    function Hash(position: i32): (c: bv31)
      ensures c <= 0x7fff_ffff
    {
      var a := ToBits(position) * PRIME_POSITION + seed;
      var b := (a << 13) ^ a;
      ((b * (b * b * 60493 + 19990303) + 1376312589) & 0x7fff_ffff) as bv31
    }

    /** The noise value `1 - c / 2^30` at `position`. */
    function Value(position: i32): (r: real)
      ensures 1.0 - 2147483647.0 / 1073741824.0 <= r <= 1.0
      ensures -1.0 <= r <= 1.0
    {
      1.0 - (Hash(position) as int as real) / 1073741824.0
    }
  }

  /**
   * `DefaultI32Noise::new`: scrambles the bit pattern of the seed with
   * wrapping `*`, `<<` and `^`; odd and even seeds stay apart.
   */
  function New(seed: i32): (n: DefaultI32Noise)
    ensures n.seed & 1 == ToBits(seed) & 1
  {
    DefaultI32Noise(Scrambled(ToBits(seed)))
  }

  /**
   * The scrambled seed. As the prime is odd and the shifted copy leaves
   * the low bits alone, the lowest bit is that of `s`.
   */
  function Scrambled(s: bv32): (r: bv32)
    ensures r & 1 == s & 1
  {
    (s * PRIME_SEED) ^ (s << 13)
  }

  /** The low 13 bits of the scrambled seed are those of the product. */
  lemma ScrambledLowBits(s: bv32)
    ensures Scrambled(s) & 0x1fff == (s * PRIME_SEED) & 0x1fff
  {
  }

  /**
   * With seed 0 the stored seed is 0; the extremes of the position range
   * and the origin hash to the values listed.
   */
  lemma ZeroSeedSamples()
    ensures New(0).seed == 0
    ensures New(0).Hash(0) == 1376312589
    ensures New(0).Hash(MIN) == 1376312589
    ensures New(0).Hash(MAX) == 1591646033
    ensures New(0).Value(MAX) == 1.0 - 1591646033.0 / 1073741824.0
  {
  }

  /** Generator that always returns the same value. */
  datatype ConstantNoise<Out> = ConstantNoise(value: Out) {
    function Value<In>(position: In): (r: Out)
      ensures r == value
    {
      value
    }
  }

  /** Generator that returns its position unchanged. */
  datatype NoOpNoise = NoOpNoise {
    function Value<In>(position: In): (r: In)
      ensures r == position
    {
      position
    }
  }

  /** Lifts a dynamically chosen generator into a static one. */
  datatype UnboxNoise<!In, Out> = UnboxNoise(source: Noise<In, Out>) {
    function Value(position: In): (r: Out)
      requires source.requires(position)
      ensures r == source(position)
    {
      source(position)
    }
  }
}
