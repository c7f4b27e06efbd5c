/** Combinators that merge several source generators into one. */
module Combined {
  import opened DefaultNoise

  datatype Option<T> = None | Some(value: T)

  /**
   * The left fold `combine(...combine(xs[0], xs[1])..., xs[n-1])` of a
   * non-empty sequence, in sequence order.
   */
  function Reduce<T>(combine: (T, T) -> T, xs: seq<T>): T
    requires |xs| > 0
  {
    if |xs| == 1 then xs[0] else combine(Reduce(combine, xs[..|xs| - 1]), xs[|xs| - 1])
  }

  /**
   * Merges an ordered, non-empty list of same-typed sources with a binary
   * function; every source is asked at the same position.
   */
  datatype CombinedNoise<!In, !Out> = CombinedNoise(sources: seq<Noise<In, Out>>, combine: (Out, Out) -> Out) {

    /** Every source can be asked at `position`. */
    ghost predicate Defined(position: In) {
      forall i | 0 <= i < |sources| :: sources[i].requires(position)
    }

    /** What each source yields at `position`, in list order. */
    function Samples(position: In): (s: seq<Out>)
      requires Defined(position)
      ensures |s| == |sources|
      ensures forall i | 0 <= i < |sources| :: s[i] == sources[i](position)
    {
      seq(|sources|, i requires 0 <= i < |sources| => sources[i](position))
    }

    /** The loop of the source: starts from the first source and folds in the rest. */
    method Value(position: In) returns (value: Out)
      requires |sources| > 0 && Defined(position)
      ensures value == Reduce(combine, Samples(position))
    {
      ghost var samples := Samples(position);
      value := sources[0](position);
      assert samples[..1] == [samples[0]];
      for i := 1 to |sources|
        invariant value == Reduce(combine, samples[..i])
      {
        assert samples[..i + 1][..i] == samples[..i];
        value := combine(value, sources[i](position));
      }
      assert samples[..|sources|] == samples;
    }
  }

  /** `CombinedNoise::new`: refuses an empty list (the source panics there). */
  function New<In, Out>(sources: seq<Noise<In, Out>>, combine: (Out, Out) -> Out): (r: Option<CombinedNoise<In, Out>>)
    ensures r.Some? <==> |sources| > 0
    ensures r.Some? ==> r.value.sources == sources && r.value.combine == combine
  {
    if |sources| == 0 then None else Some(CombinedNoise(sources, combine))
  }

  /** With a single source the combination is that source. */
  lemma SingleSource<In, Out>(source: Noise<In, Out>, combine: (Out, Out) -> Out, p: In)
    requires source.requires(p)
    ensures CombinedNoise([source], combine).Defined(p)
    ensures Reduce(combine, CombinedNoise([source], combine).Samples(p)) == source(p)
  {
  }

  /** Adding a source at the end folds its value into the previous result. */
  lemma AppendSource<In, Out>(sources: seq<Noise<In, Out>>, extra: Noise<In, Out>, combine: (Out, Out) -> Out, p: In)
    requires |sources| > 0 && CombinedNoise(sources, combine).Defined(p) && extra.requires(p)
    ensures CombinedNoise(sources + [extra], combine).Defined(p)
    ensures Reduce(combine, CombinedNoise(sources + [extra], combine).Samples(p))
         == combine(Reduce(combine, CombinedNoise(sources, combine).Samples(p)), extra(p))
  {
    assert forall i | 0 <= i < |sources + [extra]| :: (sources + [extra])[i].requires(p) by {
      forall i | 0 <= i < |sources + [extra]|
        ensures (sources + [extra])[i].requires(p)
      {
        if i < |sources| {
          assert (sources + [extra])[i] == sources[i];
        }
      }
    }
    var longer := CombinedNoise(sources + [extra], combine).Samples(p);
    assert longer[..|longer| - 1] == CombinedNoise(sources, combine).Samples(p);
  }

  /** `[constant 5, identity, constant -1]` under addition yields `position + 4`. */
  lemma SumOfConstantsAndIdentity(add: (int, int) -> int, i: int)
    requires forall a: int, b: int :: add(a, b) == a + b
    ensures Reduce(add, CombinedNoise([ConstantNoise(5).Value, NoOpNoise().Value, ConstantNoise(-1).Value], add).Samples(i))
         == i + 4
  {
    var s := CombinedNoise([ConstantNoise(5).Value, NoOpNoise().Value, ConstantNoise(-1).Value], add).Samples(i);
    assert s == [5, i, -1];
    assert s[..2] == [5, i];
    assert Reduce(add, s[..2]) == add(Reduce(add, [5]), i) == 5 + i;
  }

  /**
   * The two-source combinator with static dispatch; each source may have a
   * different output type.
   */
  datatype CombinedNoise2<!In, !Src1Out, !Src2Out, Out> =
    CombinedNoise2(source1: Noise<In, Src1Out>, source2: Noise<In, Src2Out>, combine: (Src1Out, Src2Out) -> Out)
  {
    /** Defined where both sources are; each is asked once, at the caller's position. */
    function Value(position: In): (r: Out)
      requires source1.requires(position) && source2.requires(position)
      ensures r == combine(source1(position), source2(position))
    {
      combine(source1(position), source2(position))
    }
  }

  /** With one output type the two-source combinator agrees with the list one. */
  lemma Combined2AgreesWithCombined<In, Out>(source1: Noise<In, Out>, source2: Noise<In, Out>, combine: (Out, Out) -> Out, p: In)
    requires source1.requires(p) && source2.requires(p)
    ensures CombinedNoise([source1, source2], combine).Defined(p)
    ensures CombinedNoise2(source1, source2, combine).Value(p)
         == Reduce(combine, CombinedNoise([source1, source2], combine).Samples(p))
  {
    var s := CombinedNoise([source1, source2], combine).Samples(p);
    assert s[..1] == [source1(p)];
  }

  /** The identity generator combined with itself under `*` squares the position. */
  lemma SquareOfIdentity(i: int)
    ensures CombinedNoise2(NoOpNoise().Value, NoOpNoise().Value, (a: int, b: int) => a * b).Value(i) == i * i
  {
  }
}
