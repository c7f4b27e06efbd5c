/** The accumulation the octave generators perform: a left-to-right sum from zero. */
module Sums {
  import opened Interpolate

  /** `((0 + xs[0]) + xs[1]) + ... + xs[n-1]`, in sequence order. */
  function Sum(xs: seq<real>): real
  {
    if xs == [] then 0.0 else Sum(xs[..|xs| - 1]) + xs[|xs| - 1]
  }

  /** A sum of values bounded term by term is bounded by the sum of the bounds. */
  lemma {:induction false} SumBounded(xs: seq<real>, bounds: seq<real>)
    requires |xs| == |bounds|
    requires forall i | 0 <= i < |xs| :: Abs(xs[i]) <= bounds[i]
    ensures Abs(Sum(xs)) <= Sum(bounds)
  {
    if xs != [] {
      var n := |xs| - 1;
      SumBounded(xs[..n], bounds[..n]);
    }
  }

  /** Appending a term adds it to the sum. */
  lemma SumAppend(xs: seq<real>, x: real)
    ensures Sum(xs + [x]) == Sum(xs) + x
  {
    assert (xs + [x])[..|xs|] == xs;
  }

  lemma SumOfPair(x: real, y: real)
    ensures Sum([x, y]) == x + y
  {
    SumAppend([], x);
    SumAppend([x], y);
    assert [] + [x] == [x] && [x] + [y] == [x, y];
  }
}
