/** The combinator that maps a function over the output of a source generator. */
module Output {
  import opened DefaultNoise

  /** Applies `op` to whatever `source` yields at a position. */
  datatype OutputOp<!In, !SrcOut, Out> = OutputOp(source: Noise<In, SrcOut>, op: SrcOut -> Out) {
    /** Defined wherever the source is; the source is asked once, at the caller's position. */
    function Value(position: In): (r: Out)
      requires source.requires(position)
      ensures r == op(source(position))
    {
      op(source(position))
    }
  }

  /** The source is asked once, at the caller's position, and its answer mapped. */
  lemma ValueMapsSource<In, SrcOut, Out>(source: Noise<In, SrcOut>, op: SrcOut -> Out, p: In, v: SrcOut)
    requires source.requires(p) && source(p) == v
    ensures OutputOp(source, op).Value(p) == op(v)
  {
  }

  /** Wrapping with the identity operation changes nothing, and is defined where the source is. */
  lemma IdentityOp<In, Out>(source: Noise<In, Out>, p: In)
    ensures OutputOp(source, (x: Out) => x).Value.requires(p) <==> source.requires(p)
    ensures source.requires(p) ==> OutputOp(source, (x: Out) => x).Value(p) == source(p)
  {
  }

  /** Nested output operations compose: the inner one is applied first. */
  lemma NestedCompose<In, A, B, C>(source: Noise<In, A>, f: A -> B, g: B -> C, p: In)
    requires source.requires(p)
    ensures OutputOp(OutputOp(source, f).Value, g).Value(p) == g(f(source(p)))
  {
  }

  /** Doubling the identity generator doubles the position. */
  lemma DoubledIdentity(i: int)
    ensures OutputOp(NoOpNoise().Value, (x: int) => x * 2).Value(i) == 2 * i
  {
  }
}
