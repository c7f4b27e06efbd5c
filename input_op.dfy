/** The combinator that maps a function over the position before a source sees it. */
module Input {
  import opened DefaultNoise

  /** Asks `source` for the value at `op(position)`. */
  datatype InputOp<!In, !OpOut, Out> = InputOp(source: Noise<OpOut, Out>, op: In -> OpOut) {
    /** Defined wherever the source is defined at the transformed position. */
    function Value(position: In): (r: Out)
      requires source.requires(op(position))
      ensures r == source(op(position))
    {
      source(op(position))
    }
  }

  /** The source is asked at the transformed position. */
  lemma ValueAtTransformedPosition<In, OpOut, Out>(source: Noise<OpOut, Out>, op: In -> OpOut, p: In, q: OpOut)
    requires op(p) == q && source.requires(q)
    ensures InputOp(source, op).Value(p) == source(q)
  {
  }

  /** Transforming by the identity changes nothing, and is defined where the source is. */
  lemma IdentityOp<In, Out>(source: Noise<In, Out>, p: In)
    ensures InputOp(source, (x: In) => x).Value.requires(p) <==> source.requires(p)
    ensures source.requires(p) ==> InputOp(source, (x: In) => x).Value(p) == source(p)
  {
  }

  /** Nested input operations compose inside out: the outer one is applied first. */
  lemma NestedCompose<A, B, C, Out>(source: Noise<C, Out>, f: B -> C, g: A -> B, p: A)
    requires source.requires(f(g(p)))
    ensures InputOp(InputOp(source, f).Value, g).Value(p) == source(f(g(p)))
  {
  }

  /** Over a constant source the transformation is irrelevant. */
  lemma ConstantSource<In, OpOut, Out>(v: Out, op: In -> OpOut, p: In)
    ensures InputOp(ConstantNoise(v).Value, op).Value(p) == v
  {
  }

  /** Doubling the position of the identity generator doubles the position. */
  lemma DoubledPosition(i: int)
    ensures InputOp(NoOpNoise().Value, (p: int) => p * 2).Value(i) == 2 * i
  {
  }
}
