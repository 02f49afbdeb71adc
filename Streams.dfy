/** The accounting every stream shares: the base `Stream` of Stream.js. Both
    roles keep these fields on the stream object itself, so the model keeps them
    as one record, `base`, that each stream class reassigns. */
module Streams {
  import opened Numbers
  import opened Rdf

  /** Solutions per page fetched from the server. */
  const PageSize: nat := 100

  datatype Option<T> = None | Some(value: T)

  /** `cost` estimates the HTTP calls still needed, `costRemaining` what is left
      of it after spending; `triples` accumulates every delivered batch and
      `tripleCount` counts them. An unknown (infinite) cost leaves an unknown
      cost remaining: both are only ever set to infinity together. */
  datatype Stream = Stream(
    cost: Ext,
    costRemaining: Ext,
    pattern: Triple,
    ended: bool,
    triples: seq<Triple>,
    tripleCount: nat)
  {
    predicate Valid()
    {
      && tripleCount == |triples|
      && (cost.Inf? ==> costRemaining.Inf?)
    }

    /** Spending lowers `costRemaining` by `c` and touches nothing else. */
    function Spend(c: real): (r: Stream)
      ensures r.(costRemaining := costRemaining) == this
      ensures Valid() ==> r.Valid()
      ensures r.costRemaining.Inf? <==> costRemaining.Inf?
      ensures costRemaining.Fin? ==> costRemaining.v - r.costRemaining.v == c
    {
      this.(costRemaining := costRemaining.Minus(c))
    }

    /** A delivered batch joins the accumulated triples, in order. */
    function Append(batch: seq<Triple>): (r: Stream)
      requires Valid()
      ensures r.Valid()
      ensures r.tripleCount == tripleCount + |batch|
      ensures r.triples[..tripleCount] == triples && r.triples[tripleCount..] == batch
      ensures r.(triples := triples, tripleCount := tripleCount) == this
    {
      this.(triples := triples + batch, tripleCount := tripleCount + |batch|)
    }
  }

  /** A new stream: its whole estimated cost still to spend, nothing delivered. */
  function NewStream(cost: Ext, pattern: Triple): (s: Stream)
    ensures s.Valid() && !s.ended && s.triples == []
    ensures s.cost == cost && s.costRemaining == cost && s.pattern == pattern
  {
    Stream(cost, cost, pattern, false, [], 0)
  }
}
