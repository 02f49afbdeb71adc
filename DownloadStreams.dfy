/** The direct-download role (Stream.js:36-93): one stream over one pattern whose
    solutions arrive from a paged source, one page per `read`. The source's
    events become inputs: the page a `read` receives and whether the source
    signalled its end while it was read. */
module DownloadStreams {
  import opened Numbers
  import opened Rdf
  import opened Streams

  /** `max(0, remaining - 100) / 100`: the pages still to fetch after the one a
      read is fetching now. */
  function ReadCost(remaining: int): (c: real)
    ensures c >= 0.0
    ensures remaining <= PageSize ==> c == 0.0
    ensures remaining > PageSize ==> c * PageSize as real + PageSize as real == remaining as real
  {
    Max(0, remaining - PageSize) as real / PageSize as real
  }

  class DownloadStream {
    var base: Stream
    /** Estimated results not fetched yet. */
    var remaining: int
    /** Estimated total results: the server's figure, raised when more arrive. */
    var count: int
    /** The candidate value a binding stream spawned this stream for. */
    var bindVal: Option<string>

    /** The count never trails what was delivered, `remaining` is what the count
        has left, and an ended stream knows its exact count. */
    ghost predicate Valid()
      reads this
    {
      && base.Valid()
      && base.cost.Fin?
      && count >= base.tripleCount
      && remaining == count - base.tripleCount
      && (base.ended ==> count == base.tripleCount)
    }

    /** Stream.js:37-45: a stream whose server reports `count` matches costs
        `count / 100` page fetches. */
    constructor (pattern: Triple, count: nat)
      ensures Valid()
      ensures base == NewStream(Fin(count as real / PageSize as real), pattern)
      ensures this.count == count && remaining == count && bindVal == None
    {
      base := NewStream(Fin(count as real / PageSize as real), pattern);
      this.count := count;
      remaining := count;
      bindVal := None;
    }

    method Spend(c: real)
      requires Valid()
      modifies this
      ensures Valid()
      ensures base == old(base).Spend(c)
      ensures count == old(count) && remaining == old(remaining) && bindVal == old(bindVal)
    {
      base := base.Spend(c);
    }

    /** Stream.js:47-51, the source's end: the count becomes what was
        delivered and nothing remains. */
    method OnSourceEnd()
      requires Valid()
      modifies this
      ensures Valid()
      ensures base == old(base).(ended := true)
      ensures count == base.tripleCount && remaining == 0
      ensures bindVal == old(bindVal)
    {
      count := base.tripleCount;
      base := base.(ended := true);
      remaining := 0;
    }

    /** Stream.js:78-89, the delivery of one page. A count the server
        under-estimated is raised to what was delivered, plus one while the
        source has not ended. */
    method AddBuffer(batch: seq<Triple>)
      requires Valid()
      modifies this
      ensures Valid()
      ensures base == old(base).Append(batch)
      ensures old(count) < base.tripleCount ==>
                count == base.tripleCount + (if base.ended then 0 else 1)
      ensures base.tripleCount <= old(count) ==> count == old(count)
      ensures base.ended ==> remaining == 0
      ensures !base.ended && old(count) < base.tripleCount ==> remaining == 1
      ensures bindVal == old(bindVal)
    {
      base := base.Append(batch);
      if base.tripleCount > count {
        count := base.tripleCount + (if base.ended then 0 else 1);
      }
      remaining := count - base.tripleCount;
    }

    /** Stream.js:55-93. An ended stream delivers nothing and changes nothing.
        Otherwise the cost is re-estimated from what remained when the read
        began, the cost remaining is reset to it, and the page, bound to the
        pattern, is delivered once; when the source ends during the read the
        stream ends with its exact count. */
    method Read(page: seq<Binding>, sourceEnded: bool) returns (batch: seq<Triple>)
      requires Valid()
      requires |page| <= PageSize && (sourceEnded || |page| == PageSize)
      modifies this
      ensures Valid()
      ensures bindVal == old(bindVal) && base.pattern == old(base.pattern)
      ensures old(base.ended) ==>
                batch == [] && base == old(base) && count == old(count) && remaining == old(remaining)
      ensures !old(base.ended) ==> batch == ApplyAll(page, base.pattern) && |batch| <= PageSize
      ensures !old(base.ended) ==>
                base.triples == old(base.triples) + batch && base.tripleCount == old(base.tripleCount) + |batch|
      ensures !old(base.ended) ==>
                base.cost == Fin(ReadCost(old(remaining))) && base.costRemaining == base.cost
      ensures !old(base.ended) ==> base.ended == sourceEnded
      ensures !old(base.ended) && sourceEnded ==> count == base.tripleCount && remaining == 0
      ensures !old(base.ended) && !sourceEnded ==>
                count == (if old(count) < base.tripleCount then base.tripleCount + 1 else old(count))
    {
      if base.ended {
        return [];
      }
      batch := ApplyAll(page, base.pattern);
      var cost := Fin(ReadCost(remaining));
      base := base.(cost := cost, costRemaining := cost);
      if sourceEnded {
        OnSourceEnd();
      }
      AddBuffer(batch);
    }
  }
}
