/** The binding-driven role (Stream.js:95-245): a stream that enumerates candidate
    values for one variable of its pattern, resolves each value's match count
    with one metadata request, spawns a download stream per resolved value and
    serves those children oldest first. The metadata request becomes a function
    from a candidate value to the count the server reports for the pattern bound
    to it; a child's page and end signal are inputs as for a download stream. */
module BindingStreams {
  import opened Numbers
  import opened Rdf
  import opened Streams
  import opened Estimates
  import opened DownloadStreams

  predicate NoDuplicates<T(==)>(s: seq<T>)
  {
    forall i, j :: 0 <= i < j < |s| ==> s[i] != s[j]
  }

  /** The pending set after a feed: the fed values not resolved yet, and every
      value that was already pending. */
  function Merged(resolved: seq<string>, fed: seq<string>, pending: seq<string>): set<string>
  {
    (set v | v in fed && v !in resolved) + (set v | v in pending)
  }

  /** Stream.js:196-208, the rebuilding of the pending queue. The two caches are
      JavaScript objects used as sets; `Object.keys` lists the merged cache in
      an order of the engine's choosing, modelled as an arbitrary order. */
  method FeedKeys(resolved: seq<string>, fed: seq<string>, pending: seq<string>) returns (keys: seq<string>)
    ensures NoDuplicates(keys)
    ensures forall v :: v in keys <==> v in Merged(resolved, fed, pending)
  {
    var exclude: set<string> := {};
    var i := 0;
    while i < |resolved|
      invariant 0 <= i <= |resolved|
      invariant forall v :: v in exclude <==> v in resolved[..i]
    {
      exclude := exclude + {resolved[i]};
      i := i + 1;
    }
    assert resolved[..i] == resolved;
    var cache: set<string> := {};
    i := 0;
    while i < |fed|
      invariant 0 <= i <= |fed|
      invariant forall v :: v in cache <==> v in fed[..i] && v !in resolved
    {
      if fed[i] !in exclude {
        cache := cache + {fed[i]};
      }
      i := i + 1;
    }
    assert fed[..i] == fed;
    i := 0;
    while i < |pending|
      invariant 0 <= i <= |pending|
      invariant forall v :: v in cache <==> (v in fed && v !in resolved) || v in pending[..i]
    {
      cache := cache + {pending[i]};
      i := i + 1;
    }
    assert pending[..i] == pending;
    keys := [];
    var rest := cache;
    while rest != {}
      invariant rest <= cache
      invariant NoDuplicates(keys)
      invariant forall v :: v in keys <==> v in cache && v !in rest
      decreases |rest|
    {
      var k :| k in rest;
      keys := keys + [k];
      rest := rest - {k};
    }
  }

  /** Feeding the same values a second time leaves the pending set as it was. */
  lemma FeedIdempotent(resolved: seq<string>, fed: seq<string>, pending: seq<string>, keys: seq<string>)
    requires forall v :: v in keys <==> v in Merged(resolved, fed, pending)
    ensures Merged(resolved, fed, keys) == Merged(resolved, fed, pending)
  {
  }

  /** Feeding only values that were resolved already changes no pending value. */
  lemma FeedResolvedIsNoOp(resolved: seq<string>, fed: seq<string>, pending: seq<string>)
    requires forall v :: v in fed ==> v in resolved
    ensures Merged(resolved, fed, pending) == set v | v in pending
  {
  }

  /** One result per resolved value, with the count the server reported. */
  function Resolve(values: seq<string>, metadata: string -> nat): (rs: seq<BindingResult>)
    ensures |rs| == |values|
    ensures forall i :: 0 <= i < |rs| ==> rs[i] == BindingResult(values[i], metadata(values[i]))
  {
    seq(|values|, i requires 0 <= i < |values| => BindingResult(values[i], metadata(values[i])))
  }

  lemma ResolveSnoc(values: seq<string>, v: string, metadata: string -> nat)
    ensures Resolve(values + [v], metadata) == Resolve(values, metadata) + [BindingResult(v, metadata(v))]
  {
  }

  /** One step of resolving the queue `whole` in order: its head `v` moves
      from the pending part to the resolved part `done`, and the results and
      values resolved so far (after `results0` and `vals0`) grow by `v`'s. */
  lemma AdvanceQueue(whole: seq<string>, done: seq<string>, pending: seq<string>,
                     results0: seq<BindingResult>, vals0: seq<string>, metadata: string -> nat)
    requires whole == done + pending && pending != []
    ensures whole == (done + [pending[0]]) + pending[1..]
    ensures results0 + Resolve(done, metadata) + [BindingResult(pending[0], metadata(pending[0]))]
            == results0 + Resolve(done + [pending[0]], metadata)
    ensures vals0 + done + [pending[0]] == vals0 + (done + [pending[0]])
  {
    assert pending == [pending[0]] + pending[1..];
    ResolveSnoc(done, pending[0], metadata);
  }

  function Head(ss: seq<DownloadStream>): seq<DownloadStream>
  {
    if ss == [] then [] else [ss[0]]
  }

  function ChildRemainings(ss: seq<DownloadStream>): (rs: seq<int>)
    reads ss
    ensures |rs| == |ss|
    ensures forall i :: 0 <= i < |ss| ==> rs[i] == ss[i].remaining
  {
    if ss == [] then [] else [ss[0].remaining] + ChildRemainings(ss[1..])
  }

  predicate AllEnded(ss: seq<DownloadStream>)
    reads ss
  {
    forall i :: 0 <= i < |ss| ==> ss[i].base.ended
  }

  /** The spawned download streams are distinct and each is consistent. */
  ghost predicate ChildrenValid(ss: seq<DownloadStream>)
    reads ss
  {
    && NoDuplicates(ss)
    && forall i :: 0 <= i < |ss| ==> ss[i].Valid()
  }

  /** `s` is the download stream spawned for value `v` of variable `bindVar`
      in `pattern`, with the server's count `total`, untouched since. */
  ghost predicate SpawnedFor(s: DownloadStream, pattern: Triple, bindVar: string, v: string, total: nat)
    reads s
  {
    && s.base == NewStream(Fin(total as real / PageSize as real), ApplyBindings(map[bindVar := v], pattern))
    && s.count == total && s.remaining == total
    && s.bindVal == Some(v)
  }

  /** `after` is `before` followed by one spawned stream per value. */
  ghost predicate Spawned(before: seq<DownloadStream>, after: seq<DownloadStream>, pattern: Triple, bindVar: string,
                          values: seq<string>, metadata: string -> nat)
    reads after
  {
    && |after| == |before| + |values|
    && after[..|before|] == before
    && forall i :: 0 <= i < |values| ==> SpawnedFor(after[|before| + i], pattern, bindVar, values[i], metadata(values[i]))
  }

  lemma SpawnedExtend(before: seq<DownloadStream>, mid: seq<DownloadStream>, after: seq<DownloadStream>,
                      pattern: Triple, bindVar: string, values: seq<string>, v: string, metadata: string -> nat)
    requires Spawned(before, mid, pattern, bindVar, values, metadata)
    requires |after| == |mid| + 1 && after[..|mid|] == mid
    requires SpawnedFor(after[|mid|], pattern, bindVar, v, metadata(v))
    ensures Spawned(before, after, pattern, bindVar, values + [v], metadata)
  {
    var vs := values + [v];
    forall i | 0 <= i < |vs|
      ensures SpawnedFor(after[|before| + i], pattern, bindVar, vs[i], metadata(vs[i]))
    {
      if i < |values| {
        assert after[|before| + i] == mid[|before| + i];
      }
    }
    assert after[..|before|] == mid[..|before|];
  }

  /** Resolving the head of a queue first and then its tail resolves the queue. */
  lemma ResolveCons(values: seq<string>, metadata: string -> nat)
    requires values != []
    ensures Resolve(values, metadata) == [BindingResult(values[0], metadata(values[0]))] + Resolve(values[1..], metadata)
  {
  }

  lemma NothingSpawned(ss: seq<DownloadStream>, pattern: Triple, bindVar: string, metadata: string -> nat)
    ensures Spawned(ss, ss, pattern, bindVar, [], metadata)
  {
    assert ss[..|ss|] == ss;
  }

  lemma SeqCons<T>(a: seq<T>, x: T, b: seq<T>)
    ensures (a + [x]) + b == a + ([x] + b)
  {
  }

  /** A child spawned for `v` followed by children spawned for `rest` are the
      children spawned for `[v] + rest`. */
  lemma SpawnedCons(before: seq<DownloadStream>, mid: seq<DownloadStream>, after: seq<DownloadStream>,
                    pattern: Triple, bindVar: string, v: string, rest: seq<string>, metadata: string -> nat)
    requires |mid| == |before| + 1 && mid[..|before|] == before
    requires SpawnedFor(mid[|before|], pattern, bindVar, v, metadata(v))
    requires Spawned(mid, after, pattern, bindVar, rest, metadata)
    ensures Spawned(before, after, pattern, bindVar, [v] + rest, metadata)
  {
    var vs := [v] + rest;
    forall i | 0 <= i < |vs|
      ensures SpawnedFor(after[|before| + i], pattern, bindVar, vs[i], metadata(vs[i]))
    {
      if i == 0 {
        assert after[|before|] == mid[|before|];
      } else {
        assert vs[i] == rest[i - 1];
      }
    }
    assert after[..|before|] == mid[..|mid|][..|before|];
  }

  class BindingStream {
    var base: Stream
    /** The variable whose values are enumerated. */
    const bindVar: string
    /** Candidate values not resolved yet, in queue order. */
    var bindings: seq<string>
    /** One result per resolved value, in resolution order: the sample. */
    var results: seq<BindingResult>
    /** The resolved values, for deduplication at feed time. */
    var resultVals: seq<string>
    /** The spawned download streams, oldest first. */
    var streams: seq<DownloadStream>
    /** Whether the driver has said no more candidates will come. */
    var gotAllData: bool
    var remaining: Ext
    var count: Ext
    var matchRate: JsNum

    /** Every candidate value is pending or resolved, never both and never
        twice; `resultVals` lists the values of `results`; each child is a
        distinct, consistent download stream. */
    ghost predicate Valid()
      reads this, streams
    {
      && base.Valid()
      && NoDuplicates(bindings)
      && NoDuplicates(resultVals)
      && (forall v :: v in bindings ==> v !in resultVals)
      && |results| == |resultVals|
      && (forall i :: 0 <= i < |results| ==> results[i].binding == resultVals[i])
      && ChildrenValid(streams)
    }

    predicate IsStable()
      reads this
    {
      Estimates.IsStable(gotAllData, |bindings|, results)
    }

    /** Stream.js:213-215: nothing pending, nothing spawned, not ended. A hungry
        stream that has all its data is stable. */
    predicate IsHungry()
      reads this
      ensures IsHungry() && gotAllData ==> IsStable()
    {
      streams == [] && bindings == [] && !base.ended
    }

    /** Stream.js:170, nothing for `read` to do: the stream has ended, or it
        is hungry. */
    predicate Idle()
      reads this
      ensures Idle() <==> base.ended || IsHungry()
    {
      base.ended || (bindings == [] && streams == [])
    }

    /** Stream.js:96-112: the given cost is overridden; every estimate starts
        out unknown. */
    constructor (cost: Ext, pattern: Triple, bindVar: string)
      ensures Valid()
      ensures base == NewStream(cost, pattern).(cost := Inf, costRemaining := Inf)
      ensures this.bindVar == bindVar
      ensures bindings == [] && results == [] && resultVals == [] && streams == []
      ensures !gotAllData && remaining == Inf && count == Inf && matchRate == Num(1.0)
    {
      base := NewStream(cost, pattern).(cost := Inf, costRemaining := Inf);
      this.bindVar := bindVar;
      bindings := [];
      results := [];
      resultVals := [];
      streams := [];
      gotAllData := false;
      remaining := Inf;
      count := Inf;
      matchRate := Num(1.0);
    }

    method Spend(c: real)
      requires Valid()
      modifies this
      ensures Valid()
      ensures base == old(base).Spend(c)
      ensures bindings == old(bindings) && results == old(results) && resultVals == old(resultVals)
      ensures streams == old(streams) && gotAllData == old(gotAllData)
      ensures remaining == old(remaining) && count == old(count) && matchRate == old(matchRate)
    {
      base := base.Spend(c);
    }

    /** Stream.js:140-156, once the metadata request answered `total`: the head
        of the queue moves to the resolved values and gets its own download
        stream at the back of the children. */
    method AddBinding(total: nat)
      requires Valid() && bindings != []
      modifies this
      ensures Valid()
      ensures bindings == old(bindings[1..])
      ensures results == old(results) + [BindingResult(old(bindings[0]), total)]
      ensures resultVals == old(resultVals) + [old(bindings[0])]
      ensures |streams| == |old(streams)| + 1 && streams[..|old(streams)|] == old(streams)
      ensures fresh(streams[|old(streams)|]) && SpawnedFor(streams[|old(streams)|], base.pattern, bindVar, old(bindings[0]), total)
      ensures base == old(base) && gotAllData == old(gotAllData)
      ensures remaining == old(remaining) && count == old(count) && matchRate == old(matchRate)
    {
      var bindingVal := bindings[0];
      assert bindingVal !in resultVals;
      bindings := bindings[1..];
      var boundPattern := ApplyBindings(map[bindVar := bindingVal], base.pattern);
      var stream := new DownloadStream(boundPattern, total);
      stream.bindVal := Some(bindingVal);
      streams := streams + [stream];
      results := results + [BindingResult(bindingVal, total)];
      resultVals := resultVals + [bindingVal];
    }

    /** `AddBinding` for the head of the queue, with the server's count from
        `metadata`, as one step of resolving the queue `whole` in order: `done`
        (the values already resolved since `before` were the children) grows by
        the head, and so do the results after `results0` and `vals0`. */
    method ResolveNext(metadata: string -> nat, ghost before: seq<DownloadStream>, ghost whole: seq<string>,
                       ghost results0: seq<BindingResult>, ghost vals0: seq<string>, ghost done: seq<string>)
      returns (ghost done': seq<string>)
      requires Valid() && bindings != []
      requires whole == done + bindings
      requires results == results0 + Resolve(done, metadata)
      requires resultVals == vals0 + done
      requires Spawned(before, streams, base.pattern, bindVar, done, metadata)
      modifies this
      ensures Valid()
      ensures done' == done + [old(bindings[0])] && whole == done' + bindings
      ensures results == results0 + Resolve(done', metadata)
      ensures resultVals == vals0 + done'
      ensures Spawned(before, streams, base.pattern, bindVar, done', metadata)
      ensures |streams| == |old(streams)| + 1 && streams[..|old(streams)|] == old(streams)
      ensures fresh(streams[|old(streams)|])
      ensures base == old(base) && gotAllData == old(gotAllData)
      ensures remaining == old(remaining) && count == old(count) && matchRate == old(matchRate)
    {
      var v := bindings[0];
      ghost var mid, pending := streams, bindings;
      AddBinding(metadata(v));
      SpawnedExtend(before, mid, streams, base.pattern, bindVar, done, v, metadata);
      AdvanceQueue(whole, done, pending, results0, vals0, metadata);
      done' := done + [v];
    }

    /** Stream.js:159-167: resolve values until the stream is stable or nothing
        is pending, and report whether it is stable; each resolved value's
        callback recurses. With the stability test as written, every pending
        value is resolved, in queue order, each getting a new download stream. */
    method Stabilize(metadata: string -> nat) returns (stable: bool)
      requires Valid()
      modifies this
      decreases |bindings|
      ensures Valid()
      ensures stable == IsStable() && stable == gotAllData
      ensures bindings == []
      ensures results == old(results) + Resolve(old(bindings), metadata)
      ensures resultVals == old(resultVals) + old(bindings)
      ensures Spawned(old(streams), streams, base.pattern, bindVar, old(bindings), metadata)
      ensures forall i :: |old(streams)| <= i < |streams| ==> fresh(streams[i])
      ensures base == old(base) && gotAllData == old(gotAllData)
      ensures remaining == old(remaining) && count == old(count) && matchRate == old(matchRate)
    {
      if IsStable() || bindings == [] {
        NothingSpawned(streams, base.pattern, bindVar, metadata);
        assert results + [] == results && resultVals + [] == resultVals;
        return IsStable();
      }
      var v := bindings[0];
      AddBinding(metadata(v));
      ghost var mid, rest, rs, rvs := streams, bindings, results, resultVals;
      stable := Stabilize(metadata);
      assert old(bindings) == [v] + rest;
      SpawnedCons(old(streams), mid, streams, base.pattern, bindVar, v, rest, metadata);
      ResolveCons(old(bindings), metadata);
      SeqCons(old(results), BindingResult(v, metadata(v)), Resolve(rest, metadata));
      SeqCons(old(resultVals), v, rest);
    }

    /** Stream.js:179-190, the callback of the head child's `read`: the head
        child leaves the queue when it has ended, the cost drops by what was
        delivered and the cost remaining is reset to it, the stream ends once
        nothing is left anywhere, and the batch joins the delivered triples. */
    method AcceptBatch(batch: seq<Triple>, childEnded: bool)
      requires Valid() && streams != []
      modifies this
      ensures Valid()
      ensures streams == if childEnded then old(streams[1..]) else old(streams)
      ensures base.cost == old(base.cost).Minus(|batch| as real) && base.costRemaining == base.cost
      ensures base.ended == (old(base.ended) || (remaining.AtMost(0.0) && streams == [] && bindings == []))
      ensures base.triples == old(base.triples) + batch && base.tripleCount == old(base.tripleCount) + |batch|
      ensures base.pattern == old(base.pattern)
      ensures bindings == old(bindings) && results == old(results) && resultVals == old(resultVals)
      ensures gotAllData == old(gotAllData)
      ensures remaining == old(remaining) && count == old(count) && matchRate == old(matchRate)
    {
      if childEnded {
        streams := streams[1..];
      }
      var cost := base.cost.Minus(|batch| as real);
      base := base.(cost := cost, costRemaining := cost);
      if remaining.AtMost(0.0) && streams == [] && bindings == [] {
        base := base.(ended := true);
      }
      base := base.Append(batch);
    }

    /** Stream.js:177-191: one page of the head child, delivered through the
        binding stream. */
    method ReadHead(page: seq<Binding>, sourceEnded: bool) returns (batch: seq<Triple>)
      requires Valid() && streams != []
      requires |page| <= PageSize && (sourceEnded || |page| == PageSize)
      modifies this, streams[0]
      ensures Valid()
      ensures old(streams[0].base.ended) ==> batch == []
      ensures !old(streams[0].base.ended) ==> batch == ApplyAll(page, old(streams[0].base.pattern))
      ensures old(streams[0]).base.triples == old(streams[0].base.triples) + batch
      ensures old(streams[0]).base.pattern == old(streams[0].base.pattern)
      ensures old(streams[0]).bindVal == old(streams[0].bindVal)
      ensures old(streams[0]).Valid()
      ensures !old(streams[0].base.ended) ==> old(streams[0]).base.ended == sourceEnded
      ensures !old(streams[0].base.ended) ==>
                old(streams[0]).base.cost == Fin(ReadCost(old(streams[0].remaining)))
                && old(streams[0]).base.costRemaining == old(streams[0]).base.cost
      ensures !old(streams[0].base.ended) && sourceEnded ==>
                old(streams[0]).remaining == 0 && old(streams[0]).count == old(streams[0]).base.tripleCount
      ensures !old(streams[0].base.ended) && !sourceEnded ==>
                old(streams[0]).count == (if old(streams[0].count) < old(streams[0]).base.tripleCount
                                          then old(streams[0]).base.tripleCount + 1 else old(streams[0].count))
      ensures streams == if old(streams[0].base.ended) || sourceEnded then old(streams[1..]) else old(streams)
      ensures base.cost == old(base.cost).Minus(|batch| as real) && base.costRemaining == base.cost
      ensures base.ended == (old(base.ended) || (remaining.AtMost(0.0) && streams == [] && bindings == []))
      ensures base.triples == old(base.triples) + batch && base.tripleCount == old(base.tripleCount) + |batch|
      ensures base.pattern == old(base.pattern)
      ensures bindings == old(bindings) && results == old(results) && resultVals == old(resultVals)
      ensures gotAllData == old(gotAllData)
      ensures remaining == old(remaining) && count == old(count) && matchRate == old(matchRate)
    {
      var stream := streams[0];
      ghost var rest := streams[1..];
      batch := stream.Read(page, sourceEnded);
      assert forall i :: 0 <= i < |rest| ==> rest[i].Valid();
      AcceptBatch(batch, stream.base.ended);
    }

    /** Stream.js:174-176, the resolving part of `read`: at least one value is
        resolved when any is pending, and more while the stream is not stable or
        has no child to read. With the stability test as written this resolves
        every pending value. */
    method ResolvePending(metadata: string -> nat)
      requires Valid()
      modifies this
      ensures Valid()
      ensures bindings == []
      ensures results == old(results) + Resolve(old(bindings), metadata)
      ensures resultVals == old(resultVals) + old(bindings)
      ensures Spawned(old(streams), streams, base.pattern, bindVar, old(bindings), metadata)
      ensures old(streams) == [] && streams != [] ==> fresh(streams[0])
      ensures base == old(base) && gotAllData == old(gotAllData)
      ensures remaining == old(remaining) && count == old(count) && matchRate == old(matchRate)
    {
      var recursive := false;
      ghost var done: seq<string> := [];
      while (!recursive || !IsStable() || streams == []) && bindings != []
        invariant Valid()
        invariant old(bindings) == done + bindings
        invariant results == old(results) + Resolve(done, metadata)
        invariant resultVals == old(resultVals) + done
        invariant Spawned(old(streams), streams, base.pattern, bindVar, done, metadata)
        invariant old(streams) == [] && streams != [] ==> fresh(streams[0])
        invariant base == old(base) && gotAllData == old(gotAllData)
        invariant remaining == old(remaining) && count == old(count) && matchRate == old(matchRate)
        decreases |bindings|
      {
        done := ResolveNext(metadata, old(streams), old(bindings), old(results), old(resultVals), done);
        recursive := true;
      }
      assert done == old(bindings);
    }

    /** Stream.js:169-193. An ended stream, or one with nothing pending and no
        child, delivers nothing. Otherwise every pending value is resolved and
        spawns a child (`queue` is the child list then), and the head child
        serves one page. */
    method Read(metadata: string -> nat, page: seq<Binding>, sourceEnded: bool)
      returns (batch: seq<Triple>, ghost queue: seq<DownloadStream>)
      requires Valid()
      requires |page| <= PageSize && (sourceEnded || |page| == PageSize)
      modifies this, Head(streams)
      ensures Valid()
      ensures old(Idle()) ==> batch == [] && unchanged(this) && queue == streams
      ensures !old(Idle()) ==> bindings == [] && queue != []
      ensures !old(Idle()) ==> results == old(results) + Resolve(old(bindings), metadata)
      ensures !old(Idle()) ==> resultVals == old(resultVals) + old(bindings)
      ensures !old(Idle()) ==> |queue| == |old(streams)| + |old(bindings)| && queue[..|old(streams)|] == old(streams)
      ensures !old(Idle()) ==> forall i :: 0 <= i < |old(bindings)| ==> queue[|old(streams)| + i].bindVal == Some(old(bindings)[i])
      ensures !old(Idle()) && old(streams) == [] ==> fresh(queue[0])
      ensures !old(Idle()) ==>
                batch == if old(streams) != [] && old(streams[0].base.ended) then [] else ApplyAll(page, queue[0].base.pattern)
      ensures !old(Idle()) ==>
                streams == if (old(streams) != [] && old(streams[0].base.ended)) || sourceEnded then queue[1..] else queue
      ensures !old(Idle()) ==>
                base.cost == old(base.cost).Minus(|batch| as real) && base.costRemaining == base.cost
      ensures !old(Idle()) ==> base.ended == (remaining.AtMost(0.0) && streams == [])
      ensures base.triples == old(base.triples) + batch && base.tripleCount == old(base.tripleCount) + |batch|
      ensures base.pattern == old(base.pattern) && gotAllData == old(gotAllData)
      ensures remaining == old(remaining) && count == old(count) && matchRate == old(matchRate)
    {
      if Idle() {
        return [], streams;
      }
      ResolvePending(metadata);
      queue := streams;
      if old(streams) == [] {
        assert SpawnedFor(queue[0], base.pattern, bindVar, old(bindings)[0], metadata(old(bindings)[0]));
      } else {
        assert queue[0] == old(streams[0]);
      }
      batch := ReadHead(page, sourceEnded);
    }

    /** Stream.js:196-210: new candidate values join the pending queue; values
        already resolved or already pending are not added again. */
    method Feed(values: seq<string>)
      requires Valid()
      modifies this
      ensures Valid()
      ensures forall v :: v in bindings <==> v in Merged(resultVals, values, old(bindings))
      ensures base == old(base) && results == old(results) && resultVals == old(resultVals)
      ensures streams == old(streams) && gotAllData == old(gotAllData)
      ensures remaining == old(remaining) && count == old(count) && matchRate == old(matchRate)
    {
      bindings := FeedKeys(resultVals, values, bindings);
    }

    /** Stream.js:218-245. `r` is the driver's estimate of the candidate values
        still to come. The stream ends when nothing is pending, every child has
        ended and `r` is zero; all data is in when `r` is not positive. An
        unstable stream publishes unknown (infinite) estimates; a stable one
        publishes the children's remaining results and pages plus the expected
        share of the `r` values still to come, with the cost remaining following
        the change of cost. */
    method UpdateRemaining(r: int)
      requires Valid()
      modifies this
      ensures Valid()
      ensures base.ended == (bindings == [] && AllEnded(streams) && r == 0)
      ensures gotAllData == (r <= 0)
      ensures IsStable() <==> r <= 0 && bindings == []
      ensures !IsStable() ==> remaining == Inf && count == Inf && base.cost == Inf && base.costRemaining == Inf
      ensures !IsStable() ==> matchRate == old(matchRate)
      ensures IsStable() ==>
                var e := Publish(ChildRemainings(streams), results, r);
                remaining == Fin(e.remaining) && base.cost == Fin(e.cost as real) && count == Fin(e.count)
      ensures IsStable() ==>
                base.costRemaining == Fin(NextCostRemaining(old(base.cost), base.cost.v, old(base.costRemaining)))
                && base.costRemaining.v <= base.cost.v
      ensures IsStable() && old(base.cost).Inf? ==> base.costRemaining == base.cost
      ensures IsStable() && r == 0 ==> remaining.v <= base.cost.v * PageSize as real
      ensures IsStable() ==> matchRate == MatchRate(results)
      ensures base.triples == old(base.triples) && base.tripleCount == old(base.tripleCount)
      ensures base.pattern == old(base.pattern)
      ensures bindings == old(bindings) && results == old(results) && resultVals == old(resultVals)
      ensures streams == old(streams)
    {
      base := base.(ended := bindings == [] && AllEnded(streams) && r == 0);
      gotAllData := r <= 0;
      if !IsStable() {
        remaining := Inf;
        base := base.(cost := Inf, costRemaining := Inf);
        count := Inf;
        return;
      }
      PublishEstimates(r + |bindings|);
    }

    /** Stream.js:229-242, the stable case of `updateRemaining` with
        `outstanding` candidate values still expected. */
    method PublishEstimates(outstanding: int)
      requires Valid() && gotAllData
      modifies this
      ensures Valid()
      ensures var e := Publish(ChildRemainings(streams), results, outstanding);
              remaining == Fin(e.remaining) && base.cost == Fin(e.cost as real) && count == Fin(e.count)
      ensures base.costRemaining == Fin(NextCostRemaining(old(base.cost), base.cost.v, old(base.costRemaining)))
      ensures old(base.cost).Inf? ==> base.costRemaining == base.cost
      ensures outstanding >= 0 ==> remaining.v <= base.cost.v * PageSize as real
      ensures matchRate == MatchRate(results)
      ensures base.triples == old(base.triples) && base.tripleCount == old(base.tripleCount)
      ensures base.pattern == old(base.pattern) && base.ended == old(base.ended)
      ensures bindings == old(bindings) && results == old(results) && resultVals == old(resultVals)
      ensures streams == old(streams) && gotAllData == old(gotAllData)
    {
      var e := Publish(ChildRemainings(streams), results, outstanding);
      if outstanding >= 0 {
        PublishedCostCovers(ChildRemainings(streams), results, outstanding);
      }
      remaining := Fin(e.remaining);
      var oldCost := base.cost;
      var cost := e.cost as real;
      base := base.(cost := Fin(cost), costRemaining := Fin(NextCostRemaining(oldCost, cost, base.costRemaining)));
      count := Fin(e.count);
      matchRate := MatchRate(results);
    }
  }
}
