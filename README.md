# Stream cost and size bookkeeping, in Dafny

This project models the streams of the query-optimization graph in
`lib/query-optimization-graph/Stream.js`. Each stream downloads the triples
that match one triple pattern and keeps estimates that a planner uses to pick
the next stream to read:

- `cost` is the estimated number of HTTP calls still needed;
- `costRemaining` is what is left of that budget after spending;
- `count` and `remaining` estimate the total and outstanding results;
- `ended`, `triples` and `tripleCount` record what has been delivered.

There are two roles.

- A **download stream** reads one pattern page by page from a paged source.
  It holds 100 solutions per page.
- A **binding stream** enumerates candidate values of one variable.
  - It resolves the match count of each value with a metadata request.
  - It spawns a download stream per resolved value.
  - It serves those children oldest first.
  - It publishes the estimates once its per-binding average is considered
    stable.

The asynchronous shell becomes sequential code:

- The page a download stream receives, and whether its source ended during
  the read, are parameters of `Read`.
- The metadata request is a function `metadata: string -> nat` from a
  candidate value to the count the server reports.
- Each callback runs as the step it performs once its value has arrived.

Files:

- `Numbers.dfy`: JavaScript numbers.
  - `Ext` is a finite number or `Infinity`.
  - `JsNum` is a number or `NaN`.
  - `Ceil`, `CeilDiv` and `Ratio` are also here.
- `Rdf.dfy`: patterns, solutions, and binding a pattern.
- `Streams.dfy`: the fields every stream shares, as the record `Stream`.
- `Estimates.dfy`: the statistics of a binding stream as functions of values.
  - `resultsPerBinding`, `isStable`, the published estimates, the cost-delta
    rule and `matchRate`.
- `DownloadStreams.dfy`: the class `DownloadStream`.
- `BindingStreams.dfy`: the class `BindingStream` and the feed deduplication.

### Where the code does not do what its comments say

**`isStable` is modelled as written.** The comment at Stream.js:126 describes
a test that the average estimate is stable, 95% certain assuming a Gaussian
distribution. The code at Stream.js:132-136 does not carry that test out:

- At Stream.js:132-133 the first-sample average is computed from
  `results[0]`, which is one record, not an array. Its `length` is undefined,
  so `resultsPerBinding` returns `NaN`.
- The margin comparison at Stream.js:136 is therefore false for every sample.
- So `isStable` holds exactly when all data is in and nothing is pending
  (`Estimates.IsStable`). Even a sample of equal counts, whose average could
  not be more settled, does not make the stream stable while data may still
  arrive (`Estimates.UniformSampleNotStable`).

Two consequences follow:

- `stabilize` and binding-stream `read` resolve every pending value
  (`Stabilize`, `ResolvePending`).
- Estimates are published only once the driver reports no more upstream
  values.

**`costRemaining` after an unknown cost.** The comment at Stream.js:237 says
that when the cost suddenly increases (or lowers), so should `costRemaining`.
When the old `cost` was `Infinity` (every estimate is reset to `Infinity`
together, Stream.js:221-226), the code's difference is 0 instead, and
`costRemaining`, being `Infinity` too, simply becomes the new `cost`
(`Estimates.NextCostRemaining`, `BindingStream.UpdateRemaining`).

**A binding stream's cost falls by triples, not by calls.** Stream.js:15
defines cost as an estimate of the HTTP calls still needed, but after each
read Stream.js:183 lowers it by the number of triples delivered, up to 100
per page (`BindingStream.AcceptBatch`).

**`updateRemaining` can un-end a stream.** Stream.js:219 assigns `ended`
outright rather than only setting it, so a later `updateRemaining` with a
positive estimate makes an ended stream not ended again
(`BindingStream.UpdateRemaining`).

## Model

| member | source | states |
|---|---|---|
| Streams.NewStream | lib/query-optimization-graph/Stream.js:16-26 | A new stream has its whole cost still to spend, has not ended and holds no triples. |
| Streams.Stream.Spend | lib/query-optimization-graph/Stream.js:32-34 | `spend(c)` lowers `costRemaining` by exactly `c` (an infinite budget stays infinite), keeps the stream consistent and changes no other field. |
| Streams.Stream.Append | lib/query-optimization-graph/Stream.js:82-83 | A delivered batch follows the old triples in order, `tripleCount` grows by its length and stays the length of `triples`, and nothing else changes. |
| Numbers.Ext.Minus | lib/query-optimization-graph/Stream.js:183 | Subtracting a finite amount from a finite number is exact subtraction; `Infinity` absorbs it. |
| Rdf.ApplyAll | lib/query-optimization-graph/Stream.js:66 | A page of solutions becomes one bound triple per solution, in arrival order. |
| DownloadStreams.ReadCost | lib/query-optimization-graph/Stream.js:91 | The re-estimated cost is never negative, is 0 when at most a page remains, and otherwise counts the pages beyond the one being fetched. |
| DownloadStreams.DownloadStream.constructor | lib/query-optimization-graph/Stream.js:37-45 | A download stream for `count` reported matches costs `count / 100` page fetches, with `remaining == count`. |
| DownloadStreams.DownloadStream.Spend | lib/query-optimization-graph/Stream.js:32-34 | Spending keeps the stream consistent and touches only `costRemaining`. |
| DownloadStreams.DownloadStream.OnSourceEnd | lib/query-optimization-graph/Stream.js:47-51 | When the source ends, `count` becomes what was delivered, the stream ends and nothing remains. |
| DownloadStreams.DownloadStream.AddBuffer | lib/query-optimization-graph/Stream.js:78-89 | The page is appended. An under-estimated count is raised to what was delivered, plus one while not ended. `remaining == count - tripleCount >= 0` is preserved, and it is 0 once ended. |
| DownloadStreams.DownloadStream.Read | lib/query-optimization-graph/Stream.js:55-93 | An ended stream returns an empty batch and changes nothing. Otherwise: exactly one batch (at most 100 bound solutions) is delivered and appended; `cost` is re-estimated from what remained before the read and `costRemaining` is reset to it; if the source ended, the stream ends with `count == tripleCount` and `remaining == 0`. |
| Estimates.Weight | lib/query-optimization-graph/Stream.js:122 | A result weighs `max(1, count)`, so at least 1 and at least its count. |
| Estimates.ResultsPerBinding | lib/query-optimization-graph/Stream.js:116-124 | An empty sample gives 0 once all data is in and `Infinity` before. A non-empty sample gives the mean weight, which is at least 1. |
| Estimates.ComputeResultsPerBinding | lib/query-optimization-graph/Stream.js:116-124 | The summing loop computes exactly `ResultsPerBinding`. |
| Estimates.UniformWeights | lib/query-optimization-graph/Stream.js:121-122 | A sample whose counts all equal `c` weighs `n * max(1, c)`. |
| Estimates.UniformSampleAverage | lib/query-optimization-graph/Stream.js:116-124 | A non-empty sample whose counts all equal `c` averages exactly `max(1, c)`. |
| Estimates.IsStable | lib/query-optimization-graph/Stream.js:127-137 | Stable if and only if all data is in and nothing is pending (the margin test as written never holds). A stable stream has a finite average. |
| Estimates.UniformSampleNotStable | lib/query-optimization-graph/Stream.js:127-137 | Four or more equal counts give an exact average, yet the stream is not stable while data may still arrive. |
| Estimates.UniformSamplePassesMargin | lib/query-optimization-graph/Stream.js:126-136 | The margin comparison itself accepts a uniform sample: with a first-sample average of `max(1, c)` (a sample averaged as an array), four or more equal counts `c` pass it. |
| Estimates.SumPagesCover | lib/query-optimization-graph/Stream.js:234 | The children's page counts, times 100, cover their remaining results with less than one page of slack per child. |
| Estimates.CostCoversRemaining | lib/query-optimization-graph/Stream.js:230-235 | For a non-negative number of outstanding values, the estimated cost in pages covers the estimated remaining results. |
| Estimates.SettledEstimates | lib/query-optimization-graph/Stream.js:229-240 | With nothing outstanding, the published figures are the exact sums: children's remaining results, their pages and the resolved counts. The pages cover what remains. |
| Estimates.MarginDecidesComparison | lib/query-optimization-graph/Stream.js:134-136 | The squared comparison `MarginHolds` holds exactly when `0.98 / sqrt(n) * a * a > abs(a - m)`, the comparison the code makes, for any numeric first-sample average `a` and finite average `m`. |
| Estimates.Publish | lib/query-optimization-graph/Stream.js:229-240 | The three published figures: children's remaining plus the outstanding candidates times the average, children's pages plus whole pages per outstanding candidate, and the resolved counts plus the outstanding share. With a non-negative outstanding count, none falls below the children's remaining, their pages or the resolved counts. |
| Estimates.PublishedCostCovers | lib/query-optimization-graph/Stream.js:229-235 | The published cost covers the published remaining results whenever the outstanding count is not negative. |
| Estimates.NextCostRemaining | lib/query-optimization-graph/Stream.js:233-237 | The new `costRemaining` never exceeds the new cost. From a finite old cost it follows the cost's change (capped at the cost); from an unknown old cost it is `min(cost, costRemaining)`. |
| Estimates.CostDeltaCarriesOver | lib/query-optimization-graph/Stream.js:236-237 | When the cap does not bite, `costRemaining` moves by exactly the change of cost. |
| Estimates.MatchRate | lib/query-optimization-graph/Stream.js:242 | The match rate is `NaN` exactly when nothing is resolved, and otherwise lies between 0 and 1. |
| BindingStreams.FeedKeys | lib/query-optimization-graph/Stream.js:196-208 | The rebuilt queue has no duplicates. It holds exactly the previously pending values plus the fed values not already resolved. |
| BindingStreams.FeedIdempotent | lib/query-optimization-graph/Stream.js:196-208 | Feeding the same values again leaves the pending set as it is. |
| BindingStreams.FeedResolvedIsNoOp | lib/query-optimization-graph/Stream.js:196-208 | Feeding only resolved values leaves the pending set as it is. |
| BindingStreams.ResolveSnoc | lib/query-optimization-graph/Stream.js:152 | Resolving one more value appends exactly its result, with the count the server reported for it, to the results of the earlier values: the push of `addBinding` builds the resolved list one value at a time. |
| BindingStreams.ChildRemainings | lib/query-optimization-graph/Stream.js:230 | One entry per child, its `remaining`. |
| BindingStreams.SpawnedExtend | lib/query-optimization-graph/Stream.js:148-151 | Spawning one more child for one more value extends the spawned-children record by that value. |
| BindingStreams.ResolveCons | lib/query-optimization-graph/Stream.js:152 | Resolving the head of a queue and then its tail gives the results of the whole queue, in order. |
| BindingStreams.SpawnedCons | lib/query-optimization-graph/Stream.js:148-151 | A child spawned for one value followed by the children spawned for the rest of the queue are the children spawned for the whole queue. |
| BindingStreams.NothingSpawned | lib/query-optimization-graph/Stream.js:159-162 | Resolving no value spawns no child: the children are unchanged. |
| BindingStreams.BindingStream.constructor | lib/query-optimization-graph/Stream.js:96-112 | The given cost is overridden: every estimate starts unknown (`Infinity`), nothing is pending, resolved or spawned, and `matchRate` is 1. |
| BindingStreams.BindingStream.Idle | lib/query-optimization-graph/Stream.js:170 | The guard of `read`: there is nothing to read exactly when the stream has ended or is hungry. |
| BindingStreams.BindingStream.IsHungry | lib/query-optimization-graph/Stream.js:213-215 | A hungry stream that has all its data is stable. |
| BindingStreams.BindingStream.Spend | lib/query-optimization-graph/Stream.js:32-34 | Spending keeps the stream consistent and touches only `costRemaining`. |
| BindingStreams.BindingStream.AddBinding | lib/query-optimization-graph/Stream.js:140-156 | Exactly the head of the queue is removed. `{head, count}` is appended to `results` and `head` to `resultVals`. One new download stream for the bound pattern is appended, with `count == remaining == c` and cost `c / 100`. Nothing else changes, and the queue stays disjoint from the resolved values. |
| BindingStreams.BindingStream.Stabilize | lib/query-optimization-graph/Stream.js:159-167 | Returns whether the stream is stable. Recursing once per resolved value, as the callback does, every pending value is resolved in queue order, each spawning a new child. No estimate changes. |
| BindingStreams.BindingStream.ResolvePending | lib/query-optimization-graph/Stream.js:174-176 | The resolving part of `read`: every pending value is resolved in queue order, each spawning its child, and no estimate changes. |
| BindingStreams.BindingStream.AcceptBatch | lib/query-optimization-graph/Stream.js:179-190 | The head child leaves the queue only if it ended. `cost` drops by the batch size and `costRemaining` is reset to it. The stream ends only when `remaining <= 0` and nothing is spawned or pending. The batch is appended. |
| BindingStreams.BindingStream.ReadHead | lib/query-optimization-graph/Stream.js:177-191 | Only the head child is read. Its batch (empty if it had ended) is what the binding stream delivers and appends. The child is dequeued exactly when it has ended. The head child itself ends with its source, its cost becomes the pages left after this one (`costRemaining` reset to it), and, the child staying consistent (its `remaining` is its count less the triples it delivered), its count equals the triples delivered once its source ended, or otherwise raised to one more than delivered when the server under-estimated it. |
| BindingStreams.BindingStream.Read | lib/query-optimization-graph/Stream.js:169-193 | An ended or idle stream returns an empty batch and changes nothing. Otherwise every pending value is resolved into a new child, then only the oldest child is served: the batch is empty if that child had ended, and otherwise binds the page to its pattern. The child is dequeued once ended, and the cost, `costRemaining`, `ended` and triple updates follow. |
| BindingStreams.BindingStream.Feed | lib/query-optimization-graph/Stream.js:196-210 | The pending queue becomes, as a set, the old pending values plus the fed values not yet resolved. It stays free of duplicates and disjoint from the resolved values, and nothing else changes. |
| BindingStreams.BindingStream.UpdateRemaining | lib/query-optimization-graph/Stream.js:218-245 | The stream ends exactly when nothing is pending, every child has ended and `r == 0`. All data is in exactly when `r <= 0`. An unstable stream resets `remaining`, `cost`, `costRemaining` and `count` to `Infinity`. A stable one publishes the estimates, with `costRemaining <= cost`. With `r == 0` the published cost, in pages of 100, covers the published `remaining`. After an unknown (`Infinity`) cost, `costRemaining` becomes the new cost. |
| BindingStreams.BindingStream.PublishEstimates | lib/query-optimization-graph/Stream.js:229-242 | Sets `remaining`, `cost` and `count` to the published estimates, `costRemaining` by the cost-delta rule (the new cost itself after an unknown cost) and `matchRate` to the match rate. With a non-negative outstanding count the cost covers what remains. Nothing else changes. |

## Left out

- The base `Stream.read` only throws "not implemented". Both roles' reads are modelled instead.
- Event plumbing and deferral are not modelled: iterator listeners, `setMaxListeners`, `setImmediate` and the callback recursion. Each callback's effect is one synchronous step.
- BindingStreams.BindingStream.AddBinding: one atomic step. In the code a metadata request separates the shift of the queue (Stream.js:142) from the pushes (Stream.js:151-153). A `feed` arriving in that window finds the value in neither `resultVals` nor `_bindings` and queues it again, so the value is resolved twice, with two children and duplicate triples. The disjointness of pending and resolved values in `BindingStream.Valid` therefore holds only for calls that do not interleave.
- BindingStreams.BindingStream.UpdateRemaining: the argument is an integer. The code calls it an estimate, so a driver may pass a fraction or `Infinity`; a positive one behaves like a positive integer (not stable, every estimate `Infinity`), but a negative fraction would publish estimates from a non-integral outstanding count, which the model does not produce.
- DownloadStreams.DownloadStream.Read: the paged source is not modelled. The page and the end signal are inputs, and the page holds at most 100 solutions (fewer only when the source ended).
  - The constructor's end handler is modelled as running before the delivery. When the end arrives after a full page instead, the final state is the same.
  - Reading a stream repeatedly until its source is exhausted is not modelled as one property, because the source is an input.
- The metadata request (`fragmentsClient.getFragmentByPattern`, `fragment.close`) is the `metadata` parameter.
- The RDF utility library is not part of this model. `ApplyBindings` is a plain substitution of bound variables standing in for its `applyBindings`. `toQuickString` only names loggers.
- `ClusteringUtil.sum` and the lodash helpers are not part of this model. They are written as sequence sums, a filter count and a universal check.
- Logging is not modelled.
- JavaScript numbers are exact reals plus `Infinity` (`Ext`) and `NaN` (`JsNum`). Floating-point rounding is not modelled.
- Estimates.MarginHolds: the square root is avoided by comparing squares of non-negative quantities. The comparison is never reached with a numeric first average.
- BindingStreams.FeedKeys: the `Object.keys` order is left arbitrary. Engine-specific ordering of integer-like keys, and keys shadowed by object prototype properties, are not modelled.
- The options object, the unused `_buffer` field and error propagation (none exists in the code) are not modelled.
- BindingStreams.BindingStream.Read: the spawned children are described by their `bindVal` only. Their initial counts are stated by `Stabilize` and `ResolvePending`, because reading the head child changes its state.
- BindingStreams.BindingStream.ResolvePending: states that a child is a new object only for a head spawned into an empty child list (the one `read` goes on to serve); `Stabilize` states it for every spawned child.
