/** The statistics a binding stream keeps over its resolved bindings, as functions
    of values: the per-binding average, the stability test and the estimates
    `updateRemaining` publishes (Stream.js:115-137, 217-245). */
module Estimates {
  import opened Numbers
  import opened Streams

  /** One resolved candidate value and the match count the server reported for
      the pattern bound to it. */
  datatype BindingResult = BindingResult(binding: string, count: nat)

  /** A result weighs its count, but never less than one. */
  function Weight(r: BindingResult): (w: nat)
    ensures w >= 1 && w >= r.count
  {
    Max(1, r.count)
  }

  function SumWeights(rs: seq<BindingResult>): (s: int)
    ensures s >= |rs|
  {
    if rs == [] then 0 else Weight(rs[0]) + SumWeights(rs[1..])
  }

  /** `resultsPerBinding(sample)`: the mean weight of a non-empty sample; for an
      empty one 0 once all upstream data is known, `Infinity` before. */
  function ResultsPerBinding(sample: seq<BindingResult>, gotAllData: bool): (r: Ext)
    ensures sample == [] ==> r == (if gotAllData then Fin(0.0) else Inf)
    ensures sample != [] ==> r.Fin? && r.v >= 1.0
    ensures sample != [] ==> r.v * |sample| as real == SumWeights(sample) as real
  {
    if |sample| == 0 then
      (if gotAllData then Fin(0.0) else Inf)
    else
      var s, n := SumWeights(sample) as real, |sample| as real;
      assert s / n >= 1.0 by {
        assert s >= n;
        assert s / n * n == s;
      }
      Fin(s / n)
  }

  lemma {:induction false} SumWeightsSnoc(rs: seq<BindingResult>, r: BindingResult)
    ensures SumWeights(rs + [r]) == SumWeights(rs) + Weight(r)
  {
    if rs == [] {
      assert rs + [r] == [r];
    } else {
      assert (rs + [r])[1..] == rs[1..] + [r];
      SumWeightsSnoc(rs[1..], r);
    }
  }

  /** Stream.js:116-124 as written: the summing loop over the sample. */
  method ComputeResultsPerBinding(sample: seq<BindingResult>, gotAllData: bool) returns (r: Ext)
    ensures r == ResultsPerBinding(sample, gotAllData)
  {
    if |sample| == 0 {
      return if gotAllData then Fin(0.0) else Inf;
    }
    var sum := 0;
    var i := 0;
    while i < |sample|
      invariant 0 <= i <= |sample|
      invariant sum == SumWeights(sample[..i])
    {
      SumWeightsSnoc(sample[..i], sample[i]);
      assert sample[..i + 1] == sample[..i] + [sample[i]];
      sum := sum + Max(1, sample[i].count);
      i := i + 1;
    }
    assert sample[..i] == sample;
    r := Fin(sum as real / |sample| as real);
  }

  lemma {:induction false} UniformWeights(rs: seq<BindingResult>, c: nat)
    requires forall i :: 0 <= i < |rs| ==> rs[i].count == c
    ensures SumWeights(rs) == |rs| * Max(1, c)
  {
    if rs != [] {
      UniformWeights(rs[1..], c);
    }
  }

  /** A sample whose bindings all matched `c` results averages `max(1, c)`. */
  lemma UniformSampleAverage(rs: seq<BindingResult>, c: nat, gotAllData: bool)
    requires rs != []
    requires forall i :: 0 <= i < |rs| ==> rs[i].count == c
    ensures ResultsPerBinding(rs, gotAllData) == Fin(Max(1, c) as real)
  {
    UniformWeights(rs, c);
    DivideProduct(|rs|, Max(1, c));
  }

  /** `(k * m) / k == m` for a positive count `k`, over the reals. */
  lemma DivideProduct(k: nat, m: int)
    requires k > 0
    ensures (k * m) as real / k as real == m as real
  {
    var kr, mr := k as real, m as real;
    IntProductAsReal(k, m);
    assert kr * mr / kr == mr;
  }

  lemma IntProductAsReal(a: int, b: int)
    ensures (a * b) as real == a as real * b as real
  {
  }

  /** The confidence constant of the stability margin. */
  const Confidence: real := 0.98

  /** The comparison at Stream.js:134-136 for `n` results: with
      `prevMargin = 0.98 / sqrt(n) * prevAvg` it asks whether
      `prevMargin * prevAvg > |prevAvg - avg|`. For a numeric `prevAvg` both sides
      are non-negative, so the comparison is decided on their squares
      (`(0.98 * prevAvg^2)^2 > (prevAvg - avg)^2 * n`), which needs no square
      root. A `NaN` or infinite operand makes it false. */
  function MarginHolds(prevAvg: JsNum, avg: Ext, n: nat): (b: bool)
    requires n > 0
    ensures b ==> prevAvg.Num? && avg.Fin?
  {
    match prevAvg
    case NaN => false
    case Num(a) =>
      match avg
      case Inf => false
      case Fin(m) =>
        var d := if a < m then m - a else a - m;
        var lhs := Confidence * a * a;
        lhs * lhs > d * d * n as real
  }

  /** The squared comparison decides the comparison of Stream.js:134-136:
      with `s` the square root of `n`, `0.98 / s * a * a > |a - m|` holds
      exactly when `MarginHolds` does. */
  lemma MarginDecidesComparison(a: real, m: real, n: nat, s: real)
    requires n > 0 && s > 0.0 && s * s == n as real
    ensures MarginHolds(Num(a), Fin(m), n) <==> Confidence / s * a * a > (if a < m then m - a else a - m)
  {
    var d := if a < m then m - a else a - m;
    var lhs := Confidence * a * a;
    var x := Confidence / s * a * a;
    assert a * a >= 0.0;
    assert lhs >= 0.0;
    assert x == lhs / s;
    assert x >= 0.0;
    SquareStrict(x, d);
    assert x * x == (lhs * lhs) / (s * s);
    assert x * x > d * d <==> lhs * lhs > d * d * (s * s);
  }

  /** Squaring keeps the strict order of non-negative reals, both ways. */
  lemma SquareStrict(x: real, y: real)
    requires x >= 0.0 && y >= 0.0
    ensures x > y <==> x * x > y * y
  {
    var xx, xy, yy := x * x, x * y, y * y;
    if x > y {
      assert xy < xx;
      assert yy <= xy;
    } else {
      assert xx <= xy;
      assert xy <= yy;
    }
  }

  /** `isStable` as written. At Stream.js:133 the first-sample average is taken
      of `results[0]`, one record rather than an array: its `length` is
      undefined, the summing loop does not run and `0 / undefined` is `NaN`, so
      the margin comparison is false for every sample. The stream is therefore
      stable exactly when all upstream data is known and nothing is pending. */
  function IsStable(gotAllData: bool, pending: nat, results: seq<BindingResult>): (b: bool)
    ensures b <==> gotAllData && pending == 0
    ensures b ==> ResultsPerBinding(results, gotAllData).Fin?
  {
    if gotAllData && pending == 0 then true
    else if |results| < 4 then false
    else
      var prevAvg := NaN;
      MarginHolds(prevAvg, ResultsPerBinding(results, gotAllData), |results|)
  }

  /** Four or more bindings that all matched the same number of results give an
      exact average, yet the test as written does not call the stream stable
      while data may still arrive. */
  lemma UniformSampleNotStable(rs: seq<BindingResult>, c: nat, pending: nat)
    requires |rs| >= 4
    requires forall i :: 0 <= i < |rs| ==> rs[i].count == c
    ensures ResultsPerBinding(rs, false) == Fin(Max(1, c) as real)
    ensures !IsStable(false, pending, rs)
  {
    UniformSampleAverage(rs, c, false);
  }

  /** The margin test compares the first-sample average with the overall one.
      Had the first sample been averaged as an array of results, a uniform
      sample would give both averages as `max(1, c)`, and the test would call
      it stable. */
  lemma UniformSamplePassesMargin(rs: seq<BindingResult>, c: nat, gotAllData: bool)
    requires |rs| >= 4
    requires forall i :: 0 <= i < |rs| ==> rs[i].count == c
    ensures MarginHolds(Num(Max(1, c) as real), ResultsPerBinding(rs, gotAllData), |rs|)
  {
    UniformSampleAverage(rs, c, gotAllData);
    var a := Max(1, c) as real;
    var lhs := Confidence * a * a;
    assert a >= 1.0;
    assert a * a >= 1.0 by { ScaleAtMost(a, 1.0, a); }
    assert lhs > 0.0;
    assert lhs * lhs > 0.0;
  }

  function Sum(xs: seq<int>): int
  {
    if xs == [] then 0 else xs[0] + Sum(xs[1..])
  }

  /** Pages needed per child stream, `Math.ceil(remaining / 100)`, summed. */
  function SumPages(xs: seq<int>): int
  {
    if xs == [] then 0 else CeilDiv(xs[0], PageSize) + SumPages(xs[1..])
  }

  function SumCounts(rs: seq<BindingResult>): int
  {
    if rs == [] then 0 else rs[0].count + SumCounts(rs[1..])
  }

  /** Each child needs just enough pages for what it has left. */
  lemma {:induction false} SumPagesCover(xs: seq<int>)
    ensures Sum(xs) <= SumPages(xs) * PageSize <= Sum(xs) + (PageSize - 1) * |xs|
  {
    if xs != [] {
      SumPagesCover(xs[1..]);
    }
  }

  /** Stream.js:230-231: the children's remaining results plus the expected
      results of the `outstanding` candidates not yet resolved. */
  function EstimatedRemaining(childRemaining: seq<int>, outstanding: int, perBinding: real): real
  {
    Sum(childRemaining) as real + outstanding as real * perBinding
  }

  /** Stream.js:234-235: pages the children still need plus a whole number of
      pages per outstanding candidate. */
  function EstimatedCost(childRemaining: seq<int>, outstanding: int, perBinding: real): int
  {
    SumPages(childRemaining) + outstanding * Ceil(perBinding / PageSize as real)
  }

  /** Stream.js:239-240: resolved counts (the children are among them) plus the
      expected results of the outstanding candidates. */
  function EstimatedCount(results: seq<BindingResult>, outstanding: int, perBinding: real): real
  {
    SumCounts(results) as real + outstanding as real * perBinding
  }

  /** The cost estimate buys enough pages for the remaining estimate. */
  lemma CostCoversRemaining(childRemaining: seq<int>, outstanding: int, perBinding: real)
    requires outstanding >= 0
    ensures EstimatedRemaining(childRemaining, outstanding, perBinding)
            <= EstimatedCost(childRemaining, outstanding, perBinding) as real * PageSize as real
  {
    SumPagesCover(childRemaining);
    var total, pages := Sum(childRemaining) as real, SumPages(childRemaining) as real;
    var perPage := Ceil(perBinding / PageSize as real);
    var k, p := outstanding as real, perPage as real;
    var cost := EstimatedCost(childRemaining, outstanding, perBinding) as real;
    IntProductAsReal(outstanding, perPage);
    assert cost == pages + k * p;
    assert total <= pages * 100.0;
    assert perBinding <= p * 100.0;
    var kp := k * p;
    ScaleAtMost(k, perBinding, p * 100.0);
    MulAssoc(k, p, 100.0);
    assert k * perBinding <= kp * 100.0;
    AddAtMost(total, pages * 100.0, k * perBinding, kp * 100.0);
    assert cost * PageSize as real == pages * 100.0 + kp * 100.0;
  }

  lemma MulAssoc(a: real, b: real, c: real)
    ensures a * (b * c) == (a * b) * c
  {
  }

  lemma AddAtMost(a: real, b: real, c: real, d: real)
    requires a <= b && c <= d
    ensures a + c <= b + d
  {
  }

  lemma ScaleAtMost(k: real, a: real, b: real)
    requires k >= 0.0 && a <= b
    ensures k * a <= k * b
  {
  }

  /** What a stable binding stream publishes: the estimated results still to
      come, HTTP calls still needed and total results. */
  datatype Published = Published(remaining: real, cost: int, count: real)

  /** Stream.js:229-240 for a stable stream (all data in, so the average is
      finite): the children's figures plus `outstanding` candidates at the
      average per-binding rate. */
  function Publish(childRemaining: seq<int>, results: seq<BindingResult>, outstanding: int): (e: Published)
    ensures outstanding >= 0 ==>
              && e.remaining >= Sum(childRemaining) as real
              && e.cost >= SumPages(childRemaining)
              && e.count >= SumCounts(results) as real
  {
    var perBinding := ResultsPerBinding(results, true).v;
    var perPage := Ceil(perBinding / PageSize as real);
    assert perBinding >= 0.0 && perPage >= 0;
    assert outstanding >= 0 ==> outstanding * perPage >= 0 && outstanding as real * perBinding >= 0.0;
    Published(
      EstimatedRemaining(childRemaining, outstanding, perBinding),
      EstimatedCost(childRemaining, outstanding, perBinding),
      EstimatedCount(results, outstanding, perBinding))
  }

  /** With no candidate values outstanding, the published estimates are the
      exact sums over the children and the results, and the pages cover what
      remains. */
  lemma SettledEstimates(childRemaining: seq<int>, results: seq<BindingResult>)
    ensures Publish(childRemaining, results, 0)
            == Published(Sum(childRemaining) as real, SumPages(childRemaining), SumCounts(results) as real)
    ensures Sum(childRemaining) as real <= SumPages(childRemaining) as real * PageSize as real
  {
    CostCoversRemaining(childRemaining, 0, ResultsPerBinding(results, true).v);
  }

  /** However many candidates are outstanding, the published cost buys enough
      pages for the published remaining results. */
  lemma PublishedCostCovers(childRemaining: seq<int>, results: seq<BindingResult>, outstanding: int)
    requires outstanding >= 0
    ensures Publish(childRemaining, results, outstanding).remaining
            <= Publish(childRemaining, results, outstanding).cost as real * PageSize as real
  {
    CostCoversRemaining(childRemaining, outstanding, ResultsPerBinding(results, true).v);
  }

  /** Stream.js:233-237: `costRemaining` follows the change of `cost` (none when
      the old cost was unknown) and never exceeds the new cost. */
  function NextCostRemaining(oldCost: Ext, cost: real, costRemaining: Ext): (r: real)
    ensures r <= cost
    ensures oldCost.Fin? && costRemaining.Fin? ==>
              cost - r == (if oldCost.v < costRemaining.v then 0.0 else oldCost.v - costRemaining.v)
    ensures oldCost.Inf? && costRemaining.Fin? ==> r == MinReal(cost, costRemaining.v)
    ensures costRemaining.Inf? ==> r == cost
  {
    var diff := if oldCost.Fin? then cost - oldCost.v else 0.0;
    match costRemaining
    case Inf => cost
    case Fin(c) => MinReal(cost, c + diff)
  }

  /** When a cost rises by some amount, the cost remaining rises by exactly that
      amount unless that would take it above the new cost. */
  lemma CostDeltaCarriesOver(oldCost: real, cost: real, costRemaining: real)
    requires costRemaining + (cost - oldCost) <= cost
    ensures NextCostRemaining(Fin(oldCost), cost, Fin(costRemaining)) - costRemaining == cost - oldCost
  {
  }

  function CountMatched(rs: seq<BindingResult>): (k: nat)
    ensures k <= |rs|
  {
    if rs == [] then 0 else (if rs[0].count > 0 then 1 else 0) + CountMatched(rs[1..])
  }

  /** Stream.js:242: the fraction of resolved bindings with any match; `NaN`
      before any binding is resolved. */
  function MatchRate(results: seq<BindingResult>): (r: JsNum)
    ensures r.NaN? <==> results == []
    ensures r.Num? ==> 0.0 <= r.v <= 1.0
  {
    Ratio(CountMatched(results), |results|)
  }
}
