/**
 * The provider scoreboard (billing/scoreboard.ts): costs, latencies and manual
 * ratings joined per provider, then scored against the other providers of the
 * same layer. Numbers are reals, and NaN where the source divides by a sample
 * count of zero.
 */
module Scoreboard {
  import opened Common

  datatype CostStat = CostStat(layer: string, providerKey: string, avgCostPerUnit: real)
  datatype LatencyStat = LatencyStat(layer: string, providerKey: string, avgDuration: real, sampleCount: nat) {
    function Time(): real { avgDuration * sampleCount as real }
  }
  datatype Rating = Rating(layer: string, providerKey: string, metric: string, score: real)
  datatype Weights = Weights(cost: real, latency: real, quality: real)
  datatype Number = Real(value: real) | NaN
  datatype Row = Row(layer: string, providerKey: string, avgCost: real, avgLatency: Option<Number>,
                     quality: Option<real>, composite: Option<Number>)

  function Key(layer: string, providerKey: string): string { layer + ":" + providerKey }

  // ---- The three inputs joined ---------------------------------------------

  function Duration(ls: seq<LatencyStat>, key: string): real {
    if ls == [] then 0.0
    else
      var l := ls[|ls| - 1];
      Duration(ls[..|ls| - 1], key) + if Key(l.layer, l.providerKey) == key then l.Time() else 0.0
  }

  function Samples(ls: seq<LatencyStat>, key: string): nat {
    if ls == [] then 0
    else
      var l := ls[|ls| - 1];
      Samples(ls[..|ls| - 1], key) + if Key(l.layer, l.providerKey) == key then l.sampleCount else 0
  }

  /** Whether the provider has any latency row. */
  predicate Measured(ls: seq<LatencyStat>, key: string) {
    ls != [] && (Measured(ls[..|ls| - 1], key) || Key(ls[|ls| - 1].layer, ls[|ls| - 1].providerKey) == key)
  }

  /** A total over `n` samples as their mean. */
  function Mean(total: real, n: nat): Number {
    if n == 0 then NaN else Real(total / n as real)
  }

  /** The mean over every sample of every stage. */
  function MeanLatency(ls: seq<LatencyStat>, key: string): Option<Number> {
    if Measured(ls, key) then Some(Mean(Duration(ls, key), Samples(ls, key))) else None
  }

  /** The last Hinglish rating given; other metrics do not count. */
  function RatingOf(qs: seq<Rating>, key: string): Option<real> {
    if qs == [] then None
    else
      var q := qs[|qs| - 1];
      if q.metric == "hinglish_quality" && Key(q.layer, q.providerKey) == key then Some(q.score)
      else RatingOf(qs[..|qs| - 1], key)
  }

  function Joined(c: CostStat, ls: seq<LatencyStat>, qs: seq<Rating>): Row {
    var key := Key(c.layer, c.providerKey);
    Row(c.layer, c.providerKey, c.avgCostPerUnit, MeanLatency(ls, key), RatingOf(qs, key), None)
  }

  function Rows(cs: seq<CostStat>, ls: seq<LatencyStat>, qs: seq<Rating>): (rows: seq<Row>)
    ensures |rows| == |cs| && forall i :: 0 <= i < |cs| ==> rows[i] == Joined(cs[i], ls, qs)
  {
    if cs == [] then [] else [Joined(cs[0], ls, qs)] + Rows(cs[1..], ls, qs)
  }

  // ---- Scoring within a layer ------------------------------------------------

  function Costs(rows: seq<Row>, layer: string): (cs: seq<real>)
    ensures forall r :: r in rows && r.layer == layer ==> r.avgCost in cs
    ensures forall c :: c in cs ==> exists r :: r in rows && r.layer == layer && r.avgCost == c
  {
    if rows == [] then []
    else
      assert rows == [rows[0]] + rows[1..];
      (if rows[0].layer == layer then [rows[0].avgCost] else []) + Costs(rows[1..], layer)
  }

  predicate HasLatency(r: Row) { r.avgLatency.Some? && r.avgLatency.value.Real? }

  /** Some latency of the layer is NaN, so its minimum and maximum are. */
  predicate Broken(rows: seq<Row>, layer: string) {
    exists i :: 0 <= i < |rows| && rows[i].layer == layer && rows[i].avgLatency == Some(NaN)
  }

  function Latencies(rows: seq<Row>, layer: string): (ls: seq<real>)
    ensures forall r :: r in rows && r.layer == layer && HasLatency(r) ==> r.avgLatency.value.value in ls
    ensures forall l :: l in ls ==> exists r :: r in rows && r.layer == layer && r.avgLatency == Some(Real(l))
  {
    if rows == [] then []
    else
      assert rows == [rows[0]] + rows[1..];
      (if rows[0].layer == layer && HasLatency(rows[0]) then [rows[0].avgLatency.value.value] else [])
      + Latencies(rows[1..], layer)
  }

  function Lowest(xs: seq<real>): (low: real)
    requires xs != []
    ensures low in xs && forall x :: x in xs ==> low <= x
  {
    if |xs| == 1 then xs[0]
    else
      assert xs == [xs[0]] + xs[1..];
      var rest := Lowest(xs[1..]);
      if xs[0] <= rest then xs[0] else rest
  }

  function Highest(xs: seq<real>): (high: real)
    requires xs != []
    ensures high in xs && forall x :: x in xs ==> x <= high
  {
    if |xs| == 1 then xs[0]
    else
      assert xs == [xs[0]] + xs[1..];
      var rest := Highest(xs[1..]);
      if xs[0] >= rest then xs[0] else rest
  }

  /** Where `x` lies between two extremes, from 0 to 1; 0 when they coincide. */
  function Between(x: real, low: real, high: real): real {
    if low == high then 0.0 else (x - low) / (high - low)
  }

  /** Where `x` lies among the values of its layer. */
  function Normalised(x: real, xs: seq<real>): real
    requires xs != []
  {
    Between(x, Lowest(xs), Highest(xs))
  }

  function QualityWeight(r: Row, w: Weights): real { if r.quality.None? then 0.0 else w.quality }

  function NormalisedQuality(r: Row): real { if r.quality.None? then 0.0 else r.quality.value / 10.0 }

  function WeightSum(r: Row, w: Weights): real { w.cost + w.latency + QualityWeight(r, w) }

  function Share(weight: real, x: real): real { weight * x }

  /** `x`, `y` and `z` weighted by `a`, `b` and `c`, relative to `whole`. */
  function Blend(a: real, x: real, b: real, y: real, c: real, z: real, whole: real): real
    requires whole != 0.0
  {
    (Share(a, x) + Share(b, y) + Share(c, z)) / whole
  }

  function Composite(r: Row, costs: seq<real>, latencies: seq<real>, broken: bool, w: Weights): Option<Number>
    requires r.avgCost in costs && (HasLatency(r) ==> r.avgLatency.value.value in latencies)
    requires r.avgLatency == Some(NaN) ==> broken
  {
    if r.avgLatency.None? || WeightSum(r, w) == 0.0 then None
    else if broken then Some(NaN)
    else Some(Real(Blend(w.cost, 1.0 - Normalised(r.avgCost, costs),
                         w.latency, 1.0 - Normalised(r.avgLatency.value.value, latencies),
                         QualityWeight(r, w), NormalisedQuality(r), WeightSum(r, w))))
  }

  function Scored(r: Row, rows: seq<Row>, w: Weights): Row
    requires r in rows
  {
    r.(composite := Composite(r, Costs(rows, r.layer), Latencies(rows, r.layer), Broken(rows, r.layer), w))
  }

  function ScoreAll(some: seq<Row>, rows: seq<Row>, w: Weights): (scored: seq<Row>)
    requires forall r :: r in some ==> r in rows
    ensures |scored| == |some| && forall i :: 0 <= i < |some| ==> scored[i] == Scored(some[i], rows, w)
  {
    if some == [] then [] else [Scored(some[0], rows, w)] + ScoreAll(some[1..], rows, w)
  }

  function Board(cs: seq<CostStat>, ls: seq<LatencyStat>, qs: seq<Rating>, w: Weights): seq<Row> {
    ScoreAll(Rows(cs, ls, qs), Rows(cs, ls, qs), w)
  }

  ghost predicate Sampled(ls: seq<LatencyStat>) { forall l :: l in ls ==> l.sampleCount > 0 }

  // ---- The method --------------------------------------------------------------

  /** The running sums kept per provider. */
  ghost predicate SumsUpTo(sums: map<string, (real, nat)>, ls: seq<LatencyStat>) {
    forall key: string ::
      if key in sums then Measured(ls, key) && sums[key] == (Duration(ls, key), Samples(ls, key))
      else !Measured(ls, key) && Samples(ls, key) == 0 && Duration(ls, key) == 0.0
  }

  method SumLatencies(ls: seq<LatencyStat>) returns (sums: map<string, (real, nat)>)
    ensures SumsUpTo(sums, ls)
  {
    sums := map[];
    for i := 0 to |ls|
      invariant SumsUpTo(sums, ls[..i])
    {
      assert ls[..i + 1][..i] == ls[..i];
      var l := ls[i];
      var key := Key(l.layer, l.providerKey);
      var entry := if key in sums then sums[key] else (0.0, 0);
      sums := sums[key := (entry.0 + l.Time(), entry.1 + l.sampleCount)];
    }
    assert ls[..|ls|] == ls;
  }

  method CollectRatings(qs: seq<Rating>) returns (ratings: map<string, real>)
    ensures forall key: string :: RatingOf(qs, key) == if key in ratings then Some(ratings[key]) else None
  {
    ratings := map[];
    for i := 0 to |qs|
      invariant forall key: string :: RatingOf(qs[..i], key) == if key in ratings then Some(ratings[key]) else None
    {
      assert qs[..i + 1][..i] == qs[..i];
      if qs[i].metric == "hinglish_quality" {
        ratings := ratings[Key(qs[i].layer, qs[i].providerKey) := qs[i].score];
      }
    }
    assert qs[..|qs|] == qs;
  }

  method JoinRows(cs: seq<CostStat>, ghost ls: seq<LatencyStat>, ghost qs: seq<Rating>,
                  sums: map<string, (real, nat)>, ratings: map<string, real>) returns (rows: seq<Row>)
    requires SumsUpTo(sums, ls)
    requires forall key: string :: RatingOf(qs, key) == if key in ratings then Some(ratings[key]) else None
    ensures rows == Rows(cs, ls, qs)
  {
    rows := [];
    for i := 0 to |cs|
      invariant |rows| == i && forall j :: 0 <= j < i ==> rows[j] == Joined(cs[j], ls, qs)
    {
      var key := Key(cs[i].layer, cs[i].providerKey);
      rows := rows + [Row(cs[i].layer, cs[i].providerKey, cs[i].avgCostPerUnit,
                          if key in sums then Some(Mean(sums[key].0, sums[key].1)) else None,
                          if key in ratings then Some(ratings[key]) else None, None)];
    }
  }

  /** buildScoreboard: the rows are filled in place, one layer after another. */
  method BuildScoreboard(cs: seq<CostStat>, ls: seq<LatencyStat>, qs: seq<Rating>, w: Weights) returns (board: seq<Row>)
    ensures board == Board(cs, ls, qs, w)
  {
    var sums := SumLatencies(ls);
    var ratings := CollectRatings(qs);
    var rows := JoinRows(cs, ls, qs, sums, ratings);
    board := ScoreLayers(rows, w);
  }

  method ScoreLayers(joined: seq<Row>, w: Weights) returns (rows: seq<Row>)
    ensures rows == ScoreAll(joined, joined, w)
  {
    rows := joined;
    var layers := set r | r in rows :: r.layer;
    while layers != {}
      invariant |rows| == |joined|
      invariant forall i :: 0 <= i < |rows| ==>
        rows[i] == if joined[i].layer in layers then joined[i] else Scored(joined[i], joined, w)
      decreases |layers|
    {
      var layer :| layer in layers;
      rows := ScoreLayer(rows, joined, layer, w);
      layers := layers - {layer};
    }
  }

  /** The same rows, whatever scores have been filled in. */
  ghost predicate Alike(rows: seq<Row>, joined: seq<Row>) {
    |rows| == |joined| && forall i :: 0 <= i < |rows| ==> rows[i].(composite := None) == joined[i].(composite := None)
  }

  lemma BrokenFirst(rows: seq<Row>, layer: string)
    requires rows != []
    ensures Broken(rows, layer)
            <==> (rows[0].layer == layer && rows[0].avgLatency == Some(NaN)) || Broken(rows[1..], layer)
  {
    if i :| 0 <= i < |rows| && rows[i].layer == layer && rows[i].avgLatency == Some(NaN) {
      if i > 0 { assert rows[1..][i - 1] == rows[i]; }
    }
    if i :| 0 <= i < |rows| - 1 && rows[1..][i].layer == layer && rows[1..][i].avgLatency == Some(NaN) {
      assert rows[i + 1] == rows[1..][i];
    }
  }

  lemma {:induction false} AlikeColumns(rows: seq<Row>, joined: seq<Row>, layer: string)
    requires Alike(rows, joined)
    ensures Costs(rows, layer) == Costs(joined, layer) && Latencies(rows, layer) == Latencies(joined, layer)
    ensures Broken(rows, layer) == Broken(joined, layer)
  {
    if rows != [] {
      assert rows[0].(composite := None) == joined[0].(composite := None);
      AlikeColumns(rows[1..], joined[1..], layer);
      BrokenFirst(rows, layer);
      BrokenFirst(joined, layer);
    }
  }

  method ScoreLayer(before: seq<Row>, ghost joined: seq<Row>, layer: string, w: Weights) returns (rows: seq<Row>)
    requires Alike(before, joined)
    requires forall i :: 0 <= i < |before| && joined[i].layer == layer ==> before[i] == joined[i]
    ensures |rows| == |before|
    ensures forall i :: 0 <= i < |rows| ==>
      rows[i] == if joined[i].layer == layer then Scored(joined[i], joined, w) else before[i]
  {
    rows := before;
    var costs, latencies, broken := Costs(rows, layer), Latencies(rows, layer), Broken(rows, layer);
    AlikeColumns(rows, joined, layer);
    for i := 0 to |rows|
      invariant |rows| == |before|
      invariant forall j :: 0 <= j < |rows| ==>
        rows[j] == if j < i && joined[j].layer == layer then Scored(joined[j], joined, w) else before[j]
    {
      assert before[i].(composite := None) == joined[i].(composite := None);
      if rows[i].layer == layer {
        assert rows[i] == joined[i];
        rows := rows[i := rows[i].(composite := Composite(rows[i], costs, latencies, broken, w))];
      }
    }
  }

  // ---- What a score means ------------------------------------------------------

  ghost predicate FairWeights(w: Weights) { w.cost >= 0.0 && w.latency >= 0.0 && w.quality >= 0.0 }

  ghost predicate RatedToTen(qs: seq<Rating>) { forall q :: q in qs ==> 0.0 <= q.score <= 10.0 }

  lemma {:induction false} RatingInRange(qs: seq<Rating>, key: string)
    requires RatedToTen(qs)
    ensures RatingOf(qs, key).Some? ==> 0.0 <= RatingOf(qs, key).value <= 10.0
  {
    if qs != [] {
      LastMember(qs);
      RatingInRange(qs[..|qs| - 1], key);
    }
  }

  lemma FractionInUnit(part: real, whole: real)
    requires 0.0 <= part <= whole && whole > 0.0
    ensures 0.0 <= part / whole <= 1.0
  {
    assert part == (part / whole) * whole;
  }

  lemma NormalisedInUnit(x: real, xs: seq<real>)
    requires x in xs
    ensures 0.0 <= Normalised(x, xs) <= 1.0
  {
    if Highest(xs) != Lowest(xs) { FractionInUnit(x - Lowest(xs), Highest(xs) - Lowest(xs)); }
  }

  lemma ShareOrdered(weight: real, x: real, y: real)
    requires weight >= 0.0 && x <= y
    ensures Share(weight, x) <= Share(weight, y)
  {
  }

  lemma DivideOrdered(x: real, y: real, d: real)
    requires x <= y && d > 0.0
    ensures x / d <= y / d
  {
    assert x == (x / d) * d && y == (y / d) * d;
  }

  lemma SumsDivided(p: real, q: real, r: real, p': real, q': real, r': real, d: real)
    requires p <= p' && q <= q' && r <= r' && d > 0.0
    ensures (p + q + r) / d <= (p' + q' + r') / d
  {
    DivideOrdered(p + q + r, p' + q' + r', d);
  }

  lemma BlendOrdered(a: real, x: real, x': real, b: real, y: real, y': real, c: real, z: real, z': real, whole: real)
    requires a >= 0.0 && b >= 0.0 && c >= 0.0 && whole > 0.0
    requires x <= x' && y <= y' && z <= z'
    ensures Blend(a, x, b, y, c, z, whole) <= Blend(a, x', b, y', c, z', whole)
  {
    ShareOrdered(a, x, x');
    ShareOrdered(b, y, y');
    ShareOrdered(c, z, z');
    SumsDivided(Share(a, x), Share(b, y), Share(c, z), Share(a, x'), Share(b, y'), Share(c, z'), whole);
  }

  lemma BlendInUnit(a: real, x: real, b: real, y: real, c: real, z: real, whole: real)
    requires a >= 0.0 && b >= 0.0 && c >= 0.0 && whole == a + b + c > 0.0
    requires 0.0 <= x <= 1.0 && 0.0 <= y <= 1.0 && 0.0 <= z <= 1.0
    ensures 0.0 <= Blend(a, x, b, y, c, z, whole) <= 1.0
  {
    BlendOrdered(a, 0.0, x, b, 0.0, y, c, 0.0, z, whole);
    BlendOrdered(a, x, 1.0, b, y, 1.0, c, z, 1.0, whole);
    assert Blend(a, 0.0, b, 0.0, c, 0.0, whole) == 0.0;
    assert Blend(a, 1.0, b, 1.0, c, 1.0, whole) == 1.0;
  }

  lemma CompositeRange(r: Row, costs: seq<real>, latencies: seq<real>, w: Weights)
    requires r.avgCost in costs && HasLatency(r) && r.avgLatency.value.value in latencies
    requires FairWeights(w) && WeightSum(r, w) > 0.0 && (r.quality.Some? ==> 0.0 <= r.quality.value <= 10.0)
    ensures var score := Composite(r, costs, latencies, false, w);
            score.Some? && score.value.Real? && 0.0 <= score.value.value <= 1.0
  {
    NormalisedInUnit(r.avgCost, costs);
    NormalisedInUnit(r.avgLatency.value.value, latencies);
    BlendInUnit(w.cost, 1.0 - Normalised(r.avgCost, costs), w.latency,
                1.0 - Normalised(r.avgLatency.value.value, latencies),
                QualityWeight(r, w), NormalisedQuality(r), WeightSum(r, w));
  }

  /**
   * Row `i` is scored just when its provider has latency rows and some weight
   * applies: with NaN if a latency of its layer is, and else within [0, 1].
   */
  lemma CompositeInUnit(cs: seq<CostStat>, ls: seq<LatencyStat>, qs: seq<Rating>, w: Weights, i: nat)
    requires i < |cs| && FairWeights(w) && RatedToTen(qs)
    ensures var r := Board(cs, ls, qs, w)[i];
      && (r.composite.Some? <==> Measured(ls, Key(cs[i].layer, cs[i].providerKey)) && WeightSum(r, w) > 0.0)
      && (r.composite.Some? ==> if Broken(Rows(cs, ls, qs), r.layer) then r.composite.value == NaN
                                else r.composite.value.Real? && 0.0 <= r.composite.value.value <= 1.0)
  {
    var rows := Rows(cs, ls, qs);
    var row := rows[i];
    RatingInRange(qs, Key(cs[i].layer, cs[i].providerKey));
    if HasLatency(row) && WeightSum(row, w) > 0.0 {
      CompositeRange(row, Costs(rows, row.layer), Latencies(rows, row.layer), w);
    }
  }

  /** The loaded rows count at least one sample each: then no latency, and so no score, is NaN. */
  lemma SampledNotBroken(cs: seq<CostStat>, ls: seq<LatencyStat>, qs: seq<Rating>, layer: string)
    requires Sampled(ls)
    ensures !Broken(Rows(cs, ls, qs), layer)
  {
    forall i | 0 <= i < |cs| ensures Rows(cs, ls, qs)[i].avgLatency != Some(NaN) {
      MeasuredIsSampled(ls, Key(cs[i].layer, cs[i].providerKey));
    }
  }

  lemma {:induction false} MeasuredIsSampled(ls: seq<LatencyStat>, key: string)
    requires Sampled(ls)
    ensures Measured(ls, key) <==> Samples(ls, key) > 0
  {
    if ls != [] {
      LastMember(ls);
      MeasuredIsSampled(ls[..|ls| - 1], key);
    }
  }

  lemma NormalisedOrdered(x: real, y: real, xs: seq<real>)
    requires x in xs && y in xs && x <= y
    ensures Normalised(x, xs) <= Normalised(y, xs)
  {
    if Highest(xs) != Lowest(xs) { DivideOrdered(x - Lowest(xs), y - Lowest(xs), Highest(xs) - Lowest(xs)); }
  }

  /** No dearer, no slower, and rated no worse or both unrated. */
  ghost predicate NoWorse(a: Row, b: Row) {
    && a.avgCost <= b.avgCost
    && HasLatency(a) && HasLatency(b) && a.avgLatency.value.value <= b.avgLatency.value.value
    && a.quality.Some? == b.quality.Some?
    && (a.quality.Some? ==> a.quality.value >= b.quality.value)
  }

  lemma CompositeOrdered(a: Row, b: Row, costs: seq<real>, latencies: seq<real>, w: Weights)
    requires FairWeights(w) && NoWorse(a, b) && WeightSum(a, w) > 0.0
    requires a.avgCost in costs && a.avgLatency.value.value in latencies
    requires b.avgCost in costs && b.avgLatency.value.value in latencies
    ensures Composite(a, costs, latencies, false, w).value.value >= Composite(b, costs, latencies, false, w).value.value
  {
    var la, lb := a.avgLatency.value.value, b.avgLatency.value.value;
    NormalisedOrdered(a.avgCost, b.avgCost, costs);
    NormalisedOrdered(la, lb, latencies);
    BlendOrdered(w.cost, 1.0 - Normalised(b.avgCost, costs), 1.0 - Normalised(a.avgCost, costs),
                 w.latency, 1.0 - Normalised(lb, latencies), 1.0 - Normalised(la, latencies),
                 QualityWeight(a, w), NormalisedQuality(b), NormalisedQuality(a), WeightSum(a, w));
  }

  /** Both unscored, both NaN, or the first at least the second. */
  predicate AtLeast(a: Option<Number>, b: Option<Number>) {
    if a.Some? && b.Some? && a.value.Real? && b.value.Real? then a.value.value >= b.value.value else a == b
  }

  /** Within a layer, a provider that is no worse than another never scores lower. */
  lemma BetterNeverScoresLower(cs: seq<CostStat>, ls: seq<LatencyStat>, qs: seq<Rating>, w: Weights, i: nat, j: nat)
    requires i < |cs| && j < |cs| && FairWeights(w) && cs[i].layer == cs[j].layer
    requires NoWorse(Joined(cs[i], ls, qs), Joined(cs[j], ls, qs))
    ensures AtLeast(Board(cs, ls, qs, w)[i].composite, Board(cs, ls, qs, w)[j].composite)
  {
    ScoredOrdered(Rows(cs, ls, qs), w, i, j);
  }

  lemma ScoredOrdered(rows: seq<Row>, w: Weights, i: nat, j: nat)
    requires i < |rows| && j < |rows| && FairWeights(w) && rows[i].layer == rows[j].layer && NoWorse(rows[i], rows[j])
    ensures AtLeast(Scored(rows[i], rows, w).composite, Scored(rows[j], rows, w).composite)
  {
    var a, b := rows[i], rows[j];
    if WeightSum(a, w) > 0.0 {
      CompositeOrdered(a, b, Costs(rows, a.layer), Latencies(rows, a.layer), w);
    }
  }

  /**
   * Being rated is not always better than being unrated: a rating raises a
   * provider's score just when it exceeds the score it would have without one.
   */
  lemma RatingHelpsExactly(r: Row, rating: real, costs: seq<real>, latencies: seq<real>, w: Weights)
    requires r.avgCost in costs && HasLatency(r) && r.avgLatency.value.value in latencies
    requires FairWeights(w) && w.cost + w.latency > 0.0 && w.quality > 0.0
    ensures var unrated := Composite(r.(quality := None), costs, latencies, false, w);
            var rated := Composite(r.(quality := Some(rating)), costs, latencies, false, w);
            && unrated.Some? && rated.Some? && unrated.value.Real? && rated.value.Real?
            && (rated.value.value > unrated.value.value <==> rating / 10.0 > unrated.value.value)
  {
    RatedBlend(w.cost, 1.0 - Normalised(r.avgCost, costs), w.latency,
               1.0 - Normalised(r.avgLatency.value.value, latencies),
               w.quality, rating / 10.0, WeightSum(r.(quality := None), w), WeightSum(r.(quality := Some(rating)), w));
  }

  lemma RatedBlend(a: real, x: real, b: real, y: real, c: real, z: real, base: real, whole: real)
    requires base == a + b > 0.0 && c > 0.0 && whole == base + c
    ensures Blend(a, x, b, y, c, z, whole) > Blend(a, x, b, y, 0.0, 0.0, base)
            <==> z > Blend(a, x, b, y, 0.0, 0.0, base)
  {
    assert Share(0.0, 0.0) == 0.0;
    WeightedMean(Share(a, x) + Share(b, y), base, z, c, whole);
  }

  lemma WeightedMean(points: real, base: real, x: real, weight: real, whole: real)
    requires base > 0.0 && weight > 0.0 && whole == base + weight
    ensures (points + Share(weight, x)) / whole > points / base <==> x > points / base
  {
    var mean := points / base;
    var joint := (points + Share(weight, x)) / whole;
    Undivided(points, base);
    Undivided(points + Share(weight, x), whole);
    assert (joint - mean) * whole == weight * (x - mean);
    SignOfProduct(whole, joint - mean);
    SignOfProduct(weight, x - mean);
  }

  lemma Undivided(x: real, d: real)
    requires d != 0.0
    ensures x == (x / d) * d
  {
  }

  lemma SignOfProduct(a: real, b: real)
    requires a > 0.0
    ensures a * b > 0.0 <==> b > 0.0
  {
    if b <= 0.0 { ShareOrdered(a, b, 0.0); }
  }

  // ---- The score written out -----------------------------------------------------

  const DEFAULT_WEIGHTS := Weights(0.4, 0.3, 0.3)

  /** `low` and `high` are the least and the greatest cost of the layer's rows. */
  ghost predicate CostRange(rows: seq<Row>, layer: string, low: real, high: real) {
    && (exists i :: 0 <= i < |rows| && rows[i].layer == layer && rows[i].avgCost == low)
    && (exists i :: 0 <= i < |rows| && rows[i].layer == layer && rows[i].avgCost == high)
    && forall i :: 0 <= i < |rows| && rows[i].layer == layer ==> low <= rows[i].avgCost <= high
  }

  /** The same for the latencies, which all are numbers; rows without one do not count. */
  ghost predicate LatencyRange(rows: seq<Row>, layer: string, low: real, high: real) {
    && (exists i :: 0 <= i < |rows| && rows[i].layer == layer && rows[i].avgLatency == Some(Real(low)))
    && (exists i :: 0 <= i < |rows| && rows[i].layer == layer && rows[i].avgLatency == Some(Real(high)))
    && forall i :: 0 <= i < |rows| && rows[i].layer == layer && rows[i].avgLatency.Some? ==>
         rows[i].avgLatency.value.Real? && low <= rows[i].avgLatency.value.value <= high
  }

  lemma CostsSpan(rows: seq<Row>, layer: string, low: real, high: real)
    requires CostRange(rows, layer, low, high)
    ensures Costs(rows, layer) != [] && Lowest(Costs(rows, layer)) == low && Highest(Costs(rows, layer)) == high
  {
    var i :| 0 <= i < |rows| && rows[i].layer == layer && rows[i].avgCost == low;
    var j :| 0 <= j < |rows| && rows[j].layer == layer && rows[j].avgCost == high;
    assert rows[i] in rows && rows[j] in rows;
  }

  lemma LatenciesSpan(rows: seq<Row>, layer: string, low: real, high: real)
    requires LatencyRange(rows, layer, low, high)
    ensures var ls := Latencies(rows, layer); ls != [] && Lowest(ls) == low && Highest(ls) == high
    ensures !Broken(rows, layer)
  {
    var i :| 0 <= i < |rows| && rows[i].layer == layer && rows[i].avgLatency == Some(Real(low));
    var j :| 0 <= j < |rows| && rows[j].layer == layer && rows[j].avgLatency == Some(Real(high));
    assert rows[i] in rows && rows[j] in rows;
  }

  /** `p` is where `x` lies from `low` to `high`, as a fraction of the way; zero if they coincide. */
  ghost predicate PlaceIs(p: real, x: real, low: real, high: real) {
    if low == high then p == 0.0 else p * (high - low) == x - low
  }

  lemma BetweenIs(p: real, x: real, low: real, high: real)
    requires PlaceIs(p, x, low, high)
    ensures Between(x, low, high) == p
  {
    if low != high { Undivided(x - low, high - low); SameFactor(p, (x - low) / (high - low), high - low); }
  }

  lemma SameFactor(a: real, b: real, d: real)
    requires a * d == b * d && d != 0.0
    ensures a == b
  {
    assert (a - b) * d == 0.0;
  }

  /** `score` is `points` out of `whole`, and missing if there is nothing to divide by. */
  ghost predicate OutOf(score: Option<Number>, points: real, whole: real) {
    if whole == 0.0 then score.None? else score.Some? && score.value.Real? && score.value.value * whole == points
  }

  /** Each weight goes to its own term, and the one for quality counts only for a rated row. */
  ghost function Points(w: Weights, c: real, l: real, quality: Option<real>): real {
    w.cost * (1.0 - c) + w.latency * (1.0 - l) + if quality.None? then 0.0 else w.quality * (quality.value / 10.0)
  }

  ghost function PointsPossible(w: Weights, quality: Option<real>): real {
    w.cost + w.latency + if quality.None? then 0.0 else w.quality
  }

  lemma BlendIs(a: real, x: real, b: real, y: real, c: real, z: real, whole: real)
    requires whole != 0.0
    ensures OutOf(Some(Real(Blend(a, x, b, y, c, z, whole))), Share(a, x) + Share(b, y) + Share(c, z), whole)
  {
    Undivided(Share(a, x) + Share(b, y) + Share(c, z), whole);
  }

  lemma SharesAre(w: Weights, c: real, l: real, r: Row)
    ensures Share(w.cost, 1.0 - c) + Share(w.latency, 1.0 - l) + Share(QualityWeight(r, w), NormalisedQuality(r))
         == Points(w, c, l, r.quality)
    ensures WeightSum(r, w) == PointsPossible(w, r.quality)
  {
  }

  lemma CompositeIs(r: Row, costs: seq<real>, latencies: seq<real>, w: Weights, c: real, l: real)
    requires r.avgCost in costs && HasLatency(r) && r.avgLatency.value.value in latencies
    requires Normalised(r.avgCost, costs) == c && Normalised(r.avgLatency.value.value, latencies) == l
    ensures OutOf(Composite(r, costs, latencies, false, w), Points(w, c, l, r.quality), PointsPossible(w, r.quality))
  {
    hide Normalised, Points, PointsPossible, WeightSum, QualityWeight, NormalisedQuality, Share, Blend;
    SharesAre(w, c, l, r);
    if WeightSum(r, w) != 0.0 {
      hide OutOf;
      BlendIs(w.cost, 1.0 - c, w.latency, 1.0 - l, QualityWeight(r, w), NormalisedQuality(r), WeightSum(r, w));
    }
  }

  /** The score of a measured row at place `c` among the costs and `l` among the latencies of its layer. */
  lemma ScoreIs(rows: seq<Row>, i: nat, w: Weights, cheap: real, dear: real, c: real, fast: real, slow: real, l: real)
    requires i < |rows| && CostRange(rows, rows[i].layer, cheap, dear) && LatencyRange(rows, rows[i].layer, fast, slow)
    requires HasLatency(rows[i]) && PlaceIs(c, rows[i].avgCost, cheap, dear)
    requires PlaceIs(l, rows[i].avgLatency.value.value, fast, slow)
    ensures OutOf(Scored(rows[i], rows, w).composite, Points(w, c, l, rows[i].quality),
                  PointsPossible(w, rows[i].quality))
  {
    var r := rows[i];
    hide Points, PointsPossible, OutOf, PlaceIs, CostRange, LatencyRange, Composite, Between;
    CostsSpan(rows, r.layer, cheap, dear);
    LatenciesSpan(rows, r.layer, fast, slow);
    BetweenIs(c, r.avgCost, cheap, dear);
    BetweenIs(l, r.avgLatency.value.value, fast, slow);
    hide Costs, Latencies, Broken, Lowest, Highest;
    CompositeIs(r, Costs(rows, r.layer), Latencies(rows, r.layer), w, c, l);
  }

  /** By default an unrated row that is cheapest but slowest scores 4/7, and one that is fastest but dearest 3/7. */
  lemma CostOutweighsLatency(rows: seq<Row>, i: nat, cheap: real, dear: real, fast: real, slow: real)
    requires i < |rows| && CostRange(rows, rows[i].layer, cheap, dear) && LatencyRange(rows, rows[i].layer, fast, slow)
    requires cheap < dear && fast < slow && rows[i].quality.None?
    ensures rows[i].avgCost == cheap && rows[i].avgLatency == Some(Real(slow)) ==>
              Scored(rows[i], rows, DEFAULT_WEIGHTS).composite == Some(Real(4.0 / 7.0))
    ensures rows[i].avgCost == dear && rows[i].avgLatency == Some(Real(fast)) ==>
              Scored(rows[i], rows, DEFAULT_WEIGHTS).composite == Some(Real(3.0 / 7.0))
  {
    hide CostRange, LatencyRange, Scored;
    if rows[i].avgCost == cheap && rows[i].avgLatency == Some(Real(slow)) {
      ScoreIs(rows, i, DEFAULT_WEIGHTS, cheap, dear, 0.0, fast, slow, 1.0);
    }
    if rows[i].avgCost == dear && rows[i].avgLatency == Some(Real(fast)) {
      ScoreIs(rows, i, DEFAULT_WEIGHTS, cheap, dear, 1.0, fast, slow, 0.0);
    }
  }

  /** Two measurements of a provider count by their numbers of samples. */
  lemma MeanOfTwo(a: LatencyStat, b: LatencyStat)
    requires a.layer == b.layer && a.providerKey == b.providerKey && a.sampleCount + b.sampleCount > 0
    ensures var mean := MeanLatency([a, b], Key(a.layer, a.providerKey));
            && mean.Some? && mean.value.Real?
            && mean.value.value * (a.sampleCount + b.sampleCount) as real
               == a.avgDuration * a.sampleCount as real + b.avgDuration * b.sampleCount as real
  {
    var key := Key(a.layer, a.providerKey);
    assert [a, b][..1] == [a] && [a][..0] == [];
    assert Samples([], key) == 0 && Duration([], key) == 0.0;
    assert Samples([a], key) == a.sampleCount && Duration([a], key) == a.Time();
    assert Measured([a, b], key);
    Undivided(a.Time() + b.Time(), (a.sampleCount + b.sampleCount) as real);
  }

  /** Rating `i` is the last one for Hinglish quality that the provider was given. */
  ghost predicate LastRating(qs: seq<Rating>, key: string, i: int) {
    && 0 <= i < |qs| && qs[i].metric == "hinglish_quality" && Key(qs[i].layer, qs[i].providerKey) == key
    && forall j :: i < j < |qs| && qs[j].metric == "hinglish_quality" ==> Key(qs[j].layer, qs[j].providerKey) != key
  }

  lemma {:induction false} RatingIsLast(qs: seq<Rating>, key: string)
    ensures RatingOf(qs, key).Some? <==> exists i :: LastRating(qs, key, i)
    ensures forall i :: LastRating(qs, key, i) ==> RatingOf(qs, key) == Some(qs[i].score)
  {
    if qs != [] {
      var n := |qs| - 1;
      RatingIsLast(qs[..n], key);
      if qs[n].metric == "hinglish_quality" && Key(qs[n].layer, qs[n].providerKey) == key {
        assert LastRating(qs, key, n);
      } else {
        forall i | LastRating(qs, key, i) || LastRating(qs[..n], key, i)
          ensures LastRating(qs[..n], key, i) && LastRating(qs, key, i) && qs[i] == qs[..n][i]
        {
          assert forall j :: 0 <= j < n ==> qs[..n][j] == qs[j];
        }
      }
    }
  }

  // ---- Layers are scored apart, in any units ------------------------------------

  predicate Plain(layer: string) { ':' !in layer }

  /** Provider keys may hold colons; as long as layers do not, no two providers share a key. */
  lemma KeyTellsLayer(layer: string, provider: string, layer': string, provider': string)
    requires Plain(layer) && Plain(layer') && Key(layer, provider) == Key(layer', provider')
    ensures layer == layer' && provider == provider'
  {
    var key := Key(layer, provider);
    FirstColon(layer, provider);
    FirstColon(layer', provider');
    assert key[..|layer|] == layer && key[|layer| + 1..] == provider;
    assert key[..|layer'|] == layer' && key[|layer'| + 1..] == provider';
  }

  lemma FirstColon(layer: string, provider: string)
    requires Plain(layer)
    ensures |Key(layer, provider)| == |layer| + 1 + |provider| && Key(layer, provider)[|layer|] == ':'
    ensures forall i :: 0 <= i < |layer| ==> Key(layer, provider)[i] != ':'
  {
    forall i | 0 <= i < |layer| ensures Key(layer, provider)[i] != ':' {
      assert layer[i] in layer;
    }
  }

  /** With a colon in a layer's name two providers of different layers are taken for one. */
  lemma ColonConfusesLayers()
    ensures var ls := [LatencyStat("a", "b:c", 1.0, 1)];
            MeanLatency(ls, Key("a:b", "c")) == Some(Real(1.0))
  {
    var ls := [LatencyStat("a", "b:c", 1.0, 1)];
    assert Key("a:b", "c") == "a:b:c" == Key("a", "b:c");
    assert Samples(ls[..0], Key("a:b", "c")) == 0 && Duration(ls[..0], Key("a:b", "c")) == 0.0;
    assert Samples(ls, Key("a:b", "c")) == 1;
    assert Duration(ls, Key("a:b", "c")) == 1.0;
  }

  ghost predicate PlainLayers(cs: seq<CostStat>, ls: seq<LatencyStat>, qs: seq<Rating>) {
    && (forall c :: c in cs ==> Plain(c.layer))
    && (forall l :: l in ls ==> Plain(l.layer))
    && (forall q :: q in qs ==> Plain(q.layer))
  }

  function CostsOf(cs: seq<CostStat>, layer: string): (kept: seq<CostStat>)
    ensures forall c :: c in kept ==> c in cs && c.layer == layer
  {
    if cs == [] then []
    else assert cs == [cs[0]] + cs[1..]; (if cs[0].layer == layer then [cs[0]] else []) + CostsOf(cs[1..], layer)
  }

  function LatenciesOf(ls: seq<LatencyStat>, layer: string): seq<LatencyStat> {
    if ls == [] then []
    else LatenciesOf(ls[..|ls| - 1], layer) + if ls[|ls| - 1].layer == layer then [ls[|ls| - 1]] else []
  }

  function RatingsOf(qs: seq<Rating>, layer: string): seq<Rating> {
    if qs == [] then []
    else RatingsOf(qs[..|qs| - 1], layer) + if qs[|qs| - 1].layer == layer then [qs[|qs| - 1]] else []
  }

  function RowsOf(rows: seq<Row>, layer: string): (kept: seq<Row>)
    ensures forall r :: r in kept <==> r in rows && r.layer == layer
  {
    if rows == [] then []
    else
      assert rows == [rows[0]] + rows[1..];
      (if rows[0].layer == layer then [rows[0]] else []) + RowsOf(rows[1..], layer)
  }

  /** `key` belongs to providers of `layer` only. */
  ghost predicate KeyIn(key: string, layer: string) {
    forall layer': string, provider: string {:trigger Key(layer', provider)} ::
      Plain(layer') && Key(layer', provider) == key ==> layer' == layer
  }

  lemma PlainKey(layer: string, provider: string)
    requires Plain(layer)
    ensures KeyIn(Key(layer, provider), layer)
  {
    forall layer': string, provider': string {:trigger Key(layer', provider')}
      | Plain(layer') && Key(layer', provider') == Key(layer, provider)
      ensures layer' == layer
    {
      KeyTellsLayer(layer', provider', layer, provider);
    }
  }

  lemma {:induction false} LatencyWithinLayer(ls: seq<LatencyStat>, layer: string, key: string)
    requires KeyIn(key, layer) && forall l :: l in ls ==> Plain(l.layer)
    ensures Measured(LatenciesOf(ls, layer), key) == Measured(ls, key)
    ensures Samples(LatenciesOf(ls, layer), key) == Samples(ls, key)
    ensures Duration(LatenciesOf(ls, layer), key) == Duration(ls, key)
  {
    if ls != [] {
      var n := |ls| - 1;
      LastMember(ls);
      LatencyWithinLayer(ls[..n], layer, key);
      var kept := LatenciesOf(ls, layer);
      if ls[n].layer == layer {
        assert kept[|kept| - 1] == ls[n] && kept[..|kept| - 1] == LatenciesOf(ls[..n], layer);
      } else {
        assert kept == LatenciesOf(ls[..n], layer);
        assert Key(ls[n].layer, ls[n].providerKey) != key;
      }
    }
  }

  lemma {:induction false} RatingWithinLayer(qs: seq<Rating>, layer: string, key: string)
    requires KeyIn(key, layer) && forall q :: q in qs ==> Plain(q.layer)
    ensures RatingOf(RatingsOf(qs, layer), key) == RatingOf(qs, key)
  {
    if qs != [] {
      var n := |qs| - 1;
      LastMember(qs);
      RatingWithinLayer(qs[..n], layer, key);
      var kept := RatingsOf(qs, layer);
      if qs[n].layer == layer {
        assert kept[|kept| - 1] == qs[n] && kept[..|kept| - 1] == RatingsOf(qs[..n], layer);
      } else {
        assert kept == RatingsOf(qs[..n], layer);
        assert Key(qs[n].layer, qs[n].providerKey) != key;
      }
    }
  }

  lemma {:induction false} RowsWithinLayer(cs: seq<CostStat>, ls: seq<LatencyStat>, qs: seq<Rating>, layer: string)
    requires PlainLayers(cs, ls, qs)
    ensures RowsOf(Rows(cs, ls, qs), layer) == Rows(CostsOf(cs, layer), LatenciesOf(ls, layer), RatingsOf(qs, layer))
  {
    if cs != [] {
      var rows := Rows(cs, ls, qs);
      assert rows[1..] == Rows(cs[1..], ls, qs);
      RowsWithinLayer(cs[1..], ls, qs, layer);
      if cs[0].layer == layer {
        var key := Key(layer, cs[0].providerKey);
        PlainKey(layer, cs[0].providerKey);
        LatencyWithinLayer(ls, layer, key);
        RatingWithinLayer(qs, layer, key);
        assert CostsOf(cs, layer) == [cs[0]] + CostsOf(cs[1..], layer);
      }
    }
  }

  lemma {:induction false} CostsWithinLayer(rows: seq<Row>, layer: string)
    ensures Costs(RowsOf(rows, layer), layer) == Costs(rows, layer)
  {
    if rows != [] {
      CostsWithinLayer(rows[1..], layer);
      var kept := RowsOf(rows, layer);
      if rows[0].layer == layer {
        assert kept[0] == rows[0] && kept[1..] == RowsOf(rows[1..], layer);
      } else {
        assert kept == RowsOf(rows[1..], layer);
        assert Costs(rows, layer) == Costs(rows[1..], layer);
      }
    }
  }

  lemma {:induction false} LatenciesWithinLayer(rows: seq<Row>, layer: string)
    ensures Latencies(RowsOf(rows, layer), layer) == Latencies(rows, layer)
  {
    if rows != [] {
      LatenciesWithinLayer(rows[1..], layer);
      var kept := RowsOf(rows, layer);
      if rows[0].layer == layer {
        assert kept[0] == rows[0] && kept[1..] == RowsOf(rows[1..], layer);
      } else {
        assert kept == RowsOf(rows[1..], layer);
        assert Latencies(rows, layer) == Latencies(rows[1..], layer);
      }
    }
  }

  lemma BrokenWithinLayer(rows: seq<Row>, layer: string)
    ensures Broken(RowsOf(rows, layer), layer) == Broken(rows, layer)
  {
    if i :| 0 <= i < |rows| && rows[i].layer == layer && rows[i].avgLatency == Some(NaN) {
      assert rows[i] in RowsOf(rows, layer);
    }
    var kept := RowsOf(rows, layer);
    if i :| 0 <= i < |kept| && kept[i].layer == layer && kept[i].avgLatency == Some(NaN) {
      assert kept[i] in kept;
    }
  }

  lemma {:induction false} ScoresWithinLayer(some: seq<Row>, rows: seq<Row>, w: Weights, layer: string)
    requires forall r :: r in some ==> r in rows
    ensures RowsOf(ScoreAll(some, rows, w), layer) == ScoreAll(RowsOf(some, layer), RowsOf(rows, layer), w)
  {
    if some != [] {
      CostsWithinLayer(rows, layer);
      LatenciesWithinLayer(rows, layer);
      BrokenWithinLayer(rows, layer);
      ScoresWithinLayer(some[1..], rows, w, layer);
      assert ScoreAll(some, rows, w)[1..] == ScoreAll(some[1..], rows, w);
      if some[0].layer == layer { assert RowsOf(some, layer)[1..] == RowsOf(some[1..], layer); }
    }
  }

  /** One layer's part of the scoreboard is the scoreboard of that layer's data alone. */
  lemma LayersApart(cs: seq<CostStat>, ls: seq<LatencyStat>, qs: seq<Rating>, w: Weights, layer: string)
    requires PlainLayers(cs, ls, qs)
    ensures RowsOf(Board(cs, ls, qs, w), layer)
            == Board(CostsOf(cs, layer), LatenciesOf(ls, layer), RatingsOf(qs, layer), w)
  {
    var rows := Rows(cs, ls, qs);
    ScoresWithinLayer(rows, rows, w, layer);
    RowsWithinLayer(cs, ls, qs, layer);
  }

  /** A change of unit: a positive factor and a shift. */
  datatype Unit = Unit(factor: real, shift: real) {
    function Of(x: real): real { Share(factor, x) + shift }
  }

  ghost predicate Units(u: string -> Unit) { forall layer: string :: u(layer).factor > 0.0 }

  function InUnit(xs: seq<real>, u: Unit): (ys: seq<real>)
    ensures |ys| == |xs| && forall i :: 0 <= i < |xs| ==> ys[i] == u.Of(xs[i])
  {
    seq(|xs|, i requires 0 <= i < |xs| => u.Of(xs[i]))
  }

  function CostsIn(cs: seq<CostStat>, unit: string -> Unit): seq<CostStat> {
    seq(|cs|, i requires 0 <= i < |cs| => cs[i].(avgCostPerUnit := unit(cs[i].layer).Of(cs[i].avgCostPerUnit)))
  }

  function LatencyIn(l: LatencyStat, unit: string -> Unit): LatencyStat {
    l.(avgDuration := unit(l.layer).Of(l.avgDuration))
  }

  function LatenciesIn(ls: seq<LatencyStat>, unit: string -> Unit): (scaled: seq<LatencyStat>)
    ensures |scaled| == |ls|
  {
    if ls == [] then [] else LatenciesIn(ls[..|ls| - 1], unit) + [LatencyIn(ls[|ls| - 1], unit)]
  }

  function NumberIn(x: Number, u: Unit): Number { if x.Real? then Real(u.Of(x.value)) else NaN }

  function OptionIn(x: Option<Number>, u: Unit): Option<Number> { if x.None? then None else Some(NumberIn(x.value, u)) }

  function RowIn(r: Row, costUnit: string -> Unit, timeUnit: string -> Unit): Row {
    r.(avgCost := costUnit(r.layer).Of(r.avgCost), avgLatency := OptionIn(r.avgLatency, timeUnit(r.layer)))
  }

  function RowsIn(rows: seq<Row>, costUnit: string -> Unit, timeUnit: string -> Unit): (scaled: seq<Row>)
    ensures |scaled| == |rows| && forall i :: 0 <= i < |rows| ==> scaled[i] == RowIn(rows[i], costUnit, timeUnit)
  {
    if rows == [] then [] else [RowIn(rows[0], costUnit, timeUnit)] + RowsIn(rows[1..], costUnit, timeUnit)
  }

  lemma UnitOrdered(u: Unit, x: real, y: real)
    requires u.factor > 0.0
    ensures x <= y <==> u.Of(x) <= u.Of(y)
  {
    UnitDifference(u, x, y);
    SignOfProduct(u.factor, x - y);
  }

  ghost predicate SameOrder(xs: seq<real>, ys: seq<real>) {
    |xs| == |ys| && forall i, j :: 0 <= i < |xs| && 0 <= j < |xs| ==> (xs[i] <= xs[j] <==> ys[i] <= ys[j])
  }

  lemma SameExtremes(xs: seq<real>, ys: seq<real>) returns (i: nat, j: nat)
    requires SameOrder(xs, ys) && xs != []
    ensures i < |xs| && xs[i] == Lowest(xs) && ys[i] == Lowest(ys)
    ensures j < |xs| && xs[j] == Highest(xs) && ys[j] == Highest(ys)
  {
    i :| 0 <= i < |xs| && xs[i] == Lowest(xs);
    j :| 0 <= j < |xs| && xs[j] == Highest(xs);
    assert ys[i] in ys && ys[j] in ys;
    var i' :| 0 <= i' < |ys| && ys[i'] == Lowest(ys);
    var j' :| 0 <= j' < |ys| && ys[j'] == Highest(ys);
    assert xs[i'] in xs && xs[j'] in xs;
  }

  lemma UnitKeepsOrder(xs: seq<real>, u: Unit)
    requires u.factor > 0.0
    ensures SameOrder(xs, InUnit(xs, u))
  {
    forall i, j | 0 <= i < |xs| && 0 <= j < |xs| ensures xs[i] <= xs[j] <==> InUnit(xs, u)[i] <= InUnit(xs, u)[j] {
      UnitOrdered(u, xs[i], xs[j]);
    }
  }

  lemma UnitDifference(u: Unit, x: real, y: real)
    ensures u.Of(x) - u.Of(y) == u.factor * (x - y)
  {
  }

  lemma SameFraction(factor: real, part: real, whole: real, part': real, whole': real)
    requires factor > 0.0 && whole != 0.0 && part' == factor * part && whole' == factor * whole
    ensures whole' != 0.0 && part' / whole' == part / whole
  {
    var q := part / whole;
    Undivided(part, whole);
    assert part' == q * whole';
  }

  lemma UnitFraction(u: Unit, x: real, low: real, high: real, x': real, low': real, high': real)
    requires u.factor > 0.0 && low != high && x' == u.Of(x) && low' == u.Of(low) && high' == u.Of(high)
    ensures low' != high' && (x' - low') / (high' - low') == (x - low) / (high - low)
  {
    UnitDifference(u, x, low);
    UnitDifference(u, high, low);
    SameFraction(u.factor, x - low, high - low, x' - low', high' - low');
  }

  /** `ys` lies between its extremes just as `xs` does between its own. */
  ghost predicate SameShape(xs: seq<real>, ys: seq<real>) {
    && SameOrder(xs, ys)
    && forall k, i, j :: 0 <= k < |xs| && 0 <= i < |xs| && 0 <= j < |xs| && xs[i] != xs[j] ==>
         Between(ys[k], ys[i], ys[j]) == Between(xs[k], xs[i], xs[j])
  }

  lemma UnitKeepsShape(xs: seq<real>, u: Unit)
    requires u.factor > 0.0
    ensures SameShape(xs, InUnit(xs, u))
  {
    UnitKeepsOrder(xs, u);
    forall k, i, j | 0 <= k < |xs| && 0 <= i < |xs| && 0 <= j < |xs| && xs[i] != xs[j]
      ensures Between(InUnit(xs, u)[k], InUnit(xs, u)[i], InUnit(xs, u)[j]) == Between(xs[k], xs[i], xs[j])
    {
      UnitFraction(u, xs[k], xs[i], xs[j], InUnit(xs, u)[k], InUnit(xs, u)[i], InUnit(xs, u)[j]);
    }
  }

  lemma NormalisedAlike(k: nat, xs: seq<real>, ys: seq<real>)
    requires k < |xs| && SameShape(xs, ys)
    ensures Normalised(ys[k], ys) == Normalised(xs[k], xs)
  {
    var i, j := SameExtremes(xs, ys);
    if xs[i] == xs[j] {
      assert ys[i] <= ys[j] && ys[j] <= ys[i];
    }
  }

  lemma TimeIn(l: LatencyStat, u: Unit)
    ensures l.(avgDuration := u.Of(l.avgDuration)).Time()
            == Share(u.factor, l.Time()) + Share(u.shift, l.sampleCount as real)
  {
  }

  lemma ShareSum(weight: real, x: real, y: real)
    ensures Share(weight, x + y) == Share(weight, x) + Share(weight, y)
  {
  }

  lemma {:induction false} DurationIn(ls: seq<LatencyStat>, unit: string -> Unit, layer: string, key: string)
    requires KeyIn(key, layer) && forall l :: l in ls ==> Plain(l.layer)
    ensures Measured(LatenciesIn(ls, unit), key) == Measured(ls, key)
    ensures Samples(LatenciesIn(ls, unit), key) == Samples(ls, key)
    ensures Duration(LatenciesIn(ls, unit), key)
         == Share(unit(layer).factor, Duration(ls, key)) + Share(unit(layer).shift, Samples(ls, key) as real)
  {
    var u := unit(layer);
    if ls == [] {
      assert Share(u.factor, 0.0) == 0.0 && Share(u.shift, 0.0) == 0.0;
    } else {
      var n := |ls| - 1;
      LastMember(ls);
      DurationIn(ls[..n], unit, layer, key);
      assert LatenciesIn(ls, unit)[..n] == LatenciesIn(ls[..n], unit)
             && LatenciesIn(ls, unit)[n] == LatencyIn(ls[n], unit);
      if Key(ls[n].layer, ls[n].providerKey) == key {
        TimeIn(ls[n], u);
        ShareSum(u.factor, Duration(ls[..n], key), ls[n].Time());
        ShareSum(u.shift, Samples(ls[..n], key) as real, ls[n].sampleCount as real);
      }
    }
  }

  lemma MeanIn(ls: seq<LatencyStat>, unit: string -> Unit, layer: string, key: string)
    requires KeyIn(key, layer) && forall l :: l in ls ==> Plain(l.layer)
    ensures MeanLatency(LatenciesIn(ls, unit), key) == OptionIn(MeanLatency(ls, key), unit(layer))
  {
    DurationIn(ls, unit, layer, key);
    if Samples(ls, key) > 0 {
      Averaged(unit(layer), Duration(ls, key), Samples(ls, key) as real);
    }
  }

  lemma Averaged(u: Unit, total: real, n: real)
    requires n > 0.0
    ensures (Share(u.factor, total) + Share(u.shift, n)) / n == u.Of(total / n)
  {
    Undivided(total, n);
    assert Share(u.factor, total) + Share(u.shift, n) == u.Of(total / n) * n;
  }

  lemma RowsInUnits(cs: seq<CostStat>, ls: seq<LatencyStat>, qs: seq<Rating>, costUnit: string -> Unit,
                    timeUnit: string -> Unit)
    requires PlainLayers(cs, ls, qs)
    ensures Rows(CostsIn(cs, costUnit), LatenciesIn(ls, timeUnit), qs) == RowsIn(Rows(cs, ls, qs), costUnit, timeUnit)
  {
    forall i | 0 <= i < |cs|
      ensures Joined(CostsIn(cs, costUnit)[i], LatenciesIn(ls, timeUnit), qs)
              == RowIn(Joined(cs[i], ls, qs), costUnit, timeUnit)
    {
      assert cs[i] in cs;
      PlainKey(cs[i].layer, cs[i].providerKey);
      MeanIn(ls, timeUnit, cs[i].layer, Key(cs[i].layer, cs[i].providerKey));
    }
  }

  lemma InUnitFirst(x: real, xs: seq<real>, u: Unit)
    ensures InUnit([x] + xs, u) == [u.Of(x)] + InUnit(xs, u)
  {
  }

  lemma {:induction false} CostColumnIn(rows: seq<Row>, costUnit: string -> Unit, timeUnit: string -> Unit,
                                        layer: string)
    ensures Costs(RowsIn(rows, costUnit, timeUnit), layer) == InUnit(Costs(rows, layer), costUnit(layer))
  {
    if rows != [] {
      CostColumnIn(rows[1..], costUnit, timeUnit, layer);
      var scaled := RowsIn(rows, costUnit, timeUnit);
      assert scaled[1..] == RowsIn(rows[1..], costUnit, timeUnit) && scaled[0] == RowIn(rows[0], costUnit, timeUnit);
      if rows[0].layer == layer {
        InUnitFirst(rows[0].avgCost, Costs(rows[1..], layer), costUnit(layer));
      } else {
        assert Costs(rows, layer) == Costs(rows[1..], layer);
        assert Costs(scaled, layer) == Costs(scaled[1..], layer);
      }
    }
  }

  lemma {:induction false} LatencyColumnIn(rows: seq<Row>, costUnit: string -> Unit, timeUnit: string -> Unit,
                                           layer: string)
    ensures Latencies(RowsIn(rows, costUnit, timeUnit), layer) == InUnit(Latencies(rows, layer), timeUnit(layer))
  {
    if rows != [] {
      LatencyColumnIn(rows[1..], costUnit, timeUnit, layer);
      var scaled := RowsIn(rows, costUnit, timeUnit);
      assert scaled[1..] == RowsIn(rows[1..], costUnit, timeUnit) && scaled[0] == RowIn(rows[0], costUnit, timeUnit);
      if rows[0].layer == layer && HasLatency(rows[0]) {
        InUnitFirst(rows[0].avgLatency.value.value, Latencies(rows[1..], layer), timeUnit(layer));
      } else {
        assert Latencies(rows, layer) == Latencies(rows[1..], layer);
        assert Latencies(scaled, layer) == Latencies(scaled[1..], layer);
      }
    }
  }

  lemma NormalisedIn(x: real, xs: seq<real>, u: Unit)
    requires x in xs && u.factor > 0.0
    ensures u.Of(x) in InUnit(xs, u) && Normalised(u.Of(x), InUnit(xs, u)) == Normalised(x, xs)
  {
    var k :| 0 <= k < |xs| && xs[k] == x;
    assert InUnit(xs, u)[k] == u.Of(x);
    UnitKeepsShape(xs, u);
    NormalisedAlike(k, xs, InUnit(xs, u));
  }

  lemma CompositeIn(r: Row, costs: seq<real>, latencies: seq<real>, broken: bool, w: Weights, costUnit: Unit,
                    timeUnit: Unit)
    requires r.avgCost in costs && (HasLatency(r) ==> r.avgLatency.value.value in latencies)
    requires r.avgLatency == Some(NaN) ==> broken
    requires costUnit.factor > 0.0 && timeUnit.factor > 0.0
    ensures var r' := r.(avgCost := costUnit.Of(r.avgCost), avgLatency := OptionIn(r.avgLatency, timeUnit));
            var costs', latencies' := InUnit(costs, costUnit), InUnit(latencies, timeUnit);
            && r'.avgCost in costs' && (HasLatency(r') ==> r'.avgLatency.value.value in latencies')
            && Composite(r', costs', latencies', broken, w) == Composite(r, costs, latencies, broken, w)
  {
    NormalisedIn(r.avgCost, costs, costUnit);
    if HasLatency(r) { NormalisedIn(r.avgLatency.value.value, latencies, timeUnit); }
  }

  lemma BrokenIn(rows: seq<Row>, costUnit: string -> Unit, timeUnit: string -> Unit, layer: string)
    ensures Broken(RowsIn(rows, costUnit, timeUnit), layer) == Broken(rows, layer)
  {
    var scaled := RowsIn(rows, costUnit, timeUnit);
    assert forall i :: 0 <= i < |rows| ==>
      scaled[i].layer == rows[i].layer && (scaled[i].avgLatency == Some(NaN) <==> rows[i].avgLatency == Some(NaN));
  }

  /** Measuring any layer's costs or latencies in other units (cents, milliseconds) changes no score. */
  lemma UnitsDoNotMatter(cs: seq<CostStat>, ls: seq<LatencyStat>, qs: seq<Rating>, w: Weights,
                         costUnit: string -> Unit, timeUnit: string -> Unit, i: nat)
    requires PlainLayers(cs, ls, qs) && Units(costUnit) && Units(timeUnit) && i < |cs|
    ensures Board(CostsIn(cs, costUnit), LatenciesIn(ls, timeUnit), qs, w)[i].composite
            == Board(cs, ls, qs, w)[i].composite
  {
    var rows := Rows(cs, ls, qs);
    var r := rows[i];
    RowsInUnits(cs, ls, qs, costUnit, timeUnit);
    CostColumnIn(rows, costUnit, timeUnit, r.layer);
    LatencyColumnIn(rows, costUnit, timeUnit, r.layer);
    BrokenIn(rows, costUnit, timeUnit, r.layer);
    CompositeIn(r, Costs(rows, r.layer), Latencies(rows, r.layer), Broken(rows, r.layer), w, costUnit(r.layer),
        timeUnit(r.layer));
  }
}
