/**
 * The valuation run for the target: select the comparables, refuse to
 * estimate from fewer than three, otherwise derive the diagnostic weight
 * shares, the IDW unit-price estimate and the totals shown on the page.
 */
module Valuation {
  import opened Wrappers
  import opened Geo
  import opened Sums
  import opened Comparables
  import opened Idw

  /** The fewest comparables from which an estimate is made. */
  const MinComparables: nat := 3

  /** One row of the diagnostics table. */
  datatype Share = Share(
    address: string,
    unitPrice: real,
    distance: real,
    rawWeight: real,      // 1 / d^2
    sharePct: real,       // rawWeight / total * 100
    weightedUnitPrice: real) // unitPrice * sharePct / 100

  /** What the run hands to the page. */
  datatype Outcome =
    | InsufficientComparables(found: nat)
    | Valued(
        comparables: seq<Comparable>,
        diagnostics: Option<seq<Share>>,
        predictedPrice: real,
        actualPrice: real,
        predictedTotal: real,
        actualTotal: real,
        deviationPct: Option<real>)

  /** The percentage share of each raw weight in the total, as the table's share column. */
  function Percentages(ws: seq<real>, total: real): (pcts: seq<real>)
    requires ws == [] || total != 0.0
    ensures |pcts| == |ws|
  {
    if ws == [] then [] else seq(|ws|, i requires 0 <= i < |ws| => ws[i] / total * 100.0)
  }

  /** Each unit price times its percentage share, over 100: the table's weighted unit price column. */
  function PercentWeighted(vs: seq<real>, pcts: seq<real>): (cs: seq<real>)
    requires |vs| == |pcts|
    ensures |cs| == |vs|
  {
    seq(|vs|, i requires 0 <= i < |vs| => vs[i] * pcts[i] / 100.0)
  }

  /**
   * The diagnostics table: for each comparable its inverse-square raw weight,
   * its percentage share of the total weight and its weighted unit price, the
   * share being 100 times the normalised weight the estimate uses and the
   * weighted price that normalised weight times the unit price.
   */
  function WeightShares(comps: seq<Comparable>): (shares: seq<Share>)
    requires AllPositive(DistancesOf(comps))
    ensures |shares| == |comps|
    ensures forall i :: 0 <= i < |comps| ==>
              shares[i].address == comps[i].address && shares[i].unitPrice == comps[i].unitPrice
              && shares[i].distance == comps[i].distance && comps[i].distance > 0.0
              && shares[i].rawWeight == 1.0 / Pow(comps[i].distance, 2) && shares[i].rawWeight > 0.0
    ensures var raw := RawWeights(DistancesOf(comps), 2);
            IsScaled(SharePercentages(shares), Normalized(raw, Sum(raw)), 100.0)
    ensures var raw := RawWeights(DistancesOf(comps), 2);
            IsProducts(WeightedUnitPrices(shares), Normalized(raw, Sum(raw)), UnitPricesOf(comps))
  {
    var raw := RawWeights(DistancesOf(comps), 2);
    var pcts := Percentages(raw, Sum(raw));
    var weighted := PercentWeighted(UnitPricesOf(comps), pcts);
    PercentagesAreScaled(raw, Sum(raw));
    PercentWeightedAreProducts(UnitPricesOf(comps), raw, Sum(raw));
    var shares := seq(|comps|, i requires 0 <= i < |comps| =>
      Share(comps[i].address, comps[i].unitPrice, comps[i].distance, raw[i], pcts[i], weighted[i]));
    assert SharePercentages(shares) == pcts && WeightedUnitPrices(shares) == weighted;
    shares
  }

  function SharePercentages(shares: seq<Share>): seq<real>
  {
    seq(|shares|, i requires 0 <= i < |shares| => shares[i].sharePct)
  }

  function WeightedUnitPrices(shares: seq<Share>): seq<real>
  {
    seq(|shares|, i requires 0 <= i < |shares| => shares[i].weightedUnitPrice)
  }

  /** Each percentage share is 100 times the corresponding normalised weight. */
  lemma PercentagesAreScaled(ws: seq<real>, total: real)
    requires ws == [] || total != 0.0
    ensures IsScaled(Percentages(ws, total), Normalized(ws, total), 100.0)
  {
    var ps, ns := Percentages(ws, total), Normalized(ws, total);
    forall i | 0 <= i < |ws|
      ensures ps[i] == ns[i] * 100.0
    {
    }
  }

  /** Each weighted unit price is the unit price times the normalised weight. */
  lemma PercentWeightedAreProducts(vs: seq<real>, ws: seq<real>, total: real)
    requires |vs| == |ws| && (ws == [] || total != 0.0)
    ensures IsProducts(PercentWeighted(vs, Percentages(ws, total)), Normalized(ws, total), vs)
  {
    var cs := PercentWeighted(vs, Percentages(ws, total));
    var ns := Normalized(ws, total);
    forall i | 0 <= i < |ws|
      ensures cs[i] == ns[i] * vs[i]
    {
      PercentOfShare(vs[i], ws[i], total);
    }
  }

  lemma PercentOfShare(v: real, w: real, t: real)
    requires t != 0.0
    ensures v * (w / t * 100.0) / 100.0 == w / t * v
  {
  }

  /** Before display rounding, the percentage shares of a non-empty table sum to 100. */
  lemma SharesSumTo100(comps: seq<Comparable>)
    requires |comps| > 0 && AllPositive(DistancesOf(comps))
    ensures Sum(SharePercentages(WeightShares(comps))) == 100.0
  {
    var raw := RawWeights(DistancesOf(comps), 2);
    var total := Sum(raw);
    assert SharePercentages(WeightShares(comps)) == Percentages(raw, total);
    PercentagesAreScaled(raw, total);
    NormalizedWeightsSumToOne(DistancesOf(comps), 2);
    SumScaled(Percentages(raw, total), Normalized(raw, total), 100.0);
  }

  /**
   * The weighted unit prices of the table sum to the IDW estimate at the
   * default power, when the table's distances are the comparables' true ones.
   */
  lemma WeightedPricesSumToEstimate(dist: Metric, target: Point, comps: seq<Comparable>)
    requires AllPositive(DistancesOf(comps))
    requires forall k :: 0 <= k < |comps| ==> comps[k].distance == dist(target, comps[k].point)
    ensures Sum(WeightedUnitPrices(WeightShares(comps)))
            == Estimate(Distances(dist, target, PointsOf(comps)), UnitPricesOf(comps), DefaultPower)
  {
    var ds := DistancesOf(comps);
    var vs := UnitPricesOf(comps);
    assert Distances(dist, target, PointsOf(comps)) == ds;
    var raw := RawWeights(ds, 2);
    SumPositive(raw);
    assert Estimate(ds, vs, DefaultPower) == Dot(Normalized(raw, Sum(raw)), vs) by {
      assert FirstZero(ds).None?;
    }
    if comps != [] {
      assert WeightedUnitPrices(WeightShares(comps)) == PercentWeighted(vs, Percentages(raw, Sum(raw)));
      PercentWeightedAreProducts(vs, raw, Sum(raw));
      SumOfProducts(PercentWeighted(vs, Percentages(raw, Sum(raw))), Normalized(raw, Sum(raw)), vs);
    }
  }

  /**
   * The percentage by which the estimate deviates from the target's own unit
   * price; undefined when that price is 0.
   */
  function Deviation(predicted: real, actual: real): (pct: Option<real>)
    ensures pct.Some? <==> actual != 0.0
    ensures pct.Some? ==> predicted == actual * (1.0 + pct.value / 100.0)
  {
    if actual == 0.0 then None else Some((predicted - actual) / actual * 100.0)
  }

  /** The totals are the unit prices scaled by the target's area. */
  predicate TotalsFor(out: Outcome, targetArea: real)
    requires out.Valued?
  {
    out.predictedTotal == out.predictedPrice * targetArea && out.actualTotal == out.actualPrice * targetArea
  }

  /** The page's result block; its totals are the unit prices scaled by the target's area. */
  function Priced(comps: seq<Comparable>, diagnostics: Option<seq<Share>>, predicted: real, actual: real, targetArea: real): (out: Outcome)
    ensures out.Valued? && TotalsFor(out, targetArea)
  {
    var predictedTotal := predicted * targetArea;
    var actualTotal := actual * targetArea;
    Valued(comps, diagnostics, predicted, actual, predictedTotal, actualTotal, Deviation(predicted, actual))
  }

  /**
   * The run behind the IDW section of the page: filter, apply the three-comparable
   * guard, then compute diagnostics, the estimate and the derived totals.
   */
  method Evaluate(records: seq<Record>, maxDistance: real, areaDifference: real, dist: Metric)
    returns (out: Outcome)
    requires |records| > 0 && records[0].location.Some?
    requires NonNegative(dist)
    ensures var target := records[0].location.value;
            var targetArea := records[0].totalArea;
            var sel := Select(target, records, SearchCriteria(maxDistance, targetArea, areaDifference), dist);
            (out.InsufficientComparables? <==> |sel| < MinComparables)
            && (out.InsufficientComparables? ==> out.found == |sel|)
            && (out.Valued? ==>
                  out.comparables == sel
                  && out.predictedPrice == Estimate(Distances(dist, target, PointsOf(sel)), UnitPricesOf(sel), DefaultPower)
                  && Min(UnitPricesOf(sel)) <= out.predictedPrice <= Max(UnitPricesOf(sel))
                  && out.actualPrice == records[0].unitPrice
                  && TotalsFor(out, targetArea)
                  && out.deviationPct == Deviation(out.predictedPrice, out.actualPrice)
                  && (out.diagnostics.Some? <==> AllPositive(DistancesOf(sel)))
                  && (out.diagnostics.Some? ==>
                        out.diagnostics.value == WeightShares(sel)
                        && Sum(SharePercentages(out.diagnostics.value)) == 100.0
                        && Sum(WeightedUnitPrices(out.diagnostics.value)) == out.predictedPrice))
  {
    var targetArea := records[0].totalArea;
    var criteria := SearchCriteria(maxDistance, targetArea, areaDifference);
    var compPoints, compValues, compData := CollectComparables(records, criteria, dist);
    if |compPoints| >= MinComparables {
      var target := records[0].location.value;
      var diagnostics := None;
      if AllPositive(DistancesOf(compData)) {
        diagnostics := Some(WeightShares(compData));
        SharesSumTo100(compData);
        WeightedPricesSumToEstimate(dist, target, compData);
      }
      var predicted := IdwInterpolation(dist, target, compPoints, compValues);
      var actual := records[0].unitPrice;
      out := Priced(compData, diagnostics, predicted, actual, targetArea);
    } else {
      out := InsufficientComparables(|compPoints|);
    }
  }
}
