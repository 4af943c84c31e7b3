/**
 * Inverse distance weighting: the unit-price estimate for the target from the
 * comparables' unit prices, each weighted by 1 / distance^power.
 */
module Idw {
  import opened Wrappers
  import opened Geo
  import opened Sums

  /** The weighting exponent used when the caller gives none. */
  const DefaultPower: nat := 2

  /** The distance from the target to each comparable's point, in order. */
  function Distances(dist: Metric, target: Point, points: seq<Point>): seq<real>
  {
    seq(|points|, i requires 0 <= i < |points| => dist(target, points[i]))
  }

  predicate AllPositive(ds: seq<real>)
  {
    forall i :: 0 <= i < |ds| ==> ds[i] > 0.0
  }

  predicate AllNonNegative(ds: seq<real>)
  {
    forall i :: 0 <= i < |ds| ==> ds[i] >= 0.0
  }

  /** The position of the first zero distance, if any: where the weighting loop returns early. */
  function FirstZero(ds: seq<real>): (r: Option<nat>)
    ensures r.Some? ==> r.value < |ds| && ds[r.value] == 0.0
                        && forall j :: 0 <= j < r.value ==> ds[j] != 0.0
    ensures r.None? ==> forall j :: 0 <= j < |ds| ==> ds[j] != 0.0
    decreases |ds|
  {
    if ds == [] then None
    else if ds[0] == 0.0 then Some(0)
    else match FirstZero(ds[1..])
      case None => None
      case Some(k) => Some(k + 1)
  }

  /** `xs.index(x)`: the first position holding `x`. */
  function IndexOf<T(==)>(xs: seq<T>, x: T): (k: nat)
    requires x in xs
    ensures k < |xs| && xs[k] == x
    ensures forall j :: 0 <= j < k ==> xs[j] != x
    decreases |xs|
  {
    if xs[0] == x then 0 else 1 + IndexOf(xs[1..], x)
  }

  /** The raw weights 1 / d^power; every one of them is positive, and so is their total. */
  function RawWeights(ds: seq<real>, power: nat): (ws: seq<real>)
    requires AllPositive(ds)
    ensures |ws| == |ds| && AllPositive(ws)
    ensures ws == [] || Sum(ws) > 0.0
  {
    var ws := seq(|ds|, i requires 0 <= i < |ds| => 1.0 / Pow(ds[i], power));
    SumPositive(ws);
    ws
  }

  /** Each weight divided by the total; an empty list stays empty. */
  function Normalized(ws: seq<real>, total: real): (ns: seq<real>)
    requires ws == [] || total != 0.0
    ensures |ns| == |ws|
  {
    if ws == [] then [] else seq(|ws|, i requires 0 <= i < |ws| => ws[i] / total)
  }

  /**
   * The IDW estimate over given distances: the value of the first comparable
   * at distance 0 if there is one, otherwise the sum of the values weighted by
   * the normalised raw weights (0 for no comparables at all). Either way it is
   * a convex combination of the values, so it lies between their minimum and
   * their maximum.
   */
  function Estimate(ds: seq<real>, values: seq<real>, power: nat): (r: real)
    requires |ds| == |values| && AllNonNegative(ds)
    ensures |ds| > 0 ==> Min(values) <= r <= Max(values)
  {
    match FirstZero(ds)
    case Some(k) => values[k]
    case None =>
      var ws := RawWeights(ds, power);
      var ns := Normalized(ws, Sum(ws));
      var est := Dot(ns, values);
      if ds == [] then est
      else
        NormalizedWeightsSumToOne(ds, power);
        DotBetween(ns, values, Min(values), Max(values));
        est
  }

  /** A comparable at distance 0 decides the estimate: the first such one, with no weighting. */
  lemma ShortcutReturnsFirstCoincident(ds: seq<real>, values: seq<real>, power: nat, k: nat)
    requires |ds| == |values| && AllNonNegative(ds)
    requires k < |ds| && ds[k] == 0.0
    requires forall j :: 0 <= j < k ==> ds[j] != 0.0
    ensures Estimate(ds, values, power) == values[k]
  {
  }

  /** With no zero distance, the normalised weights are positive and sum to 1. */
  lemma NormalizedWeightsSumToOne(ds: seq<real>, power: nat)
    requires |ds| > 0 && AllPositive(ds)
    ensures var ws := RawWeights(ds, power);
            Sum(ws) > 0.0
            && AllPositive(Normalized(ws, Sum(ws)))
            && Sum(Normalized(ws, Sum(ws))) == 1.0
  {
    var ws := RawWeights(ds, power);
    SumPositive(ws);
    var total := Sum(ws);
    NormalizedIsScaled(ws, total);
    SumScaled(Normalized(ws, total), ws, 1.0 / total);
  }

  lemma NormalizedIsScaled(ws: seq<real>, total: real)
    requires total > 0.0 && AllPositive(ws)
    ensures AllPositive(Normalized(ws, total))
    ensures IsScaled(Normalized(ws, total), ws, 1.0 / total)
  {
    var ns := Normalized(ws, total);
    forall i | 0 <= i < |ns|
      ensures ns[i] > 0.0 && ns[i] == ws[i] * (1.0 / total)
    {
      DivideIsScale(ws[i], total);
    }
  }

  lemma DivideIsScale(w: real, total: real)
    requires total > 0.0 && w > 0.0
    ensures w / total > 0.0 && w / total == w * (1.0 / total)
  {
  }

  /** `idw_interpolation`: the weighting loop with its early return, then normalisation and the weighted sum. */
  method IdwInterpolation(dist: Metric, target: Point, points: seq<Point>, values: seq<real>,
                          power: nat := DefaultPower)
    returns (predicted: real)
    requires NonNegative(dist)
    requires |points| == |values|
    ensures predicted == Estimate(Distances(dist, target, points), values, power)
  {
    ghost var ds := Distances(dist, target, points);
    var weights: seq<real> := [];
    var totalWeight := 0.0;
    for i := 0 to |points|
      invariant AllPositive(ds[..i])
      invariant weights == RawWeights(ds[..i], power)
      invariant totalWeight == Sum(weights)
    {
      var distance := dist(target, points[i]);
      if distance == 0.0 {
        var k := IndexOf(points, points[i]);
        assert ds[k] == 0.0 && k <= i;
        ShortcutReturnsFirstCoincident(ds, values, power, i);
        return values[k];
      }
      var weight := 1.0 / Pow(distance, power);
      assert ds[..i + 1] == ds[..i] + [distance];
      weights := weights + [weight];
      totalWeight := totalWeight + weight;
      assert weights[..|weights| - 1] == RawWeights(ds[..i], power);
    }
    assert ds[..|points|] == ds;
    SumPositive(weights);
    weights := Normalized(weights, totalWeight);
    predicted := Dot(weights, values);
  }
}
