/**
 * Selection of comparable transactions for the warehouse under evaluation.
 *
 * The first record of the data set is the target; every later record is a
 * candidate, kept when its coordinates are present, it lies within the maximum
 * distance of the target and its total area lies in the area band around the
 * target's. The page applies this one rule in three places (the map markers,
 * the comparables table and the IDW input); it is defined once here.
 */
module Comparables {
  import opened Wrappers
  import opened Geo

  /** One row of the data set; `location` is None when latitude or longitude is missing. */
  datatype Record = Record(
    address: string,
    location: Option<Point>,
    totalArea: real,
    price: real,
    unitPrice: real)

  /** The filter settings: the distance limit and the inclusive area band. */
  datatype Criteria = Criteria(maxDistance: real, minArea: real, maxArea: real)

  /** A kept row, with its distance to the target: one entry of the IDW input. */
  datatype Comparable = Comparable(address: string, point: Point, unitPrice: real, distance: real)

  /**
   * The criteria built from the sidebar settings: the area band is centred on
   * the target's area and is twice the allowed difference wide.
   */
  function SearchCriteria(maxDistance: real, targetArea: real, areaDifference: real): (c: Criteria)
    ensures c.maxDistance == maxDistance
    ensures c.maxArea - c.minArea == 2.0 * areaDifference
    ensures c.minArea + c.maxArea == 2.0 * targetArea
  {
    Criteria(maxDistance, targetArea - areaDifference, targetArea + areaDifference)
  }

  predicate InBand(c: Criteria, area: real)
  {
    c.minArea <= area <= c.maxArea
  }

  /** An area is in the band exactly when it differs from the target's by at most the allowed difference. */
  lemma BandIsSymmetric(maxDistance: real, targetArea: real, areaDifference: real, area: real)
    ensures InBand(SearchCriteria(maxDistance, targetArea, areaDifference), area)
            <==> (if area >= targetArea then area - targetArea else targetArea - area) <= areaDifference
  {
  }

  /** The keep/drop decision for one candidate row. */
  predicate Qualifies(target: Point, row: Record, c: Criteria, dist: Metric)
  {
    row.location.Some?
    && dist(target, row.location.value) <= c.maxDistance
    && InBand(c, row.totalArea)
  }

  function Make(target: Point, row: Record, dist: Metric): Comparable
    requires row.location.Some?
  {
    Comparable(row.address, row.location.value, row.unitPrice, dist(target, row.location.value))
  }

  /**
   * The comparables of `records`: the rows after the first that qualify, in
   * input order. Defined on the last row so that it follows the loop of
   * `CollectComparables`. The first row (the target) is never one of them, so
   * there are fewer comparables than rows, and every comparable carries its true
   * distance to the target, within the limit.
   */
  function Select(target: Point, records: seq<Record>, c: Criteria, dist: Metric): (sel: seq<Comparable>)
    ensures |sel| < |records| || records == []
    ensures forall k :: 0 <= k < |sel| ==>
              sel[k].distance == dist(target, sel[k].point) && sel[k].distance <= c.maxDistance
    decreases |records|
  {
    if |records| <= 1 then []
    else
      var last := records[|records| - 1];
      Select(target, records[..|records| - 1], c, dist)
      + (if Qualifies(target, last, c, dist) then [Make(target, last, dist)] else [])
  }

  /** The positions in `records` of the rows that `Select` keeps. */
  function SelectedIndices(target: Point, records: seq<Record>, c: Criteria, dist: Metric): seq<nat>
    decreases |records|
  {
    if |records| <= 1 then []
    else
      var n := |records| - 1;
      SelectedIndices(target, records[..n], c, dist)
      + (if Qualifies(target, records[n], c, dist) then [n] else [])
  }

  /**
   * The comparable set is exactly the qualifying rows after the first, in input
   * order: the k-th comparable is made from the row at the k-th selected
   * position, positions strictly increase, and a position after the first is
   * selected if and only if its row qualifies. The target (position 0) is never selected.
   */
  lemma {:induction false} SelectExactly(target: Point, records: seq<Record>, c: Criteria, dist: Metric)
    ensures var sel := Select(target, records, c, dist);
            var idx := SelectedIndices(target, records, c, dist);
            |idx| == |sel|
            && (forall k :: 0 <= k < |idx| ==>
                  1 <= idx[k] < |records| && Qualifies(target, records[idx[k]], c, dist)
                  && sel[k] == Make(target, records[idx[k]], dist))
            && (forall k, l :: 0 <= k < l < |idx| ==> idx[k] < idx[l])
            && (forall i :: 1 <= i < |records| ==> (i in idx <==> Qualifies(target, records[i], c, dist)))
            && 0 !in idx
    decreases |records|
  {
    if |records| > 1 {
      var n := |records| - 1;
      var prefix := records[..n];
      SelectExactly(target, prefix, c, dist);
      var idx0 := SelectedIndices(target, prefix, c, dist);
      assert forall k :: 0 <= k < |idx0| ==> idx0[k] < n;
      assert forall i :: 0 <= i < n ==> records[i] == prefix[i];
    }
  }

  /** `a` is obtained from `b` by deleting elements (matched from the end). */
  predicate IsSubsequence<T(==)>(a: seq<T>, b: seq<T>)
    decreases |b|
  {
    if a == [] then true
    else if b == [] then false
    else if a[|a| - 1] == b[|b| - 1] then IsSubsequence(a[..|a| - 1], b[..|b| - 1])
    else IsSubsequence(a, b[..|b| - 1])
  }

  lemma {:induction false} SubsequenceDropLast<T>(a: seq<T>, b: seq<T>)
    requires a != [] && IsSubsequence(a, b)
    ensures IsSubsequence(a[..|a| - 1], b)
    decreases |b|, 0
  {
    var a' := a[..|a| - 1];
    if a' != [] {
      var b' := b[..|b| - 1];
      if a[|a| - 1] == b[|b| - 1] {
        SubsequenceExtend(a', b', b[|b| - 1]);
        assert b' + [b[|b| - 1]] == b;
      } else {
        SubsequenceDropLast(a, b');
        SubsequenceExtend(a', b', b[|b| - 1]);
        assert b' + [b[|b| - 1]] == b;
      }
    }
  }

  lemma {:induction false} SubsequenceExtend<T>(a: seq<T>, b: seq<T>, y: T)
    requires IsSubsequence(a, b)
    ensures IsSubsequence(a, b + [y])
    decreases |b|, 1
  {
    var b1 := b + [y];
    assert b1[..|b1| - 1] == b;
    if a != [] && a[|a| - 1] == y {
      SubsequenceDropLast(a, b);
    }
  }

  /** `wide` admits every row that `narrow` admits. */
  predicate Wider(narrow: Criteria, wide: Criteria)
  {
    narrow.maxDistance <= wide.maxDistance
    && wide.minArea <= narrow.minArea
    && narrow.maxArea <= wide.maxArea
  }

  /**
   * Monotonicity of the filter: with a larger distance limit and a wider area
   * band, the former comparable set is a subsequence of the new one.
   */
  lemma {:induction false} SelectMonotone(target: Point, records: seq<Record>, narrow: Criteria, wide: Criteria, dist: Metric)
    requires Wider(narrow, wide)
    ensures IsSubsequence(Select(target, records, narrow, dist), Select(target, records, wide, dist))
    decreases |records|
  {
    if |records| > 1 {
      var n := |records| - 1;
      var prefix := records[..n];
      var s1 := Select(target, prefix, narrow, dist);
      var s2 := Select(target, prefix, wide, dist);
      SelectMonotone(target, prefix, narrow, wide, dist);
      var last := records[n];
      var sn, sw := Select(target, records, narrow, dist), Select(target, records, wide, dist);
      if Qualifies(target, last, narrow, dist) {
        var m := Make(target, last, dist);
        assert Qualifies(target, last, wide, dist);
        assert sn == s1 + [m] && sw == s2 + [m];
        assert sn[..|sn| - 1] == s1 && sw[..|sw| - 1] == s2;
      } else if Qualifies(target, last, wide, dist) {
        var m := Make(target, last, dist);
        assert sn == s1 + [] == s1 && sw == s2 + [m];
        SubsequenceExtend(s1, s2, m);
      } else {
        assert sn == s1 + [] == s1 && sw == s2 + [] == s2;
      }
    }
  }

  /**
   * The sidebar's two settings are monotone: raising the distance limit or the
   * allowed area difference never removes a comparable.
   */
  lemma FilterMonotoneInSettings(target: Point, records: seq<Record>, targetArea: real,
                                 maxDistance1: real, areaDifference1: real,
                                 maxDistance2: real, areaDifference2: real, dist: Metric)
    requires maxDistance1 <= maxDistance2 && areaDifference1 <= areaDifference2
    ensures IsSubsequence(Select(target, records, SearchCriteria(maxDistance1, targetArea, areaDifference1), dist),
                          Select(target, records, SearchCriteria(maxDistance2, targetArea, areaDifference2), dist))
  {
    SelectMonotone(target, records, SearchCriteria(maxDistance1, targetArea, areaDifference1),
                   SearchCriteria(maxDistance2, targetArea, areaDifference2), dist);
  }

  function PointsOf(cs: seq<Comparable>): seq<Point>
  {
    seq(|cs|, i requires 0 <= i < |cs| => cs[i].point)
  }

  function UnitPricesOf(cs: seq<Comparable>): seq<real>
  {
    seq(|cs|, i requires 0 <= i < |cs| => cs[i].unitPrice)
  }

  function DistancesOf(cs: seq<Comparable>): seq<real>
  {
    seq(|cs|, i requires 0 <= i < |cs| => cs[i].distance)
  }

  /**
   * The loop that prepares the IDW input: it walks the rows after the first
   * and, for each qualifying one, appends its coordinates, its unit price and
   * its table row to three parallel lists.
   */
  method CollectComparables(records: seq<Record>, c: Criteria, dist: Metric)
    returns (compPoints: seq<Point>, compValues: seq<real>, compData: seq<Comparable>)
    requires |records| > 0 && records[0].location.Some?
    ensures compData == Select(records[0].location.value, records, c, dist)
    ensures compPoints == PointsOf(compData) && compValues == UnitPricesOf(compData)
  {
    var target := records[0].location.value;
    compPoints, compValues, compData := [], [], [];
    for i := 1 to |records|
      invariant compData == Select(target, records[..i], c, dist)
      invariant compPoints == PointsOf(compData) && compValues == UnitPricesOf(compData)
    {
      assert records[..i + 1][..i] == records[..i];
      var row := records[i];
      if row.location.Some? {
        var distance := dist(target, row.location.value);
        if distance <= c.maxDistance && c.minArea <= row.totalArea <= c.maxArea {
          compPoints := compPoints + [row.location.value];
          compValues := compValues + [row.unitPrice];
          compData := compData + [Comparable(row.address, row.location.value, row.unitPrice, distance)];
        }
      }
    }
    assert records[..|records|] == records;
  }
}
