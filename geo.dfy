/**
 * Points on the Earth and the distance between them.
 *
 * The geodesic (ellipsoidal) distance in kilometres is computed by a foreign
 * library; here it is an arbitrary function passed in by the caller, of which
 * only non-negativity is assumed.
 */
module Geo {
  /** A (latitude, longitude) pair in degrees. */
  datatype Point = Point(lat: real, lon: real)

  /** A distance function between two points, in kilometres. */
  type Metric = (Point, Point) -> real

  /** A geodesic distance is never negative. */
  ghost predicate NonNegative(dist: Metric)
  {
    forall p, q :: dist(p, q) >= 0.0
  }
}
