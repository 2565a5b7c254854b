/**
 * Coordinates and the great-circle distance.  The haversine formula itself is
 * floating-point trigonometry; the model takes it as a parameter of type
 * `DistanceFn`, a total function whose only promised property is that it is
 * never negative.
 */
module Geo {

  /** A point in degrees (WGS84): the source's `[latitud, longitud]` pair. */
  datatype Coord = Coord(lat: real, lon: real)

  type NonNeg = r: real | 0.0 <= r

  /** Stand-in for `calcular_distancia_haversine`: metres between two points. */
  type DistanceFn = (Coord, Coord) -> NonNeg

  /** Identical points are zero metres apart, as the haversine formula gives. */
  ghost predicate ZeroOnSamePoint(dist: DistanceFn) {
    forall p :: dist(p, p) == 0.0
  }

  /** The point a fraction `t` of the way from `a` to `b`, coordinate by coordinate. */
  function Lerp(a: Coord, b: Coord, t: real): Coord {
    Coord(a.lat + (b.lat - a.lat) * t, a.lon + (b.lon - a.lon) * t)
  }

  function Last<T>(s: seq<T>): T
    requires s != []
  {
    s[|s| - 1]
  }
}
