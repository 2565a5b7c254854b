/** `_crear_segmento_sintetico` and `_crear_ruta_sintetica`: fabricated straight-line routes. */
module Synthetic {
  import opened Geo
  import opened Routes

  /** `max(2, int(distancia / 200))`: one interval per 200 m, at least two. */
  function Intervals(meters: real): (n: nat)
    requires meters >= 0.0
    ensures n >= 2
    ensures meters / 200.0 < n as real + 1.0
    ensures n == 2 || n as real <= meters / 200.0
  {
    var k := (meters / 200.0).Floor;
    if k < 2 then 2 else k
  }

  /** What `_crear_segmento_sintetico` returns; its `es_segmento_sintetico` is always true. */
  datatype Piece = Piece(coords: seq<Coord>, meters: real, surface: Surface)

  /** The points at t = 0, 1/n, ..., 1 on the straight line from `a` to `b`. */
  function Interpolated(a: Coord, b: Coord, n: nat): (pts: seq<Coord>)
    requires n > 0
    ensures |pts| == n + 1
    ensures forall i :: 0 <= i <= n ==> pts[i] == Lerp(a, b, i as real / n as real)
  {
    seq(n + 1, i requires 0 <= i <= n => Lerp(a, b, i as real / n as real))
  }

  lemma InterpolatedEnds(a: Coord, b: Coord, n: nat)
    requires n > 0
    ensures Interpolated(a, b, n)[0] == a
    ensures Last(Interpolated(a, b, n)) == b
  {
    assert n as real / n as real == 1.0;
  }

  /**
   * The segment from `a` to `b`: `Intervals(d) + 1` points at t = i / n, so
   * it starts exactly at `a` and ends exactly at `b`; `d`, the great-circle
   * distance, is its recorded length.
   */
  function SyntheticPiece(dist: DistanceFn, a: Coord, b: Coord, surface: Surface): (p: Piece)
    ensures |p.coords| == Intervals(dist(a, b)) + 1
    ensures p.coords[0] == a && Last(p.coords) == b
    ensures p.meters == dist(a, b) && p.surface == surface
  {
    var n := Intervals(dist(a, b));
    InterpolatedEnds(a, b, n);
    Piece(Interpolated(a, b, n), dist(a, b), surface)
  }

  lemma EvenStep(x: real, y: real, i: nat, n: nat)
    requires n > 0
    ensures (x + (y - x) * ((i + 1) as real / n as real)) - (x + (y - x) * (i as real / n as real)) == (y - x) / n as real
  {
    var t0 := i as real / n as real;
    var t1 := (i + 1) as real / n as real;
    assert t1 - t0 == 1.0 / n as real;
    calc {
      (x + (y - x) * t1) - (x + (y - x) * t0);
      (y - x) * (t1 - t0);
      (y - x) * (1.0 / n as real);
    }
  }

  /** Consecutive interpolated points are one n-th of the way apart in each coordinate. */
  lemma LerpStep(a: Coord, b: Coord, i: nat, n: nat)
    requires n > 0
    ensures var p, q := Lerp(a, b, i as real / n as real), Lerp(a, b, (i + 1) as real / n as real);
      && q.lat - p.lat == (b.lat - a.lat) / n as real
      && q.lon - p.lon == (b.lon - a.lon) / n as real
  {
    EvenStep(a.lat, b.lat, i, n);
    EvenStep(a.lon, b.lon, i, n);
  }

  /** Consecutive points of a synthetic segment are one n-th of the way apart in each coordinate. */
  lemma {:induction false} SyntheticPieceEvenlySpaced(dist: DistanceFn, a: Coord, b: Coord, surface: Surface, i: nat)
    requires i + 1 < |SyntheticPiece(dist, a, b, surface).coords|
    ensures var pts := SyntheticPiece(dist, a, b, surface).coords;
      && pts[i + 1].lat - pts[i].lat == (b.lat - a.lat) / (|pts| - 1) as real
      && pts[i + 1].lon - pts[i].lon == (b.lon - a.lon) / (|pts| - 1) as real
  {
    var n := Intervals(dist(a, b));
    var pts := SyntheticPiece(dist, a, b, surface).coords;
    assert |pts| - 1 == n;
    assert pts[i] == Lerp(a, b, i as real / n as real);
    assert pts[i + 1] == Lerp(a, b, (i + 1) as real / n as real);
    LerpStep(a, b, i, n);
  }

  /** `_crear_segmento_sintetico`: builds the point list one interpolated point at a time. */
  method CreateSyntheticSegment(dist: DistanceFn, a: Coord, b: Coord, surface: Surface) returns (p: Piece)
    ensures p == SyntheticPiece(dist, a, b, surface)
  {
    var meters := dist(a, b);
    var n := Intervals(meters);
    var points: seq<Coord> := [];
    for i := 0 to n + 1
      invariant |points| == i
      invariant forall k :: 0 <= k < i ==> points[k] == Lerp(a, b, k as real / n as real)
    {
      var t := i as real / n as real;
      points := points + [Lerp(a, b, t)];
    }
    assert points == Interpolated(a, b, n);
    p := Piece(points, meters, surface);
  }

  /**
   * `_crear_ruta_sintetica`: the whole route is one dirt segment, flagged
   * synthetic, not a real route, with no road-network vertices and
   * `distancia_km` the metres over 1000.
   */
  function SyntheticRoute(dist: DistanceFn, o: Coord, d: Coord): (r: Route)
    ensures !r.realRoute && r.surface == Dirt && r.hasSynthetic && r.vertices == []
    ensures r.segments == [Segment(Dirt, r.coords, true)]
    ensures r.meters == dist(o, d) && r.km == r.meters / 1000.0
    ensures r.coords == SyntheticPiece(dist, o, d, Dirt).coords
  {
    var s := SyntheticPiece(dist, o, d, Dirt);
    Route(s.coords, s.meters, s.meters / 1000.0, false, Dirt, true, [Segment(s.surface, s.coords, true)], [])
  }
}
