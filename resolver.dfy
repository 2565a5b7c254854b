/**
 * `calcular_ruta_osmnx`: the road-network path resolver.  `Resolve` is its
 * specification, built from `Attempt`, which says why a call falls back to a
 * fully synthetic route; `ResolveRoute` is the source's step-by-step
 * procedure, proved to return `Resolve`'s route.
 */
module Resolver {
  import opened Wrappers
  import opened Geo
  import opened Roads
  import opened Routes
  import opened Polylines
  import opened Synthetic

  /** Road classes the resolver labels "pavimentado" and "grava"; every other class is "tierra". */
  const PavedClasses: seq<string> := ["motorway", "trunk", "primary", "secondary", "residential", "tertiary"]
  const GravelClasses: seq<string> := ["unclassified", "service"]

  /** An endpoint more than this many metres from its nearest vertex gets a synthetic access segment. */
  const AccessThreshold: real := 10.0

  function RoadSurface(highway: string): (s: Surface)
    ensures s == Paved <==> highway in PavedClasses
    ensures s == Gravel <==> highway in GravelClasses
    ensures s == Dirt <==> highway !in PavedClasses && highway !in GravelClasses
  {
    if highway in PavedClasses then Paved
    else if highway in GravelClasses then Gravel
    else Dirt
  }

  /**
   * The surface one hop's `highway` attribute gives: the first class of a
   * list, dirt for a missing attribute, and `None` for an empty list, where
   * `highway_type[0]` raises `IndexError`.
   */
  function HopSurface(tag: Option<HighwayTag>): (s: Option<Surface>)
    ensures s.None? <==> tag == Some(TagList([]))
    ensures tag.None? ==> s == Some(Dirt)
    ensures tag.Some? && tag.value.Tag? ==> s == Some(RoadSurface(tag.value.name))
    ensures tag.Some? && tag.value.TagList? && tag.value.names != [] ==> s == Some(RoadSurface(tag.value.names[0]))
  {
    match tag
    case None => Some(Dirt)
    case Some(Tag(h)) => Some(RoadSurface(h))
    case Some(TagList(hs)) => if hs == [] then None else Some(RoadSurface(hs[0]))
  }

  /** What the hop loop accumulates: `coordenadas_osmnx`, the metres it adds, and `tipo_camino`. */
  datatype Walk = Walk(coords: seq<Coord>, meters: real, surface: Surface)

  /** One iteration of the hop loop over the hop (u, v); `None` where it raises. */
  function HopStep(g: RoadNetwork, w: Walk, u: VertexId, v: VertexId): Option<Walk> {
    var cu := VertexCoord(g, u);
    var cv := VertexCoord(g, v);
    if cu.None? || cv.None? then None
    else
      var pts := (if w.coords == [] || Last(w.coords) != cu.value then w.coords + [cu.value] else w.coords) + [cv.value];
      match FirstEdge(g, u, v)
      case None => Some(Walk(pts, w.meters, w.surface))
      case Some(e) =>
        match HopSurface(e.highway)
        case None => None
        case Some(s) => Some(Walk(pts, w.meters + e.length.GetOr(0.0), s))
  }

  /** `len(ruta_nodos) - 1` iterations, none for an empty path. */
  function Hops(path: seq<VertexId>): nat {
    if |path| == 0 then 0 else |path| - 1
  }

  /** The hop loop after its first k iterations. */
  function WalkHops(g: RoadNetwork, path: seq<VertexId>, k: nat): Option<Walk>
    requires k <= Hops(path)
  {
    if k == 0 then Some(Walk([], 0.0, Dirt))
    else
      match WalkHops(g, path, k - 1)
      case None => None
      case Some(w) => HopStep(g, w, path[k - 1], path[k])
  }

  /** Once an iteration has raised, the loop's outcome is the exception. */
  lemma {:induction false} WalkFailurePersists(g: RoadNetwork, path: seq<VertexId>, k: nat, k': nat)
    requires k <= k' <= Hops(path)
    requires WalkHops(g, path, k).None?
    ensures WalkHops(g, path, k').None?
    decreases k' - k
  {
    if k < k' {
      WalkFailurePersists(g, path, k + 1, k');
    }
  }

  // Reference definitions for what the walk computes.

  /** The `length` of the first parallel edge of a hop; 0 when the hop has no edge data or no length. */
  function HopLength(g: RoadNetwork, u: VertexId, v: VertexId): real {
    match FirstEdge(g, u, v)
    case None => 0.0
    case Some(e) => e.length.GetOr(0.0)
  }

  /** The sum of the hop lengths along a path. */
  function PathLength(g: RoadNetwork, path: seq<VertexId>): real {
    if |path| < 2 then 0.0 else HopLength(g, path[0], path[1]) + PathLength(g, path[1..])
  }

  /** The edge data of the last hop that has any, searching back from the end of the path. */
  function LastEdge(g: RoadNetwork, path: seq<VertexId>): Option<EdgeData> {
    if |path| < 2 then None
    else
      var e := FirstEdge(g, path[|path| - 2], path[|path| - 1]);
      if e.Some? then e else LastEdge(g, path[..|path| - 1])
  }

  /** The surface of the last hop that has edge data, or dirt when no hop has any. */
  function LastEdgeSurface(g: RoadNetwork, path: seq<VertexId>): Option<Surface> {
    match LastEdge(g, path)
    case None => Some(Dirt)
    case Some(e) => HopSurface(e.highway)
  }

  lemma {:induction false} PathLengthSnoc(g: RoadNetwork, p: seq<VertexId>, v: VertexId)
    requires |p| >= 1
    ensures PathLength(g, p + [v]) == PathLength(g, p) + HopLength(g, Last(p), v)
  {
    if |p| >= 2 {
      assert (p + [v])[1..] == p[1..] + [v];
      PathLengthSnoc(g, p[1..], v);
    }
  }

  /**
   * After k >= 1 hops without an exception, the walk holds the positions of
   * the first k + 1 path vertices with no point repeated, the sum of their hop
   * lengths, and the surface of the last of them that has edge data.
   */
  lemma {:induction false} WalkHopsMeaning(g: RoadNetwork, path: seq<VertexId>, k: nat)
    requires 1 <= k <= Hops(path)
    requires WalkHops(g, path, k).Some?
    ensures var w := WalkHops(g, path, k).value;
      && |w.coords| == k + 1
      && (forall i :: 0 <= i <= k ==> VertexCoord(g, path[i]) == Some(w.coords[i]))
      && w.meters == PathLength(g, path[..k + 1])
      && Some(w.surface) == LastEdgeSurface(g, path[..k + 1])
  {
    if k == 1 {
      WalkFirstHop(g, path);
    } else {
      var prev := WalkHops(g, path, k - 1).value;
      WalkHopsMeaning(g, path, k - 1);
      WalkStepCoords(g, path, k, prev, WalkHops(g, path, k).value);
      WalkStepLength(g, path, k, prev, WalkHops(g, path, k).value);
    }
  }

  /** A later hop appends the position of its end vertex and nothing else. */
  lemma WalkStepCoords(g: RoadNetwork, path: seq<VertexId>, k: nat, prev: Walk, w: Walk)
    requires 2 <= k <= Hops(path)
    requires HopStep(g, prev, path[k - 1], path[k]) == Some(w)
    requires |prev.coords| == k
    requires forall i :: 0 <= i < k ==> VertexCoord(g, path[i]) == Some(prev.coords[i])
    ensures |w.coords| == k + 1
    ensures forall i :: 0 <= i <= k ==> VertexCoord(g, path[i]) == Some(w.coords[i])
  {
    HopStepShape(g, prev, path[k - 1], path[k]);
    assert Last(prev.coords) == prev.coords[k - 1];
    assert w.coords == prev.coords + [VertexCoord(g, path[k]).value];
    forall i | 0 <= i <= k
      ensures VertexCoord(g, path[i]) == Some(w.coords[i])
    {
      if i < k {
        assert w.coords[i] == prev.coords[i];
      }
    }
  }

  /** A later hop adds its length, and its surface when it has edge data. */
  lemma WalkStepLength(g: RoadNetwork, path: seq<VertexId>, k: nat, prev: Walk, w: Walk)
    requires 2 <= k <= Hops(path)
    requires HopStep(g, prev, path[k - 1], path[k]) == Some(w)
    requires prev.meters == PathLength(g, path[..k])
    requires Some(prev.surface) == LastEdgeSurface(g, path[..k])
    ensures w.meters == PathLength(g, path[..k + 1])
    ensures Some(w.surface) == LastEdgeSurface(g, path[..k + 1])
  {
    HopStepShape(g, prev, path[k - 1], path[k]);
    var q := path[..k + 1];
    assert q[|q| - 2] == path[k - 1] && q[|q| - 1] == path[k] && q[..|q| - 1] == path[..k];
    assert q == path[..k] + [path[k]];
    assert Last(path[..k]) == path[k - 1];
    PathLengthSnoc(g, path[..k], path[k]);
  }

  /** The first hop of the walk: the two end positions, the hop's length and its surface. */
  lemma WalkFirstHop(g: RoadNetwork, path: seq<VertexId>)
    requires 1 <= Hops(path)
    requires WalkHops(g, path, 1).Some?
    ensures var w := WalkHops(g, path, 1).value;
      && |w.coords| == 2
      && (forall i :: 0 <= i <= 1 ==> VertexCoord(g, path[i]) == Some(w.coords[i]))
      && w.meters == PathLength(g, path[..2])
      && Some(w.surface) == LastEdgeSurface(g, path[..2])
  {
    var w := WalkHops(g, path, 1).value;
    HopStepShape(g, Walk([], 0.0, Dirt), path[0], path[1]);
    var q := path[..2];
    assert q == [path[0], path[1]] && q[1..] == [path[1]] && q[..1] == [path[0]];
    assert LastEdge(g, q[..1]) == None;
    assert PathLength(g, q) == HopLength(g, path[0], path[1]) + PathLength(g, q[1..]);
  }

  /** A hop that does not raise adds its end vertex's position (after its start's, unless that is already the last point), its length and, if it has edge data, its surface. */
  lemma HopStepShape(g: RoadNetwork, w: Walk, u: VertexId, v: VertexId)
    requires HopStep(g, w, u, v).Some?
    ensures VertexCoord(g, u).Some? && VertexCoord(g, v).Some?
    ensures var h := HopStep(g, w, u, v).value;
      && h.coords == (if w.coords == [] || Last(w.coords) != VertexCoord(g, u).value then w.coords + [VertexCoord(g, u).value] else w.coords)
                     + [VertexCoord(g, v).value]
      && h.meters == w.meters + HopLength(g, u, v)
      && Some(h.surface) == (if FirstEdge(g, u, v).None? then Some(w.surface) else HopSurface(FirstEdge(g, u, v).value.highway))
  {
  }

  /** Why a call falls back to a fully synthetic route. */
  datatype FallbackReason = NoNetwork | LookupFailed | Raised | NoPath

  datatype Outcome = Fallback(reason: FallbackReason) | Found(route: Route)

  function AccessCoords(p: Option<Piece>): seq<Coord> {
    if p.Some? then p.value.coords else []
  }

  function AccessMeters(p: Option<Piece>): real {
    if p.Some? then p.value.meters else 0.0
  }

  function AccessSegments(p: Option<Piece>): seq<Segment> {
    if p.Some? then [Segment(p.value.surface, p.value.coords, true)] else []
  }

  /** The route record of a real route: access segments, if any, around the road-network walk. */
  function Assemble(oa: Option<Piece>, path: seq<VertexId>, w: Walk, da: Option<Piece>): Route {
    var coords := Spliced(Spliced(Spliced([], AccessCoords(oa)), w.coords), AccessCoords(da));
    var m := AccessMeters(oa) + w.meters + AccessMeters(da);
    Route(coords, m, m / 1000.0, true, w.surface, oa.Some? || da.Some?,
          AccessSegments(oa) + [Segment(w.surface, w.coords, false)] + AccessSegments(da), path)
  }

  /**
   * The synthetic access segment between a point and its nearest vertex, when
   * they are more than `AccessThreshold` metres apart: `Some(None)` when none
   * is needed, `None` when the vertex has no position (`KeyError`).  The
   * origin's segment runs point to vertex, the destination's vertex to point.
   */
  function Access(g: RoadNetwork, dist: DistanceFn, p: Coord, v: VertexId, meters: real, toVertex: bool): (a: Option<Option<Piece>>)
    ensures meters <= AccessThreshold ==> a == Some(None)
    ensures a.None? <==> meters > AccessThreshold && VertexCoord(g, v).None?
  {
    if meters <= AccessThreshold then Some(None)
    else
      var at := VertexCoord(g, v);
      if at.None? then None
      else if toVertex then Some(Some(SyntheticPiece(dist, p, at.value, Dirt)))
      else Some(Some(SyntheticPiece(dist, at.value, p, Dirt)))
  }

  /** The road-network path between the two nearest vertices; none when either id is 0, which Python reads as false. */
  function NetworkPath(g: RoadNetwork, vo: VertexId, vd: VertexId): Option<seq<VertexId>> {
    if vo != 0 && vd != 0 then g.shortestPath(vo, vd) else None
  }

  /** The hop loop's outcome: the empty walk when there is no path to walk. */
  function PathWalk(g: RoadNetwork, path: Option<seq<VertexId>>): Option<Walk> {
    if path.None? then Some(Walk([], 0.0, Dirt)) else WalkHops(g, path.value, Hops(path.value))
  }

  /** The decision once both endpoints have a nearest vertex, in the order the source takes its steps. */
  function AttemptFrom(g: RoadNetwork, dist: DistanceFn, o: Coord, d: Coord, vo: VertexId, dO: real, vd: VertexId, dD: real): Outcome {
    var oa := Access(g, dist, o, vo, dO, true);
    if oa.None? then Fallback(Raised)
    else
      var path := NetworkPath(g, vo, vd);
      var w := PathWalk(g, path);
      if w.None? then Fallback(Raised)
      else
        var da := Access(g, dist, d, vd, dD, false);
        if da.None? then Fallback(Raised)
        else if path.None? then Fallback(NoPath)
        else Found(Assemble(oa.value, path.value, w.value, da.value))
  }

  /**
   * The resolver's decision.  In the source's order: no network; a failed
   * nearest-vertex lookup; a `KeyError`/`IndexError` while building the origin
   * access segment, walking the path or building the destination access
   * segment; no path; otherwise the real route.
   */
  function Attempt(net: Option<RoadNetwork>, dist: DistanceFn, o: Coord, d: Coord): Outcome {
    if net.None? then Fallback(NoNetwork)
    else
      var lo := NearestVertex(net, dist, o);
      var ld := NearestVertex(net, dist, d);
      if lo.None? || ld.None? then Fallback(LookupFailed)
      else AttemptFrom(net.value, dist, o, d, lo.value.0, lo.value.1, ld.value.0, ld.value.1)
  }

  /**
   * The route `calcular_ruta_osmnx` returns.  It never fails: every fallback
   * (no network, failed lookup, exception, no path) gives the fully synthetic
   * route, and only a route through the network is flagged real.
   */
  function Resolve(net: Option<RoadNetwork>, dist: DistanceFn, o: Coord, d: Coord): (r: Route)
    ensures r.realRoute <==> Attempt(net, dist, o, d).Found?
    ensures !r.realRoute ==> r == SyntheticRoute(dist, o, d)
    ensures net.None? ==> r == SyntheticRoute(dist, o, d)
    ensures r.km == r.meters / 1000.0
    ensures r.segments != []
  {
    RouteOf(Attempt(net, dist, o, d), dist, o, d)
  }

  /** The route a decision yields: the fully synthetic one for every fallback. */
  function RouteOf(a: Outcome, dist: DistanceFn, o: Coord, d: Coord): Route {
    match a
    case Fallback(_) => SyntheticRoute(dist, o, d)
    case Found(route) => route
  }

  /** The hop loop of `calcular_ruta_osmnx`: `None` where an iteration raises. */
  method WalkPath(g: RoadNetwork, path: seq<VertexId>) returns (w: Option<Walk>)
    ensures w == WalkHops(g, path, Hops(path))
  {
    var hopCoords: seq<Coord> := [];
    var meters := 0.0;
    var surface := Dirt;
    var i := 0;
    while i < Hops(path)
      invariant 0 <= i <= Hops(path)
      invariant WalkHops(g, path, i) == Some(Walk(hopCoords, meters, surface))
    {
      var c1 := VertexCoord(g, path[i]);
      var c2 := VertexCoord(g, path[i + 1]);
      if c1.None? || c2.None? {
        WalkFailurePersists(g, path, i + 1, Hops(path));
        return None;
      }
      if hopCoords == [] || hopCoords[|hopCoords| - 1] != c1.value {
        hopCoords := hopCoords + [c1.value];
      }
      hopCoords := hopCoords + [c2.value];
      var e := FirstEdge(g, path[i], path[i + 1]);
      if e.Some? {
        meters := meters + e.value.length.GetOr(0.0);
        var s := HopSurface(e.value.highway);
        if s.None? {
          WalkFailurePersists(g, path, i + 1, Hops(path));
          return None;
        }
        surface := s.value;
      }
      i := i + 1;
    }
    return Some(Walk(hopCoords, meters, surface));
  }

  /** The whole path walk: the positions, lengths and last surface the hop loop reads along the path. */
  lemma WalkWholePath(g: RoadNetwork, path: seq<VertexId>)
    requires WalkHops(g, path, Hops(path)).Some?
    ensures var w := WalkHops(g, path, Hops(path)).value;
      && w.meters == PathLength(g, path)
      && Some(w.surface) == LastEdgeSurface(g, path)
      && (|path| >= 2 ==> |w.coords| == |path| && forall i :: 0 <= i < |path| ==> VertexCoord(g, path[i]) == Some(w.coords[i]))
      && (|path| < 2 ==> w.coords == [])
  {
    if |path| >= 2 {
      WalkHopsMeaning(g, path, Hops(path));
      assert path[..Hops(path) + 1] == path;
    }
  }

  /** The position of the vertex a point falls back to, when an access segment is built; the point itself otherwise. */
  function AccessEnd(g: RoadNetwork, p: Coord, v: VertexId, meters: real): Coord {
    if meters > AccessThreshold && VertexCoord(g, v).Some? then VertexCoord(g, v).value else p
  }

  /** A real route follows the path the oracle returned for the two (non-zero) nearest vertices. */
  lemma FoundPath(g: RoadNetwork, dist: DistanceFn, o: Coord, d: Coord, vo: VertexId, dO: real, vd: VertexId, dD: real)
    requires AttemptFrom(g, dist, o, d, vo, dO, vd, dD).Found?
    ensures var r := AttemptFrom(g, dist, o, d, vo, dO, vd, dD).route;
      && r.realRoute && vo != 0 && vd != 0 && g.shortestPath(vo, vd) == Some(r.vertices)
      && WalkHops(g, r.vertices, Hops(r.vertices)).Some?
      && (dO > AccessThreshold ==> VertexCoord(g, vo).Some?)
      && (dD > AccessThreshold ==> VertexCoord(g, vd).Some?)
  {
  }

  /** A real route is `Assemble` applied to the access segments, path and walk the decision computed. */
  lemma FoundAssembled(g: RoadNetwork, dist: DistanceFn, o: Coord, d: Coord, vo: VertexId, dO: real, vd: VertexId, dD: real)
    requires AttemptFrom(g, dist, o, d, vo, dO, vd, dD).Found?
    ensures Access(g, dist, o, vo, dO, true).Some? && Access(g, dist, d, vd, dD, false).Some?
    ensures NetworkPath(g, vo, vd).Some? && PathWalk(g, NetworkPath(g, vo, vd)).Some?
    ensures AttemptFrom(g, dist, o, d, vo, dO, vd, dD).route
      == Assemble(Access(g, dist, o, vo, dO, true).value, NetworkPath(g, vo, vd).value,
                  PathWalk(g, NetworkPath(g, vo, vd)).value, Access(g, dist, d, vd, dD, false).value)
  {
  }

  /** The length and presence of an access segment that was built. */
  lemma AccessBuilt(g: RoadNetwork, dist: DistanceFn, p: Coord, v: VertexId, meters: real, toVertex: bool)
    requires Access(g, dist, p, v, meters, toVertex).Some?
    ensures var a := Access(g, dist, p, v, meters, toVertex).value;
      && (a.Some? <==> meters > AccessThreshold)
      && AccessMeters(a) == (if meters <= AccessThreshold then 0.0
                             else if toVertex then dist(p, AccessEnd(g, p, v, meters))
                             else dist(AccessEnd(g, p, v, meters), p))
      && (a.Some? ==> a.value.surface == Dirt)
  {
  }

  /**
   * The segments of an assembled route: the network segment, flagged not
   * synthetic and carrying the route's surface, between the access segments
   * that exist, which are flagged synthetic.
   */
  lemma AssembleSegments(oa: Option<Piece>, path: seq<VertexId>, w: Walk, da: Option<Piece>)
    ensures var r := Assemble(oa, path, w, da);
      var first := if oa.Some? then 1 else 0;
      && (r.hasSynthetic <==> oa.Some? || da.Some?)
      && |r.segments| == first + 1 + (if da.Some? then 1 else 0)
      && (forall i :: 0 <= i < |r.segments| ==> (r.segments[i].synthetic <==> i != first))
      && r.segments[first] == Segment(r.surface, w.coords, false)
      && (oa.Some? ==> r.segments[0] == Segment(oa.value.surface, oa.value.coords, true))
      && (da.Some? ==> Last(r.segments) == Segment(da.value.surface, da.value.coords, true))
  {
  }

  /**
   * A real route has a synthetic dirt access segment at an end exactly when
   * that end is more than `AccessThreshold` metres from its vertex; the
   * network segment between them is the only one not flagged synthetic, and it
   * carries the route's surface.
   */
  lemma FoundSegments(g: RoadNetwork, dist: DistanceFn, o: Coord, d: Coord, vo: VertexId, dO: real, vd: VertexId, dD: real)
    requires AttemptFrom(g, dist, o, d, vo, dO, vd, dD).Found?
    ensures var r := AttemptFrom(g, dist, o, d, vo, dO, vd, dD).route;
      var first := if dO > AccessThreshold then 1 else 0;
      && (r.hasSynthetic <==> dO > AccessThreshold || dD > AccessThreshold)
      && |r.segments| == first + 1 + (if dD > AccessThreshold then 1 else 0)
      && (forall i :: 0 <= i < |r.segments| ==> (r.segments[i].synthetic <==> i != first))
      && (forall i :: 0 <= i < |r.segments| && i != first ==> r.segments[i].surface == Dirt)
      && r.segments[first].surface == r.surface
  {
    FoundAssembled(g, dist, o, d, vo, dO, vd, dD);
    var oa := Access(g, dist, o, vo, dO, true).value;
    var da := Access(g, dist, d, vd, dD, false).value;
    AccessBuilt(g, dist, o, vo, dO, true);
    AccessBuilt(g, dist, d, vd, dD, false);
    AssembleSegments(oa, NetworkPath(g, vo, vd).value, PathWalk(g, NetworkPath(g, vo, vd)).value, da);
  }

  /** A real route's length is the lengths of its access segments plus the hop lengths of its path. */
  lemma FoundMeters(g: RoadNetwork, dist: DistanceFn, o: Coord, d: Coord, vo: VertexId, dO: real, vd: VertexId, dD: real)
    requires AttemptFrom(g, dist, o, d, vo, dO, vd, dD).Found?
    ensures var r := AttemptFrom(g, dist, o, d, vo, dO, vd, dD).route;
      && r.meters == (if dO > AccessThreshold then dist(o, AccessEnd(g, o, vo, dO)) else 0.0)
                     + PathLength(g, r.vertices)
                     + (if dD > AccessThreshold then dist(AccessEnd(g, d, vd, dD), d) else 0.0)
      && Some(r.surface) == LastEdgeSurface(g, r.vertices)
  {
    FoundAssembled(g, dist, o, d, vo, dO, vd, dD);
    AccessBuilt(g, dist, o, vo, dO, true);
    AccessBuilt(g, dist, d, vd, dD, false);
    var path := NetworkPath(g, vo, vd).value;
    WalkWholePath(g, path);
  }

  /** Where an assembled route's polyline starts and ends; with no access segment and an empty walk it is empty. */
  lemma AssembleEnds(oa: Option<Piece>, path: seq<VertexId>, w: Walk, da: Option<Piece>)
    requires oa.Some? ==> oa.value.coords != []
    requires da.Some? ==> da.value.coords != []
    ensures var c := Assemble(oa, path, w, da).coords;
      && (oa.Some? ==> c != [] && c[0] == oa.value.coords[0])
      && (oa.None? && w.coords != [] ==> c != [] && c[0] == w.coords[0])
      && (da.Some? ==> c != [] && Last(c) == Last(da.value.coords))
      && (da.None? && w.coords != [] ==> c != [] && Last(c) == Last(w.coords))
      && (oa.None? && da.None? && w.coords == [] ==> c == [])
  {
    var c1 := Spliced([], AccessCoords(oa));
    var c2 := Spliced(c1, w.coords);
    SplicedEnds([], AccessCoords(oa));
    SplicedEnds(c1, w.coords);
    SplicedEnds(c2, AccessCoords(da));
  }

  /** A built access segment starts at its point (towards the vertex) or ends at it (from the vertex). */
  lemma AccessEnds(g: RoadNetwork, dist: DistanceFn, p: Coord, v: VertexId, meters: real, toVertex: bool)
    ensures var a := Access(g, dist, p, v, meters, toVertex);
      a.Some? && a.value.Some? ==>
        && a.value.value.coords != []
        && (toVertex ==> a.value.value.coords[0] == p)
        && (!toVertex ==> Last(a.value.value.coords) == p)
  {
  }

  /**
   * The ends of an assembled route, given where its access segments and its
   * walk start and end.
   */
  lemma AssembledRouteEnds(g: RoadNetwork, o: Coord, d: Coord, vo: VertexId, vd: VertexId,
                           oa: Option<Piece>, path: seq<VertexId>, w: Walk, da: Option<Piece>)
    requires |path| >= 1 && path[0] == vo && path[|path| - 1] == vd
    requires |path| >= 2 ==> |w.coords| == |path| && forall i :: 0 <= i < |path| ==> VertexCoord(g, path[i]) == Some(w.coords[i])
    requires |path| < 2 ==> w.coords == []
    requires oa.Some? ==> oa.value.coords != [] && oa.value.coords[0] == o
    requires da.Some? ==> da.value.coords != [] && Last(da.value.coords) == d
    ensures var c := Assemble(oa, path, w, da).coords;
      && (oa.Some? ==> c != [] && c[0] == o)
      && (oa.None? && |path| >= 2 ==> c != [] && Some(c[0]) == VertexCoord(g, vo))
      && (da.Some? ==> c != [] && Last(c) == d)
      && (da.None? && |path| >= 2 ==> c != [] && Some(Last(c)) == VertexCoord(g, vd))
      && (oa.None? && da.None? && |path| < 2 ==> c == [])
  {
    AssembleEnds(oa, path, w, da);
    if |path| >= 2 {
      assert VertexCoord(g, path[0]) == Some(w.coords[0]);
      assert VertexCoord(g, path[|path| - 1]) == Some(w.coords[|path| - 1]);
      assert Last(w.coords) == w.coords[|path| - 1];
    }
  }

  /**
   * Where a real route starts and ends, when the oracle's paths run from the
   * origin vertex to the destination vertex: at the origin point itself when
   * it needed an access segment, otherwise at the origin vertex (for a path of
   * at least one hop); symmetrically at the destination.  A one-vertex path
   * with no access segments gives a real route with no points at all.
   */
  lemma FoundEnds(g: RoadNetwork, dist: DistanceFn, o: Coord, d: Coord, vo: VertexId, dO: real, vd: VertexId, dD: real)
    requires PathsConnect(g)
    requires AttemptFrom(g, dist, o, d, vo, dO, vd, dD).Found?
    ensures var r := AttemptFrom(g, dist, o, d, vo, dO, vd, dD).route;
      && (dO > AccessThreshold ==> r.coords != [] && r.coords[0] == o)
      && (dO <= AccessThreshold && |r.vertices| >= 2 ==> r.coords != [] && Some(r.coords[0]) == VertexCoord(g, vo))
      && (dD > AccessThreshold ==> r.coords != [] && Last(r.coords) == d)
      && (dD <= AccessThreshold && |r.vertices| >= 2 ==> r.coords != [] && Some(Last(r.coords)) == VertexCoord(g, vd))
      && (dO <= AccessThreshold && dD <= AccessThreshold && |r.vertices| < 2 ==> r.coords == [])
  {
    FoundAssembled(g, dist, o, d, vo, dO, vd, dD);
    AccessBuilt(g, dist, o, vo, dO, true);
    AccessBuilt(g, dist, d, vd, dD, false);
    AccessEnds(g, dist, o, vo, dO, true);
    AccessEnds(g, dist, d, vd, dD, false);
    var oa := Access(g, dist, o, vo, dO, true).value;
    var da := Access(g, dist, d, vd, dD, false).value;
    var path := NetworkPath(g, vo, vd).value;
    var w := PathWalk(g, NetworkPath(g, vo, vd)).value;
    assert g.shortestPath(vo, vd) == Some(path);
    WalkWholePath(g, path);
    AssembledRouteEnds(g, o, d, vo, vd, oa, path, w, da);
  }

  /**
   * The shape of every real route: it exists only with a network and two
   * successful nearest-vertex lookups, and it has the path, segments, length
   * and surface the three lemmas above describe.
   */
  lemma RealRouteShape(net: Option<RoadNetwork>, dist: DistanceFn, o: Coord, d: Coord)
    requires Resolve(net, dist, o, d).realRoute
    ensures net.Some? && NearestVertex(net, dist, o).Some? && NearestVertex(net, dist, d).Some?
    ensures var lo := NearestVertex(net, dist, o).value;
      var ld := NearestVertex(net, dist, d).value;
      && AttemptFrom(net.value, dist, o, d, lo.0, lo.1, ld.0, ld.1).Found?
      && Resolve(net, dist, o, d) == AttemptFrom(net.value, dist, o, d, lo.0, lo.1, ld.0, ld.1).route
  {
  }

  /** The part of `calcular_ruta_osmnx` that builds one access segment, or raises `KeyError` (`None`). */
  method BuildAccess(g: RoadNetwork, dist: DistanceFn, p: Coord, v: VertexId, meters: real, toVertex: bool) returns (a: Option<Option<Piece>>)
    ensures a == Access(g, dist, p, v, meters, toVertex)
  {
    if meters <= AccessThreshold {
      return Some(None);
    }
    var at := VertexCoord(g, v);
    if at.None? {
      return None;
    }
    var piece;
    if toVertex {
      piece := CreateSyntheticSegment(dist, p, at.value, Dirt);
    } else {
      piece := CreateSyntheticSegment(dist, at.value, p, Dirt);
    }
    return Some(Some(piece));
  }

  /** A route record built from the parts `Assemble` combines is the assembled route. */
  lemma AssembledFromParts(oa: Option<Piece>, path: seq<VertexId>, w: Walk, da: Option<Piece>, r: Route)
    requires r.coords == Spliced(Spliced(Spliced([], AccessCoords(oa)), w.coords), AccessCoords(da))
    requires r.meters == AccessMeters(oa) + w.meters + AccessMeters(da) && r.km == r.meters / 1000.0
    requires r.segments == AccessSegments(oa) + [Segment(w.surface, w.coords, false)] + AccessSegments(da)
    requires r.realRoute && r.surface == w.surface && r.hasSynthetic == (oa.Some? || da.Some?) && r.vertices == path
    ensures r == Assemble(oa, path, w, da)
  {
  }

  /** `calcular_ruta_osmnx`, step by step as the source runs it. */
  method ResolveRoute(net: Option<RoadNetwork>, dist: DistanceFn, o: Coord, d: Coord) returns (r: Route)
    ensures r == Resolve(net, dist, o, d)
  {
    if net.None? {
      return SyntheticRoute(dist, o, d);
    }
    var lo := NearestVertex(net, dist, o);
    var ld := NearestVertex(net, dist, d);
    if lo.None? || ld.None? {
      return SyntheticRoute(dist, o, d);
    }
    r := ResolveBetween(net.value, dist, o, d, lo.value.0, lo.value.1, ld.value.0, ld.value.1);
  }

  /** The body of `calcular_ruta_osmnx` once both endpoints have a nearest vertex. */
  method ResolveBetween(g: RoadNetwork, dist: DistanceFn, o: Coord, d: Coord, vo: VertexId, dO: real, vd: VertexId, dD: real)
    returns (r: Route)
    ensures r == RouteOf(AttemptFrom(g, dist, o, d, vo, dO, vd, dD), dist, o, d)
  {
    var coords := new Polyline();
    var total := 0.0;
    var segments: seq<Segment> := [];

    var oa := BuildAccess(g, dist, o, vo, dO, true);
    if oa.None? {
      return SyntheticRoute(dist, o, d);
    }
    if oa.value.Some? {
      var access := oa.value.value;
      coords.Extend(access.coords);
      total := total + access.meters;
      segments := segments + [Segment(access.surface, access.coords, true)];
    }
    assert coords.points == Spliced([], AccessCoords(oa.value));
    assert total == AccessMeters(oa.value) && segments == AccessSegments(oa.value);

    var path := if vo != 0 && vd != 0 then g.shortestPath(vo, vd) else None;
    var walk := Walk([], 0.0, Dirt);
    if path.Some? {
      var w := WalkPath(g, path.value);
      if w.None? {
        return SyntheticRoute(dist, o, d);
      }
      walk := w.value;
      coords.Extend(walk.coords);
      total := total + walk.meters;
      segments := segments + [Segment(walk.surface, walk.coords, false)];
    }
    assert PathWalk(g, path) == Some(walk);
    ghost var before := coords.points;
    ghost var totalBefore := total;
    ghost var segmentsBefore := segments;

    var da := BuildAccess(g, dist, d, vd, dD, false);
    if da.None? {
      return SyntheticRoute(dist, o, d);
    }
    if path.None? {
      return SyntheticRoute(dist, o, d);
    }
    if da.value.Some? {
      var access := da.value.value;
      coords.Extend(access.coords);
      total := total + access.meters;
      segments := segments + [Segment(access.surface, access.coords, true)];
    }
    assert coords.points == Spliced(before, AccessCoords(da.value));
    assert total == totalBefore + AccessMeters(da.value);
    assert segments == segmentsBefore + AccessSegments(da.value);
    r := Route(coords.points, total, total / 1000.0, true, walk.surface, oa.value.Some? || da.value.Some?, segments, path.value);
    AssembledFromParts(oa.value, path.value, walk, da.value, r);
  }
}
