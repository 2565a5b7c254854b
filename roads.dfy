/**
 * The real road network (an OSMnx multigraph) as the route engine sees it:
 * vertex positions, the attributes of each parallel edge, and the two library
 * calls the engine makes on it (nearest-vertex lookup and shortest path), which
 * are oracles here.
 */
module Roads {
  import opened Wrappers
  import opened Geo

  type VertexId = int

  /** The `y` (latitude) and `x` (longitude) attributes of a vertex; either may be missing. */
  datatype VertexData = VertexData(y: Option<real>, x: Option<real>)

  /** The `highway` attribute: one road class, or a list of them. */
  datatype HighwayTag = Tag(name: string) | TagList(names: seq<string>)

  /** The attributes of one parallel edge: `length` (metres) and `highway`, either possibly absent. */
  datatype EdgeData = EdgeData(length: Option<real>, highway: Option<HighwayTag>)

  /**
   * `vertices` and `edges` are the graph's data; `edges[(u, v)]` lists the
   * parallel edges from u to v in key order.  `nearest` is the spatial index
   * (`None` when it raises) and `shortestPath` is `has_path` followed by
   * `shortest_path(weight="length")` (`None` when no path exists).
   */
  datatype RoadNetwork = RoadNetwork(
    vertices: map<VertexId, VertexData>,
    edges: map<(VertexId, VertexId), seq<EdgeData>>,
    nearest: Coord -> Option<VertexId>,
    shortestPath: (VertexId, VertexId) -> Option<seq<VertexId>>)

  /** The oracle's paths start at the origin vertex and end at the destination vertex. */
  ghost predicate PathsConnect(g: RoadNetwork) {
    forall u, v :: g.shortestPath(u, v).Some? ==>
      var p := g.shortestPath(u, v).value; |p| >= 1 && p[0] == u && p[|p| - 1] == v
  }

  /** `G.nodes[v]["y"], G.nodes[v]["x"]`: `None` where that lookup raises `KeyError`. */
  function VertexCoord(g: RoadNetwork, v: VertexId): (c: Option<Coord>)
    ensures c.Some? <==> v in g.vertices && g.vertices[v].y.Some? && g.vertices[v].x.Some?
  {
    if v in g.vertices && g.vertices[v].y.Some? && g.vertices[v].x.Some? then
      Some(Coord(g.vertices[v].y.value, g.vertices[v].x.value))
    else None
  }

  /**
   * `get_edge_data(u, v)` followed by the first key: the attributes of the
   * first parallel edge from u to v, or `None` when there is no such edge.
   */
  function FirstEdge(g: RoadNetwork, u: VertexId, v: VertexId): (e: Option<EdgeData>)
    ensures e.Some? <==> (u, v) in g.edges && g.edges[(u, v)] != []
    ensures e.Some? ==> e.value == g.edges[(u, v)][0]
  {
    if (u, v) in g.edges && g.edges[(u, v)] != [] then Some(g.edges[(u, v)][0]) else None
  }

  /**
   * `encontrar_nodo_osmnx_mas_cercano`: the nearest vertex and its distance
   * from `p`.  `None` (the source's `None, None`) when no network is loaded,
   * when the spatial index raises, or when the vertex it names is not in the
   * graph.  A vertex without `y`/`x` is measured at the query's own coordinate.
   */
  function NearestVertex(net: Option<RoadNetwork>, dist: DistanceFn, p: Coord): (r: Option<(VertexId, real)>)
    ensures net.None? ==> r.None?
    ensures r.Some? <==> net.Some? && net.value.nearest(p).Some? && net.value.nearest(p).value in net.value.vertices
    ensures r.Some? ==> r.value.0 == net.value.nearest(p).value && r.value.1 >= 0.0
  {
    if net.None? then None
    else
      var g := net.value;
      match g.nearest(p)
      case None => None
      case Some(v) =>
        if v !in g.vertices then None
        else
          var at := Coord(g.vertices[v].y.GetOr(p.lat), g.vertices[v].x.GetOr(p.lon));
          Some((v, dist(p, at)))
  }
}
