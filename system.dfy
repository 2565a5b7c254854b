/**
 * `SistemaGrafoAgricola`: the supply-graph builder and its query services.
 * The class keeps the fields the source mutates (the supply graph, the
 * vertex anchors of `nodos_osmnx_mapeo` and the edge table `df_aristas`);
 * the input tables, the road network and the distance function are fixed
 * at construction, and numpy's random state is an `Rng`.
 */
module Agriculture {
  import opened Wrappers
  import opened Geo
  import opened Roads
  import opened Routes
  import opened Resolver
  import opened Sorting
  import opened Edges
  import opened SupplyGraph
  import opened Ranking
  import opened Random
  import opened Tables
  import opened Services

  /** An entry of `nodos_osmnx_mapeo`: the nearest road vertex, its distance, and the node's own position. */
  datatype Anchor = Anchor(vertex: VertexId, meters: real, at: Coord)

  /** The mapping after the rows so far: each node whose nearest-vertex lookup succeeded is anchored. */
  function AnchorsOf(net: Option<RoadNetwork>, dist: DistanceFn, rows: seq<NodeRow>): map<NodeId, Anchor> {
    if rows == [] || net.None? then map[]
    else
      var m := AnchorsOf(net, dist, rows[..|rows| - 1]);
      var r := rows[|rows| - 1];
      match NearestVertex(net, dist, r.at)
      case None => m
      case Some(found) => m[r.id := Anchor(found.0, found.1, r.at)]
  }

  /**
   * A node is anchored exactly when some node-table row with its id has a
   * nearest vertex; the anchor of the last such row records that vertex, its
   * non-negative distance and the row's position.  Without a road network
   * nothing is anchored.
   */
  lemma {:induction false} AnchorsOfMeaning(net: Option<RoadNetwork>, dist: DistanceFn, rows: seq<NodeRow>, id: NodeId)
    ensures net.None? ==> AnchorsOf(net, dist, rows) == map[]
    ensures id in AnchorsOf(net, dist, rows) <==>
      exists i :: 0 <= i < |rows| && rows[i].id == id && NearestVertex(net, dist, rows[i].at).Some?
    ensures id in AnchorsOf(net, dist, rows) ==>
      exists i :: 0 <= i < |rows| && rows[i].id == id
        && var a := AnchorsOf(net, dist, rows)[id];
        && NearestVertex(net, dist, rows[i].at) == Some((a.vertex, a.meters))
        && a.at == rows[i].at && a.meters >= 0.0
    decreases |rows|
  {
    if rows != [] && net.Some? {
      var n := |rows| - 1;
      var front := rows[..n];
      AnchorsOfMeaning(net, dist, front, id);
      var r := rows[n];
      if r.id == id && NearestVertex(net, dist, r.at).Some? {
        var a := AnchorsOf(net, dist, rows)[id];
        assert NearestVertex(net, dist, rows[n].at) == Some((a.vertex, a.meters));
      } else {
        AnchorsOfOther(net, dist, rows, id);
        if exists i :: 0 <= i < |rows| && rows[i].id == id && NearestVertex(net, dist, rows[i].at).Some? {
          var i :| 0 <= i < |rows| && rows[i].id == id && NearestVertex(net, dist, rows[i].at).Some?;
          assert i < n && front[i] == rows[i];
        }
        if id in AnchorsOf(net, dist, front) {
          var i :| 0 <= i < |front| && front[i].id == id && NearestVertex(net, dist, front[i].at).Some?;
          assert rows[i] == front[i];
          var j :| 0 <= j < |front| && front[j].id == id
            && var a := AnchorsOf(net, dist, front)[id];
            && NearestVertex(net, dist, front[j].at) == Some((a.vertex, a.meters))
            && a.at == front[j].at && a.meters >= 0.0;
          assert rows[j] == front[j];
        }
      }
    }
  }

  /** A last row that does not anchor `id` leaves its anchor as the earlier rows set it. */
  lemma AnchorsOfOther(net: Option<RoadNetwork>, dist: DistanceFn, rows: seq<NodeRow>, id: NodeId)
    requires rows != [] && net.Some?
    requires rows[|rows| - 1].id != id || NearestVertex(net, dist, rows[|rows| - 1].at).None?
    ensures id in AnchorsOf(net, dist, rows) <==> id in AnchorsOf(net, dist, rows[..|rows| - 1])
    ensures id in AnchorsOf(net, dist, rows) ==> AnchorsOf(net, dist, rows)[id] == AnchorsOf(net, dist, rows[..|rows| - 1])[id]
  {
  }

  // Edge selection and attribute derivation of `crear_grafo`.

  /** An entry of `distancias_acopios`: a centre and the resolved route to it. */
  datatype Candidate = Candidate(centre: Site, route: Route)

  /** The sort key of `distancias_acopios`: the route's `distancia_metros`. */
  function CandidateMeters(c: Candidate): real {
    c.route.meters
  }

  /** The candidates of a parcel, one per centre in table order. */
  function Candidates(net: Option<RoadNetwork>, dist: DistanceFn, p: Parcel, centres: seq<Site>): (cs: seq<Candidate>)
    ensures |cs| == |centres|
    ensures forall j :: 0 <= j < |centres| ==> cs[j] == Candidate(centres[j], Resolve(net, dist, p.at, centres[j].at))
  {
    seq(|centres|, j requires 0 <= j < |centres| => Candidate(centres[j], Resolve(net, dist, p.at, centres[j].at)))
  }

  /** A speed rule whose speeds are all positive. */
  predicate PositiveRule(rule: SpeedRule) {
    match rule
    case Fixed(v) => v > 0.0
    case Drawn(b) => 0.0 < b.lo < b.hi
  }

  /**
   * An edge row built from a route: its endpoints and kind, the route's
   * length and points, the given surface, a speed the rule allows, and
   * attributes related as `WellFormed` demands.
   */
  ghost predicate IsRouteRow(row: EdgeRow, origin: NodeId, target: NodeId, kind: ConnectionKind,
                             route: Route, surface: Surface, rule: SpeedRule) {
    && row.origin == origin && row.target == target
    && row.attrs.kind == kind
    && row.attrs.meters == route.meters
    && row.attrs.surface == surface
    && SpeedFits(row.attrs.speedKmh, rule)
    && WellFormed(row.attrs)
    && row.attrs.realRoute
    && (row.attrs.routeCoords.None? <==> route.coords == [])
    && (row.attrs.routeCoords.Some? ==> row.attrs.routeCoords.value == route.coords)
  }

  /** The parcel-to-centre row for a candidate: surface and speed rule come from the route's first hop. */
  ghost predicate IsLinkRow(row: EdgeRow, p: Parcel, c: Candidate, net: Option<RoadNetwork>) {
    var t := BuilderTable(FirstHopClass(net, c.route.vertices));
    IsRouteRow(row, p.id, c.centre.id, ParcelToCentre, c.route, t.0, t.1)
  }

  /**
   * The rows of one parcel: between 2 and min(3, #centres) of them, built
   * from the first candidates of the stable sort by route length.
   */
  ghost predicate IsParcelLinks(rows: seq<EdgeRow>, p: Parcel, net: Option<RoadNetwork>, dist: DistanceFn, centres: seq<Site>) {
    var sorted := StableSortBy(Candidates(net, dist, p, centres), CandidateMeters);
    && 2 <= |rows| <= Min(3, |centres|)
    && forall t :: 0 <= t < |rows| ==> IsLinkRow(rows[t], p, sorted[t], net)
  }

  /** A row towards the plant from a node at the given position: paved, 60-80 km/h, along the resolved route. */
  ghost predicate IsPlantRow(row: EdgeRow, origin: NodeId, at: Coord, kind: ConnectionKind,
                             net: Option<RoadNetwork>, dist: DistanceFn, plant: Site) {
    IsRouteRow(row, origin, plant.id, kind, Resolve(net, dist, at, plant.at), Paved, Drawn(Band(60.0, 80.0)))
  }

  /** The trunk row of each centre, in table order. */
  ghost predicate IsTrunkRows(rows: seq<EdgeRow>, net: Option<RoadNetwork>, dist: DistanceFn, centres: seq<Site>, plant: Site) {
    && |rows| == |centres|
    && forall j :: 0 <= j < |centres| ==>
         IsPlantRow(rows[j], centres[j].id, centres[j].at, CentreToPlant, net, dist, plant)
  }

  /** The trunk rows of the first j centres and the row of the next centre are the trunk rows of the first j + 1. */
  lemma TrunkRowsSnoc(rows: seq<EdgeRow>, net: Option<RoadNetwork>, dist: DistanceFn, centres: seq<Site>, plant: Site,
                      j: nat, row: EdgeRow)
    requires j < |centres|
    requires IsTrunkRows(rows, net, dist, centres[..j], plant)
    requires IsPlantRow(row, centres[j].id, centres[j].at, CentreToPlant, net, dist, plant)
    ensures IsTrunkRows(rows + [row], net, dist, centres[..j + 1], plant)
  {
    var cs := centres[..j + 1];
    var rs := rows + [row];
    forall t | 0 <= t < |cs|
      ensures IsPlantRow(rs[t], cs[t].id, cs[t].at, CentreToPlant, net, dist, plant)
    {
      if t < j {
        assert rs[t] == rows[t] && cs[t] == centres[..j][t];
      }
    }
  }

  /** The parcels of more than 100 hectares, in table order. */
  function Large(parcels: seq<Parcel>): (r: seq<Parcel>)
    ensures |r| <= |parcels|
    ensures forall x :: x in r ==> x in parcels && x.area > 100.0
  {
    if parcels == [] then []
    else (if parcels[0].area > 100.0 then [parcels[0]] else []) + Large(parcels[1..])
  }

  /** What `sample(n=min(5, len(large)), random_state=seed)` may return: that many distinct positions. */
  predicate SampleOk(sample: seq<nat>, n: nat) {
    && |sample| == Min(5, n)
    && (forall j :: 0 <= j < |sample| ==> sample[j] < n)
    && (forall i, j :: 0 <= i < j < |sample| ==> sample[i] != sample[j])
  }

  /** The direct row of each sampled large parcel, in sample order. */
  ghost predicate IsDirectRows(rows: seq<EdgeRow>, net: Option<RoadNetwork>, dist: DistanceFn,
                               parcels: seq<Parcel>, plant: Site, sample: seq<nat>) {
    var large := Large(parcels);
    && |rows| == |sample|
    && forall j :: 0 <= j < |sample| ==> (sample[j] < |large| &&
         IsPlantRow(rows[j], large[sample[j]].id, large[sample[j]].at, ParcelToPlant, net, dist, plant))
  }

  /** The three groups of rows `crear_grafo` builds: the links of each parcel, the trunk rows and the direct rows. */
  ghost predicate IsEdgeRows(links: seq<seq<EdgeRow>>, trunk: seq<EdgeRow>, direct: seq<EdgeRow>,
                             net: Option<RoadNetwork>, dist: DistanceFn, parcels: seq<Parcel>, centres: seq<Site>,
                             plant: Site, sample: seq<nat>) {
    && |links| == |parcels|
    && (forall i :: 0 <= i < |parcels| ==> IsParcelLinks(links[i], parcels[i], net, dist, centres))
    && IsTrunkRows(trunk, net, dist, centres, plant)
    && IsDirectRows(direct, net, dist, parcels, plant, sample)
  }

  /** The rows of all parcels, concatenated in parcel order. */
  function Flatten<T>(ls: seq<seq<T>>): seq<T> {
    if ls == [] then [] else Flatten(ls[..|ls| - 1]) + ls[|ls| - 1]
  }

  ghost predicate AllWellFormed(rows: seq<EdgeRow>) {
    forall r :: 0 <= r < |rows| ==> WellFormed(rows[r].attrs)
  }

  lemma {:induction false} FlattenWellFormed(ls: seq<seq<EdgeRow>>)
    requires forall i :: 0 <= i < |ls| ==> AllWellFormed(ls[i])
    ensures AllWellFormed(Flatten(ls))
    decreases |ls|
  {
    if ls != [] {
      FlattenWellFormed(ls[..|ls| - 1]);
    }
  }

  lemma ConcatWellFormed(a: seq<EdgeRow>, b: seq<EdgeRow>)
    requires AllWellFormed(a) && AllWellFormed(b)
    ensures AllWellFormed(a + b)
  {
    forall r | 0 <= r < |a + b| ensures WellFormed((a + b)[r].attrs) {
      if r >= |a| {
        assert (a + b)[r] == b[r - |a|];
      }
    }
  }

  lemma LinksWellFormed(links: seq<seq<EdgeRow>>, net: Option<RoadNetwork>, dist: DistanceFn, parcels: seq<Parcel>, centres: seq<Site>)
    requires |links| == |parcels|
    requires forall i :: 0 <= i < |parcels| ==> IsParcelLinks(links[i], parcels[i], net, dist, centres)
    ensures AllWellFormed(Flatten(links))
  {
    forall i | 0 <= i < |links| ensures AllWellFormed(links[i]) {
      assert IsParcelLinks(links[i], parcels[i], net, dist, centres);
    }
    FlattenWellFormed(links);
  }

  lemma TrunkWellFormed(trunk: seq<EdgeRow>, net: Option<RoadNetwork>, dist: DistanceFn, centres: seq<Site>, plant: Site)
    requires IsTrunkRows(trunk, net, dist, centres, plant)
    ensures AllWellFormed(trunk)
  {
    forall r | 0 <= r < |trunk| ensures WellFormed(trunk[r].attrs) {
      assert IsPlantRow(trunk[r], centres[r].id, centres[r].at, CentreToPlant, net, dist, plant);
    }
  }

  lemma DirectWellFormed(direct: seq<EdgeRow>, net: Option<RoadNetwork>, dist: DistanceFn, parcels: seq<Parcel>, plant: Site, sample: seq<nat>)
    requires IsDirectRows(direct, net, dist, parcels, plant, sample)
    ensures AllWellFormed(direct)
  {
    var large := Large(parcels);
    forall r | 0 <= r < |direct| ensures WellFormed(direct[r].attrs) {
      assert IsPlantRow(direct[r], large[sample[r]].id, large[sample[r]].at, ParcelToPlant, net, dist, plant);
    }
  }

  /** The graph after inserting well-formed rows is valid, and has an edge exactly where the old graph or some row has one. */
  lemma InsertedEdges(g: DiGraph, rows: seq<EdgeRow>)
    requires Consistent(g) && EdgesWellFormed(g) && AllWellFormed(rows)
    ensures EdgesWellFormed(InsertRows(g, rows))
    ensures forall e :: e in InsertRows(g, rows).edges <==> e in g.edges || Names(rows, e)
  {
    InsertRowsWellFormed(g, rows);
    forall e
      ensures e in InsertRows(g, rows).edges <==> e in g.edges || Names(rows, e)
    {
      InsertRowsEdgeSet(g, rows, e);
    }
  }

  /**
   * A parcel is linked to its nearest centres: a centre it is not linked to
   * is at least as far along the road as every centre it is linked to.
   */
  lemma LinksAreNearest(rows: seq<EdgeRow>, p: Parcel, net: Option<RoadNetwork>, dist: DistanceFn, centres: seq<Site>, j: nat)
    requires IsParcelLinks(rows, p, net, dist, centres)
    requires j < |centres|
    requires forall t :: 0 <= t < |rows| ==> rows[t].target != centres[j].id
    ensures forall t :: 0 <= t < |rows| ==> rows[t].attrs.meters <= Resolve(net, dist, p.at, centres[j].at).meters
  {
    var cs := Candidates(net, dist, p, centres);
    var sorted := StableSortBy(cs, CandidateMeters);
    StableSortSameElements(sorted, cs, CandidateMeters);
    assert cs[j] in cs;
    var a :| 0 <= a < |sorted| && sorted[a] == cs[j];
    forall t | 0 <= t < |rows|
      ensures rows[t].target == sorted[t].centre.id && rows[t].attrs.meters == CandidateMeters(sorted[t])
    {
      assert IsLinkRow(rows[t], p, sorted[t], net);
    }
    assert sorted[a].centre.id == centres[j].id;
    assert a >= |rows|;
    forall t | 0 <= t < |rows|
      ensures rows[t].attrs.meters <= Resolve(net, dist, p.at, centres[j].at).meters
    {
      assert CandidateMeters(sorted[t]) <= CandidateMeters(sorted[a]);
    }
  }

  /** Direct rows leave from at most five parcels, each of more than 100 hectares. */
  lemma DirectRowsFromLargeParcels(rows: seq<EdgeRow>, net: Option<RoadNetwork>, dist: DistanceFn,
                                   parcels: seq<Parcel>, plant: Site, sample: seq<nat>)
    requires SampleOk(sample, |Large(parcels)|)
    requires IsDirectRows(rows, net, dist, parcels, plant, sample)
    ensures |rows| <= 5
    ensures forall j :: 0 <= j < |rows| ==>
      exists i :: 0 <= i < |parcels| && parcels[i].id == rows[j].origin && parcels[i].area > 100.0
  {
    var large := Large(parcels);
    forall j | 0 <= j < |rows|
      ensures exists i :: 0 <= i < |parcels| && parcels[i].id == rows[j].origin && parcels[i].area > 100.0
    {
      var x := large[sample[j]];
      assert x in large;
      var i :| 0 <= i < |parcels| && parcels[i] == x;
    }
  }

  /** The trunk rows give each centre of a table with distinct ids exactly one row, the one at its own position. */
  lemma OneTrunkRowPerCentre(rows: seq<EdgeRow>, net: Option<RoadNetwork>, dist: DistanceFn, centres: seq<Site>, plant: Site, j: nat)
    requires IsTrunkRows(rows, net, dist, centres, plant)
    requires forall a, b :: 0 <= a < b < |centres| ==> centres[a].id != centres[b].id
    requires j < |centres|
    ensures forall t :: 0 <= t < |rows| ==> (rows[t].origin == centres[j].id <==> t == j)
    ensures rows[j].target == plant.id && rows[j].attrs.kind == CentreToPlant
  {
    forall t | 0 <= t < |rows|
      ensures rows[t].origin == centres[j].id <==> t == j
    {
      assert IsRouteRow(rows[t], centres[t].id, plant.id, CentreToPlant, Resolve(net, dist, centres[t].at, plant.at),
                        Paved, Drawn(Band(60.0, 80.0)));
    }
    assert IsRouteRow(rows[j], centres[j].id, plant.id, CentreToPlant, Resolve(net, dist, centres[j].at, plant.at),
                      Paved, Drawn(Band(60.0, 80.0)));
  }

  /** The `distancias_acopios` list of a parcel before sorting: a resolved route to every centre, in table order. */
  method CandidatesOf(net: Option<RoadNetwork>, dist: DistanceFn, p: Parcel, centres: seq<Site>) returns (cs: seq<Candidate>)
    ensures cs == Candidates(net, dist, p, centres)
  {
    cs := [];
    for j := 0 to |centres|
      invariant cs == Candidates(net, dist, p, centres[..j])
    {
      var route := ResolveRoute(net, dist, p.at, centres[j].at);
      CandidatesSnoc(net, dist, p, centres, j);
      cs := cs + [Candidate(centres[j], route)];
    }
    assert centres[..|centres|] == centres;
  }

  /** The candidates for one more centre are the candidates so far and the route to that centre. */
  lemma CandidatesSnoc(net: Option<RoadNetwork>, dist: DistanceFn, p: Parcel, centres: seq<Site>, j: nat)
    requires j < |centres|
    ensures Candidates(net, dist, p, centres[..j + 1])
      == Candidates(net, dist, p, centres[..j]) + [Candidate(centres[j], Resolve(net, dist, p.at, centres[j].at))]
  {
    var a := Candidates(net, dist, p, centres[..j + 1]);
    var b := Candidates(net, dist, p, centres[..j]) + [Candidate(centres[j], Resolve(net, dist, p.at, centres[j].at))];
    assert |a| == |b|;
    forall t | 0 <= t <= j
      ensures a[t] == b[t]
    {
      assert centres[..j + 1][t] == centres[t];
      if t < j {
        assert centres[..j][t] == centres[t];
      }
    }
  }

  /**
   * `SistemaGrafoAgricola` after its data and road network are loaded: the
   * supply graph `G_agricola`, the anchors `nodos_osmnx_mapeo` and the edge
   * table `df_aristas` are the state its methods update.
   */
  class AgriculturalSystem {
    const dist: DistanceFn
    const rng: Rng
    const network: Option<RoadNetwork>
    const parcels: seq<Parcel>
    const centres: seq<Site>
    const plant: Site
    var graph: DiGraph
    var anchors: map<NodeId, Anchor>
    var edgeTable: seq<EdgeRow>

    /** The graph is a consistent directed graph whose every edge is well-formed. */
    ghost predicate Valid()
      reads this
    {
      Consistent(graph) && EdgesWellFormed(graph)
    }

    constructor (dist: DistanceFn, stream: nat -> Unit, network: Option<RoadNetwork>,
                 parcels: seq<Parcel>, centres: seq<Site>, plant: Site)
      ensures this.dist == dist && this.network == network
      ensures this.parcels == parcels && this.centres == centres && this.plant == plant
      ensures fresh(rng) && rng.stream == stream && rng.drawn == 0
      ensures graph == Empty && anchors == map[] && edgeTable == []
      ensures Valid()
    {
      this.dist := dist;
      this.network := network;
      this.parcels := parcels;
      this.centres := centres;
      this.plant := plant;
      rng := new Rng(stream);
      graph := Empty;
      anchors := map[];
      edgeTable := [];
      EmptyConsistent();
    }

    /** `mapear_nodos_a_osmnx`: rebuilds the anchors from the node table. */
    method MapNodesToNetwork()
      modifies this
      ensures anchors == AnchorsOf(network, dist, NodeTable(parcels, centres, plant))
      ensures graph == old(graph) && edgeTable == old(edgeTable)
    {
      anchors := map[];
      if network.None? {
        return;
      }
      var table := NodeTable(parcels, centres, plant);
      for i := 0 to |table|
        invariant anchors == AnchorsOf(network, dist, table[..i])
        invariant graph == old(graph) && edgeTable == old(edgeTable)
      {
        assert table[..i + 1][..i] == table[..i];
        var found := NearestVertex(network, dist, table[i].at);
        if found.Some? {
          anchors := anchors[table[i].id := Anchor(found.value.0, found.value.1, table[i].at)];
        }
      }
      assert table[..|table|] == table;
    }

    /** Builds one edge row from a route: draws the speed when the rule says so, then the rain accessibility. */
    method RouteEdge(origin: NodeId, target: NodeId, kind: ConnectionKind, route: Route, surface: Surface, rule: SpeedRule)
      returns (row: EdgeRow)
      requires PositiveRule(rule)
      modifies rng
      ensures IsRouteRow(row, origin, target, kind, route, surface, rule)
    {
      var speed: real;
      match rule {
        case Fixed(v) => speed := v;
        case Drawn(b) => speed := rng.Uniform(b.lo, b.hi);
      }
      var band := RainBand(kind, surface);
      var access := rng.Uniform(band.lo, band.hi);
      row := EdgeRow(origin, target, MakeAttrs(kind, route.meters, surface, speed, access, route.coords));
    }

    /** The rows to the first k candidates, in order. */
    method LinkFirst(p: Parcel, sorted: seq<Candidate>, k: nat) returns (rows: seq<EdgeRow>)
      requires k <= |sorted|
      modifies rng
      ensures |rows| == k
      ensures forall i :: 0 <= i < k ==> IsLinkRow(rows[i], p, sorted[i], network)
    {
      rows := [];
      for t := 0 to k
        invariant |rows| == t
        invariant forall i :: 0 <= i < t ==> IsLinkRow(rows[i], p, sorted[i], network)
      {
        var c := sorted[t];
        var table := BuilderTable(FirstHopClass(network, c.route.vertices));
        var row := RouteEdge(p.id, c.centre.id, ParcelToCentre, c.route, table.0, table.1);
        ghost var prev := rows;
        rows := rows + [row];
        forall i | 0 <= i <= t
          ensures IsLinkRow(rows[i], p, sorted[i], network)
        {
          if i < t {
            assert rows[i] == prev[i];
          }
        }
      }
    }

    /**
     * The parcel-to-centre rows of one parcel: resolve a route to every
     * centre, sort by route length, draw k with `randint(2, min(4, n + 1))`
     * and build rows for the first k; `None` where numpy raises on an empty range.
     */
    method LinkParcel(p: Parcel) returns (rows: Option<seq<EdgeRow>>)
      modifies rng
      ensures rows.None? <==> |centres| < 2
      ensures rows.Some? ==> IsParcelLinks(rows.value, p, network, dist, centres)
    {
      var candidates := CandidatesOf(network, dist, p, centres);
      var sorted := StableSortBy(candidates, CandidateMeters);
      var k := rng.RandInt(2, Min(4, |sorted| + 1));
      if k.None? {
        return None;
      }
      var out := LinkFirst(p, sorted, k.value);
      return Some(out);
    }

    /** The `add_node` loop over the node table. */
    method AddNodeTable()
      requires Valid()
      modifies this
      ensures Valid()
      ensures graph == AddNodes(old(graph), NodeTable(parcels, centres, plant))
      ensures anchors == old(anchors) && edgeTable == old(edgeTable)
    {
      var table := NodeTable(parcels, centres, plant);
      var g0 := graph;
      var g := g0;
      for i := 0 to |table|
        invariant g == AddNodes(g0, table[..i])
      {
        ghost var front := table[..i + 1];
        assert front[..i] == table[..i] && front[i] == table[i];
        g := AddNode(g, table[i].id, Attrs(table[i]));
      }
      assert table[..|table|] == table;
      graph := g;
    }

    /** The parcel-to-centre rows of every parcel, in parcel order; `None` where some parcel's draw raises. */
    method LinkParcels() returns (links: Option<seq<seq<EdgeRow>>>)
      modifies rng
      ensures links.None? <==> |parcels| > 0 && |centres| < 2
      ensures links.Some? ==> |links.value| == |parcels|
      ensures links.Some? ==> forall i :: 0 <= i < |parcels| ==> IsParcelLinks(links.value[i], parcels[i], network, dist, centres)
    {
      var ls: seq<seq<EdgeRow>> := [];
      for i := 0 to |parcels|
        invariant |ls| == i
        invariant i > 0 ==> |centres| >= 2
        invariant forall t :: 0 <= t < i ==> IsParcelLinks(ls[t], parcels[t], network, dist, centres)
      {
        var l := LinkParcel(parcels[i]);
        if l.None? {
          return None;
        }
        ghost var prev := ls;
        ls := ls + [l.value];
        forall t | 0 <= t <= i
          ensures IsParcelLinks(ls[t], parcels[t], network, dist, centres)
        {
          if t < i {
            assert ls[t] == prev[t];
          }
        }
      }
      return Some(ls);
    }

    /** A row towards the plant: the resolved route, paved, a speed drawn from [60, 80), then the rain accessibility. */
    method PlantEdge(origin: NodeId, at: Coord, kind: ConnectionKind) returns (row: EdgeRow)
      modifies rng
      ensures IsPlantRow(row, origin, at, kind, network, dist, plant)
    {
      var route := ResolveRoute(network, dist, at, plant.at);
      row := RouteEdge(origin, plant.id, kind, route, Paved, Drawn(Band(60.0, 80.0)));
    }

    /** The centre-to-plant rows: one per centre, in table order. */
    method TrunkRows() returns (trunk: seq<EdgeRow>)
      modifies rng
      ensures IsTrunkRows(trunk, network, dist, centres, plant)
    {
      trunk := [];
      for j := 0 to |centres|
        invariant IsTrunkRows(trunk, network, dist, centres[..j], plant)
      {
        var row := PlantEdge(centres[j].id, centres[j].at, CentreToPlant);
        TrunkRowsSnoc(trunk, network, dist, centres, plant, j, row);
        trunk := trunk + [row];
      }
      assert centres[..|centres|] == centres;
    }

    /** The direct rows of the sampled large parcels, in sample order. */
    method DirectRows(sample: seq<nat>) returns (direct: seq<EdgeRow>)
      requires SampleOk(sample, |Large(parcels)|)
      modifies rng
      ensures IsDirectRows(direct, network, dist, parcels, plant, sample)
    {
      var large := Large(parcels);
      direct := [];
      for j := 0 to |sample|
        invariant |direct| == j
        invariant forall t :: 0 <= t < j ==> IsPlantRow(direct[t], large[sample[t]].id, large[sample[t]].at, ParcelToPlant, network, dist, plant)
      {
        var p := large[sample[j]];
        var row := PlantEdge(p.id, p.at, ParcelToPlant);
        ghost var prev := direct;
        direct := direct + [row];
        forall t | 0 <= t <= j
          ensures IsPlantRow(direct[t], large[sample[t]].id, large[sample[t]].at, ParcelToPlant, network, dist, plant)
        {
          if t < j {
            assert direct[t] == prev[t];
          }
        }
      }
    }

    /** The `add_edge` loop over the edge table. */
    method InsertEdgeTable()
      requires Valid()
      requires AllWellFormed(edgeTable)
      modifies this
      ensures Valid()
      ensures graph == InsertRows(old(graph), edgeTable)
      ensures anchors == old(anchors) && edgeTable == old(edgeTable)
      ensures forall e :: e in graph.edges <==> e in old(graph).edges || Names(edgeTable, e)
    {
      var table := edgeTable;
      var g := graph;
      for r := 0 to |table|
        invariant Consistent(g)
        invariant InsertRows(g, table[r..]) == InsertRows(graph, table)
      {
        assert table[r..][1..] == table[r + 1..];
        g := AddEdge(g, table[r]);
      }
      assert table[|table|..] == [];
      InsertedEdges(graph, table);
      graph := g;
    }

    /**
     * The rows of `aristas`: parcel-to-centre rows of every parcel, then one
     * trunk row per centre, then the direct rows of the sampled large
     * parcels; `None` where a parcel's `randint` raises.
     */
    method BuildEdgeRows(sample: seq<nat>) returns (links: Option<seq<seq<EdgeRow>>>, trunk: seq<EdgeRow>, direct: seq<EdgeRow>)
      requires SampleOk(sample, |Large(parcels)|)
      modifies rng
      ensures links.None? <==> |parcels| > 0 && |centres| < 2
      ensures links.Some? ==> IsEdgeRows(links.value, trunk, direct, network, dist, parcels, centres, plant, sample)
      ensures links.Some? ==> AllWellFormed(Flatten(links.value) + trunk + direct)
    {
      links := LinkParcels();
      if links.None? {
        return links, [], [];
      }
      trunk := TrunkRows();
      direct := DirectRows(sample);
      LinksWellFormed(links.value, network, dist, parcels, centres);
      TrunkWellFormed(trunk, network, dist, centres, plant);
      DirectWellFormed(direct, network, dist, parcels, plant, sample);
      ConcatWellFormed(Flatten(links.value), trunk);
      ConcatWellFormed(Flatten(links.value) + trunk, direct);
    }

    /** Builds the rows, stores them as the edge table and adds them to the graph; on failure nothing changes. */
    method StoreEdges(sample: seq<nat>) returns (ok: bool, links: seq<seq<EdgeRow>>, trunk: seq<EdgeRow>, direct: seq<EdgeRow>)
      requires Valid()
      requires SampleOk(sample, |Large(parcels)|)
      modifies this, rng
      ensures Valid()
      ensures anchors == old(anchors)
      ensures ok <==> |parcels| == 0 || |centres| >= 2
      ensures !ok ==> graph == old(graph) && edgeTable == old(edgeTable)
      ensures ok ==> IsEdgeRows(links, trunk, direct, network, dist, parcels, centres, plant, sample)
      ensures ok ==> edgeTable == Flatten(links) + trunk + direct
      ensures ok ==> graph == InsertRows(old(graph), edgeTable)
    {
      var ls;
      ls, trunk, direct := BuildEdgeRows(sample);
      if ls.None? {
        return false, [], [], [];
      }
      links := ls.value;
      edgeTable := Flatten(links) + trunk + direct;
      InsertEdgeTable();
      ok := true;
    }

    /**
     * `crear_grafo`: adds the node table to the graph, rebuilds the anchors,
     * builds the parcel-to-centre rows, one trunk row per centre and the
     * direct rows of the sampled large parcels, stores them as the edge table
     * and adds them to the graph.  `ok` is false where `randint` raises
     * (some parcel and fewer than two centres); nodes and anchors are then
     * already updated and the edge table is left as it was.
     */
    method CreateGraph(sample: seq<nat>) returns (ok: bool, links: seq<seq<EdgeRow>>, trunk: seq<EdgeRow>, direct: seq<EdgeRow>)
      requires Valid()
      requires SampleOk(sample, |Large(parcels)|)
      modifies this, rng
      ensures Valid()
      ensures anchors == AnchorsOf(network, dist, NodeTable(parcels, centres, plant))
      ensures ok <==> |parcels| == 0 || |centres| >= 2
      ensures !ok ==> graph == AddNodes(old(graph), NodeTable(parcels, centres, plant)) && edgeTable == old(edgeTable)
      ensures ok ==> IsEdgeRows(links, trunk, direct, network, dist, parcels, centres, plant, sample)
      ensures ok ==> edgeTable == Flatten(links) + trunk + direct
      ensures ok ==> graph == InsertRows(AddNodes(old(graph), NodeTable(parcels, centres, plant)), edgeTable)
    {
      AddNodeTable();
      MapNodesToNetwork();
      ok, links, trunk, direct := StoreEdges(sample);
    }

    /** `calcular_ruta_entre_nodos(n1, n2)`. */
    method RouteBetweenNodes(n1: NodeId, n2: NodeId) returns (r: Option<RouteInfo>)
      ensures r == RouteBetween(graph, network, dist, n1, n2)
    {
      if n1 !in graph.nodes || n2 !in graph.nodes {
        return None;
      }
      var a1, a2 := graph.nodes[n1], graph.nodes[n2];
      if a1.at.None? || a2.at.None? {
        return None;
      }
      var route := ResolveRoute(network, dist, a1.at.value, a2.at.value);
      return Some(Summary(route, n1, n2));
    }

    /**
     * `calcular_rutas_optimas_por_produccion(pid, criterio, considerar_lluvia)`,
     * given the model's raw production estimate for `pid`.
     */
    method RankOutgoing(pid: NodeId, criterion: string, rain: bool, predicted: real) returns (r: RankingResult)
      requires Valid()
      ensures r == RankRoutes(graph, parcels, pid, ParseCriterion(criterion), rain, predicted)
    {
      if pid !in graph.nodes {
        return NodeAbsent;
      }
      var found := FindParcel(parcels, pid);
      if found.None? {
        return NotAParcel;
      }
      var production := ClampedProduction(predicted);
      var c := ParseCriterion(criterion);
      var s := graph.succ[pid];
      ghost var all := OutgoingEntries(graph, pid, c, production, rain);
      var entries: seq<RankedRoute> := [];
      for j := 0 to |s|
        invariant |entries| == j
        invariant forall k :: 0 <= k < j ==> entries[k] == all[k]
      {
        entries := entries + [EntryAt(graph, pid, s[j], c, production, rain)];
      }
      assert entries == all;
      return Ranked(StableSortBy(entries, EntryWeight));
    }

    /**
     * `priorizar_parcelas_por_rendimiento(top_n)`, given the model's raw
     * production estimate for each parcel.
     */
    method PrioritizeParcels(topN: int, predicted: seq<real>) returns (out: seq<Priority>)
      requires |predicted| == |parcels|
      ensures out == Prioritized(parcels, predicted, topN)
    {
      var entries: seq<Priority> := [];
      for i := 0 to |parcels|
        invariant entries == PriorityEntries(parcels[..i], predicted[..i])
      {
        assert parcels[..i + 1][..i] == parcels[..i] && predicted[..i + 1][..i] == predicted[..i];
        var q := ClampedProduction(predicted[i]);
        if q != 0.0 {
          entries := entries + [PriorityOf(parcels[i], q)];
        }
      }
      assert parcels[..|parcels|] == parcels && predicted[..|predicted|] == predicted;
      var sorted := StableSortBy(entries, NegatedPrediction);
      out := sorted[..PrefixLen(|sorted|, topN)];
    }
  }
}
