/**
 * The attributes `crear_grafo` derives for each edge of the supply graph:
 * distance, travel time, fuel cost per ton, road surface, speed and rain
 * accessibility, and the first-hop road-class table it uses to choose the
 * surface and speed band of a parcel-to-centre edge.
 */
module Edges {
  import opened Wrappers
  import opened Geo
  import opened Roads
  import opened Routes

  /** Node ids of the supply graph ("PARCELA_001", "ACOPIO_01", ...). */
  type NodeId = string

  /** `tipo_conexion`: "parcela_acopio", "acopio_planta", "parcela_planta_directa". */
  datatype ConnectionKind = ParcelToCentre | CentreToPlant | ParcelToPlant

  /**
   * The attributes stored on a supply-graph edge: `distancia_metros`,
   * `distancia_km`, `tiempo_segundos`, `tiempo_minutos`,
   * `costo_por_ton_dolares`, `tipo_camino`, `velocidad_promedio_kmh`,
   * `accesibilidad_lluvia`, `tipo_conexion`, `usar_ruta_real` and
   * `coordenadas_ruta` (`None` when the route has no points).
   */
  datatype EdgeAttrs = EdgeAttrs(
    meters: real,
    km: real,
    seconds: real,
    minutes: real,
    costPerTon: real,
    surface: Surface,
    speedKmh: real,
    rainAccess: real,
    kind: ConnectionKind,
    realRoute: bool,
    routeCoords: Option<seq<Coord>>)

  /** One row of `df_aristas`: an edge's endpoints and attributes. */
  datatype EdgeRow = EdgeRow(origin: NodeId, target: NodeId, attrs: EdgeAttrs)

  /** A half-open interval [lo, hi), the range of `np.random.uniform(lo, hi)`. */
  datatype Band = Band(lo: real, hi: real)

  predicate InBand(x: real, b: Band) {
    b.lo <= x < b.hi
  }

  /** Dollars of fuel per ton and kilometre: 0.15 from a parcel to a centre, 0.12 towards the plant. */
  function FuelRate(kind: ConnectionKind): real {
    if kind == ParcelToCentre then 0.15 else 0.12
  }

  /** The cost surcharge of a parcel-to-centre edge: 30% on dirt, 10% on gravel; none on edges towards the plant. */
  function SurfacePenalty(kind: ConnectionKind, surface: Surface): real {
    if kind != ParcelToCentre then 1.0
    else match surface
      case Dirt => 1.3
      case Gravel => 1.1
      case Paved => 1.0
  }

  /** The band `accesibilidad_lluvia` is drawn from. */
  function RainBand(kind: ConnectionKind, surface: Surface): Band {
    if kind != ParcelToCentre then Band(0.9, 1.0)
    else match surface
      case Paved => Band(0.85, 1.0)
      case Gravel => Band(0.5, 0.85)
      case Dirt => Band(0.2, 0.6)
  }

  /**
   * The relations among the attributes of an edge: kilometres are metres over
   * 1000, the time is the time to cover that distance at the edge's (positive)
   * speed, the cost is distance times the fuel rate and surcharge, and the
   * rain accessibility lies in its band.
   */
  ghost predicate WellFormed(a: EdgeAttrs) {
    && a.speedKmh > 0.0
    && a.km == a.meters / 1000.0
    && a.seconds == a.km / a.speedKmh * 3600.0
    && a.minutes == a.seconds / 60.0
    && a.costPerTon == a.km * FuelRate(a.kind) * SurfacePenalty(a.kind, a.surface)
    && InBand(a.rainAccess, RainBand(a.kind, a.surface))
  }

  /** The attributes `crear_grafo` computes for an edge of the given length, surface, speed and accessibility draw. */
  function MakeAttrs(kind: ConnectionKind, meters: real, surface: Surface, speed: real, access: real, coords: seq<Coord>): (a: EdgeAttrs)
    requires speed > 0.0 && InBand(access, RainBand(kind, surface))
    ensures WellFormed(a)
    ensures a.kind == kind && a.meters == meters && a.surface == surface && a.speedKmh == speed && a.rainAccess == access
    ensures a.realRoute
    ensures a.routeCoords.None? <==> coords == []
    ensures a.routeCoords.Some? ==> a.routeCoords.value == coords
  {
    var km := meters / 1000.0;
    var seconds := km / speed * 3600.0;
    EdgeAttrs(meters, km, seconds, seconds / 60.0, km * FuelRate(kind) * SurfacePenalty(kind, surface),
              surface, speed, access, kind, true, if coords == [] then None else Some(coords))
  }

  /** Every edge can be used in the rain: its accessibility is strictly between 0 and 1. */
  lemma RainAccessOpenUnit(a: EdgeAttrs)
    requires WellFormed(a)
    ensures 0.0 < a.rainAccess < 1.0
  {
  }

  /** The stored time is the time to cover the edge at its speed: minutes times speed is 60 times kilometres. */
  lemma TimeMatchesSpeed(a: EdgeAttrs)
    requires WellFormed(a)
    ensures a.minutes * a.speedKmh == a.km * 60.0
  {
    calc {
      a.minutes * a.speedKmh;
      (a.km / a.speedKmh * 3600.0 / 60.0) * a.speedKmh;
      a.km * 60.0;
    }
  }

  /** Of two parcel-to-centre edges of equal length, a worse surface never costs less. */
  lemma CostRisesWithWorseSurface(a: EdgeAttrs, b: EdgeAttrs)
    requires WellFormed(a) && WellFormed(b)
    requires a.kind == ParcelToCentre && b.kind == ParcelToCentre && a.meters == b.meters && a.meters >= 0.0
    requires a.surface == Paved || (a.surface == Gravel && b.surface != Paved) || b.surface == Dirt
    ensures a.costPerTon <= b.costPerTon
  {
  }

  // The first-hop road-class table of `crear_grafo`.

  /**
   * The three classes the table distinguishes, and the case where there is no
   * first hop to read (fewer than two path vertices, or the lookup raising).
   */
  datatype HopClass = TrunkRoad | LocalRoad | MinorRoad | NoFirstHop

  /** The road class named by a `highway` attribute: a list gives its first entry, and an empty list or missing attribute gives "". */
  function TagName(tag: Option<HighwayTag>): (h: string)
    ensures tag.None? ==> h == ""
    ensures tag.Some? && tag.value.Tag? ==> h == tag.value.name
    ensures tag.Some? && tag.value.TagList? ==> h == (if tag.value.names == [] then "" else tag.value.names[0])
  {
    match tag
    case None => ""
    case Some(Tag(h)) => h
    case Some(TagList(hs)) => if hs == [] then "" else hs[0]
  }

  const TrunkClasses: seq<string> := ["motorway", "trunk", "primary", "secondary"]
  const LocalClasses: seq<string> := ["tertiary", "unclassified", "residential"]

  function ClassOfName(h: string): (c: HopClass)
    ensures c == TrunkRoad <==> h in TrunkClasses
    ensures c == LocalRoad <==> h in LocalClasses
    ensures c == MinorRoad <==> h !in TrunkClasses && h !in LocalClasses
  {
    if h in TrunkClasses then TrunkRoad
    else if h in LocalClasses then LocalRoad
    else MinorRoad
  }

  /**
   * The first-hop class as the source computes it: indexing the multigraph
   * `G[n1][n2]` yields the parallel edges keyed by edge key, so looking up
   * "highway" in that mapping always finds nothing and gives "".
   */
  function FirstHopClassAsWritten(net: Option<RoadNetwork>, vertices: seq<VertexId>): HopClass {
    if |vertices| <= 1 || net.None? || FirstEdge(net.value, vertices[0], vertices[1]).None? then NoFirstHop
    else ClassOfName("")
  }

  /** The first-hop class the table is evidently meant to see: that of the first parallel edge of the first hop. */
  function FirstHopClass(net: Option<RoadNetwork>, vertices: seq<VertexId>): (c: HopClass)
    ensures c == NoFirstHop <==> |vertices| <= 1 || net.None? || FirstEdge(net.value, vertices[0], vertices[1]).None?
    ensures c != NoFirstHop ==> c == ClassOfName(TagName(FirstEdge(net.value, vertices[0], vertices[1]).value.highway))
  {
    if |vertices| <= 1 || net.None? then NoFirstHop
    else
      match FirstEdge(net.value, vertices[0], vertices[1])
      case None => NoFirstHop
      case Some(e) => ClassOfName(TagName(e.highway))
  }

  /** How `velocidad_promedio` is set: a constant, or a uniform draw from a band. */
  datatype SpeedRule = Fixed(speed: real) | Drawn(band: Band)

  predicate SpeedFits(speed: real, rule: SpeedRule) {
    match rule
    case Fixed(v) => speed == v
    case Drawn(b) => InBand(speed, b)
  }

  /** The surface and speed rule of a parcel-to-centre edge, by first-hop class. */
  function BuilderTable(c: HopClass): (t: (Surface, SpeedRule))
    ensures t.0 == Gravel <==> c == MinorRoad
    ensures t.0 != Dirt
    ensures t.1.Drawn? ==> 30.0 <= t.1.band.lo < t.1.band.hi <= 80.0
    ensures t.1.Fixed? ==> t.1.speed == 50.0
  {
    match c
    case TrunkRoad => (Paved, Drawn(Band(60.0, 80.0)))
    case LocalRoad => (Paved, Drawn(Band(40.0, 60.0)))
    case MinorRoad => (Gravel, Drawn(Band(30.0, 50.0)))
    case NoFirstHop => (Paved, Fixed(50.0))
  }

  /**
   * As written, the table never sees a road class: every parcel-to-centre
   * edge whose route has a first hop is labelled gravel with a 30-50 km/h
   * speed, whatever that hop's `highway` attribute says.
   */
  lemma AsWrittenIgnoresHighway(net: Option<RoadNetwork>, vertices: seq<VertexId>)
    ensures FirstHopClassAsWritten(net, vertices) in {MinorRoad, NoFirstHop}
    ensures FirstHopClassAsWritten(net, vertices) == NoFirstHop <==> FirstHopClass(net, vertices) == NoFirstHop
    ensures FirstHopClassAsWritten(net, vertices) != NoFirstHop ==>
      BuilderTable(FirstHopClassAsWritten(net, vertices)) == (Gravel, Drawn(Band(30.0, 50.0)))
  {
  }

  /** A two-vertex road network whose single edge is a motorway. */
  function MotorwayNetwork(): RoadNetwork {
    RoadNetwork(
      map[1 := VertexData(Some(32.7), Some(-114.6)), 2 := VertexData(Some(32.71), Some(-114.61))],
      map[(1, 2) := [EdgeData(Some(1500.0), Some(Tag("motorway")))]],
      (p: Coord) => Some(1),
      (u: VertexId, v: VertexId) => Some([u, v]))
  }

  /**
   * On a route whose first hop is a motorway, the source labels the edge
   * gravel at 30-50 km/h, while the table it evidently intends gives a paved
   * edge at 60-80 km/h.
   */
  lemma MotorwayLabelledGravel()
    ensures BuilderTable(FirstHopClassAsWritten(Some(MotorwayNetwork()), [1, 2])) == (Gravel, Drawn(Band(30.0, 50.0)))
    ensures BuilderTable(FirstHopClass(Some(MotorwayNetwork()), [1, 2])) == (Paved, Drawn(Band(60.0, 80.0)))
  {
    var g := MotorwayNetwork();
    assert FirstEdge(g, 1, 2) == Some(EdgeData(Some(1500.0), Some(Tag("motorway"))));
  }
}
