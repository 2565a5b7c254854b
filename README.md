# Agricultural supply graph: route engine and graph builder

This project is a Dafny model of the route engine and supply-graph builder of
`SistemaGrafoAgricola` (`agricultural_graph.py`). The system links oil-palm
parcels to collection centres and to an extraction plant.

The model covers these parts:

- **Route resolution.** `calcular_ruta_osmnx` resolves a road route between
  two points. It uses the nearest road vertices and the shortest path between
  them. It adds synthetic dirt "access" segments at ends that lie more than
  10 m from the network. It falls back to a fully synthetic straight-line route
  when there is no network, a lookup fails, an exception is raised or there is
  no path.
- **Synthetic segments.** `_crear_segmento_sintetico` and
  `_crear_ruta_sintetica` interpolate a straight line, one point about every
  200 m. `_extender_coordenadas` splices polylines.
- **Graph builder.** `crear_grafo` and `mapear_nodos_a_osmnx`:
  - add the node table to the directed graph and anchor each node to its
    nearest road vertex;
  - link every parcel to its k nearest centres, with k drawn from 2..min(3, #centres);
  - link every centre to the plant;
  - link a sample of at most five large parcels (more than 100 ha) directly to
    the plant.

  Each edge gets its distance, time, cost per ton, surface, speed and rain
  accessibility.
- **Queries.**
  - `calcular_ruta_entre_nodos` summarises the route between two nodes.
  - `calcular_rutas_optimas_por_produccion` ranks a parcel's outgoing edges
    by criterion, optionally adjusted for rain.
  - `priorizar_parcelas_por_rendimiento` lists parcels by predicted
    production, best first.

How the external pieces are modelled:

- **Distances.** Coordinates and distances are `real`. The haversine distance
  is a parameter, an arbitrary non-negative function.
- **Road network.** It is a value: vertex positions and the parallel edges'
  `length` and `highway` attributes. Two oracles stand in for the library
  calls: nearest-vertex lookup and shortest path.
- **Randomness.** numpy's random state is an `Rng` object over a fixed stream
  of unit draws. `uniform` and `randint` consume the stream in source order.
- **Sample.** The pandas `sample` of large parcels is a parameter. It is
  constrained to `min(5, n)` distinct positions.
- **Production estimate.** The machine-learning estimate is an input to the
  queries.

Modules:

| module | contents |
|---|---|
| `Geo`, `Roads`, `Routes` | coordinates, the road network with its oracles, route records |
| `Polylines` | the splice helper |
| `Synthetic` | synthetic segments and routes |
| `Resolver` | the resolver as a specification `Resolve`, and the imperative `ResolveRoute` proved equal to it |
| `Edges` | edge attributes and the builder's first-hop class table |
| `SupplyGraph` | the networkx `DiGraph` value and its `add_node`/`add_edge` semantics |
| `Random` | the random state |
| `Sorting` | Python's stable sort |
| `Tables` | input tables and the node table |
| `Ranking` | weight formulas |
| `Services` | query specifications |
| `Agriculture` | the `AgriculturalSystem` class: the mutable state (graph, anchors, edge table) and the builder and query methods |

## Model

| member | source | states |
|---|---|---|
| Polylines.Spliced | agricultural_graph.py:1099-1108 | The old list is always a prefix of the result. The result grows by all of the new polyline, or by one point fewer exactly when both are non-empty and the join point repeats. |
| Polylines.SplicedTail | agricultural_graph.py:1099-1108 | What follows the old list is exactly the new polyline, without its first point when that point repeats the old last point. |
| Polylines.SplicedEnds | agricultural_graph.py:1099-1108 | Splicing into an empty list yields the new polyline. A non-empty list keeps its first point. The result ends where a non-empty new polyline ends. |
| Polylines.Polyline.Extend | agricultural_graph.py:1099-1108 | The in-place extension leaves exactly the spliced list. |
| Synthetic.Intervals | agricultural_graph.py:1030 | The interval count is max(2, ⌊d/200⌋): at least 2, above d/200 − 1, and at most d/200 unless it is 2. |
| Synthetic.Interpolated | agricultural_graph.py:1033-1037 | There are n+1 points, and point i is at t = i/n on the straight line. |
| Synthetic.InterpolatedEnds | agricultural_graph.py:1033-1037 | The first point is exactly the origin and the last exactly the destination. |
| Synthetic.SyntheticPiece | agricultural_graph.py:1025-1044 | A segment has `max(2, ⌊d/200⌋)+1` points, runs from the origin to the destination and records the great-circle distance as its length. |
| Synthetic.SyntheticPieceEvenlySpaced | agricultural_graph.py:1033-1037 | Consecutive points are one n-th of the coordinate difference apart. |
| Synthetic.CreateSyntheticSegment | agricultural_graph.py:1025-1044 | The point-appending loop builds exactly the specified segment. |
| Synthetic.SyntheticRoute | agricultural_graph.py:1046-1065 | The fully synthetic route is not real, is dirt and is flagged synthetic. It has exactly one synthetic segment and no road vertices. Its length is the great-circle distance and its km is metres/1000. |
| Roads.VertexCoord | agricultural_graph.py:1149-1156 | A vertex position exists exactly when the vertex and both its `y` and `x` attributes exist. |
| Roads.FirstEdge | agricultural_graph.py:1164-1166 | The first parallel edge is returned exactly when the hop has edge data. |
| Roads.NearestVertex | agricultural_graph.py:1005-1023 | The result is `None` without a network, when the index raises, or when the vertex is unknown. Otherwise it is the oracle's vertex at a non-negative distance. |
| Resolver.RoadSurface | agricultural_graph.py:1171-1183 | The surface is paved exactly for the six paved classes, gravel exactly for unclassified/service, and dirt otherwise. |
| Resolver.HopSurface | agricultural_graph.py:1168-1183 | A list tag uses its first class. A missing tag is dirt. An empty list raises. |
| Resolver.WalkFailurePersists | agricultural_graph.py:1144-1183 | Once a hop iteration has raised, the loop's outcome is the exception. |
| Resolver.PathLengthSnoc | agricultural_graph.py:1163-1167 | The path length grows by the new hop's length. |
| Resolver.WalkHopsMeaning | agricultural_graph.py:1144-1183 | After k hops the walk holds the k+1 vertex positions, the sum of hop lengths (0 where absent) and the surface of the last hop with edge data. |
| Resolver.WalkPath | agricultural_graph.py:1144-1183 | The hop loop computes the specified walk, or reports the exception. |
| Resolver.WalkWholePath | agricultural_graph.py:1144-1183 | The whole walk's length is the path length and its surface is the last-hop surface. Its points are the positions of all path vertices, and it is empty for a one-vertex path. |
| Resolver.Access | agricultural_graph.py:1110-1120 | No access segment is built within 10 m. Raising (KeyError) happens exactly when one is needed and the vertex has no position. |
| Resolver.AccessBuilt | agricultural_graph.py:1110-1130 | A built access segment exists exactly beyond 10 m, is dirt, and has the great-circle length between the point and its vertex. |
| Resolver.AssembleSegments | agricultural_graph.py:1124-1130 | The segments are ordered [origin access?, network segment, destination access?]. Only the network segment is non-synthetic. The route is flagged synthetic exactly when an access segment exists. |
| Resolver.AssembleEnds | agricultural_graph.py:1186-1206 | An assembled polyline starts at the origin access segment or the walk, and ends at the destination access segment or the walk. |
| Resolver.Resolve | agricultural_graph.py:1067-1238 | The resolver is total. A route is real exactly when the attempt found a path. Every fallback, including no network, is the fully synthetic route. km = metres/1000, and there is always a segment. |
| Resolver.RealRouteShape | agricultural_graph.py:1072-1089 | A real route needs a network and two successful nearest-vertex lookups, and it is the route found from them. |
| Resolver.FoundPath | agricultural_graph.py:1133-1140 | A real route follows the oracle's path between two non-zero vertices, and its walk did not raise. |
| Resolver.FoundAssembled | agricultural_graph.py:1110-1232 | A real route is assembled from the two access results, the path and its walk. |
| Resolver.FoundSegments | agricultural_graph.py:1110-1215 | A real route has synthetic dirt access segments exactly at the ends more than 10 m from their vertex. Between them is the single non-synthetic segment carrying the route surface. |
| Resolver.FoundMeters | agricultural_graph.py:1093-1207 | A real route's total distance is the access lengths plus the hop lengths, and its surface is that of the last hop with edge data. |
| Resolver.FoundEnds | agricultural_graph.py:1110-1215 | A real route starts at the origin point when it has an origin access segment, otherwise at the origin vertex, and symmetrically at the destination. A one-vertex path without access gives no points. |
| Resolver.BuildAccess | agricultural_graph.py:1110-1130 | Building an access segment gives the specified segment, or the KeyError. |
| Resolver.AssembledFromParts | agricultural_graph.py:1223-1232 | The returned record built from its parts is the assembled route. |
| Resolver.ResolveBetween | agricultural_graph.py:1091-1232 | The step-by-step body returns the route of the specified decision. |
| Resolver.ResolveRoute | agricultural_graph.py:1067-1238 | The resolver returns exactly `Resolve`'s route. |
| Edges.MakeAttrs | agricultural_graph.py:382-415 | Edge attributes are well-formed: km = m/1000, seconds = km/speed·3600, minutes = seconds/60, and cost = km·rate·surcharge. The accessibility lies in its band. The coordinates are `None` exactly for an empty route. |
| Edges.RainAccessOpenUnit | agricultural_graph.py:391-396 | Every edge's rain accessibility is strictly between 0 and 1. |
| Edges.TimeMatchesSpeed | agricultural_graph.py:382-405 | Minutes times speed equals 60 times kilometres. |
| Edges.CostRisesWithWorseSurface | agricultural_graph.py:383-389 | Between parcel-to-centre edges of equal length, a worse surface never costs less. |
| Edges.TagName | agricultural_graph.py:273-275 | The class name is the tag, the first entry of a list, or "" for a missing tag or an empty list. |
| Edges.ClassOfName | agricultural_graph.py:277-294 | This is the builder's three-way class table. |
| Edges.FirstHopClass | agricultural_graph.py:262-294 | The corrected first-hop class: none without a first hop with edge data, otherwise the class of that hop's first parallel edge. |
| Edges.BuilderTable | agricultural_graph.py:258-294 | Only the minor class gives gravel, and no class gives dirt. Drawn speeds lie within 30..80. Without a first hop the speed is 50 km/h. |
| Edges.AsWrittenIgnoresHighway | agricultural_graph.py:270-294 | As written, every route with a first hop is labelled gravel at 30-50 km/h. |
| Edges.MotorwayLabelledGravel | agricultural_graph.py:270-294 | For a motorway first hop, the as-written table gives gravel at 30-50 km/h, while the corrected one gives paved at 60-80 km/h. |
| SupplyGraph.EmptyConsistent | agricultural_graph.py:41 | A new `DiGraph` is consistent. |
| SupplyGraph.AddNode | agricultural_graph.py:207-209 | `add_node` keeps the graph consistent and the edges unchanged. It creates a node without successors or updates its attributes. Other nodes are untouched. |
| SupplyGraph.EnsureNode | agricultural_graph.py:629 | `add_edge` creates a missing endpoint without attributes and changes nothing else. |
| SupplyGraph.AppendSuccessor | agricultural_graph.py:629 | Appending a new successor with its edge keeps the adjacency consistent. |
| SupplyGraph.AddEdge | agricultural_graph.py:610-629 | `add_edge` adds both endpoints. It appends a new successor, or merges the attributes of an existing edge, keeping old route coordinates when none are passed. Nothing else changes. |
| SupplyGraph.InsertRows | agricultural_graph.py:610-629 | The `add_edge` loop keeps the graph consistent and keeps every existing node's attributes. |
| SupplyGraph.InsertRowsEdgeSet | agricultural_graph.py:610-629 | After the loop there is an edge exactly where the old graph or some row had one. |
| SupplyGraph.InsertRowsFresh | agricultural_graph.py:610-629 | A row whose pair is new to the graph and differs from every other row's pair ends up on its edge with exactly its own attributes. |
| SupplyGraph.InsertRowsKeeps | agricultural_graph.py:610-629 | An edge no row names keeps its attributes. |
| SupplyGraph.InsertRowsWellFormed | agricultural_graph.py:610-629 | Inserting well-formed rows, merges included, keeps every edge well-formed. |
| Random.ScaledDraw | agricultural_graph.py:392 | A unit draw scaled by the width of [lo, hi) and shifted by lo stays in [lo, hi). |
| Random.Rng.constructor | agricultural_graph.py:40 | Seeding fixes the stream and resets the cursor. |
| Random.Rng.Uniform | agricultural_graph.py:392-396 | `uniform(lo, hi)` consumes one draw and lies in [lo, hi). |
| Random.Rng.RandInt | agricultural_graph.py:247 | `randint(lo, hi)` raises exactly on an empty range, consuming nothing. Otherwise it consumes one draw and lies in [lo, hi). |
| Sorting.StableSortBy | agricultural_graph.py:926 | The sort is a permutation, ascending by key, with ties in input order. |
| Sorting.StableSortSameElements | agricultural_graph.py:246 | A stable sort has the input's length and exactly its elements. |
| Sorting.PrefixKeepsSmallest | agricultural_graph.py:960-963 | Cutting a list sorted by key to its first n entries keeps the smallest keys: an entry left out has a key no smaller than any entry kept. |
| Ranking.ParseCriterion | agricultural_graph.py:896-905 | Each criterion string maps to its weight, and any other string to the fallback. |
| Ranking.RainNeverLowersWeight | agricultural_graph.py:907-909 | The rain adjustment never lowers a non-negative weight. |
| Ranking.AccessibilityPrefersAccessible | agricultural_graph.py:902-909 | Under the accessibility criterion, with or without rain, a lower weight means exactly a higher accessibility. |
| Ranking.CostWeightFollowsCost | agricultural_graph.py:896-897 | For a positive production, the cost criterion orders edges exactly by cost per ton. |
| Ranking.PrefixLen | agricultural_graph.py:963 | `[:top_n]` keeps `top_n` entries (at most all), or drops the last `-top_n` for a negative `top_n`. |
| Tables.NodeTable | agricultural_graph.py:122-179 | The node table lists the parcels, then the centres, then the plant, with their kinds and positions. |
| Tables.AddNodes | agricultural_graph.py:206-209 | The `add_node` loop keeps the graph consistent and adds no edge. |
| Tables.AddNodesLocates | agricultural_graph.py:206-209 | Every table row's node ends up with that row's kind and position, the last row winning for a repeated id. |
| Tables.UpdateWithAttrs | agricultural_graph.py:207-209 | Adding a row sets the node's kind and position, whatever it had before. |
| Agriculture.AnchorsOfMeaning | agricultural_graph.py:181-202 | Without a network nothing is anchored. A node is anchored exactly when some row with its id has a nearest vertex. The anchor records that vertex, its non-negative distance and the node's position. |
| Agriculture.Candidates | agricultural_graph.py:218-244 | Each parcel has one candidate per centre, in table order, with its resolved route. |
| Agriculture.Large | agricultural_graph.py:515 | Large parcels are table parcels of more than 100 ha. |
| Agriculture.InsertedEdges | agricultural_graph.py:610-629 | Inserting well-formed rows keeps every edge well-formed and adds exactly the rows' pairs. |
| Agriculture.LinksAreNearest | agricultural_graph.py:246-251 | A centre a parcel is not linked to is at least as far by road as every centre it is linked to. |
| Agriculture.DirectRowsFromLargeParcels | agricultural_graph.py:514-520 | There are at most five direct rows, each from a parcel of more than 100 ha. |
| Agriculture.OneTrunkRowPerCentre | agricultural_graph.py:423-512 | With distinct centre ids, each centre has exactly one centre-to-plant row. |
| Agriculture.AgriculturalSystem.constructor | agricultural_graph.py:38-52 | The system starts with an empty graph, no anchors, no edges and a freshly seeded random state. |
| Agriculture.AgriculturalSystem.MapNodesToNetwork | agricultural_graph.py:181-202 | The anchor map is rebuilt from the node table, and nothing else changes. |
| Agriculture.AgriculturalSystem.AddNodeTable | agricultural_graph.py:206-209 | The graph becomes the node table added to the old graph, and stays valid. |
| Agriculture.AgriculturalSystem.RouteEdge | agricultural_graph.py:382-415 | The edge row carries the route's length and points, the given surface, a speed within the rule and well-formed attributes. |
| Agriculture.CandidatesOf | agricultural_graph.py:218-244 | The loop over centres builds exactly the candidate list. |
| Agriculture.AgriculturalSystem.LinkFirst | agricultural_graph.py:249-416 | The rows go to the first k sorted candidates, in order, with the surface and speed of the corrected first-hop table (`Edges.FirstHopClass`, see Findings). |
| Agriculture.AgriculturalSystem.LinkParcel | agricultural_graph.py:218-416 | `randint` raises exactly when there are fewer than two centres. Otherwise there are 2..min(3, #centres) rows to the nearest centres of the stable sort. |
| Agriculture.AgriculturalSystem.LinkParcels | agricultural_graph.py:217-416 | Every parcel's links are built in order. This fails exactly when some parcel exists and there are fewer than two centres. |
| Agriculture.AgriculturalSystem.PlantEdge | agricultural_graph.py:425-434 | A row towards the plant follows the resolved route, paved, at 60-80 km/h. |
| Agriculture.AgriculturalSystem.TrunkRows | agricultural_graph.py:418-512 | There is one centre-to-plant row per centre, in table order. |
| Agriculture.AgriculturalSystem.DirectRows | agricultural_graph.py:514-605 | There is one direct row per sampled large parcel, in sample order. |
| Agriculture.AgriculturalSystem.BuildEdgeRows | agricultural_graph.py:214-605 | The rows are the parcel links, the trunk rows and the direct rows, all well-formed. This fails exactly where `randint` raises. |
| Agriculture.AgriculturalSystem.InsertEdgeTable | agricultural_graph.py:609-629 | The graph becomes the edge table inserted into the old graph. It has an edge exactly where the old graph or a row had one, and stays valid. |
| Agriculture.AgriculturalSystem.StoreEdges | agricultural_graph.py:214-629 | The edge table is the concatenated rows and the graph has them inserted. On failure nothing changes. |
| Agriculture.AgriculturalSystem.CreateGraph | agricultural_graph.py:204-629 | Building the graph adds the nodes and anchors them. On success it stores the links, trunk and direct rows as the edge table and adds them to the graph. On the `randint` failure only the nodes and anchors change. The graph stays valid. |
| Agriculture.AgriculturalSystem.RouteBetweenNodes | agricultural_graph.py:776-855 | The route query returns exactly the specified summary. |
| Agriculture.AgriculturalSystem.RankOutgoing | agricultural_graph.py:865-928 | The ranking query returns exactly the specified ranking. |
| Agriculture.AgriculturalSystem.PrioritizeParcels | agricultural_graph.py:930-963 | The prioritisation returns exactly the specified list. |
| Services.ClampedProduction | agricultural_graph.py:774 | The clamped production is non-negative, at least the estimate, and either the estimate or 0. |
| Services.RouteSpeed | agricultural_graph.py:800-805 | The speed lies in 33.75..60. It is 60 exactly for paved routes without access segments, 33.75 exactly for unpaved routes with them, and 45 exactly in the two mixed cases. |
| Services.SummaryTime | agricultural_graph.py:799-815 | Minutes times speed equals 60 times km. The cost is km·0.15. The accessibility is 0.9 exactly on paved routes. |
| Services.AccessSegmentsSlowDown | agricultural_graph.py:803-805 | Access segments never shorten the time, and lengthen it for a positive distance. |
| Services.RouteBetween | agricultural_graph.py:776-824 | The answer is `None` exactly when a node is absent or has no position. Otherwise it summarises the route resolved between the two positions, names the two nodes and has km = metres/1000. |
| Services.RouteBetweenTableNodes | agricultural_graph.py:779-796 | Between two nodes from the node table the answer is the summary of the route between their positions. |
| Services.RouteBetweenWithoutNetwork | agricultural_graph.py:796-824 | Without a network every answer is the synthetic dirt route at 33.75 km/h and accessibility 0.5. |
| Services.FindParcel | agricultural_graph.py:720-724 | The lookup fails exactly when no parcel has the id, and otherwise returns a parcel with it. |
| Services.EntryAt | agricultural_graph.py:892-921 | The entry for a successor carries that successor, the production, the criterion's weight of its edge, the edge's km, minutes, surface and accessibility, and its cost per ton times the production. |
| Services.OutgoingEntryMeaning | agricultural_graph.py:892-923 | Each outgoing entry goes to a successor along an existing edge, carries the production, and has the criterion's weight of that edge. |
| Services.OutgoingEntryFor | agricultural_graph.py:892-894 | Every successor of the parcel has an outgoing entry. |
| Services.OutgoingEntries | agricultural_graph.py:892-923 | There is one entry per successor. |
| Services.RankingOutcome | agricultural_graph.py:880-887 | The result is `None` exactly for an absent node and raises exactly for a node that is not a parcel. Otherwise the successors are ranked for the clamped production. |
| Services.RankedOrder | agricultural_graph.py:925-926 | The routes are ascending by weight, stable, one per successor. |
| Services.RankedTargets | agricultural_graph.py:892-923 | Every successor has a ranked route, and every route goes to a successor. |
| Services.RankedWeights | agricultural_graph.py:896-921 | Each route carries the clamped production and the criterion's weight of its own edge. |
| Services.PriorityOf | agricultural_graph.py:945-957 | The entry keeps the parcel's id and area, and its per-hectare yield times the area equals the prediction. |
| Services.PriorityEntriesMeaning | agricultural_graph.py:941-958 | There is an entry exactly for each parcel with a positive clamped prediction. |
| Services.PrioritizedDescending | agricultural_graph.py:960-963 | The result has positive predictions in descending order, and `top_n` of them (or all) for a non-negative `top_n`. |
| Services.PrioritizedKeepsBest | agricultural_graph.py:960-963 | A qualifying parcel that is left out is predicted no more than any parcel that is kept. |

## Left out

- `calcular_distancia_haversine` (agricultural_graph.py:24-32) is floating-point trigonometry; it is the parameter `dist`, promised only to be non-negative.
- `ox.distance.nearest_nodes`, `nx.has_path` and `nx.shortest_path` are library calls; they are the oracles `nearest` and `shortestPath` of the road network, and `PathsConnect` states the assumption that paths run from origin to destination vertex.
- `descargar_grafo_osmnx` (network download), `generar_datos` (random table generation) and the module-level instance are not modelled; the tables and network are fixed when an `AgriculturalSystem` is constructed.
- `preparar_datos_ia`, `entrenar_modelo_ia` and the model prediction of `predecir_produccion` (agricultural_graph.py:631-773) are scikit-learn; the raw estimate is an input of the queries and only the `max(0, ·)` clamp and the missing-parcel case are modelled. The random feature draws it makes, and the training it triggers when no model exists, are not modelled.
- Floating-point arithmetic is modelled as exact real arithmetic.
- The `else` branches of `crear_grafo` at agricultural_graph.py:300-370, 436-486 and 529-583 and the straight-line fallback of `calcular_ruta_entre_nodos` at agricultural_graph.py:826-851 are not modelled: the resolver always returns a non-empty record, so those branches never run. As a consequence every built edge has `usar_ruta_real` true even when its route is synthetic, which the model keeps.
- The sample of large parcels (`sample(n=min(5, len), random_state=seed)`) is the parameter `sample`, constrained to `min(5, n)` distinct positions; which positions pandas picks is not modelled.
- Node attributes are reduced to the node kind and position; the other columns of the node table (area, crop, capacity, ...) are copied by `add_node` but never read by the modelled code.
- The `try`/`except` of `calcular_ruta_entre_nodos` is not modelled: nothing inside it raises once the resolver is total.
- `print` logging, `app.py`, `test_system.py` and `test_clima.py` are not modelled (HTTP serving and scripts); `predecir_clima_yuma` and `evaluar_riesgo_dia` are not part of this model.
- Agriculture.AgriculturalSystem.RankOutgoing and Agriculture.AgriculturalSystem.CreateGraph require `Valid()`, the class invariant the constructor establishes and every method keeps; the source has no such precondition because it holds for every reachable state.
- Where `crear_grafo` raises (`randint` with fewer than two centres), the model returns `ok == false` with the nodes and anchors already updated, as the source leaves them, rather than an exception.
- Where `calcular_rutas_optimas_por_produccion` is asked about a node that is in the graph but not a parcel, the source raises `IndexError` in its `.iloc[0]` fallback; the model returns `NotAParcel`.
- Agriculture.AgriculturalSystem.LinkFirst labels parcel-to-centre edges with the corrected first-hop table (`Edges.FirstHopClass`), not the as-written lookup of agricultural_graph.py:270-294, which gives "grava" at uniform(30, 50) for every route with a first hop (see Findings, `Edges.MotorwayLabelledGravel`). The same holds for `IsLinkRow` and hence for LinkParcel, LinkParcels, BuildEdgeRows, StoreEdges and CreateGraph: on such routes their surface, speed, accessibility band and cost penalty are the intended ones, not the program's.
- Route lengths in the builder are compared by exact reals; ties between equal lengths keep table order, as Python's stable sort does.

## Findings

| source | as written | input that shows it | evidently intended | confidence | as-written member | corrected member |
|---|---|---|---|---|---|---|
| agricultural_graph.py:270-294 | `self.G_osmnx[n1][n2]` on the OSMnx multigraph yields the mapping of parallel edges keyed by edge key, so `.get("highway", "")` always gives "" and every parcel-to-centre edge whose route has a first hop is labelled "grava" at 30-50 km/h | a road network whose first hop is a single motorway edge (`Edges.MotorwayNetwork`, vertices 1 and 2) | read the `highway` of the first parallel edge, as the resolver does at lines 1164-1168, giving "pavimentado" at 60-80 km/h for a motorway | not executed | Edges.MotorwayLabelledGravel | Edges.FirstHopClass |
