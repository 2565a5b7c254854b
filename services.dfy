/**
 * The query services of `SistemaGrafoAgricola` as functions of the supply
 * graph: the route between two nodes (`calcular_ruta_entre_nodos`), the
 * ranking of a parcel's outgoing edges
 * (`calcular_rutas_optimas_por_produccion`) and the prioritisation of
 * parcels by predicted production (`priorizar_parcelas_por_rendimiento`).
 */
module Services {
  import opened Wrappers
  import opened Geo
  import opened Roads
  import opened Routes
  import opened Resolver
  import opened Synthetic
  import opened Sorting
  import opened Edges
  import opened SupplyGraph
  import opened Ranking
  import opened Tables

  /** `max(0, x)`, the clamp `predecir_produccion` applies to the model's output. */
  function ClampedProduction(x: real): (p: real)
    ensures p >= 0.0 && p >= x
    ensures p == x || p == 0.0
  {
    if x < 0.0 then 0.0 else x
  }

  // calcular_ruta_entre_nodos

  /**
   * The summary `calcular_ruta_entre_nodos` returns: `distancia_km`,
   * `tiempo_minutos`, `costo_por_ton`, `tipo_camino`,
   * `accesibilidad_lluvia`, `ruta` (the two node ids) and the resolved route
   * whose coordinates, flags, segments and vertices it copies.
   */
  datatype RouteInfo = RouteInfo(km: real, minutes: real, costPerTon: real, surface: Surface, rainAccess: real,
                                 hops: seq<NodeId>, route: Route)

  /** The base speed: 60 km/h on a paved route, 45 otherwise, and three quarters of that when the route has access segments. */
  function RouteSpeed(route: Route): (v: real)
    ensures 33.75 <= v <= 60.0
    ensures v == 60.0 <==> route.surface == Paved && !route.hasSynthetic
    ensures v == 33.75 <==> route.surface != Paved && route.hasSynthetic
    ensures v == 45.0 <==> (route.surface == Paved) == route.hasSynthetic
  {
    (if route.surface == Paved then 60.0 else 45.0) * (if route.hasSynthetic then 0.75 else 1.0)
  }

  function RealMax(a: real, b: real): real {
    if a >= b then a else b
  }

  function Summary(route: Route, n1: NodeId, n2: NodeId): RouteInfo {
    var speed := RouteSpeed(route);
    RouteInfo(route.km, route.km / RealMax(speed, 1.0) * 60.0, route.km * 0.15, route.surface,
              if route.surface == Paved then 0.9 else 0.5, [n1, n2], route)
  }

  /** The summary's time is the time to cover its distance at the base speed, and its cost is 0.15 per kilometre. */
  lemma SummaryTime(route: Route, n1: NodeId, n2: NodeId)
    ensures Summary(route, n1, n2).minutes * RouteSpeed(route) == route.km * 60.0
    ensures Summary(route, n1, n2).costPerTon == Summary(route, n1, n2).km * 0.15
    ensures Summary(route, n1, n2).rainAccess == 0.9 <==> route.surface == Paved
  {
    var v := RouteSpeed(route);
    assert RealMax(v, 1.0) == v;
  }

  /** Of two routes that differ only in having access segments, the one with them never takes less time. */
  lemma AccessSegmentsSlowDown(route: Route, n1: NodeId, n2: NodeId)
    requires route.km >= 0.0 && route.hasSynthetic
    ensures Summary(route, n1, n2).minutes >= Summary(route.(hasSynthetic := false), n1, n2).minutes
    ensures route.km > 0.0 ==> Summary(route, n1, n2).minutes > Summary(route.(hasSynthetic := false), n1, n2).minutes
  {
    var plain := route.(hasSynthetic := false);
    SummaryTime(route, n1, n2);
    SummaryTime(plain, n1, n2);
    var v, w := RouteSpeed(route), RouteSpeed(plain);
    assert v == 0.75 * w;
    var m, n := Summary(route, n1, n2).minutes, Summary(plain, n1, n2).minutes;
    assert m * v == n * w;
    assert m == n * w / v;
    assert w / v > 1.0;
  }

  /**
   * `calcular_ruta_entre_nodos` on the supply graph: `None` when either node
   * is absent or has no position (an attribute-less node, such as one
   * created by `add_edge`, has none); otherwise the summary of the resolved
   * route between their positions.
   */
  function RouteBetween(g: DiGraph, net: Option<RoadNetwork>, dist: DistanceFn, n1: NodeId, n2: NodeId): (r: Option<RouteInfo>)
    ensures r.None? <==> n1 !in g.nodes || n2 !in g.nodes || g.nodes[n1].at.None? || g.nodes[n2].at.None?
    ensures r.Some? ==> r.value.hops == [n1, n2] && r.value.km == r.value.route.meters / 1000.0
    ensures r.Some? ==> r.value.route == Resolve(net, dist, g.nodes[n1].at.value, g.nodes[n2].at.value)
  {
    if n1 !in g.nodes || n2 !in g.nodes then None
    else if g.nodes[n1].at.None? || g.nodes[n2].at.None? then None
    else Some(Summary(Resolve(net, dist, g.nodes[n1].at.value, g.nodes[n2].at.value), n1, n2))
  }

  /**
   * Between two nodes added from the node table, a route always exists: it
   * is the summary of the route resolved between their table positions.
   */
  lemma RouteBetweenTableNodes(g0: DiGraph, table: seq<NodeRow>, i: nat, j: nat, net: Option<RoadNetwork>, dist: DistanceFn)
    requires Consistent(g0)
    requires i < |table| && j < |table|
    requires forall k :: i < k < |table| ==> table[k].id != table[i].id
    requires forall k :: j < k < |table| ==> table[k].id != table[j].id
    ensures RouteBetween(AddNodes(g0, table), net, dist, table[i].id, table[j].id)
            == Some(Summary(Resolve(net, dist, table[i].at, table[j].at), table[i].id, table[j].id))
  {
    AddNodesLocates(g0, table, i);
    AddNodesLocates(g0, table, j);
  }

  /**
   * Without a road network every answer describes the synthetic dirt route:
   * straight-line kilometres, 33.75 km/h, accessibility 0.5.
   */
  lemma RouteBetweenWithoutNetwork(g: DiGraph, dist: DistanceFn, n1: NodeId, n2: NodeId)
    requires RouteBetween(g, None, dist, n1, n2).Some?
    ensures var info := RouteBetween(g, None, dist, n1, n2).value;
      && info.surface == Dirt && info.rainAccess == 0.5 && !info.route.realRoute
      && info.km == dist(g.nodes[n1].at.value, g.nodes[n2].at.value) / 1000.0
      && info.minutes * 33.75 == info.km * 60.0
  {
    var route := Resolve(None, dist, g.nodes[n1].at.value, g.nodes[n2].at.value);
    SummaryTime(route, n1, n2);
  }

  // calcular_rutas_optimas_por_produccion

  /**
   * An entry of `rutas_disponibles`: `destino`, `peso`, `distancia_km`,
   * `tiempo_minutos`, `costo_total`, `accesibilidad_lluvia`, `tipo_camino`
   * and `produccion_predicha`.
   */
  datatype RankedRoute = RankedRoute(target: NodeId, weight: real, km: real, minutes: real, totalCost: real,
                                     rainAccess: real, surface: Surface, production: real)

  /**
   * The outcome of a ranking: `None` for an absent node, the `IndexError`
   * the production fallback raises for a node that is not a parcel, or the
   * ranked routes.
   */
  datatype RankingResult = NodeAbsent | NotAParcel | Ranked(routes: seq<RankedRoute>)

  /** The first parcel with the given id, as the `df_parcelas` lookup of `predecir_produccion` finds it. */
  function FindParcel(parcels: seq<Parcel>, id: NodeId): (r: Option<Parcel>)
    ensures r.None? <==> forall i :: 0 <= i < |parcels| ==> parcels[i].id != id
    ensures r.Some? ==> r.value in parcels && r.value.id == id
  {
    if parcels == [] then None
    else if parcels[0].id == id then Some(parcels[0])
    else FindParcel(parcels[1..], id)
  }

  function RankEntry(c: Criterion, target: NodeId, a: EdgeAttrs, production: real, rain: bool): RankedRoute
    requires a.rainAccess > 0.0
  {
    RankedRoute(target, Weight(c, a, production, rain), a.km, a.minutes, a.costPerTon * production,
                a.rainAccess, a.surface, production)
  }

  function EntryWeight(e: RankedRoute): real {
    e.weight
  }

  /** The entry for the edge from `pid` to its successor `v`. */
  function EntryAt(g: DiGraph, pid: NodeId, v: NodeId, c: Criterion, production: real, rain: bool): (e: RankedRoute)
    requires Consistent(g) && EdgesWellFormed(g)
    requires pid in g.succ && v in g.succ[pid]
    ensures (pid, v) in g.edges
    ensures e.target == v && e.production == production
    ensures e.weight == Weight(c, g.edges[(pid, v)], production, rain)
    ensures e.km == g.edges[(pid, v)].km && e.minutes == g.edges[(pid, v)].minutes
    ensures e.totalCost == g.edges[(pid, v)].costPerTon * production
    ensures e.rainAccess == g.edges[(pid, v)].rainAccess && e.surface == g.edges[(pid, v)].surface
  {
    var a := g.edges[(pid, v)];
    RainAccessOpenUnit(a);
    RankEntry(c, v, a, production, rain)
  }

  /** The entries for the successors of `pid`, in successor order. */
  function OutgoingEntries(g: DiGraph, pid: NodeId, c: Criterion, production: real, rain: bool): (es: seq<RankedRoute>)
    requires Consistent(g) && EdgesWellFormed(g) && pid in g.succ
    ensures |es| == |g.succ[pid]|
  {
    var s := g.succ[pid];
    seq(|s|, j requires 0 <= j < |s| => EntryAt(g, pid, s[j], c, production, rain))
  }

  /** `calcular_rutas_optimas_por_produccion` on the supply graph, for the model's raw production estimate. */
  function RankRoutes(g: DiGraph, parcels: seq<Parcel>, pid: NodeId, c: Criterion, rain: bool, predicted: real): RankingResult
    requires Consistent(g) && EdgesWellFormed(g)
  {
    if pid !in g.nodes then NodeAbsent
    else if FindParcel(parcels, pid).None? then NotAParcel
    else Ranked(StableSortBy(OutgoingEntries(g, pid, c, ClampedProduction(predicted), rain), EntryWeight))
  }

  /**
   * The ranking is `None` exactly for an absent node and raises exactly for
   * a node that is not a parcel; otherwise it ranks the successors' entries
   * for the clamped production.
   */
  lemma RankingOutcome(g: DiGraph, parcels: seq<Parcel>, pid: NodeId, c: Criterion, rain: bool, predicted: real)
    requires Consistent(g) && EdgesWellFormed(g)
    ensures RankRoutes(g, parcels, pid, c, rain, predicted) == NodeAbsent <==> pid !in g.nodes
    ensures RankRoutes(g, parcels, pid, c, rain, predicted) == NotAParcel <==>
      pid in g.nodes && forall i :: 0 <= i < |parcels| ==> parcels[i].id != pid
    ensures RankRoutes(g, parcels, pid, c, rain, predicted).Ranked? ==>
      pid in g.succ && RankRoutes(g, parcels, pid, c, rain, predicted).routes
        == StableSortBy(OutgoingEntries(g, pid, c, ClampedProduction(predicted), rain), EntryWeight)
  {
  }

  /** The ranked routes come in ascending order of weight, with ties in successor order, one per successor. */
  lemma RankedOrder(g: DiGraph, pid: NodeId, c: Criterion, production: real, rain: bool, rs: seq<RankedRoute>)
    requires Consistent(g) && EdgesWellFormed(g) && pid in g.succ
    requires rs == StableSortBy(OutgoingEntries(g, pid, c, production, rain), EntryWeight)
    ensures |rs| == |g.succ[pid]|
    ensures IsStableSort(rs, OutgoingEntries(g, pid, c, production, rain), EntryWeight)
    ensures forall a, b :: 0 <= a < b < |rs| ==> rs[a].weight <= rs[b].weight
  {
    forall a, b | 0 <= a < b < |rs|
      ensures rs[a].weight <= rs[b].weight
    {
      assert EntryWeight(rs[a]) <= EntryWeight(rs[b]);
    }
  }

  /** An outgoing entry goes to a successor, along its own edge, with that edge's weight. */
  lemma OutgoingEntryMeaning(g: DiGraph, pid: NodeId, c: Criterion, production: real, rain: bool, e: RankedRoute)
    requires Consistent(g) && EdgesWellFormed(g) && pid in g.succ
    requires e in OutgoingEntries(g, pid, c, production, rain)
    ensures e.target in g.succ[pid] && (pid, e.target) in g.edges && e.production == production
    ensures e.weight == Weight(c, g.edges[(pid, e.target)], production, rain)
  {
    var es := OutgoingEntries(g, pid, c, production, rain);
    var j :| 0 <= j < |es| && es[j] == e;
    assert e == EntryAt(g, pid, g.succ[pid][j], c, production, rain);
  }

  /** Every successor has an outgoing entry. */
  lemma OutgoingEntryFor(g: DiGraph, pid: NodeId, c: Criterion, production: real, rain: bool, v: NodeId)
    requires Consistent(g) && EdgesWellFormed(g) && pid in g.succ
    requires v in g.succ[pid]
    ensures exists e :: e in OutgoingEntries(g, pid, c, production, rain) && e.target == v
  {
    var es := OutgoingEntries(g, pid, c, production, rain);
    var s := g.succ[pid];
    var j :| 0 <= j < |s| && s[j] == v;
    assert es[j] == EntryAt(g, pid, v, c, production, rain);
  }

  /** Every successor has a ranked route, and every ranked route goes to a successor. */
  lemma RankedTargets(g: DiGraph, pid: NodeId, c: Criterion, production: real, rain: bool, rs: seq<RankedRoute>)
    requires Consistent(g) && EdgesWellFormed(g) && pid in g.succ
    requires rs == StableSortBy(OutgoingEntries(g, pid, c, production, rain), EntryWeight)
    ensures forall v :: v in g.succ[pid] <==> exists k :: 0 <= k < |rs| && rs[k].target == v
  {
    var es := OutgoingEntries(g, pid, c, production, rain);
    StableSortSameElements(rs, es, EntryWeight);
    forall v | v in g.succ[pid]
      ensures exists k :: 0 <= k < |rs| && rs[k].target == v
    {
      OutgoingEntryFor(g, pid, c, production, rain, v);
      var e :| e in es && e.target == v;
      assert e in rs;
    }
    forall k | 0 <= k < |rs|
      ensures rs[k].target in g.succ[pid]
    {
      OutgoingEntryMeaning(g, pid, c, production, rain, rs[k]);
    }
  }

  /** Each ranked route carries the clamped production and the criterion's weight on its own edge. */
  lemma RankedWeights(g: DiGraph, pid: NodeId, c: Criterion, production: real, rain: bool, rs: seq<RankedRoute>)
    requires Consistent(g) && EdgesWellFormed(g) && pid in g.succ
    requires rs == StableSortBy(OutgoingEntries(g, pid, c, production, rain), EntryWeight)
    ensures forall k :: 0 <= k < |rs| ==>
      && (pid, rs[k].target) in g.edges
      && rs[k].production == production
      && rs[k].weight == Weight(c, g.edges[(pid, rs[k].target)], production, rain)
  {
    StableSortSameElements(rs, OutgoingEntries(g, pid, c, production, rain), EntryWeight);
    forall k | 0 <= k < |rs|
      ensures (pid, rs[k].target) in g.edges && rs[k].production == production
      ensures rs[k].weight == Weight(c, g.edges[(pid, rs[k].target)], production, rain)
    {
      OutgoingEntryMeaning(g, pid, c, production, rain, rs[k]);
    }
  }

  // priorizar_parcelas_por_rendimiento

  /**
   * An entry of `parcelas_priorizadas`: `parcela_id`,
   * `produccion_original`, `produccion_predicha` (which is also
   * `rendimiento_esperado`), `area_hectareas`, `rendimiento_por_hectarea`
   * and the position.
   */
  datatype Priority = Priority(id: NodeId, original: real, predicted: real, perHectare: real, area: real, at: Coord)

  function PriorityOf(p: Parcel, predicted: real): (e: Priority)
    requires predicted > 0.0
    ensures e.id == p.id && e.predicted == predicted && e.area == p.area
    ensures e.perHectare > 0.0 && e.perHectare * p.area == predicted
  {
    Priority(p.id, p.production, predicted, predicted / p.area, p.area, p.at)
  }

  /** The parcels whose clamped prediction is truthy (non-zero), with that prediction, in table order. */
  function PriorityEntries(parcels: seq<Parcel>, predicted: seq<real>): seq<Priority>
    requires |predicted| == |parcels|
  {
    if parcels == [] then []
    else
      var n := |parcels| - 1;
      var q := ClampedProduction(predicted[n]);
      PriorityEntries(parcels[..n], predicted[..n]) + (if q != 0.0 then [PriorityOf(parcels[n], q)] else [])
  }

  /** The sort key of `reverse=True` on `rendimiento_esperado`: the negated prediction, so that a stable ascending sort keeps ties in table order. */
  function NegatedPrediction(e: Priority): real {
    -e.predicted
  }

  /** `priorizar_parcelas_por_rendimiento(top_n)` for the model's raw estimates, one per parcel. */
  function Prioritized(parcels: seq<Parcel>, predicted: seq<real>, topN: int): seq<Priority>
    requires |predicted| == |parcels|
  {
    var sorted := StableSortBy(PriorityEntries(parcels, predicted), NegatedPrediction);
    sorted[..PrefixLen(|sorted|, topN)]
  }

  /** An entry is listed exactly for each parcel with a positive clamped prediction. */
  lemma {:induction false} PriorityEntriesMeaning(parcels: seq<Parcel>, predicted: seq<real>)
    requires |predicted| == |parcels|
    ensures forall e :: e in PriorityEntries(parcels, predicted) ==> e.predicted > 0.0
    ensures forall e :: e in PriorityEntries(parcels, predicted) ==>
      exists i :: 0 <= i < |parcels| && ClampedProduction(predicted[i]) > 0.0
                  && e == PriorityOf(parcels[i], ClampedProduction(predicted[i]))
    ensures forall i :: 0 <= i < |parcels| && ClampedProduction(predicted[i]) > 0.0 ==>
      PriorityOf(parcels[i], ClampedProduction(predicted[i])) in PriorityEntries(parcels, predicted)
    decreases |parcels|
  {
    if parcels != [] {
      var n := |parcels| - 1;
      var front, fp := parcels[..n], predicted[..n];
      PriorityEntriesMeaning(front, fp);
      forall e | e in PriorityEntries(parcels, predicted)
        ensures exists i :: 0 <= i < |parcels| && ClampedProduction(predicted[i]) > 0.0
                            && e == PriorityOf(parcels[i], ClampedProduction(predicted[i]))
      {
        if e in PriorityEntries(front, fp) {
          var i :| 0 <= i < |front| && ClampedProduction(fp[i]) > 0.0 && e == PriorityOf(front[i], ClampedProduction(fp[i]));
          assert front[i] == parcels[i] && fp[i] == predicted[i];
        }
      }
      forall i | 0 <= i < |parcels| && ClampedProduction(predicted[i]) > 0.0
        ensures PriorityOf(parcels[i], ClampedProduction(predicted[i])) in PriorityEntries(parcels, predicted)
      {
        if i < n {
          assert front[i] == parcels[i] && fp[i] == predicted[i];
        }
      }
    }
  }

  /**
   * The prioritised parcels all have a positive prediction, come in
   * descending order of prediction, and number `top_n` (or all of them when
   * fewer qualify) for a non-negative `top_n`.
   */
  lemma PrioritizedDescending(parcels: seq<Parcel>, predicted: seq<real>, topN: int)
    requires |predicted| == |parcels|
    ensures var out := Prioritized(parcels, predicted, topN);
      && (forall e :: e in out ==> e.predicted > 0.0)
      && (forall a, b :: 0 <= a < b < |out| ==> out[a].predicted >= out[b].predicted)
      && (0 <= topN ==> |out| == Min(topN, |PriorityEntries(parcels, predicted)|))
  {
    var es := PriorityEntries(parcels, predicted);
    var sorted := StableSortBy(es, NegatedPrediction);
    var out := Prioritized(parcels, predicted, topN);
    PriorityEntriesMeaning(parcels, predicted);
    StableSortSameElements(sorted, es, NegatedPrediction);
    forall a, b | 0 <= a < b < |out|
      ensures out[a].predicted >= out[b].predicted
    {
      assert NegatedPrediction(sorted[a]) <= NegatedPrediction(sorted[b]);
    }
    forall e | e in out
      ensures e.predicted > 0.0
    {
      assert e in sorted;
    }
  }

  /**
   * Truncation keeps the best: a parcel with a positive prediction that is
   * left out is predicted no more than any parcel that is kept.
   */
  lemma PrioritizedKeepsBest(parcels: seq<Parcel>, predicted: seq<real>, topN: int, i: nat)
    requires |predicted| == |parcels| && i < |parcels|
    requires ClampedProduction(predicted[i]) > 0.0
    requires PriorityOf(parcels[i], ClampedProduction(predicted[i])) !in Prioritized(parcels, predicted, topN)
    ensures forall e :: e in Prioritized(parcels, predicted, topN) ==> e.predicted >= ClampedProduction(predicted[i])
  {
    var es := PriorityEntries(parcels, predicted);
    var sorted := StableSortBy(es, NegatedPrediction);
    var out := Prioritized(parcels, predicted, topN);
    var x := PriorityOf(parcels[i], ClampedProduction(predicted[i]));
    PriorityEntriesMeaning(parcels, predicted);
    StableSortSameElements(sorted, es, NegatedPrediction);
    PrefixKeepsSmallest(sorted, NegatedPrediction, PrefixLen(|sorted|, topN), x);
    forall e | e in out
      ensures e.predicted >= x.predicted
    {
      assert NegatedPrediction(e) <= NegatedPrediction(x);
    }
  }
}
