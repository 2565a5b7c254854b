/**
 * The supply graph `G_agricola` (a networkx `DiGraph`) as a value: node
 * attribute dictionaries, successor lists in insertion order, and edge
 * attribute dictionaries, with the `add_node`/`add_edge` semantics the builder
 * relies on.
 */
module SupplyGraph {
  import opened Wrappers
  import opened Geo
  import opened Edges

  /** `tipo`: "parcela_cultivo", "centro_acopio", "planta_extractora". */
  datatype NodeKind = ParcelNode | CentreNode | PlantNode

  /**
   * A node's attribute dictionary, reduced to what the model reads: `tipo`
   * and the `latitud`/`longitud` pair.  A node networkx creates implicitly
   * for an edge has neither: its dictionary is empty, hence false in Python.
   */
  datatype NodeAttrs = NodeAttrs(kind: Option<NodeKind>, at: Option<Coord>)

  const NoAttrs := NodeAttrs(None, None)

  /** `dict.update`: the keys `incoming` carries replace those of `current`, the others stay. */
  function UpdateNode(current: NodeAttrs, incoming: NodeAttrs): NodeAttrs {
    NodeAttrs(if incoming.kind.Some? then incoming.kind else current.kind,
              if incoming.at.Some? then incoming.at else current.at)
  }

  /**
   * Updating the attributes of an existing edge: every key is replaced,
   * except `coordenadas_ruta`, which the builder only passes when it is not
   * `None`.
   */
  function MergeEdge(current: EdgeAttrs, incoming: EdgeAttrs): EdgeAttrs {
    incoming.(routeCoords := if incoming.routeCoords.Some? then incoming.routeCoords else current.routeCoords)
  }

  datatype DiGraph = DiGraph(
    nodes: map<NodeId, NodeAttrs>,
    succ: map<NodeId, seq<NodeId>>,
    edges: map<(NodeId, NodeId), EdgeAttrs>)

  const Empty := DiGraph(map[], map[], map[])

  predicate NoDuplicates<T(==)>(s: seq<T>) {
    forall i, j :: 0 <= i < j < |s| ==> s[i] != s[j]
  }

  /**
   * The adjacency structure networkx maintains: one successor list per node,
   * an edge exactly where a successor is listed, no successor listed twice,
   * and every edge ending at a node.
   */
  ghost predicate Consistent(g: DiGraph) {
    && g.succ.Keys == g.nodes.Keys
    && (forall u, v :: (u, v) in g.edges <==> u in g.succ && v in g.succ[u])
    && (forall u | u in g.succ :: NoDuplicates(g.succ[u]))
    && (forall u, v :: (u, v) in g.edges ==> v in g.nodes)
  }

  lemma EmptyConsistent()
    ensures Consistent(Empty)
  {
  }

  /** `add_node(id, **attrs)`: a new node with no successors, or an attribute update of an existing one. */
  function AddNode(g: DiGraph, id: NodeId, attrs: NodeAttrs): (h: DiGraph)
    requires Consistent(g)
    ensures Consistent(h)
    ensures h.nodes.Keys == g.nodes.Keys + {id} && h.edges == g.edges
    ensures h.nodes[id] == if id in g.nodes then UpdateNode(g.nodes[id], attrs) else attrs
    ensures forall n :: n in g.nodes && n != id ==> h.nodes[n] == g.nodes[n]
    ensures forall u :: u in g.succ ==> h.succ[u] == g.succ[u]
    ensures id !in g.succ ==> h.succ[id] == []
  {
    if id in g.nodes then g.(nodes := g.nodes[id := UpdateNode(g.nodes[id], attrs)])
    else DiGraph(g.nodes[id := attrs], g.succ[id := []], g.edges)
  }

  /** The implicit node creation of `add_edge`: a missing endpoint becomes a node with no attributes. */
  function EnsureNode(g: DiGraph, id: NodeId): (h: DiGraph)
    requires Consistent(g)
    ensures Consistent(h)
    ensures h.nodes.Keys == g.nodes.Keys + {id} && h.edges == g.edges
    ensures forall n :: n in g.nodes ==> h.nodes[n] == g.nodes[n]
    ensures forall u :: u in g.succ ==> h.succ[u] == g.succ[u]
    ensures id !in g.succ ==> h.succ[id] == []
  {
    if id in g.nodes then g else AddNode(g, id, NoAttrs)
  }

  /** Listing a new successor v of u, with its edge, keeps the adjacency structure consistent. */
  lemma AppendSuccessor(g: DiGraph, u: NodeId, v: NodeId, attrs: EdgeAttrs)
    requires Consistent(g) && u in g.nodes && v in g.nodes && (u, v) !in g.edges
    ensures Consistent(g.(succ := g.succ[u := g.succ[u] + [v]], edges := g.edges[(u, v) := attrs]))
  {
    var h := g.(succ := g.succ[u := g.succ[u] + [v]], edges := g.edges[(u, v) := attrs]);
    assert v !in g.succ[u];
    forall x, y
      ensures (x, y) in h.edges <==> x in h.succ && y in h.succ[x]
    {
      if x == u {
        assert y in h.succ[u] <==> y in g.succ[u] || y == v;
      }
    }
  }

  /**
   * `add_edge(u, v, **attrs)`: both endpoints become nodes, a new edge is
   * appended to u's successors, and an existing edge has its attributes
   * merged; nothing else changes.
   */
  function AddEdge(g: DiGraph, row: EdgeRow): (h: DiGraph)
    requires Consistent(g)
    ensures Consistent(h)
    ensures h.nodes.Keys == g.nodes.Keys + {row.origin, row.target}
    ensures forall n :: n in g.nodes ==> h.nodes[n] == g.nodes[n]
    ensures h.edges == g.edges[Pair(row) := if Pair(row) in g.edges then MergeEdge(g.edges[Pair(row)], row.attrs) else row.attrs]
    ensures forall u :: u in g.succ && u != row.origin ==> h.succ[u] == g.succ[u]
    ensures h.succ[row.origin] ==
      (if row.origin in g.succ then g.succ[row.origin] else [])
      + (if Pair(row) in g.edges then [] else [row.target])
  {
    var u, v := row.origin, row.target;
    var g1 := EnsureNode(EnsureNode(g, u), v);
    if (u, v) in g1.edges then
      g1.(edges := g1.edges[(u, v) := MergeEdge(g1.edges[(u, v)], row.attrs)])
    else
      AppendSuccessor(g1, u, v, row.attrs);
      g1.(succ := g1.succ[u := g1.succ[u] + [v]], edges := g1.edges[(u, v) := row.attrs])
  }

  function Pair(r: EdgeRow): (NodeId, NodeId) {
    (r.origin, r.target)
  }

  /** The `add_edge` loop over the rows of `df_aristas`, in order. */
  function InsertRows(g: DiGraph, rows: seq<EdgeRow>): (h: DiGraph)
    requires Consistent(g)
    ensures Consistent(h)
    ensures forall n :: n in g.nodes ==> n in h.nodes && h.nodes[n] == g.nodes[n]
    decreases |rows|
  {
    if rows == [] then g
    else InsertRows(AddEdge(g, rows[0]), rows[1..])
  }

  /** Some row names the pair e. */
  predicate Names(rows: seq<EdgeRow>, e: (NodeId, NodeId)) {
    exists i :: 0 <= i < |rows| && Pair(rows[i]) == e
  }

  lemma NamesSplit(rows: seq<EdgeRow>, e: (NodeId, NodeId))
    requires rows != []
    ensures Names(rows, e) <==> Pair(rows[0]) == e || Names(rows[1..], e)
  {
    if Names(rows, e) && Pair(rows[0]) != e {
      var i :| 0 <= i < |rows| && Pair(rows[i]) == e;
      assert rows[1..][i - 1] == rows[i];
    }
    if Names(rows[1..], e) {
      var i :| 0 <= i < |rows[1..]| && Pair(rows[1..][i]) == e;
      assert rows[i + 1] == rows[1..][i];
    }
  }

  /** The inserted graph has an edge exactly where the old graph or some row has one. */
  lemma {:induction false} InsertRowsEdgeSet(g: DiGraph, rows: seq<EdgeRow>, e: (NodeId, NodeId))
    requires Consistent(g)
    ensures e in InsertRows(g, rows).edges <==> e in g.edges || Names(rows, e)
    decreases |rows|
  {
    if rows != [] {
      InsertRowsEdgeSet(AddEdge(g, rows[0]), rows[1..], e);
      NamesSplit(rows, e);
    }
  }

  /**
   * A row whose pair is not yet an edge, and which no other row names, ends
   * up with its attributes on its edge unchanged.
   */
  lemma {:induction false} InsertRowsFresh(g: DiGraph, rows: seq<EdgeRow>, i: nat)
    requires Consistent(g)
    requires i < |rows|
    requires Pair(rows[i]) !in g.edges
    requires forall k :: 0 <= k < |rows| && k != i ==> Pair(rows[k]) != Pair(rows[i])
    ensures Pair(rows[i]) in InsertRows(g, rows).edges
    ensures InsertRows(g, rows).edges[Pair(rows[i])] == rows[i].attrs
    decreases |rows|
  {
    var g1 := AddEdge(g, rows[0]);
    var rest := rows[1..];
    if i == 0 {
      AddEdgeFresh(g, rows[0]);
      forall k | 0 <= k < |rest|
        ensures Pair(rest[k]) != Pair(rows[0])
      {
        assert rest[k] == rows[k + 1];
      }
      InsertRowsKeeps(g1, rest, Pair(rows[0]));
    } else {
      assert rest[i - 1] == rows[i];
      forall k | 0 <= k < |rest| && k != i - 1
        ensures Pair(rest[k]) != Pair(rest[i - 1])
      {
        assert rest[k] == rows[k + 1];
      }
      InsertRowsFresh(g1, rest, i - 1);
    }
  }

  /** An edge no row names keeps its attributes through the insertions. */
  lemma {:induction false} InsertRowsKeeps(g: DiGraph, rows: seq<EdgeRow>, e: (NodeId, NodeId))
    requires Consistent(g)
    requires e in g.edges
    requires forall k :: 0 <= k < |rows| ==> Pair(rows[k]) != e
    ensures e in InsertRows(g, rows).edges && InsertRows(g, rows).edges[e] == g.edges[e]
    decreases |rows|
  {
    if rows != [] {
      var g1 := AddEdge(g, rows[0]);
      AddEdgeKeeps(g, rows[0], e);
      forall k | 0 <= k < |rows[1..]|
        ensures Pair(rows[1..][k]) != e
      {
        assert rows[1..][k] == rows[k + 1];
      }
      InsertRowsKeeps(g1, rows[1..], e);
    }
  }

  /** `add_edge` of a new pair adds exactly that edge, with the row's attributes. */
  lemma AddEdgeFresh(g: DiGraph, row: EdgeRow)
    requires Consistent(g) && Pair(row) !in g.edges
    ensures Pair(row) in AddEdge(g, row).edges && AddEdge(g, row).edges[Pair(row)] == row.attrs
    ensures forall e :: e in AddEdge(g, row).edges <==> e in g.edges || e == Pair(row)
  {
  }

  /** `add_edge` of another pair leaves an edge's attributes alone. */
  lemma AddEdgeKeeps(g: DiGraph, row: EdgeRow, e: (NodeId, NodeId))
    requires Consistent(g) && e in g.edges && Pair(row) != e
    ensures e in AddEdge(g, row).edges && AddEdge(g, row).edges[e] == g.edges[e]
  {
  }

  /** Every edge of the graph satisfies the attribute relations of `WellFormed`. */
  ghost predicate EdgesWellFormed(g: DiGraph) {
    forall e | e in g.edges :: WellFormed(g.edges[e])
  }

  /** Adding or merging a well-formed row keeps every edge well-formed. */
  lemma AddEdgeWellFormed(g: DiGraph, row: EdgeRow)
    requires Consistent(g) && EdgesWellFormed(g) && WellFormed(row.attrs)
    ensures EdgesWellFormed(AddEdge(g, row))
  {
    var h := AddEdge(g, row);
    forall e | e in h.edges
      ensures WellFormed(h.edges[e])
    {
      if e != Pair(row) {
        assert h.edges[e] == g.edges[e];
      } else if Pair(row) in g.edges {
        assert h.edges[e] == MergeEdge(g.edges[e], row.attrs);
      }
    }
  }

  /** Inserting well-formed rows into a graph of well-formed edges (merging included) keeps every edge well-formed. */
  lemma {:induction false} InsertRowsWellFormed(g: DiGraph, rows: seq<EdgeRow>)
    requires Consistent(g) && EdgesWellFormed(g)
    requires forall k :: 0 <= k < |rows| ==> WellFormed(rows[k].attrs)
    ensures EdgesWellFormed(InsertRows(g, rows))
    decreases |rows|
  {
    if rows != [] {
      var g1 := AddEdge(g, rows[0]);
      AddEdgeWellFormed(g, rows[0]);
      forall k | 0 <= k < |rows[1..]|
        ensures WellFormed(rows[1..][k].attrs)
      {
        assert rows[1..][k] == rows[k + 1];
      }
      InsertRowsWellFormed(g1, rows[1..]);
    }
  }
}
