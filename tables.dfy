/** The input tables of the supply graph: parcels, collection centres, the plant, and the node table built from them. */
module Tables {
  import opened Wrappers
  import opened Geo
  import opened Edges
  import opened SupplyGraph

  type Hectares = r: real | r > 0.0 witness 1.0

  /** A row of `df_parcelas`: `id`, position, `area_hectareas` and `produccion_estimada_ton`. */
  datatype Parcel = Parcel(id: NodeId, at: Coord, area: Hectares, production: real)

  /** A collection centre or the extraction plant: `id` and position. */
  datatype Site = Site(id: NodeId, at: Coord)

  /** A row of `df_nodos_completos`. */
  datatype NodeRow = NodeRow(id: NodeId, kind: NodeKind, at: Coord)

  function Min(a: int, b: int): int {
    if a <= b then a else b
  }

  /** The node table: the parcels, then the centres, then the plant. */
  function NodeTable(parcels: seq<Parcel>, centres: seq<Site>, plant: Site): (t: seq<NodeRow>)
    ensures |t| == |parcels| + |centres| + 1
    ensures forall i :: 0 <= i < |parcels| ==> t[i] == NodeRow(parcels[i].id, ParcelNode, parcels[i].at)
    ensures forall j :: 0 <= j < |centres| ==> t[|parcels| + j] == NodeRow(centres[j].id, CentreNode, centres[j].at)
    ensures t[|t| - 1] == NodeRow(plant.id, PlantNode, plant.at)
  {
    seq(|parcels|, i requires 0 <= i < |parcels| => NodeRow(parcels[i].id, ParcelNode, parcels[i].at))
    + seq(|centres|, j requires 0 <= j < |centres| => NodeRow(centres[j].id, CentreNode, centres[j].at))
    + [NodeRow(plant.id, PlantNode, plant.at)]
  }

  /** The attributes `add_node` stores for a table row: its kind and position. */
  function Attrs(r: NodeRow): NodeAttrs {
    NodeAttrs(Some(r.kind), Some(r.at))
  }

  /** The `add_node` loop over the node table. */
  function AddNodes(g: DiGraph, rows: seq<NodeRow>): (h: DiGraph)
    requires Consistent(g)
    ensures Consistent(h) && h.edges == g.edges
  {
    if rows == [] then g else AddNode(AddNodes(g, rows[..|rows| - 1]), rows[|rows| - 1].id, Attrs(rows[|rows| - 1]))
  }

  /** Every node of the table is in the graph with the table's kind and position (the last row wins for a repeated id). */
  lemma {:induction false} AddNodesLocates(g: DiGraph, rows: seq<NodeRow>, i: nat)
    requires Consistent(g)
    requires i < |rows|
    requires forall k :: i < k < |rows| ==> rows[k].id != rows[i].id
    ensures rows[i].id in AddNodes(g, rows).nodes
    ensures AddNodes(g, rows).nodes[rows[i].id] == Attrs(rows[i])
    decreases |rows|
  {
    var n := |rows| - 1;
    var front := AddNodes(g, rows[..n]);
    var h := AddNodes(g, rows);
    assert h == AddNode(front, rows[n].id, Attrs(rows[n]));
    if i == n {
      UpdateWithAttrs(front, rows[n]);
    } else {
      forall k | i < k < |rows[..n]|
        ensures rows[..n][k].id != rows[..n][i].id
      {
        assert rows[..n][k] == rows[k];
      }
      AddNodesLocates(g, rows[..n], i);
      assert rows[..n][i] == rows[i];
    }
  }

  /** Adding a table row sets the node's kind and position, whatever it had before. */
  lemma UpdateWithAttrs(g: DiGraph, r: NodeRow)
    requires Consistent(g)
    ensures AddNode(g, r.id, Attrs(r)).nodes[r.id] == Attrs(r)
  {
  }
}
