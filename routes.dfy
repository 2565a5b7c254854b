/** The route records the resolver returns. */
module Routes {
  import opened Geo
  import opened Roads

  /** Road surface: "pavimentado", "grava", "tierra". */
  datatype Surface = Paved | Gravel | Dirt

  /** One entry of a route's `segmentos`: its `tipo`, `coordenadas` and `es_segmento_sintetico`. */
  datatype Segment = Segment(surface: Surface, coords: seq<Coord>, synthetic: bool)

  /**
   * The dictionary `calcular_ruta_osmnx` returns: `coordenadas`,
   * `distancia_metros`, `distancia_km`, `usar_ruta_real`, `tipo_camino`,
   * `tiene_segmentos_sinteticos`, `segmentos` and `nodos_osmnx`.
   */
  datatype Route = Route(
    coords: seq<Coord>,
    meters: real,
    km: real,
    realRoute: bool,
    surface: Surface,
    hasSynthetic: bool,
    segments: seq<Segment>,
    vertices: seq<VertexId>)
}
