/** The record shapes the route planner works on: attractions, directed
    travel segments (edges) of one transport mode, bus fares, and the raw
    polyline traces of a hop.  The loaders that build them from text files
    are not part of this model; they hand over these values ready-made. */
module Records {

  datatype Option<+T> = None | Some(value: T)

  datatype Result<+T, +E> = Ok(value: T) | Err(error: E)

  /** Attraction identifiers and display names. */
  type Code = string
  type Name = string

  /** A coordinate in (longitude, latitude) order, already parsed from text. */
  datatype Point = Point(lon: real, lat: real)

  /** A point of interest; `coordinates` keeps the loader's "lat, lon" text. */
  datatype Attraction = Attraction(
    name: Name,
    code: Code,
    coordinates: string,
    description: string,
    price: string,
    link: string)

  /** The cost summary a bus edge carries; the loader keeps these as text. */
  datatype BusFare = BusFare(
    taxiCost: string,
    busCost: string,
    walkingDistance: string,
    busName: string,
    transfers: string)

  /** A directed travel segment of one mode.  Distance (metres) and duration
      (seconds) are the loader's parsed integers; `fare` is present exactly on
      the edges of a bus table. */
  datatype Edge = Edge(
    fromCode: Code,
    fromName: Name,
    toCode: Code,
    toName: Name,
    origin: Point,
    destination: Point,
    distance: nat,
    duration: nat,
    fare: Option<BusFare>)

  /** The record a path lookup hands back for one hop. */
  datatype PathInfo = PathInfo(
    fromName: Name,
    toName: Name,
    origin: Point,
    destination: Point,
    distance: nat,
    duration: nat)

  /** One line of a road-trace store: the detailed shape of the hop between
      two endpoint keys, as raw (longitude, latitude) pairs. */
  datatype Trace = Trace(origin: string, destination: string, points: seq<(real, real)>)

  /** The edges and road traces used for one transport mode or bus strategy. */
  datatype Network = Network(edges: seq<Edge>, traces: seq<Trace>)
}
