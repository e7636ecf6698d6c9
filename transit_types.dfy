/**
 * The collaborators of the alight edge, reduced to the values it reads:
 * GTFS identifiers, the hop it belongs to, the search options, the service
 * calendar, the transfer table and the path state with its copy-on-write
 * editor. None of their implementations is modelled; each is the data that
 * Alight.java asks of it.
 */
module TransitTypes {

  datatype Option<T> = None | Some(value: T)

  /** GTFS agency-scoped identifier (`AgencyAndId`), compared only for equality. */
  datatype AgencyAndId = AgencyAndId(agencyId: string, id: string)

  /** Graph vertices are used only as keys into the transfer table. */
  type VertexId = int

  /** A travel mode, by its ordinal; the enumeration itself is not modelled. */
  type TraverseMode = int

  /** The allowed modes of a query and its bicycle flag (`getModes()`, `getBicycle()`). */
  datatype TraverseModeSet = TraverseModeSet(modes: set<TraverseMode>, bicycle: bool)

  /** The optimisation objective; only `TRANSFERS` is tested by the alight edge. */
  datatype OptimizeType = Transfers | OtherObjective(name: string)

  /** Opaque fare-context handle, copied without arithmetic. */
  datatype FareContext = FareContext(handle: int)

  /** A GTFS trip: its own id and the id of its route (`trip.getRoute().getId()`). */
  datatype Trip = Trip(id: AgencyAndId, routeId: AgencyAndId)

  /** The hop an alight edge ends: its mode, bike flag, service id and the
      scheduled arrival at its end stop, in seconds since midnight. */
  datatype Hop = Hop(mode: TraverseMode, bikesAllowed: bool, serviceId: AgencyAndId,
                     endStopArrivalTime: int)

  /** A candidate service day, as the two questions the edge asks of it. */
  datatype ServiceDay = ServiceDay(secondsSinceMidnight: int -> int,
                                   serviceIdRunning: AgencyAndId -> bool)

  /** The transfer table: whether any preferred transfer is configured, the
      lookup `(toVertex, previousStop) -> seconds or sentinel`, and the three
      sentinel constants, whose values are kept symbolic. */
  datatype TransferTable = TransferTable(
    hasPreferredTransfers: bool,
    transferTime: (VertexId, VertexId) -> int,
    unknownTransfer: int,
    forbiddenTransfer: int,
    preferredTransfer: int)
  {
    predicate DistinctSentinels() {
      unknownTransfer != forbiddenTransfer && unknownTransfer != preferredTransfer &&
      forbiddenTransfer != preferredTransfer
    }
  }

  /** The read-only options of one query. */
  datatype TraverseOptions = TraverseOptions(
    modes: TraverseModeSet,
    wheelchairAccessible: bool,
    serviceDays: seq<ServiceDay>,
    transferTable: TransferTable,
    baseTransferPenalty: int,
    minTransferTime: int,
    optimizeFor: OptimizeType,
    optimizeTransferPenalty: int,
    boardCost: int)

  /** Path-scoped trip context. `trip` is the integer read by the transfer-count
      test (-1 when no trip has been boarded yet); `tripId` is the GTFS id the
      alight edge writes. */
  datatype StateData = StateData(
    lastAlightedTime: int,
    previousStop: VertexId,
    trip: int,
    tripId: AgencyAndId,
    route: AgencyAndId,
    zone: string,
    numBoardings: int,
    fareContext: FareContext)

  /** A search state: its clock, in the state's own ticks, and its trip context. */
  datatype State = State(time: int, data: StateData)

  /** One call on the state editor. */
  datatype Edit =
    | IncrementTimeInSeconds(seconds: int)
    | IncrementNumBoardings
    | SetTripId(tripId: AgencyAndId)
    | SetZone(zone: string)
    | SetRoute(route: AgencyAndId)
    | SetFareContext(fareContext: FareContext)

  /** The editor applies one call to a copy of the state; the original value is
      never touched. `ticksPerSecond` is the resolution of `State.time`. */
  function ApplyEdit(s: State, e: Edit, ticksPerSecond: int): State {
    match e
    case IncrementTimeInSeconds(seconds) => s.(time := s.time + seconds * ticksPerSecond)
    case IncrementNumBoardings => s.(data := s.data.(numBoardings := s.data.numBoardings + 1))
    case SetTripId(id) => s.(data := s.data.(tripId := id))
    case SetZone(z) => s.(data := s.data.(zone := z))
    case SetRoute(route) => s.(data := s.data.(route := route))
    case SetFareContext(f) => s.(data := s.data.(fareContext := f))
  }
}
