/**
 * The alight edge: getting off a scheduled vehicle at a stop.
 *
 * Forward in time the edge only checks accessibility. Backward in time it
 * filters on mode, bicycles and accessibility, picks the wait over the
 * candidate service days, applies the transfer rules and the transfer-count
 * penalty, and produces the boarded state through the state editor.
 *
 * `TraverseBack` is the imperative procedure; `TraverseBackSpec` is its
 * specification, assembled from the filter, `ServiceWait.ScanWait`,
 * `TransferRules.TransferPenalty` and `BoardedState`.
 */
module AlightEdge {
  import opened TransitTypes
  import opened ServiceWait
  import opened TransferRules

  /** An alight edge from the on-vehicle vertex to the stop vertex, with the
      data fixed by its constructor. */
  datatype Alight = Alight(
    fromVertex: VertexId,
    toVertex: VertexId,
    hop: Hop,
    wheelchairAccessible: bool,
    zone: string,
    trip: Trip,
    fareContext: FareContext)

  /** A successful traversal: its weight, the resulting state and the edge. */
  datatype TraverseResult = TraverseResult(weight: int, state: State, edge: Alight)

  /** Forward traversal: refused exactly when the query needs wheelchair access
      and the edge lacks it; otherwise unit weight and the incoming state. */
  function Traverse(edge: Alight, s0: State, wo: TraverseOptions): (r: Option<TraverseResult>)
    ensures r.None? <==> (wo.wheelchairAccessible && !edge.wheelchairAccessible)
    ensures r.Some? ==> r.value.weight == 1 && r.value.state == s0 && r.value.edge == edge
  {
    if wo.wheelchairAccessible && !edge.wheelchairAccessible then None
    else Some(TraverseResult(1, s0, edge))
  }

  /** The three filters of the backward traversal, checked before any calendar work. */
  predicate PassesBackwardFilters(edge: Alight, options: TraverseOptions) {
    && edge.hop.mode in options.modes.modes
    && !(options.modes.bicycle && !edge.hop.bikesAllowed)
    && !(options.wheelchairAccessible && !edge.wheelchairAccessible)
  }

  /** The wait chosen by the service-day loop for this edge and state. */
  function BackwardWait(edge: Alight, s0: State, options: TraverseOptions): int {
    ScanWait(options.serviceDays, s0.time, edge.hop.serviceId, edge.hop.endStopArrivalTime)
  }

  /** The candidate waits of the days that qualify for this edge and state. */
  function BackwardCandidates(edge: Alight, s0: State, options: TraverseOptions): seq<int> {
    Candidates(options.serviceDays, s0.time, edge.hop.serviceId, edge.hop.endStopArrivalTime)
  }

  /** The editor calls of a backward alight, in their order. Their net effect:
      the clock moves back by `wait` seconds, one more boarding, the edge's
      trip id, zone, route and fare context, every other field kept. */
  function BoardedState(edge: Alight, s0: State, wait: int, ticksPerSecond: int): (r: State)
    ensures r.time == s0.time - wait * ticksPerSecond
    ensures r.data == s0.data.(numBoardings := s0.data.numBoardings + 1,
                               tripId := edge.trip.id,
                               zone := edge.zone,
                               route := edge.trip.routeId,
                               fareContext := edge.fareContext)
  {
    var s1 := ApplyEdit(s0, IncrementTimeInSeconds(-wait), ticksPerSecond);
    var s2 := ApplyEdit(s1, IncrementNumBoardings, ticksPerSecond);
    var s3 := ApplyEdit(s2, SetTripId(edge.trip.id), ticksPerSecond);
    var s4 := ApplyEdit(s3, SetZone(edge.zone), ticksPerSecond);
    var s5 := ApplyEdit(s4, SetRoute(edge.trip.routeId), ticksPerSecond);
    ApplyEdit(s5, SetFareContext(edge.fareContext), ticksPerSecond)
  }

  /** Specification of the backward traversal. */
  function TraverseBackSpec(edge: Alight, s0: State, options: TraverseOptions, ticksPerSecond: int): Option<TraverseResult> {
    if !PassesBackwardFilters(edge, options) then None
    else
      var wait := BackwardWait(edge, s0, options);
      if wait < 0 then None
      else match TransferPenalty(edge.toVertex, s0, options)
        case None => None
        case Some(penalty) =>
          Some(TraverseResult(wait + options.boardCost + penalty,
                              BoardedState(edge, s0, wait, ticksPerSecond), edge))
  }

  /** Backward traversal, step by step. The local `currentTime` is adjusted by
      the minimum-time branch and not read again, as at Alight.java:145. */
  method TraverseBack(edge: Alight, state0: State, options: TraverseOptions, ticksPerSecond: int)
    returns (r: Option<TraverseResult>)
    ensures r == TraverseBackSpec(edge, state0, options, ticksPerSecond)
    ensures !PassesBackwardFilters(edge, options) ==> r.None?
    ensures r.Some? ==> BackwardWait(edge, state0, options) >= 0
    ensures r.Some? ==> r.value.weight == BackwardWait(edge, state0, options) + options.boardCost +
                                         TransferPenalty(edge.toVertex, state0, options).value
  {
    if edge.hop.mode !in options.modes.modes {
      return None;
    }
    if options.modes.bicycle && !edge.hop.bikesAllowed {
      return None;
    }
    if options.wheelchairAccessible && !edge.wheelchairAccessible {
      return None;
    }

    var currentTime := state0.time;
    var transferPenalty := 0;
    var data := state0.data;

    // check whether the trip runs on any candidate day
    var serviceId := edge.hop.serviceId;
    var arrival := edge.hop.endStopArrivalTime;
    var days := options.serviceDays;
    var wait := -1;
    for i := 0 to |days|
      invariant wait == ScanWait(days[..i], state0.time, serviceId, arrival)
    {
      var sd := days[i];
      var secondsSinceMidnight := sd.secondsSinceMidnight(currentTime);
      assert days[..i + 1][..i] == days[..i];
      if secondsSinceMidnight < 0 {
        continue;
      }
      if sd.serviceIdRunning(serviceId) {
        var newWait := secondsSinceMidnight - arrival;
        if wait < 0 || newWait < wait {
          wait := newWait;
        }
      }
    }
    assert days[..|days|] == days;
    if wait < 0 {
      return None;
    }

    // transfer rules, only when the path has alighted before
    if data.lastAlightedTime != 0 {
      var transferTable := options.transferTable;
      if transferTable.hasPreferredTransfers {
        transferPenalty := options.baseTransferPenalty;
      }
      var transferTime := transferTable.transferTime(edge.toVertex, data.previousStop);
      if transferTime == transferTable.unknownTransfer {
        transferTime := options.minTransferTime;
      }
      if transferTime > 0 && transferTime > (currentTime + data.lastAlightedTime) * 1000 {
        currentTime := currentTime + data.lastAlightedTime - transferTime * 1000;
      } else if transferTime == transferTable.forbiddenTransfer {
        return None;
      } else if transferTime == transferTable.preferredTransfer {
        transferPenalty := 0;
      }
    }

    assert RulePenalty(edge.toVertex, state0, options) == Some(transferPenalty);
    if options.optimizeFor == Transfers && state0.data.trip != -1 {
      transferPenalty := transferPenalty + options.optimizeTransferPenalty;
    }

    var editor := state0;
    editor := ApplyEdit(editor, IncrementTimeInSeconds(-wait), ticksPerSecond);
    editor := ApplyEdit(editor, IncrementNumBoardings, ticksPerSecond);
    editor := ApplyEdit(editor, SetTripId(edge.trip.id), ticksPerSecond);
    editor := ApplyEdit(editor, SetZone(edge.zone), ticksPerSecond);
    editor := ApplyEdit(editor, SetRoute(edge.trip.routeId), ticksPerSecond);
    editor := ApplyEdit(editor, SetFareContext(edge.fareContext), ticksPerSecond);

    assert editor == BoardedState(edge, state0, wait, ticksPerSecond);
    r := Some(TraverseResult(wait + options.boardCost + transferPenalty, editor, edge));
  }

  /** The accessibility filter refuses a non-accessible edge in both
      directions when the query requires wheelchair access. */
  lemma AccessibilityRejectsBothDirections(edge: Alight, s0: State, options: TraverseOptions, ticksPerSecond: int)
    requires options.wheelchairAccessible && !edge.wheelchairAccessible
    ensures Traverse(edge, s0, options).None?
    ensures TraverseBackSpec(edge, s0, options, ticksPerSecond).None?
  {
  }

  /** The backward traversal is refused exactly when a filter fails, when no
      day qualifies or the last qualifying day proposes a negative wait, or
      when the transfer rules forbid the transfer. */
  lemma BackwardRejectedIff(edge: Alight, s0: State, options: TraverseOptions, ticksPerSecond: int)
    ensures var cs := BackwardCandidates(edge, s0, options);
            TraverseBackSpec(edge, s0, options, ticksPerSecond).None? <==>
              (|| !PassesBackwardFilters(edge, options)
               || cs == [] || Last(cs) < 0
               || TransferPenalty(edge.toVertex, s0, options).None?)
  {
    RejectedIffLastCandidateNegative(options.serviceDays, s0.time, edge.hop.serviceId,
                                     edge.hop.endStopArrivalTime);
  }

  /** When the service runs on no listed day that is not in the future, the
      edge is refused, whatever the state's clock. */
  lemma NoServiceRejects(edge: Alight, s0: State, options: TraverseOptions, ticksPerSecond: int)
    requires forall i :: 0 <= i < |options.serviceDays| ==>
               !Qualifies(options.serviceDays[i], s0.time, edge.hop.serviceId)
    ensures TraverseBackSpec(edge, s0, options, ticksPerSecond).None?
  {
    var days := options.serviceDays;
    if BackwardWait(edge, s0, options) >= 0 {
      WaitComesFromQualifyingDay(days, s0.time, edge.hop.serviceId, edge.hop.endStopArrivalTime);
      assert false;
    }
  }

  /** A successful backward traversal: the wait is non-negative and proposed
      by a qualifying day; the weight is wait plus board cost plus transfer
      penalty; the new state is the old one moved `wait` seconds earlier, with
      one more boarding, the edge's trip, route, zone and fare context, and
      every other field unchanged. */
  lemma BackwardSuccess(edge: Alight, s0: State, options: TraverseOptions, ticksPerSecond: int)
    requires TraverseBackSpec(edge, s0, options, ticksPerSecond).Some?
    ensures var r := TraverseBackSpec(edge, s0, options, ticksPerSecond).value;
            var wait := BackwardWait(edge, s0, options);
            var days := options.serviceDays;
            && wait >= 0
            && (exists i :: 0 <= i < |days| && Qualifies(days[i], s0.time, edge.hop.serviceId) &&
                            CandidateWait(days[i], s0.time, edge.hop.endStopArrivalTime) == wait)
            && r.weight == wait + options.boardCost + TransferPenalty(edge.toVertex, s0, options).value
            && r.edge == edge
            && r.state.time == s0.time - wait * ticksPerSecond
            && r.state.data == s0.data.(numBoardings := s0.data.numBoardings + 1,
                                        tripId := edge.trip.id,
                                        zone := edge.zone,
                                        route := edge.trip.routeId,
                                        fareContext := edge.fareContext)
  {
    WaitComesFromQualifyingDay(options.serviceDays, s0.time, edge.hop.serviceId,
                               edge.hop.endStopArrivalTime);
  }

  /** When every qualifying day proposes a non-negative wait, a successful
      backward traversal waits the least of them. */
  lemma BackwardWaitIsMinimum(edge: Alight, s0: State, options: TraverseOptions, ticksPerSecond: int)
    requires BackwardCandidates(edge, s0, options) != []
    requires var cs := BackwardCandidates(edge, s0, options);
             forall i :: 0 <= i < |cs| ==> cs[i] >= 0
    requires TraverseBackSpec(edge, s0, options, ticksPerSecond).Some?
    ensures var cs := BackwardCandidates(edge, s0, options);
            var r := TraverseBackSpec(edge, s0, options, ticksPerSecond).value;
            r.state.time == s0.time - Minimum(cs) * ticksPerSecond
  {
    var cs := BackwardCandidates(edge, s0, options);
    WaitIsMinimumWhenAllNonNegative(options.serviceDays, s0.time, edge.hop.serviceId,
                                    edge.hop.endStopArrivalTime);
    assert BackwardWait(edge, s0, options) == Minimum(cs);
  }

  /** With non-negative board cost and penalties, a backward traversal never
      has negative weight, and with a non-negative clock resolution it never
      moves the clock forward. */
  lemma BackwardWeightNonNegative(edge: Alight, s0: State, options: TraverseOptions, ticksPerSecond: int)
    requires options.boardCost >= 0 && options.baseTransferPenalty >= 0 && options.optimizeTransferPenalty >= 0
    requires ticksPerSecond >= 0
    requires TraverseBackSpec(edge, s0, options, ticksPerSecond).Some?
    ensures TraverseBackSpec(edge, s0, options, ticksPerSecond).value.weight >= 0
    ensures TraverseBackSpec(edge, s0, options, ticksPerSecond).value.state.time <= s0.time
  {
    PenaltyNonNegative(edge.toVertex, s0, options);
    var wait := BackwardWait(edge, s0, options);
    assert wait * ticksPerSecond >= 0;
  }

  /** The minimum-time adjustment of the clock is never read: when that branch
      is taken, the traversal succeeds with the state and weight it would have
      without any transfer rule but the table's base penalty. */
  lemma MinimumTimeAdjustmentUnread(edge: Alight, s0: State, options: TraverseOptions, ticksPerSecond: int)
    requires PassesBackwardFilters(edge, options)
    requires BackwardWait(edge, s0, options) >= 0
    requires s0.data.lastAlightedTime != 0
    requires MinimumTimeGuard(EffectiveTransferTime(options.transferTable, edge.toVertex, s0.data.previousStop,
                                                    options.minTransferTime),
                              s0.time, s0.data.lastAlightedTime)
    ensures var wait := BackwardWait(edge, s0, options);
            var base := if options.transferTable.hasPreferredTransfers then options.baseTransferPenalty else 0;
            TraverseBackSpec(edge, s0, options, ticksPerSecond) ==
              Some(TraverseResult(wait + options.boardCost + base + TransferCountPenalty(s0, options),
                                  BoardedState(edge, s0, wait, ticksPerSecond), edge))
  {
    MinimumTimeBranchBypassesRules(edge.toVertex, s0, options);
  }

  /** The resulting state does not depend on the transfer table or the
      minimum transfer time: two queries that differ only there, and both
      succeed, give the same state. */
  lemma StateIndependentOfTransferRules(edge: Alight, s0: State, options: TraverseOptions,
                                        table: TransferTable, minTransferTime: int, ticksPerSecond: int)
    requires TraverseBackSpec(edge, s0, options, ticksPerSecond).Some?
    requires TraverseBackSpec(edge, s0, options.(transferTable := table, minTransferTime := minTransferTime),
                              ticksPerSecond).Some?
    ensures TraverseBackSpec(edge, s0, options, ticksPerSecond).value.state ==
            TraverseBackSpec(edge, s0, options.(transferTable := table, minTransferTime := minTransferTime),
                             ticksPerSecond).value.state
  {
  }

  /** A first boarding on the only running day: arriving at 500 s, traversed
      back from 520 s past that day's midnight with board cost 10, the edge
      waits 20 s, weighs 30 and moves the clock 20 s earlier. */
  lemma FirstBoardingScenario(edge: Alight, s0: State, options: TraverseOptions, ticksPerSecond: int)
    requires PassesBackwardFilters(edge, options)
    requires edge.hop.endStopArrivalTime == 500
    requires |options.serviceDays| == 1
    requires options.serviceDays[0].secondsSinceMidnight(s0.time) == 520
    requires options.serviceDays[0].serviceIdRunning(edge.hop.serviceId)
    requires options.boardCost == 10 && options.optimizeFor != Transfers
    requires s0.data.lastAlightedTime == 0
    ensures TraverseBackSpec(edge, s0, options, ticksPerSecond).Some?
    ensures var r := TraverseBackSpec(edge, s0, options, ticksPerSecond).value;
            r.weight == 30 && r.state.time == s0.time - 20 * ticksPerSecond &&
            r.state.data.numBoardings == s0.data.numBoardings + 1
  {
    var days := options.serviceDays;
    assert days[..0] == [];
    assert ScanWait(days, s0.time, edge.hop.serviceId, 500) ==
           Step(ScanWait(days[..0], s0.time, edge.hop.serviceId, 500), days[0], s0.time, edge.hop.serviceId, 500);
    assert BackwardWait(edge, s0, options) == 20;
    FirstBoardingSkipsTransferRules(edge.toVertex, s0, options);
    assert TransferPenalty(edge.toVertex, s0, options) == Some(0);
  }
}
