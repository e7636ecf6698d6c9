# Alight edge of the OpenTripPlanner transit router, in Dafny

This project models `Alight`, the graph edge for getting off a scheduled
vehicle in OpenTripPlanner's time-dependent router, and proves what its two
traversal rules do.

- **Forward** (`traverse`): the edge is refused only when the query requires
  wheelchair access and the edge lacks it. Otherwise the weight is 1 and the
  state passes through unchanged.
- **Backward** (`traverseBack`):
  1. filters on mode, bicycles and accessibility;
  2. loops over the query's candidate service days to choose a wait;
  3. applies the transfer-table rules (minimum time, forbidden, preferred),
     only when the path has alighted before;
  4. adds the transfer-count penalty of the TRANSFERS objective;
  5. builds the new state with the state editor. The weight is
     `wait + boardCost + transfer penalty`.

Files:

- `transit_types.dfy` (module `TransitTypes`): the collaborators as plain
  values. A service day is the pair of questions the edge asks of it. The
  transfer table is its preferred flag, a total lookup function and three
  symbolic sentinels. The state and its trip context are one datatype. The
  editor is `ApplyEdit`, one editor call applied to a copy of the state.
- `service_wait.dfy` (module `ServiceWait`): the day loop as written
  (`ScanWait`). It also holds an independent closed form (`SettledWait` over
  the qualifying days' candidate waits) and the proof that the two agree.
- `transfer_rules.dfy` (module `TransferRules`): the transfer penalty, or a
  refusal.
- `alight.dfy` (module `AlightEdge`): the edge, the forward rule
  `Traverse`, the imperative `TraverseBack` method with its loop invariant,
  its specification `TraverseBackSpec`, and end-to-end lemmas.

What the proofs establish about the code as written:

- The day loop is order-sensitive. Its outcome is -1 when no day qualifies.
  Otherwise it is the last qualifying day's candidate when that is negative,
  and else the minimum of the trailing run of non-negative candidates. So the
  edge is refused exactly when no day qualifies or the LAST qualifying day
  proposes a negative wait, whatever earlier days proposed. The wait is the
  plain minimum only when every candidate is non-negative.
- The clock adjustment in the minimum-time branch (`current_time += …`,
  Alight.java:145) is never read. Its only effect is to skip the FORBIDDEN
  and PREFERRED checks. The resulting state never depends on the transfer
  table.
- With non-negative board cost and penalties, the backward weight is never
  negative, and the clock never moves forward.

Further facts about Alight.java that the model keeps as written:

- A negative wait is always refused (Alight.java:124), and the update rule
  at Alight.java:119 is not a minimum when signs are mixed.
- This edge never sets `lastAlightedTime`; the model keeps it unchanged.
- The minimum-time branch adjusts a local that is never read
  (Alight.java:145), so no timestamp moves.
- `trip` (an integer compared with -1, read at Alight.java:154) and `tripId`
  (a GTFS id, written with `setTripId` at Alight.java:163) are separate
  fields; the edge writes only `tripId`.

## Model

| member | source | states |
|---|---|---|
| `AlightEdge.Traverse` | opentripplanner-routing/src/main/java/org/opentripplanner/routing/edgetype/Alight.java:87-92 | refused exactly when wheelchair access is required and the edge is not accessible; otherwise weight 1, the incoming state and this edge |
| `AlightEdge.TraverseBack` | opentripplanner-routing/src/main/java/org/opentripplanner/routing/edgetype/Alight.java:94-169 | the step-by-step procedure (filters, day loop with invariant, transfer rules, editor calls) yields exactly `TraverseBackSpec`; a failed filter refuses; success implies a non-negative wait and weight = wait + boardCost + transfer penalty |
| `AlightEdge.TraverseBackSpec` | opentripplanner-routing/src/main/java/org/opentripplanner/routing/edgetype/Alight.java:94-169 | no contract of its own: the backward rule as one function (filters, day loop, transfer penalty, boarded state); `BackwardRejectedIff` states exactly when it refuses and `BackwardSuccess` states its result field by field |
| `AlightEdge.BoardedState` | opentripplanner-routing/src/main/java/org/opentripplanner/routing/edgetype/Alight.java:160-166 | the six editor calls in order amount to: clock back by `wait` seconds, one more boarding, trip id, zone, route and fare context from the edge, every other field unchanged |
| `AlightEdge.AccessibilityRejectsBothDirections` | opentripplanner-routing/src/main/java/org/opentripplanner/routing/edgetype/Alight.java:88-103 | a non-accessible edge is refused forward and backward when wheelchair access is required |
| `AlightEdge.BackwardRejectedIff` | opentripplanner-routing/src/main/java/org/opentripplanner/routing/edgetype/Alight.java:95-152 | backward refusal iff a mode/bicycle/accessibility filter fails, or no day qualifies, or the last qualifying day's wait is negative, or the transfer is forbidden |
| `AlightEdge.NoServiceRejects` | opentripplanner-routing/src/main/java/org/opentripplanner/routing/edgetype/Alight.java:111-126 | if no listed day is both not in the future and running the service, the edge is refused for every clock value |
| `AlightEdge.BackwardSuccess` | opentripplanner-routing/src/main/java/org/opentripplanner/routing/edgetype/Alight.java:111-168 | on success the wait is ≥ 0 and proposed by a qualifying day; weight = wait + boardCost + penalty; time moves back by wait seconds; boardings + 1; tripId, zone, route, fare context from the edge; all other fields unchanged |
| `AlightEdge.BackwardWaitIsMinimum` | opentripplanner-routing/src/main/java/org/opentripplanner/routing/edgetype/Alight.java:112-123 | when every qualifying day proposes a non-negative wait, the clock moves back by the least of them |
| `AlightEdge.BackwardWeightNonNegative` | opentripplanner-routing/src/main/java/org/opentripplanner/routing/edgetype/Alight.java:124-168 | with non-negative board cost and penalties the weight is ≥ 0 and the clock does not move forward |
| `AlightEdge.MinimumTimeAdjustmentUnread` | opentripplanner-routing/src/main/java/org/opentripplanner/routing/edgetype/Alight.java:143-168 | when the minimum-time branch is taken the result is the boarded state and weight wait + boardCost + base penalty + transfer-count penalty, regardless of the transfer time |
| `AlightEdge.StateIndependentOfTransferRules` | opentripplanner-routing/src/main/java/org/opentripplanner/routing/edgetype/Alight.java:132-166 | two successful queries differing only in transfer table and minimum transfer time yield the same state |
| `AlightEdge.FirstBoardingScenario` | opentripplanner-routing/src/main/java/org/opentripplanner/routing/edgetype/Alight.java:105-168 | arrival 500 s, clock 520 s past midnight on the one running day, board cost 10, first boarding: weight 30, clock 20 s earlier, one more boarding |
| `ServiceWait.ScanWait` | opentripplanner-routing/src/main/java/org/opentripplanner/routing/edgetype/Alight.java:111-123 | no contract of its own: the day loop from `wait = -1`, one day per step (skip days in the future, replace when the wait is negative or the new one smaller); `ScanWaitClosedForm` characterises it |
| `ServiceWait.ScanWaitClosedForm` | opentripplanner-routing/src/main/java/org/opentripplanner/routing/edgetype/Alight.java:111-123 | the day loop equals the closed form: -1 with no qualifying day, the last candidate if negative, else the minimum of the trailing non-negative candidates |
| `ServiceWait.SkippedDayIgnored` | opentripplanner-routing/src/main/java/org/opentripplanner/routing/edgetype/Alight.java:113-117 | inserting a day that is in the future or does not run the service, anywhere in the list, leaves the wait unchanged |
| `ServiceWait.RejectedIffLastCandidateNegative` | opentripplanner-routing/src/main/java/org/opentripplanner/routing/edgetype/Alight.java:111-126 | the loop's wait is negative iff no day qualifies or the last qualifying day's candidate is negative |
| `ServiceWait.WaitIsMinimumWhenAllNonNegative` | opentripplanner-routing/src/main/java/org/opentripplanner/routing/edgetype/Alight.java:118-121 | if all candidates are non-negative, the wait is one of them and no greater than any |
| `ServiceWait.WaitComesFromQualifyingDay` | opentripplanner-routing/src/main/java/org/opentripplanner/routing/edgetype/Alight.java:112-123 | a non-negative wait is the candidate of some listed day that is not in the future and runs the service |
| `ServiceWait.DayOrderMatters` | opentripplanner-routing/src/main/java/org/opentripplanner/routing/edgetype/Alight.java:119-121 | a non-negative candidate followed by a negative one ends negative (refusal); the reverse order ends on the non-negative one |
| `TransferRules.TransferPenalty` | opentripplanner-routing/src/main/java/org/opentripplanner/routing/edgetype/Alight.java:132-158 | no contract of its own: the transfer-rule penalty or a refusal, plus the transfer-count penalty; `ForbiddenIff` states when it refuses, and the lemmas below state its value in each branch |
| `TransferRules.OrdinaryTransfer` | opentripplanner-routing/src/main/java/org/opentripplanner/routing/edgetype/Alight.java:139-151 | a specific transfer time (no sentinel) outside the minimum-time branch keeps the base penalty (or 0) plus the transfer-count penalty |
| `TransferRules.FirstBoardingSkipsTransferRules` | opentripplanner-routing/src/main/java/org/opentripplanner/routing/edgetype/Alight.java:132 | with no previous alighting the table is not consulted: never forbidden, only the transfer-count penalty |
| `TransferRules.ForbiddenIff` | opentripplanner-routing/src/main/java/org/opentripplanner/routing/edgetype/Alight.java:132-147 | the transfer is refused iff the path alighted before, the effective transfer time is FORBIDDEN and the minimum-time guard fails |
| `TransferRules.ForbiddenLookupRejects` | opentripplanner-routing/src/main/java/org/opentripplanner/routing/edgetype/Alight.java:139-147 | a FORBIDDEN lookup refuses iff the minimum-time guard does not catch it first |
| `TransferRules.PreferredClearsPenalty` | opentripplanner-routing/src/main/java/org/opentripplanner/routing/edgetype/Alight.java:148-151 | a PREFERRED lookup outside the minimum-time branch leaves only the transfer-count penalty |
| `TransferRules.UnknownTransferActsAsMinimum` | opentripplanner-routing/src/main/java/org/opentripplanner/routing/edgetype/Alight.java:139-142 | an UNKNOWN lookup gives the same outcome as a table answering the minimum transfer time |
| `TransferRules.MinimumTimeBranchBypassesRules` | opentripplanner-routing/src/main/java/org/opentripplanner/routing/edgetype/Alight.java:135-151 | when the minimum-time guard holds the penalty is the table's base penalty (or 0) plus the transfer-count penalty, never a refusal |
| `TransferRules.TransferCountPenaltyOnTop` | opentripplanner-routing/src/main/java/org/opentripplanner/routing/edgetype/Alight.java:154-158 | under TRANSFERS with a previous trip the penalty is that of any other objective plus `optimizeTransferPenalty` |
| `TransferRules.PenaltyNonNegative` | opentripplanner-routing/src/main/java/org/opentripplanner/routing/edgetype/Alight.java:135-158 | with non-negative base and transfer-count penalties an allowed transfer's penalty is ≥ 0 |

## Left out

- The accessors `getDirection`, `getDistance`, `getGeometry`, `getMode`,
  `getName` and `getTrip` (Alight.java:62-85) return constants or delegate;
  `Geometry` is a foreign type.
- Java serialization and the `AbstractEdge` / `OnBoardReverseEdge`
  hierarchy, including how `fromv` and `tov` are stored.
- The internals of `ServiceDay`, `TransferTable`, `TraverseModeSet`,
  `State`, `StateData.Editor`, `Hop`, `Trip` and `FareContext`. They are not
  part of this model. Each is modelled only as the values the edge reads:
  - A service day is a pair of total functions.
  - The transfer table's sentinel constants are symbolic fields of the table
    value, not static constants.
  - The bicycle flag of the mode set is independent of its mode set.
- The unit of `State.time` is not part of this model. `incrementTimeInSeconds`
  is applied with an explicit `ticksPerSecond` parameter.
- The chaining of a new `State` to its predecessor and to the edge, used to
  rebuild paths. The editor's result is a new value; the old state is never
  altered.
- AlightEdge.Traverse: returns a state equal to the incoming one. Java's
  object identity of that state is not modelled.
- AlightEdge.TraverseBack: integers are unbounded. The 32-bit `int` arithmetic
  of `newWait` and `transfer_time * 1000`, and the 64-bit `long` arithmetic of
  the guard and the weight, are not modelled. The weight is an integer, not the
  `double` that `TraverseResult` holds.
- Null references (for example a null zone or trip) are outside the model.
- Fare computation; the fare context is only copied.
