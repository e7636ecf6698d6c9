/**
 * The transfer penalty of a backward alight: the transfer-table rules,
 * consulted only when the path has alighted before, followed by the
 * transfer-count penalty of the TRANSFERS objective.
 */
module TransferRules {
  import opened TransitTypes

  /** The table's answer for the stop pair, with an unknown transfer replaced
      by the query's minimum transfer time. */
  function EffectiveTransferTime(table: TransferTable, toVertex: VertexId, previousStop: VertexId,
                                 minTransferTime: int): int {
    var t := table.transferTime(toVertex, previousStop);
    if t == table.unknownTransfer then minTransferTime else t
  }

  /** The minimum-time guard as written: a transfer time compared with the sum of
      the state's clock and its last alighting time, scaled by 1000. */
  predicate MinimumTimeGuard(transferTime: int, currentTime: int, lastAlightedTime: int) {
    transferTime > 0 && transferTime > (currentTime + lastAlightedTime) * 1000
  }

  /** The penalty the transfer rules set, or `None` when they forbid the transfer. */
  function RulePenalty(toVertex: VertexId, s0: State, options: TraverseOptions): Option<int> {
    if s0.data.lastAlightedTime == 0 then Some(0)
    else
      var table := options.transferTable;
      var base := if table.hasPreferredTransfers then options.baseTransferPenalty else 0;
      var t := EffectiveTransferTime(table, toVertex, s0.data.previousStop, options.minTransferTime);
      if MinimumTimeGuard(t, s0.time, s0.data.lastAlightedTime) then Some(base)
      else if t == table.forbiddenTransfer then None
      else if t == table.preferredTransfer then Some(0)
      else Some(base)
  }

  /** The penalty charged for boarding again under the TRANSFERS objective. */
  function TransferCountPenalty(s0: State, options: TraverseOptions): int {
    if options.optimizeFor == Transfers && s0.data.trip != -1 then options.optimizeTransferPenalty else 0
  }

  /** The whole transfer penalty, or `None` when the transfer is forbidden. */
  function TransferPenalty(toVertex: VertexId, s0: State, options: TraverseOptions): Option<int> {
    match RulePenalty(toVertex, s0, options)
    case None => None
    case Some(p) => Some(p + TransferCountPenalty(s0, options))
  }

  /** Without a previous alighting the transfer table is not consulted: the
      transfer is never forbidden and only the transfer-count penalty applies. */
  lemma FirstBoardingSkipsTransferRules(toVertex: VertexId, s0: State, options: TraverseOptions)
    requires s0.data.lastAlightedTime == 0
    ensures TransferPenalty(toVertex, s0, options) == Some(TransferCountPenalty(s0, options))
  {
  }

  /** The transfer is refused exactly when the path has alighted before, the
      effective transfer time is the FORBIDDEN sentinel and the minimum-time
      branch was not taken. */
  lemma ForbiddenIff(toVertex: VertexId, s0: State, options: TraverseOptions)
    ensures var t := EffectiveTransferTime(options.transferTable, toVertex, s0.data.previousStop,
                                           options.minTransferTime);
            TransferPenalty(toVertex, s0, options).None? <==>
              (s0.data.lastAlightedTime != 0 && t == options.transferTable.forbiddenTransfer &&
               !MinimumTimeGuard(t, s0.time, s0.data.lastAlightedTime))
  {
  }

  /** A FORBIDDEN lookup refuses the transfer, unless the minimum-time branch
      catches the sentinel first. */
  lemma ForbiddenLookupRejects(toVertex: VertexId, s0: State, options: TraverseOptions)
    requires s0.data.lastAlightedTime != 0
    requires options.transferTable.DistinctSentinels()
    requires options.transferTable.transferTime(toVertex, s0.data.previousStop) == options.transferTable.forbiddenTransfer
    ensures TransferPenalty(toVertex, s0, options).None? <==>
            !MinimumTimeGuard(options.transferTable.forbiddenTransfer, s0.time, s0.data.lastAlightedTime)
  {
  }

  /** A PREFERRED lookup clears the rule penalty, leaving only the
      transfer-count penalty, unless the minimum-time branch catches it first. */
  lemma PreferredClearsPenalty(toVertex: VertexId, s0: State, options: TraverseOptions)
    requires s0.data.lastAlightedTime != 0
    requires options.transferTable.DistinctSentinels()
    requires options.transferTable.transferTime(toVertex, s0.data.previousStop) == options.transferTable.preferredTransfer
    requires !MinimumTimeGuard(options.transferTable.preferredTransfer, s0.time, s0.data.lastAlightedTime)
    ensures TransferPenalty(toVertex, s0, options) == Some(TransferCountPenalty(s0, options))
  {
  }

  /** A lookup with no rule for the pair behaves as a table that answers the
      query's minimum transfer time. */
  lemma UnknownTransferActsAsMinimum(toVertex: VertexId, s0: State, options: TraverseOptions)
    requires options.transferTable.transferTime(toVertex, s0.data.previousStop) == options.transferTable.unknownTransfer
    ensures TransferPenalty(toVertex, s0, options) ==
            TransferPenalty(toVertex, s0, options.(transferTable := options.transferTable.(
              transferTime := (v: VertexId, p: VertexId) => options.minTransferTime)))
  {
  }

  /** An ordinary lookup (a specific transfer time, none of the sentinels)
      outside the minimum-time branch keeps the table's base penalty, plus the
      transfer-count penalty. */
  lemma OrdinaryTransfer(toVertex: VertexId, s0: State, options: TraverseOptions)
    requires s0.data.lastAlightedTime != 0
    requires var table := options.transferTable;
             var t := table.transferTime(toVertex, s0.data.previousStop);
             t != table.unknownTransfer && t != table.forbiddenTransfer && t != table.preferredTransfer &&
             !MinimumTimeGuard(t, s0.time, s0.data.lastAlightedTime)
    ensures TransferPenalty(toVertex, s0, options) ==
            Some((if options.transferTable.hasPreferredTransfers then options.baseTransferPenalty else 0) +
                 TransferCountPenalty(s0, options))
  {
  }

  /** When the minimum-time branch is taken, the FORBIDDEN and PREFERRED
      rules are bypassed: the transfer is allowed and the penalty is the base
      penalty of the table plus the transfer-count penalty. */
  lemma MinimumTimeBranchBypassesRules(toVertex: VertexId, s0: State, options: TraverseOptions)
    requires s0.data.lastAlightedTime != 0
    requires MinimumTimeGuard(EffectiveTransferTime(options.transferTable, toVertex, s0.data.previousStop,
                                                    options.minTransferTime),
                              s0.time, s0.data.lastAlightedTime)
    ensures TransferPenalty(toVertex, s0, options) ==
            Some((if options.transferTable.hasPreferredTransfers then options.baseTransferPenalty else 0) +
                 TransferCountPenalty(s0, options))
  {
  }

  /** Under the TRANSFERS objective, a state that already rode a trip pays
      `optimizeTransferPenalty` on top of whatever the transfer rules decided
      under any other objective. */
  lemma TransferCountPenaltyOnTop(toVertex: VertexId, s0: State, options: TraverseOptions, other: string)
    requires options.optimizeFor == Transfers && s0.data.trip != -1
    ensures var plain := TransferPenalty(toVertex, s0, options.(optimizeFor := OtherObjective(other)));
            TransferPenalty(toVertex, s0, options) ==
            if plain.None? then None else Some(plain.value + options.optimizeTransferPenalty)
  {
  }

  /** With non-negative penalties configured, an allowed transfer is never
      charged a negative penalty. */
  lemma PenaltyNonNegative(toVertex: VertexId, s0: State, options: TraverseOptions)
    requires options.baseTransferPenalty >= 0 && options.optimizeTransferPenalty >= 0
    requires TransferPenalty(toVertex, s0, options).Some?
    ensures TransferPenalty(toVertex, s0, options).value >= 0
  {
  }
}
