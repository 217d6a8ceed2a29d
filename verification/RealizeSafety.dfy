/**
  Yield-realize withdrawals: one that was approved against the spendable yield and lands at the same rate leaves the
  principal basis alone, whatever happened to the ledger between its preparation and its confirmation.
 */
module RealizeSafety {
  import opened Wrappers
  import opened RawUnits
  import opened Models
  import opened Budget
  import opened Ledger
  import opened LedgerInvariants
  import opened LedgerAccounting
  import VaultAdapter

  /** What approval of a realize withdrawal means for the position it was approved on. */
  lemma ApprovalLeavesRoom(s: LedgerState, input: WithdrawalInput)
    requires input.yieldRealize && PrepareWithdrawal(s, input).reply.Done?
    ensures
      && input.key in s.positions
      && input.exchangeRateScaled > 0
      && input.withdrawalPenaltyBps < VaultAdapter.FULL_BPS
      && OnchainShares(input) == s.positions[input.key].totalSharesRaw
      && ApprovedShares(input) <= OnchainShares(input)
      && PositionValue(OnchainShares(input), input.exchangeRateScaled)
         >= Committed(s.positions[input.key]) + WithdrawalGross(input) + input.realizeOverheadRawUsdc
  {
    EvaluationGrantsExactlyTheSurplus(OnFreshChain(s.positions[input.key], input), input.amountRawUsdc,
                                      input.realizeOverheadRawUsdc, Some(WithdrawalGross(input)), 0);
  }

  /** The shares the gross needs, and the most that burning them can take off the position value. */
  function NeededShares(input: WithdrawalInput): nat
    requires input.exchangeRateScaled > 0 && input.withdrawalPenaltyBps < VaultAdapter.FULL_BPS
  {
    CeilDiv(WithdrawalGross(input) * RATE_SCALE, input.exchangeRateScaled)
  }

  function WorstBurn(input: WithdrawalInput): nat
    requires input.exchangeRateScaled > 0 && input.withdrawalPenaltyBps < VaultAdapter.FULL_BPS
  {
    MulDivCeil(NeededShares(input), input.exchangeRateScaled, RATE_SCALE)
  }

  /** Computable before the call: the room an approval proves, gross and overhead, covers the worst burn. */
  predicate HeadroomCoversBurn(input: WithdrawalInput)
    requires input.exchangeRateScaled > 0 && input.withdrawalPenaltyBps < VaultAdapter.FULL_BPS
  {
    WorstBurn(input) <= WithdrawalGross(input) + input.realizeOverheadRawUsdc
  }

  lemma BurnCostsAtMostWorstBurn(input: WithdrawalInput, burned: nat)
    requires input.exchangeRateScaled > 0 && input.withdrawalPenaltyBps < VaultAdapter.FULL_BPS
    requires burned <= ApprovedShares(input)
    ensures PositionValue(OnchainShares(input) - burned, input.exchangeRateScaled) + WorstBurn(input)
            >= PositionValue(OnchainShares(input), input.exchangeRateScaled)
  {
    var rate := input.exchangeRateScaled;
    MulMonotone(burned, NeededShares(input), rate);
    BurnLossBound(OnchainShares(input), burned, rate, 0, NeededShares(input) * rate);
  }

  /** Burning what the gross needs costs at least the gross, and less than one ceiling share beyond it. */
  lemma BurnCostsAtMostOneShareMore(input: WithdrawalInput)
    requires input.exchangeRateScaled > 0 && input.withdrawalPenaltyBps < VaultAdapter.FULL_BPS
    ensures NeededShares(input) * input.exchangeRateScaled
            < WithdrawalGross(input) * RATE_SCALE + input.exchangeRateScaled
    ensures WithdrawalGross(input) <= WorstBurn(input)
    ensures WorstBurn(input) <= WithdrawalGross(input) + CeilDiv(input.exchangeRateScaled, RATE_SCALE)
  {
  }

  /** In particular the headroom covers the burn whenever one share is worth at most the overhead. */
  lemma CheapSharesAreCovered(input: WithdrawalInput)
    requires input.exchangeRateScaled > 0 && input.withdrawalPenaltyBps < VaultAdapter.FULL_BPS
    requires CeilDiv(input.exchangeRateScaled, RATE_SCALE) <= input.realizeOverheadRawUsdc
    ensures HeadroomCoversBurn(input)
  {
    BurnCostsAtMostOneShareMore(input);
  }

  // ---- the principal between preparation and confirmation

  predicate SyncsNothing(actions: seq<Action>, key: PositionKey) {
    forall i | 0 <= i < |actions| :: !(actions[i].Sync? && actions[i].key == key)
  }

  predicate StillOpen(s: LedgerState, i: nat) {
    i < |s.flows| && FlowPending(s.flows[i], s.now)
  }

  /** Going back in time: a flow that is open now was open one step earlier. */
  lemma OpenBefore(s: LedgerState, a: Action, i: nat)
    requires i < |s.flows| && StillOpen(Step(s, a), i)
    requires RequestsDisciplined(s.payments)
    ensures StillOpen(s, i) && Step(s, a).flows[i].key == s.flows[i].key
  {
    StepMovesFlows(s, a);
    StepFrame(s, a);
    assert FlowKept(s.flows[i], Step(s, a).flows[i], s.now);
  }

  lemma PrepareKeepsPrincipal(s0: LedgerState, input: PrepareInput, key: PositionKey)
    ensures PrincipalOf(PreparePayment(s0, input).state, key) == PrincipalOf(s0, key)
  {
    if input.key in s0.positions {
      var s := ExpirePreparedPayments(s0, input.key);
      PreparedStates(s0, input);
      SnapshotLogsNothing(s, input, s.positions[input.key], None);
      if input.quote.Some? {
        QuoteKeepsPrincipal(s, input, s.positions[input.key], input.quote.value, key);
      }
    }
  }

  lemma QuoteKeepsPrincipal(s: LedgerState, input: PrepareInput, position: WalletPosition, chain: ChainQuote,
                            key: PositionKey)
    requires input.key in s.positions && s.positions[input.key] == position
    ensures PrincipalOf(PrepareOnQuote(s, input, position, chain).state, key) == PrincipalOf(s, key)
  {
    var quote := VaultAdapter.SettlementQuoteFor(input.amountRawUsdc, chain.vault);
    if quote.Success? && chain.stakedSharesRaw + chain.unstakedSharesRaw == position.totalSharesRaw {
      var working := WorkingPosition(position, chain);
      var u := SavePosition(s, input.key, working);
      SnapshotLogsNothing(u, input, working, Some(quote.value));
      assert PrincipalOf(u, key) == PrincipalOf(s, key);
    }
  }

  /** A landed flow moves the principal of its own position only, and leaves none of that position's flows open. */
  lemma LandingFreezesOthers(s: LedgerState, id: nat, landed: LandedFlow, i: nat)
    requires StoresConsistent(s)
    requires StillOpen(s, i) && StillOpen(FinalizeFlow(s, id, landed).state, i)
    ensures PrincipalOf(FinalizeFlow(s, id, landed).state, s.flows[i].key) == PrincipalOf(s, s.flows[i].key)
  {
    var found := FlowIndex(s.flows, id);
    if found.Some? && s.flows[found.value].key == s.flows[i].key && s.flows[found.value].status.FlowSubmitted? {
      assert false;
    }
  }

  lemma QuietStepsKeepPrincipal(s: LedgerState, a: Action, key: PositionKey)
    requires a.Tick? || a.Register? || a.ReadBudget? || a.ExpirePayment? || a.Begin? || a.MarkSubmitted?
             || a.RecordPending?
             || a.StartDeposit? || a.Submit? || a.ReadStatus? || a.Abandon? || (a.Sync? && a.key != key)
    ensures PrincipalOf(Step(s, a), key) == PrincipalOf(s, key)
  {
  }

  /** While a flow of a position stays open, only a sync of that position can move its principal. */
  lemma OpenFlowFreezesPrincipal(s: LedgerState, a: Action, i: nat)
    requires StoresConsistent(s)
    requires StillOpen(s, i) && StillOpen(Step(s, a), i)
    requires !(a.Sync? && a.key == s.flows[i].key)
    ensures PrincipalOf(Step(s, a), s.flows[i].key) == PrincipalOf(s, s.flows[i].key)
  {
    var key := s.flows[i].key;
    match a
    case Prepare(input) => PrepareKeepsPrincipal(s, input, key);
    case StartWithdrawal(input) => WithdrawalPositions(s, input);
    case Finalize(id, result) => FinalizeKeepsPrincipal(s, id, result, key);
    case FinalizeLanded(id, landed) => LandingFreezesOthers(s, id, landed, i);
    case _ => QuietStepsKeepPrincipal(s, a, key);
  }

  lemma FinalizeKeepsPrincipal(s: LedgerState, id: nat, result: SettlementResult, key: PositionKey)
    ensures PrincipalOf(FinalizeSubmittedPayment(s, id, result).state, key) == PrincipalOf(s, key)
  {
  }

  lemma {:induction false} OpenFlowFreezesPrincipalOverRuns(s: LedgerState, actions: seq<Action>, i: nat)
    requires StoresConsistent(s)
    requires i < |s.flows| && StillOpen(RunAll(s, actions), i)
    requires SyncsNothing(actions, s.flows[i].key)
    ensures StillOpen(s, i)
    ensures RunAll(s, actions).flows[i].key == s.flows[i].key
    ensures PrincipalOf(RunAll(s, actions), s.flows[i].key) == PrincipalOf(s, s.flows[i].key)
    decreases |actions|
  {
    if actions != [] {
      var u := Step(s, actions[0]);
      StepKeepsStores(s, actions[0]);
      StepMovesFlows(s, actions[0]);
      assert FlowKept(s.flows[i], u.flows[i], s.now);
      OpenFlowFreezesPrincipalOverRuns(u, actions[1..], i);
      OpenBefore(s, actions[0], i);
      OpenFlowFreezesPrincipal(s, actions[0], i);
    }
  }

  /** The chain burned some of the approved shares and nothing else moved; the rate is the one of the approval. */
  predicate LandsAsApproved(input: WithdrawalInput, landed: LandedFlow, burned: nat)
    requires input.exchangeRateScaled > 0 && input.withdrawalPenaltyBps < VaultAdapter.FULL_BPS
  {
    && landed.refreshed.Some?
    && landed.refreshed.value.exchangeRateScaled == input.exchangeRateScaled
    && landed.refreshed.value.stakedSharesRaw + landed.refreshed.value.unstakedSharesRaw + burned
       == OnchainShares(input)
    && burned <= ApprovedShares(input)
  }

  /**
    Prepare a yield-realize withdrawal, let anything else happen to the ledger but a sync of this position, and land
    it as approved.  If the headroom covers the worst burn, the principal basis does not move.
   */
  lemma RealizeNeverTouchesPrincipal(
    s: LedgerState, input: WithdrawalInput, meanwhile: seq<Action>, landed: LandedFlow, burned: nat)
    requires StoresConsistent(s)
    requires RealizeLands(s, input, meanwhile, landed, burned)
    requires HeadroomCoversBurn(input)
    ensures PrincipalStays(s, input, meanwhile, landed)
  {
    var v := Step(s, StartWithdrawal(input));
    var u := RunAll(v, meanwhile);
    var i := |s.flows|;
    StepKeepsStores(s, StartWithdrawal(input));
    ApprovedFlow(s, input);
    ApprovalLeavesRoom(s, input);
    BurnCostsAtMostWorstBurn(input, burned);
    OpenFlowFreezesPrincipalOverRuns(v, meanwhile, i);
    RunsOnlyAdvanceRecords(v, meanwhile);
    assert FlowOutlives(v.flows[i], u.flows[i]);
    EveryRunKeepsStores(v, meanwhile);
    LandingKeepsPrincipal(u, i, input, landed, burned);
  }

  /**
    A yield-realize is approved, other things happen but no sync of its position, and it is about to land as
    approved.
   */
  predicate RealizeLands(
    s: LedgerState, input: WithdrawalInput, meanwhile: seq<Action>, landed: LandedFlow, burned: nat)
  {
    var u := RunAll(Step(s, StartWithdrawal(input)), meanwhile);
    && input.yieldRealize && PrepareWithdrawal(s, input).reply.Done?
    && SyncsNothing(meanwhile, input.key)
    && |s.flows| < |u.flows| && u.flows[|s.flows|].status.FlowSubmitted?
    && input.exchangeRateScaled > 0 && input.withdrawalPenaltyBps < VaultAdapter.FULL_BPS
    && LandsAsApproved(input, landed, burned)
  }

  predicate PrincipalStays(s: LedgerState, input: WithdrawalInput, meanwhile: seq<Action>, landed: LandedFlow) {
    var t := FinalizeFlow(RunAll(Step(s, StartWithdrawal(input)), meanwhile), input.flowId, landed).state;
    && input.key in s.positions && input.key in t.positions
    && t.positions[input.key].principalBasisRawUsdc == s.positions[input.key].principalBasisRawUsdc
  }

  lemma ApprovedFlow(s: LedgerState, input: WithdrawalInput)
    requires PrepareWithdrawal(s, input).reply.Done?
    ensures
      var v := Step(s, StartWithdrawal(input));
      && |v.flows| == |s.flows| + 1
      && v.flows[|s.flows|].key == input.key && v.flows[|s.flows|].flowId == input.flowId
      && v.flows[|s.flows|].kind == (if input.yieldRealize then YieldRealize else NormalWithdrawal)
      && forall key :: PrincipalOf(v, key) == PrincipalOf(s, key)
  {
    WithdrawalShape(s, input);
    WithdrawalPositions(s, input);
    WithdrawalStages(s, input);
  }

  lemma LandingKeepsPrincipal(u: LedgerState, i: nat, input: WithdrawalInput, landed: LandedFlow, burned: nat)
    requires StoresConsistent(u)
    requires i < |u.flows| && u.flows[i].flowId == input.flowId && u.flows[i].key == input.key
    requires u.flows[i].kind.YieldRealize? && u.flows[i].status.FlowSubmitted?
    requires input.exchangeRateScaled > 0 && input.withdrawalPenaltyBps < VaultAdapter.FULL_BPS
    requires LandsAsApproved(input, landed, burned)
    requires PositionValue(OnchainShares(input) - burned, input.exchangeRateScaled) >= PrincipalOf(u, input.key)
    ensures PrincipalOf(FinalizeFlow(u, input.flowId, landed).state, input.key) == PrincipalOf(u, input.key)
    ensures input.key in FinalizeFlow(u, input.flowId, landed).state.positions
  {
    var found := FlowIndex(u.flows, input.flowId);
    assert found.Some? && found.value == i;
  }

  // ---- the headroom is exactly what it takes

  /** One life of a yield-realize withdrawal, from an empty ledger to its landing. */
  datatype Realization = Realization(
    before: seq<Action>,
    input: WithdrawalInput,
    meanwhile: seq<Action>,
    landed: LandedFlow,
    burned: nat)

  /** The figures a caller knows before the call. */
  predicate SameTerms(input: WithdrawalInput, terms: WithdrawalInput) {
    && input.yieldRealize == terms.yieldRealize
    && input.amountRawUsdc == terms.amountRawUsdc
    && input.exchangeRateScaled == terms.exchangeRateScaled
    && input.withdrawalPenaltyBps == terms.withdrawalPenaltyBps
    && input.withdrawalPenaltyLamports == terms.withdrawalPenaltyLamports
    && input.realizeOverheadRawUsdc == terms.realizeOverheadRawUsdc
  }

  predicate Happens(r: Realization, terms: WithdrawalInput) {
    SameTerms(r.input, terms) && RealizeLands(RunAll(Initial(0), r.before), r.input, r.meanwhile, r.landed, r.burned)
  }

  predicate KeepsPrincipal(r: Realization) {
    PrincipalStays(RunAll(Initial(0), r.before), r.input, r.meanwhile, r.landed)
  }

  /**
    For every amount, rate, penalty and overhead: no reachable ledger that approves such a realize, no run in between
    and no landing within the approval lowers the principal if and only if the headroom covers the worst burn.
   */
  lemma PrincipalSafeExactlyWhenHeadroomCoversBurn(terms: WithdrawalInput)
    requires terms.yieldRealize && terms.exchangeRateScaled > 0 && terms.withdrawalPenaltyBps < VaultAdapter.FULL_BPS
    ensures (forall r: Realization | Happens(r, terms) :: KeepsPrincipal(r)) <==> HeadroomCoversBurn(terms)
  {
    if HeadroomCoversBurn(terms) {
      forall r: Realization | Happens(r, terms) ensures KeepsPrincipal(r) {
        var s := RunAll(Initial(0), r.before);
        ReachableStoresAreConsistent(0, r.before);
        assert WithdrawalGross(r.input) == WithdrawalGross(terms);
        RealizeNeverTouchesPrincipal(s, r.input, r.meanwhile, r.landed, r.burned);
      }
    } else {
      UncoveredBurnDigsIntoPrincipal(terms);
    }
  }

  function WitnessWallet(): PositionKey {
    PositionKey("wallet", "vault")
  }

  /** Enough shares for their value to be whole, so that burning loses its full ceiling. */
  function WholeShares(terms: WithdrawalInput): nat
    requires terms.exchangeRateScaled > 0 && terms.withdrawalPenaltyBps < VaultAdapter.FULL_BPS
  {
    NeededShares(terms) * RATE_SCALE
  }

  /** The principal that leaves exactly the room an approval asks for. */
  function TightPrincipal(terms: WithdrawalInput): int
    requires terms.exchangeRateScaled > 0 && terms.withdrawalPenaltyBps < VaultAdapter.FULL_BPS
  {
    NeededShares(terms) * terms.exchangeRateScaled - WithdrawalGross(terms) - terms.realizeOverheadRawUsdc
  }

  lemma TightFigures(terms: WithdrawalInput)
    requires terms.yieldRealize && terms.exchangeRateScaled > 0 && terms.withdrawalPenaltyBps < VaultAdapter.FULL_BPS
    requires !HeadroomCoversBurn(terms)
    ensures WithdrawalGross(terms) > 0 && 0 < NeededShares(terms) <= WholeShares(terms)
    ensures TightPrincipal(terms) >= 0
    ensures PositionValue(WholeShares(terms), terms.exchangeRateScaled)
            == TightPrincipal(terms) + WithdrawalGross(terms) + terms.realizeOverheadRawUsdc
    ensures PositionValue(WholeShares(terms) - NeededShares(terms), terms.exchangeRateScaled) < TightPrincipal(terms)
  {
    var needed, rate, gross := NeededShares(terms), terms.exchangeRateScaled, WithdrawalGross(terms);
    assert needed * rate >= gross * RATE_SCALE > 0;
    WholeValue(needed, rate);
    assert WorstBurn(terms) <= needed * rate by { CeilOfProduct(needed * rate); }
  }

  /** Whole units less a burn: the floor loses the burn's ceiling. */
  lemma WholeValue(needed: nat, rate: nat)
    requires needed <= needed * RATE_SCALE
    ensures PositionValue(needed * RATE_SCALE, rate) == needed * rate
    ensures PositionValue(needed * RATE_SCALE - needed, rate) == needed * rate - MulDivCeil(needed, rate, RATE_SCALE)
  {
    assert needed * RATE_SCALE * rate == needed * rate * RATE_SCALE;
    assert (needed * RATE_SCALE - needed) * rate == needed * rate * RATE_SCALE - needed * rate;
  }

  lemma CeilOfProduct(n: nat)
    ensures CeilDiv(n, RATE_SCALE) <= n
  {
  }

  function TightHistory(terms: WithdrawalInput): seq<Action>
    requires terms.exchangeRateScaled > 0 && terms.withdrawalPenaltyBps < VaultAdapter.FULL_BPS
    requires TightPrincipal(terms) >= 0
  {
    [Register(WitnessWallet(), RegisterInput("policy", Some(false), Some(true), Some(true), None, false)),
     Sync(WitnessWallet(), SyncInput(None, None, WholeShares(terms), Some(0), Some(WholeShares(terms)),
                                     terms.exchangeRateScaled, WithdrawalGross(terms), Some(TightPrincipal(terms)),
                                     Some(SublyReceipts), false))]
  }

  function TightPosition(terms: WithdrawalInput): WalletPosition
    requires terms.exchangeRateScaled > 0 && terms.withdrawalPenaltyBps < VaultAdapter.FULL_BPS
    requires TightPrincipal(terms) >= 0
  {
    WalletPosition(Some("policy"), false, true, true, 0, WholeShares(terms), WholeShares(terms),
                   terms.exchangeRateScaled, WithdrawalGross(terms), TightPrincipal(terms), SublyReceipts, 0, 0, 0,
                   None, 2, Active)
  }

  function TightInput(terms: WithdrawalInput): WithdrawalInput
    requires terms.exchangeRateScaled > 0 && terms.withdrawalPenaltyBps < VaultAdapter.FULL_BPS
  {
    terms.(production := true, flowId := 1, key := WitnessWallet(), mandateAllows := true,
           instantRedeemCapacityRawUsdc := WithdrawalGross(terms), stakedSharesRaw := 0,
           unstakedSharesRaw := WholeShares(terms), built := true, expiresAt := 60)
  }

  function TightRealization(terms: WithdrawalInput): Realization
    requires terms.exchangeRateScaled > 0 && terms.withdrawalPenaltyBps < VaultAdapter.FULL_BPS
    requires TightPrincipal(terms) >= 0 && NeededShares(terms) <= WholeShares(terms)
  {
    Realization(
      TightHistory(terms),
      TightInput(terms),
      [Submit(1, SubmitInput(true, true))],
      LandedFlow(false, WithdrawalTarget(terms), None,
                 Some(Refreshed(0, WholeShares(terms) - NeededShares(terms), terms.exchangeRateScaled, 0, 7))),
      NeededShares(terms))
  }

  lemma TightLedger(terms: WithdrawalInput)
    requires terms.yieldRealize && terms.exchangeRateScaled > 0 && terms.withdrawalPenaltyBps < VaultAdapter.FULL_BPS
    requires !HeadroomCoversBurn(terms)
    ensures TightPrincipal(terms) >= 0
    ensures
      var s := RunAll(Initial(0), TightHistory(terms));
      && s.now == 0 && s.payments == [] && s.flows == []
      && s.positions == map[WitnessWallet() := TightPosition(terms)]
  {
    TightFigures(terms);
    var history := TightHistory(terms);
    var s1 := Step(Initial(0), history[0]);
    var s2 := Step(s1, history[1]);
    assert history[1..][1..] == [];
    assert RunAll(Initial(0), history) == RunAll(s1, history[1..]) == s2;
    assert !SyncIsStale(s1.positions[WitnessWallet()], history[1].sync);
    assert SyncedPosition(s1.positions[WitnessWallet()], history[1].sync) == TightPosition(terms);
  }

  lemma TightRealizeIsApproved(s: LedgerState, terms: WithdrawalInput)
    requires terms.yieldRealize && terms.exchangeRateScaled > 0 && terms.withdrawalPenaltyBps < VaultAdapter.FULL_BPS
    requires TightPrincipal(terms) >= 0 && !HeadroomCoversBurn(terms)
    requires s.now == 0 && s.payments == [] && s.flows == []
    requires s.positions == map[WitnessWallet() := TightPosition(terms)]
    ensures PrepareWithdrawal(s, TightInput(terms))
            == Outcome(s.(flows := [VaultFlow(1, WitnessWallet(), YieldRealize, terms.amountRawUsdc,
                                              NeededShares(terms),
                                              60, 0, FlowPrepared)]), Done)
  {
    TightFigures(terms);
    var input := TightInput(terms);
    assert WithdrawalGross(input) == WithdrawalGross(terms);
    assert ApprovedShares(input) == NeededShares(terms);
    assert ExpirePreparedPayments(s, input.key) == s;
    assert ExpireStaleFlows([], input.key, 0) == [];
    assert s.(flows := []) == s;
    EvaluationGrantsExactlyTheSurplus(OnFreshChain(TightPosition(terms), input), input.amountRawUsdc,
                                      input.realizeOverheadRawUsdc, Some(WithdrawalGross(input)), 0);
  }

  /**
    Whenever the headroom does not cover the worst burn, a realize approved in a reachable ledger digs into
    principal.
   */
  lemma UncoveredBurnDigsIntoPrincipal(terms: WithdrawalInput)
    requires terms.yieldRealize && terms.exchangeRateScaled > 0 && terms.withdrawalPenaltyBps < VaultAdapter.FULL_BPS
    requires !HeadroomCoversBurn(terms)
    ensures TightPrincipal(terms) >= 0 && NeededShares(terms) <= WholeShares(terms)
    ensures Happens(TightRealization(terms), terms) && !KeepsPrincipal(TightRealization(terms))
  {
    TightFigures(terms);
    TightLedger(terms);
    var r := TightRealization(terms);
    var s := RunAll(Initial(0), r.before);
    TightRealizeIsApproved(s, terms);
    TightLanding(s, terms);
  }

  lemma TightLanding(s: LedgerState, terms: WithdrawalInput)
    requires terms.yieldRealize && terms.exchangeRateScaled > 0 && terms.withdrawalPenaltyBps < VaultAdapter.FULL_BPS
    requires TightPrincipal(terms) >= 0 && !HeadroomCoversBurn(terms) && NeededShares(terms) <= WholeShares(terms)
    requires s.now == 0 && s.positions == map[WitnessWallet() := TightPosition(terms)]
    requires PrepareWithdrawal(s, TightInput(terms))
             == Outcome(s.(flows := [VaultFlow(1, WitnessWallet(), YieldRealize, terms.amountRawUsdc,
                                               NeededShares(terms),
                                               60, 0, FlowPrepared)]), Done)
    ensures
      var r := TightRealization(terms);
      var u := RunAll(Step(s, StartWithdrawal(r.input)), r.meanwhile);
      && SyncsNothing(r.meanwhile, r.input.key)
      && |u.flows| == 1 && u.flows[0].status.FlowSubmitted?
      && LandsAsApproved(r.input, r.landed, r.burned)
      && !PrincipalStays(s, r.input, r.meanwhile, r.landed)
  {
    TightFigures(terms);
    var r := TightRealization(terms);
    var prepared := VaultFlow(1, WitnessWallet(), YieldRealize, terms.amountRawUsdc, NeededShares(terms), 60, 0,
                              FlowPrepared);
    var v := Step(s, StartWithdrawal(r.input));
    assert FlowIndex([prepared], 1) == Some(0);
    var u := Step(v, r.meanwhile[0]);
    assert u == v.(flows := [prepared.(status := FlowSubmitted)]);
    assert r.meanwhile[1..] == [];
    assert RunAll(v, r.meanwhile) == u;
    assert FlowIndex(u.flows, 1) == Some(0);
    assert WithdrawalGross(r.input) == WithdrawalGross(terms);
  }
}
