/**
  What deposits and withdrawals leave behind, said in the fields of the records alone, and what landed deposits add up
  to over whole runs.
 */
module FlowOutcomes {
  import opened Wrappers
  import opened RawUnits
  import opened Models
  import opened Budget
  import opened Ledger
  import opened LedgerInvariants
  import opened LedgerAccounting
  import opened PaymentOutcomes
  import opened RealizeSafety
  import VaultAdapter

  // ---- preparation

  predicate SignerReady(p: WalletPosition, production: bool) {
    !p.observedMode && p.signerConfigured && (production ==> p.signerValidated)
  }

  lemma {:induction false} FlowIdUnused(flows: seq<VaultFlow>, id: nat)
    ensures FlowIndex(flows, id).None? <==> forall i | 0 <= i < |flows| :: flows[i].flowId != id
    decreases |flows|
  {
    if flows != [] {
      FlowIdUnused(flows[..|flows| - 1], id);
    }
  }

  lemma NoFlowOwnsMeansNonePending(s: LedgerState, key: PositionKey)
    ensures NoFlowOwns(s, key) <==> !AnyFlowPending(s, key)
    ensures NoFlowOwns(s, key)
            <==> !AnyFlowPending(s.(flows := ExpireStaleFlows(s.flows, key, s.now)), key)
  {
    SweepKeepsPending(s, key);
  }

  /** A deposit is prepared for a free, ready position the mandate allows, ten units above the vault's minimum. */
  lemma DepositGrantedExactlyWhen(s: LedgerState, input: DepositInput)
    ensures PrepareDeposit(s, input).reply == Done
            <==> && (forall i | 0 <= i < |s.flows| :: s.flows[i].flowId != input.flowId)
                 && input.key in s.positions && SignerReady(s.positions[input.key], input.production)
                 && NoFlowOwns(s, input.key) && input.mandateAllows
                 && input.amountRawUsdc >= input.minDepositAmountRaw + 10
                 && input.onchainShares == s.positions[input.key].totalSharesRaw
                 && input.built
  {
    FlowIdUnused(s.flows, input.flowId);
    NoFlowOwnsMeansNonePending(s, input.key);
  }

  /** A swept store: the position's stale prepared flows have expired. */
  predicate SweptFlows(before: seq<VaultFlow>, after: seq<VaultFlow>, key: PositionKey, now: int) {
    && |after| >= |before|
    && forall i | 0 <= i < |before| ::
         after[i] == if before[i].key == key && before[i].status == FlowPrepared && before[i].expiresAt <= now
                     then before[i].(status := FlowExpired) else before[i]
  }

  /** What a preparation of either kind writes: the flow when granted, the mark when shares moved, else nothing. */
  predicate FlowPreparationBooks(
    s: LedgerState, outcome: Outcome, key: PositionKey, onchainShares: nat, flow: VaultFlow)
    requires key in s.positions
  {
    var b, t := s.positions[key], outcome.state;
    && t.now == s.now && OnlyPositionMoves(s, t, key)
    && (t.flows == s.flows || SweptFlows(s.flows, t.flows, key, s.now))
    && (outcome.reply == Done ==>
          && |t.flows| == |s.flows| + 1 && SweptFlows(s.flows, t.flows, key, s.now) && t.flows[|s.flows|] == flow
          && t.events == s.events)
    && (outcome.reply == Refused(BaselineResetNeeded) ==>
          && t.positions[key] == b.(status := NeedsBaselineReset, version := b.version + 1)
          && t.events == s.events + [SyncEvent(key, onchainShares - b.totalSharesRaw, 0)])
    && (outcome.reply != Done ==> |t.flows| == |s.flows|)
    && (outcome.reply.Refused? && outcome.reply != Refused(BaselineResetNeeded) ==> t.events == s.events)
  }

  lemma DepositBooks(s: LedgerState, input: DepositInput)
    requires input.key in s.positions
    ensures
      var outcome := PrepareDeposit(s, input);
      && FlowPreparationBooks(s, outcome, input.key, input.onchainShares,
                              VaultFlow(input.flowId, input.key, Deposit, input.amountRawUsdc, 0, input.expiresAt, 0,
                                        FlowPrepared))
      && outcome.state.payments == s.payments
      && (outcome.reply != Refused(BaselineResetNeeded) ==> outcome.state.positions == s.positions)
  {
  }

  /** Shares moved outside the ledger are noticed before a deposit that nothing else stops. */
  lemma DepositNoticesMovedShares(s: LedgerState, input: DepositInput)
    ensures PrepareDeposit(s, input).reply == Refused(BaselineResetNeeded)
            <==> && (forall i | 0 <= i < |s.flows| :: s.flows[i].flowId != input.flowId)
                 && input.key in s.positions && SignerReady(s.positions[input.key], input.production)
                 && NoFlowOwns(s, input.key) && input.mandateAllows
                 && input.amountRawUsdc >= input.minDepositAmountRaw + 10
                 && input.onchainShares != s.positions[input.key].totalSharesRaw
  {
    FlowIdUnused(s.flows, input.flowId);
    NoFlowOwnsMeansNonePending(s, input.key);
  }

  // ---- withdrawals

  /** The gross a withdrawal takes out of the vault: the least that nets the target, five units more for a realize. */
  function Takes(input: WithdrawalInput): Option<nat> {
    if input.withdrawalPenaltyBps >= 10_000 then None
    else
      Some(VaultAdapter.InitialGross(input.amountRawUsdc + if input.yieldRealize then 5 else 0,
                                     input.withdrawalPenaltyBps, input.withdrawalPenaltyLamports))
  }

  /** The yield guard, on the chain's figures and the ledger's commitments. */
  predicate FitsYield(p: WalletPosition, input: WithdrawalInput, gross: nat) {
    PositionValue(input.stakedSharesRaw + input.unstakedSharesRaw, input.exchangeRateScaled)
    >= Committed(p) + gross + input.realizeOverheadRawUsdc
  }

  lemma ApprovedExactlyWhen(u: LedgerState, input: WithdrawalInput, p: WalletPosition)
    ensures ApproveWithdrawal(u, input, p).reply == Done
            <==> && Takes(input).Some? && Takes(input).value <= input.instantRedeemCapacityRawUsdc
                 && (input.yieldRealize ==> FitsYield(p, input, Takes(input).value))
                 && input.exchangeRateScaled > 0 && input.built
  {
    if input.withdrawalPenaltyBps < VaultAdapter.FULL_BPS {
      TakesSomething(input);
      EvaluationGrantsExactlyTheSurplus(OnFreshChain(p, input), input.amountRawUsdc, input.realizeOverheadRawUsdc,
                                        Some(WithdrawalGross(input)), 0);
    }
  }

  lemma TakesSomething(input: WithdrawalInput)
    requires input.withdrawalPenaltyBps < VaultAdapter.FULL_BPS
    ensures Takes(input) == Some(WithdrawalGross(input))
  {
  }

  /** A withdrawal is prepared for a position nothing live holds, on agreed shares, with cash and surplus. */
  lemma WithdrawalGrantedExactlyWhen(s: LedgerState, input: WithdrawalInput)
    ensures PrepareWithdrawal(s, input).reply == Done
            <==> && (forall i | 0 <= i < |s.flows| :: s.flows[i].flowId != input.flowId)
                 && input.key in s.positions && SignerReady(s.positions[input.key], input.production)
                 && (forall i | 0 <= i < |s.payments| && s.payments[i].key == input.key ::
                       HoldsReservation(s.payments[i]) ==>
                         s.payments[i].status == PaymentPrepared && s.payments[i].expiresAt <= s.now)
                 && NoFlowOwns(s, input.key) && input.mandateAllows
                 && input.stakedSharesRaw + input.unstakedSharesRaw == s.positions[input.key].totalSharesRaw
                 && Takes(input).Some? && Takes(input).value <= input.instantRedeemCapacityRawUsdc
                 && (input.yieldRealize ==> FitsYield(s.positions[input.key], input, Takes(input).value))
                 && input.exchangeRateScaled > 0 && input.built
  {
    FlowIdUnused(s.flows, input.flowId);
    NoFlowOwnsMeansNonePending(s, input.key);
    WithdrawalReachesApproval(s, input);
    if input.key in s.positions {
      ApprovedExactlyWhen(SweptForWithdrawal(s, input), input, s.positions[input.key]);
    }
  }

  function SweptForWithdrawal(s: LedgerState, input: WithdrawalInput): LedgerState {
    var s1 := ExpirePreparedPayments(s, input.key);
    s1.(flows := ExpireStaleFlows(s1.flows, input.key, s1.now))
  }

  lemma WithdrawalReachesApproval(s: LedgerState, input: WithdrawalInput)
    ensures PrepareWithdrawal(s, input).reply == Done
            <==> && FlowIndex(s.flows, input.flowId).None?
                 && input.key in s.positions && SigningRefusal(s.positions[input.key], input.production).None?
                 && FreeOnceExpired(s, input.key) && input.mandateAllows
                 && OnchainShares(input) == s.positions[input.key].totalSharesRaw
                 && ApproveWithdrawal(SweptForWithdrawal(s, input), input, s.positions[input.key]).reply == Done
    ensures PrepareWithdrawal(s, input).reply == Done ==>
              PrepareWithdrawal(s, input)
              == ApproveWithdrawal(SweptForWithdrawal(s, input), input, s.positions[input.key])
  {
    if input.key in s.positions {
      ExpiryLeavesLive(s, input.key);
      SweepKeepsPending(ExpirePreparedPayments(s, input.key), input.key);
    }
  }

  /** The granted flow: its kind, its amount, and the fewest shares that cover the gross, or all of them. */
  lemma WithdrawalBooks(s: LedgerState, input: WithdrawalInput)
    requires PrepareWithdrawal(s, input).reply == Done
    ensures
      var t := PrepareWithdrawal(s, input).state;
      && |t.flows| == |s.flows| + 1
      && SweptFlows(s.flows, t.flows, input.key, s.now)
      && t.payments == ExpirePreparedPayments(s, input.key).payments
      && t.positions == ExpirePreparedPayments(s, input.key).positions && t.events == s.events
      && var f := t.flows[|s.flows|];
         && f == VaultFlow(input.flowId, input.key, if input.yieldRealize then YieldRealize else NormalWithdrawal,
                           input.amountRawUsdc, f.maxSharesToRedeemRaw, input.expiresAt, 0, FlowPrepared)
         && f.maxSharesToRedeemRaw <= input.stakedSharesRaw + input.unstakedSharesRaw
         && Takes(input).Some?
         && (f.maxSharesToRedeemRaw * input.exchangeRateScaled >= Takes(input).value * RATE_SCALE
             || f.maxSharesToRedeemRaw == input.stakedSharesRaw + input.unstakedSharesRaw)
         && f.maxSharesToRedeemRaw * input.exchangeRateScaled
            < Takes(input).value * RATE_SCALE + input.exchangeRateScaled
  {
    WithdrawalReachesApproval(s, input);
    ApprovalBooks(SweptForWithdrawal(s, input), input, s.positions[input.key]);
    assert |SweptForWithdrawal(s, input).flows| == |s.flows|;
  }

  lemma ApprovalBooks(u: LedgerState, input: WithdrawalInput, p: WalletPosition)
    requires ApproveWithdrawal(u, input, p).reply == Done
    ensures
      var t := ApproveWithdrawal(u, input, p).state;
      && |t.flows| == |u.flows| + 1 && t.flows[..|u.flows|] == u.flows && t == u.(flows := t.flows)
      && var f := t.flows[|u.flows|];
         && f == VaultFlow(input.flowId, input.key, if input.yieldRealize then YieldRealize else NormalWithdrawal,
                           input.amountRawUsdc, f.maxSharesToRedeemRaw, input.expiresAt, 0, FlowPrepared)
         && f.maxSharesToRedeemRaw <= input.stakedSharesRaw + input.unstakedSharesRaw
         && Takes(input).Some?
         && (f.maxSharesToRedeemRaw * input.exchangeRateScaled >= Takes(input).value * RATE_SCALE
             || f.maxSharesToRedeemRaw == input.stakedSharesRaw + input.unstakedSharesRaw)
         && f.maxSharesToRedeemRaw * input.exchangeRateScaled
            < Takes(input).value * RATE_SCALE + input.exchangeRateScaled
  {
    TakesSomething(input);
    var needed := CeilDiv(WithdrawalGross(input) * RATE_SCALE, input.exchangeRateScaled);
    MulMonotone(ApprovedShares(input), needed, input.exchangeRateScaled);
    var t := ApproveWithdrawal(u, input, p).state;
    assert t.flows == u.flows + [t.flows[|u.flows|]];
  }

  // ---- life cycle

  /** Submission needs the consent and the signature in time; late, the flow expires; anything else leaves it. */
  lemma FlowSubmission(s: LedgerState, i: nat, id: nat, input: SubmitInput)
    requires StoredFlow(s, i, id)
    ensures
      var f := s.flows[i];
      var outcome := SubmitFlow(s, id, input);
      var moved := s.(flows := s.flows[i := f.(status := outcome.state.flows[i].status)]);
      && |outcome.state.flows| == |s.flows| && outcome.state == moved
      && (outcome.state.flows[i].status == FlowSubmitted
          <==> || f.status == FlowSubmitted
               || (f.status == FlowPrepared && f.expiresAt > s.now && input.mandateHolds && input.transactionVerified))
      && (outcome.state.flows[i].status == FlowExpired
          <==> f.status == FlowExpired || (f.status == FlowPrepared && f.expiresAt <= s.now))
      && (outcome.reply == Unchanged <==> f.status != FlowPrepared)
      && (outcome.reply == Done <==> outcome.state.flows[i].status != f.status)
  {
    FlowAt(s.flows, id, i);
  }

  /** A status read expires exactly what is late, and giving up ends exactly what was submitted. */
  lemma FlowReadsAndAbandons(s: LedgerState, i: nat, id: nat)
    requires StoredFlow(s, i, id)
    ensures
      var f := s.flows[i];
      && ReadFlow(s, id) == (if f.status == FlowPrepared && f.expiresAt <= s.now
                             then Outcome(s.(flows := s.flows[i := f.(status := FlowExpired)]), Done)
                             else Outcome(s, Unchanged))
      && AbandonFlow(s, id) == (if f.status == FlowSubmitted
                                then Outcome(s.(flows := s.flows[i := f.(status := FlowNotSubmitted)]), Done)
                                else Outcome(s, Unchanged))
  {
    FlowAt(s.flows, id, i);
  }

  // ---- landing

  /** What the landed transaction moved: out of the agent's account for a deposit, into it for a withdrawal. */
  function Moved(kind: FlowKind, usdcDelta: int): int {
    match kind
    case Deposit => -usdcDelta
    case _ => usdcDelta
  }

  predicate Classified(f: VaultFlow, landed: LandedFlow) {
    !landed.failed && landed.refreshed.Some? && Moved(f.kind, landed.usdcDelta) > 0
  }

  function LandedFee(landed: LandedFlow): nat {
    match landed.feeDebt
    case None => 0
    case Some(fee) => fee
  }

  /** The position after a classified landing, figure by figure. */
  predicate AfterLanding(b: WalletPosition, a: WalletPosition, f: VaultFlow, landed: LandedFlow)
    requires landed.refreshed.Some?
  {
    var chain := landed.refreshed.value;
    && a == b.(stakedSharesRaw := chain.stakedSharesRaw, unstakedSharesRaw := chain.unstakedSharesRaw,
               totalSharesRaw := chain.stakedSharesRaw + chain.unstakedSharesRaw,
               exchangeRateScaled := chain.exchangeRateScaled,
               instantRedeemCapacityRawUsdc := chain.instantRedeemCapacityRawUsdc,
               principalBasisRawUsdc := a.principalBasisRawUsdc, principalBasisSource := SublyReceipts,
               feeDebtRawUsdc := b.feeDebtRawUsdc + LandedFee(landed),
               lastSyncedSlot := Some(chain.slot),
               version := b.version + if landed.feeDebt == None then 1 else 2)
    && (if f.kind == Deposit then a.principalBasisRawUsdc == b.principalBasisRawUsdc - landed.usdcDelta
        else
          var value := PositionValue(a.totalSharesRaw, a.exchangeRateScaled);
          && a.principalBasisRawUsdc <= b.principalBasisRawUsdc && a.principalBasisRawUsdc <= value
          && (a.principalBasisRawUsdc == b.principalBasisRawUsdc || a.principalBasisRawUsdc == value))
  }

  predicate ClassifiedBooks(s: LedgerState, t: LedgerState, i: nat, landed: LandedFlow)
    requires i < |s.flows| && i < |t.flows| && s.flows[i].key in s.positions && s.flows[i].key in t.positions
    requires landed.refreshed.Some?
  {
    var f := s.flows[i];
    var b, a := s.positions[f.key], t.positions[f.key];
    && t.flows[i] == f.(status := FlowConfirmed, movedRawUsdc := t.flows[i].movedRawUsdc)
    && t.flows[i].movedRawUsdc == Moved(f.kind, landed.usdcDelta)
    && AfterLanding(b, a, f, landed)
    && t.events == s.events + [SyncEvent(f.key, LandedShares(f.kind, b, a),
                                         a.principalBasisRawUsdc - b.principalBasisRawUsdc)]
  }

  predicate UnclassifiedBooks(s: LedgerState, t: LedgerState, i: nat, landed: LandedFlow)
    requires i < |s.flows| && i < |t.flows| && s.flows[i].key in s.positions && s.flows[i].key in t.positions
  {
    var f := s.flows[i];
    var b, a := s.positions[f.key], t.positions[f.key];
    && t.flows[i] == f.(status := FlowFailed)
    && (if landed.failed then
          && t.events == s.events
          && a == b.(feeDebtRawUsdc := b.feeDebtRawUsdc + LandedFee(landed),
                    version := b.version + if landed.feeDebt == None then 0 else 1)
        else
          && a == b.(status := NeedsBaselineReset, version := b.version + 1)
          && t.events == s.events + [SyncEvent(f.key, 0, 0)])
  }

  lemma ClassifiedRecords(s: LedgerState, i: nat, id: nat, landed: LandedFlow)
    requires StoredFlow(s, i, id) && s.flows[i].status == FlowSubmitted && Classified(s.flows[i], landed)
    ensures
      var f, t := s.flows[i], FinalizeFlow(s, id, landed).state;
      && OnlyFlowMoves(s, t, i)
      && t.flows[i] == f.(status := FlowConfirmed, movedRawUsdc := t.flows[i].movedRawUsdc)
      && t.flows[i].movedRawUsdc == Moved(f.kind, landed.usdcDelta)
      && AfterLanding(s.positions[f.key], t.positions[f.key], f, landed)
  {
    FlowAt(s.flows, id, i);
  }

  lemma ClassifiedEvent(s: LedgerState, i: nat, id: nat, landed: LandedFlow)
    requires StoredFlow(s, i, id) && s.flows[i].status == FlowSubmitted && Classified(s.flows[i], landed)
    ensures
      var f, t := s.flows[i], FinalizeFlow(s, id, landed).state;
      && f.key in t.positions
      && var b, a := s.positions[f.key], t.positions[f.key];
         t.events == s.events + [SyncEvent(f.key, LandedShares(f.kind, b, a),
                                           a.principalBasisRawUsdc - b.principalBasisRawUsdc)]
  {
    FlowAt(s.flows, id, i);
  }

  lemma ClassifiedLanding(s: LedgerState, i: nat, id: nat, landed: LandedFlow)
    requires StoredFlow(s, i, id) && s.flows[i].status == FlowSubmitted && Classified(s.flows[i], landed)
    ensures
      var t := FinalizeFlow(s, id, landed).state;
      OnlyFlowMoves(s, t, i) && ClassifiedBooks(s, t, i, landed)
  {
    ClassifiedRecords(s, i, id, landed);
    ClassifiedEvent(s, i, id, landed);
  }

  lemma UnclassifiedLanding(s: LedgerState, i: nat, id: nat, landed: LandedFlow)
    requires StoredFlow(s, i, id) && s.flows[i].status == FlowSubmitted && !Classified(s.flows[i], landed)
    ensures
      var t := FinalizeFlow(s, id, landed).state;
      OnlyFlowMoves(s, t, i) && UnclassifiedBooks(s, t, i, landed)
  {
    FlowAt(s.flows, id, i);
  }

  /** A landed flow: confirmed and booked when its movement is proved, failed and charged, or failed and flagged. */
  lemma LandingBooks(s: LedgerState, i: nat, id: nat, landed: LandedFlow)
    requires StoredFlow(s, i, id)
    ensures
      var f, t := s.flows[i], FinalizeFlow(s, id, landed).state;
      if f.status != FlowSubmitted then t == s
      else
        && OnlyFlowMoves(s, t, i)
        && if Classified(f, landed) then ClassifiedBooks(s, t, i, landed) else UnclassifiedBooks(s, t, i, landed)
  {
    if s.flows[i].status != FlowSubmitted {
      FlowAt(s.flows, id, i);
    } else if Classified(s.flows[i], landed) {
      ClassifiedLanding(s, i, id, landed);
    } else {
      UnclassifiedLanding(s, i, id, landed);
    }
  }

  /** Shares a landed flow minted or, negative, burned; a move the other way counts for nothing. */
  function LandedShares(kind: FlowKind, b: WalletPosition, a: WalletPosition): int {
    var change: int := a.totalSharesRaw - b.totalSharesRaw;
    if (kind == Deposit) == (change > 0) then change else 0
  }

  // ---- deposits over whole runs

  /** What a step lands of the position's deposits: the receipts it confirms. */
  function LandsOfDeposits(s: LedgerState, a: Action, key: PositionKey): nat {
    if a.FinalizeLanded? && FlowIndex(s.flows, a.flowId).Some? then
      var f := s.flows[FlowIndex(s.flows, a.flowId).value];
      if f.key == key && f.kind == Deposit && f.status == FlowSubmitted && Classified(f, a.landed)
      then Moved(Deposit, a.landed.usdcDelta) else 0
    else 0
  }

  function DepositsLandedOver(s: LedgerState, actions: seq<Action>, key: PositionKey): nat
    decreases |actions|
  {
    if actions == [] then 0
    else LandsOfDeposits(s, actions[0], key) + DepositsLandedOver(Step(s, actions[0]), actions[1..], key)
  }

  predicate LandsWithdrawal(s: LedgerState, a: Action, key: PositionKey) {
    && a.FinalizeLanded? && FlowIndex(s.flows, a.flowId).Some?
    && var f := s.flows[FlowIndex(s.flows, a.flowId).value];
       f.key == key && f.kind != Deposit && f.status == FlowSubmitted
  }

  /** Between syncs only landings move a principal: a deposit by what it moved, a withdrawal never upwards. */
  lemma StepMovesPrincipal(s: LedgerState, a: Action, key: PositionKey)
    requires StoresConsistent(s) && !(a.Sync? && a.key == key)
    ensures PrincipalOf(Step(s, a), key) <= PrincipalOf(s, key) + LandsOfDeposits(s, a, key)
    ensures !LandsWithdrawal(s, a, key) ==>
              PrincipalOf(Step(s, a), key) == PrincipalOf(s, key) + LandsOfDeposits(s, a, key)
  {
    match a
    case Prepare(input) => PrepareKeepsPrincipal(s, input, key);
    case StartWithdrawal(input) => WithdrawalPositions(s, input);
    case Finalize(id, result) => FinalizeKeepsPrincipal(s, id, result, key);
    case FinalizeLanded(id, landed) =>
      if FlowIndex(s.flows, id).Some? {
        LandingBooks(s, FlowIndex(s.flows, id).value, id, landed);
      }
    case _ => QuietStepsKeepPrincipal(s, a, key);
  }

  predicate LandsNoWithdrawal(s: LedgerState, actions: seq<Action>, key: PositionKey)
    decreases |actions|
  {
    actions == []
    || (!LandsWithdrawal(s, actions[0], key) && LandsNoWithdrawal(Step(s, actions[0]), actions[1..], key))
  }

  /**
    Over every run without a sync of the position, its principal grows by at most what its deposits landed, and by
    exactly that while none of its withdrawals lands.
   */
  lemma {:induction false} DepositsRaisePrincipalOverRuns(s: LedgerState, actions: seq<Action>, key: PositionKey)
    requires StoresConsistent(s) && SyncsNothing(actions, key)
    ensures PrincipalOf(RunAll(s, actions), key) <= PrincipalOf(s, key) + DepositsLandedOver(s, actions, key)
    ensures LandsNoWithdrawal(s, actions, key) ==>
              PrincipalOf(RunAll(s, actions), key) == PrincipalOf(s, key) + DepositsLandedOver(s, actions, key)
    decreases |actions|
  {
    if actions != [] {
      StepKeepsStores(s, actions[0]);
      StepMovesPrincipal(s, actions[0], key);
      DepositsRaisePrincipalOverRuns(Step(s, actions[0]), actions[1..], key);
    }
  }

  /** A landed deposit whose new shares are worth at most what was paid in makes no yield spendable. */
  lemma LandedDepositMintsNoYield(s: LedgerState, i: nat, id: nat, landed: LandedFlow)
    requires StoredFlow(s, i, id) && s.flows[i].kind == Deposit
    requires s.flows[i].status == FlowSubmitted && Classified(s.flows[i], landed)
    requires
      var b, chain := s.positions[s.flows[i].key], landed.refreshed.value;
      var minted: int := chain.stakedSharesRaw + chain.unstakedSharesRaw - b.totalSharesRaw;
      minted >= 0 && minted * chain.exchangeRateScaled <= -landed.usdcDelta * RATE_SCALE
    ensures
      var key, t := s.flows[i].key, FinalizeFlow(s, id, landed).state;
      && key in t.positions
      && var b, a := s.positions[key], t.positions[key];
         SpendableAt(a, a.totalSharesRaw, a.exchangeRateScaled)
         <= SpendableAt(b, b.totalSharesRaw, a.exchangeRateScaled)
  {
    ClassifiedLanding(s, i, id, landed);
    var b, chain := s.positions[s.flows[i].key], landed.refreshed.value;
    var minted := chain.stakedSharesRaw + chain.unstakedSharesRaw - b.totalSharesRaw;
    ValueOfAddedShares(b.totalSharesRaw, minted, chain.exchangeRateScaled);
    CeilWithin(minted * chain.exchangeRateScaled, -landed.usdcDelta);
  }

  lemma CeilWithin(numerator: nat, bound: nat)
    requires numerator <= bound * RATE_SCALE
    ensures CeilDiv(numerator, RATE_SCALE) <= bound
  {
  }
}
