/**
  Payments and yield-realizes together: over every run of both at one exchange rate the principal basis gives way only
  where a share is worth more than the overhead, and the position value keeps covering its commitments up to rounding.
 */
module PrincipalRuns {
  import opened Wrappers
  import opened RawUnits
  import opened Models
  import opened Budget
  import opened Ledger
  import opened LedgerInvariants
  import opened LedgerAccounting
  import opened PrincipalSafety
  import opened RealizeSafety
  import VaultAdapter

  function ShareCeiling(rate: nat): nat {
    CeilDiv(rate, RATE_SCALE)
  }

  /** The part of one share's value the overhead leaves uncovered: zero for every ordinary share price. */
  function ShareExcess(rate: nat, overhead: nat): nat {
    ClampToZero(ShareCeiling(rate) - overhead)
  }

  // ---- the steps of such a run

  predicate LandsOn(s: LedgerState, a: Action, key: PositionKey) {
    && a.FinalizeLanded?
    && FlowIndex(s.flows, a.flowId).Some?
    && s.flows[FlowIndex(s.flows, a.flowId).value].key == key
    && s.flows[FlowIndex(s.flows, a.flowId).value].status.FlowSubmitted?
  }

  predicate RealizesAt(s: LedgerState, a: Action, key: PositionKey) {
    LandsOn(s, a, key) && !a.landed.failed
  }

  /** The chain burns at most the approved shares, at the rate of the approval. */
  predicate LandsWithin(p: WalletPosition, f: VaultFlow, landed: LandedFlow, rate: nat) {
    && f.kind.YieldRealize?
    && (landed.refreshed.Some? ==>
          && landed.refreshed.value.exchangeRateScaled == rate
          && landed.refreshed.value.stakedSharesRaw + landed.refreshed.value.unstakedSharesRaw + f.maxSharesToRedeemRaw
             >= p.totalSharesRaw)
  }

  /** Payment steps, and yield-realizes of the position at this rate and overhead. */
  predicate SpendingStepAt(s: LedgerState, a: Action, key: PositionKey, rate: nat, overhead: nat) {
    match a
    case StartWithdrawal(input) =>
      input.key == key && Perform(s, a).reply.Done? ==>
        input.yieldRealize && input.exchangeRateScaled == rate && input.realizeOverheadRawUsdc == overhead
    case FinalizeLanded(id, landed) =>
      LandsOn(s, a, key) && key in s.positions ==>
        LandsWithin(s.positions[key], s.flows[FlowIndex(s.flows, id).value], landed, rate)
    case _ => PaymentStepAt(s, a, key, rate)
  }

  predicate ApprovesAt(s: LedgerState, a: Action, key: PositionKey) {
    a.StartWithdrawal? && a.withdrawal.key == key && Perform(s, a).reply.Done?
  }

  /** The part of a landed fee the overhead of the approval did not provide for. */
  function FeeExcess(landed: LandedFlow, overhead: nat): nat {
    ClampToZero(OrElse(landed.feeDebt, 0) - overhead)
  }

  /** Approving a realize clears the allowance as a granted prepare does; landing it uses at most one share. */
  function SpendingAllowance(
    s: LedgerState, a: Action, key: PositionKey, rate: nat, overhead: nat, allowance: nat): nat
  {
    if ApprovesAt(s, a, key) then 0
    else if LandsOn(s, a, key) then
      (if a.landed.failed then 0 else ShareCeiling(rate)) + FeeExcess(a.landed, overhead)
    else AllowanceAfter(s, a, key, rate, allowance)
  }

  /** What an open realize can still count on, whatever its position's status. */
  predicate HasRoom(p: WalletPosition, f: VaultFlow, rate: nat, overhead: nat) {
    && p.exchangeRateScaled == rate
    && p.stakedSharesRaw + p.unstakedSharesRaw == p.totalSharesRaw
    && PositionValue(p.totalSharesRaw, rate) >= Committed(p) + overhead
    && PositionValue(p.totalSharesRaw, rate) + ShareCeiling(rate)
       >= Committed(p) + overhead + MulDivCeil(f.maxSharesToRedeemRaw, rate, RATE_SCALE)
  }

  predicate OpenRealizesHaveRoom(s: LedgerState, key: PositionKey, rate: nat, overhead: nat)
    requires key in s.positions
  {
    forall i | 0 <= i < |s.flows| && s.flows[i].key == key && s.flows[i].kind.YieldRealize? && StillOpen(s, i) ::
      HasRoom(s.positions[key], s.flows[i], rate, overhead)
  }

  ghost predicate SpendsSafelyAt(s: LedgerState, key: PositionKey, rate: nat, overhead: nat, allowance: nat) {
    SafeAt(s, key, rate, allowance) && OpenRealizesHaveRoom(s, key, rate, overhead)
  }

  // ---- an open withdrawal freezes its position

  lemma NothingDueWithoutLive(s: LedgerState, key: PositionKey)
    requires !PaymentLive(s.payments, key)
    ensures ExpirePreparedPayments(s, key) == s
  {
  }

  lemma PaymentOfOtherPosition(s: LedgerState, a: Action, id: nat, key: PositionKey)
    requires ActsOnPayment(a, id) && key in s.positions && !PaymentLive(s.payments, key)
    ensures key in Step(s, a).positions && Step(s, a).positions[key] == s.positions[key]
  {
    var found := PaymentIndex(s.payments, id);
    if found.Some? {
      assert s.payments[found.value].key == key ==> !HoldsReservation(s.payments[found.value]);
      if a.Finalize? {
        FinalizeReleases(s, id, a.result);
      } else {
        SinglePaymentReleases(s, a, id);
      }
    }
  }

  lemma BlockedPrepareMovesNothing(s: LedgerState, input: PrepareInput)
    requires input.key in s.positions && !PaymentLive(s.payments, input.key) && AnyFlowPending(s, input.key)
    ensures PreparePayment(s, input).state.positions == s.positions
  {
    NothingDueWithoutLive(s, input.key);
    assert PaymentRefusal(s, s.positions[input.key], input).Some?;
  }

  lemma BlockedWithdrawalMovesNothing(s: LedgerState, input: WithdrawalInput)
    requires input.key in s.positions && !PaymentLive(s.payments, input.key) && AnyFlowPending(s, input.key)
    ensures PrepareWithdrawal(s, input).state.positions == s.positions
    ensures !PrepareWithdrawal(s, input).reply.Done?
  {
    NothingDueWithoutLive(s, input.key);
    SweepKeepsPending(s, input.key);
    WithdrawalStages(s, input);
    WithdrawalPositions(s, input);
  }

  /** Steps that touch neither flows nor payments of the position leave it alone. */
  lemma UnrelatedStep(s: LedgerState, a: Action, key: PositionKey, rate: nat)
    requires key in s.positions && PaymentStepAt(s, a, key, rate)
    requires a.Register? || a.Sync? || a.StartDeposit? || a.Submit? || a.ReadStatus? || a.Abandon? || a.Tick?
             || (a.ReadBudget? && a.key != key)
    ensures key in Step(s, a).positions && Step(s, a).positions[key] == s.positions[key]
  {
    OtherPositionsUntouched(s, a, key, rate);
  }

  lemma LandingElsewhere(s: LedgerState, a: Action, key: PositionKey)
    requires a.FinalizeLanded? && key in s.positions && !LandsOn(s, a, key)
    ensures key in Step(s, a).positions && Step(s, a).positions[key] == s.positions[key]
  {
  }

  lemma OpenWithdrawalFreezesPosition(s: LedgerState, a: Action, i: nat, key: PositionKey, rate: nat, overhead: nat)
    requires StoresConsistent(s) && key in s.positions
    requires i < |s.flows| && s.flows[i].key == key && !s.flows[i].kind.Deposit? && StillOpen(s, i)
    requires SpendingStepAt(s, a, key, rate, overhead) && !LandsOn(s, a, key)
    ensures key in Step(s, a).positions && Step(s, a).positions[key] == s.positions[key]
    ensures !ApprovesAt(s, a, key)
  {
    assert !PaymentLive(s.payments, key);
    assert AnyFlowPending(s, key);
    match a
    case Prepare(input) =>
      if input.key == key {
        BlockedPrepareMovesNothing(s, input);
      } else {
        OtherKeyPrepareUntouched(s, input, key);
      }
    case StartWithdrawal(input) =>
      if input.key == key {
        BlockedWithdrawalMovesNothing(s, input);
      } else {
        WithdrawalPositions(s, input);
      }
    case ReadBudget(k) => if k == key { NothingDueWithoutLive(s, key); } else { UnrelatedStep(s, a, key, rate); }
    case ExpirePayment(id) => PaymentOfOtherPosition(s, a, id, key);
    case Begin(id, payload) => PaymentOfOtherPosition(s, a, id, key);
    case MarkSubmitted(id) => PaymentOfOtherPosition(s, a, id, key);
    case RecordPending(id, signature) => PaymentOfOtherPosition(s, a, id, key);
    case Finalize(id, result) => PaymentOfOtherPosition(s, a, id, key);
    case FinalizeLanded(id, landed) => LandingElsewhere(s, a, key);
    case _ => UnrelatedStep(s, a, key, rate);
  }

  // ---- approval

  /** An approval clears the allowance and gives the new flow its room. */
  lemma ApprovalGivesRoom(s: LedgerState, input: WithdrawalInput, rate: nat, overhead: nat)
    requires StoresConsistent(s) && Backed(s)
    requires PrepareWithdrawal(s, input).reply.Done? && input.yieldRealize
    requires input.exchangeRateScaled == rate && input.realizeOverheadRawUsdc == overhead
    requires
      && input.key in s.positions && s.positions[input.key].exchangeRateScaled == rate
      && s.positions[input.key].stakedSharesRaw + s.positions[input.key].unstakedSharesRaw
         == s.positions[input.key].totalSharesRaw
    ensures
      var t := PrepareWithdrawal(s, input).state;
      && |t.flows| == |s.flows| + 1
      && input.key in t.positions
      && HasRoom(t.positions[input.key], t.flows[|s.flows|], rate, overhead)
      && t.positions[input.key].principalBasisRawUsdc == s.positions[input.key].principalBasisRawUsdc
      && (forall j | 0 <= j < |s.flows| && t.flows[j].key == input.key :: !StillOpen(t, j))
  {
    var u := ExpirePreparedPayments(s, input.key);
    var t := PrepareWithdrawal(s, input).state;
    var position := s.positions[input.key];
    ApprovalLeavesRoom(s, input);
    BurnCostsAtMostOneShareMore(input);
    WithdrawalPositions(s, input);
    ExpiryKeepsSlack(s, input.key, input.key);
    ApprovedFlow(s, input);
    ApprovedMaximum(s, input);
    var approved := t.flows[|s.flows|].maxSharesToRedeemRaw;
    assert u.positions[input.key] == position.(reservedRawUsdc := u.positions[input.key].reservedRawUsdc,
                                               version := u.positions[input.key].version);
    assert MulDivCeil(approved, rate, RATE_SCALE) <= WorstBurn(input) by {
      MulMonotone(approved, NeededShares(input), rate);
      CeilMonotone(approved * rate, NeededShares(input) * rate);
    }
  }

  lemma CeilMonotone(low: nat, high: nat)
    requires low <= high
    ensures CeilDiv(low, RATE_SCALE) <= CeilDiv(high, RATE_SCALE)
  {
  }

  lemma ApprovedMaximum(s: LedgerState, input: WithdrawalInput)
    requires PrepareWithdrawal(s, input).reply.Done?
    requires input.exchangeRateScaled > 0 && input.withdrawalPenaltyBps < VaultAdapter.FULL_BPS
    ensures
      var t := PrepareWithdrawal(s, input).state;
      && |t.flows| == |s.flows| + 1
      && t.flows[|s.flows|].maxSharesToRedeemRaw == ApprovedShares(input)
      && (forall j | 0 <= j < |s.flows| && t.flows[j].key == input.key :: !StillOpen(t, j))
  {
    var s1 := ExpirePreparedPayments(s, input.key);
    WithdrawalStages(s, input);
  }

  // ---- landing

  /** A landing keeps the cover up to one share and the fee beyond the overhead, and the principal up to the excess. */
  lemma LandingUsesItsRoom(p: WalletPosition, f: VaultFlow, reread: Refreshed, rate: nat, overhead: nat)
    requires HasRoom(p, f, rate, overhead)
    requires reread.exchangeRateScaled == rate
    requires reread.stakedSharesRaw + reread.unstakedSharesRaw + f.maxSharesToRedeemRaw >= p.totalSharesRaw
    ensures
      var value := PositionValue(reread.stakedSharesRaw + reread.unstakedSharesRaw, rate);
      && value + ShareCeiling(rate) >= Committed(p) + overhead
      && Min(p.principalBasisRawUsdc, value) + ShareExcess(rate, overhead) >= p.principalBasisRawUsdc
  {
    var total := reread.stakedSharesRaw + reread.unstakedSharesRaw;
    if total < p.totalSharesRaw {
      var burned := p.totalSharesRaw - total;
      MulMonotone(burned, f.maxSharesToRedeemRaw, rate);
      BurnLossBound(p.totalSharesRaw, burned, rate, 0, f.maxSharesToRedeemRaw * rate);
    } else {
      MulMonotone(p.totalSharesRaw, total, rate);
    }
  }

  /** A landing that did not fail leaves its position blocked for a reset, or refreshed with the fee charged. */
  lemma LandedPosition(s: LedgerState, a: Action, key: PositionKey)
    requires RealizesAt(s, a, key) && key in s.positions
    requires s.flows[FlowIndex(s.flows, a.flowId).value].kind.YieldRealize?
    ensures
      var p, t := s.positions[key], Step(s, a);
      && key in t.positions
      && (|| t.positions[key] == FlagBaselineReset(p)
          || (&& a.landed.refreshed.Some?
              && var reread := a.landed.refreshed.value;
                 var shares := reread.stakedSharesRaw + reread.unstakedSharesRaw;
                 var value := PositionValue(shares, reread.exchangeRateScaled);
                 t.positions[key]
                 == RefreshedPosition(p, reread, Min(p.principalBasisRawUsdc, value)).(
                      feeDebtRawUsdc := p.feeDebtRawUsdc + OrElse(a.landed.feeDebt, 0),
                      version := t.positions[key].version)))
  {
  }

  lemma FailedLandingKeepsCover(s: LedgerState, a: Action, key: PositionKey, rate: nat, overhead: nat)
    requires LandsOn(s, a, key) && key in s.positions && a.landed.failed
    requires HasRoom(s.positions[key], s.flows[FlowIndex(s.flows, a.flowId).value], rate, overhead)
    ensures
      var t := Step(s, a);
      && key in t.positions
      && Covered(t.positions[key], rate, FeeExcess(a.landed, overhead))
      && t.positions[key].principalBasisRawUsdc == s.positions[key].principalBasisRawUsdc
  {
  }

  /** The position after a landing that did not fail: classified, or blocked for a reset. */
  lemma LandingKeepsCover(s: LedgerState, a: Action, key: PositionKey, rate: nat, overhead: nat)
    requires RealizesAt(s, a, key) && key in s.positions
    requires
      var f := s.flows[FlowIndex(s.flows, a.flowId).value];
      LandsWithin(s.positions[key], f, a.landed, rate) && HasRoom(s.positions[key], f, rate, overhead)
    ensures
      var t := Step(s, a);
      && key in t.positions
      && Covered(t.positions[key], rate, ShareCeiling(rate) + FeeExcess(a.landed, overhead))
      && t.positions[key].principalBasisRawUsdc <= s.positions[key].principalBasisRawUsdc
      && s.positions[key].principalBasisRawUsdc <= t.positions[key].principalBasisRawUsdc + ShareExcess(rate, overhead)
  {
    var f := s.flows[FlowIndex(s.flows, a.flowId).value];
    LandedPosition(s, a, key);
    if a.landed.refreshed.Some? {
      LandingUsesItsRoom(s.positions[key], f, a.landed.refreshed.value, rate, overhead);
    }
  }

  // ---- one step

  lemma LandingEndsItsFlow(s: LedgerState, a: Action, key: PositionKey)
    requires StoresConsistent(s) && LandsOn(s, a, key)
    ensures
      var t := Step(s, a);
      && t.payments == s.payments && |t.flows| == |s.flows|
      && forall j | 0 <= j < |t.flows| && t.flows[j].key == key :: !StillOpen(t, j)
  {
    var t := Step(s, a);
    var i := FlowIndex(s.flows, a.flowId).value;
    LandedFlowMove(s, a.flowId, a.landed);
    assert t.flows[i].status != FlowSubmitted && t.flows[i].status != FlowPrepared;
    forall j | 0 <= j < |t.flows| && t.flows[j].key == key ensures !StillOpen(t, j) {
      assert FlowKept(s.flows[j], t.flows[j], s.now);
      if j != i {
        assert FlowPending(s.flows[i], s.now);
        assert !FlowPending(s.flows[j], s.now);
      }
    }
  }

  lemma LandingKeepsSpendingSafe(s: LedgerState, a: Action, key: PositionKey, rate: nat, overhead: nat, allowance: nat)
    requires SpendsSafelyAt(s, key, rate, overhead, allowance)
    requires SpendingStepAt(s, a, key, rate, overhead) && LandsOn(s, a, key)
    ensures SpendsSafelyAt(Step(s, a), key, rate, overhead, SpendingAllowance(s, a, key, rate, overhead, allowance))
    ensures Step(s, a).positions[key].principalBasisRawUsdc <= s.positions[key].principalBasisRawUsdc
    ensures s.positions[key].principalBasisRawUsdc
            <= Step(s, a).positions[key].principalBasisRawUsdc
               + if a.landed.failed then 0 else ShareExcess(rate, overhead)
  {
    assert StillOpen(s, FlowIndex(s.flows, a.flowId).value);
    StepKeepsStores(s, a);
    StepKeepsBacked(s, a);
    if a.landed.failed {
      FailedLandingKeepsCover(s, a, key, rate, overhead);
    } else {
      LandingKeepsCover(s, a, key, rate, overhead);
    }
    LandingEndsItsFlow(s, a, key);
  }

  lemma ApprovalKeepsSpendingSafe(s: LedgerState, a: Action, key: PositionKey, rate: nat, overhead: nat, allowance: nat)
    requires SpendsSafelyAt(s, key, rate, overhead, allowance)
    requires SpendingStepAt(s, a, key, rate, overhead) && ApprovesAt(s, a, key)
    ensures SpendsSafelyAt(Step(s, a), key, rate, overhead, SpendingAllowance(s, a, key, rate, overhead, allowance))
    ensures Step(s, a).positions[key].principalBasisRawUsdc == s.positions[key].principalBasisRawUsdc
  {
    StepKeepsStores(s, a);
    StepKeepsBacked(s, a);
    ApprovalGivesRoom(s, a.withdrawal, rate, overhead);
    WithdrawalShape(s, a.withdrawal);
    ExpiryMovesPayments(s, key);
    KeptPaymentsKeepTerms(s.payments, Step(s, a).payments, key, rate);
  }

  /** Any other step is a payment step as far as this position is concerned. */
  lemma OtherStepKeepsSafe(s: LedgerState, a: Action, key: PositionKey, rate: nat, overhead: nat, allowance: nat)
    requires rate > 0 && SafeAt(s, key, rate, allowance)
    requires SpendingStepAt(s, a, key, rate, overhead) && !LandsOn(s, a, key) && !ApprovesAt(s, a, key)
    ensures SafeAt(Step(s, a), key, rate, AllowanceAfter(s, a, key, rate, allowance))
  {
    if a.StartWithdrawal? && a.withdrawal.key == key {
      RefusedWithdrawalKeepsSafe(s, a, key, rate, allowance);
    } else if a.FinalizeLanded? {
      IdleLandingKeepsSafe(s, a, key, rate, allowance);
    } else {
      StepKeepsPrincipalSafe(s, a, key, rate, allowance);
    }
  }

  lemma IdleLandingKeepsSafe(s: LedgerState, a: Action, key: PositionKey, rate: nat, allowance: nat)
    requires SafeAt(s, key, rate, allowance) && a.FinalizeLanded? && !LandsOn(s, a, key)
    ensures SafeAt(Step(s, a), key, rate, allowance)
  {
    StepKeepsStores(s, a);
    StepKeepsBacked(s, a);
    LandingElsewhere(s, a, key);
    LandedFlowMove(s, a.flowId, a.landed);
  }

  lemma RefusedWithdrawalKeepsSafe(s: LedgerState, a: Action, key: PositionKey, rate: nat, allowance: nat)
    requires SafeAt(s, key, rate, allowance)
    requires a.StartWithdrawal? && a.withdrawal.key == key && !ApprovesAt(s, a, key)
    ensures SafeAt(Step(s, a), key, rate, allowance)
  {
    var t := Step(s, a);
    StepKeepsStores(s, a);
    StepKeepsBacked(s, a);
    WithdrawalShape(s, a.withdrawal);
    WithdrawalPositions(s, a.withdrawal);
    ExpiryMovesPayments(s, key);
    ExpiryKeepsCover(s, key, rate, allowance);
    KeptPaymentsKeepTerms(s.payments, t.payments, key, rate);
  }

  /** Open realizes keep their room through any step but their own landing. */
  lemma OtherStepKeepsRoom(s: LedgerState, a: Action, key: PositionKey, rate: nat, overhead: nat, allowance: nat)
    requires SpendsSafelyAt(s, key, rate, overhead, allowance)
    requires SpendingStepAt(s, a, key, rate, overhead) && !LandsOn(s, a, key) && !ApprovesAt(s, a, key)
    requires key in Step(s, a).positions
    ensures OpenRealizesHaveRoom(Step(s, a), key, rate, overhead)
  {
    var t := Step(s, a);
    StepMovesFlows(s, a);
    StepFrame(s, a);
    forall i | 0 <= i < |t.flows| && t.flows[i].key == key && t.flows[i].kind.YieldRealize? && StillOpen(t, i)
      ensures HasRoom(t.positions[key], t.flows[i], rate, overhead)
    {
      if i == |s.flows| {
        OnlyApprovalsOpenRealizes(s, a);
        assert false;
      } else {
        assert FlowKept(s.flows[i], t.flows[i], s.now);
        assert StillOpen(s, i);
        OpenWithdrawalFreezesPosition(s, a, i, key, rate, overhead);
      }
    }
  }

  lemma OnlyApprovalsOpenRealizes(s: LedgerState, a: Action)
    requires |Step(s, a).flows| > |s.flows| && !Step(s, a).flows[|s.flows|].kind.Deposit?
    ensures ApprovesAt(s, a, Step(s, a).flows[|s.flows|].key)
  {
    match a
    case StartDeposit(input) => DepositShape(s, input);
    case StartWithdrawal(input) =>
      WithdrawalShape(s, input);
      ExpiryMovesPayments(s, input.key);
    case Submit(id, _) => SingleFlowMove(s, a, id);
    case ReadStatus(id) => SingleFlowMove(s, a, id);
    case Abandon(id) => SingleFlowMove(s, a, id);
    case FinalizeLanded(id, landed) => SingleFlowMove(s, a, id);
    case _ => PaymentsLeaveFlows(s, a);
  }

  lemma OtherStepKeepsPrincipal(s: LedgerState, a: Action, key: PositionKey, rate: nat, overhead: nat)
    requires key in s.positions && SpendingStepAt(s, a, key, rate, overhead) && !LandsOn(s, a, key)
    ensures PrincipalOf(Step(s, a), key) == PrincipalOf(s, key)
  {
    match a
    case Prepare(input) => PrepareKeepsPrincipal(s, input, key);
    case StartWithdrawal(input) => WithdrawalPositions(s, input);
    case Finalize(id, result) => FinalizeKeepsPrincipal(s, id, result, key);
    case FinalizeLanded(id, landed) => LandingElsewhere(s, a, key);
    case StartDeposit(input) => UnrelatedStep(s, a, key, rate);
    case Sync(k, input) => UnrelatedStep(s, a, key, rate);
    case _ => QuietStepsKeepPrincipal(s, a, key);
  }

  /**
    One spending step: everything stays safe, and only a landed realize moves the principal, down by at most the
    excess.
   */
  lemma StepKeepsSpendingSafe(s: LedgerState, a: Action, key: PositionKey, rate: nat, overhead: nat, allowance: nat)
    requires rate > 0 && SpendsSafelyAt(s, key, rate, overhead, allowance) && SpendingStepAt(s, a, key, rate, overhead)
    ensures SpendsSafelyAt(Step(s, a), key, rate, overhead, SpendingAllowance(s, a, key, rate, overhead, allowance))
    ensures
      var before, after := s.positions[key].principalBasisRawUsdc, Step(s, a).positions[key].principalBasisRawUsdc;
      after <= before <= after + if RealizesAt(s, a, key) then ShareExcess(rate, overhead) else 0
  {
    if LandsOn(s, a, key) {
      LandingKeepsSpendingSafe(s, a, key, rate, overhead, allowance);
    } else if ApprovesAt(s, a, key) {
      ApprovalKeepsSpendingSafe(s, a, key, rate, overhead, allowance);
    } else {
      OtherStepKeepsSafe(s, a, key, rate, overhead, allowance);
      OtherStepKeepsRoom(s, a, key, rate, overhead, allowance);
      OtherStepKeepsPrincipal(s, a, key, rate, overhead);
    }
  }

  // ---- whole runs

  predicate SpendingRunAt(s: LedgerState, actions: seq<Action>, key: PositionKey, rate: nat, overhead: nat)
    decreases |actions|
  {
    actions == []
    || (&& SpendingStepAt(s, actions[0], key, rate, overhead)
        && SpendingRunAt(Step(s, actions[0]), actions[1..], key, rate, overhead))
  }

  function SpendingAllowanceOver(
    s: LedgerState, actions: seq<Action>, key: PositionKey, rate: nat, overhead: nat, allowance: nat): nat
    decreases |actions|
  {
    if actions == [] then allowance
    else SpendingAllowanceOver(Step(s, actions[0]), actions[1..], key, rate, overhead,
                               SpendingAllowance(s, actions[0], key, rate, overhead, allowance))
  }

  function RealizesOver(s: LedgerState, actions: seq<Action>, key: PositionKey): nat
    decreases |actions|
  {
    if actions == [] then 0
    else (if RealizesAt(s, actions[0], key) then 1 else 0) + RealizesOver(Step(s, actions[0]), actions[1..], key)
  }

  /** The principal a position may lose: one excess per landed realize. */
  function LossOver(s: LedgerState, actions: seq<Action>, key: PositionKey, excess: nat): nat
    decreases |actions|
  {
    if actions == [] then 0
    else
      (if RealizesAt(s, actions[0], key) then excess else 0)
      + LossOver(Step(s, actions[0]), actions[1..], key, excess)
  }

  lemma {:induction false} LossIsExcessPerRealize(s: LedgerState, actions: seq<Action>, key: PositionKey, excess: nat)
    ensures LossOver(s, actions, key, excess) == Times(RealizesOver(s, actions, key), excess)
    decreases |actions|
  {
    if actions != [] {
      LossIsExcessPerRealize(Step(s, actions[0]), actions[1..], key, excess);
    }
  }

  lemma {:induction false} SpendingSafeOverRuns(
    s: LedgerState, actions: seq<Action>, key: PositionKey, rate: nat, overhead: nat, allowance: nat)
    requires rate > 0 && SpendsSafelyAt(s, key, rate, overhead, allowance)
    requires SpendingRunAt(s, actions, key, rate, overhead)
    ensures SafeAt(RunAll(s, actions), key, rate, SpendingAllowanceOver(s, actions, key, rate, overhead, allowance))
    ensures PrincipalOf(RunAll(s, actions), key) <= PrincipalOf(s, key)
    ensures PrincipalOf(s, key)
            <= PrincipalOf(RunAll(s, actions), key) + LossOver(s, actions, key, ShareExcess(rate, overhead))
    decreases |actions|
  {
    if actions != [] {
      StepKeepsSpendingSafe(s, actions[0], key, rate, overhead, allowance);
      SpendingSafeOverRuns(Step(s, actions[0]), actions[1..], key, rate, overhead,
                           SpendingAllowance(s, actions[0], key, rate, overhead, allowance));
    }
  }

  /**
    The promise over payments and yield-realizes together.  From a reachable ledger whose position covers its
    principal, over any run of both at that rate: the principal basis falls by at most the excess of one share over
    the overhead per landed realize, so not at all while a share is worth at most the overhead; and unless the position
    is blocked for a reset, its value covers principal, buffer, reservations and fee debt up to one drift per
    settlement since the last grant, or one share and the fees beyond the overhead since the last realize.
   */
  lemma PaymentsAndRealizesKeepPrincipal(
    now: int, before: seq<Action>, actions: seq<Action>, key: PositionKey, overhead: nat)
    requires key in RunAll(Initial(now), before).positions
    requires
      var s := RunAll(Initial(now), before);
      var rate := s.positions[key].exchangeRateScaled;
      && rate > 0
      && LiveTermsAt(s.payments, key, rate) && OpenRealizesHaveRoom(s, key, rate, overhead)
      && Covered(s.positions[key], rate, 0)
      && SpendingRunAt(s, actions, key, rate, overhead)
    ensures
      var s := RunAll(Initial(now), before);
      var rate := s.positions[key].exchangeRateScaled;
      var t := RunAll(s, actions);
      && key in t.positions
      && t.positions[key].exchangeRateScaled == rate
      && t.positions[key].principalBasisRawUsdc <= s.positions[key].principalBasisRawUsdc
      && s.positions[key].principalBasisRawUsdc
         <= t.positions[key].principalBasisRawUsdc + RealizesOver(s, actions, key) * ShareExcess(rate, overhead)
      && (ShareCeiling(rate) <= overhead ==>
            t.positions[key].principalBasisRawUsdc == s.positions[key].principalBasisRawUsdc)
      && (t.positions[key].status.NeedsBaselineReset?
          || PositionValue(t.positions[key].totalSharesRaw, rate)
             + SpendingAllowanceOver(s, actions, key, rate, overhead, 0)
             >= Committed(t.positions[key]))
  {
    var s := RunAll(Initial(now), before);
    ReachableStoresAreConsistent(now, before);
    RunsKeepTheBooks(Initial(now), before);
    SpendingSafeOverRuns(s, actions, key, s.positions[key].exchangeRateScaled, overhead, 0);
    LossIsExcessPerRealize(s, actions, key, ShareExcess(s.positions[key].exchangeRateScaled, overhead));
    TimesIsProduct(RealizesOver(s, actions, key), ShareExcess(s.positions[key].exchangeRateScaled, overhead));
  }
}
