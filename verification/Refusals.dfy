/**
  Every refusal of the ledger names a cause that holds: together with the conditions under which each operation is
  granted, a caller can believe the reason it is given.
 */
module Refusals {
  import opened Wrappers
  import opened RawUnits
  import opened Models
  import opened Budget
  import opened Ledger
  import opened LedgerInvariants
  import opened LedgerAccounting
  import opened PaymentOutcomes
  import opened PositionOutcomes
  import opened RealizeSafety
  import opened FlowOutcomes
  import VaultAdapter

  /** Why a position may not sign now. */
  predicate SignerCause(p: WalletPosition, production: bool, reason: Refusal) {
    || (reason == ObservedOnlyWallet && p.observedMode)
    || (reason == SignerProviderMissing && !p.signerConfigured)
    || (reason == SignerValidationMissing && production && !p.signerValidated)
  }

  /** Why the value, the cash or the rate does not carry a withdrawal of `gross` and its fee. */
  predicate BudgetCause(p: WalletPosition, shares: nat, rate: nat, capacity: nat, outstanding: nat, gross: nat,
                        fee: nat, reason: BudgetRejection) {
    var needed := Committed(p) + gross + fee;
    match reason
    case InvalidExchangeRate => rate == 0
    case InsufficientYield => PositionValue(shares, rate) < needed && gross + fee > 0
    case BudgetIlliquid => capacity < outstanding + gross
    case PostStateInvariantFailed => PositionValue(shares, rate) < needed && gross + fee == 0
  }

  lemma BudgetNamesItsCause(p: WalletPosition, seller: nat, fee: nat, required: Option<nat>, outstanding: nat)
    ensures
      var r := EvaluatePaymentBudget(p, seller, fee, required, outstanding);
      r.Failure? ==>
        BudgetCause(p, p.totalSharesRaw, p.exchangeRateScaled, p.instantRedeemCapacityRawUsdc, outstanding,
                    if required.Some? then required.value else seller, fee, r.error)
  {
    EvaluationGrantsExactlyTheSurplus(p, seller, fee, required, outstanding);
  }

  predicate QuoteCause(target: nat, context: VaultAdapter.VaultContext, reason: VaultAdapter.LiquidityError) {
    var bps, lamports := context.withdrawalPenaltyBps, context.withdrawalPenaltyLamports;
    match reason
    case TargetNotPositive => target == 0
    case ExchangeRateNotPositive => context.exchangeRateScaled == 0
    case PenaltyConsumesWithdraw => bps >= 10_000
    case BelowVaultMinimum => target <= context.minWithdrawAmountRaw
    case ExceedsInstantCapacity =>
      forall gross: nat | gross <= context.singleInstructionRedeemCapacityRawUsdc ::
        !VaultAdapter.CoversTarget(gross, target, bps, lamports)
  }

  lemma QuoteNamesItsCause(target: nat, context: VaultAdapter.VaultContext)
    ensures
      var quoted := VaultAdapter.SettlementQuoteFor(target, context);
      quoted.Failure? ==> QuoteCause(target, context, quoted.error)
  {
    var bps, lamports := context.withdrawalPenaltyBps, context.withdrawalPenaltyLamports;
    VaultAdapter.QuotesAreExact(target, context);
    if target > 0 && bps < VaultAdapter.FULL_BPS {
      VaultAdapter.InitialGrossNetsTheTarget(target, bps, lamports);
    }
  }

  // ---- payments

  /** What is wrong with a preparation that is refused, said of the ledger as expiry leaves it. */
  predicate PaymentCause(u: LedgerState, input: PrepareInput, reason: Refusal) {
    || (reason == AlreadyUsedId && !NewPaymentId(u, input.paymentId))
    || (reason == SellerRequestIdReuse
        && exists i | 0 <= i < |u.payments| ::
             u.payments[i].request == input.request && u.payments[i].requestBindingHash != input.requestBindingHash)
    || (reason == WalletNotRegistered && input.key !in u.positions)
    || (input.key in u.positions
        && (PositionCause(u, input, u.positions[input.key], reason)
            || StageCause(u, input, u.positions[input.key], reason)))
  }

  predicate PositionCause(u: LedgerState, input: PrepareInput, p: WalletPosition, reason: Refusal) {
    || (reason == PositionBlocked(p.status) && p.status != Active)
    || (reason == SigningPolicyMissing && p.signingPolicyId == None)
    || SignerCause(p, input.production, reason)
    || (reason == VaultFlowPending && !NoFlowOwns(u, input.key))
    || (reason == LiquidityPolicyMissing && input.policy == None && input.production)
    || (reason == LiquidityPolicyDisabled && input.policy.Some? && !input.policy.value.active)
    || (reason == AmountExceedsPolicy
        && input.policy.Some? && input.amountRawUsdc > input.policy.value.expectedPaymentSize)
  }

  /** On the figures of the quote where there is one, else on the ledger's. */
  predicate StageCause(u: LedgerState, input: PrepareInput, p: WalletPosition, reason: Refusal)
    requires input.key in u.positions
  {
    var judged := JudgedOn(u, input);
    || (reason.QuoteRefused? && input.quote.Some?
        && QuoteCause(input.amountRawUsdc, input.quote.value.vault, reason.liquidity))
    || (reason == BaselineResetNeeded && input.quote.Some?
        && input.quote.value.stakedSharesRaw + input.quote.value.unstakedSharesRaw != p.totalSharesRaw)
    || (reason == BelowPolicyLiquidity
        && input.policy.Some? && CashSeen(input, p) < input.policy.value.minInstantLiquidity)
    || (reason == BudgetRefused(InvalidExchangeRate) && input.quote == None && p.exchangeRateScaled == 0)
    || (reason.BudgetRefused? && judged.Some? && JudgedCause(u, input, p, judged.value, reason.budget))
    || (reason == BuilderFailed && input.builtShares == None)
    || (reason == BuilderInvalid && judged.Some?
        && input.builtShares.Some? && input.builtShares.value > judged.value.approvedShares)
  }

  predicate JudgedCause(u: LedgerState, input: PrepareInput, p: WalletPosition, j: Judged, reason: BudgetRejection) {
    BudgetCause(p, j.totalSharesRaw, j.rate, j.capacity, ActiveWithdrawReserved(u.payments, input.key), j.withdraw,
                input.estimatedFeeDebtRawUsdc, reason)
  }

  function CashSeen(input: PrepareInput, p: WalletPosition): nat {
    match input.quote
    case None => p.instantRedeemCapacityRawUsdc
    case Some(chain) => chain.instantRedeemCapacityRawUsdc
  }

  lemma SnapshotNamesItsCause(u: LedgerState, input: PrepareInput, p: WalletPosition)
    requires input.key in u.positions && u.positions[input.key] == p && input.quote == None
    ensures
      var reply := PrepareOnSnapshot(u, input, p, None).reply;
      reply == Done || (reply.Refused? && StageCause(u, input, p, reply.reason))
  {
    BudgetNamesItsCause(p, input.amountRawUsdc, input.estimatedFeeDebtRawUsdc, None,
                        ActiveWithdrawReserved(u.payments, input.key));
  }

  lemma QuotedStageNamesItsCause(u: LedgerState, input: PrepareInput, p: WalletPosition, chain: ChainQuote)
    requires input.key in u.positions && u.positions[input.key] == p && input.quote == Some(chain)
    ensures
      var reply := PrepareOnQuote(u, input, p, chain).reply;
      reply == Done || (reply.Refused? && StageCause(u, input, p, reply.reason))
  {
    QuoteNamesItsCause(input.amountRawUsdc, chain.vault);
    var quote := VaultAdapter.SettlementQuoteFor(input.amountRawUsdc, chain.vault);
    if quote.Success? && chain.stakedSharesRaw + chain.unstakedSharesRaw == p.totalSharesRaw {
      VaultAdapter.QuotesAreExact(input.amountRawUsdc, chain.vault);
      BudgetNamesItsCause(WorkingPosition(p, chain), input.amountRawUsdc, input.estimatedFeeDebtRawUsdc,
                          Some(quote.value.requiredWithdrawRawUsdc), ActiveWithdrawReserved(u.payments, input.key));
    }
  }

  lemma LastStageNamesItsCause(u: LedgerState, input: PrepareInput, p: WalletPosition)
    requires input.key in u.positions && u.positions[input.key] == p
    ensures
      var reply := LastStage(u, input, p).reply;
      reply == Done || (reply.Refused? && StageCause(u, input, p, reply.reason))
  {
    match input.quote
    case None => SnapshotNamesItsCause(u, input, p);
    case Some(chain) => QuotedStageNamesItsCause(u, input, p, chain);
  }

  lemma GuardsNameTheirCause(u: LedgerState, input: PrepareInput, p: WalletPosition)
    ensures
      var refusal := PaymentRefusal(u, p, input);
      refusal.Some? ==> PositionCause(u, input, p, refusal.value)
  {
  }

  /** A preparation that is refused is refused for a reason that holds once what is late has expired. */
  lemma PaymentRefusalsAreTrue(s: LedgerState, input: PrepareInput)
    ensures
      var reply := PreparePayment(s, input).reply;
      reply.Refused? ==> PaymentCause(ExpirePreparedPayments(s, input.key), input, reply.reason)
  {
    var u := ExpirePreparedPayments(s, input.key);
    IdUnused(u.payments, input.paymentId);
    if input.key in u.positions {
      GuardsNameTheirCause(u, input, u.positions[input.key]);
      LastStageNamesItsCause(u, input, u.positions[input.key]);
    }
  }

  // ---- syncs and flows

  predicate SyncCause(s: LedgerState, key: PositionKey, input: SyncInput, reason: Refusal) {
    || (reason == WalletNotRegistered && key !in s.positions)
    || (key in s.positions
        && var p := s.positions[key];
           || (reason == StalePositionSnapshot && !NotOutdated(p, input))
           || (reason == VaultFlowPending && !NothingSubmitted(s, key))
           || (reason == ShareTotalMismatch && !PartsMatchTotal(p, input))
           || (reason == InvalidExchangeRateInput && input.exchangeRateScaled == 0)
           || (reason == SubmittedPaymentActive && Resets(p, input) && !NothingAwaitsSettlement(s, key)))
  }

  lemma SyncRefusalsAreTrue(s: LedgerState, key: PositionKey, input: SyncInput)
    ensures
      var reply := SyncWalletPosition(s, key, input).reply;
      reply.Refused? ==> SyncCause(s, key, input, reply.reason)
  {
    if key in s.positions {
      assert SyncIsStale(s.positions[key], input) <==> !NotOutdated(s.positions[key], input);
    }
  }

  predicate DepositCause(s: LedgerState, input: DepositInput, reason: Refusal) {
    || (reason == AlreadyUsedId && exists i | 0 <= i < |s.flows| :: s.flows[i].flowId == input.flowId)
    || (reason == WalletNotRegistered && input.key !in s.positions)
    || (reason == VaultFlowPending && !NoFlowOwns(s, input.key))
    || (reason == MandateRefused && !input.mandateAllows)
    || (reason == DepositBelowMinimum && input.amountRawUsdc < input.minDepositAmountRaw + 10)
    || (reason == BuilderFailed && !input.built)
    || (input.key in s.positions
        && var p := s.positions[input.key];
           || (reason == BaselineResetNeeded && input.onchainShares != p.totalSharesRaw)
           || SignerCause(p, input.production, reason))
  }

  lemma DepositRefusalsAreTrue(s: LedgerState, input: DepositInput)
    ensures
      var reply := PrepareDeposit(s, input).reply;
      reply.Refused? ==> DepositCause(s, input, reply.reason)
  {
    NoFlowOwnsMeansNonePending(s, input.key);
  }

  predicate WithdrawalCause(s: LedgerState, input: WithdrawalInput, reason: Refusal) {
    || (reason == AlreadyUsedId && exists i | 0 <= i < |s.flows| :: s.flows[i].flowId == input.flowId)
    || (reason == WalletNotRegistered && input.key !in s.positions)
    || (reason == VaultFlowPending && !NoFlowOwns(s, input.key))
    || (reason == WalletLockedByPayment && !NothingAwaitsSettlement(s, input.key))
    || (reason == PaymentReservationActive && Reserved(s, input.key))
    || (reason == MandateRefused && !input.mandateAllows)
    || (input.key in s.positions
        && var p := s.positions[input.key];
           || SignerCause(p, input.production, reason)
           || (reason == BaselineResetNeeded
               && input.stakedSharesRaw + input.unstakedSharesRaw != p.totalSharesRaw)
           || ApprovalCause(p, input, reason))
  }

  predicate Reserved(s: LedgerState, key: PositionKey) {
    exists i | 0 <= i < |s.payments| ::
      s.payments[i].key == key && s.payments[i].status == PaymentPrepared && s.payments[i].expiresAt > s.now
  }

  predicate ApprovalCause(p: WalletPosition, input: WithdrawalInput, reason: Refusal) {
    || (reason == WithdrawIlliquid
        && (Takes(input) == None || Takes(input).value > input.instantRedeemCapacityRawUsdc))
    || (reason == BuilderFailed && (input.exchangeRateScaled == 0 || !input.built))
    || (reason.BudgetRefused? && input.yieldRealize && Takes(input).Some?
        && BudgetCause(p, input.stakedSharesRaw + input.unstakedSharesRaw, input.exchangeRateScaled,
                       input.instantRedeemCapacityRawUsdc, 0, Takes(input).value, input.realizeOverheadRawUsdc,
                       reason.budget))
  }

  lemma ApprovalNamesItsCause(u: LedgerState, input: WithdrawalInput, p: WalletPosition)
    ensures
      var reply := ApproveWithdrawal(u, input, p).reply;
      reply.Refused? ==> ApprovalCause(p, input, reply.reason)
  {
    if input.withdrawalPenaltyBps < VaultAdapter.FULL_BPS {
      TakesSomething(input);
      BudgetNamesItsCause(OnFreshChain(p, input), input.amountRawUsdc, input.realizeOverheadRawUsdc,
                          Some(WithdrawalGross(input)), 0);
    }
  }

  lemma HeldOnceExpired(s: LedgerState, key: PositionKey)
    requires key in s.positions
    ensures
      var u := ExpirePreparedPayments(s, key);
      && (SettlementActiveFor(u, key) ==> !NothingAwaitsSettlement(s, key))
      && ((exists i | 0 <= i < |u.payments| :: u.payments[i].key == key && u.payments[i].status.PaymentPrepared?) ==>
            Reserved(s, key))
      && (AnyFlowPending(u.(flows := ExpireStaleFlows(u.flows, key, u.now)), key) ==> !NoFlowOwns(s, key))
  {
    var u := ExpirePreparedPayments(s, key);
    assert forall i | 0 <= i < |s.payments| && !DueToExpire(s.payments[i], key, s.now) ::
             u.payments[i] == s.payments[i];
    SweepKeepsPending(u, key);
    NoFlowOwnsMeansNonePending(s, key);
  }

  predicate RefusedWith(outcome: Outcome, reason: Refusal) {
    outcome.reply == Refused(reason)
  }

  /** How a withdrawal is refused before its last stage, on the store as the sweeps leave it. */
  predicate RefusedEarly(s: LedgerState, input: WithdrawalInput, outcome: Outcome)
    requires input.key in s.positions
  {
    var p, u := s.positions[input.key], SweptForWithdrawal(s, input);
    || (RefusedWith(outcome, AlreadyUsedId) && FlowIndex(s.flows, input.flowId).Some?)
    || (outcome.reply.Refused? && SignerCause(p, input.production, outcome.reply.reason))
    || (RefusedWith(outcome, WalletLockedByPayment) && SettlementActiveFor(u, input.key))
    || (RefusedWith(outcome, PaymentReservationActive)
        && exists i | 0 <= i < |u.payments| :: u.payments[i].key == input.key && u.payments[i].status.PaymentPrepared?)
    || (RefusedWith(outcome, VaultFlowPending) && AnyFlowPending(u, input.key))
    || (RefusedWith(outcome, MandateRefused) && !input.mandateAllows)
    || (RefusedWith(outcome, BaselineResetNeeded) && OnchainShares(input) != p.totalSharesRaw)
  }

  lemma WithdrawalRefusedBeforeApproval(s: LedgerState, input: WithdrawalInput)
    requires input.key in s.positions
    ensures RefusedEarly(s, input, PrepareWithdrawal(s, input))
            || PrepareWithdrawal(s, input)
               == ApproveWithdrawal(SweptForWithdrawal(s, input), input, s.positions[input.key])
  {
  }

  lemma EarlyRefusalsAreTrue(s: LedgerState, input: WithdrawalInput, outcome: Outcome)
    requires input.key in s.positions && RefusedEarly(s, input, outcome)
    ensures outcome.reply.Refused? && WithdrawalCause(s, input, outcome.reply.reason)
  {
    HeldOnceExpired(s, input.key);
  }

  lemma WithdrawalRefusalsAreTrue(s: LedgerState, input: WithdrawalInput)
    ensures
      var reply := PrepareWithdrawal(s, input).reply;
      reply.Refused? ==> WithdrawalCause(s, input, reply.reason)
  {
    if input.key in s.positions {
      var outcome := PrepareWithdrawal(s, input);
      WithdrawalRefusedBeforeApproval(s, input);
      if RefusedEarly(s, input, outcome) {
        EarlyRefusalsAreTrue(s, input, outcome);
      } else {
        ApprovalNamesItsCause(SweptForWithdrawal(s, input), input, s.positions[input.key]);
      }
    }
  }

  /** Submissions: of a flow, by the mandate or the signature; of a payment, by its payload. */
  lemma SubmissionRefusalsAreTrue(s: LedgerState, i: nat, id: nat, input: SubmitInput, payload: SettlePayload)
    ensures
      var reply := SubmitFlow(s, id, input).reply;
      StoredFlow(s, i, id) && reply.Refused? ==>
        || (reply.reason == MandateRefused && !input.mandateHolds)
        || (reply.reason == PayloadInvalid && !input.transactionVerified)
    ensures
      var reply := BeginSubmission(s, id, payload).reply;
      StoredPayment(s, i, id) && reply.Refused? ==>
        || (reply.reason == PayloadInvalid
            && (payload.requestBindingHash != s.payments[i].requestBindingHash
                || !payload.messageHashMatches || !payload.verified))
        || (reply.reason == SubmitterUnavailable && (payload.submission == None || payload.submission == Some("")))
  {
    if StoredFlow(s, i, id) {
      FlowAt(s.flows, id, i);
    }
    if StoredPayment(s, i, id) {
      PaymentAt(s.payments, id, i);
    }
  }
}
