/**
  The vault flow service as it runs: deposits and withdrawals move through their statuses step by step.  Each method
  is proved to do exactly what the state machine's operation does.
 */
module VaultFlowServices {
  import opened Wrappers
  import opened RawUnits
  import opened Models
  import opened Budget
  import opened LedgerServices
  import L = Ledger
  import VaultAdapter

  class VaultFlowService {
    const ledger: InMemoryLedger
    const realizeOverheadRawUsdc: nat

    constructor (ledger: InMemoryLedger, realizeOverheadRawUsdc: nat)
      ensures this.ledger == ledger && this.realizeOverheadRawUsdc == realizeOverheadRawUsdc
    {
      this.ledger, this.realizeOverheadRawUsdc := ledger, realizeOverheadRawUsdc;
    }

    method ExpireStaleFlows(key: PositionKey)
      modifies ledger`flows
      ensures ledger.flows == L.ExpireStaleFlows(old(ledger.flows), key, ledger.now)
    {
      var stored := ledger.flows;
      var i := 0;
      while i < |stored|
        invariant 0 <= i <= |stored| == |ledger.flows|
        invariant forall k | 0 <= k < |stored| ::
                    ledger.flows[k]
                    == if k < i && stored[k].key == key && stored[k].status.FlowPrepared?
                       && stored[k].expiresAt <= ledger.now
                       then stored[k].(status := FlowExpired) else stored[k]
      {
        if stored[i].key == key && stored[i].status.FlowPrepared? && stored[i].expiresAt <= ledger.now {
          ledger.flows := ledger.flows[i := stored[i].(status := FlowExpired)];
        }
        i := i + 1;
      }
    }

    /** Counts the flows that still own the position; zero means none does. */
    method PendingVaultFlows(key: PositionKey) returns (pending: nat)
      ensures pending == 0 <==> !L.AnyFlowPending(ledger.View(), key)
    {
      pending := 0;
      var i := 0;
      while i < |ledger.flows|
        invariant 0 <= i <= |ledger.flows|
        invariant pending == 0 <==> forall k | 0 <= k < i ::
                    !(ledger.flows[k].key == key && FlowPending(ledger.flows[k], ledger.now))
      {
        if ledger.flows[i].key == key && FlowPending(ledger.flows[i], ledger.now) {
          pending := pending + 1;
        }
        i := i + 1;
      }
    }

    method FlagShareMovement(key: PositionKey, position: WalletPosition, onchainShares: nat)
      modifies ledger
      ensures ledger.View() == L.FlagShareMovement(old(ledger.View()), key, position, onchainShares)
    {
      ledger.SavePosition(key, L.FlagBaselineReset(position));
      ledger.SaveSyncEvent(SyncEvent(key, onchainShares - position.totalSharesRaw, 0));
    }

    /** The signer part of `requireSignerReadyPosition`. */
    method SigningRefusal(position: WalletPosition, production: bool) returns (refusal: Option<L.Refusal>)
      ensures refusal == L.SigningRefusal(position, production)
      ensures refusal.None? <==>
                !position.observedMode && position.signerConfigured && (production ==> position.signerValidated)
    {
      if position.observedMode {
        return Some(L.ObservedOnlyWallet);
      }
      if !position.signerConfigured {
        return Some(L.SignerProviderMissing);
      }
      if production && !position.signerValidated {
        return Some(L.SignerValidationMissing);
      }
      return None;
    }

    method PrepareDeposit(input: L.DepositInput) returns (reply: L.Reply)
      modifies ledger
      ensures L.Outcome(ledger.View(), reply) == L.PrepareDeposit(old(ledger.View()), input)
    {
      var key := input.key;
      if L.FlowIndex(ledger.flows, input.flowId).Some? {
        return L.Refused(L.AlreadyUsedId);
      }
      if key !in ledger.positions {
        return L.Refused(L.WalletNotRegistered);
      }
      var position := ledger.positions[key];
      var refusal := SigningRefusal(position, input.production);
      if refusal.Some? {
        return L.Refused(refusal.value);
      }
      SameFlowIds(ledger.flows, L.ExpireStaleFlows(ledger.flows, key, ledger.now), input.flowId);
      ExpireStaleFlows(key);
      var pending := PendingVaultFlows(key);
      if pending > 0 {
        return L.Refused(L.VaultFlowPending);
      }
      if !input.mandateAllows {
        return L.Refused(L.MandateRefused);
      }
      if input.amountRawUsdc < input.minDepositAmountRaw + L.DEPOSIT_SHARE_ROUNDING_MARGIN_RAW {
        return L.Refused(L.DepositBelowMinimum);
      }
      if input.onchainShares != position.totalSharesRaw {
        FlagShareMovement(key, position, input.onchainShares);
        return L.Refused(L.BaselineResetNeeded);
      }
      if !input.built {
        return L.Refused(L.BuilderFailed);
      }
      ledger.SaveFlow(VaultFlow(input.flowId, key, Deposit, input.amountRawUsdc, 0, input.expiresAt, 0, FlowPrepared));
      return L.Done;
    }

    /** The position copy is taken before the expiry below, as the service takes it. */
    method PrepareWithdrawal(input: L.WithdrawalInput) returns (reply: L.Reply)
      requires input.realizeOverheadRawUsdc == realizeOverheadRawUsdc
      modifies ledger
      ensures L.Outcome(ledger.View(), reply) == L.PrepareWithdrawal(old(ledger.View()), input)
    {
      var key := input.key;
      if L.FlowIndex(ledger.flows, input.flowId).Some? {
        return L.Refused(L.AlreadyUsedId);
      }
      if key !in ledger.positions {
        return L.Refused(L.WalletNotRegistered);
      }
      var position := ledger.positions[key];
      var refusal := SigningRefusal(position, input.production);
      if refusal.Some? {
        return L.Refused(refusal.value);
      }
      ExpirePreparedPaymentsForLockedPosition(ledger, key);
      if exists i | 0 <= i < |ledger.payments| :: L.AwaitingSettlement(ledger.payments[i], key) {
        return L.Refused(L.WalletLockedByPayment);
      }
      if exists i | 0 <= i < |ledger.payments| ::
          ledger.payments[i].key == key && ledger.payments[i].status.PaymentPrepared?
      {
        return L.Refused(L.PaymentReservationActive);
      }
      SameFlowIds(ledger.flows, L.ExpireStaleFlows(ledger.flows, key, ledger.now), input.flowId);
      ExpireStaleFlows(key);
      var pending := PendingVaultFlows(key);
      if pending > 0 {
        return L.Refused(L.VaultFlowPending);
      }
      if !input.mandateAllows {
        return L.Refused(L.MandateRefused);
      }
      if L.OnchainShares(input) != position.totalSharesRaw {
        FlagShareMovement(key, position, L.OnchainShares(input));
        return L.Refused(L.BaselineResetNeeded);
      }
      reply := ApproveWithdrawal(input, position);
    }

    method ApproveWithdrawal(input: L.WithdrawalInput, position: WalletPosition) returns (reply: L.Reply)
      requires input.realizeOverheadRawUsdc == realizeOverheadRawUsdc
      requires L.FlowIndex(ledger.flows, input.flowId).None?
      modifies ledger
      ensures L.Outcome(ledger.View(), reply) == L.ApproveWithdrawal(old(ledger.View()), input, position)
    {
      var target := input.amountRawUsdc;
      if input.yieldRealize {
        target := target + L.YIELD_REALIZE_ROUNDING_RAW_USDC;
      }
      var inverted := VaultAdapter.GrossWithdrawForNetTarget(target, input.withdrawalPenaltyBps,
                                                             input.withdrawalPenaltyLamports);
      if inverted.Failure? {
        return L.Refused(L.WithdrawIlliquid);
      }
      var gross := inverted.value;
      if gross > input.instantRedeemCapacityRawUsdc {
        return L.Refused(L.WithdrawIlliquid);
      }
      if input.yieldRealize {
        var evaluation := EvaluatePaymentBudget(L.OnFreshChain(position, input), input.amountRawUsdc,
                                                realizeOverheadRawUsdc, Some(gross), 0);
        if evaluation.Failure? {
          return L.Refused(L.BudgetRefused(evaluation.error));
        }
      }
      if input.exchangeRateScaled == 0 || !input.built {
        return L.Refused(L.BuilderFailed);
      }
      var requestedShares := Min(CeilDiv(gross * RATE_SCALE, input.exchangeRateScaled), L.OnchainShares(input));
      ledger.SaveFlow(VaultFlow(input.flowId, input.key, if input.yieldRealize then YieldRealize else NormalWithdrawal,
                                input.amountRawUsdc, requestedShares, input.expiresAt, 0, FlowPrepared));
      return L.Done;
    }

    method SubmitFlow(flowId: nat, input: L.SubmitInput) returns (reply: L.Reply)
      modifies ledger
      ensures L.Outcome(ledger.View(), reply) == L.SubmitFlow(old(ledger.View()), flowId, input)
    {
      var found := L.FlowIndex(ledger.flows, flowId);
      if found.None? {
        return L.Refused(L.NotFound);
      }
      var latest := ledger.flows[found.value];
      if !latest.status.FlowPrepared? {
        return L.Unchanged;
      }
      if latest.expiresAt <= ledger.now {
        ledger.SaveFlow(latest.(status := FlowExpired));
        return L.Done;
      }
      if !input.mandateHolds {
        return L.Refused(L.MandateRefused);
      }
      if !input.transactionVerified {
        return L.Refused(L.PayloadInvalid);
      }
      ledger.SaveFlow(latest.(status := FlowSubmitted));
      return L.Done;
    }

    method AbandonFlow(flowId: nat) returns (reply: L.Reply)
      modifies ledger
      ensures L.Outcome(ledger.View(), reply) == L.AbandonFlow(old(ledger.View()), flowId)
    {
      var found := L.FlowIndex(ledger.flows, flowId);
      if found.None? {
        return L.Refused(L.NotFound);
      }
      var latest := ledger.flows[found.value];
      if !latest.status.FlowSubmitted? {
        return L.Unchanged;
      }
      ledger.SaveFlow(latest.(status := FlowNotSubmitted));
      return L.Done;
    }

    method ApplyFlowFeeDebt(key: PositionKey, feeDebt: Option<nat>)
      modifies ledger
      ensures ledger.View() == L.ApplyFlowFeeDebt(old(ledger.View()), key, feeDebt)
    {
      if feeDebt.None? || key !in ledger.positions {
        return;
      }
      var position := ledger.positions[key];
      ledger.SavePosition(key, position.(feeDebtRawUsdc := position.feeDebtRawUsdc + feeDebt.value,
                                         version := position.version + 1));
    }

    method FinalizeFlow(flowId: nat, landed: L.LandedFlow) returns (reply: L.Reply)
      modifies ledger
      ensures L.Outcome(ledger.View(), reply) == L.FinalizeFlow(old(ledger.View()), flowId, landed)
    {
      var found := L.FlowIndex(ledger.flows, flowId);
      if found.None? {
        return L.Refused(L.NotFound);
      }
      var latest := ledger.flows[found.value];
      if !latest.status.FlowSubmitted? {
        return L.Unchanged;
      }
      var key := latest.key;
      if landed.failed {
        ApplyFlowFeeDebt(key, landed.feeDebt);
        ledger.SaveFlow(latest.(status := FlowFailed));
        return L.Done;
      }
      var moved := L.MovedAmount(latest.kind, landed.usdcDelta);
      if key !in ledger.positions || landed.refreshed.None? || moved == 0 {
        if key in ledger.positions {
          ledger.SavePosition(key, L.FlagBaselineReset(ledger.positions[key]));
          ledger.SaveSyncEvent(SyncEvent(key, 0, 0));
        }
        ledger.SaveFlow(latest.(status := FlowFailed));
        return L.Done;
      }
      var before := ledger.positions[key];
      var reread := landed.refreshed.value;
      var basisAfter := before.principalBasisRawUsdc + moved;
      if !latest.kind.Deposit? {
        basisAfter := Min(before.principalBasisRawUsdc,
                          PositionValue(reread.stakedSharesRaw + reread.unstakedSharesRaw, reread.exchangeRateScaled));
      }
      var after := L.RefreshedPosition(before, reread, basisAfter);
      ledger.SavePosition(key, after);
      ApplyFlowFeeDebt(key, landed.feeDebt);
      ledger.SaveSyncEvent(SyncEvent(key, L.FlowShareDelta(latest.kind, before.totalSharesRaw, after.totalSharesRaw),
                                     basisAfter - before.principalBasisRawUsdc));
      ledger.SaveFlow(latest.(status := FlowConfirmed, movedRawUsdc := moved));
      return L.Done;
    }
  }

  lemma {:induction false} SameFlowIds(before: seq<VaultFlow>, after: seq<VaultFlow>, flowId: nat)
    requires |before| == |after|
    requires forall i | 0 <= i < |before| :: before[i].flowId == after[i].flowId
    ensures L.FlowIndex(before, flowId) == L.FlowIndex(after, flowId)
    decreases |before|
  {
    if before != [] {
      SameFlowIds(before[..|before| - 1], after[..|after| - 1], flowId);
    }
  }
}
