/**
  The services as they run: an in-memory ledger whose record stores are replaced field by field, and service methods
  that read and save step by step.  Each method is proved to do exactly what the state machine's operation does.
 */
module LedgerServices {
  import opened Wrappers
  import opened RawUnits
  import opened Models
  import opened Budget
  import L = Ledger
  import VaultAdapter

  class InMemoryLedger {
    var now: int
    var positions: map<PositionKey, WalletPosition>
    var payments: seq<PaymentIntent>
    var flows: seq<VaultFlow>
    var events: seq<SyncEvent>

    constructor (startedAt: int)
      ensures View() == L.Initial(startedAt)
    {
      now, positions, payments, flows, events := startedAt, map[], [], [], [];
    }

    ghost function View(): L.LedgerState
      reads this
    {
      L.LedgerState(now, positions, payments, flows, events)
    }

    method SavePosition(key: PositionKey, position: WalletPosition)
      modifies this`positions
      ensures positions == old(positions)[key := position]
    {
      positions := positions[key := position];
    }

    /** Replaces the record of this id in place, or adds it at the end. */
    method SavePayment(payment: PaymentIntent)
      modifies this`payments
      ensures
        var found := L.PaymentIndex(old(payments), payment.paymentId);
        payments == if found.Some? then old(payments)[found.value := payment] else old(payments) + [payment]
    {
      var found := L.PaymentIndex(payments, payment.paymentId);
      payments := if found.Some? then payments[found.value := payment] else payments + [payment];
    }

    method SaveFlow(flow: VaultFlow)
      modifies this`flows
      ensures
        var found := L.FlowIndex(old(flows), flow.flowId);
        flows == if found.Some? then old(flows)[found.value := flow] else old(flows) + [flow]
    {
      var found := L.FlowIndex(flows, flow.flowId);
      flows := if found.Some? then flows[found.value := flow] else flows + [flow];
    }

    method SaveSyncEvent(event: SyncEvent)
      modifies this`events
      ensures events == old(events) + [event]
    {
      events := events + [event];
    }
  }

  lemma DueReservationSplits(payments: seq<PaymentIntent>, key: PositionKey, now: int, i: nat)
    requires i < |payments|
    ensures L.DueReservation(payments[..i + 1], key, now)
            == L.DueReservation(payments[..i], key, now)
               + if L.DueToExpire(payments[i], key, now) then payments[i].reservationRawUsdc else 0
  {
    assert payments[..i + 1][..i] == payments[..i];
  }

  /** The loop over the expired payments: each is saved as expired, and its reservation adds to what is released. */
  method ExpireEach(ledger: InMemoryLedger, key: PositionKey) returns (released: nat)
    modifies ledger`payments
    ensures ledger.payments == L.ExpireDue(old(ledger.payments), key, ledger.now)
    ensures released == L.DueReservation(old(ledger.payments), key, ledger.now)
  {
    var stored := ledger.payments;
    released := 0;
    var i := 0;
    while i < |stored|
      invariant 0 <= i <= |stored| == |ledger.payments|
      invariant forall k | 0 <= k < |stored| ::
                  ledger.payments[k] == if k < i && L.DueToExpire(stored[k], key, ledger.now)
                                        then stored[k].(status := PaymentExpired) else stored[k]
      invariant released == L.DueReservation(stored[..i], key, ledger.now)
    {
      DueReservationSplits(stored, key, ledger.now, i);
      if L.DueToExpire(stored[i], key, ledger.now) {
        released := released + stored[i].reservationRawUsdc;
        ledger.payments := ledger.payments[i := stored[i].(status := PaymentExpired)];
      }
      i := i + 1;
    }
    assert stored[..i] == stored;
  }

  method ExpirePreparedPaymentsForLockedPosition(ledger: InMemoryLedger, key: PositionKey)
    modifies ledger
    ensures ledger.View() == L.ExpirePreparedPayments(old(ledger.View()), key)
  {
    if key !in ledger.positions {
      return;
    }
    var position := ledger.positions[key];
    var stored := ledger.payments;
    if forall i | 0 <= i < |stored| :: !L.DueToExpire(stored[i], key, ledger.now) {
      return;
    }
    var released := ExpireEach(ledger, key);
    ledger.SavePosition(key, position.(reservedRawUsdc := ClampToZero(position.reservedRawUsdc - released),
                                       version := position.version + 1));
  }

  /** Payments: registration, sync, preparation and settlement of a position. */
  class SublyService {
    const ledger: InMemoryLedger

    constructor (ledger: InMemoryLedger)
      ensures this.ledger == ledger
    {
      this.ledger := ledger;
    }

    method RegisterAgentWallet(key: PositionKey, input: L.RegisterInput) returns (reply: L.Reply)
      modifies ledger
      ensures L.Outcome(ledger.View(), reply) == L.RegisterAgentWallet(old(ledger.View()), key, input)
    {
      if key !in ledger.positions {
        ledger.SavePosition(key, L.FirstPosition(input));
        return L.Done;
      }
      var existing := ledger.positions[key];
      var configured := L.OrElse(input.signerConfigured, existing.signerConfigured);
      if existing.status.ObservedOnly? && input.activateForPayments && !configured {
        return L.Refused(L.SignerProviderMissing);
      }
      var observed := existing.observedMode;
      if input.observedMode.Some? {
        observed := input.observedMode.value;
      } else if input.activateForPayments && configured {
        observed := false;
      }
      var buffer := existing.safetyBufferRawUsdc;
      if input.safetyBuffer.Some? {
        buffer := input.safetyBuffer.value;
      }
      ledger.SavePosition(key, existing.(
        signingPolicyId := Some(input.signingPolicyId),
        observedMode := observed,
        signerConfigured := configured,
        signerValidated := L.OrElse(input.signerValidated, existing.signerValidated),
        safetyBufferRawUsdc := buffer,
        version := existing.version + 1,
        status := L.StatusAfterSignerUpdate(existing.status, observed, configured, input.activateForPayments)));
      return L.Done;
    }

    /** The conservative reset's own loop over the position's prepared payments. */
    method ExpireForReset(key: PositionKey)
      modifies ledger`payments
      ensures ledger.payments == L.ExpireAllPrepared(old(ledger.payments), key)
    {
      var active := ledger.payments;
      var i := 0;
      while i < |active|
        invariant 0 <= i <= |active| == |ledger.payments|
        invariant forall k | 0 <= k < |active| ::
                    ledger.payments[k] == if k < i && active[k].key == key && active[k].status.PaymentPrepared?
                                          then active[k].(status := PaymentExpired) else active[k]
      {
        if active[i].key == key && active[i].status.PaymentPrepared? {
          ledger.payments := ledger.payments[i := active[i].(status := PaymentExpired)];
        }
        i := i + 1;
      }
    }

    method SyncWalletPosition(key: PositionKey, input: L.SyncInput) returns (reply: L.Reply)
      modifies ledger
      ensures L.Outcome(ledger.View(), reply) == L.SyncWalletPosition(old(ledger.View()), key, input)
    {
      if key !in ledger.positions {
        return L.Refused(L.WalletNotRegistered);
      }
      var existing := ledger.positions[key];
      if L.SyncIsStale(existing, input) {
        return L.Refused(L.StalePositionSnapshot);
      }
      if exists i | 0 <= i < |ledger.flows| :: ledger.flows[i].key == key && ledger.flows[i].status.FlowSubmitted? {
        return L.Refused(L.VaultFlowPending);
      }
      if !L.SharesAddUp(existing, input) {
        return L.Refused(L.ShareTotalMismatch);
      }
      if input.exchangeRateScaled == 0 {
        return L.Refused(L.InvalidExchangeRateInput);
      }
      var runConservativeReset := L.RunsConservativeReset(existing, input);
      if runConservativeReset
         && exists i | 0 <= i < |ledger.payments| :: L.AwaitingSettlement(ledger.payments[i], key) {
        return L.Refused(L.SubmittedPaymentActive);
      }
      if runConservativeReset {
        ExpireForReset(key);
      }
      var next := L.SyncedPosition(existing, input);
      ledger.SavePosition(key, next);
      ledger.SaveSyncEvent(SyncEvent(key, next.totalSharesRaw - existing.totalSharesRaw,
                                     next.principalBasisRawUsdc - existing.principalBasisRawUsdc));
      return L.Done;
    }

    /** `input.paymentId` is the fresh identifier the service draws; a clash is refused without a trace. */
    method PreparePayment(input: L.PrepareInput) returns (reply: L.Reply)
      modifies ledger
      ensures L.Outcome(ledger.View(), reply) == L.PreparePayment(old(ledger.View()), input)
    {
      var key := input.key;
      if L.PaymentIndex(ledger.payments, input.paymentId).Some? {
        SameIdsAfterExpiry(ledger.View(), key, input.paymentId);
        return L.Refused(L.AlreadyUsedId);
      }
      SameIdsAfterExpiry(ledger.View(), key, input.paymentId);
      ExpirePreparedPaymentsForLockedPosition(ledger, key);
      var existing := L.FindPaymentBySellerRequest(ledger.payments, input.request);
      if existing.Some? {
        if existing.value.requestBindingHash != input.requestBindingHash {
          return L.Refused(L.SellerRequestIdReuse);
        }
        if !TerminallyFailed(existing.value) {
          return L.Existing(existing.value.paymentId);
        }
      }
      if key !in ledger.positions {
        return L.Refused(L.WalletNotRegistered);
      }
      var position := ledger.positions[key];
      if !position.status.Active? {
        return L.Refused(L.PositionBlocked(position.status));
      }
      if position.signingPolicyId.None? {
        return L.Refused(L.SigningPolicyMissing);
      }
      if position.observedMode {
        return L.Refused(L.ObservedOnlyWallet);
      }
      if !position.signerConfigured {
        return L.Refused(L.SignerProviderMissing);
      }
      if input.production && !position.signerValidated {
        return L.Refused(L.SignerValidationMissing);
      }
      if exists i | 0 <= i < |ledger.flows| :: ledger.flows[i].key == key && FlowPending(ledger.flows[i], ledger.now) {
        return L.Refused(L.VaultFlowPending);
      }
      if input.policy.None? {
        if input.production {
          return L.Refused(L.LiquidityPolicyMissing);
        }
      } else if !input.policy.value.active {
        return L.Refused(L.LiquidityPolicyDisabled);
      } else if input.amountRawUsdc > input.policy.value.expectedPaymentSize {
        return L.Refused(L.AmountExceedsPolicy);
      }
      reply := QuoteAndReserve(input, position);
    }

    method QuoteAndReserve(input: L.PrepareInput, position: WalletPosition) returns (reply: L.Reply)
      requires L.PaymentIndex(ledger.payments, input.paymentId).None?
      modifies ledger
      ensures L.Outcome(ledger.View(), reply)
              == match input.quote
                 case None => L.PrepareOnSnapshot(old(ledger.View()), input, position, None)
                 case Some(chain) => L.PrepareOnQuote(old(ledger.View()), input, position, chain)
    {
      if input.quote.None? {
        reply := Reserve(input, position, None);
      } else {
        reply := ReserveOnQuote(input, position, input.quote.value);
      }
    }

    method ReserveOnQuote(input: L.PrepareInput, position: WalletPosition, chain: L.ChainQuote) returns (reply: L.Reply)
      requires L.PaymentIndex(ledger.payments, input.paymentId).None?
      modifies ledger
      ensures L.Outcome(ledger.View(), reply) == L.PrepareOnQuote(old(ledger.View()), input, position, chain)
    {
      var quote := VaultAdapter.QuoteSettlementWithdraw(input.amountRawUsdc, chain.vault);
      if quote.Failure? {
        return L.Refused(L.QuoteRefused(quote.error));
      }
      var onchainShares := chain.stakedSharesRaw + chain.unstakedSharesRaw;
      if onchainShares != position.totalSharesRaw {
        ledger.SavePosition(input.key, L.FlagBaselineReset(position));
        ledger.SaveSyncEvent(SyncEvent(input.key, onchainShares - position.totalSharesRaw, 0));
        return L.Refused(L.BaselineResetNeeded);
      }
      var workingPosition := L.WorkingPosition(position, chain);
      ledger.SavePosition(input.key, workingPosition);
      reply := Reserve(input, workingPosition, Some(quote.value));
    }

    method Reserve(input: L.PrepareInput, working: WalletPosition, quote: Option<VaultAdapter.SettlementWithdrawQuote>)
      returns (reply: L.Reply)
      requires L.PaymentIndex(ledger.payments, input.paymentId).None?
      modifies ledger
      ensures L.Outcome(ledger.View(), reply) == L.PrepareOnSnapshot(old(ledger.View()), input, working, quote)
    {
      if input.policy.Some? && working.instantRedeemCapacityRawUsdc < input.policy.value.minInstantLiquidity {
        return L.Refused(L.BelowPolicyLiquidity);
      }
      var required := if quote.Some? then Some(quote.value.requiredWithdrawRawUsdc) else None;
      var evaluation := EvaluatePaymentBudget(working, input.amountRawUsdc, input.estimatedFeeDebtRawUsdc, required,
                                              L.ActiveWithdrawReserved(ledger.payments, input.key));
      if evaluation.Failure? {
        return L.Refused(L.BudgetRefused(evaluation.error));
      }
      var approved := evaluation.value.sharesToRedeemRaw;
      if quote.Some? {
        approved := quote.value.sharesToRedeemRaw + L.SHARES_TO_REDEEM_MARGIN;
      }
      if input.builtShares.None? {
        return L.Refused(L.BuilderFailed);
      }
      if input.builtShares.value > approved {
        return L.Refused(L.BuilderInvalid);
      }
      ledger.SavePosition(input.key, working.(
        reservedRawUsdc := working.reservedRawUsdc + evaluation.value.reservationRawUsdc,
        version := working.version + 1));
      ledger.SavePayment(PaymentIntent(
        input.paymentId, input.key, input.request, input.requestBindingHash, input.amountRawUsdc,
        input.builtShares.value, evaluation.value.requiredWithdrawRawUsdc, input.estimatedFeeDebtRawUsdc,
        evaluation.value.reservationRawUsdc, input.expiresAt, None, PaymentPrepared));
      return L.Done;
    }

    method ExpirePreparedPayment(paymentId: nat) returns (reply: L.Reply)
      modifies ledger
      ensures L.Outcome(ledger.View(), reply) == L.ExpirePreparedPayment(old(ledger.View()), paymentId)
    {
      var found := L.PaymentIndex(ledger.payments, paymentId);
      if found.None? {
        return L.Refused(L.NotFound);
      }
      var intent := ledger.payments[found.value];
      if !intent.status.PaymentPrepared? || intent.expiresAt > ledger.now {
        return L.Unchanged;
      }
      if intent.key in ledger.positions {
        var position := ledger.positions[intent.key];
        ledger.SavePosition(intent.key, position.(
          reservedRawUsdc := ClampToZero(position.reservedRawUsdc - intent.reservationRawUsdc),
          version := position.version + 1));
      }
      ledger.SavePayment(intent.(status := PaymentExpired));
      return L.Done;
    }

    method BeginSubmission(paymentId: nat, payload: L.SettlePayload) returns (reply: L.Reply)
      modifies ledger
      ensures L.Outcome(ledger.View(), reply) == L.BeginSubmission(old(ledger.View()), paymentId, payload)
    {
      var found := L.PaymentIndex(ledger.payments, paymentId);
      if found.None? {
        return L.Refused(L.NotFound);
      }
      var intent := ledger.payments[found.value];
      if !intent.status.PaymentPrepared? {
        return L.Unchanged;
      }
      if intent.requestBindingHash != payload.requestBindingHash || !payload.messageHashMatches {
        return L.Refused(L.PayloadInvalid);
      }
      if intent.expiresAt <= ledger.now {
        reply := ExpirePreparedPayment(paymentId);
        return;
      }
      if !payload.verified {
        return L.Refused(L.PayloadInvalid);
      }
      if payload.submission.None? || payload.submission.value == "" {
        return L.Refused(L.SubmitterUnavailable);
      }
      ledger.SavePayment(intent.(status := SubmissionPrepared, txSignature := payload.submission));
      return L.Done;
    }

    method MarkSubmittedBeforeSend(paymentId: nat) returns (reply: L.Reply)
      modifies ledger
      ensures L.Outcome(ledger.View(), reply) == L.MarkSubmittedBeforeSend(old(ledger.View()), paymentId)
    {
      var found := L.PaymentIndex(ledger.payments, paymentId);
      if found.None? {
        return L.Refused(L.NotFound);
      }
      var latest := ledger.payments[found.value];
      if !latest.status.SubmissionPrepared? {
        return L.Unchanged;
      }
      ledger.SavePayment(latest.(status := PaymentSubmitted));
      return L.Done;
    }

    method RecordPendingSubmission(paymentId: nat, txSignature: Option<string>) returns (reply: L.Reply)
      modifies ledger
      ensures L.Outcome(ledger.View(), reply) == L.RecordPendingSubmission(old(ledger.View()), paymentId, txSignature)
    {
      var found := L.PaymentIndex(ledger.payments, paymentId);
      if found.None? {
        return L.Refused(L.NotFound);
      }
      var latest := ledger.payments[found.value];
      if !HoldsReservation(latest) || latest.status.PaymentPrepared? {
        return L.Unchanged;
      }
      var signature := latest.txSignature;
      if signature.None? {
        signature := txSignature;
      }
      ledger.SavePayment(latest.(status := PaymentSubmitted, txSignature := signature));
      return L.Done;
    }

    method FinalizeSubmittedPayment(paymentId: nat, result: L.SettlementResult) returns (reply: L.Reply)
      modifies ledger
      ensures L.Outcome(ledger.View(), reply) == L.FinalizeSubmittedPayment(old(ledger.View()), paymentId, result)
    {
      var found := L.PaymentIndex(ledger.payments, paymentId);
      if found.None? {
        return L.Refused(L.NotFound);
      }
      var intent := ledger.payments[found.value];
      if !HoldsReservation(intent) || intent.status.PaymentPrepared? {
        return L.Unchanged;
      }
      if !L.ResultAcceptable(intent, result) {
        if intent.key in ledger.positions {
          ledger.SavePosition(intent.key, L.FlagBaselineReset(ledger.positions[intent.key]));
        }
        var reported := intent.txSignature;
        if !result.ResultNotSubmitted? {
          reported := Some(result.txSignature);
        }
        ledger.SavePayment(intent.(status := PaymentSubmitted, txSignature := reported));
        return L.Refused(L.SettlementResultInvalid);
      }
      if intent.key in ledger.positions {
        ledger.SavePosition(intent.key, L.ApplySettlementResult(ledger.positions[intent.key], intent, result));
      }
      var signature: Option<string> := None;
      if !result.ResultNotSubmitted? {
        var burned := if result.ResultSettled? then L.RedeemedShares(intent, result) else 0;
        ledger.SaveSyncEvent(SyncEvent(intent.key, 0 - burned, 0));
        signature := Some(result.txSignature);
      }
      ledger.SavePayment(intent.(status := L.StatusFor(result), txSignature := signature));
      return L.Done;
    }
  }

  lemma {:induction false} SameIds(before: seq<PaymentIntent>, after: seq<PaymentIntent>, paymentId: nat)
    requires |before| == |after|
    requires forall i | 0 <= i < |before| :: before[i].paymentId == after[i].paymentId
    ensures L.PaymentIndex(before, paymentId) == L.PaymentIndex(after, paymentId)
    decreases |before|
  {
    if before != [] {
      SameIds(before[..|before| - 1], after[..|after| - 1], paymentId);
    }
  }

  lemma SameIdsAfterExpiry(s: L.LedgerState, key: PositionKey, paymentId: nat)
    ensures L.PaymentIndex(L.ExpirePreparedPayments(s, key).payments, paymentId)
            == L.PaymentIndex(s.payments, paymentId)
  {
    SameIds(s.payments, L.ExpirePreparedPayments(s, key).payments, paymentId);
  }
}
