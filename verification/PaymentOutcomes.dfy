/**
  What each operation on payments leaves behind, said in the fields of the records alone: when it is granted, which
  record it writes, and every figure of the position after it.
 */
module PaymentOutcomes {
  import opened Wrappers
  import opened RawUnits
  import opened Models
  import opened Budget
  import opened Ledger
  import opened LedgerInvariants
  import VaultAdapter

  // ---- records by identifier

  lemma {:induction false} PaymentAt(payments: seq<PaymentIntent>, id: nat, i: nat)
    requires PaymentIdsDistinct(payments) && i < |payments| && payments[i].paymentId == id
    ensures PaymentIndex(payments, id) == Some(i)
    decreases |payments|
  {
    if i < |payments| - 1 {
      PaymentAt(payments[..|payments| - 1], id, i);
    }
  }

  lemma {:induction false} FlowAt(flows: seq<VaultFlow>, id: nat, i: nat)
    requires FlowIdsDistinct(flows) && i < |flows| && flows[i].flowId == id
    ensures FlowIndex(flows, id) == Some(i)
    decreases |flows|
  {
    if i < |flows| - 1 {
      FlowAt(flows[..|flows| - 1], id, i);
    }
  }

  predicate StoredPayment(s: LedgerState, i: nat, id: nat) {
    && PaymentIdsDistinct(s.payments)
    && i < |s.payments| && s.payments[i].paymentId == id && s.payments[i].key in s.positions
  }

  predicate StoredFlow(s: LedgerState, i: nat, id: nat) {
    FlowIdsDistinct(s.flows) && i < |s.flows| && s.flows[i].flowId == id && s.flows[i].key in s.positions
  }

  predicate NewPaymentId(s: LedgerState, id: nat) {
    forall i | 0 <= i < |s.payments| :: s.payments[i].paymentId != id
  }

  /** One payment was rewritten; no other record moved but its position. */
  predicate OnlyPaymentMoves(s: LedgerState, t: LedgerState, i: nat)
    requires i < |s.payments|
  {
    && |t.payments| == |s.payments| && t.payments == s.payments[i := t.payments[i]]
    && t.flows == s.flows && t.now == s.now
    && OnlyPositionMoves(s, t, s.payments[i].key)
  }

  predicate OnlyFlowMoves(s: LedgerState, t: LedgerState, i: nat)
    requires i < |s.flows|
  {
    && |t.flows| == |s.flows| && t.flows == s.flows[i := t.flows[i]]
    && t.payments == s.payments && t.now == s.now
    && OnlyPositionMoves(s, t, s.flows[i].key)
  }

  predicate OnlyPositionMoves(s: LedgerState, t: LedgerState, key: PositionKey) {
    t.positions.Keys == s.positions.Keys && forall k | k in s.positions && k != key :: t.positions[k] == s.positions[k]
  }

  // ---- settlement

  /** Signature as recorded, shares within the maximum, the seller paid exactly, the rest accounted for as dust. */
  predicate ReceiptMatches(p: PaymentIntent, result: SettlementResult) {
    match result
    case ResultSettled(signature, _, redeemed, paid, output, dust) =>
      && (p.txSignature == None || p.txSignature == Some(signature))
      && (redeemed.None? || p.sharesToRedeemRaw >= redeemed.value)
      && paid == Some(p.amountRawUsdc)
      && ReportedOutput(p, output) >= p.amountRawUsdc
      && (dust.None? || p.amountRawUsdc + dust.value == ReportedOutput(p, output))
    case ResultFailed(signature, _) => p.txSignature == None || p.txSignature == Some(signature)
    case ResultNotSubmitted => true
  }

  function ReportedOutput(p: PaymentIntent, output: Option<int>): int {
    match output
    case Some(raw) => raw
    case None => p.requiredWithdrawRawUsdc
  }

  predicate AwaitsReceipt(p: PaymentIntent) {
    p.status.SubmissionPrepared? || p.status.PaymentSubmitted?
  }

  /** A matching receipt decides the payment for good, each kind in its own status; any other leaves it submitted. */
  lemma ReceiptDecidesPayment(s: LedgerState, i: nat, id: nat, result: SettlementResult)
    requires StoredPayment(s, i, id)
    ensures
      var p := s.payments[i];
      var outcome := FinalizeSubmittedPayment(s, id, result);
      && OnlyPaymentMoves(s, outcome.state, i)
      && var q := outcome.state.payments[i];
         if !AwaitsReceipt(p) then outcome == Outcome(s, Unchanged)
         else if ReceiptMatches(p, result) then
           && outcome.reply == Done
           && (q.status == Settled <==> result.ResultSettled?)
           && (q.status == PaymentFailed <==> result.ResultFailed?)
           && (q.status == PaymentNotSubmitted <==> result.ResultNotSubmitted?)
           && (result.ResultNotSubmitted? ==> q.txSignature == None)
           && (!result.ResultNotSubmitted? ==> q.txSignature == Some(result.txSignature))
         else
           && outcome.reply == Refused(SettlementResultInvalid)
           && q.status == PaymentSubmitted && q.txSignature == Some(result.txSignature)
  {
    PaymentAt(s.payments, id, i);
  }

  /** The fee a receipt charges: what it reports, else the estimate, and nothing when nothing was submitted. */
  function ChargedFee(p: PaymentIntent, result: SettlementResult): nat {
    match result
    case ResultSettled(_, Some(fee), _, _, _, _) => fee
    case ResultFailed(_, Some(fee)) => fee
    case ResultNotSubmitted => 0
    case _ => p.estimatedFeeDebtRawUsdc
  }

  function BurnedShares(p: PaymentIntent, result: SettlementResult): nat {
    match result
    case ResultSettled(_, _, Some(redeemed), _, _, _) => redeemed
    case ResultSettled(_, _, None, _, _, _) => p.sharesToRedeemRaw
    case _ => 0
  }

  /** A position after an accepted receipt, figure by figure; `overdrawn` receipts burn nothing and block it. */
  predicate BooksAfterReceipt(b: WalletPosition, a: WalletPosition, p: PaymentIntent, result: SettlementResult) {
    var fee, burned := ChargedFee(p, result), BurnedShares(p, result);
    var overdrawn := burned > b.totalSharesRaw;
    && a == b.(reservedRawUsdc := a.reservedRawUsdc, feeDebtRawUsdc := a.feeDebtRawUsdc, status := a.status,
               version := a.version, stakedSharesRaw := a.stakedSharesRaw, unstakedSharesRaw := a.unstakedSharesRaw,
               totalSharesRaw := a.totalSharesRaw, instantRedeemCapacityRawUsdc := a.instantRedeemCapacityRawUsdc)
    && (p.reservationRawUsdc <= b.reservedRawUsdc ==> a.reservedRawUsdc + p.reservationRawUsdc == b.reservedRawUsdc)
    && (p.reservationRawUsdc > b.reservedRawUsdc ==> a.reservedRawUsdc == 0)
    && a.feeDebtRawUsdc == b.feeDebtRawUsdc + fee
    && a.version == b.version + 1
    && a.status == (if overdrawn || fee > p.estimatedFeeDebtRawUsdc then NeedsBaselineReset else b.status)
    && (if result.ResultSettled? && !overdrawn && b.stakedSharesRaw + b.unstakedSharesRaw == b.totalSharesRaw then
          && a.totalSharesRaw + burned == b.totalSharesRaw
          && a.stakedSharesRaw + a.unstakedSharesRaw == a.totalSharesRaw
          && (burned <= b.unstakedSharesRaw ==> a.stakedSharesRaw == b.stakedSharesRaw)
          && (burned > b.unstakedSharesRaw ==> a.unstakedSharesRaw == 0)
          && (var output := ReportedOutput(p, result.withdrawOutput);
              if output <= b.instantRedeemCapacityRawUsdc
              then a.instantRedeemCapacityRawUsdc + output == b.instantRedeemCapacityRawUsdc
              else a.instantRedeemCapacityRawUsdc == 0)
        else if !result.ResultSettled? || overdrawn then
          && a.totalSharesRaw == b.totalSharesRaw && a.stakedSharesRaw == b.stakedSharesRaw
          && a.unstakedSharesRaw == b.unstakedSharesRaw
          && a.instantRedeemCapacityRawUsdc == b.instantRedeemCapacityRawUsdc
        else true)
  }

  lemma ReceiptSettlesPosition(b: WalletPosition, p: PaymentIntent, result: SettlementResult)
    ensures BooksAfterReceipt(b, ApplySettlementResult(b, p, result), p, result)
  {
  }

  lemma ReceiptIsLogged(s: LedgerState, i: nat, id: nat, result: SettlementResult)
    requires StoredPayment(s, i, id) && AwaitsReceipt(s.payments[i])
    ensures
      var p := s.payments[i];
      var t := FinalizeSubmittedPayment(s, id, result).state;
      if ReceiptMatches(p, result) then
        && t.positions == s.positions[p.key := ApplySettlementResult(s.positions[p.key], p, result)]
        && t.events == s.events + (if result.ResultNotSubmitted? then []
                                   else [SyncEvent(p.key, 0 - BurnedShares(p, result), 0)])
      else
        && t.positions == s.positions[p.key := FlagBaselineReset(s.positions[p.key])] && t.events == s.events
  {
    PaymentAt(s.payments, id, i);
  }

  /** What a receipt leaves of the position and adds to the log. */
  lemma ReceiptSettlesBooks(s: LedgerState, i: nat, id: nat, result: SettlementResult)
    requires StoredPayment(s, i, id) && AwaitsReceipt(s.payments[i])
    ensures
      var p := s.payments[i];
      var t := FinalizeSubmittedPayment(s, id, result).state;
      && p.key in t.positions
      && var b, a := s.positions[p.key], t.positions[p.key];
         if ReceiptMatches(p, result) then
           && BooksAfterReceipt(b, a, p, result)
           && t.events == s.events + (if result.ResultNotSubmitted? then []
                                      else [SyncEvent(p.key, 0 - BurnedShares(p, result), 0)])
         else a == b.(status := NeedsBaselineReset, version := b.version + 1) && t.events == s.events
  {
    var p := s.payments[i];
    ReceiptIsLogged(s, i, id, result);
    ReceiptSettlesPosition(s.positions[p.key], p, result);
  }

  // ---- the other steps of a payment

  /** Only a prepared payment past its expiry expires, and it gives its reservation back. */
  lemma ExpiryReleases(s: LedgerState, i: nat, id: nat)
    requires StoredPayment(s, i, id)
    ensures
      var p := s.payments[i];
      var outcome := ExpirePreparedPayment(s, id);
      var b, a := s.positions[p.key], outcome.state.positions;
      && OnlyPaymentMoves(s, outcome.state, i) && outcome.state.events == s.events
      && (if p.status.PaymentPrepared? && p.expiresAt <= s.now then
            && outcome.reply == Done
            && outcome.state.payments[i] == p.(status := PaymentExpired)
            && p.key in a
            && a[p.key] == b.(reservedRawUsdc := a[p.key].reservedRawUsdc, version := b.version + 1)
            && (p.reservationRawUsdc <= b.reservedRawUsdc ==>
                  a[p.key].reservedRawUsdc + p.reservationRawUsdc == b.reservedRawUsdc)
          else outcome == Outcome(s, Unchanged))
  {
    PaymentAt(s.payments, id, i);
  }

  /** Reading the budget of a position expires exactly its prepared payments past their time, in one saved position. */
  lemma BudgetReadExpiresWhatIsLate(s: LedgerState, key: PositionKey)
    ensures
      var outcome := Perform(s, ReadBudget(key));
      var t := outcome.state;
      if key !in s.positions then outcome == Outcome(s, Refused(WalletNotRegistered))
      else
        && outcome.reply == Done && OnlyPositionMoves(s, t, key)
        && t.flows == s.flows && t.events == s.events && t.now == s.now && |t.payments| == |s.payments|
        && (forall i | 0 <= i < |s.payments| ::
              var p := s.payments[i];
              t.payments[i] == if p.key == key && p.status == PaymentPrepared && p.expiresAt <= s.now
                               then p.(status := PaymentExpired) else p)
        && var b, a := s.positions[key], t.positions[key];
           && a == b.(reservedRawUsdc := a.reservedRawUsdc, version := a.version)
           && a.reservedRawUsdc <= b.reservedRawUsdc
           && a.version == b.version + if t.payments == s.payments then 0 else 1
  {
    var t := Perform(s, ReadBudget(key)).state;
    if i :| 0 <= i < |s.payments| && DueToExpire(s.payments[i], key, s.now) && key in s.positions {
      assert t.payments[i] != s.payments[i];
    }
  }

  /** The submission record is stored for exactly the payload that matches, in time, verified and signed. */
  lemma SubmissionNeedsMatchingPayload(s: LedgerState, i: nat, id: nat, payload: SettlePayload)
    requires StoredPayment(s, i, id)
    ensures
      var p := s.payments[i];
      var outcome := BeginSubmission(s, id, payload);
      var named := payload.requestBindingHash == p.requestBindingHash && payload.messageHashMatches;
      var signed := payload.verified && exists signature :: payload.submission == Some(signature) && signature != "";
      && (!p.status.PaymentPrepared? ==> outcome == Outcome(s, Unchanged))
      && (p.status.PaymentPrepared? && named && p.expiresAt <= s.now ==> outcome == ExpirePreparedPayment(s, id))
      && (p.status.PaymentPrepared? && named && p.expiresAt > s.now && signed ==>
            && outcome.reply == Done
            && outcome.state == s.(payments := s.payments[i := p.(status := SubmissionPrepared,
                                                                  txSignature := payload.submission)]))
      && (p.status.PaymentPrepared? && !(named && (p.expiresAt <= s.now || signed)) ==>
            outcome.state == s && outcome.reply.Refused?)
  {
    PaymentAt(s.payments, id, i);
  }

  /** The mark before broadcasting, and the record of an ambiguous submission, keep the payment open. */
  lemma SubmittedBeforeSend(s: LedgerState, i: nat, id: nat, signature: Option<string>)
    requires StoredPayment(s, i, id)
    ensures
      var p := s.payments[i];
      && MarkSubmittedBeforeSend(s, id)
         == (if p.status.SubmissionPrepared?
             then Outcome(s.(payments := s.payments[i := p.(status := PaymentSubmitted)]), Done)
             else Outcome(s, Unchanged))
      && var pending := RecordPendingSubmission(s, id, signature);
         if AwaitsReceipt(p) then
           && pending.reply == Done
           && pending.state == s.(payments := s.payments[i := pending.state.payments[i]])
           && pending.state.payments[i].status == PaymentSubmitted
           && (p.txSignature.Some? ==> pending.state.payments[i].txSignature == p.txSignature)
           && (p.txSignature.None? ==> pending.state.payments[i].txSignature == signature)
         else pending == Outcome(s, Unchanged)
  {
    PaymentAt(s.payments, id, i);
  }

  // ---- preparing a payment

  /** Every earlier payment of the request failed for good, or is about to expire, under this very binding. */
  predicate RequestIsFree(s: LedgerState, input: PrepareInput) {
    forall i | 0 <= i < |s.payments| && s.payments[i].request == input.request ::
      && s.payments[i].requestBindingHash == input.requestBindingHash
      && (TerminallyFailed(s.payments[i]) || DueToExpire(s.payments[i], input.key, s.now))
  }

  /** A position that may pay: active, under a signing policy, signed non-interactively, validated in production. */
  predicate MaySpend(p: WalletPosition, production: bool) {
    && p.status == Active && p.signingPolicyId != None
    && !p.observedMode && p.signerConfigured && (p.signerValidated || !production)
  }

  /** What the liquidity policy asks of the amount and of the vault. */
  predicate PolicyAllows(input: PrepareInput, capacity: nat) {
    match input.policy
    case None => !input.production
    case Some(policy) =>
      policy.active && input.amountRawUsdc <= policy.expectedPaymentSize && policy.minInstantLiquidity <= capacity
  }

  predicate NoFlowOwns(s: LedgerState, key: PositionKey) {
    forall i | 0 <= i < |s.flows| && s.flows[i].key == key ::
      !s.flows[i].status.FlowSubmitted? && (s.flows[i].status.FlowPrepared? ==> s.flows[i].expiresAt <= s.now)
  }

  /** The figures a preparation is judged on: those of the quote where there is one. */
  datatype Judged = Judged(withdraw: nat, approvedShares: nat, rate: nat, capacity: nat, totalSharesRaw: nat)

  function JudgedOn(s: LedgerState, input: PrepareInput): Option<Judged>
    requires input.key in s.positions
  {
    var p := s.positions[input.key];
    match input.quote
    case None =>
      if p.exchangeRateScaled == 0 then None
      else
        Some(Judged(input.amountRawUsdc, CeilDiv(input.amountRawUsdc * RATE_SCALE, p.exchangeRateScaled),
                    p.exchangeRateScaled, p.instantRedeemCapacityRawUsdc, p.totalSharesRaw))
    case Some(chain) =>
      var quote := VaultAdapter.SettlementQuoteFor(input.amountRawUsdc, chain.vault);
      if quote.Failure? || chain.stakedSharesRaw + chain.unstakedSharesRaw != p.totalSharesRaw
         || chain.vault.exchangeRateScaled == 0 then None
      else
        Some(Judged(quote.value.requiredWithdrawRawUsdc, quote.value.sharesToRedeemRaw + 4,
                    chain.vault.exchangeRateScaled, chain.instantRedeemCapacityRawUsdc, p.totalSharesRaw))
  }

  /** What the vault must still pay out for payments of the position that hold a reservation and are not due. */
  function OutstandingWithdrawals(payments: seq<PaymentIntent>, key: PositionKey, now: int): nat {
    if payments == [] then 0
    else
      var last := payments[|payments| - 1];
      OutstandingWithdrawals(payments[..|payments| - 1], key, now)
      + if last.key == key && HoldsReservation(last) && !DueToExpire(last, key, now) then last.requiredWithdrawRawUsdc
        else 0
  }

  lemma {:induction false} OutstandingAfterExpiry(payments: seq<PaymentIntent>, key: PositionKey, now: int)
    ensures ActiveWithdrawReserved(ExpireDue(payments, key, now), key) == OutstandingWithdrawals(payments, key, now)
    decreases |payments|
  {
    if payments != [] {
      var last := |payments| - 1;
      OutstandingAfterExpiry(payments[..last], key, now);
      assert ExpireDue(payments, key, now)[..last] == ExpireDue(payments[..last], key, now);
    }
  }

  lemma OutstandingIsActive(s: LedgerState, key: PositionKey)
    requires key in s.positions
    ensures ActiveWithdrawReserved(ExpirePreparedPayments(s, key).payments, key)
            == OutstandingWithdrawals(s.payments, key, s.now)
  {
    OutstandingAfterExpiry(s.payments, key, s.now);
    if forall i | 0 <= i < |s.payments| :: !DueToExpire(s.payments[i], key, s.now) {
      assert ExpireDue(s.payments, key, s.now) == s.payments;
    }
  }

  /** Whether the latest record of a request stands in the way, said of all its records at once. */
  lemma NothingLiveIsFound(payments: seq<PaymentIntent>, request: SellerRequest, bindingHash: string)
    requires RequestsDisciplined(payments)
    ensures
      var found := FindPaymentBySellerRequest(payments, request);
      (found.Some? ==> TerminallyFailed(found.value) && found.value.requestBindingHash == bindingHash)
      <==> forall i | 0 <= i < |payments| && payments[i].request == request ::
             payments[i].requestBindingHash == bindingHash && TerminallyFailed(payments[i])
  {
    var found := FindPaymentBySellerRequest(payments, request);
    if found.Some? {
      var j :| 0 <= j < |payments| && payments[j] == found.value;
      if TerminallyFailed(found.value) && found.value.requestBindingHash == bindingHash {
        forall i | 0 <= i < |payments| && payments[i].request == request
          ensures payments[i].requestBindingHash == bindingHash && TerminallyFailed(payments[i])
        {
          assert !LiveOrSettled(payments[i]);
        }
      }
    }
  }

  lemma ExpiryFreesRequests(s: LedgerState, key: PositionKey)
    requires key in s.positions
    ensures
      var u := ExpirePreparedPayments(s, key);
      && |u.payments| == |s.payments|
      && forall i | 0 <= i < |s.payments| ::
           && u.payments[i].request == s.payments[i].request
           && u.payments[i].requestBindingHash == s.payments[i].requestBindingHash
           && (TerminallyFailed(u.payments[i])
               <==> TerminallyFailed(s.payments[i]) || DueToExpire(s.payments[i], key, s.now))
  {
  }

  lemma FreeRequestFindsNothingLive(s: LedgerState, input: PrepareInput)
    requires RequestsDisciplined(s.payments) && input.key in s.positions
    ensures
      var found := FindPaymentBySellerRequest(ExpirePreparedPayments(s, input.key).payments, input.request);
      RequestIsFree(s, input)
      <==> (found.Some? ==> TerminallyFailed(found.value) && found.value.requestBindingHash == input.requestBindingHash)
  {
    var u := ExpirePreparedPayments(s, input.key);
    ExpiryKeepsDiscipline(s, input.key);
    ExpiryFreesRequests(s, input.key);
    NothingLiveIsFound(u.payments, input.request, input.requestBindingHash);
    assert RequestIsFree(s, input)
           <==> forall i | 0 <= i < |u.payments| && u.payments[i].request == input.request ::
                  u.payments[i].requestBindingHash == input.requestBindingHash && TerminallyFailed(u.payments[i]);
  }

  lemma {:induction false} IdUnused(payments: seq<PaymentIntent>, id: nat)
    ensures PaymentIndex(payments, id).None? <==> forall i | 0 <= i < |payments| :: payments[i].paymentId != id
    decreases |payments|
  {
    if payments != [] {
      IdUnused(payments[..|payments| - 1], id);
    }
  }

  /** Everything a granted payment needs, on the position as expiry leaves it. */
  predicate Deserves(s: LedgerState, input: PrepareInput, p: WalletPosition, j: Judged) {
    && MaySpend(p, input.production)
    && NoFlowOwns(s, input.key)
    && PolicyAllows(input, j.capacity)
    && PositionValue(j.totalSharesRaw, j.rate) >= Committed(p) + j.withdraw + input.estimatedFeeDebtRawUsdc
    && j.capacity >= OutstandingWithdrawals(s.payments, input.key, s.now) + j.withdraw
    && input.builtShares.Some? && input.builtShares.value <= j.approvedShares
  }

  lemma RefusalsAreTheGuards(u: LedgerState, input: PrepareInput, p: WalletPosition)
    ensures PaymentRefusal(u, p, input).None?
            <==> && MaySpend(p, input.production) && NoFlowOwns(u, input.key)
                 && (input.policy.None? ==> !input.production)
                 && (input.policy.Some? ==>
                       input.policy.value.active && input.amountRawUsdc <= input.policy.value.expectedPaymentSize)
  {
    assert AnyFlowPending(u, input.key) <==> !NoFlowOwns(u, input.key);
  }

  lemma SnapshotGrants(u: LedgerState, input: PrepareInput, working: WalletPosition,
                       quote: Option<VaultAdapter.SettlementWithdrawQuote>)
    ensures
      var withdraw := if quote.Some? then quote.value.requiredWithdrawRawUsdc else input.amountRawUsdc;
      var outcome := PrepareOnSnapshot(u, input, working, quote);
      outcome.reply == Done
      <==> && working.exchangeRateScaled > 0
           && (input.policy.Some? ==> working.instantRedeemCapacityRawUsdc >= input.policy.value.minInstantLiquidity)
           && PositionValue(working.totalSharesRaw, working.exchangeRateScaled)
              >= Committed(working) + withdraw + input.estimatedFeeDebtRawUsdc
           && working.instantRedeemCapacityRawUsdc >= ActiveWithdrawReserved(u.payments, input.key) + withdraw
           && input.builtShares.Some?
           && input.builtShares.value
              <= if quote.Some? then quote.value.sharesToRedeemRaw + 4
                 else CeilDiv(withdraw * RATE_SCALE, working.exchangeRateScaled)
  {
    EvaluationGrantsExactlyTheSurplus(
      working, input.amountRawUsdc, input.estimatedFeeDebtRawUsdc,
      if quote.Some? then Some(quote.value.requiredWithdrawRawUsdc) else None,
      ActiveWithdrawReserved(u.payments, input.key));
  }

  /** The last stage of a preparation, on the quote where there is one. */
  function LastStage(u: LedgerState, input: PrepareInput, p: WalletPosition): Outcome {
    match input.quote
    case None => PrepareOnSnapshot(u, input, p, None)
    case Some(chain) => PrepareOnQuote(u, input, p, chain)
  }

  lemma LastStageGrants(u: LedgerState, input: PrepareInput, p: WalletPosition)
    requires input.key in u.positions && u.positions[input.key] == p
    requires input.policy.None? ==> !input.production
    requires input.policy.Some? ==>
               input.policy.value.active && input.amountRawUsdc <= input.policy.value.expectedPaymentSize
    ensures LastStage(u, input, p).reply == Done
            <==> && JudgedOn(u, input).Some?
                 && var j := JudgedOn(u, input).value;
                    && PolicyAllows(input, j.capacity)
                    && PositionValue(j.totalSharesRaw, j.rate)
                       >= Committed(p) + j.withdraw + input.estimatedFeeDebtRawUsdc
                    && j.capacity >= ActiveWithdrawReserved(u.payments, input.key) + j.withdraw
                    && input.builtShares.Some? && input.builtShares.value <= j.approvedShares
  {
    match input.quote
    case None => SnapshotGrants(u, input, p, None);
    case Some(chain) =>
      var quote := VaultAdapter.SettlementQuoteFor(input.amountRawUsdc, chain.vault);
      if quote.Success? && chain.stakedSharesRaw + chain.unstakedSharesRaw == p.totalSharesRaw {
        var working := WorkingPosition(p, chain);
        SnapshotGrants(SavePosition(u, input.key, working), input, working, Some(quote.value));
      }
  }

  lemma PreparationReachesLastStage(s: LedgerState, input: PrepareInput)
    requires input.key in s.positions
    ensures
      var u := ExpirePreparedPayments(s, input.key);
      var p := u.positions[input.key];
      var found := FindPaymentBySellerRequest(u.payments, input.request);
      PreparePayment(s, input).reply == Done
      <==> && PaymentIndex(u.payments, input.paymentId).None?
           && (found.Some? ==> TerminallyFailed(found.value)
                               && found.value.requestBindingHash == input.requestBindingHash)
           && PaymentRefusal(u, p, input).None?
           && LastStage(u, input, p).reply == Done
  {
  }

  lemma ExpiryLeavesFlowsAndIds(s: LedgerState, input: PrepareInput)
    requires input.key in s.positions
    ensures
      var u := ExpirePreparedPayments(s, input.key);
      && (NoFlowOwns(u, input.key) <==> NoFlowOwns(s, input.key))
      && (PaymentIndex(u.payments, input.paymentId).None?
          <==> NewPaymentId(s, input.paymentId))
  {
    var u := ExpirePreparedPayments(s, input.key);
    IdUnused(u.payments, input.paymentId);
    assert forall i | 0 <= i < |s.payments| :: u.payments[i].paymentId == s.payments[i].paymentId;
  }

  /** A payment is granted for a free request to a position that deserves it, and in no other case. */
  lemma PaymentGrantedExactlyWhenDeserved(s: LedgerState, input: PrepareInput)
    requires RequestsDisciplined(s.payments)
    ensures PreparePayment(s, input).reply == Done
            <==> && NewPaymentId(s, input.paymentId)
                 && RequestIsFree(s, input)
                 && input.key in s.positions
                 && var u := ExpirePreparedPayments(s, input.key);
                    && JudgedOn(u, input).Some?
                    && Deserves(s, input, u.positions[input.key], JudgedOn(u, input).value)
  {
    if input.key in s.positions {
      var u := ExpirePreparedPayments(s, input.key);
      var p := u.positions[input.key];
      PreparationReachesLastStage(s, input);
      ExpiryLeavesFlowsAndIds(s, input);
      FreeRequestFindsNothingLive(s, input);
      RefusalsAreTheGuards(u, input, p);
      OutstandingIsActive(s, input.key);
      if PaymentRefusal(u, p, input).None? {
        LastStageGrants(u, input, p);
      }
    }
  }

  /** A granted payment and its position, field by field. */
  predicate GrantBooks(u: LedgerState, t: LedgerState, input: PrepareInput)
    requires input.key in u.positions
  {
    && JudgedOn(u, input).Some?
    && var j := JudgedOn(u, input).value;
       && t.payments == u.payments + [PaymentIntent(
            input.paymentId, input.key, input.request, input.requestBindingHash, input.amountRawUsdc,
            OrElse(input.builtShares, 0), j.withdraw, input.estimatedFeeDebtRawUsdc,
            j.withdraw + input.estimatedFeeDebtRawUsdc, input.expiresAt, None, PaymentPrepared)]
       && t.flows == u.flows && t.events == u.events && t.now == u.now
       && OnlyPositionMoves(u, t, input.key)
       && PositionAfterGrant(u.positions[input.key], t.positions[input.key], input, j)
  }

  predicate PositionAfterGrant(p: WalletPosition, a: WalletPosition, input: PrepareInput, j: Judged) {
    && a == p.(reservedRawUsdc := p.reservedRawUsdc + j.withdraw + input.estimatedFeeDebtRawUsdc,
               exchangeRateScaled := j.rate, instantRedeemCapacityRawUsdc := j.capacity, version := a.version,
               stakedSharesRaw := a.stakedSharesRaw, unstakedSharesRaw := a.unstakedSharesRaw,
               lastSyncedSlot := a.lastSyncedSlot)
    && (match input.quote
        case None =>
          && a.stakedSharesRaw == p.stakedSharesRaw && a.unstakedSharesRaw == p.unstakedSharesRaw
          && a.lastSyncedSlot == p.lastSyncedSlot && a.version == p.version + 1
        case Some(chain) =>
          && a.stakedSharesRaw == chain.stakedSharesRaw && a.unstakedSharesRaw == chain.unstakedSharesRaw
          && a.lastSyncedSlot == Some(chain.slot) && a.version == p.version + 2)
  }

  lemma SnapshotGrantBooks(u: LedgerState, input: PrepareInput, p: WalletPosition)
    requires input.key in u.positions && u.positions[input.key] == p && input.quote == None
    requires PrepareOnSnapshot(u, input, p, None).reply == Done
    ensures GrantBooks(u, PrepareOnSnapshot(u, input, p, None).state, input)
  {
  }

  lemma QuoteGrantBooks(u: LedgerState, input: PrepareInput, p: WalletPosition, chain: ChainQuote)
    requires input.key in u.positions && u.positions[input.key] == p && input.quote == Some(chain)
    requires PrepareOnQuote(u, input, p, chain).reply == Done
    ensures GrantBooks(u, PrepareOnQuote(u, input, p, chain).state, input)
  {
  }

  lemma LastStageGrantBooks(u: LedgerState, input: PrepareInput, p: WalletPosition)
    requires input.key in u.positions && u.positions[input.key] == p
    requires LastStage(u, input, p).reply == Done
    ensures GrantBooks(u, LastStage(u, input, p).state, input)
  {
    match input.quote
    case None => SnapshotGrantBooks(u, input, p);
    case Some(chain) => QuoteGrantBooks(u, input, p, chain);
  }

  lemma LastStageRefusalBooks(u: LedgerState, input: PrepareInput, p: WalletPosition)
    requires input.key in u.positions && u.positions[input.key] == p
    requires LastStage(u, input, p).reply != Done
    ensures RefusalBooks(u, LastStage(u, input, p), input)
  {
  }

  lemma GrantedPaymentBooks(s: LedgerState, input: PrepareInput)
    requires PreparePayment(s, input).reply == Done
    ensures input.key in s.positions
    ensures GrantBooks(ExpirePreparedPayments(s, input.key), PreparePayment(s, input).state, input)
  {
    var u := ExpirePreparedPayments(s, input.key);
    PreparationReachesLastStage(s, input);
    LastStageGrantBooks(u, input, u.positions[input.key]);
    assert PreparePayment(s, input) == LastStage(u, input, u.positions[input.key]);
  }

  /** What a refused preparation leaves: nothing new, but for the figures of the quote or the mark of moved shares. */
  predicate RefusalBooks(u: LedgerState, outcome: Outcome, input: PrepareInput)
    requires input.key in u.positions
  {
    var p, t := u.positions[input.key], outcome.state;
    || (t == u && outcome.reply != Refused(BaselineResetNeeded))
    || (&& input.quote.Some? && OnlyPositionMoves(u, t, input.key)
        && t.payments == u.payments && t.flows == u.flows && t.now == u.now
        && var chain := input.quote.value;
           var shares := chain.stakedSharesRaw + chain.unstakedSharesRaw;
           if shares == p.totalSharesRaw then
             && t.events == u.events
             && t.positions[input.key] == p.(
                  stakedSharesRaw := chain.stakedSharesRaw, unstakedSharesRaw := chain.unstakedSharesRaw,
                  exchangeRateScaled := chain.vault.exchangeRateScaled,
                  instantRedeemCapacityRawUsdc := chain.instantRedeemCapacityRawUsdc,
                  lastSyncedSlot := Some(chain.slot), version := p.version + 1)
           else
             && outcome.reply == Refused(BaselineResetNeeded)
             && t.positions[input.key] == p.(status := NeedsBaselineReset, version := p.version + 1)
             && t.events == u.events + [SyncEvent(input.key, shares - p.totalSharesRaw, 0)])
  }

  lemma RefusedPaymentBooks(s: LedgerState, input: PrepareInput)
    requires input.key in s.positions && PreparePayment(s, input).reply != Done
    ensures PreparePayment(s, input).state == s
            || RefusalBooks(ExpirePreparedPayments(s, input.key), PreparePayment(s, input), input)
  {
    var u := ExpirePreparedPayments(s, input.key);
    if LastStage(u, input, u.positions[input.key]).reply != Done {
      LastStageRefusalBooks(u, input, u.positions[input.key]);
    }
    RefusedEarlierOrLast(s, input);
  }

  lemma RefusedEarlierOrLast(s: LedgerState, input: PrepareInput)
    requires input.key in s.positions
    ensures
      var u, outcome := ExpirePreparedPayments(s, input.key), PreparePayment(s, input);
      || outcome == LastStage(u, input, u.positions[input.key])
      || outcome.state == s
      || (outcome.state == u && outcome.reply != Refused(BaselineResetNeeded))
  {
  }

  /** The store's answer to a request, whatever its position: found by any of its records. */
  lemma StoreAnswersRequest(payments: seq<PaymentIntent>, request: SellerRequest, i: nat)
    requires i < |payments| && payments[i].request == request
    requires forall k, l | 0 <= k < l < |payments| && payments[k].request == payments[l].request ::
               TerminallyFailed(payments[k]) && payments[k].requestBindingHash == payments[l].requestBindingHash
    ensures
      var found := FindPaymentBySellerRequest(payments, request);
      && found.Some? && found.value.requestBindingHash == payments[i].requestBindingHash
      && (LiveOrSettled(payments[i]) ==> found.value == payments[i])
  {
    var found := FindPaymentBySellerRequest(payments, request);
    var j :| 0 <= j < |payments| && payments[j] == found.value;
    if i < j {
      assert payments[i].request == payments[j].request;
    } else if j < i {
      assert payments[j].request == payments[i].request;
    }
  }

  /** A request bound to another hash is refused, and one with a live or settled payment is answered with it. */
  lemma KnownRequestsAreAnswered(s: LedgerState, input: PrepareInput, i: nat)
    requires RequestsDisciplined(s.payments) && i < |s.payments| && s.payments[i].request == input.request
    requires NewPaymentId(s, input.paymentId)
    ensures s.payments[i].requestBindingHash != input.requestBindingHash ==>
              PreparePayment(s, input) == Outcome(ExpirePreparedPayments(s, input.key), Refused(SellerRequestIdReuse))
    ensures && s.payments[i].requestBindingHash == input.requestBindingHash
            && LiveOrSettled(s.payments[i]) && !DueToExpire(s.payments[i], input.key, s.now) ==>
              PreparePayment(s, input)
              == Outcome(ExpirePreparedPayments(s, input.key), Existing(s.payments[i].paymentId))
  {
    var u := ExpirePreparedPayments(s, input.key);
    IdUnused(u.payments, input.paymentId);
    ExpiryKeepsDiscipline(s, input.key);
    StoreAnswersRequest(u.payments, input.request, i);
  }

  lemma ExpiryKeepsDiscipline(s: LedgerState, key: PositionKey)
    requires RequestsDisciplined(s.payments)
    ensures
      var u := ExpirePreparedPayments(s, key);
      && RequestsDisciplined(u.payments) && |u.payments| == |s.payments|
      && forall k | 0 <= k < |s.payments| ::
           && u.payments[k].paymentId == s.payments[k].paymentId && u.payments[k].request == s.payments[k].request
           && u.payments[k].requestBindingHash == s.payments[k].requestBindingHash
           && (!DueToExpire(s.payments[k], key, s.now) ==> u.payments[k] == s.payments[k])
  {
  }

  // ---- one settlement per request

  /** The step accepts a settled receipt for a payment of the request. */
  predicate SettlesRequest(s: LedgerState, a: Action, request: SellerRequest) {
    && a.Finalize? && a.result.ResultSettled? && Perform(s, a).reply == Done
    && exists i | 0 <= i < |s.payments| :: s.payments[i].paymentId == a.paymentId && s.payments[i].request == request
  }

  function SettlementsOver(s: LedgerState, actions: seq<Action>, request: SellerRequest): nat
    decreases |actions|
  {
    if actions == [] then 0
    else
      (if SettlesRequest(s, actions[0], request) then 1 else 0)
      + SettlementsOver(Step(s, actions[0]), actions[1..], request)
  }

  /** The settled payment behind such a step: awaiting its receipt before, settled after. */
  lemma SettlingSettles(s: LedgerState, a: Action, request: SellerRequest) returns (i: nat)
    requires StoresConsistent(s) && SettlesRequest(s, a, request)
    ensures i < |s.payments| && s.payments[i].request == request && AwaitsReceipt(s.payments[i])
    ensures s.payments[i].paymentId == a.paymentId
    ensures i < |Step(s, a).payments| && Step(s, a).payments[i] == s.payments[i].(
              status := Settled, txSignature := Some(a.result.txSignature))
  {
    i :| 0 <= i < |s.payments| && s.payments[i].paymentId == a.paymentId && s.payments[i].request == request;
    ReceiptDecidesPayment(s, i, a.paymentId, a.result);
    StepMovesPayments(s, a);
    assert PaymentKept(s.payments[i], Step(s, a).payments[i]);
  }

  lemma {:induction false} SettledForGood(s: LedgerState, actions: seq<Action>, i: nat)
    requires StoresConsistent(s) && i < |s.payments| && s.payments[i].status == Settled
    ensures SettlementsOver(s, actions, s.payments[i].request) == 0
    decreases |actions|
  {
    if actions != [] {
      var request := s.payments[i].request;
      StepKeepsStores(s, actions[0]);
      StepMovesPayments(s, actions[0]);
      assert PaymentKept(s.payments[i], Step(s, actions[0]).payments[i]);
      if SettlesRequest(s, actions[0], request) {
        var j := SettlingSettles(s, actions[0], request);
        assert false;
      }
      SettledForGood(Step(s, actions[0]), actions[1..], i);
    }
  }

  lemma {:induction false} SettledAtMostOnce(s: LedgerState, actions: seq<Action>, request: SellerRequest)
    requires StoresConsistent(s)
    ensures SettlementsOver(s, actions, request) <= 1
    decreases |actions|
  {
    if actions != [] {
      StepKeepsStores(s, actions[0]);
      if SettlesRequest(s, actions[0], request) {
        var i := SettlingSettles(s, actions[0], request);
        SettledForGood(Step(s, actions[0]), actions[1..], i);
      } else {
        SettledAtMostOnce(Step(s, actions[0]), actions[1..], request);
      }
    }
  }

  /** Over every run at most one settled receipt is accepted per seller request. */
  lemma RequestsSettleAtMostOnce(now: int, actions: seq<Action>, request: SellerRequest)
    ensures SettlementsOver(Initial(now), actions, request) <= 1
  {
    SettledAtMostOnce(Initial(now), actions, request);
  }

  /** A request's own payment answers it, whoever asks with its binding; another binding is refused. */
  predicate AnsweredWith(p: PaymentIntent, input: PrepareInput, reply: Reply) {
    && p.request == input.request
    && reply == if p.requestBindingHash == input.requestBindingHash then Existing(p.paymentId)
                else Refused(SellerRequestIdReuse)
  }

  lemma SettledStaysAnswered(v: LedgerState, meanwhile: seq<Action>, input: PrepareInput, i: nat)
    requires StoresConsistent(v) && i < |v.payments|
    requires v.payments[i].status == Settled && v.payments[i].request == input.request
    requires NewPaymentId(RunAll(v, meanwhile), input.paymentId)
    ensures AnsweredWith(v.payments[i], input, PreparePayment(RunAll(v, meanwhile), input).reply)
  {
    var u := RunAll(v, meanwhile);
    EveryRunKeepsStores(v, meanwhile);
    RunsOnlyAdvanceRecords(v, meanwhile);
    assert PaymentOutlives(v.payments[i], u.payments[i]);
    KnownRequestsAreAnswered(u, input, i);
  }

  /**
    Once a settled receipt was accepted for a request, whatever runs afterwards: every further preparation of it is
    answered with the settled payment, or refused when it is bound to something else.
   */
  lemma SettledRequestsStayAnswered(
    now: int, before: seq<Action>, a: Action, meanwhile: seq<Action>, input: PrepareInput)
    returns (i: nat)
    requires SettlesRequest(RunAll(Initial(now), before), a, input.request)
    requires NewPaymentId(RunAll(Step(RunAll(Initial(now), before), a), meanwhile), input.paymentId)
    ensures
      var s := RunAll(Initial(now), before);
      var u := RunAll(Step(s, a), meanwhile);
      && i < |s.payments| && s.payments[i].paymentId == a.paymentId
      && AnsweredWith(s.payments[i], input, PreparePayment(u, input).reply)
  {
    var s := RunAll(Initial(now), before);
    ReachableStoresAreConsistent(now, before);
    i := SettlingSettles(s, a, input.request);
    StepKeepsStores(s, a);
    SettledStaysAnswered(Step(s, a), meanwhile, input, i);
  }
}
