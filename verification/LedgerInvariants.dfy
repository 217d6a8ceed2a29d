/**
  What every step of the ledger keeps, and therefore what holds in every reachable state.
 */
module LedgerInvariants {
  import opened Wrappers
  import opened Models
  import opened Ledger
  import VaultAdapter

  // ---- how one step may change the stored payments and flows

  predicate PaymentMove(from: PaymentStatus, to: PaymentStatus) {
    match from
    case PaymentPrepared => to.PaymentPrepared? || to.SubmissionPrepared? || to.PaymentExpired?
    case SubmissionPrepared => !to.PaymentPrepared? && !to.PaymentExpired?
    case PaymentSubmitted => !to.PaymentPrepared? && !to.SubmissionPrepared? && !to.PaymentExpired?
    case _ => to == from
  }

  predicate PaymentFinal(p: PaymentIntent) {
    !HoldsReservation(p)
  }

  /** Only the status and the signature of a stored payment change, and nothing of a final one. */
  predicate PaymentKept(p: PaymentIntent, q: PaymentIntent) {
    && q == p.(status := q.status, txSignature := q.txSignature)
    && PaymentMove(p.status, q.status)
    && (PaymentFinal(p) ==> q == p)
  }

  predicate PaymentsKept(before: seq<PaymentIntent>, after: seq<PaymentIntent>) {
    |before| <= |after| && forall i | 0 <= i < |before| :: PaymentKept(before[i], after[i])
  }

  /** A payment may join the store when its id is new and every earlier payment of its request failed for good. */
  predicate MayJoin(payments: seq<PaymentIntent>, p: PaymentIntent) {
    && p.status.PaymentPrepared?
    && forall i | 0 <= i < |payments| ::
         && payments[i].paymentId != p.paymentId
         && (payments[i].request == p.request ==>
               TerminallyFailed(payments[i]) && payments[i].requestBindingHash == p.requestBindingHash)
  }

  predicate PaymentStep(before: seq<PaymentIntent>, after: seq<PaymentIntent>) {
    && PaymentsKept(before, after)
    && (|after| == |before|
        || (|after| == |before| + 1 && MayJoin(after[..|before|], after[|before|])))
  }

  predicate FlowMove(f: VaultFlow, to: FlowStatus, now: int) {
    match f.status
    case FlowPrepared =>
      to.FlowPrepared? || (to.FlowSubmitted? && f.expiresAt > now) || (to.FlowExpired? && f.expiresAt <= now)
    case FlowSubmitted => !to.FlowPrepared? && !to.FlowExpired?
    case _ => to == f.status
  }

  /** Only the status changes, and with a confirmation the landed amount, which is positive. */
  predicate FlowKept(f: VaultFlow, g: VaultFlow, now: int) {
    && g == f.(status := g.status, movedRawUsdc := g.movedRawUsdc)
    && FlowMove(f, g.status, now)
    && (if g.status.FlowConfirmed? && !f.status.FlowConfirmed? then g.movedRawUsdc > 0
        else g.movedRawUsdc == f.movedRawUsdc)
  }

  predicate FlowsKept(before: seq<VaultFlow>, after: seq<VaultFlow>, now: int) {
    |before| <= |after| && forall i | 0 <= i < |before| :: FlowKept(before[i], after[i], now)
  }

  predicate FlowStep(before: seq<VaultFlow>, after: seq<VaultFlow>, now: int) {
    && FlowsKept(before, after, now)
    && (|after| == |before|
        || (&& |after| == |before| + 1
            && after[|before|].status.FlowPrepared?
            && forall i | 0 <= i < |before| ::
                 && before[i].flowId != after[|before|].flowId
                 && !(after[i].key == after[|before|].key && FlowPending(after[i], now))))
  }

  // ---- the stored records stay consistent

  /** Earlier payments of a seller request failed for good, and all of them are bound to the same request hash. */
  predicate RequestsDisciplined(payments: seq<PaymentIntent>) {
    forall i, j | 0 <= i < j < |payments| && payments[i].request == payments[j].request ::
      TerminallyFailed(payments[i]) && payments[i].requestBindingHash == payments[j].requestBindingHash
  }

  predicate PaymentIdsDistinct(payments: seq<PaymentIntent>) {
    forall i, j | 0 <= i < j < |payments| :: payments[i].paymentId != payments[j].paymentId
  }

  predicate FlowIdsDistinct(flows: seq<VaultFlow>) {
    forall i, j | 0 <= i < j < |flows| :: flows[i].flowId != flows[j].flowId
  }

  predicate OnePendingFlow(s: LedgerState) {
    forall i, j | 0 <= i < j < |s.flows| && s.flows[i].key == s.flows[j].key ::
      !(FlowPending(s.flows[i], s.now) && FlowPending(s.flows[j], s.now))
  }

  predicate WithdrawalsExcludePayments(s: LedgerState) {
    forall i, j | 0 <= i < |s.payments| && 0 <= j < |s.flows| && s.payments[i].key == s.flows[j].key ::
      !(HoldsReservation(s.payments[i]) && !s.flows[j].kind.Deposit? && FlowPending(s.flows[j], s.now))
  }

  predicate RecordsHavePositions(s: LedgerState) {
    && (forall i | 0 <= i < |s.payments| :: s.payments[i].key in s.positions)
    && (forall i | 0 <= i < |s.flows| :: s.flows[i].key in s.positions)
  }

  predicate StoresConsistent(s: LedgerState) {
    && PaymentIdsDistinct(s.payments)
    && FlowIdsDistinct(s.flows)
    && RequestsDisciplined(s.payments)
    && RecordsHavePositions(s)
    && OnePendingFlow(s)
    && WithdrawalsExcludePayments(s)
  }

  // ---- every operation is such a step

  lemma UpdateMovesPayments(payments: seq<PaymentIntent>, i: nat, q: PaymentIntent)
    requires i < |payments|
    requires PaymentKept(payments[i], q)
    ensures PaymentStep(payments, payments[i := q])
  {
    forall k | 0 <= k < |payments| ensures PaymentKept(payments[k], payments[i := q][k]) {
      if k == i { assert payments[i := q][k] == q; }
    }
  }

  lemma ExpiryMovesPayments(s: LedgerState, key: PositionKey)
    ensures PaymentStep(s.payments, ExpirePreparedPayments(s, key).payments)
    ensures |ExpirePreparedPayments(s, key).payments| == |s.payments|
    ensures ExpirePreparedPayments(s, key).flows == s.flows
    ensures ExpirePreparedPayments(s, key).now == s.now
    ensures ExpirePreparedPayments(s, key).positions.Keys == s.positions.Keys
  {
  }

  predicate GrantOf(p: PaymentIntent, input: PrepareInput) {
    && p.paymentId == input.paymentId && p.key == input.key && p.request == input.request
    && p.requestBindingHash == input.requestBindingHash && p.status.PaymentPrepared?
  }

  predicate AppendsGrant(before: seq<PaymentIntent>, after: seq<PaymentIntent>, input: PrepareInput) {
    |after| == |before| + 1 && after[..|before|] == before && GrantOf(after[|before|], input)
  }

  lemma SnapshotShape(s: LedgerState, input: PrepareInput, working: WalletPosition,
                      quote: Option<VaultAdapter.SettlementWithdrawQuote>)
    ensures
      var outcome := PrepareOnSnapshot(s, input, working, quote);
      && outcome.state.flows == s.flows && outcome.state.now == s.now && outcome.state.events == s.events
      && (if outcome.reply.Done? then
            && AppendsGrant(s.payments, outcome.state.payments, input)
            && outcome.state.positions.Keys == s.positions.Keys + {input.key}
          else outcome.state == s)
  {
    var outcome := PrepareOnSnapshot(s, input, working, quote);
    if outcome.reply.Done? {
      var p := outcome.state.payments[|outcome.state.payments| - 1];
      assert outcome.state.payments == s.payments + [p];
    }
  }

  lemma QuoteShape(s: LedgerState, input: PrepareInput, position: WalletPosition, chain: ChainQuote)
    ensures
      var outcome := PrepareOnQuote(s, input, position, chain);
      && outcome.state.flows == s.flows && outcome.state.now == s.now
      && (outcome.state.positions.Keys == s.positions.Keys
          || outcome.state.positions.Keys == s.positions.Keys + {input.key})
      && (if outcome.reply.Done? then AppendsGrant(s.payments, outcome.state.payments, input)
          else outcome.state.payments == s.payments)
  {
    var quote := VaultAdapter.SettlementQuoteFor(input.amountRawUsdc, chain.vault);
    if quote.Success? && chain.stakedSharesRaw + chain.unstakedSharesRaw == position.totalSharesRaw {
      var working := WorkingPosition(position, chain);
      SnapshotShape(SavePosition(s, input.key, working), input, working, Some(quote.value));
    }
  }

  /** A prepare that grants appends one payment to the expired store; any other outcome appends nothing. */
  lemma PrepareShape(s0: LedgerState, input: PrepareInput)
    ensures
      var s := ExpirePreparedPayments(s0, input.key);
      var outcome := PreparePayment(s0, input);
      var found := FindPaymentBySellerRequest(s.payments, input.request);
      && outcome.state.flows == s.flows
      && outcome.state.now == s.now
      && outcome.state.positions.Keys == s.positions.Keys
      && (if outcome.reply.Done? then
            && AppendsGrant(s.payments, outcome.state.payments, input)
            && PaymentIndex(s.payments, input.paymentId).None?
            && (found.Some? ==> TerminallyFailed(found.value)
                                && found.value.requestBindingHash == input.requestBindingHash)
            && input.key in s.positions && !AnyFlowPending(s, input.key)
          else outcome.state.payments == s.payments || outcome.state == s0)
  {
    var s := ExpirePreparedPayments(s0, input.key);
    if input.key in s.positions {
      var position := s.positions[input.key];
      SnapshotShape(s, input, position, None);
      if input.quote.Some? {
        QuoteShape(s, input, position, input.quote.value);
      }
      assert s.positions.Keys + {input.key} == s.positions.Keys;
    }
  }

  lemma PrepareMovesPayments(s0: LedgerState, input: PrepareInput)
    requires RequestsDisciplined(s0.payments)
    ensures PaymentStep(s0.payments, PreparePayment(s0, input).state.payments)
  {
    var s := ExpirePreparedPayments(s0, input.key);
    ExpiryMovesPayments(s0, input.key);
    PrepareShape(s0, input);
    var outcome := PreparePayment(s0, input);
    if outcome.reply.Done? {
      GrantedPaymentMayJoin(s0.payments, s.payments, input);
      AppendedGrantMoves(s0.payments, s.payments, outcome.state.payments, input);
    }
  }

  lemma AppendedGrantMoves(before: seq<PaymentIntent>, expired: seq<PaymentIntent>, after: seq<PaymentIntent>,
                           input: PrepareInput)
    requires |before| == |expired| && PaymentsKept(before, expired)
    requires AppendsGrant(expired, after, input)
    requires forall i | 0 <= i < |expired| ::
               && expired[i].paymentId != input.paymentId
               && (expired[i].request == input.request ==>
                     TerminallyFailed(expired[i]) && expired[i].requestBindingHash == input.requestBindingHash)
    ensures PaymentStep(before, after)
  {
    assert forall i | 0 <= i < |expired| :: after[i] == after[..|expired|][i] == expired[i];
    assert MayJoin(after[..|before|], after[|before|]);
  }

  lemma GrantedPaymentMayJoin(before: seq<PaymentIntent>, expired: seq<PaymentIntent>, input: PrepareInput)
    requires RequestsDisciplined(before)
    requires |before| == |expired| && PaymentsKept(before, expired)
    requires PaymentIndex(expired, input.paymentId).None?
    requires
      var found := FindPaymentBySellerRequest(expired, input.request);
      found.Some? ==> TerminallyFailed(found.value) && found.value.requestBindingHash == input.requestBindingHash
    ensures forall i | 0 <= i < |expired| ::
              && expired[i].paymentId != input.paymentId
              && (expired[i].request == input.request ==>
                    TerminallyFailed(expired[i]) && expired[i].requestBindingHash == input.requestBindingHash)
  {
    var found := FindPaymentBySellerRequest(expired, input.request);
    forall i | 0 <= i < |expired| && expired[i].request == input.request
      ensures TerminallyFailed(expired[i]) && expired[i].requestBindingHash == input.requestBindingHash
    {
      assert !LiveOrSettled(expired[i]);
      var j :| 0 <= j < |expired| && expired[j] == found.value;
      OneBindingPerRequest(before, expired, i, j);
    }
  }

  lemma OneBindingPerRequest(before: seq<PaymentIntent>, after: seq<PaymentIntent>, i: nat, j: nat)
    requires RequestsDisciplined(before) && |before| == |after| && PaymentsKept(before, after)
    requires i < |after| && j < |after| && after[i].request == after[j].request
    ensures after[i].requestBindingHash == after[j].requestBindingHash
  {
    assert PaymentKept(before[i], after[i]) && PaymentKept(before[j], after[j]);
    assert before[i].requestBindingHash == before[j].requestBindingHash;
  }

  lemma StepMovesPayments(s: LedgerState, a: Action)
    requires RequestsDisciplined(s.payments)
    ensures PaymentStep(s.payments, Step(s, a).payments)
  {
    match a
    case Prepare(input) => PrepareMovesPayments(s, input);
    case ReadBudget(key) => ExpiryMovesPayments(s, key);
    case StartWithdrawal(input) =>
      ExpiryMovesPayments(s, input.key);
      WithdrawalShape(s, input);
    case ExpirePayment(id) => SinglePaymentMove(s, a, id);
    case Begin(id, payload) => SinglePaymentMove(s, a, id);
    case MarkSubmitted(id) => SinglePaymentMove(s, a, id);
    case RecordPending(id, signature) => SinglePaymentMove(s, a, id);
    case Finalize(id, result) => SinglePaymentMove(s, a, id);
    case Sync(key, sync) => SyncMovesPayments(s, key, sync);
    case _ => OthersLeavePayments(s, a);
  }

  lemma SyncMovesPayments(s: LedgerState, key: PositionKey, input: SyncInput)
    ensures PaymentStep(s.payments, SyncWalletPosition(s, key, input).state.payments)
  {
  }

  lemma OthersLeavePayments(s: LedgerState, a: Action)
    requires a.Tick? || a.Register? || (ActsOnFlows(a) && !a.StartWithdrawal?)
    ensures Step(s, a).payments == s.payments
  {
  }

  predicate ActsOnPayment(a: Action, id: nat) {
    match a
    case ExpirePayment(i) => i == id
    case Begin(i, _) => i == id
    case MarkSubmitted(i) => i == id
    case RecordPending(i, _) => i == id
    case Finalize(i, _) => i == id
    case _ => false
  }

  /** One stored payment was replaced by a legal successor, and nothing joined or left any store. */
  predicate OnePaymentMoved(s: LedgerState, t: LedgerState) {
    && PaymentStep(s.payments, t.payments)
    && |t.payments| == |s.payments|
    && t.flows == s.flows && t.now == s.now
    && t.positions.Keys == s.positions.Keys
  }

  lemma FinalizeMove(s: LedgerState, id: nat, result: SettlementResult)
    ensures OnePaymentMoved(s, FinalizeSubmittedPayment(s, id, result).state)
  {
    var found := PaymentIndex(s.payments, id);
    if found.Some? {
      var t := FinalizeSubmittedPayment(s, id, result).state;
      var q := t.payments[found.value];
      assert t.payments == s.payments[found.value := q];
      assert PaymentKept(s.payments[found.value], q);
      UpdateMovesPayments(s.payments, found.value, q);
    }
  }

  lemma SinglePaymentMove(s: LedgerState, a: Action, id: nat)
    requires ActsOnPayment(a, id)
    ensures OnePaymentMoved(s, Step(s, a))
  {
    var found := PaymentIndex(s.payments, id);
    if a.Finalize? {
      FinalizeMove(s, id, a.result);
    } else if found.Some? {
      var q := Step(s, a).payments[found.value];
      assert Step(s, a).payments == s.payments[found.value := q];
      assert PaymentKept(s.payments[found.value], q);
      UpdateMovesPayments(s.payments, found.value, q);
    }
  }

  lemma ApprovalShape(s: LedgerState, input: WithdrawalInput, position: WalletPosition)
    ensures
      var outcome := ApproveWithdrawal(s, input, position);
      && outcome.reply != Refused(BaselineResetNeeded)
      && if outcome.reply.Done? then
           exists f: VaultFlow ::
             && outcome.state == s.(flows := s.flows + [f])
             && f.key == input.key && f.flowId == input.flowId && f.status.FlowPrepared?
             && f.kind == (if input.yieldRealize then YieldRealize else NormalWithdrawal)
         else outcome.state == s
  {
    var outcome := ApproveWithdrawal(s, input, position);
    if outcome.reply.Done? {
      var f := outcome.state.flows[|s.flows|];
      assert outcome.state == s.(flows := s.flows + [f]);
    }
  }

  /** A withdrawal reaches approval only over an expired store without live payments and with its stale flows swept. */
  lemma WithdrawalStages(s0: LedgerState, input: WithdrawalInput)
    ensures
      var s := ExpirePreparedPayments(s0, input.key);
      var u := s.(flows := ExpireStaleFlows(s.flows, input.key, s.now));
      var outcome := PrepareWithdrawal(s0, input);
      || (outcome.state == s0 && outcome.reply.Refused? && outcome.reply != Refused(BaselineResetNeeded))
      || (outcome.state == s && outcome.reply.Refused? && outcome.reply != Refused(BaselineResetNeeded))
      || (&& input.key in s0.positions
          && !PaymentLive(s.payments, input.key)
          && FlowIndex(s.flows, input.flowId).None?
          && ((outcome.state == u && outcome.reply.Refused? && outcome.reply != Refused(BaselineResetNeeded))
              || (&& !AnyFlowPending(u, input.key)
                  && ((&& outcome.reply == Refused(BaselineResetNeeded)
                       && outcome.state
                          == FlagShareMovement(u, input.key, s0.positions[input.key], OnchainShares(input)))
                      || outcome == ApproveWithdrawal(u, input, s0.positions[input.key])))))
  {
  }

  lemma WithdrawalShape(s0: LedgerState, input: WithdrawalInput)
    ensures
      var s := ExpirePreparedPayments(s0, input.key);
      var outcome := PrepareWithdrawal(s0, input);
      && outcome.state.now == s0.now
      && outcome.state.positions.Keys == s0.positions.Keys
      && (outcome.state == s0
          || (&& outcome.state.payments == s.payments
              && (outcome.state == s || !PaymentLive(s.payments, input.key))
              && (outcome.state.flows == s.flows
                  || outcome.state.flows == ExpireStaleFlows(s.flows, input.key, s.now)
                  || (outcome.reply.Done? && GrantedFlows(s, outcome.state.flows, input.key, input.flowId,
                                                      if input.yieldRealize then YieldRealize else NormalWithdrawal)))))
  {
    WithdrawalStages(s0, input);
    if input.key in s0.positions {
      var s := ExpirePreparedPayments(s0, input.key);
      var u := s.(flows := ExpireStaleFlows(s.flows, input.key, s.now));
      ApprovalShape(u, input, s0.positions[input.key]);
    }
  }

  predicate PaymentLive(payments: seq<PaymentIntent>, key: PositionKey) {
    exists i | 0 <= i < |payments| :: payments[i].key == key && HoldsReservation(payments[i])
  }

  predicate GrantedFlows(s: LedgerState, after: seq<VaultFlow>, key: PositionKey, flowId: nat,
                         kind: FlowKind) {
    var swept := ExpireStaleFlows(s.flows, key, s.now);
    && |after| == |swept| + 1
    && after[..|swept|] == swept
    && after[|swept|].key == key && after[|swept|].flowId == flowId
    && after[|swept|].kind == kind && after[|swept|].status.FlowPrepared?
    && FlowIndex(s.flows, flowId).None?
    && (forall i | 0 <= i < |swept| :: !(swept[i].key == key && FlowPending(swept[i], s.now)))
  }

  lemma StepMovesFlows(s: LedgerState, a: Action)
    ensures FlowStep(s.flows, Step(s, a).flows, s.now)
  {
    match a
    case StartDeposit(input) => DepositMovesFlows(s, input);
    case StartWithdrawal(input) => WithdrawalMovesFlows(s, input);
    case Submit(id, _) => SingleFlowMove(s, a, id);
    case ReadStatus(id) => SingleFlowMove(s, a, id);
    case Abandon(id) => SingleFlowMove(s, a, id);
    case FinalizeLanded(id, landed) => SingleFlowMove(s, a, id);
    case _ => PaymentsLeaveFlows(s, a);
  }

  predicate ActsOnFlows(a: Action) {
    a.StartDeposit? || a.StartWithdrawal? || a.Submit? || a.ReadStatus? || a.Abandon? || a.FinalizeLanded?
  }

  lemma PaymentsLeaveFlows(s: LedgerState, a: Action)
    requires !ActsOnFlows(a)
    ensures Step(s, a).flows == s.flows
  {
    match a
    case Prepare(input) => PrepareShape(s, input);
    case ReadBudget(key) => ExpiryMovesPayments(s, key);
    case _ =>
  }

  lemma DepositMovesFlows(s: LedgerState, input: DepositInput)
    ensures FlowStep(s.flows, PrepareDeposit(s, input).state.flows, s.now)
  {
    DepositShape(s, input);
    SweptOrGrantedFlowsMove(s, PrepareDeposit(s, input).state.flows, input.key, input.flowId, Deposit);
  }

  lemma WithdrawalMovesFlows(s: LedgerState, input: WithdrawalInput)
    ensures FlowStep(s.flows, PrepareWithdrawal(s, input).state.flows, s.now)
  {
    ExpiryMovesPayments(s, input.key);
    WithdrawalShape(s, input);
    SweptOrGrantedFlowsMove(ExpirePreparedPayments(s, input.key), PrepareWithdrawal(s, input).state.flows, input.key,
                            input.flowId, if input.yieldRealize then YieldRealize else NormalWithdrawal);
  }

  lemma SweptOrGrantedFlowsMove(s: LedgerState, after: seq<VaultFlow>, key: PositionKey, flowId: nat, kind: FlowKind)
    requires after == s.flows || after == ExpireStaleFlows(s.flows, key, s.now)
             || GrantedFlows(s, after, key, flowId, kind)
    ensures FlowStep(s.flows, after, s.now)
  {
    if GrantedFlows(s, after, key, flowId, kind) {
      var swept := ExpireStaleFlows(s.flows, key, s.now);
      assert forall i | 0 <= i < |swept| :: after[i] == after[..|swept|][i] == swept[i];
    }
  }

  predicate ActsOnFlow(a: Action, id: nat) {
    match a
    case Submit(i, _) => i == id
    case ReadStatus(i) => i == id
    case Abandon(i) => i == id
    case FinalizeLanded(i, _) => i == id
    case _ => false
  }

  predicate OneFlowMoved(s: LedgerState, t: LedgerState) {
    && FlowStep(s.flows, t.flows, s.now)
    && |t.flows| == |s.flows|
    && t.payments == s.payments && t.now == s.now
    && t.positions.Keys == s.positions.Keys
  }

  lemma LandedFlowMove(s: LedgerState, id: nat, landed: LandedFlow)
    ensures OneFlowMoved(s, FinalizeFlow(s, id, landed).state)
  {
    var found := FlowIndex(s.flows, id);
    if found.Some? {
      var t := FinalizeFlow(s, id, landed).state;
      assert t.flows == s.flows[found.value := t.flows[found.value]];
    }
  }

  lemma SingleFlowMove(s: LedgerState, a: Action, id: nat)
    requires ActsOnFlow(a, id)
    ensures OneFlowMoved(s, Step(s, a))
  {
    var found := FlowIndex(s.flows, id);
    if a.FinalizeLanded? {
      LandedFlowMove(s, id, a.landed);
    } else if found.Some? {
      assert Step(s, a).flows == s.flows[found.value := Step(s, a).flows[found.value]];
    }
  }

  lemma DepositShape(s: LedgerState, input: DepositInput)
    ensures
      var outcome := PrepareDeposit(s, input);
      && outcome.state.now == s.now && outcome.state.payments == s.payments
      && outcome.state.positions.Keys == s.positions.Keys
      && (outcome.state.flows != s.flows ==> input.key in s.positions)
      && (outcome.state.flows == s.flows
          || outcome.state.flows == ExpireStaleFlows(s.flows, input.key, s.now)
          || GrantedFlows(s, outcome.state.flows, input.key, input.flowId, Deposit))
  {
    var outcome := PrepareDeposit(s, input);
    if outcome.reply.Done? {
      var swept := ExpireStaleFlows(s.flows, input.key, s.now);
      assert outcome.state.flows == swept + [outcome.state.flows[|swept|]];
    }
  }

  // ---- consistency is kept by every step

  lemma PaymentStepKeepsDiscipline(before: seq<PaymentIntent>, after: seq<PaymentIntent>)
    requires PaymentStep(before, after)
    requires PaymentIdsDistinct(before) && RequestsDisciplined(before)
    ensures PaymentIdsDistinct(after) && RequestsDisciplined(after)
  {
    var n := |before|;
    if |after| == n + 1 {
      assert MayJoin(after[..n], after[n]);
      forall i | 0 <= i < n
        ensures after[i].paymentId != after[n].paymentId
        ensures after[i].request == after[n].request ==>
                  TerminallyFailed(after[i]) && after[i].requestBindingHash == after[n].requestBindingHash
      {
        assert after[..n][i] == after[i];
      }
    }
    forall i, j | 0 <= i < j < n && after[i].request == after[j].request
      ensures TerminallyFailed(after[i]) && after[i].requestBindingHash == after[j].requestBindingHash
    {
      assert PaymentKept(before[i], after[i]) && PaymentKept(before[j], after[j]);
    }
    forall i, j | 0 <= i < j < n ensures after[i].paymentId != after[j].paymentId {
      assert PaymentKept(before[i], after[i]) && PaymentKept(before[j], after[j]);
    }
  }

  lemma FlowStepKeepsPendingUnique(s: LedgerState, t: LedgerState)
    requires FlowStep(s.flows, t.flows, s.now) && t.now >= s.now
    requires FlowIdsDistinct(s.flows) && OnePendingFlow(s)
    ensures FlowIdsDistinct(t.flows) && OnePendingFlow(t)
  {
    forall i | 0 <= i < |s.flows|
      ensures t.flows[i].key == s.flows[i].key && t.flows[i].flowId == s.flows[i].flowId
      ensures FlowPending(t.flows[i], t.now) ==> FlowPending(s.flows[i], s.now) && FlowPending(t.flows[i], s.now)
    {
      assert FlowKept(s.flows[i], t.flows[i], s.now);
    }
  }

  /** Time never goes back, positions never disappear, and a joining record belongs to a registered, free position. */
  predicate Framed(s: LedgerState, t: LedgerState) {
    && t.now >= s.now
    && s.positions.Keys <= t.positions.Keys
    && |s.payments| <= |t.payments| && |s.flows| <= |t.flows|
    && |t.payments| <= |s.payments| + 1 && |t.flows| <= |s.flows| + 1
    && (|t.payments| > |s.payments| ==>
          && t.flows == s.flows && t.now == s.now
          && t.payments[|s.payments|].key in t.positions
          && !AnyFlowPending(s, t.payments[|s.payments|].key))
    && (|t.flows| > |s.flows| ==>
          && t.now == s.now
          && t.flows[|s.flows|].key in t.positions
          && (t.flows[|s.flows|].kind.Deposit? || !PaymentLive(t.payments, t.flows[|s.flows|].key)))
  }

  lemma StepFrame(s: LedgerState, a: Action)
    requires RequestsDisciplined(s.payments)
    ensures Framed(s, Step(s, a))
  {
    match a
    case Prepare(input) =>
      PrepareShape(s, input);
      ExpiryMovesPayments(s, input.key);
    case ReadBudget(key) => ExpiryMovesPayments(s, key);
    case StartWithdrawal(input) => WithdrawalFrame(s, input);
    case ExpirePayment(id) => SinglePaymentMove(s, a, id);
    case Begin(id, payload) => SinglePaymentMove(s, a, id);
    case MarkSubmitted(id) => SinglePaymentMove(s, a, id);
    case RecordPending(id, signature) => SinglePaymentMove(s, a, id);
    case Finalize(id, result) => SinglePaymentMove(s, a, id);
    case _ => FlowFrame(s, a);
  }

  lemma WithdrawalFrame(s: LedgerState, input: WithdrawalInput)
    ensures Framed(s, PrepareWithdrawal(s, input).state)
  {
    ExpiryMovesPayments(s, input.key);
    WithdrawalShape(s, input);
    WithdrawalStages(s, input);
  }

  lemma FlowFrame(s: LedgerState, a: Action)
    requires a.Tick? || a.Register? || a.Sync? || (ActsOnFlows(a) && !a.StartWithdrawal?)
    ensures Framed(s, Step(s, a))
  {
    match a
    case StartDeposit(input) => DepositShape(s, input);
    case Submit(id, _) => SingleFlowMove(s, a, id);
    case ReadStatus(id) => SingleFlowMove(s, a, id);
    case Abandon(id) => SingleFlowMove(s, a, id);
    case FinalizeLanded(id, landed) => SingleFlowMove(s, a, id);
    case _ =>
  }

  lemma FramedKeepsExclusion(s: LedgerState, t: LedgerState)
    requires WithdrawalsExcludePayments(s) && RecordsHavePositions(s)
    requires Framed(s, t) && PaymentsKept(s.payments, t.payments) && FlowsKept(s.flows, t.flows, s.now)
    ensures WithdrawalsExcludePayments(t) && RecordsHavePositions(t)
  {
    forall i | 0 <= i < |s.payments|
      ensures t.payments[i].key == s.payments[i].key
      ensures HoldsReservation(t.payments[i]) ==> HoldsReservation(s.payments[i])
    {
      assert PaymentKept(s.payments[i], t.payments[i]);
    }
    forall i | 0 <= i < |s.flows|
      ensures t.flows[i].key == s.flows[i].key && t.flows[i].kind == s.flows[i].kind
      ensures FlowPending(t.flows[i], t.now) ==> FlowPending(s.flows[i], s.now)
    {
      assert FlowKept(s.flows[i], t.flows[i], s.now);
    }
  }

  lemma StepKeepsStores(s: LedgerState, a: Action)
    requires StoresConsistent(s)
    ensures StoresConsistent(Step(s, a))
  {
    StepMovesPayments(s, a);
    StepMovesFlows(s, a);
    StepFrame(s, a);
    PaymentStepKeepsDiscipline(s.payments, Step(s, a).payments);
    FlowStepKeepsPendingUnique(s, Step(s, a));
    FramedKeepsExclusion(s, Step(s, a));
  }

  /** From an empty ledger, every run reaches a consistent store. */
  lemma {:induction false} EveryRunKeepsStores(s: LedgerState, actions: seq<Action>)
    requires StoresConsistent(s)
    ensures StoresConsistent(RunAll(s, actions))
    decreases |actions|
  {
    if actions != [] {
      StepKeepsStores(s, actions[0]);
      EveryRunKeepsStores(Step(s, actions[0]), actions[1..]);
    }
  }

  lemma ReachableStoresAreConsistent(now: int, actions: seq<Action>)
    ensures StoresConsistent(RunAll(Initial(now), actions))
  {
    EveryRunKeepsStores(Initial(now), actions);
  }

  /**
    Each seller request has at most one live or settled payment, and it is the latest one; a later payment only
    exists because the earlier ones failed for good.
   */
  lemma AtMostOneLiveOrSettledPayment(now: int, actions: seq<Action>, i: nat, j: nat)
    requires i < |RunAll(Initial(now), actions).payments| && j < |RunAll(Initial(now), actions).payments|
    requires
      var payments := RunAll(Initial(now), actions).payments;
      payments[i].request == payments[j].request
    ensures
      var payments := RunAll(Initial(now), actions).payments;
      && payments[i].requestBindingHash == payments[j].requestBindingHash
      && (LiveOrSettled(payments[i]) && LiveOrSettled(payments[j]) ==> i == j)
      && (LiveOrSettled(payments[i]) ==> j <= i)
  {
    ReachableStoresAreConsistent(now, actions);
  }

  // ---- final states are absorbing over whole runs

  predicate PaymentOutlives(p: PaymentIntent, q: PaymentIntent) {
    && q == p.(status := q.status, txSignature := q.txSignature)
    && (PaymentFinal(p) ==> q == p)
    && (!p.status.PaymentPrepared? ==> !q.status.PaymentPrepared?)
    && (p.status.SubmissionPrepared? || p.status.PaymentSubmitted? ==> !q.status.PaymentExpired?)
  }

  predicate FlowOutlives(f: VaultFlow, g: VaultFlow) {
    && g == f.(status := g.status, movedRawUsdc := g.movedRawUsdc)
    && (FlowTerminal(f.status) ==> g == f)
    && (!f.status.FlowPrepared? ==> !g.status.FlowPrepared?)
    && (f.status.FlowSubmitted? ==> !g.status.FlowExpired?)
  }

  /**
    Over every run a stored record keeps its terms, a final one never changes, and nothing returns to an earlier
    stage.
   */
  lemma {:induction false} RunsOnlyAdvanceRecords(s: LedgerState, actions: seq<Action>)
    requires StoresConsistent(s)
    ensures
      var t := RunAll(s, actions);
      && |s.payments| <= |t.payments| && |s.flows| <= |t.flows|
      && (forall i | 0 <= i < |s.payments| :: PaymentOutlives(s.payments[i], t.payments[i]))
      && (forall i | 0 <= i < |s.flows| :: FlowOutlives(s.flows[i], t.flows[i]))
    decreases |actions|
  {
    if actions != [] {
      var u := Step(s, actions[0]);
      StepMovesPayments(s, actions[0]);
      StepMovesFlows(s, actions[0]);
      StepKeepsStores(s, actions[0]);
      RunsOnlyAdvanceRecords(u, actions[1..]);
      var t := RunAll(u, actions[1..]);
      forall i | 0 <= i < |s.payments| ensures PaymentOutlives(s.payments[i], t.payments[i]) {
        assert PaymentKept(s.payments[i], u.payments[i]);
        assert PaymentOutlives(u.payments[i], t.payments[i]);
      }
      forall i | 0 <= i < |s.flows| ensures FlowOutlives(s.flows[i], t.flows[i]) {
        assert FlowKept(s.flows[i], u.flows[i], s.now);
        assert FlowOutlives(u.flows[i], t.flows[i]);
      }
    }
  }
}
