/**
  Principal is never spent: at a fixed exchange rate, whatever payments are prepared, expired, settled or failed, the
  position value covers every commitment up to a rounding allowance per settlement since the last granted prepare.
 */
module PrincipalSafety {
  import opened Wrappers
  import opened RawUnits
  import opened Models
  import opened Budget
  import opened Ledger
  import opened LedgerInvariants
  import opened LedgerAccounting
  import VaultAdapter

  // A burn overshoots its withdrawal by the ceiling share and the signer's margin.
  const OVERSHOOT_SHARES: nat := SHARES_TO_REDEEM_MARGIN + 1

  function SettlementDrift(rate: nat): nat {
    CeilDiv(OVERSHOOT_SHARES * rate, RATE_SCALE)
  }

  /** The terms every granted payment carries: a bounded burn and a reservation of withdrawal plus fee. */
  predicate TermsAt(p: PaymentIntent, rate: nat) {
    && p.sharesToRedeemRaw * rate <= p.requiredWithdrawRawUsdc * RATE_SCALE + OVERSHOOT_SHARES * rate
    && p.reservationRawUsdc == p.requiredWithdrawRawUsdc + p.estimatedFeeDebtRawUsdc
  }

  predicate LiveTermsAt(payments: seq<PaymentIntent>, key: PositionKey, rate: nat) {
    forall i | 0 <= i < |payments| && payments[i].key == key && HoldsReservation(payments[i]) ::
      TermsAt(payments[i], rate)
  }

  /** Blocked for a reset, or worth every commitment up to an allowance for rounding. */
  predicate Covered(p: WalletPosition, rate: nat, allowance: nat) {
    && p.exchangeRateScaled == rate
    && p.stakedSharesRaw + p.unstakedSharesRaw == p.totalSharesRaw
    && (p.status.NeedsBaselineReset?
        || PositionValue(p.totalSharesRaw, rate) + allowance >= Committed(p))
  }

  ghost predicate SafeAt(s: LedgerState, key: PositionKey, rate: nat, allowance: nat) {
    && StoresConsistent(s) && Backed(s)
    && key in s.positions
    && LiveTermsAt(s.payments, key, rate)
    && Covered(s.positions[key], rate, allowance)
  }

  /** Payment steps on this position at this rate, and anything on other positions. */
  predicate PaymentStepAt(s: LedgerState, a: Action, key: PositionKey, rate: nat) {
    match a
    case Register(k, _) => k != key
    case Sync(k, _) => k != key
    case Prepare(input) => input.key == key && input.quote.Some? ==> input.quote.value.vault.exchangeRateScaled == rate
    case StartDeposit(input) => input.key != key
    case StartWithdrawal(input) => input.key != key
    case FinalizeLanded(id, _) => FlowIndex(s.flows, id).Some? ==> s.flows[FlowIndex(s.flows, id).value].key != key
    case _ => true
  }

  predicate GrantsAt(s: LedgerState, a: Action, key: PositionKey) {
    a.Prepare? && a.payment.key == key && Perform(s, a).reply.Done?
  }

  predicate SettlesAt(s: LedgerState, a: Action, key: PositionKey) {
    && a.Finalize? && a.result.ResultSettled? && Perform(s, a).reply.Done?
    && PaymentIndex(s.payments, a.paymentId).Some?
    && s.payments[PaymentIndex(s.payments, a.paymentId).value].key == key
  }

  /** One more drift per settlement; a granted prepare clears the allowance. */
  function AllowanceAfter(s: LedgerState, a: Action, key: PositionKey, rate: nat, allowance: nat): nat {
    if GrantsAt(s, a, key) then 0
    else if SettlesAt(s, a, key) then allowance + SettlementDrift(rate)
    else allowance
  }

  // ---- single positions

  /** A settlement costs its withdrawal plus at most one allowance, and gives its reservation back. */
  lemma SettlementCostsOneAllowance(position: WalletPosition, p: PaymentIntent, result: SettlementResult, rate: nat,
                                    allowance: nat)
    requires rate > 0
    requires Covered(position, rate, allowance) && TermsAt(p, rate)
    requires p.reservationRawUsdc <= position.reservedRawUsdc
    requires ResultAcceptable(p, result)
    ensures Covered(ApplySettlementResult(position, p, result), rate,
                    if result.ResultSettled? then allowance + SettlementDrift(rate) else allowance)
  {
    var after := ApplySettlementResult(position, p, result);
    if result.ResultSettled? && RedeemedShares(p, result) <= position.totalSharesRaw {
      var burned := RedeemedShares(p, result);
      assert after.totalSharesRaw == position.totalSharesRaw - burned;
      assert burned * rate <= p.sharesToRedeemRaw * rate by { MulMonotone(burned, p.sharesToRedeemRaw, rate); }
      BurnLossBound(position.totalSharesRaw, burned, rate, p.requiredWithdrawRawUsdc, OVERSHOOT_SHARES * rate);
    }
  }

  lemma ReleasedPositionStaysCovered(p: WalletPosition, q: WalletPosition, rate: nat, allowance: nat)
    requires Covered(p, rate, allowance)
    requires q == p.(reservedRawUsdc := q.reservedRawUsdc, version := q.version)
    requires q.reservedRawUsdc <= p.reservedRawUsdc
    ensures Covered(q, rate, allowance)
  {
  }

  // ---- prepare

  lemma SnapshotGrantCovers(s: LedgerState, input: PrepareInput, working: WalletPosition,
                            quote: Option<VaultAdapter.SettlementWithdrawQuote>)
    requires working.stakedSharesRaw + working.unstakedSharesRaw == working.totalSharesRaw
    requires PrepareOnSnapshot(s, input, working, quote).reply.Done?
    requires quote.Some? ==> quote.value.sharesToRedeemRaw * working.exchangeRateScaled
                             <= quote.value.requiredWithdrawRawUsdc * RATE_SCALE + working.exchangeRateScaled
    ensures
      var t := PrepareOnSnapshot(s, input, working, quote).state;
      && input.key in t.positions
      && Covered(t.positions[input.key], working.exchangeRateScaled, 0)
      && |t.payments| == |s.payments| + 1
      && TermsAt(t.payments[|s.payments|], working.exchangeRateScaled)
  {
    var t := PrepareOnSnapshot(s, input, working, quote).state;
    var rate := working.exchangeRateScaled;
    var p := t.payments[|s.payments|];
    var required := if quote.Some? then Some(quote.value.requiredWithdrawRawUsdc) else None;
    EvaluationGrantsExactlyTheSurplus(working, input.amountRawUsdc, input.estimatedFeeDebtRawUsdc, required,
                                      ActiveWithdrawReserved(s.payments, input.key));
    var approved := if quote.Some? then quote.value.sharesToRedeemRaw + SHARES_TO_REDEEM_MARGIN
                    else SharesToRedeem(p.requiredWithdrawRawUsdc, rate);
    assert p.sharesToRedeemRaw <= approved;
    MulMonotone(p.sharesToRedeemRaw, approved, rate);
  }

  /** The quote's own shares overshoot by at most one: the premise of the lemma above. */
  lemma QuotedShares(amount: nat, vault: VaultAdapter.VaultContext)
    requires VaultAdapter.SettlementQuoteFor(amount, vault).Success?
    ensures
      var quote := VaultAdapter.SettlementQuoteFor(amount, vault).value;
      quote.sharesToRedeemRaw * vault.exchangeRateScaled
      <= quote.requiredWithdrawRawUsdc * RATE_SCALE + vault.exchangeRateScaled
  {
  }

  predicate GrantCovers(s: LedgerState, t: LedgerState, key: PositionKey) {
    && key in t.positions
    && Covered(t.positions[key], t.positions[key].exchangeRateScaled, 0)
    && |t.payments| == |s.payments| + 1
    && TermsAt(t.payments[|s.payments|], t.positions[key].exchangeRateScaled)
  }

  lemma QuoteGrantCovers(s: LedgerState, input: PrepareInput, position: WalletPosition, chain: ChainQuote)
    requires PrepareOnQuote(s, input, position, chain).reply.Done?
    ensures GrantCovers(s, PrepareOnQuote(s, input, position, chain).state, input.key)
    ensures PrepareOnQuote(s, input, position, chain).state.positions[input.key].exchangeRateScaled
            == chain.vault.exchangeRateScaled
  {
    var quote := VaultAdapter.SettlementQuoteFor(input.amountRawUsdc, chain.vault).value;
    var working := WorkingPosition(position, chain);
    QuotedShares(input.amountRawUsdc, chain.vault);
    SnapshotGrantCovers(SavePosition(s, input.key, working), input, working, Some(quote));
  }

  /** Whatever happened before, right after a granted prepare the value covers every commitment with no allowance. */
  lemma GrantedPrepareCoversEverything(s: LedgerState, input: PrepareInput)
    requires PreparePayment(s, input).reply.Done?
    requires input.key in s.positions
    requires s.positions[input.key].stakedSharesRaw + s.positions[input.key].unstakedSharesRaw
             == s.positions[input.key].totalSharesRaw
    ensures GrantCovers(s, PreparePayment(s, input).state, input.key)
    ensures PreparePayment(s, input).state.positions[input.key].exchangeRateScaled
            == if input.quote.Some? then input.quote.value.vault.exchangeRateScaled
               else s.positions[input.key].exchangeRateScaled
  {
    var u := ExpirePreparedPayments(s, input.key);
    assert |u.payments| == |s.payments|;
    if input.quote.Some? {
      QuoteGrantCovers(u, input, u.positions[input.key], input.quote.value);
    } else {
      SnapshotGrantCovers(u, input, u.positions[input.key], None);
    }
  }

  lemma RefusedSnapshotSavesNothing(s: LedgerState, input: PrepareInput, working: WalletPosition,
                                    quote: Option<VaultAdapter.SettlementWithdrawQuote>)
    requires !PrepareOnSnapshot(s, input, working, quote).reply.Done?
    ensures PrepareOnSnapshot(s, input, working, quote).state == s
  {
  }

  lemma RefusedQuoteKeepsCover(s: LedgerState, input: PrepareInput, chain: ChainQuote, rate: nat, allowance: nat)
    requires input.key in s.positions && Covered(s.positions[input.key], rate, allowance)
    requires chain.vault.exchangeRateScaled == rate
    requires !PrepareOnQuote(s, input, s.positions[input.key], chain).reply.Done?
    ensures
      var t := PrepareOnQuote(s, input, s.positions[input.key], chain).state;
      input.key in t.positions && Covered(t.positions[input.key], rate, allowance)
  {
    var position := s.positions[input.key];
    var quote := VaultAdapter.SettlementQuoteFor(input.amountRawUsdc, chain.vault);
    if quote.Success? && chain.stakedSharesRaw + chain.unstakedSharesRaw == position.totalSharesRaw {
      var working := WorkingPosition(position, chain);
      RefusedSnapshotSavesNothing(SavePosition(s, input.key, working), input, working, Some(quote.value));
    }
  }

  lemma ExpiryKeepsCover(s: LedgerState, key: PositionKey, rate: nat, allowance: nat)
    requires key in s.positions && Covered(s.positions[key], rate, allowance)
    ensures
      var t := ExpirePreparedPayments(s, key);
      key in t.positions && Covered(t.positions[key], rate, allowance)
  {
    var t := ExpirePreparedPayments(s, key);
    if t != s {
      ReleasedPositionStaysCovered(s.positions[key], t.positions[key], rate, allowance);
    }
  }

  lemma RefusedPrepareKeepsCover(s: LedgerState, input: PrepareInput, rate: nat, allowance: nat)
    requires input.key in s.positions && Covered(s.positions[input.key], rate, allowance)
    requires input.quote.Some? ==> input.quote.value.vault.exchangeRateScaled == rate
    requires !PreparePayment(s, input).reply.Done?
    ensures
      var t := PreparePayment(s, input).state;
      input.key in t.positions && Covered(t.positions[input.key], rate, allowance)
  {
    var u := ExpirePreparedPayments(s, input.key);
    ExpiryKeepsCover(s, input.key, rate, allowance);
    RefusedPrepareStates(s, input);
    if input.quote.Some? && !PrepareOnQuote(u, input, u.positions[input.key], input.quote.value).reply.Done? {
      RefusedQuoteKeepsCover(u, input, input.quote.value, rate, allowance);
    }
  }

  lemma RefusedPrepareStates(s: LedgerState, input: PrepareInput)
    requires input.key in s.positions
    requires !PreparePayment(s, input).reply.Done?
    ensures
      var u := ExpirePreparedPayments(s, input.key);
      var t := PreparePayment(s, input).state;
      || t == s || t == u
      || (&& input.quote.Some?
          && !PrepareOnQuote(u, input, u.positions[input.key], input.quote.value).reply.Done?
          && t == PrepareOnQuote(u, input, u.positions[input.key], input.quote.value).state)
  {
    var u := ExpirePreparedPayments(s, input.key);
    if input.quote.None? && !PrepareOnSnapshot(u, input, u.positions[input.key], None).reply.Done? {
      RefusedSnapshotSavesNothing(u, input, u.positions[input.key], None);
    }
  }

  // ---- one step

  /** Steps on other positions leave this one alone. */
  lemma OtherPositionsUntouched(s: LedgerState, a: Action, key: PositionKey, rate: nat)
    requires key in s.positions && PaymentStepAt(s, a, key, rate)
    requires a.Register? || a.Sync? || a.StartDeposit? || a.FinalizeLanded? || a.Submit? || a.ReadStatus? || a.Abandon?
             || a.Tick? || (a.ReadBudget? && a.key != key)
    ensures key in Step(s, a).positions && Step(s, a).positions[key] == s.positions[key]
  {
  }

  lemma OtherKeyPrepareUntouched(s: LedgerState, input: PrepareInput, key: PositionKey)
    requires key in s.positions && input.key != key
    ensures
      var t := PreparePayment(s, input).state;
      key in t.positions && t.positions[key] == s.positions[key]
  {
    if input.key in s.positions {
      PrepareBumps(s, input);
      ExpiryBumps(s, input.key);
    }
  }

  lemma FinalizeKeepsCover(s: LedgerState, id: nat, result: SettlementResult, key: PositionKey, rate: nat,
                           allowance: nat)
    requires rate > 0 && SafeAt(s, key, rate, allowance)
    ensures
      var t := Step(s, Finalize(id, result));
      && key in t.positions
      && Covered(t.positions[key], rate, AllowanceAfter(s, Finalize(id, result), key, rate, allowance))
  {
    var found := PaymentIndex(s.payments, id);
    if found.Some? {
      var p := s.payments[found.value];
      var t := FinalizeSubmittedPayment(s, id, result).state;
      if p.key == key && HoldsReservation(p) && !p.status.PaymentPrepared? && ResultAcceptable(p, result) {
        SumCoversEach(s.payments, key, found.value);
        assert Slack(s, key) >= 0;
        SettlementCostsOneAllowance(s.positions[key], p, result, rate, allowance);
        assert t.positions[key] == ApplySettlementResult(s.positions[key], p, result);
      } else if p.key == key {
        assert t.positions[key] == s.positions[key] || t.positions[key] == FlagBaselineReset(s.positions[key]);
      } else {
        assert t.positions[key] == s.positions[key];
      }
    }
  }

  lemma SinglePaymentKeepsCover(s: LedgerState, a: Action, id: nat, key: PositionKey, rate: nat, allowance: nat)
    requires ActsOnPayment(a, id) && !a.Finalize?
    requires key in s.positions && Covered(s.positions[key], rate, allowance)
    requires Backed(s)
    ensures key in Step(s, a).positions && Covered(Step(s, a).positions[key], rate, allowance)
  {
    var found := PaymentIndex(s.payments, id);
    if found.Some? && (a.ExpirePayment? || a.Begin?) {
      var t := Step(s, a);
      SumCoversEach(s.payments, key, found.value);
      assert Slack(s, key) >= 0;
      var other := s.payments[found.value].key;
      assert t.positions == s.positions || t.positions == s.positions[other := t.positions[other]];
      if t.positions[key] != s.positions[key] {
        ReleasedPositionStaysCovered(s.positions[key], t.positions[key], rate, allowance);
      }
    }
  }

  lemma StepKeepsCover(s: LedgerState, a: Action, key: PositionKey, rate: nat, allowance: nat)
    requires rate > 0
    requires SafeAt(s, key, rate, allowance) && PaymentStepAt(s, a, key, rate)
    ensures key in Step(s, a).positions
            && Covered(Step(s, a).positions[key], rate, AllowanceAfter(s, a, key, rate, allowance))
  {
    match a
    case Prepare(input) =>
      if input.key != key {
        OtherKeyPrepareUntouched(s, input, key);
      } else if PreparePayment(s, input).reply.Done? {
        GrantedPrepareCoversEverything(s, input);
      } else {
        RefusedPrepareKeepsCover(s, input, rate, allowance);
      }
    case ReadBudget(k) => if k == key { ExpiryKeepsCover(s, key, rate, allowance); }
    case StartWithdrawal(input) => WithdrawalPositions(s, input);
    case ExpirePayment(id) => SinglePaymentKeepsCover(s, a, id, key, rate, allowance);
    case Begin(id, payload) => SinglePaymentKeepsCover(s, a, id, key, rate, allowance);
    case MarkSubmitted(id) => SinglePaymentKeepsCover(s, a, id, key, rate, allowance);
    case RecordPending(id, signature) => SinglePaymentKeepsCover(s, a, id, key, rate, allowance);
    case Finalize(id, result) => FinalizeKeepsCover(s, id, result, key, rate, allowance);
    case _ => OtherPositionsUntouched(s, a, key, rate);
  }

  lemma KeptPaymentsKeepTerms(before: seq<PaymentIntent>, after: seq<PaymentIntent>, key: PositionKey, rate: nat)
    requires PaymentsKept(before, after) && LiveTermsAt(before, key, rate)
    requires |after| > |before| && after[|before|].key == key ==> TermsAt(after[|before|], rate)
    requires |after| <= |before| + 1
    ensures LiveTermsAt(after, key, rate)
  {
    forall i | 0 <= i < |after| && after[i].key == key && HoldsReservation(after[i]) ensures TermsAt(after[i], rate) {
      if i < |before| {
        assert PaymentKept(before[i], after[i]);
      }
    }
  }

  lemma StepKeepsTerms(s: LedgerState, a: Action, key: PositionKey, rate: nat, allowance: nat)
    requires SafeAt(s, key, rate, allowance) && PaymentStepAt(s, a, key, rate)
    ensures LiveTermsAt(Step(s, a).payments, key, rate)
  {
    var t := Step(s, a);
    StepMovesPayments(s, a);
    if |t.payments| > |s.payments| && t.payments[|s.payments|].key == key {
      OnlyPrepareAppends(s, a);
      PrepareShape(s, a.payment);
      GrantedPrepareCoversEverything(s, a.payment);
    }
    KeptPaymentsKeepTerms(s.payments, t.payments, key, rate);
  }

  lemma OnlyPrepareAppends(s: LedgerState, a: Action)
    requires |Step(s, a).payments| > |s.payments|
    ensures a.Prepare? && PreparePayment(s, a.payment).reply.Done?
    ensures Step(s, a).payments[|s.payments|].key == a.payment.key
  {
    match a
    case Prepare(input) =>
      PrepareShape(s, input);
      assert |ExpirePreparedPayments(s, input.key).payments| == |s.payments|;
    case StartWithdrawal(input) => WithdrawalShape(s, input); ExpiryMovesPayments(s, input.key);
    case ReadBudget(k) => ExpiryMovesPayments(s, k);
    case ExpirePayment(id) => SinglePaymentMove(s, a, id);
    case Begin(id, payload) => SinglePaymentMove(s, a, id);
    case MarkSubmitted(id) => SinglePaymentMove(s, a, id);
    case RecordPending(id, signature) => SinglePaymentMove(s, a, id);
    case Finalize(id, result) => SinglePaymentMove(s, a, id);
    case _ =>
  }

  /**
    One payment step at the same rate: the allowance grows by one per settlement and clears with each granted
    prepare.
   */
  lemma StepKeepsPrincipalSafe(s: LedgerState, a: Action, key: PositionKey, rate: nat, allowance: nat)
    requires rate > 0
    requires SafeAt(s, key, rate, allowance) && PaymentStepAt(s, a, key, rate)
    ensures SafeAt(Step(s, a), key, rate, AllowanceAfter(s, a, key, rate, allowance))
  {
    StepKeepsStores(s, a);
    StepKeepsBacked(s, a);
    StepKeepsCover(s, a, key, rate, allowance);
    StepKeepsTerms(s, a, key, rate, allowance);
  }

  // ---- whole runs

  predicate PaymentRunAt(s: LedgerState, actions: seq<Action>, key: PositionKey, rate: nat)
    decreases |actions|
  {
    actions == []
    || (PaymentStepAt(s, actions[0], key, rate) && PaymentRunAt(Step(s, actions[0]), actions[1..], key, rate))
  }

  /** Settlements since the last granted prepare. */
  function SettledAfter(s: LedgerState, a: Action, key: PositionKey, settled: nat): nat {
    if GrantsAt(s, a, key) then 0 else if SettlesAt(s, a, key) then settled + 1 else settled
  }

  function SettledOver(s: LedgerState, actions: seq<Action>, key: PositionKey, settled: nat): nat
    decreases |actions|
  {
    if actions == [] then settled
    else SettledOver(Step(s, actions[0]), actions[1..], key, SettledAfter(s, actions[0], key, settled))
  }

  function AllowanceOver(s: LedgerState, actions: seq<Action>, key: PositionKey, rate: nat, allowance: nat): nat
    decreases |actions|
  {
    if actions == [] then allowance
    else AllowanceOver(Step(s, actions[0]), actions[1..], key, rate,
                       AllowanceAfter(s, actions[0], key, rate, allowance))
  }

  /** Repeated addition: a product kept out of the reasoning about runs. */
  function Times(count: nat, each: nat): nat {
    if count == 0 then 0 else each + Times(count - 1, each)
  }

  lemma {:induction false} TimesIsProduct(count: nat, each: nat)
    ensures Times(count, each) == count * each
  {
    if count > 0 {
      TimesIsProduct(count - 1, each);
      assert count * each == each + (count - 1) * each;
    }
  }

  lemma {:induction false} AllowanceIsDriftPerSettlement(
    s: LedgerState, actions: seq<Action>, key: PositionKey, rate: nat, settled: nat)
    ensures AllowanceOver(s, actions, key, rate, Times(settled, SettlementDrift(rate)))
            == Times(SettledOver(s, actions, key, settled), SettlementDrift(rate))
    decreases |actions|
  {
    if actions != [] {
      AllowanceIsDriftPerSettlement(Step(s, actions[0]), actions[1..], key, rate,
                                    SettledAfter(s, actions[0], key, settled));
    }
  }

  lemma {:induction false} PrincipalSafeOverRuns(
    s: LedgerState, actions: seq<Action>, key: PositionKey, rate: nat, allowance: nat)
    requires rate > 0
    requires SafeAt(s, key, rate, allowance) && PaymentRunAt(s, actions, key, rate)
    ensures SafeAt(RunAll(s, actions), key, rate, AllowanceOver(s, actions, key, rate, allowance))
    decreases |actions|
  {
    if actions != [] {
      StepKeepsPrincipalSafe(s, actions[0], key, rate, allowance);
      PrincipalSafeOverRuns(Step(s, actions[0]), actions[1..], key, rate,
                            AllowanceAfter(s, actions[0], key, rate, allowance));
    }
  }

  /**
    The product's promise.  Start from a reachable ledger whose position covers its principal (its live payments, if
    any, granted at its present rate) and run any payment steps at that rate: unless the position is blocked for a
    reset, its value never falls short of principal, buffer, reservations and fee debt by more than one allowance per
    settlement since the last granted prepare.
   */
  lemma PrincipalIsNeverSpent(now: int, before: seq<Action>, actions: seq<Action>, key: PositionKey)
    requires key in RunAll(Initial(now), before).positions
    requires
      var s := RunAll(Initial(now), before);
      && LiveTermsAt(s.payments, key, s.positions[key].exchangeRateScaled)
      && s.positions[key].exchangeRateScaled > 0
      && Covered(s.positions[key], s.positions[key].exchangeRateScaled, 0)
      && PaymentRunAt(s, actions, key, s.positions[key].exchangeRateScaled)
    ensures
      var s := RunAll(Initial(now), before);
      var rate := s.positions[key].exchangeRateScaled;
      var t := RunAll(s, actions);
      && key in t.positions
      && t.positions[key].exchangeRateScaled == rate
      && (t.positions[key].status.NeedsBaselineReset?
          || PositionValue(t.positions[key].totalSharesRaw, rate)
             + SettledOver(s, actions, key, 0) * SettlementDrift(rate) >= Committed(t.positions[key]))
  {
    var s := RunAll(Initial(now), before);
    ReachableStoresAreConsistent(now, before);
    RunsKeepTheBooks(Initial(now), before);
    PrincipalSafeOverRuns(s, actions, key, s.positions[key].exchangeRateScaled, 0);
    AllowanceIsDriftPerSettlement(s, actions, key, s.positions[key].exchangeRateScaled, 0);
    TimesIsProduct(SettledOver(s, actions, key, 0), SettlementDrift(s.positions[key].exchangeRateScaled));
  }
}
