/**
  The ledger's books: reservations match the payments that hold them, the event log rebuilds every principal, and a
  position never changes without a new version.
 */
module LedgerAccounting {
  import opened Wrappers
  import opened RawUnits
  import opened Models
  import opened Ledger
  import opened LedgerInvariants
  import VaultAdapter

  // ---- how the sums move with the store

  lemma {:induction false} SumAfterUpdate(payments: seq<PaymentIntent>, i: nat, q: PaymentIntent, key: PositionKey)
    requires i < |payments|
    ensures ReservedSum(payments[i := q], key)
            == ReservedSum(payments, key) - Holding(payments[i], key) + Holding(q, key)
    decreases |payments|
  {
    var last := |payments| - 1;
    if i == last {
      assert payments[i := q][..last] == payments[..last];
    } else {
      SumAfterUpdate(payments[..last], i, q, key);
      assert payments[i := q][..last] == payments[..last][i := q];
    }
  }

  lemma SumAfterAppend(before: seq<PaymentIntent>, after: seq<PaymentIntent>, key: PositionKey)
    requires |after| == |before| + 1 && after[..|before|] == before
    ensures ReservedSum(after, key) == ReservedSum(before, key) + Holding(after[|before|], key)
  {
  }

  lemma {:induction false} SumAfterExpiry(payments: seq<PaymentIntent>, key: PositionKey, now: int, other: PositionKey)
    ensures ReservedSum(ExpireDue(payments, key, now), other)
            == ReservedSum(payments, other) - if other == key then DueReservation(payments, key, now) else 0
    decreases |payments|
  {
    if payments != [] {
      var last := |payments| - 1;
      SumAfterExpiry(payments[..last], key, now, other);
      assert ExpireDue(payments, key, now)[..last] == ExpireDue(payments[..last], key, now);
    }
  }

  lemma {:induction false} NothingDue(payments: seq<PaymentIntent>, key: PositionKey, now: int)
    requires forall i | 0 <= i < |payments| :: !DueToExpire(payments[i], key, now)
    ensures DueReservation(payments, key, now) == 0
    decreases |payments|
  {
    if payments != [] {
      NothingDue(payments[..|payments| - 1], key, now);
    }
  }

  lemma {:induction false} SumAfterReset(payments: seq<PaymentIntent>, key: PositionKey, other: PositionKey)
    requires forall i | 0 <= i < |payments| :: !AwaitingSettlement(payments[i], key)
    ensures ReservedSum(ExpireAllPrepared(payments, key), other)
            == if other == key then 0 else ReservedSum(payments, other)
    decreases |payments|
  {
    if payments != [] {
      var last := |payments| - 1;
      SumAfterReset(payments[..last], key, other);
      assert ExpireAllPrepared(payments, key)[..last] == ExpireAllPrepared(payments[..last], key);
    }
  }

  lemma {:induction false} StrangersHoldNothing(payments: seq<PaymentIntent>, key: PositionKey)
    requires forall i | 0 <= i < |payments| :: payments[i].key != key
    ensures ReservedSum(payments, key) == 0
    decreases |payments|
  {
    if payments != [] {
      StrangersHoldNothing(payments[..|payments| - 1], key);
    }
  }

  lemma {:induction false} SumCoversEach(payments: seq<PaymentIntent>, key: PositionKey, i: nat)
    requires i < |payments|
    ensures Holding(payments[i], key) <= ReservedSum(payments, key)
    decreases |payments|
  {
    if i < |payments| - 1 {
      SumCoversEach(payments[..|payments| - 1], key, i);
    }
  }

  lemma {:induction false} SumCoversDue(payments: seq<PaymentIntent>, key: PositionKey, now: int)
    ensures DueReservation(payments, key, now) <= ReservedSum(payments, key)
    decreases |payments|
  {
    if payments != [] {
      SumCoversDue(payments[..|payments| - 1], key, now);
    }
  }

  // ---- reservations

  function ReservedOf(s: LedgerState, key: PositionKey): nat {
    if key in s.positions then s.positions[key].reservedRawUsdc else 0
  }

  /** What a position reserves beyond the payments that hold a reservation. */
  function Slack(s: LedgerState, key: PositionKey): int {
    ReservedOf(s, key) - ReservedSum(s.payments, key)
  }

  ghost predicate Backed(s: LedgerState) {
    forall key :: Slack(s, key) >= 0
  }

  ghost predicate Exact(s: LedgerState) {
    forall key :: Slack(s, key) == 0
  }

  /** The sync is accepted and runs the conservative reset. */
  predicate ResetsBaseline(s: LedgerState, a: Action, key: PositionKey) {
    && a.Sync? && a.key == key && key in s.positions
    && RunsConservativeReset(s.positions[key], a.sync)
    && !SyncIsStale(s.positions[key], a.sync) && SharesAddUp(s.positions[key], a.sync) && a.sync.exchangeRateScaled > 0
    && !FlowSubmittedFor(s, key) && !SettlementActiveFor(s, key)
  }

  /** Nothing holds the position once its due payments have expired: no payment is live and no flow is pending. */
  predicate FreeOnceExpired(s: LedgerState, key: PositionKey) {
    && (forall i | 0 <= i < |s.payments| && s.payments[i].key == key && HoldsReservation(s.payments[i]) ::
          DueToExpire(s.payments[i], key, s.now))
    && !AnyFlowPending(s, key)
  }

  /** The way of a withdrawal to the branch that finds shares moved outside the ledger. */
  predicate FindsMovedShares(s: LedgerState, input: WithdrawalInput) {
    && FlowIndex(s.flows, input.flowId).None?
    && input.key in s.positions
    && SigningRefusal(s.positions[input.key], input.production).None?
    && FreeOnceExpired(s, input.key)
    && input.mandateAllows
    && OnchainShares(input) != s.positions[input.key].totalSharesRaw
  }

  /** In that branch a withdrawal stores the copy of the position it read before expiring payments. */
  predicate WritesBackStaleCopy(s: LedgerState, a: Action, key: PositionKey) {
    a.StartWithdrawal? && a.withdrawal.key == key && FindsMovedShares(s, a.withdrawal)
  }

  lemma SweepKeepsPending(s: LedgerState, key: PositionKey)
    ensures AnyFlowPending(s.(flows := ExpireStaleFlows(s.flows, key, s.now)), key) <==> AnyFlowPending(s, key)
  {
    var swept := ExpireStaleFlows(s.flows, key, s.now);
    assert forall i | 0 <= i < |s.flows| :: FlowPending(swept[i], s.now) <==> FlowPending(s.flows[i], s.now);
  }

  lemma ExpiryLeavesLive(s: LedgerState, key: PositionKey)
    requires key in s.positions
    ensures
      var t := ExpirePreparedPayments(s, key);
      (forall i | 0 <= i < |s.payments| && s.payments[i].key == key && HoldsReservation(s.payments[i]) ::
         DueToExpire(s.payments[i], key, s.now))
      <==> !SettlementActiveFor(t, key)
           && !exists i :: 0 <= i < |t.payments| && t.payments[i].key == key && t.payments[i].status.PaymentPrepared?
  {
    var t := ExpirePreparedPayments(s, key);
    forall i | 0 <= i < |s.payments|
      ensures t.payments[i].key == s.payments[i].key
      ensures t.payments[i].key == key ==>
                (HoldsReservation(t.payments[i])
                 <==> HoldsReservation(s.payments[i]) && !DueToExpire(s.payments[i], key, s.now))
      ensures t.payments[i].key == key ==>
                (HoldsReservation(t.payments[i]) <==>
                 AwaitingSettlement(t.payments[i], key) || t.payments[i].status.PaymentPrepared?)
    {
    }
  }

  /** The guards say exactly when a withdrawal is refused for a baseline reset. */
  lemma MovedSharesRefuse(s: LedgerState, input: WithdrawalInput)
    ensures PrepareWithdrawal(s, input).reply == Refused(BaselineResetNeeded) <==> FindsMovedShares(s, input)
  {
    if input.key in s.positions {
      var s1 := ExpirePreparedPayments(s, input.key);
      var u := s1.(flows := ExpireStaleFlows(s1.flows, input.key, s1.now));
      ExpiryLeavesLive(s, input.key);
      SweepKeepsPending(s1, input.key);
      ApprovalShape(u, input, s.positions[input.key]);
    }
  }

  lemma ExpiryKeepsSlack(s: LedgerState, key: PositionKey, other: PositionKey)
    requires Backed(s)
    ensures Slack(ExpirePreparedPayments(s, key), other) == Slack(s, other)
    ensures key in s.positions ==>
              ReservedOf(ExpirePreparedPayments(s, key), key)
              == ReservedOf(s, key) - DueReservation(s.payments, key, s.now)
  {
    SumAfterExpiry(s.payments, key, s.now, other);
    SumCoversDue(s.payments, key, s.now);
    assert Slack(s, key) >= 0;
    if key in s.positions && forall i | 0 <= i < |s.payments| :: !DueToExpire(s.payments[i], key, s.now) {
      NothingDue(s.payments, key, s.now);
    }
  }

  lemma SnapshotKeepsSlack(s: LedgerState, input: PrepareInput, working: WalletPosition,
                           quote: Option<VaultAdapter.SettlementWithdrawQuote>, other: PositionKey)
    requires input.key in s.positions && s.positions[input.key] == working
    ensures Slack(PrepareOnSnapshot(s, input, working, quote).state, other) == Slack(s, other)
  {
    var outcome := PrepareOnSnapshot(s, input, working, quote);
    if outcome.reply.Done? {
      var p := outcome.state.payments[|outcome.state.payments| - 1];
      assert outcome.state.payments == s.payments + [p];
      SumAfterAppend(s.payments, outcome.state.payments, other);
    }
  }

  lemma PrepareKeepsSlack(s0: LedgerState, input: PrepareInput, other: PositionKey)
    requires Backed(s0)
    ensures Slack(PreparePayment(s0, input).state, other) == Slack(s0, other)
  {
    var s := ExpirePreparedPayments(s0, input.key);
    ExpiryKeepsSlack(s0, input.key, other);
    if input.key in s.positions {
      var position := s.positions[input.key];
      SnapshotKeepsSlack(s, input, position, None, other);
      if input.quote.Some? {
        QuoteKeepsSlack(s, input, position, input.quote.value, other);
      }
    }
  }

  lemma QuoteKeepsSlack(s: LedgerState, input: PrepareInput, position: WalletPosition, chain: ChainQuote,
                        other: PositionKey)
    requires input.key in s.positions && s.positions[input.key] == position
    ensures Slack(PrepareOnQuote(s, input, position, chain).state, other) == Slack(s, other)
  {
    var quote := VaultAdapter.SettlementQuoteFor(input.amountRawUsdc, chain.vault);
    if quote.Success? && chain.stakedSharesRaw + chain.unstakedSharesRaw == position.totalSharesRaw {
      var working := WorkingPosition(position, chain);
      var u := SavePosition(s, input.key, working);
      SnapshotKeepsSlack(u, input, working, Some(quote.value), other);
    }
  }

  /** One payment moves on: its position releases exactly what the payment stops holding, so no clamp to zero bites. */
  predicate Releases(s: LedgerState, t: LedgerState, i: nat)
    requires i < |s.payments|
  {
    var p := s.payments[i];
    && |t.payments| == |s.payments|
    && t.payments == s.payments[i := t.payments[i]]
    && t.payments[i].key == p.key
    && t.payments[i].reservationRawUsdc == p.reservationRawUsdc
    && t.positions.Keys == s.positions.Keys
    && (forall key | key in s.positions && key != p.key :: t.positions[key] == s.positions[key])
    && (p.key in s.positions ==>
          t.positions[p.key].reservedRawUsdc
          == ClampToZero(s.positions[p.key].reservedRawUsdc - (Holding(p, p.key) - Holding(t.payments[i], p.key))))
  }

  lemma ReleaseKeepsSlack(s: LedgerState, t: LedgerState, i: nat, other: PositionKey)
    requires i < |s.payments| && Releases(s, t, i)
    requires Backed(s) && RecordsHavePositions(s)
    ensures Slack(t, other) == Slack(s, other)
  {
    var p := s.payments[i];
    SumAfterUpdate(s.payments, i, t.payments[i], other);
    SumCoversEach(s.payments, p.key, i);
    assert Slack(s, p.key) >= 0;
    assert p.key in s.positions;
  }

  lemma FinalizeReleases(s: LedgerState, id: nat, result: SettlementResult)
    requires PaymentIndex(s.payments, id).Some?
    ensures
      var t := FinalizeSubmittedPayment(s, id, result).state;
      t == s || Releases(s, t, PaymentIndex(s.payments, id).value)
  {
    var i := PaymentIndex(s.payments, id).value;
    var p := s.payments[i];
    var t := FinalizeSubmittedPayment(s, id, result).state;
    assert t.payments == s.payments[i := t.payments[i]];
    if p.key in s.positions && ResultAcceptable(p, result) {
      assert ApplySettlementResult(s.positions[p.key], p, result).reservedRawUsdc
             == ClampToZero(s.positions[p.key].reservedRawUsdc - p.reservationRawUsdc);
    }
  }

  lemma SinglePaymentReleases(s: LedgerState, a: Action, id: nat)
    requires ActsOnPayment(a, id) && !a.Finalize?
    requires PaymentIndex(s.payments, id).Some?
    ensures Step(s, a) == s || Releases(s, Step(s, a), PaymentIndex(s.payments, id).value)
  {
    var i := PaymentIndex(s.payments, id).value;
    assert Step(s, a).payments == s.payments[i := Step(s, a).payments[i]];
  }

  lemma SinglePaymentKeepsSlack(s: LedgerState, a: Action, id: nat, other: PositionKey)
    requires ActsOnPayment(a, id)
    requires Backed(s) && RecordsHavePositions(s)
    ensures Slack(Step(s, a), other) == Slack(s, other)
  {
    var found := PaymentIndex(s.payments, id);
    if found.Some? {
      if a.Finalize? {
        FinalizeReleases(s, id, a.result);
      } else {
        SinglePaymentReleases(s, a, id);
      }
      if Step(s, a) != s {
        ReleaseKeepsSlack(s, Step(s, a), found.value, other);
      }
    }
  }

  lemma SyncKeepsSlack(s: LedgerState, key: PositionKey, input: SyncInput, other: PositionKey)
    ensures Slack(SyncWalletPosition(s, key, input).state, other)
            == if ResetsBaseline(s, Sync(key, input), other) then 0 else Slack(s, other)
  {
    var outcome := SyncWalletPosition(s, key, input);
    if outcome.reply.Done? && RunsConservativeReset(s.positions[key], input) {
      SumAfterReset(s.payments, key, other);
    }
  }

  lemma WithdrawalKeepsSlack(s0: LedgerState, input: WithdrawalInput, other: PositionKey)
    requires Backed(s0)
    ensures Slack(PrepareWithdrawal(s0, input).state, other)
            == Slack(s0, other)
               + if WritesBackStaleCopy(s0, StartWithdrawal(input), other)
                 then DueReservation(s0.payments, other, s0.now) else 0
  {
    var s := ExpirePreparedPayments(s0, input.key);
    ExpiryKeepsSlack(s0, input.key, other);
    ExpiryKeepsSlack(s0, input.key, input.key);
    var outcome := PrepareWithdrawal(s0, input);
    WithdrawalShape(s0, input);
    WithdrawalPositions(s0, input);
    MovedSharesRefuse(s0, input);
  }

  lemma WithdrawalPositions(s0: LedgerState, input: WithdrawalInput)
    ensures
      var s := ExpirePreparedPayments(s0, input.key);
      var outcome := PrepareWithdrawal(s0, input);
      if outcome.reply == Refused(BaselineResetNeeded) then
        && input.key in s0.positions
        && outcome.state.payments == s.payments
        && outcome.state.positions == s.positions[input.key := FlagBaselineReset(s0.positions[input.key])]
        && (exists shares: int :: outcome.state.events == s.events + [SyncEvent(input.key, shares, 0)])
      else
        outcome.state == s0 || (outcome.state.payments == s.payments && outcome.state.positions == s.positions
                                && outcome.state.events == s.events)
  {
    var outcome := PrepareWithdrawal(s0, input);
    if outcome.reply == Refused(BaselineResetNeeded) {
      var shares := OnchainShares(input) - s0.positions[input.key].totalSharesRaw;
      assert outcome.state.events == s0.events + [SyncEvent(input.key, shares, 0)];
    }
  }

  lemma FlowStepKeepsSlack(s: LedgerState, a: Action, other: PositionKey)
    requires a.StartDeposit? || a.Submit? || a.ReadStatus? || a.Abandon? || a.FinalizeLanded?
    ensures Slack(Step(s, a), other) == Slack(s, other)
  {
    if a.FinalizeLanded? {
      LandedFlowKeepsReserved(s, a.flowId, a.landed, other);
    }
  }

  lemma LandedFlowKeepsReserved(s: LedgerState, id: nat, landed: LandedFlow, other: PositionKey)
    ensures FinalizeFlow(s, id, landed).state.payments == s.payments
    ensures ReservedOf(FinalizeFlow(s, id, landed).state, other) == ReservedOf(s, other)
  {
  }

  /**
    The whole story of reservations: a step leaves reserved minus held exactly where it was, except that a
    conservative reset zeroes it and a stale write-back adds what the expiry had just released.
   */
  lemma StepMovesSlackExactly(s: LedgerState, a: Action, key: PositionKey)
    requires Backed(s) && StoresConsistent(s)
    ensures Slack(Step(s, a), key)
            == if ResetsBaseline(s, a, key) then 0
               else if WritesBackStaleCopy(s, a, key) then Slack(s, key) + DueReservation(s.payments, key, s.now)
               else Slack(s, key)
  {
    match a
    case Prepare(input) => PrepareKeepsSlack(s, input, key);
    case ReadBudget(k) => ExpiryKeepsSlack(s, k, key);
    case StartWithdrawal(input) => WithdrawalKeepsSlack(s, input, key);
    case ExpirePayment(id) => SinglePaymentKeepsSlack(s, a, id, key);
    case Begin(id, payload) => SinglePaymentKeepsSlack(s, a, id, key);
    case MarkSubmitted(id) => SinglePaymentKeepsSlack(s, a, id, key);
    case RecordPending(id, signature) => SinglePaymentKeepsSlack(s, a, id, key);
    case Finalize(id, result) => SinglePaymentKeepsSlack(s, a, id, key);
    case Sync(k, sync) => SyncKeepsSlack(s, k, sync, key);
    case Register(k, registration) =>
      if k !in s.positions {
        StrangersHoldNothing(s.payments, k);
      }
    case Tick(elapsed) =>
    case _ => FlowStepKeepsSlack(s, a, key);
  }

  lemma StepKeepsBacked(s: LedgerState, a: Action)
    requires Backed(s) && StoresConsistent(s)
    ensures Backed(Step(s, a))
  {
    forall key ensures Slack(Step(s, a), key) >= 0 {
      StepMovesSlackExactly(s, a, key);
    }
  }

  /** The withdrawal that over-reserves: it finds moved shares after releasing the reservation of a due payment. */
  predicate WritesBackReleased(s: LedgerState, a: Action) {
    && a.StartWithdrawal?
    && FindsMovedShares(s, a.withdrawal)
    && DueReservation(s.payments, a.withdrawal.key, s.now) > 0
  }

  /**
    From exact books, a step leaves them inexact exactly when it prepares a withdrawal of a position that nothing
    holds but due payments with a reservation, and whose shares on chain are not the ledger's.
   */
  lemma BooksStayExactUnlessWrittenBack(s: LedgerState, a: Action)
    requires Exact(s) && StoresConsistent(s)
    ensures !Exact(Step(s, a))
            <==> WritesBackReleased(s, a)
  {
    forall key
      ensures Slack(Step(s, a), key)
              == if WritesBackStaleCopy(s, a, key) then DueReservation(s.payments, key, s.now) else 0
    {
      StepMovesSlackExactly(s, a, key);
    }
    if WritesBackReleased(s, a) {
      assert Slack(Step(s, a), a.withdrawal.key) > 0;
    }
  }

  predicate NeverWritesBack(s: LedgerState, actions: seq<Action>)
    decreases |actions|
  {
    actions == [] || (!WritesBackReleased(s, actions[0]) && NeverWritesBack(Step(s, actions[0]), actions[1..]))
  }

  lemma {:induction false} RunsKeepTheBooks(s: LedgerState, actions: seq<Action>)
    requires StoresConsistent(s) && Backed(s)
    ensures Backed(RunAll(s, actions))
    ensures Exact(s) && NeverWritesBack(s, actions) ==> Exact(RunAll(s, actions))
    decreases |actions|
  {
    if actions != [] {
      var u := Step(s, actions[0]);
      StepKeepsStores(s, actions[0]);
      StepKeepsBacked(s, actions[0]);
      if Exact(s) {
        BooksStayExactUnlessWrittenBack(s, actions[0]);
      }
      RunsKeepTheBooks(u, actions[1..]);
    }
  }

  /**
    In every reachable state a position reserves at least what its prepared and submitted payments hold, and exactly
    that when no withdrawal of the run wrote back what its expiry had released.
   */
  lemma ReachableReservationsAreBacked(now: int, actions: seq<Action>, key: PositionKey)
    requires key in RunAll(Initial(now), actions).positions
    ensures
      var t := RunAll(Initial(now), actions);
      && t.positions[key].reservedRawUsdc >= ReservedSum(t.payments, key)
      && (NeverWritesBack(Initial(now), actions) ==> t.positions[key].reservedRawUsdc == ReservedSum(t.payments, key))
  {
    RunsKeepTheBooks(Initial(now), actions);
    assert Slack(RunAll(Initial(now), actions), key) >= 0;
    assert NeverWritesBack(Initial(now), actions) ==> Slack(RunAll(Initial(now), actions), key) == 0;
  }

  // ---- the event log

  function PrincipalOf(s: LedgerState, key: PositionKey): nat {
    if key in s.positions then s.positions[key].principalBasisRawUsdc else 0
  }

  ghost predicate LogExplains(s: LedgerState) {
    forall key :: PrincipalReplay(s.events, key) == PrincipalOf(s, key)
  }

  /** A step logs nothing and moves no principal, or logs one event carrying the one principal change. */
  ghost predicate LogsItsChange(s: LedgerState, t: LedgerState) {
    || (t.events == s.events && forall key :: PrincipalOf(t, key) == PrincipalOf(s, key))
    || (&& |t.events| == |s.events| + 1
        && t.events[..|s.events|] == s.events
        && forall key ::
             PrincipalOf(t, key)
             == PrincipalOf(s, key)
                + if key == t.events[|s.events|].key then t.events[|s.events|].deltaPrincipalRawUsdc else 0)
  }

  lemma LoggedChangesReplay(s: LedgerState, t: LedgerState)
    requires LogsItsChange(s, t) && LogExplains(s)
    ensures LogExplains(t)
  {
    if |t.events| == |s.events| + 1 {
      forall key ensures PrincipalReplay(t.events, key) == PrincipalOf(t, key) {
        assert PrincipalReplay(s.events, key) == PrincipalOf(s, key);
      }
    }
  }

  lemma AppendsOneEvent(s: LedgerState, t: LedgerState, event: SyncEvent)
    requires t.events == s.events + [event]
    requires forall key :: PrincipalOf(t, key)
                           == PrincipalOf(s, key) + if key == event.key then event.deltaPrincipalRawUsdc else 0
    ensures LogsItsChange(s, t)
  {
  }

  lemma PrepareLogsItsChange(s0: LedgerState, input: PrepareInput)
    ensures LogsItsChange(s0, PreparePayment(s0, input).state)
  {
    var s := ExpirePreparedPayments(s0, input.key);
    if input.key in s.positions {
      var position := s.positions[input.key];
      SnapshotLogsNothing(s, input, position, None);
      if input.quote.Some? {
        QuoteLogsItsChange(s, input, position, input.quote.value);
      }
    }
  }

  lemma SnapshotLogsNothing(s: LedgerState, input: PrepareInput, working: WalletPosition,
                            quote: Option<VaultAdapter.SettlementWithdrawQuote>)
    requires input.key in s.positions && s.positions[input.key] == working
    ensures
      var t := PrepareOnSnapshot(s, input, working, quote).state;
      t.events == s.events && forall key :: PrincipalOf(t, key) == PrincipalOf(s, key)
  {
  }

  lemma QuoteLogsItsChange(s: LedgerState, input: PrepareInput, position: WalletPosition, chain: ChainQuote)
    requires input.key in s.positions && s.positions[input.key] == position
    ensures LogsItsChange(s, PrepareOnQuote(s, input, position, chain).state)
  {
    var quote := VaultAdapter.SettlementQuoteFor(input.amountRawUsdc, chain.vault);
    if quote.Success? {
      var shares := chain.stakedSharesRaw + chain.unstakedSharesRaw;
      if shares == position.totalSharesRaw {
        var working := WorkingPosition(position, chain);
        SnapshotLogsNothing(SavePosition(s, input.key, working), input, working, Some(quote.value));
      } else {
        AppendsOneEvent(s, PrepareOnQuote(s, input, position, chain).state,
                        SyncEvent(input.key, shares - position.totalSharesRaw, 0));
      }
    }
  }

  lemma FinalizeLogsItsChange(s: LedgerState, id: nat, result: SettlementResult)
    ensures LogsItsChange(s, FinalizeSubmittedPayment(s, id, result).state)
  {
    var found := PaymentIndex(s.payments, id);
    if found.Some? {
      var p := s.payments[found.value];
      var t := FinalizeSubmittedPayment(s, id, result).state;
      assert forall key :: PrincipalOf(t, key) == PrincipalOf(s, key);
      if t.events != s.events {
        AppendsOneEvent(s, t, t.events[|s.events|]);
      }
    }
  }

  lemma LandedFlowLogsItsChange(s: LedgerState, id: nat, landed: LandedFlow)
    ensures LogsItsChange(s, FinalizeFlow(s, id, landed).state)
  {
    var t := FinalizeFlow(s, id, landed).state;
    if t.events != s.events {
      AppendsOneEvent(s, t, t.events[|s.events|]);
    }
  }

  lemma WithdrawalLogsItsChange(s0: LedgerState, input: WithdrawalInput)
    ensures LogsItsChange(s0, PrepareWithdrawal(s0, input).state)
  {
    WithdrawalPositions(s0, input);
    var t := PrepareWithdrawal(s0, input).state;
    if PrepareWithdrawal(s0, input).reply == Refused(BaselineResetNeeded) {
      AppendsOneEvent(s0, t, t.events[|s0.events|]);
    }
  }

  lemma SyncLogsItsChange(s: LedgerState, key: PositionKey, input: SyncInput)
    ensures LogsItsChange(s, SyncWalletPosition(s, key, input).state)
  {
    var t := SyncWalletPosition(s, key, input).state;
    if t.events != s.events {
      AppendsOneEvent(s, t, t.events[|s.events|]);
    }
  }

  lemma DepositLogsItsChange(s: LedgerState, input: DepositInput)
    ensures LogsItsChange(s, PrepareDeposit(s, input).state)
  {
    var t := PrepareDeposit(s, input).state;
    if t.events != s.events {
      AppendsOneEvent(s, t, t.events[|s.events|]);
    }
  }

  lemma SilentSteps(s: LedgerState, a: Action)
    requires a.Tick? || a.Register? || a.ReadBudget? || a.ExpirePayment? || a.Begin?
             || a.MarkSubmitted? || a.RecordPending? || a.Submit? || a.ReadStatus? || a.Abandon?
    ensures LogsItsChange(s, Step(s, a))
  {
  }

  lemma StepLogsItsChange(s: LedgerState, a: Action)
    ensures LogsItsChange(s, Step(s, a))
  {
    match a
    case Prepare(input) => PrepareLogsItsChange(s, input);
    case Sync(key, sync) => SyncLogsItsChange(s, key, sync);
    case StartDeposit(input) => DepositLogsItsChange(s, input);
    case StartWithdrawal(input) => WithdrawalLogsItsChange(s, input);
    case Finalize(id, result) => FinalizeLogsItsChange(s, id, result);
    case FinalizeLanded(id, landed) => LandedFlowLogsItsChange(s, id, landed);
    case _ => SilentSteps(s, a);
  }

  lemma {:induction false} RunsKeepTheLog(s: LedgerState, actions: seq<Action>)
    requires LogExplains(s)
    ensures LogExplains(RunAll(s, actions))
    decreases |actions|
  {
    if actions != [] {
      StepLogsItsChange(s, actions[0]);
      LoggedChangesReplay(s, Step(s, actions[0]));
      RunsKeepTheLog(Step(s, actions[0]), actions[1..]);
    }
  }

  /** Replaying the event log reproduces every principal, in every reachable state. */
  lemma ReplayReproducesPrincipal(now: int, actions: seq<Action>, key: PositionKey)
    requires key in RunAll(Initial(now), actions).positions
    ensures
      var t := RunAll(Initial(now), actions);
      PrincipalReplay(t.events, key) == t.positions[key].principalBasisRawUsdc
  {
    RunsKeepTheLog(Initial(now), actions);
    var t := RunAll(Initial(now), actions);
    assert PrincipalReplay(t.events, key) == PrincipalOf(t, key);
  }

  // ---- versions

  /** Versions never fall, and an unchanged version means an unchanged position. */
  predicate VersionsWitness(s: LedgerState, t: LedgerState) {
    forall key | key in s.positions ::
      && key in t.positions
      && t.positions[key].version >= s.positions[key].version
      && (t.positions[key].version == s.positions[key].version ==> t.positions[key] == s.positions[key])
  }

  /** Either no position moved, or only this one, to a higher version. */
  predicate BumpsOnly(s: LedgerState, t: LedgerState, key: PositionKey) {
    || t.positions == s.positions
    || (&& key in s.positions && key in t.positions
        && t.positions == s.positions[key := t.positions[key]]
        && t.positions[key].version > s.positions[key].version)
  }

  lemma SnapshotBumps(s: LedgerState, input: PrepareInput, working: WalletPosition,
                      quote: Option<VaultAdapter.SettlementWithdrawQuote>)
    requires input.key in s.positions && s.positions[input.key] == working
    ensures BumpsOnly(s, PrepareOnSnapshot(s, input, working, quote).state, input.key)
  {
  }

  lemma QuoteBumps(s: LedgerState, input: PrepareInput, position: WalletPosition, chain: ChainQuote)
    requires input.key in s.positions && s.positions[input.key] == position
    ensures BumpsOnly(s, PrepareOnQuote(s, input, position, chain).state, input.key)
  {
    var quote := VaultAdapter.SettlementQuoteFor(input.amountRawUsdc, chain.vault);
    if quote.Success? && chain.stakedSharesRaw + chain.unstakedSharesRaw == position.totalSharesRaw {
      var working := WorkingPosition(position, chain);
      SnapshotBumps(SavePosition(s, input.key, working), input, working, Some(quote.value));
    }
  }

  lemma BumpsCompose(s: LedgerState, u: LedgerState, t: LedgerState, key: PositionKey)
    requires BumpsOnly(s, u, key) && BumpsOnly(u, t, key)
    ensures VersionsWitness(s, t)
  {
  }

  lemma PrepareBumpsVersions(s0: LedgerState, input: PrepareInput)
    ensures VersionsWitness(s0, PreparePayment(s0, input).state)
  {
    if input.key in s0.positions {
      PrepareBumps(s0, input);
      ExpiryBumps(s0, input.key);
      BumpsCompose(s0, s0, s0, input.key);
      if PreparePayment(s0, input).state != s0 {
        BumpsCompose(s0, ExpirePreparedPayments(s0, input.key), PreparePayment(s0, input).state, input.key);
      }
    }
  }

  lemma ExpiryBumps(s: LedgerState, key: PositionKey)
    ensures BumpsOnly(s, ExpirePreparedPayments(s, key), key)
  {
  }

  lemma PrepareBumps(s0: LedgerState, input: PrepareInput)
    requires input.key in s0.positions
    ensures
      var s := ExpirePreparedPayments(s0, input.key);
      PreparePayment(s0, input).state == s0 || BumpsOnly(s, PreparePayment(s0, input).state, input.key)
  {
    var s := ExpirePreparedPayments(s0, input.key);
    SnapshotBumps(s, input, s.positions[input.key], None);
    if input.quote.Some? {
      QuoteBumps(s, input, s.positions[input.key], input.quote.value);
    }
    PreparedStates(s0, input);
  }

  lemma PreparedStates(s0: LedgerState, input: PrepareInput)
    requires input.key in s0.positions
    ensures
      var s := ExpirePreparedPayments(s0, input.key);
      var t := PreparePayment(s0, input).state;
      || t == s0 || t == s
      || t == PrepareOnSnapshot(s, input, s.positions[input.key], None).state
      || (input.quote.Some? && t == PrepareOnQuote(s, input, s.positions[input.key], input.quote.value).state)
  {
  }

  lemma FlowStatusBumpsNothing(s: LedgerState, a: Action)
    requires a.Submit? || a.ReadStatus? || a.Abandon? || a.Tick?
    ensures Step(s, a).positions == s.positions
  {
  }

  lemma DepositBumps(s: LedgerState, input: DepositInput)
    ensures VersionsWitness(s, PrepareDeposit(s, input).state)
  {
  }

  lemma LandedFlowBumps(s: LedgerState, id: nat, landed: LandedFlow)
    ensures VersionsWitness(s, FinalizeFlow(s, id, landed).state)
  {
  }

  lemma PositionStepBumps(s: LedgerState, a: Action)
    requires a.Register? || a.Sync? || a.ReadBudget?
    ensures VersionsWitness(s, Step(s, a))
  {
  }

  lemma SinglePaymentBumps(s: LedgerState, a: Action)
    requires a.ExpirePayment? || a.Begin? || a.MarkSubmitted? || a.RecordPending?
    ensures VersionsWitness(s, Step(s, a))
  {
  }

  lemma StepBumpsVersions(s: LedgerState, a: Action)
    ensures VersionsWitness(s, Step(s, a))
  {
    match a
    case Prepare(input) => PrepareBumpsVersions(s, input);
    case StartDeposit(input) => DepositBumps(s, input);
    case StartWithdrawal(input) => WithdrawalPositions(s, input);
    case Finalize(id, result) => FinalizeBumpsVersions(s, id, result);
    case FinalizeLanded(id, landed) => LandedFlowBumps(s, id, landed);
    case Register(key, registration) => PositionStepBumps(s, a);
    case Sync(key, sync) => PositionStepBumps(s, a);
    case ReadBudget(key) => PositionStepBumps(s, a);
    case Tick(elapsed) => FlowStatusBumpsNothing(s, a);
    case Submit(id, _) => FlowStatusBumpsNothing(s, a);
    case ReadStatus(id) => FlowStatusBumpsNothing(s, a);
    case Abandon(id) => FlowStatusBumpsNothing(s, a);
    case _ => SinglePaymentBumps(s, a);
  }

  lemma FinalizeBumpsVersions(s: LedgerState, id: nat, result: SettlementResult)
    ensures VersionsWitness(s, FinalizeSubmittedPayment(s, id, result).state)
  {
    var found := PaymentIndex(s.payments, id);
    if found.Some? {
      var p := s.payments[found.value];
      var t := FinalizeSubmittedPayment(s, id, result).state;
      if p.key in s.positions {
        assert t.positions == s.positions || t.positions == s.positions[p.key := t.positions[p.key]];
        assert t.positions == s.positions || t.positions[p.key].version == s.positions[p.key].version + 1;
      }
    }
  }

  /** Over every run: a caller that holds the lock to read, and later sees that version, sees that very position. */
  lemma {:induction false} RunsWitnessVersions(s: LedgerState, actions: seq<Action>)
    ensures VersionsWitness(s, RunAll(s, actions))
    decreases |actions|
  {
    if actions != [] {
      StepBumpsVersions(s, actions[0]);
      RunsWitnessVersions(Step(s, actions[0]), actions[1..]);
    }
  }

  // ---- the write-back happens

  function WitnessKey(): PositionKey {
    PositionKey("wallet", "vault")
  }

  function WitnessRequest(): SellerRequest {
    SellerRequest("seller", "request")
  }

  /** Register, sync a hundred shares at cost fifty, prepare a payment, and let it fall due. */
  function WitnessHistory(): seq<Action> {
    [Register(WitnessKey(), RegisterInput("policy", Some(false), Some(true), Some(true), None, false)),
     Sync(WitnessKey(), SyncInput(None, None, 100, Some(0), Some(100), RATE_SCALE, 100, Some(50), Some(SublyReceipts),
                                  false)),
     Prepare(PrepareInput(true, 1, WitnessKey(), WitnessRequest(), "binding", 10, Some(LiquidityPolicy(true, 10, 0)),
                          None, 0, Some(10), 5)),
     Tick(9)]
  }

  function SyncedWitness(): WalletPosition {
    WalletPosition(Some("policy"), false, true, true, 0, 100, 100, RATE_SCALE, 100, 50, SublyReceipts, 0, 0, 0, None, 2,
                   Active)
  }

  function WitnessPosition(): WalletPosition {
    SyncedWitness().(reservedRawUsdc := 10, version := 3)
  }

  function WitnessPayment(): PaymentIntent {
    PaymentIntent(1, WitnessKey(), WitnessRequest(), "binding", 10, 10, 10, 0, 10, 5, None, PaymentPrepared)
  }

  function WitnessLedger(): LedgerState {
    LedgerState(9, map[WitnessKey() := WitnessPosition()], [WitnessPayment()], [], [SyncEvent(WitnessKey(), 100, 50)])
  }

  function WitnessWithdrawal(): WithdrawalInput {
    WithdrawalInput(true, 1, WitnessKey(), false, 1, true, RATE_SCALE, 0, 0, 100, 0, 99, 0, true, 60)
  }

  lemma WitnessSyncs()
    ensures Step(Step(Initial(0), WitnessHistory()[0]), WitnessHistory()[1])
            == LedgerState(0, map[WitnessKey() := SyncedWitness()], [], [], [SyncEvent(WitnessKey(), 100, 50)])
  {
    var s := Step(Initial(0), WitnessHistory()[0]);
    assert SyncedPosition(s.positions[WitnessKey()], WitnessHistory()[1].sync) == SyncedWitness();
  }

  lemma WitnessPrepares(s: LedgerState)
    requires s == LedgerState(0, map[WitnessKey() := SyncedWitness()], [], [], [SyncEvent(WitnessKey(), 100, 50)])
    ensures Step(s, WitnessHistory()[2]) == WitnessLedger().(now := 0)
  {
    var input := WitnessHistory()[2].payment;
    assert ExpirePreparedPayments(s, WitnessKey()) == s;
    assert PaymentRefusal(s, SyncedWitness(), input).None?;
    assert CeilDiv(10 * RATE_SCALE, RATE_SCALE) == 10;
    assert MulDivFloor(100, RATE_SCALE, RATE_SCALE) == 100;
    assert PrepareOnSnapshot(s, input, SyncedWitness(), None).reply.Done?;
  }

  lemma WitnessIsReachable()
    ensures RunAll(Initial(0), WitnessHistory()) == WitnessLedger()
  {
    var history := WitnessHistory();
    var s1 := Step(Initial(0), history[0]);
    var s2 := Step(s1, history[1]);
    WitnessSyncs();
    WitnessPrepares(s2);
    var s3 := Step(s2, history[2]);
    assert history[1..][1..][1..][1..] == [];
    assert RunAll(s3, history[1..][1..][1..]) == Step(s3, history[3]);
    assert RunAll(s2, history[1..][1..]) == RunAll(s3, history[1..][1..][1..]);
    assert RunAll(s1, history[1..]) == RunAll(s2, history[1..][1..]);
  }

  lemma WitnessSums(other: PositionKey)
    ensures ReservedSum([WitnessPayment()], other) == Holding(WitnessPayment(), other)
    ensures DueReservation([WitnessPayment()], WitnessKey(), 9) == 10
  {
    assert [WitnessPayment()][..0] == [];
    assert DueToExpire(WitnessPayment(), WitnessKey(), 9);
  }

  lemma WitnessBooksAreExact()
    ensures Exact(WitnessLedger())
  {
    forall other ensures Slack(WitnessLedger(), other) == 0 {
      WitnessSums(other);
    }
  }

  /** Reachable: a due payment, shares moved outside the ledger, and a released reservation back, held by no payment. */
  lemma StaleCopyOverReserves()
    ensures WitnessLedger() == RunAll(Initial(0), WitnessHistory())
    ensures Exact(WitnessLedger())
    ensures WritesBackStaleCopy(WitnessLedger(), StartWithdrawal(WitnessWithdrawal()), WitnessKey())
    ensures Slack(Step(WitnessLedger(), StartWithdrawal(WitnessWithdrawal())), WitnessKey()) == 10
  {
    WitnessIsReachable();
    WitnessBooksAreExact();
    WithdrawalWritesBack();
  }

  lemma WithdrawalWritesBack()
    ensures WritesBackStaleCopy(WitnessLedger(), StartWithdrawal(WitnessWithdrawal()), WitnessKey())
    ensures Slack(Step(WitnessLedger(), StartWithdrawal(WitnessWithdrawal())), WitnessKey()) == 10
  {
    WitnessBooksAreExact();
    WitnessSums(WitnessKey());
    StaleCopyIsStored();
    MovedSharesRefuse(WitnessLedger(), WitnessWithdrawal());
    WitnessStoresConsistent();
    StepMovesSlackExactly(WitnessLedger(), StartWithdrawal(WitnessWithdrawal()), WitnessKey());
  }

  lemma WitnessStoresConsistent()
    ensures StoresConsistent(WitnessLedger())
  {
  }

  lemma StaleCopyIsStored()
    ensures PrepareWithdrawal(WitnessLedger(), WitnessWithdrawal()).reply == Refused(BaselineResetNeeded)
  {
    var s, key := WitnessLedger(), WitnessKey();
    assert DueToExpire(s.payments[0], key, s.now);
    var u := ExpirePreparedPayments(s, key);
    assert u.payments == [WitnessPayment().(status := PaymentExpired)];
    assert ExpireStaleFlows([], key, s.now) == [];
  }
}
