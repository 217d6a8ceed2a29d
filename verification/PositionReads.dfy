/**
  Reads of a position without its lock.  Such a read can fall between two saves of one operation.  The version it
  returns still identifies the position later, but for one case: a withdrawal that releases due reservations and then
  writes the copy it had read before back under the same version.
 */
module PositionReads {
  import opened Wrappers
  import opened RawUnits
  import opened Models
  import opened Ledger
  import opened LedgerInvariants
  import opened LedgerAccounting

  /** The position the expiry at the start of an operation leaves stored. */
  function Released(s: LedgerState, key: PositionKey): WalletPosition
    requires key in s.positions
  {
    ExpirePreparedPayments(s, key).positions[key]
  }

  /** The position on chain figures, as a confirmed landing first saves it: its fee debt follows in a second save. */
  predicate SavedBeforeFee(s: LedgerState, id: nat, landed: LandedFlow, key: PositionKey, p: WalletPosition)
    requires key in s.positions
  {
    var found := FlowIndex(s.flows, id);
    && found.Some? && s.flows[found.value].key == key && s.flows[found.value].status.FlowSubmitted?
    && !landed.failed && landed.refreshed.Some?
    && var kind, reread := s.flows[found.value].kind, landed.refreshed.value;
       var moved := MovedAmount(kind, landed.usdcDelta);
       && moved > 0
       && p == RefreshedPosition(s.positions[key], reread, PrincipalAfterFlow(kind, s.positions[key], reread, moved))
  }

  /** What an operation saves for the position before its last save. */
  predicate SavedMidway(s: LedgerState, a: Action, key: PositionKey, p: WalletPosition)
    requires key in s.positions
  {
    match a
    case Prepare(input) =>
      && input.key == key
      && PaymentIndex(s.payments, input.paymentId).None?
      && (p == Released(s, key)
          || (&& input.quote.Some? && PreparePayment(s, input).reply.Done?
              && p == WorkingPosition(Released(s, key), input.quote.value)))
    case StartWithdrawal(input) =>
      && input.key == key
      && FlowIndex(s.flows, input.flowId).None?
      && SigningRefusal(s.positions[key], input.production).None?
      && p == Released(s, key)
    case FinalizeLanded(id, landed) => SavedBeforeFee(s, id, landed, key, p)
    case _ => false
  }

  /** A read while the operation runs: what was stored before it, between its saves, or after it. */
  predicate MaySee(s: LedgerState, a: Action, key: PositionKey, p: WalletPosition)
    requires key in s.positions
  {
    || p == s.positions[key]
    || SavedMidway(s, a, key, p)
    || (key in Step(s, a).positions && p == Step(s, a).positions[key])
  }

  /**
    The guard of the one operation that saves two positions under one version: a withdrawal on its way to the branch
    that finds moved shares, over a due payment.  The two copies agree only if nothing was released and the position
    was already blocked for a reset.
   */
  predicate SavesTwiceUnderOneVersion(s: LedgerState, a: Action, key: PositionKey)
    requires key in s.positions
  {
    && a.StartWithdrawal? && a.withdrawal.key == key
    && FindsMovedShares(s, a.withdrawal)
    && (exists i | 0 <= i < |s.payments| :: DueToExpire(s.payments[i], key, s.now))
    && (|| (DueReservation(s.payments, key, s.now) > 0 && s.positions[key].reservedRawUsdc > 0)
        || !s.positions[key].status.NeedsBaselineReset?)
  }

  /** Equal but for a reservation that came back and the block for a reset. */
  predicate SameButWrittenBack(p: WalletPosition, q: WalletPosition) {
    || q == p
    || (&& q == p.(reservedRawUsdc := q.reservedRawUsdc, status := NeedsBaselineReset)
        && q.reservedRawUsdc >= p.reservedRawUsdc)
  }

  /** What a read during the operation has to do with what the operation leaves stored. */
  predicate ReadPrecedes(s: LedgerState, a: Action, key: PositionKey, p: WalletPosition)
    requires key in s.positions
  {
    var t := Step(s, a);
    && key in t.positions
    && p.version <= t.positions[key].version
    && (p.version == t.positions[key].version ==>
          && SameButWrittenBack(p, t.positions[key])
          && (!SavesTwiceUnderOneVersion(s, a, key) ==> t.positions[key] == p))
  }

  // ---- one operation

  lemma PrepareReads(s: LedgerState, input: PrepareInput, key: PositionKey, p: WalletPosition)
    requires key in s.positions && SavedMidway(s, Prepare(input), key, p)
    ensures ReadPrecedes(s, Prepare(input), key, p)
  {
    var u := ExpirePreparedPayments(s, key);
    SamePaymentIds(s.payments, u.payments, input.paymentId);
    PrepareBumps(s, input);
    PreparedVersions(s, input);
    if PreparePayment(s, input).reply.Done? && input.quote.Some? {
      GrantOnQuoteBumpsTwice(s, input, input.quote.value);
    }
  }

  /** Once the identifier is fresh, the expiry at the start of a preparation stays stored. */
  lemma PreparedVersions(s: LedgerState, input: PrepareInput)
    requires input.key in s.positions
    requires PaymentIndex(ExpirePreparedPayments(s, input.key).payments, input.paymentId).None?
    ensures BumpsOnly(ExpirePreparedPayments(s, input.key), PreparePayment(s, input).state, input.key)
  {
    var u := ExpirePreparedPayments(s, input.key);
    SnapshotBumps(u, input, u.positions[input.key], None);
    if input.quote.Some? {
      QuoteBumps(u, input, u.positions[input.key], input.quote.value);
    }
  }

  lemma GrantOnQuoteBumpsTwice(s: LedgerState, input: PrepareInput, chain: ChainQuote)
    requires input.key in s.positions && input.quote == Some(chain) && PreparePayment(s, input).reply.Done?
    ensures
      var t := PreparePayment(s, input).state;
      && input.key in t.positions
      && t.positions[input.key].version > WorkingPosition(Released(s, input.key), chain).version
  {
    var u := ExpirePreparedPayments(s, input.key);
    assert PreparePayment(s, input) == PrepareOnQuote(u, input, u.positions[input.key], chain);
    assert PrepareOnQuote(u, input, u.positions[input.key], chain).reply.Done?;
  }

  lemma {:induction false} SamePaymentIds(before: seq<PaymentIntent>, after: seq<PaymentIntent>, paymentId: nat)
    requires |before| == |after|
    requires forall i | 0 <= i < |before| :: before[i].paymentId == after[i].paymentId
    ensures PaymentIndex(before, paymentId) == PaymentIndex(after, paymentId)
    decreases |before|
  {
    if before != [] {
      SamePaymentIds(before[..|before| - 1], after[..|after| - 1], paymentId);
    }
  }

  /** A withdrawal leaves the released copy stored, or the earlier one flagged, both one version on. */
  lemma WithdrawalReads(s: LedgerState, input: WithdrawalInput, key: PositionKey)
    requires key in s.positions && input.key == key
    requires FlowIndex(s.flows, input.flowId).None? && SigningRefusal(s.positions[key], input.production).None?
    ensures ReadPrecedes(s, StartWithdrawal(input), key, Released(s, key))
  {
    var t := PrepareWithdrawal(s, input).state;
    MovedSharesRefuse(s, input);
    WithdrawalPositions(s, input);
    if FindsMovedShares(s, input) {
      assert t.positions[key] == FlagBaselineReset(s.positions[key]);
      ReleasedCopy(s, key);
    } else {
      WithdrawalExpiresFirst(s, input);
      assert t.positions[key] == Released(s, key);
    }
  }

  /** Past the checks on identifier and signer, the expiry is what stays stored unless the copy is written back. */
  lemma WithdrawalExpiresFirst(s: LedgerState, input: WithdrawalInput)
    requires input.key in s.positions && FlowIndex(s.flows, input.flowId).None?
    requires SigningRefusal(s.positions[input.key], input.production).None?
    requires PrepareWithdrawal(s, input).reply != Refused(BaselineResetNeeded)
    ensures PrepareWithdrawal(s, input).state.positions == ExpirePreparedPayments(s, input.key).positions
  {
    var s1 := ExpirePreparedPayments(s, input.key);
    var u := s1.(flows := ExpireStaleFlows(s1.flows, input.key, s1.now));
    ApprovalShape(u, input, s.positions[input.key]);
  }

  lemma ReleasedCopy(s: LedgerState, key: PositionKey)
    requires key in s.positions
    ensures
      var p := s.positions[key];
      if exists i | 0 <= i < |s.payments| :: DueToExpire(s.payments[i], key, s.now) then
        var reserved := ClampToZero(p.reservedRawUsdc - DueReservation(s.payments, key, s.now));
        Released(s, key) == p.(reservedRawUsdc := reserved, version := p.version + 1)
      else Released(s, key) == p
  {
  }

  lemma LandingReads(s: LedgerState, id: nat, landed: LandedFlow, key: PositionKey, p: WalletPosition)
    requires key in s.positions && SavedBeforeFee(s, id, landed, key, p)
    ensures ReadPrecedes(s, FinalizeLanded(id, landed), key, p)
  {
  }

  lemma EveryReadPrecedes(s: LedgerState, a: Action, key: PositionKey, p: WalletPosition)
    requires key in s.positions && MaySee(s, a, key, p)
    ensures ReadPrecedes(s, a, key, p)
  {
    StepBumpsVersions(s, a);
    if p != s.positions[key] && SavedMidway(s, a, key, p) {
      match a
      case Prepare(input) => PrepareReads(s, input, key, p);
      case StartWithdrawal(input) => WithdrawalReads(s, input, key);
      case FinalizeLanded(id, landed) => LandingReads(s, id, landed, key, p);
    }
  }

  // ---- whatever runs afterwards

  /**
    A position read at any moment, and anything run after the operation it fell into.  If its version is stored then,
    so is that position, up to a withdrawal's write-back; and that exception needs the guard above.
   */
  lemma ReadsWitnessVersions(s: LedgerState, a: Action, key: PositionKey, p: WalletPosition, meanwhile: seq<Action>)
    requires key in s.positions && MaySee(s, a, key, p)
    ensures
      var u := RunAll(Step(s, a), meanwhile);
      && key in u.positions
      && (u.positions[key].version == p.version ==>
            && SameButWrittenBack(p, u.positions[key])
            && (!SavesTwiceUnderOneVersion(s, a, key) ==> u.positions[key] == p))
  {
    EveryReadPrecedes(s, a, key, p);
    RunsWitnessVersions(Step(s, a), meanwhile);
  }

  ghost predicate VersionsIdentify(s: LedgerState, a: Action, key: PositionKey)
    requires key in s.positions
  {
    forall p: WalletPosition, meanwhile: seq<Action> | MaySee(s, a, key, p) ::
      Identifies(p, RunAll(Step(s, a), meanwhile), key)
  }

  predicate Identifies(p: WalletPosition, u: LedgerState, key: PositionKey) {
    key in u.positions && (u.positions[key].version == p.version ==> u.positions[key] == p)
  }

  lemma WrittenBackCopyDiffers(s: LedgerState, a: Action, key: PositionKey)
    requires key in s.positions && SavesTwiceUnderOneVersion(s, a, key)
    ensures MaySee(s, a, key, Released(s, key)) && key in Step(s, a).positions
    ensures Step(s, a).positions[key].version == Released(s, key).version
    ensures Step(s, a).positions[key] != Released(s, key)
  {
    MovedSharesRefuse(s, a.withdrawal);
    WithdrawalPositions(s, a.withdrawal);
    ReleasedCopy(s, key);
  }

  /** For every ledger and operation: a version read meanwhile always identifies its position, exactly off the guard. */
  lemma VersionsIdentifyExactlyUnlessSavedTwice(s: LedgerState, a: Action, key: PositionKey)
    requires key in s.positions
    ensures VersionsIdentify(s, a, key) <==> !SavesTwiceUnderOneVersion(s, a, key)
  {
    if SavesTwiceUnderOneVersion(s, a, key) {
      WrittenBackCopyDiffers(s, a, key);
      assert RunAll(Step(s, a), []) == Step(s, a);
      assert !Identifies(Released(s, key), RunAll(Step(s, a), []), key);
    } else {
      forall p: WalletPosition, meanwhile: seq<Action> | MaySee(s, a, key, p)
        ensures Identifies(p, RunAll(Step(s, a), meanwhile), key)
      {
        ReadsWitnessVersions(s, a, key, p, meanwhile);
      }
    }
  }

  /** It happens: the reachable ledger and the withdrawal of the over-reservation meet the guard. */
  lemma OneVersionIsSavedTwice()
    ensures WitnessLedger() == RunAll(Initial(0), WitnessHistory())
    ensures SavesTwiceUnderOneVersion(WitnessLedger(), StartWithdrawal(WitnessWithdrawal()), WitnessKey())
  {
    StaleCopyOverReserves();
    WitnessSums(WitnessKey());
    assert DueToExpire(WitnessLedger().payments[0], WitnessKey(), 9);
  }
}
