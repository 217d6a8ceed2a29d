/** What registration and sync leave behind, said in the fields of the position alone. */
module PositionOutcomes {
  import opened Wrappers
  import opened RawUnits
  import opened Models
  import opened Budget
  import opened Ledger
  import opened LedgerInvariants
  import opened PaymentOutcomes

  // ---- registration

  /** The signer is asked to become usable, or the wallet says so itself. */
  function SignsBy(input: RegisterInput, existing: Option<WalletPosition>): bool {
    match (input.signerConfigured, existing)
    case (Some(configured), _) => configured
    case (None, Some(p)) => p.signerConfigured
    case (None, None) => false
  }

  /** A new position is empty, and active exactly when its signer is configured and signs non-interactively. */
  lemma FirstRegistration(s: LedgerState, key: PositionKey, input: RegisterInput)
    requires key !in s.positions
    ensures
      var outcome := RegisterAgentWallet(s, key, input);
      var p := FirstPosition(input);
      && outcome == Outcome(s.(positions := s.positions[key := p]), Done)
      && p.signingPolicyId == Some(input.signingPolicyId)
      && p.signerConfigured == SignsBy(input, None)
      && (p.signerValidated <==> input.signerValidated == Some(true))
      && (p.observedMode <==> input.observedMode == Some(true) || (input.observedMode == None && !p.signerConfigured))
      && (p.status == Active <==> p.signerConfigured && !p.observedMode)
      && (p.status == ObservedOnly <==> !p.signerConfigured || p.observedMode)
      && p.totalSharesRaw == 0 && p.stakedSharesRaw == 0 && p.unstakedSharesRaw == 0
      && p.exchangeRateScaled == RATE_SCALE && p.instantRedeemCapacityRawUsdc == 0
      && p.principalBasisRawUsdc == 0 && p.principalBasisSource == Empty
      && p.reservedRawUsdc == 0 && p.feeDebtRawUsdc == 0 && p.lastSyncedSlot == None && p.version == 1
      && (input.safetyBuffer == None ==> p.safetyBufferRawUsdc == 0)
      && (input.safetyBuffer.Some? ==> p.safetyBufferRawUsdc == input.safetyBuffer.value)
  {
  }

  /**
    Registering again touches the signer and the buffer only, and never lifts the block for a reset.  An observed
    wallet is activated exactly on request and with a configured signer; asking for it without one is refused.
   */
  lemma LaterRegistration(s: LedgerState, key: PositionKey, input: RegisterInput)
    requires key in s.positions
    ensures
      var b := s.positions[key];
      var outcome := RegisterAgentWallet(s, key, input);
      var refused := b.status == ObservedOnly && input.activateForPayments && !SignsBy(input, Some(b));
      && (refused ==> outcome == Outcome(s, Refused(SignerProviderMissing)))
      && (!refused ==> outcome.reply == Done && outcome.state == s.(positions := outcome.state.positions)
                       && OnlyPositionMoves(s, outcome.state, key)
                       && AfterRegistration(b, outcome.state.positions[key], input))
  {
  }

  predicate AfterRegistration(b: WalletPosition, a: WalletPosition, input: RegisterInput) {
    && a == b.(signingPolicyId := Some(input.signingPolicyId), observedMode := a.observedMode,
               signerConfigured := SignsBy(input, Some(b)), signerValidated := a.signerValidated,
               safetyBufferRawUsdc := a.safetyBufferRawUsdc, version := b.version + 1, status := a.status)
    && (input.signerValidated == None ==> a.signerValidated == b.signerValidated)
    && (input.signerValidated.Some? ==> a.signerValidated == input.signerValidated.value)
    && (input.safetyBuffer == None ==> a.safetyBufferRawUsdc == b.safetyBufferRawUsdc)
    && (input.safetyBuffer.Some? ==> a.safetyBufferRawUsdc == input.safetyBuffer.value)
    && (match input.observedMode
        case Some(observed) => a.observedMode == observed
        case None => a.observedMode <==> b.observedMode && !(input.activateForPayments && a.signerConfigured))
    && (a.status == NeedsBaselineReset <==> b.status == NeedsBaselineReset)
    && (b.status != NeedsBaselineReset ==>
          (a.status == Active
           <==> && a.signerConfigured && !a.observedMode
                && (b.status == Active || input.activateForPayments)))
  }

  // ---- sync

  /** A baseline exists: a source was recorded, or shares are held. */
  predicate HasBaseline(p: WalletPosition) {
    p.principalBasisSource != Empty || p.totalSharesRaw != 0
  }

  /** The conservative reset: asked for, or shares left an established position, or came without a stated basis. */
  predicate Resets(p: WalletPosition, input: SyncInput) {
    || input.forceConservativeReset
    || (input.totalSharesRaw < p.totalSharesRaw && HasBaseline(p))
    || (input.totalSharesRaw > p.totalSharesRaw && input.providedPrincipal == None)
  }

  /** What the caller says of the shares adds up, the missing parts taken from the ledger. */
  predicate PartsMatchTotal(p: WalletPosition, input: SyncInput) {
    match (input.stakedSharesRaw, input.unstakedSharesRaw)
    case (Some(staked), Some(unstaked)) => staked + unstaked == input.totalSharesRaw
    case (None, Some(unstaked)) => p.stakedSharesRaw + unstaked == input.totalSharesRaw
    case (Some(staked), None) => staked <= input.totalSharesRaw
    case (None, None) => p.stakedSharesRaw <= input.totalSharesRaw
  }

  predicate NotOutdated(p: WalletPosition, input: SyncInput) {
    && (input.expectedVersion == None || input.expectedVersion == Some(p.version))
    && (input.observedSlot == None || p.lastSyncedSlot == None
        || OrElse(p.lastSyncedSlot, 0) <= OrElse(input.observedSlot, 0))
  }

  predicate NothingSubmitted(s: LedgerState, key: PositionKey) {
    forall i | 0 <= i < |s.flows| && s.flows[i].key == key :: s.flows[i].status != FlowSubmitted
  }

  predicate NothingAwaitsSettlement(s: LedgerState, key: PositionKey) {
    forall i | 0 <= i < |s.payments| && s.payments[i].key == key ::
      s.payments[i].status != SubmissionPrepared && s.payments[i].status != PaymentSubmitted
  }

  /** A sync is accepted for current, consistent figures of a registered position that nothing is being settled on. */
  lemma SyncAcceptedExactlyWhen(s: LedgerState, key: PositionKey, input: SyncInput)
    ensures SyncWalletPosition(s, key, input).reply == Done
            <==> && key in s.positions
                 && NotOutdated(s.positions[key], input) && PartsMatchTotal(s.positions[key], input)
                 && input.exchangeRateScaled > 0 && NothingSubmitted(s, key)
                 && (Resets(s.positions[key], input) ==> NothingAwaitsSettlement(s, key))
    ensures SyncWalletPosition(s, key, input).reply != Done ==> SyncWalletPosition(s, key, input).state == s
  {
    assert FlowSubmittedFor(s, key) <==> !NothingSubmitted(s, key);
    assert SettlementActiveFor(s, key) <==> !NothingAwaitsSettlement(s, key);
    if key in s.positions {
      assert RunsConservativeReset(s.positions[key], input) <==> Resets(s.positions[key], input);
      assert SyncIsStale(s.positions[key], input) <==> !NotOutdated(s.positions[key], input);
      assert SharesAddUp(s.positions[key], input) <==> PartsMatchTotal(s.positions[key], input);
    }
  }

  /** The position after a sync, figure by figure. */
  predicate AfterSync(b: WalletPosition, a: WalletPosition, input: SyncInput) {
    && a == b.(stakedSharesRaw := a.stakedSharesRaw, unstakedSharesRaw := a.unstakedSharesRaw,
               totalSharesRaw := input.totalSharesRaw, exchangeRateScaled := input.exchangeRateScaled,
               instantRedeemCapacityRawUsdc := input.instantRedeemCapacityRawUsdc,
               principalBasisRawUsdc := a.principalBasisRawUsdc, principalBasisSource := a.principalBasisSource,
               reservedRawUsdc := a.reservedRawUsdc, status := a.status, lastSyncedSlot := a.lastSyncedSlot,
               version := b.version + 1)
    && (input.stakedSharesRaw == None ==> a.stakedSharesRaw == b.stakedSharesRaw)
    && (input.stakedSharesRaw.Some? ==> a.stakedSharesRaw == input.stakedSharesRaw.value)
    && a.stakedSharesRaw + a.unstakedSharesRaw == a.totalSharesRaw
    && (input.observedSlot == None ==> a.lastSyncedSlot == b.lastSyncedSlot)
    && (input.observedSlot.Some? ==> a.lastSyncedSlot == input.observedSlot)
    && (if Resets(b, input) then
          && a.principalBasisRawUsdc == PositionValue(a.totalSharesRaw, a.exchangeRateScaled)
          && a.principalBasisSource == ConservativeActivationReset
          && a.reservedRawUsdc == 0
          && (a.status == Active <==> b.signerConfigured && !b.observedMode)
          && a.status != NeedsBaselineReset
        else
          && a.reservedRawUsdc == b.reservedRawUsdc && a.status == b.status
          && (input.principalBasisSource.Some? ==> a.principalBasisSource == input.principalBasisSource.value)
          && (input.principalBasisSource == None ==>
                a.principalBasisSource == if b.principalBasisSource == Empty then ConservativeActivationReset
                                          else b.principalBasisSource)
          && BasisRises(b, a, input))
  }

  /** Off a reset the basis is the least that keeps the old one, the stated one, and the value of new shares. */
  predicate BasisRises(b: WalletPosition, a: WalletPosition, input: SyncInput) {
    match input.providedPrincipal
    case None =>
      a.principalBasisRawUsdc == (if b.principalBasisSource == Empty
                                  then PositionValue(a.totalSharesRaw, a.exchangeRateScaled)
                                  else b.principalBasisRawUsdc)
    case Some(stated) =>
      var grown := HasBaseline(b) && a.totalSharesRaw > b.totalSharesRaw;
      var added := a.totalSharesRaw - b.totalSharesRaw;
      && a.principalBasisRawUsdc >= b.principalBasisRawUsdc && a.principalBasisRawUsdc >= stated
      && (grown ==> (a.principalBasisRawUsdc - b.principalBasisRawUsdc) * RATE_SCALE >= added * a.exchangeRateScaled)
      && (a.principalBasisRawUsdc == b.principalBasisRawUsdc || a.principalBasisRawUsdc == stated
          || (grown && (a.principalBasisRawUsdc - b.principalBasisRawUsdc - 1) * RATE_SCALE
                       < added * a.exchangeRateScaled))
  }

  lemma SyncedFigures(b: WalletPosition, input: SyncInput)
    requires PartsMatchTotal(b, input)
    ensures SharesAddUp(b, input)
    ensures AfterSync(b, SyncedPosition(b, input), input)
  {
    var a := SyncedPosition(b, input);
    assert RunsConservativeReset(b, input) <==> Resets(b, input);
    if !Resets(b, input) && input.providedPrincipal.Some? && HasBaseline(b) && input.totalSharesRaw > b.totalSharesRaw {
      var added := input.totalSharesRaw - b.totalSharesRaw;
      var worth := MulDivCeil(added, input.exchangeRateScaled, RATE_SCALE);
      assert a.principalBasisRawUsdc >= b.principalBasisRawUsdc + worth;
    }
  }

  /** An accepted sync writes that position, logs the difference, and a reset expires what was prepared. */
  lemma SyncBooks(s: LedgerState, key: PositionKey, input: SyncInput)
    requires SyncWalletPosition(s, key, input).reply == Done
    ensures
      var t := SyncWalletPosition(s, key, input).state;
      && key in s.positions && OnlyPositionMoves(s, t, key)
      && var b, a := s.positions[key], t.positions[key];
         && AfterSync(b, a, input)
         && t.events == s.events + [SyncEvent(key, a.totalSharesRaw - b.totalSharesRaw,
                                              a.principalBasisRawUsdc - b.principalBasisRawUsdc)]
         && t.flows == s.flows && t.now == s.now && |t.payments| == |s.payments|
         && forall i | 0 <= i < |s.payments| ::
              var p := s.payments[i];
              t.payments[i] == if Resets(b, input) && p.key == key && p.status == PaymentPrepared
                               then p.(status := PaymentExpired) else p
  {
    SyncAcceptedExactlyWhen(s, key, input);
    SyncedFigures(s.positions[key], input);
  }
}
