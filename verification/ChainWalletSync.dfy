/**
  Syncing a position from the chain: which baseline the snapshot is stored with, and why no choice turns shares the
  ledger did not mint into spendable yield.
 */
module ChainWalletSync {
  import opened Wrappers
  import opened RawUnits
  import opened Models
  import opened Budget
  import opened Ledger
  import opened LedgerInvariants
  import opened LedgerAccounting
  import opened PositionReads

  datatype ChainShares = ChainShares(stakedSharesRaw: nat, unstakedSharesRaw: nat, totalSharesRaw: nat)

  datatype ChainContext = ChainContext(exchangeRateScaled: nat, instantRedeemCapacityRawUsdc: nat, slot: nat)

  /** `costBasis`: None without a P&L client or without reliable cost-basis data. */
  function ChainSyncInput(
    ledgerPosition: WalletPosition, shares: ChainShares, context: ChainContext, costBasis: Option<nat>, forced: bool)
    : SyncInput
  {
    var moved := shares.totalSharesRaw != ledgerPosition.totalSharesRaw;
    var reset := forced || (moved && (shares.totalSharesRaw < ledgerPosition.totalSharesRaw || costBasis.None?));
    var confirmed := moved && !reset;
    SyncInput(
      Some(ledgerPosition.version), Some(context.slot), shares.totalSharesRaw, Some(shares.stakedSharesRaw),
      Some(shares.unstakedSharesRaw), context.exchangeRateScaled, context.instantRedeemCapacityRawUsdc,
      if confirmed then
        Some(Max(costBasis.value,
                 ledgerPosition.principalBasisRawUsdc
                 + MulDivCeil(shares.totalSharesRaw - ledgerPosition.totalSharesRaw, context.exchangeRateScaled,
                              RATE_SCALE)))
      else None,
      if confirmed then Some(KaminoPnlCurrent) else None,
      reset)
  }

  method ChooseBaseline(
    ledgerPosition: WalletPosition, shares: ChainShares, context: ChainContext, costBasis: Option<nat>, forced: bool)
    returns (input: SyncInput)
    ensures input == ChainSyncInput(ledgerPosition, shares, context, costBasis, forced)
    ensures input.providedPrincipal.Some? ==>
              PositionValue(shares.totalSharesRaw, context.exchangeRateScaled) - input.providedPrincipal.value
              <= PositionValue(ledgerPosition.totalSharesRaw, context.exchangeRateScaled)
                 - ledgerPosition.principalBasisRawUsdc
  {
    var sharesMoved := shares.totalSharesRaw != ledgerPosition.totalSharesRaw;
    var sharesDecreased := shares.totalSharesRaw < ledgerPosition.totalSharesRaw;
    var principalBasis: Option<nat> := None;
    var basisSource: Option<PrincipalBasisSource> := None;
    var forceConservativeReset := forced;
    if !forceConservativeReset && sharesMoved {
      if sharesDecreased {
        forceConservativeReset := true;
      } else if costBasis.Some? {
        var deltaShares := shares.totalSharesRaw - ledgerPosition.totalSharesRaw;
        var floor := ledgerPosition.principalBasisRawUsdc
                     + MulDivCeil(deltaShares, context.exchangeRateScaled, RATE_SCALE);
        ValueOfAddedShares(ledgerPosition.totalSharesRaw, deltaShares, context.exchangeRateScaled);
        principalBasis := Some(Max(costBasis.value, floor));
        basisSource := Some(KaminoPnlCurrent);
      } else {
        forceConservativeReset := true;
      }
    }
    return SyncInput(
        Some(ledgerPosition.version), Some(context.slot), shares.totalSharesRaw, Some(shares.stakedSharesRaw),
        Some(shares.unstakedSharesRaw), context.exchangeRateScaled, context.instantRedeemCapacityRawUsdc,
        principalBasis, basisSource, forceConservativeReset);
  }

  /** What the sync asks for: the figures as read, a reset for unexplained shares, else a floored basis. */
  lemma ChainSyncAsksFor(
    p: WalletPosition, shares: ChainShares, context: ChainContext, costBasis: Option<nat>, forced: bool)
    ensures
      var input := ChainSyncInput(p, shares, context, costBasis, forced);
      var grown := shares.totalSharesRaw > p.totalSharesRaw;
      && input.expectedVersion == Some(p.version) && input.observedSlot == Some(context.slot)
      && input.totalSharesRaw == shares.totalSharesRaw && input.stakedSharesRaw == Some(shares.stakedSharesRaw)
      && input.unstakedSharesRaw == Some(shares.unstakedSharesRaw)
      && input.exchangeRateScaled == context.exchangeRateScaled
      && input.instantRedeemCapacityRawUsdc == context.instantRedeemCapacityRawUsdc
      && (input.forceConservativeReset
          <==> forced || shares.totalSharesRaw < p.totalSharesRaw || (grown && costBasis == None))
      && (input.principalBasisSource == Some(KaminoPnlCurrent) <==> input.providedPrincipal != None)
      && (input.principalBasisSource == None <==> input.providedPrincipal == None)
      && (input.providedPrincipal.Some? <==> grown && !forced && costBasis.Some?)
      && (input.providedPrincipal.Some? ==>
            FlooredBasis(p, input.providedPrincipal.value, costBasis.value, shares.totalSharesRaw - p.totalSharesRaw,
                         context.exchangeRateScaled))
  {
  }

  /** The least basis that keeps the reported cost and the old basis plus all the new shares are worth. */
  predicate FlooredBasis(p: WalletPosition, basis: nat, cost: nat, added: nat, rate: nat) {
    && basis >= cost
    && (basis - p.principalBasisRawUsdc) * RATE_SCALE >= added * rate
    && (basis == cost || (basis - p.principalBasisRawUsdc - 1) * RATE_SCALE < added * rate)
  }

  // ---- no sync creates spendable yield

  function Spendable(p: WalletPosition): nat {
    SpendableAt(p, p.totalSharesRaw, p.exchangeRateScaled)
  }

  /** After the sync no more is spendable than the shares and basis from before it give at the new rate. */
  predicate MintsNoYield(p: WalletPosition, input: SyncInput)
    requires SharesAddUp(p, input)
  {
    Spendable(SyncedPosition(p, input)) <= SpendableAt(p, p.totalSharesRaw, input.exchangeRateScaled)
  }

  lemma EstablishedSyncMintsNoYield(p: WalletPosition, input: SyncInput)
    requires SharesAddUp(p, input) && EstablishedBaseline(p)
    ensures MintsNoYield(p, input)
  {
    if input.totalSharesRaw > p.totalSharesRaw {
      ValueOfAddedShares(p.totalSharesRaw, input.totalSharesRaw - p.totalSharesRaw, input.exchangeRateScaled);
    }
  }

  /** A first sync that claims a zero basis for fresh shares makes their whole value spendable. */
  function ZeroBasisClaim(p: WalletPosition): SyncInput {
    SyncInput(None, None, Committed(p) + 1, Some(0), Some(Committed(p) + 1), RATE_SCALE, 0, Some(0), None, false)
  }

  lemma ZeroBasisClaimMintsYield(p: WalletPosition)
    requires !EstablishedBaseline(p)
    ensures SharesAddUp(p, ZeroBasisClaim(p)) && !MintsNoYield(p, ZeroBasisClaim(p))
  {
    var shares := Committed(p) + 1;
    var after := SyncedPosition(p, ZeroBasisClaim(p));
    assert PositionValue(shares, RATE_SCALE) == shares;
    assert PositionValue(0, RATE_SCALE) == 0;
    assert after.principalBasisRawUsdc == p.principalBasisRawUsdc;
  }

  /** The sync endpoint is safe against every input exactly for positions whose baseline is established. */
  lemma SyncIsSafeExactlyWhenEstablished(p: WalletPosition)
    ensures EstablishedBaseline(p)
            <==> forall input: SyncInput | SharesAddUp(p, input) && input.exchangeRateScaled > 0 ::
                   MintsNoYield(p, input)
  {
    if EstablishedBaseline(p) {
      forall input: SyncInput | SharesAddUp(p, input) && input.exchangeRateScaled > 0 ensures MintsNoYield(p, input) {
        EstablishedSyncMintsNoYield(p, input);
      }
    } else {
      ZeroBasisClaimMintsYield(p);
    }
  }

  /** The chain sync never relies on the caller's basis, so it is safe for every position, established or not. */
  lemma ChainInputMintsNoYield(
    p: WalletPosition, shares: ChainShares, context: ChainContext, costBasis: Option<nat>, forced: bool)
    requires SharesAddUp(p, ChainSyncInput(p, shares, context, costBasis, forced))
    ensures MintsNoYield(p, ChainSyncInput(p, shares, context, costBasis, forced))
  {
    var input := ChainSyncInput(p, shares, context, costBasis, forced);
    if EstablishedBaseline(p) {
      EstablishedSyncMintsNoYield(p, input);
    } else if input.providedPrincipal.Some? {
      ValueOfAddedShares(p.totalSharesRaw, shares.totalSharesRaw - p.totalSharesRaw, context.exchangeRateScaled);
    }
  }

  /** One chain sync: the read without the lock, what runs until its write, and what the chain and its index said. */
  datatype SyncCall = SyncCall(
    read: WalletPosition,
    meanwhile: seq<Action>,
    shares: ChainShares,
    context: ChainContext,
    costBasis: Option<nat>,
    forced: bool)

  /** The ledger the call writes to, after the operation its read fell into and whatever ran then. */
  function LedgerAtWrite(s: LedgerState, a: Action, call: SyncCall): LedgerState {
    RunAll(Step(s, a), call.meanwhile)
  }

  function SyncWrite(s: LedgerState, a: Action, key: PositionKey, call: SyncCall): Outcome {
    SyncWalletPosition(LedgerAtWrite(s, a, call), key,
                       ChainSyncInput(call.read, call.shares, call.context, call.costBasis, call.forced))
  }

  predicate Accepted(s: LedgerState, a: Action, key: PositionKey, call: SyncCall)
    requires key in s.positions
  {
    MaySee(s, a, key, call.read) && SyncWrite(s, a, key, call).reply.Done?
  }

  /** The input depends on the version, shares and basis that were read, and nothing else of the position. */
  lemma SameInput(p: WalletPosition, q: WalletPosition, call: SyncCall)
    requires SameButWrittenBack(p, q)
    ensures ChainSyncInput(p, call.shares, call.context, call.costBasis, call.forced)
            == ChainSyncInput(q, call.shares, call.context, call.costBasis, call.forced)
  {
  }

  /**
    The position is read without its lock, at any moment of whatever runs; the chain is read; and anything may run
    before the write.  If the sync is accepted, the position it replaces has the shares, basis, source and rate it
    read and reserves no less, it is the very one read unless a withdrawal saved two under that version, and the new
    position holds no new spendable yield.
   */
  lemma ChainSyncNeverCreatesYield(s: LedgerState, a: Action, key: PositionKey, call: SyncCall)
    requires key in s.positions && Accepted(s, a, key, call)
    ensures
      var u := LedgerAtWrite(s, a, call);
      var t := SyncWrite(s, a, key, call).state;
      && key in u.positions && SameButWrittenBack(call.read, u.positions[key])
      && (!SavesTwiceUnderOneVersion(s, a, key) ==> u.positions[key] == call.read)
      && key in t.positions
      && t.positions[key].exchangeRateScaled == call.context.exchangeRateScaled
      && t.positions[key].totalSharesRaw == call.shares.totalSharesRaw
      && Spendable(t.positions[key])
         <= SpendableAt(call.read, call.read.totalSharesRaw, call.context.exchangeRateScaled)
  {
    var u := LedgerAtWrite(s, a, call);
    var input := ChainSyncInput(call.read, call.shares, call.context, call.costBasis, call.forced);
    ReadsWitnessVersions(s, a, key, call.read, call.meanwhile);
    AcceptedSyncIsFresh(u, key, input);
    var q := u.positions[key];
    SameInput(call.read, q, call);
    ChainInputMintsNoYield(q, call.shares, call.context, call.costBasis, call.forced);
  }

  lemma AcceptedSyncIsFresh(u: LedgerState, key: PositionKey, input: SyncInput)
    requires SyncWalletPosition(u, key, input).reply.Done?
    ensures key in u.positions && SharesAddUp(u.positions[key], input)
    ensures input.expectedVersion.Some? ==> u.positions[key].version == input.expectedVersion.value
    ensures key in SyncWalletPosition(u, key, input).state.positions
    ensures SyncWalletPosition(u, key, input).state.positions[key] == SyncedPosition(u.positions[key], input)
  {
  }

  // ---- when it replaces what it read

  predicate ReplacesItsRead(s: LedgerState, a: Action, key: PositionKey, call: SyncCall) {
    key in LedgerAtWrite(s, a, call).positions && LedgerAtWrite(s, a, call).positions[key] == call.read
  }

  /** The call that reads between the two saves, finds the shares the withdrawal found, and has no cost basis. */
  function MisledCall(s: LedgerState, a: Action, key: PositionKey): SyncCall
    requires key in s.positions && a.StartWithdrawal?
  {
    var input := a.withdrawal;
    SyncCall(Released(s, key), [], ChainShares(input.stakedSharesRaw, input.unstakedSharesRaw, OnchainShares(input)),
             ChainContext(RATE_SCALE, 0, OrElse(s.positions[key].lastSyncedSlot, 0)), None, false)
  }

  lemma MisledCallIsAccepted(s: LedgerState, a: Action, key: PositionKey)
    requires key in s.positions && SavesTwiceUnderOneVersion(s, a, key)
    ensures Accepted(s, a, key, MisledCall(s, a, key)) && !ReplacesItsRead(s, a, key, MisledCall(s, a, key))
  {
    var t := Step(s, a);
    var call := MisledCall(s, a, key);
    WrittenBackCopyDiffers(s, a, key);
    assert LedgerAtWrite(s, a, call) == t;
    MovedSharesRefuse(s, a.withdrawal);
    WithdrawalPositions(s, a.withdrawal);
    ReleasedCopy(s, key);
    NothingBlocksTheSync(s, a, key);
    var input := ChainSyncInput(call.read, call.shares, call.context, call.costBasis, call.forced);
    assert t.positions[key] == FlagBaselineReset(s.positions[key]);
    assert !SyncIsStale(t.positions[key], input) && SharesAddUp(t.positions[key], input);
  }

  /** The withdrawal that flags the movement found no live payment and no pending flow, and leaves none. */
  lemma NothingBlocksTheSync(s: LedgerState, a: Action, key: PositionKey)
    requires key in s.positions && SavesTwiceUnderOneVersion(s, a, key)
    ensures !FlowSubmittedFor(Step(s, a), key) && !SettlementActiveFor(Step(s, a), key)
  {
    var t := Step(s, a);
    MovedSharesRefuse(s, a.withdrawal);
    WithdrawalStages(s, a.withdrawal);
    ExpiryMovesPayments(s, key);
    ExpiryLeavesLive(s, key);
    assert t.flows == ExpireStaleFlows(s.flows, key, s.now);
    assert forall i | 0 <= i < |t.flows| && t.flows[i].key == key && t.flows[i].status.FlowSubmitted? ::
        FlowPending(s.flows[i], s.now);
  }

  /** For every ledger and operation: accepted chain syncs always replace what they read, exactly off the guard. */
  lemma SyncsReplaceTheirReadExactlyUnlessSavedTwice(s: LedgerState, a: Action, key: PositionKey)
    requires key in s.positions
    ensures (forall call: SyncCall | Accepted(s, a, key, call) :: ReplacesItsRead(s, a, key, call))
            <==> !SavesTwiceUnderOneVersion(s, a, key)
  {
    if SavesTwiceUnderOneVersion(s, a, key) {
      MisledCallIsAccepted(s, a, key);
    } else {
      forall call: SyncCall | Accepted(s, a, key, call) ensures ReplacesItsRead(s, a, key, call) {
        ChainSyncNeverCreatesYield(s, a, key, call);
      }
    }
  }

  /** The same for the sync endpoint itself, whatever the caller sends, once a baseline exists. */
  lemma LedgerSyncNeverCreatesYield(s: LedgerState, key: PositionKey, input: SyncInput)
    requires key in s.positions && EstablishedBaseline(s.positions[key])
    ensures
      var outcome := SyncWalletPosition(s, key, input);
      outcome.reply.Done? ==>
        && key in outcome.state.positions
        && Spendable(outcome.state.positions[key])
           <= SpendableAt(s.positions[key], s.positions[key].totalSharesRaw, input.exchangeRateScaled)
  {
    if SyncWalletPosition(s, key, input).reply.Done? {
      EstablishedSyncMintsNoYield(s.positions[key], input);
    }
  }
}
