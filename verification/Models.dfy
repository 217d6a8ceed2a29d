/** The ledger's records.  Fields that only travel (memos, serialized bytes, snapshots) are left out. */
module Models {
  import opened Wrappers

  datatype PrincipalBasisSource =
    | Empty
    | KaminoPnlCurrent
    | SublyReceipts
    | ConservativeActivationReset
    | ManualTrustedSeed

  datatype WalletStatus = Active | NeedsBaselineReset | ObservedOnly

  /** A ledger position is keyed by wallet and vault. */
  datatype PositionKey = PositionKey(wallet: string, vault: string)

  datatype WalletPosition = WalletPosition(
    signingPolicyId: Option<string>,
    observedMode: bool,       // signingMode is "observed_only"
    signerConfigured: bool,   // signerProvider is not "unconfigured"
    signerValidated: bool,    // signerValidationMode is "structured_intent_transaction"
    stakedSharesRaw: nat,
    unstakedSharesRaw: nat,
    totalSharesRaw: nat,
    exchangeRateScaled: nat,
    instantRedeemCapacityRawUsdc: nat,
    principalBasisRawUsdc: nat,
    principalBasisSource: PrincipalBasisSource,
    reservedRawUsdc: nat,
    feeDebtRawUsdc: nat,
    safetyBufferRawUsdc: nat,
    lastSyncedSlot: Option<nat>,
    version: nat,
    status: WalletStatus)

  datatype PaymentStatus =
    | PaymentPrepared
    | SubmissionPrepared
    | PaymentSubmitted
    | Settled
    | PaymentFailed
    | PaymentExpired
    | PaymentNotSubmitted

  /** A seller request is identified by the seller and the id the seller chose. */
  datatype SellerRequest = SellerRequest(seller: string, sellerRequestId: string)

  datatype PaymentIntent = PaymentIntent(
    paymentId: nat,
    key: PositionKey,
    request: SellerRequest,
    requestBindingHash: string,
    amountRawUsdc: nat,
    sharesToRedeemRaw: nat,
    requiredWithdrawRawUsdc: nat,
    estimatedFeeDebtRawUsdc: nat,
    reservationRawUsdc: nat,
    expiresAt: int,
    txSignature: Option<string>,
    status: PaymentStatus)

  predicate HoldsReservation(p: PaymentIntent) {
    p.status.PaymentPrepared? || p.status.SubmissionPrepared? || p.status.PaymentSubmitted?
  }

  predicate TerminallyFailed(p: PaymentIntent) {
    p.status.PaymentFailed? || p.status.PaymentExpired? || p.status.PaymentNotSubmitted?
  }

  predicate LiveOrSettled(p: PaymentIntent) {
    HoldsReservation(p) || p.status.Settled?
  }

  datatype FlowStatus =
    | FlowPrepared
    | FlowSubmitted
    | FlowConfirmed
    | FlowFailed
    | FlowExpired
    | FlowNotSubmitted

  predicate FlowTerminal(status: FlowStatus) {
    !status.FlowPrepared? && !status.FlowSubmitted?
  }

  datatype FlowKind = Deposit | NormalWithdrawal | YieldRealize

  /** Deposit and withdrawal intents share their life cycle. */
  datatype VaultFlow = VaultFlow(
    flowId: nat,
    key: PositionKey,
    kind: FlowKind,
    amountRawUsdc: nat,
    maxSharesToRedeemRaw: nat,
    expiresAt: int,
    movedRawUsdc: nat,        // the landed amount, zero until confirmed
    status: FlowStatus)

  /** Submitted, or prepared and not yet expired: the flow still owns the position. */
  predicate FlowPending(f: VaultFlow, now: int) {
    f.status.FlowSubmitted? || (f.status.FlowPrepared? && f.expiresAt > now)
  }

  /** Signed deltas observed for a position; replaying them rebuilds its principal. */
  datatype SyncEvent = SyncEvent(key: PositionKey, deltaSharesRaw: int, deltaPrincipalRawUsdc: int)
}
