/**
  The money ledger as a state machine: what each service operation, run under its locks, does to the stored records.
  Writes made before an error is thrown persist, so every operation maps a state to a state even when it refuses.
 */
module Ledger {
  import opened Wrappers
  import opened RawUnits
  import opened Models
  import opened Budget
  import VaultAdapter

  // Extra shares the signer approves above the exact quote.
  const SHARES_TO_REDEEM_MARGIN: nat := 4

  // Share-rounding allowances on the requested amounts.
  const DEPOSIT_SHARE_ROUNDING_MARGIN_RAW: nat := 10
  const YIELD_REALIZE_ROUNDING_RAW_USDC: nat := 5

  datatype LedgerState = LedgerState(
    now: int,
    positions: map<PositionKey, WalletPosition>,
    payments: seq<PaymentIntent>,
    flows: seq<VaultFlow>,
    events: seq<SyncEvent>)

  datatype Refusal =
    | WalletNotRegistered
    | StalePositionSnapshot
    | VaultFlowPending
    | ShareTotalMismatch
    | InvalidExchangeRateInput
    | SubmittedPaymentActive
    | SignerProviderMissing
    | ObservedOnlyWallet
    | SigningPolicyMissing
    | SignerValidationMissing
    | SellerRequestIdReuse
    | PositionBlocked(status: WalletStatus)
    | LiquidityPolicyMissing
    | LiquidityPolicyDisabled
    | AmountExceedsPolicy
    | BelowPolicyLiquidity
    | BaselineResetNeeded
    | QuoteRefused(liquidity: VaultAdapter.LiquidityError)
    | BudgetRefused(budget: BudgetRejection)
    | BuilderFailed
    | BuilderInvalid
    | PayloadInvalid
    | SubmitterUnavailable
    | MandateRefused
    | DepositBelowMinimum
    | WalletLockedByPayment
    | PaymentReservationActive
    | WithdrawIlliquid
    | SettlementResultInvalid
    | NotFound
    | AlreadyUsedId

  datatype Reply = Done | Existing(paymentId: nat) | Unchanged | Refused(reason: Refusal)

  datatype Outcome = Outcome(state: LedgerState, reply: Reply)

  // ---- record stores

  function PaymentIndex(payments: seq<PaymentIntent>, paymentId: nat): (r: Option<nat>)
    ensures r.Some? ==> r.value < |payments| && payments[r.value].paymentId == paymentId
    ensures r.None? ==> forall i | 0 <= i < |payments| :: payments[i].paymentId != paymentId
  {
    if payments == [] then None
    else if payments[|payments| - 1].paymentId == paymentId then Some(|payments| - 1)
    else PaymentIndex(payments[..|payments| - 1], paymentId)
  }

  function FlowIndex(flows: seq<VaultFlow>, flowId: nat): (r: Option<nat>)
    ensures r.Some? ==> r.value < |flows| && flows[r.value].flowId == flowId
    ensures r.None? ==> forall i | 0 <= i < |flows| :: flows[i].flowId != flowId
  {
    if flows == [] then None
    else if flows[|flows| - 1].flowId == flowId then Some(|flows| - 1)
    else FlowIndex(flows[..|flows| - 1], flowId)
  }

  /** The first live or settled payment of a seller request, else its latest terminally failed one. */
  function FindPaymentBySellerRequest(payments: seq<PaymentIntent>, request: SellerRequest): (r: Option<PaymentIntent>)
    ensures r.None? <==> forall i | 0 <= i < |payments| :: payments[i].request != request
    ensures r.Some? ==> r.value in payments && r.value.request == request
    ensures (exists i | 0 <= i < |payments| :: payments[i].request == request && LiveOrSettled(payments[i]))
            ==> r.Some? && LiveOrSettled(r.value)
  {
    if payments == [] then None
    else
      var last := |payments| - 1;
      var earlier := FindPaymentBySellerRequest(payments[..last], request);
      if payments[last].request != request then earlier
      else if earlier.Some? && LiveOrSettled(earlier.value) then earlier
      else Some(payments[last])
  }

  function SavePosition(s: LedgerState, key: PositionKey, position: WalletPosition): LedgerState {
    s.(positions := s.positions[key := position])
  }

  function SavePayment(s: LedgerState, i: nat, payment: PaymentIntent): LedgerState
    requires i < |s.payments|
  {
    s.(payments := s.payments[i := payment])
  }

  function SaveFlow(s: LedgerState, i: nat, flow: VaultFlow): LedgerState
    requires i < |s.flows|
  {
    s.(flows := s.flows[i := flow])
  }

  function RecordEvent(s: LedgerState, event: SyncEvent): LedgerState {
    s.(events := s.events + [event])
  }

  // ---- sums over the stores

  function Holding(p: PaymentIntent, key: PositionKey): nat {
    if p.key == key && HoldsReservation(p) then p.reservationRawUsdc else 0
  }

  function ReservedSum(payments: seq<PaymentIntent>, key: PositionKey): nat {
    if payments == [] then 0
    else ReservedSum(payments[..|payments| - 1], key) + Holding(payments[|payments| - 1], key)
  }

  function ActiveWithdrawReserved(payments: seq<PaymentIntent>, key: PositionKey): nat {
    if payments == [] then 0
    else
      var p := payments[|payments| - 1];
      ActiveWithdrawReserved(payments[..|payments| - 1], key)
      + if p.key == key && HoldsReservation(p) then p.requiredWithdrawRawUsdc else 0
  }

  function PrincipalReplay(events: seq<SyncEvent>, key: PositionKey): int {
    if events == [] then 0
    else
      var e := events[|events| - 1];
      PrincipalReplay(events[..|events| - 1], key) + if e.key == key then e.deltaPrincipalRawUsdc else 0
  }

  // ---- expiry of prepared payments (position-maintenance)

  predicate DueToExpire(p: PaymentIntent, key: PositionKey, now: int) {
    p.key == key && p.status.PaymentPrepared? && p.expiresAt <= now
  }

  function ExpireDue(payments: seq<PaymentIntent>, key: PositionKey, now: int): (r: seq<PaymentIntent>)
    ensures |r| == |payments|
    ensures forall i | 0 <= i < |payments| ::
              r[i] == if DueToExpire(payments[i], key, now) then payments[i].(status := PaymentExpired) else payments[i]
  {
    seq(|payments|, i requires 0 <= i < |payments| =>
      if DueToExpire(payments[i], key, now) then payments[i].(status := PaymentExpired) else payments[i])
  }

  function DueReservation(payments: seq<PaymentIntent>, key: PositionKey, now: int): nat {
    if payments == [] then 0
    else
      var p := payments[|payments| - 1];
      DueReservation(payments[..|payments| - 1], key, now)
      + if DueToExpire(p, key, now) then p.reservationRawUsdc else 0
  }

  function ExpirePreparedPayments(s: LedgerState, key: PositionKey): LedgerState {
    if key !in s.positions then s
    else if forall i | 0 <= i < |s.payments| :: !DueToExpire(s.payments[i], key, s.now) then s
    else
      var position := s.positions[key];
      s.(payments := ExpireDue(s.payments, key, s.now),
         positions := s.positions[key := position.(
           reservedRawUsdc := ClampToZero(position.reservedRawUsdc - DueReservation(s.payments, key, s.now)),
           version := position.version + 1)])
  }

  // ---- registration

  datatype RegisterInput = RegisterInput(
    signingPolicyId: string,
    observedMode: Option<bool>,
    signerConfigured: Option<bool>,
    signerValidated: Option<bool>,
    safetyBuffer: Option<nat>,
    activateForPayments: bool)

  function OrElse<T>(value: Option<T>, fallback: T): T {
    if value.Some? then value.value else fallback
  }

  function StatusAfterSignerUpdate(existing: WalletStatus, observedMode: bool, configured: bool, activate: bool)
    : WalletStatus
  {
    if existing.NeedsBaselineReset? then NeedsBaselineReset
    else if observedMode || !configured then ObservedOnly
    else if existing.ObservedOnly? && activate then Active
    else existing
  }

  function FirstPosition(input: RegisterInput): WalletPosition {
    var configured := OrElse(input.signerConfigured, false);
    var observed := OrElse(input.observedMode, !configured);
    WalletPosition(Some(input.signingPolicyId), observed, configured, OrElse(input.signerValidated, false), 0, 0, 0,
                   RATE_SCALE, 0, 0, Empty, 0, 0, OrElse(input.safetyBuffer, 0), None, 1,
                   if observed || !configured then ObservedOnly else Active)
  }

  function RegisterAgentWallet(s: LedgerState, key: PositionKey, input: RegisterInput): Outcome {
    if key !in s.positions then Outcome(SavePosition(s, key, FirstPosition(input)), Done)
    else
      var existing := s.positions[key];
      var configured := OrElse(input.signerConfigured, existing.signerConfigured);
      if existing.status.ObservedOnly? && input.activateForPayments && !configured then
        Outcome(s, Refused(SignerProviderMissing))
      else
        var observed :=
          OrElse(input.observedMode, existing.observedMode && !(input.activateForPayments && configured));
        Outcome(SavePosition(s, key, existing.(
                  signingPolicyId := Some(input.signingPolicyId),
                  observedMode := observed,
                  signerConfigured := configured,
                  signerValidated := OrElse(input.signerValidated, existing.signerValidated),
                  safetyBufferRawUsdc := OrElse(input.safetyBuffer, existing.safetyBufferRawUsdc),
                  version := existing.version + 1,
                  status := StatusAfterSignerUpdate(existing.status, observed, configured, input.activateForPayments))),
                Done)
  }

  // ---- position sync

  datatype SyncInput = SyncInput(
    expectedVersion: Option<nat>,
    observedSlot: Option<nat>,
    totalSharesRaw: nat,
    stakedSharesRaw: Option<nat>,
    unstakedSharesRaw: Option<nat>,
    exchangeRateScaled: nat,
    instantRedeemCapacityRawUsdc: nat,
    providedPrincipal: Option<nat>,
    principalBasisSource: Option<PrincipalBasisSource>,
    forceConservativeReset: bool)

  predicate EstablishedBaseline(p: WalletPosition) {
    !p.principalBasisSource.Empty? || p.totalSharesRaw > 0
  }

  predicate RunsConservativeReset(p: WalletPosition, input: SyncInput) {
    || input.forceConservativeReset
    || (EstablishedBaseline(p) && input.totalSharesRaw < p.totalSharesRaw)
    || (input.totalSharesRaw > p.totalSharesRaw && input.providedPrincipal.None?)
  }

  predicate SyncIsStale(p: WalletPosition, input: SyncInput) {
    || (input.expectedVersion.Some? && input.expectedVersion.value != p.version)
    || (input.observedSlot.Some? && p.lastSyncedSlot.Some? && input.observedSlot.value < p.lastSyncedSlot.value)
  }

  function SyncedStaked(p: WalletPosition, input: SyncInput): nat {
    OrElse(input.stakedSharesRaw, p.stakedSharesRaw)
  }

  function SyncedUnstaked(p: WalletPosition, input: SyncInput): int {
    if input.unstakedSharesRaw.Some? then input.unstakedSharesRaw.value
    else input.totalSharesRaw - SyncedStaked(p, input)
  }

  predicate SharesAddUp(p: WalletPosition, input: SyncInput) {
    && SyncedUnstaked(p, input) >= 0
    && SyncedStaked(p, input) + SyncedUnstaked(p, input) == input.totalSharesRaw
  }

  function ExternalDepositFloor(p: WalletPosition, input: SyncInput): nat {
    if EstablishedBaseline(p) && input.totalSharesRaw > p.totalSharesRaw && input.providedPrincipal.Some?
    then p.principalBasisRawUsdc
         + MulDivCeil(input.totalSharesRaw - p.totalSharesRaw, input.exchangeRateScaled, RATE_SCALE)
    else p.principalBasisRawUsdc
  }

  function SyncedPrincipal(p: WalletPosition, input: SyncInput): nat {
    if RunsConservativeReset(p, input) then PositionValue(input.totalSharesRaw, input.exchangeRateScaled)
    else if input.providedPrincipal.None? then
      if p.principalBasisSource.Empty? then PositionValue(input.totalSharesRaw, input.exchangeRateScaled)
      else p.principalBasisRawUsdc
    else Max(Max(p.principalBasisRawUsdc, input.providedPrincipal.value), ExternalDepositFloor(p, input))
  }

  function SyncedPosition(p: WalletPosition, input: SyncInput): WalletPosition
    requires SharesAddUp(p, input)
  {
    var reset := RunsConservativeReset(p, input);
    p.(stakedSharesRaw := SyncedStaked(p, input),
       unstakedSharesRaw := SyncedUnstaked(p, input),
       totalSharesRaw := input.totalSharesRaw,
       exchangeRateScaled := input.exchangeRateScaled,
       instantRedeemCapacityRawUsdc := input.instantRedeemCapacityRawUsdc,
       principalBasisRawUsdc := SyncedPrincipal(p, input),
       principalBasisSource :=
         if reset then ConservativeActivationReset
         else OrElse(input.principalBasisSource,
                     if p.principalBasisSource.Empty? then ConservativeActivationReset else p.principalBasisSource),
       reservedRawUsdc := if reset then 0 else p.reservedRawUsdc,
       status := if !reset then p.status
                 else if !p.observedMode && p.signerConfigured then Active else ObservedOnly,
       lastSyncedSlot := if input.observedSlot.Some? then input.observedSlot else p.lastSyncedSlot,
       version := p.version + 1)
  }

  predicate FlowSubmittedFor(s: LedgerState, key: PositionKey) {
    exists i | 0 <= i < |s.flows| :: s.flows[i].key == key && s.flows[i].status.FlowSubmitted?
  }

  predicate AwaitingSettlement(p: PaymentIntent, key: PositionKey) {
    p.key == key && (p.status.SubmissionPrepared? || p.status.PaymentSubmitted?)
  }

  predicate SettlementActiveFor(s: LedgerState, key: PositionKey) {
    exists i | 0 <= i < |s.payments| :: AwaitingSettlement(s.payments[i], key)
  }

  /** A conservative reset expires every prepared payment of the position. */
  function ExpireAllPrepared(payments: seq<PaymentIntent>, key: PositionKey): (r: seq<PaymentIntent>)
    ensures |r| == |payments|
    ensures forall i | 0 <= i < |payments| ::
              r[i] == if payments[i].key == key && payments[i].status.PaymentPrepared?
                      then payments[i].(status := PaymentExpired) else payments[i]
  {
    seq(|payments|, i requires 0 <= i < |payments| =>
      if payments[i].key == key && payments[i].status.PaymentPrepared?
      then payments[i].(status := PaymentExpired) else payments[i])
  }

  function SyncWalletPosition(s: LedgerState, key: PositionKey, input: SyncInput): Outcome {
    if key !in s.positions then Outcome(s, Refused(WalletNotRegistered))
    else
      var existing := s.positions[key];
      if SyncIsStale(existing, input) then Outcome(s, Refused(StalePositionSnapshot))
      else if FlowSubmittedFor(s, key) then Outcome(s, Refused(VaultFlowPending))
      else if !SharesAddUp(existing, input) then Outcome(s, Refused(ShareTotalMismatch))
      else if input.exchangeRateScaled == 0 then Outcome(s, Refused(InvalidExchangeRateInput))
      else
        var reset := RunsConservativeReset(existing, input);
        if reset && SettlementActiveFor(s, key) then Outcome(s, Refused(SubmittedPaymentActive))
        else
          var next := SyncedPosition(existing, input);
          var event := SyncEvent(key, next.totalSharesRaw - existing.totalSharesRaw,
                                 next.principalBasisRawUsdc - existing.principalBasisRawUsdc);
          var s := if reset then s.(payments := ExpireAllPrepared(s.payments, key)) else s;
          Outcome(RecordEvent(SavePosition(s, key, next), event), Done)
  }

  // ---- payments

  datatype LiquidityPolicy = LiquidityPolicy(active: bool, expectedPaymentSize: nat, minInstantLiquidity: nat)

  /** What the chain-aware builder reads for a quote. */
  datatype ChainQuote = ChainQuote(
    vault: VaultAdapter.VaultContext,
    stakedSharesRaw: nat,
    unstakedSharesRaw: nat,
    instantRedeemCapacityRawUsdc: nat,
    slot: nat)

  /** `builtShares`: None when building fails, else the shares the canonical transaction burns. */
  datatype PrepareInput = PrepareInput(
    production: bool,
    paymentId: nat,
    key: PositionKey,
    request: SellerRequest,
    requestBindingHash: string,
    amountRawUsdc: nat,
    policy: Option<LiquidityPolicy>,
    quote: Option<ChainQuote>,
    estimatedFeeDebtRawUsdc: nat,
    builtShares: Option<nat>,
    expiresAt: int)

  function FlagBaselineReset(p: WalletPosition): WalletPosition {
    p.(status := NeedsBaselineReset, version := p.version + 1)
  }

  /** Shares moved outside the ledger: block the position and log the movement without touching the principal. */
  function FlagShareMovement(s: LedgerState, key: PositionKey, from: WalletPosition, onchainShares: nat): LedgerState {
    RecordEvent(SavePosition(s, key, FlagBaselineReset(from)),
                SyncEvent(key, onchainShares - from.totalSharesRaw, 0))
  }

  predicate AnyFlowPending(s: LedgerState, key: PositionKey) {
    exists i | 0 <= i < |s.flows| :: s.flows[i].key == key && FlowPending(s.flows[i], s.now)
  }

  /** Production also demands a signer that validates structured intents. */
  function SigningRefusal(p: WalletPosition, production: bool): Option<Refusal> {
    if p.observedMode then Some(ObservedOnlyWallet)
    else if !p.signerConfigured then Some(SignerProviderMissing)
    else if production && !p.signerValidated then Some(SignerValidationMissing)
    else None
  }

  /** Why a registered position may not prepare this payment, in the order the service asks. */
  function PaymentRefusal(s: LedgerState, position: WalletPosition, input: PrepareInput): Option<Refusal> {
    if !position.status.Active? then Some(PositionBlocked(position.status))
    else if position.signingPolicyId.None? then Some(SigningPolicyMissing)
    else if SigningRefusal(position, input.production).Some? then SigningRefusal(position, input.production)
    else if AnyFlowPending(s, input.key) then Some(VaultFlowPending)
    else
      match input.policy
      case None => if input.production then Some(LiquidityPolicyMissing) else None
      case Some(policy) =>
        if !policy.active then Some(LiquidityPolicyDisabled)
        else if input.amountRawUsdc > policy.expectedPaymentSize then Some(AmountExceedsPolicy)
        else None
  }

  function PreparePayment(s0: LedgerState, input: PrepareInput): Outcome {
    var key := input.key;
    var s := ExpirePreparedPayments(s0, key);
    var found := FindPaymentBySellerRequest(s.payments, input.request);
    if PaymentIndex(s.payments, input.paymentId).Some? then Outcome(s0, Refused(AlreadyUsedId))
    else if found.Some? && found.value.requestBindingHash != input.requestBindingHash then
      Outcome(s, Refused(SellerRequestIdReuse))
    else if found.Some? && !TerminallyFailed(found.value) then Outcome(s, Existing(found.value.paymentId))
    else if key !in s.positions then Outcome(s, Refused(WalletNotRegistered))
    else
      var position := s.positions[key];
      var refusal := PaymentRefusal(s, position, input);
      if refusal.Some? then Outcome(s, Refused(refusal.value))
      else
        match input.quote
        case None => PrepareOnSnapshot(s, input, position, None)
        case Some(chain) => PrepareOnQuote(s, input, position, chain)
  }

  /** The position on the figures of the quote. */
  function WorkingPosition(position: WalletPosition, chain: ChainQuote): WalletPosition {
    position.(stakedSharesRaw := chain.stakedSharesRaw,
              unstakedSharesRaw := chain.unstakedSharesRaw,
              exchangeRateScaled := chain.vault.exchangeRateScaled,
              instantRedeemCapacityRawUsdc := chain.instantRedeemCapacityRawUsdc,
              lastSyncedSlot := Some(chain.slot),
              version := position.version + 1)
  }

  function PrepareOnQuote(s: LedgerState, input: PrepareInput, position: WalletPosition, chain: ChainQuote): Outcome {
    var quote := VaultAdapter.SettlementQuoteFor(input.amountRawUsdc, chain.vault);
    if quote.Failure? then Outcome(s, Refused(QuoteRefused(quote.error)))
    else
      var onchain := chain.stakedSharesRaw + chain.unstakedSharesRaw;
      if onchain != position.totalSharesRaw then
        Outcome(FlagShareMovement(s, input.key, position, onchain), Refused(BaselineResetNeeded))
      else
        var working := WorkingPosition(position, chain);
        PrepareOnSnapshot(SavePosition(s, input.key, working), input, working, Some(quote.value))
  }

  function PrepareOnSnapshot(
    s: LedgerState, input: PrepareInput, working: WalletPosition, quote: Option<VaultAdapter.SettlementWithdrawQuote>)
    : Outcome
  {
    if input.policy.Some? && working.instantRedeemCapacityRawUsdc < input.policy.value.minInstantLiquidity then
      Outcome(s, Refused(BelowPolicyLiquidity))
    else
      var required := if quote.Some? then Some(quote.value.requiredWithdrawRawUsdc) else None;
      var evaluation := EvaluatePaymentBudget(working, input.amountRawUsdc, input.estimatedFeeDebtRawUsdc, required,
                                              ActiveWithdrawReserved(s.payments, input.key));
      if evaluation.Failure? then Outcome(s, Refused(BudgetRefused(evaluation.error)))
      else
        var approved :=
          if quote.Some? then quote.value.sharesToRedeemRaw + SHARES_TO_REDEEM_MARGIN
          else evaluation.value.sharesToRedeemRaw;
        if input.builtShares.None? then Outcome(s, Refused(BuilderFailed))
        else if input.builtShares.value > approved then Outcome(s, Refused(BuilderInvalid))
        else
          var payment := PaymentIntent(
            input.paymentId, input.key, input.request, input.requestBindingHash, input.amountRawUsdc,
            input.builtShares.value, evaluation.value.requiredWithdrawRawUsdc, input.estimatedFeeDebtRawUsdc,
            evaluation.value.reservationRawUsdc, input.expiresAt, None, PaymentPrepared);
          var reserved := working.(
            reservedRawUsdc := working.reservedRawUsdc + evaluation.value.reservationRawUsdc,
            version := working.version + 1);
          var s := SavePosition(s, input.key, reserved);
          Outcome(s.(payments := s.payments + [payment]), Done)
  }

  /** Settle or verify finds a prepared payment past its expiry. */
  function ExpirePreparedPayment(s: LedgerState, paymentId: nat): Outcome {
    var found := PaymentIndex(s.payments, paymentId);
    if found.None? then Outcome(s, Refused(NotFound))
    else
      var p := s.payments[found.value];
      if !p.status.PaymentPrepared? || p.expiresAt > s.now then Outcome(s, Unchanged)
      else
        var s := if p.key !in s.positions then s
                 else
                   var position := s.positions[p.key];
                   SavePosition(s, p.key, position.(
                     reservedRawUsdc := ClampToZero(position.reservedRawUsdc - p.reservationRawUsdc),
                     version := position.version + 1));
        Outcome(SavePayment(s, found.value, p.(status := PaymentExpired)), Done)
  }

  /** What settle is called with; `submission` is the signature of the submitter's record, None without a record. */
  datatype SettlePayload = SettlePayload(
    requestBindingHash: string,
    messageHashMatches: bool,
    verified: bool,
    submission: Option<string>)

  /** The submission record is stored before anything is sent; a payment past its expiry expires instead. */
  function BeginSubmission(s: LedgerState, paymentId: nat, payload: SettlePayload): Outcome {
    var found := PaymentIndex(s.payments, paymentId);
    if found.None? then Outcome(s, Refused(NotFound))
    else
      var p := s.payments[found.value];
      if !p.status.PaymentPrepared? then Outcome(s, Unchanged)
      else if p.requestBindingHash != payload.requestBindingHash || !payload.messageHashMatches then
        Outcome(s, Refused(PayloadInvalid))
      else if p.expiresAt <= s.now then ExpirePreparedPayment(s, paymentId)
      else if !payload.verified then Outcome(s, Refused(PayloadInvalid))
      else if payload.submission.None? || payload.submission.value == "" then Outcome(s, Refused(SubmitterUnavailable))
      else
        var submission := p.(status := SubmissionPrepared, txSignature := payload.submission);
        Outcome(SavePayment(s, found.value, submission), Done)
  }

  function MarkSubmittedBeforeSend(s: LedgerState, paymentId: nat): Outcome {
    var found := PaymentIndex(s.payments, paymentId);
    if found.None? then Outcome(s, Refused(NotFound))
    else
      var p := s.payments[found.value];
      if !p.status.SubmissionPrepared? then Outcome(s, Unchanged)
      else Outcome(SavePayment(s, found.value, p.(status := PaymentSubmitted)), Done)
  }

  /**
    An ambiguous submission stays submitted.  Callers have seen the payment past `prepared`, which it never re-enters,
    so a prepared payment is out of reach here and below.
   */
  function RecordPendingSubmission(s: LedgerState, paymentId: nat, txSignature: Option<string>): Outcome {
    var found := PaymentIndex(s.payments, paymentId);
    if found.None? then Outcome(s, Refused(NotFound))
    else
      var p := s.payments[found.value];
      if !HoldsReservation(p) || p.status.PaymentPrepared? then Outcome(s, Unchanged)
      else
        var signature := if p.txSignature.Some? then p.txSignature else txSignature;
        Outcome(SavePayment(s, found.value, p.(status := PaymentSubmitted, txSignature := signature)), Done)
  }

  datatype SettlementResult =
    | ResultSettled(
        txSignature: string, feeDebt: Option<nat>, sharesRedeemed: Option<nat>, sellerTransfer: Option<int>,
        withdrawOutput: Option<int>, dustTransfer: Option<int>)
    | ResultFailed(txSignature: string, feeDebt: Option<nat>)
    | ResultNotSubmitted

  function RedeemedShares(p: PaymentIntent, result: SettlementResult): nat
    requires result.ResultSettled?
  {
    OrElse(result.sharesRedeemed, p.sharesToRedeemRaw)
  }

  /** The receipt must match what was prepared: signature, share maximum, seller amount, output and dust. */
  predicate ResultAcceptable(p: PaymentIntent, result: SettlementResult) {
    && (p.txSignature.Some? && !result.ResultNotSubmitted? ==> result.txSignature == p.txSignature.value)
    && (result.ResultSettled? ==>
          var output := OrElse(result.withdrawOutput, p.requiredWithdrawRawUsdc);
          && RedeemedShares(p, result) <= p.sharesToRedeemRaw
          && result.sellerTransfer == Some(p.amountRawUsdc)
          && output >= p.amountRawUsdc
          && (result.dustTransfer.Some? ==> result.dustTransfer.value == output - p.amountRawUsdc))
  }

  datatype ShareBalances = ShareBalances(staked: nat, unstaked: nat)

  /** Unstaked shares are burned first. */
  function SubtractRedeemedShares(p: WalletPosition, redeemed: nat): ShareBalances {
    var fromUnstaked := Min(p.unstakedSharesRaw, redeemed);
    var fromStaked := Min(p.stakedSharesRaw, redeemed - fromUnstaked);
    ShareBalances(p.stakedSharesRaw - fromStaked, p.unstakedSharesRaw - fromUnstaked)
  }

  function ApplySettlementResult(position: WalletPosition, p: PaymentIntent, result: SettlementResult): WalletPosition {
    var feeDebt :=
      if result.ResultNotSubmitted? then 0 else OrElse(result.feeDebt, p.estimatedFeeDebtRawUsdc);
    var base := position.(
      reservedRawUsdc := ClampToZero(position.reservedRawUsdc - p.reservationRawUsdc),
      feeDebtRawUsdc := position.feeDebtRawUsdc + feeDebt,
      status := if feeDebt > p.estimatedFeeDebtRawUsdc then NeedsBaselineReset else position.status,
      version := position.version + 1);
    if !result.ResultSettled? then base
    else if RedeemedShares(p, result) > position.totalSharesRaw then base.(status := NeedsBaselineReset)
    else
      var shares := SubtractRedeemedShares(position, RedeemedShares(p, result));
      var output := OrElse(result.withdrawOutput, p.requiredWithdrawRawUsdc);
      base.(stakedSharesRaw := shares.staked,
            unstakedSharesRaw := shares.unstaked,
            totalSharesRaw := shares.staked + shares.unstaked,
            instantRedeemCapacityRawUsdc := ClampToZero(position.instantRedeemCapacityRawUsdc - output))
  }

  function StatusFor(result: SettlementResult): PaymentStatus {
    match result
    case ResultSettled(_, _, _, _, _, _) => Settled
    case ResultFailed(_, _) => PaymentFailed
    case ResultNotSubmitted => PaymentNotSubmitted
  }

  function FinalizeSubmittedPayment(s: LedgerState, paymentId: nat, result: SettlementResult): Outcome {
    var found := PaymentIndex(s.payments, paymentId);
    if found.None? then Outcome(s, Refused(NotFound))
    else
      var p := s.payments[found.value];
      if !HoldsReservation(p) || p.status.PaymentPrepared? then Outcome(s, Unchanged)
      else if !ResultAcceptable(p, result) then
        var s := if p.key !in s.positions then s
                 else SavePosition(s, p.key, FlagBaselineReset(s.positions[p.key]));
        var signature := if result.ResultNotSubmitted? then p.txSignature else Some(result.txSignature);
        Outcome(SavePayment(s, found.value, p.(status := PaymentSubmitted, txSignature := signature)),
                Refused(SettlementResultInvalid))
      else
        var s := if p.key !in s.positions then s
                 else SavePosition(s, p.key, ApplySettlementResult(s.positions[p.key], p, result));
        var s := if result.ResultNotSubmitted? then s
                 else
                   var burned := if result.ResultSettled? then RedeemedShares(p, result) else 0;
                   RecordEvent(s, SyncEvent(p.key, 0 - burned, 0));
        var signature := if result.ResultNotSubmitted? then None else Some(result.txSignature);
        Outcome(SavePayment(s, found.value, p.(status := StatusFor(result), txSignature := signature)), Done)
  }

  // ---- vault flows

  function ExpireStaleFlows(flows: seq<VaultFlow>, key: PositionKey, now: int): (r: seq<VaultFlow>)
    ensures |r| == |flows|
    ensures forall i | 0 <= i < |flows| ::
              r[i] == if flows[i].key == key && flows[i].status.FlowPrepared? && flows[i].expiresAt <= now
                      then flows[i].(status := FlowExpired) else flows[i]
  {
    seq(|flows|, i requires 0 <= i < |flows| =>
      if flows[i].key == key && flows[i].status.FlowPrepared? && flows[i].expiresAt <= now
      then flows[i].(status := FlowExpired) else flows[i])
  }

  /** `mandateAllows` is the spending-mandate layer's verdict. */
  datatype DepositInput = DepositInput(
    production: bool,
    flowId: nat,
    key: PositionKey,
    amountRawUsdc: nat,
    mandateAllows: bool,
    minDepositAmountRaw: nat,
    onchainShares: nat,
    built: bool,
    expiresAt: int)

  function PrepareDeposit(s0: LedgerState, input: DepositInput): Outcome {
    var key := input.key;
    if FlowIndex(s0.flows, input.flowId).Some? then Outcome(s0, Refused(AlreadyUsedId))
    else if key !in s0.positions then Outcome(s0, Refused(WalletNotRegistered))
    else
      var position := s0.positions[key];
      var refusal := SigningRefusal(position, input.production);
      if refusal.Some? then Outcome(s0, Refused(refusal.value))
      else
        var s := s0.(flows := ExpireStaleFlows(s0.flows, key, s0.now));
        if AnyFlowPending(s, key) then Outcome(s, Refused(VaultFlowPending))
        else if !input.mandateAllows then Outcome(s, Refused(MandateRefused))
        else if input.amountRawUsdc < input.minDepositAmountRaw + DEPOSIT_SHARE_ROUNDING_MARGIN_RAW then
          Outcome(s, Refused(DepositBelowMinimum))
        else if input.onchainShares != position.totalSharesRaw then
          Outcome(FlagShareMovement(s, key, position, input.onchainShares), Refused(BaselineResetNeeded))
        else if !input.built then Outcome(s, Refused(BuilderFailed))
        else
          var flow := VaultFlow(input.flowId, key, Deposit, input.amountRawUsdc, 0, input.expiresAt, 0, FlowPrepared);
          Outcome(s.(flows := s.flows + [flow]), Done)
  }

  datatype WithdrawalInput = WithdrawalInput(
    production: bool,
    flowId: nat,
    key: PositionKey,
    yieldRealize: bool,
    amountRawUsdc: nat,
    mandateAllows: bool,
    exchangeRateScaled: nat,
    withdrawalPenaltyBps: nat,
    withdrawalPenaltyLamports: nat,
    instantRedeemCapacityRawUsdc: nat,
    stakedSharesRaw: nat,
    unstakedSharesRaw: nat,
    realizeOverheadRawUsdc: nat,
    built: bool,
    expiresAt: int)

  function WithdrawalTarget(input: WithdrawalInput): nat {
    input.amountRawUsdc + if input.yieldRealize then YIELD_REALIZE_ROUNDING_RAW_USDC else 0
  }

  function WithdrawalGross(input: WithdrawalInput): nat
    requires input.withdrawalPenaltyBps < VaultAdapter.FULL_BPS
  {
    VaultAdapter.InitialGross(WithdrawalTarget(input), input.withdrawalPenaltyBps, input.withdrawalPenaltyLamports)
  }

  function OnchainShares(input: WithdrawalInput): nat {
    input.stakedSharesRaw + input.unstakedSharesRaw
  }

  function ApprovedShares(input: WithdrawalInput): nat
    requires input.withdrawalPenaltyBps < VaultAdapter.FULL_BPS
    requires input.exchangeRateScaled > 0
  {
    Min(CeilDiv(WithdrawalGross(input) * RATE_SCALE, input.exchangeRateScaled), OnchainShares(input))
  }

  /** The position as the yield guard sees it: ledger accounting on reread chain figures. */
  function OnFreshChain(p: WalletPosition, input: WithdrawalInput): WalletPosition {
    p.(stakedSharesRaw := input.stakedSharesRaw,
       unstakedSharesRaw := input.unstakedSharesRaw,
       totalSharesRaw := OnchainShares(input),
       exchangeRateScaled := input.exchangeRateScaled,
       instantRedeemCapacityRawUsdc := input.instantRedeemCapacityRawUsdc)
  }

  function PrepareWithdrawal(s0: LedgerState, input: WithdrawalInput): Outcome {
    var key := input.key;
    if FlowIndex(s0.flows, input.flowId).Some? then Outcome(s0, Refused(AlreadyUsedId))
    else if key !in s0.positions then Outcome(s0, Refused(WalletNotRegistered))
    else
      // Read before the expiry below: this copy still carries the reservations that expiry releases.
      var position := s0.positions[key];
      var refusal := SigningRefusal(position, input.production);
      if refusal.Some? then Outcome(s0, Refused(refusal.value))
      else
        var s1 := ExpirePreparedPayments(s0, key);
        if SettlementActiveFor(s1, key) then Outcome(s1, Refused(WalletLockedByPayment))
        else if exists i | 0 <= i < |s1.payments| :: s1.payments[i].key == key && s1.payments[i].status.PaymentPrepared?
        then Outcome(s1, Refused(PaymentReservationActive))
        else
          var s := s1.(flows := ExpireStaleFlows(s1.flows, key, s1.now));
          if AnyFlowPending(s, key) then Outcome(s, Refused(VaultFlowPending))
          else if !input.mandateAllows then Outcome(s, Refused(MandateRefused))
          else if OnchainShares(input) != position.totalSharesRaw then
            Outcome(FlagShareMovement(s, key, position, OnchainShares(input)), Refused(BaselineResetNeeded))
          else ApproveWithdrawal(s, input, position)
  }

  /** The last stage of a withdrawal's preparation, on the position copy read at its start. */
  function ApproveWithdrawal(s: LedgerState, input: WithdrawalInput, position: WalletPosition): Outcome {
    if input.withdrawalPenaltyBps >= VaultAdapter.FULL_BPS then Outcome(s, Refused(WithdrawIlliquid))
    else if WithdrawalGross(input) > input.instantRedeemCapacityRawUsdc then Outcome(s, Refused(WithdrawIlliquid))
    else
      var evaluation := EvaluatePaymentBudget(OnFreshChain(position, input), input.amountRawUsdc,
                                              input.realizeOverheadRawUsdc, Some(WithdrawalGross(input)), 0);
      if input.yieldRealize && evaluation.Failure? then Outcome(s, Refused(BudgetRefused(evaluation.error)))
      else if input.exchangeRateScaled == 0 || !input.built then Outcome(s, Refused(BuilderFailed))
      else
        var flow := VaultFlow(input.flowId, input.key, if input.yieldRealize then YieldRealize else NormalWithdrawal,
                              input.amountRawUsdc, ApprovedShares(input), input.expiresAt, 0, FlowPrepared);
        Outcome(s.(flows := s.flows + [flow]), Done)
  }

  /** What submission rechecks: the mandate layer's verdict on the prepared flow, and the agent's signed transaction. */
  datatype SubmitInput = SubmitInput(mandateHolds: bool, transactionVerified: bool)

  /** Submission and status reads expire a prepared flow past its deadline; otherwise submission marks it. */
  function SubmitFlow(s: LedgerState, flowId: nat, input: SubmitInput): Outcome {
    var found := FlowIndex(s.flows, flowId);
    if found.None? then Outcome(s, Refused(NotFound))
    else
      var f := s.flows[found.value];
      if !f.status.FlowPrepared? then Outcome(s, Unchanged)
      else if f.expiresAt <= s.now then Outcome(SaveFlow(s, found.value, f.(status := FlowExpired)), Done)
      else if !input.mandateHolds then Outcome(s, Refused(MandateRefused))
      else if !input.transactionVerified then Outcome(s, Refused(PayloadInvalid))
      else Outcome(SaveFlow(s, found.value, f.(status := FlowSubmitted)), Done)
  }

  function ReadFlow(s: LedgerState, flowId: nat): Outcome {
    var found := FlowIndex(s.flows, flowId);
    if found.None? then Outcome(s, Refused(NotFound))
    else
      var f := s.flows[found.value];
      if !f.status.FlowPrepared? || f.expiresAt > s.now then Outcome(s, Unchanged)
      else Outcome(SaveFlow(s, found.value, f.(status := FlowExpired)), Done)
  }

  function AbandonFlow(s: LedgerState, flowId: nat): Outcome {
    var found := FlowIndex(s.flows, flowId);
    if found.None? then Outcome(s, Refused(NotFound))
    else
      var f := s.flows[found.value];
      if !f.status.FlowSubmitted? then Outcome(s, Unchanged)
      else Outcome(SaveFlow(s, found.value, f.(status := FlowNotSubmitted)), Done)
  }

  /** Chain figures reread when a landed flow is finalized. */
  datatype Refreshed = Refreshed(
    stakedSharesRaw: nat,
    unstakedSharesRaw: nat,
    exchangeRateScaled: nat,
    instantRedeemCapacityRawUsdc: nat,
    slot: nat)

  /** `usdcDelta`: landed change of the agent's token account; `feeDebt`: None when fees cannot be converted. */
  datatype LandedFlow = LandedFlow(failed: bool, usdcDelta: int, feeDebt: Option<nat>, refreshed: Option<Refreshed>)

  function ApplyFlowFeeDebt(s: LedgerState, key: PositionKey, feeDebt: Option<nat>): LedgerState {
    if feeDebt.None? || key !in s.positions then s
    else
      var position := s.positions[key];
      SavePosition(s, key, position.(feeDebtRawUsdc := position.feeDebtRawUsdc + feeDebt.value,
                                     version := position.version + 1))
  }

  function FlagUnclassified(s: LedgerState, key: PositionKey): LedgerState {
    if key !in s.positions then s
    else RecordEvent(SavePosition(s, key, FlagBaselineReset(s.positions[key])), SyncEvent(key, 0, 0))
  }

  /** The moved amount a landed flow proves: paid in for a deposit, paid out for a withdrawal. */
  function MovedAmount(kind: FlowKind, usdcDelta: int): nat {
    ClampToZero(if kind.Deposit? then -usdcDelta else usdcDelta)
  }

  function RefreshedPosition(p: WalletPosition, reread: Refreshed, principal: nat): WalletPosition {
    p.(stakedSharesRaw := reread.stakedSharesRaw,
       unstakedSharesRaw := reread.unstakedSharesRaw,
       totalSharesRaw := reread.stakedSharesRaw + reread.unstakedSharesRaw,
       exchangeRateScaled := reread.exchangeRateScaled,
       instantRedeemCapacityRawUsdc := reread.instantRedeemCapacityRawUsdc,
       principalBasisRawUsdc := principal,
       principalBasisSource := SublyReceipts,
       lastSyncedSlot := Some(reread.slot),
       version := p.version + 1)
  }

  /** A deposit adds its receipt to the principal; a withdrawal only clamps the principal to what is left. */
  function PrincipalAfterFlow(kind: FlowKind, p: WalletPosition, reread: Refreshed, moved: nat): nat {
    if kind.Deposit? then p.principalBasisRawUsdc + moved
    else Min(p.principalBasisRawUsdc,
             PositionValue(reread.stakedSharesRaw + reread.unstakedSharesRaw, reread.exchangeRateScaled))
  }

  /** Minted shares of a deposit, or minus the burned shares of a withdrawal; never of the other sign. */
  function FlowShareDelta(kind: FlowKind, before: nat, after: nat): int {
    if kind.Deposit? then ClampToZero(after - before) else 0 - ClampToZero(before - after)
  }

  function FinalizeFlow(s0: LedgerState, flowId: nat, landed: LandedFlow): Outcome {
    var found := FlowIndex(s0.flows, flowId);
    if found.None? then Outcome(s0, Refused(NotFound))
    else
      var f := s0.flows[found.value];
      if !f.status.FlowSubmitted? then Outcome(s0, Unchanged)
      else if landed.failed then
        Outcome(SaveFlow(ApplyFlowFeeDebt(s0, f.key, landed.feeDebt), found.value, f.(status := FlowFailed)), Done)
      else
        var moved := MovedAmount(f.kind, landed.usdcDelta);
        if f.key !in s0.positions || landed.refreshed.None? || moved == 0 then
          Outcome(SaveFlow(FlagUnclassified(s0, f.key), found.value, f.(status := FlowFailed)), Done)
        else
          var before := s0.positions[f.key];
          var reread := landed.refreshed.value;
          var principal := PrincipalAfterFlow(f.kind, before, reread, moved);
          var after := RefreshedPosition(before, reread, principal);
          var s := ApplyFlowFeeDebt(SavePosition(s0, f.key, after), f.key, landed.feeDebt);
          var event := SyncEvent(f.key, FlowShareDelta(f.kind, before.totalSharesRaw, after.totalSharesRaw),
                                 principal - before.principalBasisRawUsdc);
          var confirmed := f.(status := FlowConfirmed, movedRawUsdc := moved);
          Outcome(SaveFlow(RecordEvent(s, event), found.value, confirmed), Done)
  }

  // ---- runs

  datatype Action =
    | Tick(elapsed: nat)
    | Register(key: PositionKey, registration: RegisterInput)
    | Sync(key: PositionKey, sync: SyncInput)
    | ReadBudget(key: PositionKey)
    | Prepare(payment: PrepareInput)
    | ExpirePayment(paymentId: nat)
    | Begin(paymentId: nat, payload: SettlePayload)
    | MarkSubmitted(paymentId: nat)
    | RecordPending(paymentId: nat, observedSignature: Option<string>)
    | Finalize(paymentId: nat, result: SettlementResult)
    | StartDeposit(deposit: DepositInput)
    | StartWithdrawal(withdrawal: WithdrawalInput)
    | Submit(flowId: nat, submission: SubmitInput)
    | ReadStatus(flowId: nat)
    | Abandon(flowId: nat)
    | FinalizeLanded(flowId: nat, landed: LandedFlow)

  function Perform(s: LedgerState, a: Action): Outcome {
    match a
    case Tick(elapsed) => Outcome(s.(now := s.now + elapsed), Done)
    case Register(key, registration) => RegisterAgentWallet(s, key, registration)
    case Sync(key, sync) => SyncWalletPosition(s, key, sync)
    case ReadBudget(key) =>
      if key in s.positions then Outcome(ExpirePreparedPayments(s, key), Done)
      else Outcome(s, Refused(WalletNotRegistered))
    case Prepare(payment) => PreparePayment(s, payment)
    case ExpirePayment(id) => ExpirePreparedPayment(s, id)
    case Begin(id, payload) => BeginSubmission(s, id, payload)
    case MarkSubmitted(id) => MarkSubmittedBeforeSend(s, id)
    case RecordPending(id, signature) => RecordPendingSubmission(s, id, signature)
    case Finalize(id, result) => FinalizeSubmittedPayment(s, id, result)
    case StartDeposit(deposit) => PrepareDeposit(s, deposit)
    case StartWithdrawal(withdrawal) => PrepareWithdrawal(s, withdrawal)
    case Submit(id, submission) => SubmitFlow(s, id, submission)
    case ReadStatus(id) => ReadFlow(s, id)
    case Abandon(id) => AbandonFlow(s, id)
    case FinalizeLanded(id, landed) => FinalizeFlow(s, id, landed)
  }

  function Step(s: LedgerState, a: Action): LedgerState {
    Perform(s, a).state
  }

  function RunAll(s: LedgerState, actions: seq<Action>): LedgerState
    decreases |actions|
  {
    if actions == [] then s else RunAll(Step(s, actions[0]), actions[1..])
  }

  function Initial(now: int): LedgerState {
    LedgerState(now, map[], [], [], [])
  }
}
