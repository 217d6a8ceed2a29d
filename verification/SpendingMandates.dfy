/**
  Spending mandates as a state machine for one wallet and vault: the owner's delegation and its life cycle, single-use
  approvals, and the deposits and withdrawals they authorize.  A hash is modelled by the value it is taken of, and a
  signature by the set of messages each owner has signed.
 */
module SpendingMandates {
  import opened Wrappers
  import opened Models

  const DAY_MS: nat := 24 * 60 * 60 * 1000
  const ROLLING_MONTH_MS: nat := 30 * DAY_MS
  const APPROVAL_TTL_MS: nat := 15 * 60 * 1000
  const APPROVAL_RETENTION_MS: nat := 7 * DAY_MS
  const MAX_PENDING_APPROVALS_PER_WALLET: nat := 20
  const RECOVERY_GRACE_MS: nat := 72 * 60 * 60 * 1000
  const SIGNED_AT_MAX_AGE_MS: nat := 300_000

  type OwnerKey = string

  datatype Level = Off | Warn | On

  datatype Policy = Policy(
    perPaymentCap: nat,
    dailySpendCap: Option<nat>,
    monthlySpendCap: Option<nat>,
    dailyDepositCap: Option<nat>,
    approvalThreshold: Option<nat>,
    allowedPayees: Option<set<string>>,
    depositsNeedOwner: bool,
    withdrawalsNeedOwner: bool)

  const DEFAULT_RELAYER_POLICY: Policy :=
    Policy(10_000_000, Some(100_000_000), None, Some(3_000_000_000), Some(1_000_000), None, true, false)

  predicate PositiveIfAny(cap: Option<nat>) {
    cap.Some? ==> cap.value > 0
  }

  /** Three bands: unattended up to the threshold, owner approval up to the cap, refused above. */
  predicate PolicyParses(p: Policy) {
    && p.perPaymentCap > 0
    && PositiveIfAny(p.dailySpendCap) && PositiveIfAny(p.monthlySpendCap) && PositiveIfAny(p.dailyDepositCap)
    && (p.approvalThreshold.Some? ==> p.approvalThreshold.value < p.perPaymentCap)
  }

  /** The signed payload of a mandate document. */
  datatype Mandate = Mandate(
    owner: OwnerKey,
    policy: Policy,
    issuedAt: int,
    expiresAt: int,
    initialDeposit: Option<nat>)

  datatype MandateStatus = MandateActive | RecoveryPending | Revoked

  datatype MandateRecord = MandateRecord(mandate: Mandate, status: MandateStatus, recoveryAt: Option<int>)

  datatype Binding =
    | PaymentBinding(payTo: string, amount: nat, resourceUrlHash: string, httpMethod: string)
    | DepositBinding(amount: nat)
    | WithdrawalBinding(amount: nat)

  datatype Message =
    | MandateMessage(mandate: Mandate)
    | RevokeMessage(mandate: Mandate, signedAt: int)
    | RecoveryCancelMessage(mandate: Mandate, signedAt: int)
    | ApprovalMessage(approvalId: nat, approve: bool, binding: Binding, signedAt: int)

  datatype ApprovalStatus = ApprovalPending | Approved | Denied | ApprovalExpired | Consumed

  datatype Approval = Approval(
    binding: Binding,
    mandate: Mandate,
    status: ApprovalStatus,
    expiresAt: int)

  datatype MandateEvent =
    | Registered(mandate: Mandate, at: int)
    | Replaced(mandate: Mandate, at: int)
    | RevokedEvent(mandate: Mandate, at: int)
    | RecoveryScheduled(mandate: Mandate, at: int)
    | RecoveryCancelled(mandate: Mandate, at: int)

  /** A deposit or withdrawal intent with what its authorization stamped on it. */
  datatype Intent = Intent(
    kind: FlowKind,
    amount: nat,
    payment: Option<Binding>,
    mandate: Option<Mandate>,
    approvalId: Option<nat>,
    status: FlowStatus,
    expiresAt: int,
    terminalAt: int,
    actual: nat)

  /** `issued` keeps every approval as it was first stored: identifiers are never reused. */
  datatype State = State(
    level: Level,
    now: int,
    record: Option<MandateRecord>,
    approvals: map<nat, Approval>,
    issued: seq<Approval>,
    intents: seq<Intent>,
    log: seq<MandateEvent>,
    signed: set<(OwnerKey, Message)>)

  function Initial(level: Level, now: int): State {
    State(level, now, None, map[], [], [], [], {})
  }

  // ---- the mandate's life

  datatype EffectiveStatus = EffActive | EffExpired | EffRevoked | EffRecoveryPending | EffRecoveryElapsed

  function StatusAt(record: MandateRecord, now: int): EffectiveStatus {
    if record.status.Revoked? then EffRevoked
    else if record.mandate.expiresAt <= now then EffExpired
    else if record.status.RecoveryPending? then
      if record.recoveryAt.Some? && record.recoveryAt.value <= now then EffRecoveryElapsed else EffRecoveryPending
    else EffActive
  }

  predicate FreshSignature(signedAt: int, now: int) {
    -(SIGNED_AT_MAX_AGE_MS as int) <= now - signedAt <= SIGNED_AT_MAX_AGE_MS
  }

  predicate Verifies(s: State, owner: OwnerKey, message: Message) {
    (owner, message) in s.signed
  }

  /** Structural and cryptographic checks on a submitted document. */
  predicate DocumentValid(s: State, document: Mandate, agentSigned: bool) {
    && document.issuedAt < document.expiresAt
    && document.issuedAt <= s.now + SIGNED_AT_MAX_AGE_MS
    && document.expiresAt > s.now
    && PolicyParses(document.policy)
    && Verifies(s, document.owner, MandateMessage(document))
    && agentSigned
  }

  predicate ReplaceAuthorized(s: State, existing: MandateRecord, document: Mandate) {
    var status := StatusAt(existing, s.now);
    || status.EffExpired? || status.EffRecoveryElapsed?
    || existing.mandate.owner == document.owner
    || (!status.EffRevoked? && Verifies(s, existing.mandate.owner, MandateMessage(document)))
  }

  function IssueApproval(s: State, approval: Approval): State {
    s.(approvals := s.approvals[|s.issued| := approval], issued := s.issued + [approval])
  }

  function RegisterMandate(s: State, document: Mandate, agentSigned: bool): State {
    if !DocumentValid(s, document, agentSigned) then s
    else if s.record.Some? && document.issuedAt <= s.record.value.mandate.issuedAt then s
    else if s.record.Some? && !ReplaceAuthorized(s, s.record.value, document) then s
    else
      var first := s.record.None?;
      var t := s.(record := Some(MandateRecord(document, MandateActive, None)),
                  log := s.log + [if first then Registered(document, s.now) else Replaced(document, s.now)]);
      if first && document.initialDeposit.Some? then
        IssueApproval(t, Approval(DepositBinding(document.initialDeposit.value), document, Approved,
                                  s.now + APPROVAL_TTL_MS))
      else t
  }

  function RevokeMandate(s: State, mandate: Mandate, signedAt: int): State {
    if s.record.None? || s.record.value.mandate != mandate || s.record.value.status.Revoked? then s
    else if !FreshSignature(signedAt, s.now) || !Verifies(s, mandate.owner, RevokeMessage(mandate, signedAt)) then s
    else s.(record := Some(MandateRecord(mandate, Revoked, None)), log := s.log + [RevokedEvent(mandate, s.now)])
  }

  function ScheduleRecoveryRevoke(s: State): State {
    if s.record.None? || s.record.value.status.Revoked? || StatusAt(s.record.value, s.now).EffExpired? then s
    else if s.record.value.status.RecoveryPending? && s.record.value.recoveryAt.Some? then s
    else
      var mandate := s.record.value.mandate;
      s.(record := Some(MandateRecord(mandate, RecoveryPending, Some(s.now + RECOVERY_GRACE_MS))),
         log := s.log + [RecoveryScheduled(mandate, s.now)])
  }

  function CancelRecoveryRevoke(s: State, mandate: Mandate, signedAt: int): State {
    if s.record.None? then s
    else
      var record := s.record.value;
      if StatusAt(record, s.now).EffExpired? || !record.status.RecoveryPending? || record.recoveryAt.None?
         || record.recoveryAt.value <= s.now || record.mandate != mandate then s
      else if !FreshSignature(signedAt, s.now)
              || !Verifies(s, mandate.owner, RecoveryCancelMessage(mandate, signedAt)) then s
      else s.(record := Some(MandateRecord(mandate, MandateActive, None)),
              log := s.log + [RecoveryCancelled(mandate, s.now)])
  }

  // ---- what is in force

  datatype Effective = Effective(policy: Policy, mandate: Option<Mandate>, ownerAvailable: bool, revoked: bool)

  function ResolvePolicy(s: State): Effective {
    if s.record.None? then Effective(DEFAULT_RELAYER_POLICY, None, false, false)
    else
      var record := s.record.value;
      match StatusAt(record, s.now)
      case EffRevoked => Effective(DEFAULT_RELAYER_POLICY, Some(record.mandate), false, true)
      case EffExpired => Effective(DEFAULT_RELAYER_POLICY, None, false, false)
      case EffRecoveryElapsed => Effective(DEFAULT_RELAYER_POLICY, None, false, false)
      case _ => Effective(record.mandate.policy, Some(record.mandate), true, false)
  }

  // ---- rolling sums

  predicate Pending(intent: Intent, now: int) {
    intent.status.FlowSubmitted? || (intent.status.FlowPrepared? && intent.expiresAt > now)
  }

  predicate AnyPending(s: State) {
    exists i | 0 <= i < |s.intents| :: Pending(s.intents[i], s.now)
  }

  /** What an intent counts for in the rolling sums of its kind. */
  function Counted(intent: Intent): nat {
    if intent.kind.Deposit? then intent.actual else intent.amount
  }

  function ConfirmedSum(intents: seq<Intent>, kind: FlowKind, since: int): nat {
    if intents == [] then 0
    else
      var last := intents[|intents| - 1];
      ConfirmedSum(intents[..|intents| - 1], kind, since)
      + if last.kind == kind && last.status.FlowConfirmed? && last.terminalAt >= since then Counted(last) else 0
  }

  predicate WithinCap(s: State, kind: FlowKind, cap: Option<nat>, window: nat, amount: nat) {
    cap.Some? ==> ConfirmedSum(s.intents, kind, s.now - window) + amount <= cap.value
  }

  // ---- approvals

  /** The lazy expiry view of an approval. */
  function Viewed(approval: Approval, now: int): Approval {
    if (approval.status.ApprovalPending? || approval.status.Approved?) && approval.expiresAt <= now
    then approval.(status := ApprovalExpired) else approval
  }

  predicate Prunable(approval: Approval, now: int) {
    || approval.expiresAt < now - APPROVAL_RETENTION_MS
    || approval.status.Consumed? || approval.status.Denied? || approval.status.ApprovalExpired?
  }

  function Prune(s: State): State {
    s.(approvals := map id | id in s.approvals && !Prunable(s.approvals[id], s.now) :: s.approvals[id])
  }

  predicate ApprovalInFlight(s: State, id: nat, deposit: bool) {
    exists i | 0 <= i < |s.intents| ::
      s.intents[i].approvalId == Some(id) && s.intents[i].kind.Deposit? == deposit && Pending(s.intents[i], s.now)
  }

  predicate ReusablePending(s: State, approval: Approval, binding: Binding, mandate: Mandate) {
    && approval.binding == binding && approval.mandate == mandate
    && approval.status.ApprovalPending? && approval.expiresAt > s.now
  }

  datatype Authorization =
    | Granted(mandate: Option<Mandate>, approvalId: Option<nat>)
    | Refused(reason: string)

  datatype Decision = Decision(state: State, authorization: Authorization)

  function ExpireProvided(s: State, id: nat): State {
    if id in s.approvals then s.(approvals := s.approvals[id := Viewed(s.approvals[id], s.now)]) else s
  }

  predicate Honours(s: State, id: nat, binding: Binding, mandate: Mandate) {
    && id in s.approvals
    && s.approvals[id].status.Approved?
    && s.approvals[id].mandate == mandate
    && s.approvals[id].binding == binding
    && !ApprovalInFlight(s, id, binding.DepositBinding?)
  }

  /** A provided approval is honoured once; otherwise a pending one is surfaced or created and the call is refused. */
  function RequireOperationApproval(s0: State, binding: Binding, mandate: Mandate, provided: Option<nat>): Decision {
    var s1 := Prune(s0);
    var s := if provided.Some? then ExpireProvided(s1, provided.value) else s1;
    if provided.Some? && Honours(s, provided.value, binding, mandate) then
      Decision(s, Granted(Some(mandate), provided))
    else SurfacePendingApproval(s, binding, mandate)
  }

  /** Nothing has been prepared yet: the call is refused, and the owner finds one pending approval to decide. */
  function SurfacePendingApproval(s: State, binding: Binding, mandate: Mandate): Decision {
    if exists id :: id in s.approvals && ReusablePending(s, s.approvals[id], binding, mandate) then
      Decision(s, Refused("approval_required"))
    else if |OutstandingApprovals(s)| >= MAX_PENDING_APPROVALS_PER_WALLET then
      Decision(s, Refused("too_many_pending_approvals"))
    else
      Decision(IssueApproval(s, Approval(binding, mandate, ApprovalPending, s.now + APPROVAL_TTL_MS)),
               Refused("approval_required"))
  }

  function OutstandingApprovals(s: State): set<nat> {
    set id | id in s.approvals && s.approvals[id].status.ApprovalPending? && s.approvals[id].expiresAt > s.now
  }

  /** `approve` decisions are verified against the owner of the mandate that is registered now. */
  function DecideApproval(s0: State, id: nat, approve: bool, signedAt: int): State {
    if id !in s0.approvals || s0.record.None? || s0.record.value.mandate != s0.approvals[id].mandate then s0
    else
      var s := ExpireProvided(s0, id);
      var current := s.approvals[id];
      var status := StatusAt(s.record.value, s.now);
      if !current.status.ApprovalPending? || !(status.EffActive? || status.EffRecoveryPending?) then s
      else if !FreshSignature(signedAt, s.now)
              || !Verifies(s, s.record.value.mandate.owner,
                           ApprovalMessage(id, approve, current.binding, signedAt)) then s
      else s.(approvals := s.approvals[id := current.(status := if approve then Approved else Denied)])
  }

  function ConsumeApproval(s: State, id: nat): State {
    if id !in s.approvals || !s.approvals[id].status.Approved? then s
    else s.(approvals := s.approvals[id := s.approvals[id].(status := Consumed)])
  }

  // ---- authorization

  function AuthorizeRealize(s: State, amount: nat, payment: Option<Binding>, approvalId: Option<nat>): Decision {
    if s.level.Off? then Decision(s, Granted(None, None))
    else
      var effective := ResolvePolicy(s);
      var policy := effective.policy;
      if effective.revoked then Decision(s, Refused("mandate_revoked"))
      else if s.level.Warn? then Decision(s, Granted(effective.mandate, None))
      else if payment.None? || !payment.value.PaymentBinding? then Decision(s, Refused("payment_binding_required"))
      else if payment.value.amount != amount then Decision(s, Refused("payment_binding_mismatch"))
      else if policy.allowedPayees.Some? && payment.value.payTo !in policy.allowedPayees.value then
        Decision(s, Refused("payee_not_allowed"))
      else if amount > policy.perPaymentCap then Decision(s, Refused("per_payment_cap_exceeded"))
      else if !WithinCap(s, YieldRealize, policy.dailySpendCap, DAY_MS, amount) then
        Decision(s, Refused("daily_cap_exceeded"))
      else if !WithinCap(s, YieldRealize, policy.monthlySpendCap, ROLLING_MONTH_MS, amount) then
        Decision(s, Refused("monthly_cap_exceeded"))
      else if policy.approvalThreshold.Some? && amount > policy.approvalThreshold.value then
        if !effective.ownerAvailable || effective.mandate.None? then
          Decision(s, Refused("mandate_required_for_larger_payments"))
        else RequireOperationApproval(s, payment.value, effective.mandate.value, approvalId)
      else Decision(s, Granted(effective.mandate, None))
  }

  function AuthorizeDeposit(s: State, amount: nat, approvalId: Option<nat>): Decision {
    if s.level.Off? then Decision(s, Granted(None, None))
    else
      var effective := ResolvePolicy(s);
      if effective.revoked then Decision(s, Refused("mandate_revoked"))
      else if s.level.Warn? then Decision(s, Granted(effective.mandate, None))
      else if !WithinCap(s, Deposit, effective.policy.dailyDepositCap, DAY_MS, amount) then
        Decision(s, Refused("daily_deposit_cap_exceeded"))
      else if effective.policy.depositsNeedOwner then
        if !effective.ownerAvailable || effective.mandate.None? then
          Decision(s, Refused("mandate_required_for_deposit"))
        else RequireOperationApproval(s, DepositBinding(amount), effective.mandate.value, approvalId)
      else Decision(s, Granted(effective.mandate, None))
  }

  function AuthorizeWithdrawal(s: State, amount: nat, approvalId: Option<nat>): Decision {
    if s.level.Off? then Decision(s, Granted(None, None))
    else
      var effective := ResolvePolicy(s);
      if effective.revoked then Decision(s, Refused("mandate_revoked"))
      else if s.level.On? && effective.policy.withdrawalsNeedOwner && effective.mandate.Some? then
        RequireOperationApproval(s, WithdrawalBinding(amount), effective.mandate.value, approvalId)
      else Decision(s, Granted(effective.mandate, None))
  }

  function Authorize(
    s: State, kind: FlowKind, amount: nat, payment: Option<Binding>, approvalId: Option<nat>): Decision
  {
    match kind
    case YieldRealize => AuthorizeRealize(s, amount, payment, approvalId)
    case Deposit => AuthorizeDeposit(s, amount, approvalId)
    case NormalWithdrawal => AuthorizeWithdrawal(s, amount, approvalId)
  }

  /** Checked again under the lock immediately before the sponsor signs. */
  predicate PreparedAuthorizationHolds(s: State, intent: Intent) {
    s.level.Off?
    || (var effective := ResolvePolicy(s);
        && !effective.revoked
        && effective.mandate == intent.mandate
        && (intent.approvalId.Some? ==>
              && intent.approvalId.value in s.approvals
              && (var approval := s.approvals[intent.approvalId.value];
                  && Some(approval.mandate) == intent.mandate
                  && approval.status.Approved? && approval.expiresAt > s.now)))
  }

  // ---- flows

  function ExpireStale(intents: seq<Intent>, now: int): (r: seq<Intent>)
    ensures |r| == |intents|
    ensures forall i | 0 <= i < |intents| ::
              r[i] == if intents[i].status.FlowPrepared? && intents[i].expiresAt <= now
                      then intents[i].(status := FlowExpired, terminalAt := now) else intents[i]
  {
    seq(|intents|, i requires 0 <= i < |intents| =>
      if intents[i].status.FlowPrepared? && intents[i].expiresAt <= now
      then intents[i].(status := FlowExpired, terminalAt := now) else intents[i])
  }

  /** `built`: whether the rest of the preparation, the ledger's own checks, goes through. */
  function PrepareIntent(
    s0: State, kind: FlowKind, amount: nat, payment: Option<Binding>, approvalId: Option<nat>, expiresAt: int,
    built: bool)
    : State
  {
    var s := s0.(intents := ExpireStale(s0.intents, s0.now));
    if AnyPending(s) then s
    else
      var decision := Authorize(s, kind, amount, payment, approvalId);
      if decision.authorization.Refused? || !built then decision.state
      else
        var t := decision.state;
        t.(intents := t.intents + [Intent(kind, amount, payment, decision.authorization.mandate,
                                          decision.authorization.approvalId, FlowPrepared, expiresAt, 0, 0)])
  }

  function SaveIntent(s: State, i: nat, intent: Intent): State
    requires i < |s.intents|
  {
    s.(intents := s.intents[i := intent])
  }

  function SubmitIntent(s: State, i: nat): State {
    if i >= |s.intents| || !s.intents[i].status.FlowPrepared? then s
    else if s.intents[i].expiresAt <= s.now then
      SaveIntent(s, i, s.intents[i].(status := FlowExpired, terminalAt := s.now))
    else if !PreparedAuthorizationHolds(s, s.intents[i]) then s
    else SaveIntent(s, i, s.intents[i].(status := FlowSubmitted))
  }

  function EndIntent(s: State, i: nat, status: FlowStatus): State {
    if i >= |s.intents| || !s.intents[i].status.FlowSubmitted? then s
    else SaveIntent(s, i, s.intents[i].(status := status, terminalAt := s.now))
  }

  function ConfirmIntent(s: State, i: nat, actual: nat): State {
    if i >= |s.intents| || !s.intents[i].status.FlowSubmitted? then s
    else
      var confirmed := s.intents[i].(status := FlowConfirmed, terminalAt := s.now, actual := actual);
      var t := SaveIntent(s, i, confirmed);
      if confirmed.approvalId.Some? then ConsumeApproval(t, confirmed.approvalId.value) else t
  }

  // ---- runs

  datatype Action =
    | Tick(elapsed: nat)
    | OwnerSigns(owner: OwnerKey, message: Message)
    | Register(document: Mandate, agentSigned: bool)
    | Revoke(mandate: Mandate, signedAt: int)
    | ScheduleRecovery
    | CancelRecovery(mandate: Mandate, signedAt: int)
    | Decide(approvalId: nat, approve: bool, signedAt: int)
    | Prepare(kind: FlowKind, amount: nat, payment: Option<Binding>, provided: Option<nat>, expiresAt: int, built: bool)
    | Submit(intent: nat)
    | Confirm(intent: nat, actual: nat)
    | FailLanded(intent: nat)
    | Abandon(intent: nat)

  function Step(s: State, a: Action): State {
    match a
    case Tick(elapsed) => s.(now := s.now + elapsed)
    case OwnerSigns(owner, message) => s.(signed := s.signed + {(owner, message)})
    case Register(document, agentSigned) => RegisterMandate(s, document, agentSigned)
    case Revoke(mandate, signedAt) => RevokeMandate(s, mandate, signedAt)
    case ScheduleRecovery => ScheduleRecoveryRevoke(s)
    case CancelRecovery(mandate, signedAt) => CancelRecoveryRevoke(s, mandate, signedAt)
    case Decide(id, approve, signedAt) => DecideApproval(s, id, approve, signedAt)
    case Prepare(kind, amount, payment, provided, expiresAt, built) =>
      PrepareIntent(s, kind, amount, payment, provided, expiresAt, built)
    case Submit(i) => SubmitIntent(s, i)
    case Confirm(i, actual) => ConfirmIntent(s, i, actual)
    case FailLanded(i) => EndIntent(s, i, FlowFailed)
    case Abandon(i) => EndIntent(s, i, FlowNotSubmitted)
  }

  function RunAll(s: State, actions: seq<Action>): State
    decreases |actions|
  {
    if actions == [] then s else RunAll(Step(s, actions[0]), actions[1..])
  }
}
