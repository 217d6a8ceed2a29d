/**
  What each operation of the mandate layer answers and stores, said of the registered mandate, the approvals and the
  intents alone; and what every prepared intent of a run under enforcement therefore carries.
 */
module MandateOutcomes {
  import opened Wrappers
  import opened Models
  import opened SpendingMandates
  import opened MandateOwnership

  // ---- what is in force

  predicate RevokedNow(s: State) {
    s.record.Some? && s.record.value.status == Revoked
  }

  /** Registered, not revoked, not expired, and no recovery has run its window. */
  predicate Governs(s: State, mandate: Mandate) {
    && s.record.Some? && s.record.value.mandate == mandate
    && s.record.value.status != Revoked
    && s.now < mandate.expiresAt
    && (s.record.value.status == RecoveryPending && s.record.value.recoveryAt.Some? ==>
          s.now < s.record.value.recoveryAt.value)
  }

  function Governing(s: State): Option<Mandate> {
    if s.record.Some? && Governs(s, s.record.value.mandate) then Some(s.record.value.mandate) else None
  }

  function RulesOf(mandate: Option<Mandate>): Policy {
    match mandate
    case Some(m) => m.policy
    case None => DEFAULT_RELAYER_POLICY
  }

  /** A mandate in force gives its policy and an owner to ask; otherwise the relayer's default holds, without one. */
  lemma PolicyOfTheMandateInForce(s: State)
    ensures
      var effective := ResolvePolicy(s);
      && (effective.revoked <==> RevokedNow(s))
      && (!RevokedNow(s) ==>
            && effective.mandate == Governing(s) && effective.policy == RulesOf(Governing(s))
            && (effective.ownerAvailable <==> Governing(s).Some?))
  {
  }

  /** The default: ten USDC a payment and a hundred a day, owner approval above one, no deposit without an owner. */
  lemma DefaultPolicyIsBounded()
    ensures
      var p := DEFAULT_RELAYER_POLICY;
      && PolicyParses(p)
      && p.perPaymentCap == 10_000_000 && p.dailySpendCap == Some(100_000_000)
      && p.dailyDepositCap == Some(3_000_000_000) && p.approvalThreshold == Some(1_000_000)
      && p.depositsNeedOwner && !p.withdrawalsNeedOwner && p.allowedPayees == None && p.monthlySpendCap == None
  {
  }

  // ---- approvals

  predicate Open(f: Intent, now: int) {
    f.status == FlowSubmitted || (f.status == FlowPrepared && now < f.expiresAt)
  }

  /** Approved, in time, for this very operation under this very mandate, and not yet carried by an open intent. */
  predicate Usable(s: State, id: nat, binding: Binding, mandate: Mandate) {
    && id in s.approvals
    && s.approvals[id].status == Approved && s.now < s.approvals[id].expiresAt
    && s.approvals[id].binding == binding && s.approvals[id].mandate == mandate
    && forall i | 0 <= i < |s.intents| && s.intents[i].approvalId == Some(id) ::
         (s.intents[i].kind == Deposit <==> binding.DepositBinding?) ==> !Open(s.intents[i], s.now)
  }

  predicate UsableIfGiven(s: State, provided: Option<nat>, binding: Binding, mandate: Mandate) {
    provided.Some? && Usable(s, provided.value, binding, mandate)
  }

  lemma EscalationGrantsExactlyWhen(s: State, binding: Binding, mandate: Mandate, provided: Option<nat>)
    ensures
      var decision := RequireOperationApproval(s, binding, mandate, provided);
      && (decision.authorization.Granted? <==> UsableIfGiven(s, provided, binding, mandate))
      && (decision.authorization.Granted? ==> decision.authorization == Granted(Some(mandate), provided))
  {
    if provided.Some? {
      var t := ExpireProvided(Prune(s), provided.value);
      assert t.intents == s.intents && t.now == s.now;
      assert ApprovalInFlight(t, provided.value, binding.DepositBinding?)
             <==> exists i :: 0 <= i < |s.intents| && s.intents[i].approvalId == Some(provided.value)
                              && (s.intents[i].kind == Deposit <==> binding.DepositBinding?)
                              && Open(s.intents[i], s.now)
        by {
          forall i | 0 <= i < |s.intents| ensures Pending(s.intents[i], s.now) <==> Open(s.intents[i], s.now) {
          }
        }
    }
  }

  /** Waiting for the owner: pending, in time, for this operation under this mandate. */
  predicate AwaitsOwner(s: State, id: nat, binding: Binding, mandate: Mandate) {
    && id in s.approvals
    && s.approvals[id].status == ApprovalPending && s.now < s.approvals[id].expiresAt
    && s.approvals[id].binding == binding && s.approvals[id].mandate == mandate
  }

  /** A call refused for want of approval leaves the owner a pending one: reused, or new for fifteen minutes. */
  lemma RefusedEscalationAsksTheOwner(s: State, binding: Binding, mandate: Mandate, provided: Option<nat>)
    returns (id: nat)
    requires RequireOperationApproval(s, binding, mandate, provided).authorization == Refused("approval_required")
    ensures
      var t := RequireOperationApproval(s, binding, mandate, provided).state;
      && AwaitsOwner(t, id, binding, mandate)
      && (t.issued == s.issued
          || (&& id == |s.issued|
              && t.issued == s.issued + [Approval(binding, mandate, ApprovalPending, s.now + 15 * 60 * 1000)]
              && t.approvals[id] == t.issued[id]))
  {
    var t := RequireOperationApproval(s, binding, mandate, provided).state;
    var u := if provided.Some? then ExpireProvided(Prune(s), provided.value) else Prune(s);
    if k :| k in u.approvals && ReusablePending(u, u.approvals[k], binding, mandate) {
      id := k;
    } else {
      id := |s.issued|;
      assert t == IssueApproval(u, Approval(binding, mandate, ApprovalPending, u.now + APPROVAL_TTL_MS));
    }
  }

  /** At most twenty wait for the owner at a time; a call beyond that is refused without a new one. */
  lemma TooManyPendingExactlyAtTwenty(s: State, binding: Binding, mandate: Mandate, provided: Option<nat>)
    requires !UsableIfGiven(s, provided, binding, mandate)
    ensures
      var decision := RequireOperationApproval(s, binding, mandate, provided);
      var u := if provided.Some? then ExpireProvided(Prune(s), provided.value) else Prune(s);
      && decision.authorization
         == (if (forall id | id in u.approvals :: !AwaitsOwner(u, id, binding, mandate))
                && |set id | id in u.approvals && u.approvals[id].status == ApprovalPending
                             && s.now < u.approvals[id].expiresAt| >= 20
             then Refused("too_many_pending_approvals") else Refused("approval_required"))
      && (decision.authorization == Refused("too_many_pending_approvals") ==> decision.state == u)
  {
    EscalationGrantsExactlyWhen(s, binding, mandate, provided);
    var u := if provided.Some? then ExpireProvided(Prune(s), provided.value) else Prune(s);
    assert OutstandingApprovals(u) == set id | id in u.approvals && u.approvals[id].status == ApprovalPending
                                               && s.now < u.approvals[id].expiresAt;
    assert (exists id :: id in u.approvals && ReusablePending(u, u.approvals[id], binding, mandate))
           <==> !(forall id | id in u.approvals :: !AwaitsOwner(u, id, binding, mandate)) by {
      forall id | id in u.approvals
        ensures ReusablePending(u, u.approvals[id], binding, mandate) <==> AwaitsOwner(u, id, binding, mandate)
      {
      }
    }
  }

  /** Pruning drops what is decided for good or a week past its time, and keeps everything else untouched. */
  lemma PruningKeepsWhatIsOpen(s: State, id: nat)
    ensures
      var t := Prune(s);
      && t == s.(approvals := t.approvals)
      && (id in t.approvals ==> id in s.approvals && t.approvals[id] == s.approvals[id])
      && (id in s.approvals ==>
            (id in t.approvals
             <==> && (s.approvals[id].status == ApprovalPending || s.approvals[id].status == Approved)
                  && s.approvals[id].expiresAt + 7 * 24 * 60 * 60 * 1000 >= s.now))
  {
  }

  /** The owner in force decides a pending approval in time with a fresh signature over that very decision. */
  lemma DecisionExactlyWhenSigned(s: State, id: nat, approve: bool, signedAt: int)
    ensures
      var t := DecideApproval(s, id, approve, signedAt);
      var decided := t.(approvals := s.approvals);
      && decided == s && t.approvals.Keys == s.approvals.Keys
      && (forall k | k in s.approvals && k != id :: t.approvals[k] == s.approvals[k])
      && (id in s.approvals ==>
            var b, a := s.approvals[id], t.approvals[id];
            && a == b.(status := a.status)
            && (Decides(s, b, id, approve, signedAt) ==> a.status == if approve then Approved else Denied)
            && (!Decides(s, b, id, approve, signedAt) ==>
                  a.status == b.status || (a.status == ApprovalExpired && b.expiresAt <= s.now)))
  {
  }

  predicate Decides(s: State, approval: Approval, id: nat, approve: bool, signedAt: int) {
    && Governing(s) == Some(approval.mandate)
    && approval.status == ApprovalPending && s.now < approval.expiresAt
    && s.now - 300_000 <= signedAt <= s.now + 300_000
    && (approval.mandate.owner, ApprovalMessage(id, approve, approval.binding, signedAt)) in s.signed
  }

  /** Consumption spends an approved approval and touches nothing else. */
  lemma ConsumptionSpendsApproved(s: State, id: nat)
    ensures ConsumeApproval(s, id)
            == if id in s.approvals && s.approvals[id].status == Approved
               then s.(approvals := s.approvals[id := s.approvals[id].(status := Consumed)]) else s
  {
  }

  // ---- the gates

  /** What has confirmed since, and would with the amount, stays within the cap. */
  predicate LeavesRoom(s: State, kind: FlowKind, cap: Option<nat>, window: nat, amount: nat) {
    match cap
    case None => true
    case Some(limit) => limit >= amount + ConfirmedSum(s.intents, kind, s.now - window)
  }

  /** The rules for a realize: payment named, payee allowed, within the payment's cap and both rolling caps. */
  predicate RealizeWithinRules(s: State, rules: Policy, amount: nat, payment: Option<Binding>) {
    && (match payment
        case Some(PaymentBinding(payTo, named, _, _)) => named == amount && PayeeAllowed(rules, payTo)
        case _ => false)
    && amount <= rules.perPaymentCap
    && LeavesRoom(s, YieldRealize, rules.dailySpendCap, 24 * 60 * 60 * 1000, amount)
    && LeavesRoom(s, YieldRealize, rules.monthlySpendCap, 30 * 24 * 60 * 60 * 1000, amount)
  }

  predicate PayeeAllowed(rules: Policy, payTo: string) {
    match rules.allowedPayees
    case None => true
    case Some(allowed) => payTo in allowed
  }

  predicate AboveThreshold(rules: Policy, amount: nat) {
    match rules.approvalThreshold
    case None => false
    case Some(threshold) => threshold < amount
  }

  /**
    The realize gate, whole: with enforcement off everything passes; a revocation stops everything else; on, the rules
    must hold, and above the threshold an owner's usable approval is what it takes, and all it takes.
   */
  lemma RealizeGrantedExactlyWhen(s: State, amount: nat, payment: Option<Binding>, provided: Option<nat>)
    ensures
      var authorization := AuthorizeRealize(s, amount, payment, provided).authorization;
      var rules := RulesOf(Governing(s));
      && (authorization.Granted?
          <==> || s.level == Off
               || (&& !RevokedNow(s)
                   && (s.level == Warn
                       || (&& RealizeWithinRules(s, rules, amount, payment)
                           && (AboveThreshold(rules, amount) ==>
                                 && Governing(s).Some?
                                 && UsableIfGiven(s, provided, payment.value, Governing(s).value))))))
      && (authorization.Granted? ==>
            authorization == Granted(if s.level == Off then None else Governing(s),
                                     if s.level == On && AboveThreshold(rules, amount) then provided else None))
  {
    PolicyOfTheMandateInForce(s);
    if Governing(s).Some? && payment.Some? {
      EscalationGrantsExactlyWhen(s, payment.value, Governing(s).value, provided);
    }
  }

  /** The deposit gate: the rolling cap, and an owner's usable approval where the rules ask for it. */
  lemma DepositGrantedExactlyWhen(s: State, amount: nat, provided: Option<nat>)
    ensures
      var authorization := AuthorizeDeposit(s, amount, provided).authorization;
      var rules := RulesOf(Governing(s));
      && (authorization.Granted?
          <==> || s.level == Off
               || (&& !RevokedNow(s)
                   && (s.level == Warn
                       || (&& LeavesRoom(s, Deposit, rules.dailyDepositCap, 24 * 60 * 60 * 1000, amount)
                           && (rules.depositsNeedOwner ==>
                                 && Governing(s).Some?
                                 && UsableIfGiven(s, provided, DepositBinding(amount), Governing(s).value))))))
      && (authorization.Granted? ==>
            authorization == Granted(if s.level == Off then None else Governing(s),
                                     if s.level == On && rules.depositsNeedOwner then provided else None))
  {
    PolicyOfTheMandateInForce(s);
    if Governing(s).Some? {
      EscalationGrantsExactlyWhen(s, DepositBinding(amount), Governing(s).value, provided);
    }
  }

  /** The withdrawal gate: open unless revoked, or unless the mandate asks for the owner's approval. */
  lemma WithdrawalGrantedExactlyWhen(s: State, amount: nat, provided: Option<nat>)
    ensures
      var authorization := AuthorizeWithdrawal(s, amount, provided).authorization;
      var asks := Governing(s).Some? && Governing(s).value.policy.withdrawalsNeedOwner;
      && (authorization.Granted?
          <==> || s.level == Off
               || (&& !RevokedNow(s)
                   && (s.level == On && asks ==>
                         UsableIfGiven(s, provided, WithdrawalBinding(amount), Governing(s).value))))
      && (authorization.Granted? ==>
            authorization == Granted(if s.level == Off then None else Governing(s),
                                     if s.level == On && asks then provided else None))
  {
    PolicyOfTheMandateInForce(s);
    if Governing(s).Some? {
      EscalationGrantsExactlyWhen(s, WithdrawalBinding(amount), Governing(s).value, provided);
    }
  }

  // ---- the reasons given

  predicate RealizeCause(s: State, amount: nat, payment: Option<Binding>, provided: Option<nat>, reason: string) {
    var rules := RulesOf(Governing(s));
    var named := payment.Some? && payment.value.PaymentBinding?;
    || (reason == "mandate_revoked" && RevokedNow(s))
    || (reason == "payment_binding_required" && !named)
    || (reason == "payment_binding_mismatch" && named && payment.value.amount != amount)
    || (reason == "payee_not_allowed" && named && !PayeeAllowed(rules, payment.value.payTo))
    || (reason == "per_payment_cap_exceeded" && amount > rules.perPaymentCap)
    || (reason == "daily_cap_exceeded"
        && !LeavesRoom(s, YieldRealize, rules.dailySpendCap, 24 * 60 * 60 * 1000, amount))
    || (reason == "monthly_cap_exceeded"
        && !LeavesRoom(s, YieldRealize, rules.monthlySpendCap, 30 * 24 * 60 * 60 * 1000, amount))
    || (AboveThreshold(rules, amount)
        && (|| (reason == "mandate_required_for_larger_payments" && Governing(s) == None)
            || (named && AsksTheOwner(s, payment.value, provided, reason))))
  }

  predicate DepositCause(s: State, amount: nat, provided: Option<nat>, reason: string) {
    var rules := RulesOf(Governing(s));
    || (reason == "mandate_revoked" && RevokedNow(s))
    || (reason == "daily_deposit_cap_exceeded"
        && !LeavesRoom(s, Deposit, rules.dailyDepositCap, 24 * 60 * 60 * 1000, amount))
    || (rules.depositsNeedOwner
        && (|| (reason == "mandate_required_for_deposit" && Governing(s) == None)
            || AsksTheOwner(s, DepositBinding(amount), provided, reason)))
  }

  /** There is an owner to ask, and what was provided does not answer for the operation. */
  predicate AsksTheOwner(s: State, binding: Binding, provided: Option<nat>, reason: string) {
    && (reason == "approval_required" || reason == "too_many_pending_approvals")
    && Governing(s).Some? && !UsableIfGiven(s, provided, binding, Governing(s).value)
  }

  lemma EscalationRefusalsAreTrue(s: State, binding: Binding, provided: Option<nat>)
    requires Governing(s).Some?
    ensures
      var authorization := RequireOperationApproval(s, binding, Governing(s).value, provided).authorization;
      authorization.Refused? ==> AsksTheOwner(s, binding, provided, authorization.reason)
  {
    EscalationGrantsExactlyWhen(s, binding, Governing(s).value, provided);
  }

  /** A refusal of a gate names a cause that holds. */
  lemma RealizeRefusalsAreTrue(s: State, amount: nat, payment: Option<Binding>, provided: Option<nat>)
    ensures
      var authorization := AuthorizeRealize(s, amount, payment, provided).authorization;
      authorization.Refused? ==> RealizeCause(s, amount, payment, provided, authorization.reason)
  {
    PolicyOfTheMandateInForce(s);
    if Governing(s).Some? && payment.Some? {
      EscalationRefusalsAreTrue(s, payment.value, provided);
    }
  }

  lemma DepositRefusalsAreTrue(s: State, amount: nat, provided: Option<nat>)
    ensures
      var authorization := AuthorizeDeposit(s, amount, provided).authorization;
      authorization.Refused? ==> DepositCause(s, amount, provided, authorization.reason)
  {
    PolicyOfTheMandateInForce(s);
    if Governing(s).Some? {
      EscalationRefusalsAreTrue(s, DepositBinding(amount), provided);
    }
  }

  lemma WithdrawalRefusalsAreTrue(s: State, amount: nat, provided: Option<nat>)
    ensures
      var authorization := AuthorizeWithdrawal(s, amount, provided).authorization;
      authorization.Refused? ==>
        || (authorization.reason == "mandate_revoked" && RevokedNow(s))
        || AsksTheOwner(s, WithdrawalBinding(amount), provided, authorization.reason)
  {
    PolicyOfTheMandateInForce(s);
    if Governing(s).Some? {
      EscalationRefusalsAreTrue(s, WithdrawalBinding(amount), provided);
    }
  }

  /** An escalation keeps what is stored, but for what pruning drops, the expiry it notices, and what it issues. */
  lemma EscalationKeepsApprovals(s: State, binding: Binding, mandate: Mandate, provided: Option<nat>, k: nat)
    ensures
      var t := RequireOperationApproval(s, binding, mandate, provided).state;
      && t == s.(approvals := t.approvals, issued := t.issued)
      && (k in t.approvals && k != |s.issued| ==>
            && k in s.approvals
            && (t.approvals[k] == s.approvals[k]
                || (&& provided == Some(k) && s.approvals[k].expiresAt <= s.now
                    && t.approvals[k] == s.approvals[k].(status := ApprovalExpired))))
      && (k != |s.issued| && k in s.approvals
          && s.approvals[k].status == ApprovalPending && s.now < s.approvals[k].expiresAt ==>
            k in t.approvals && t.approvals[k] == s.approvals[k])
  {
  }

  // ---- sums

  /** A confirmed deposit counts what landed, a confirmed realize what was asked for, from the cut-off on. */
  lemma {:induction false} SumsAddUp(before: seq<Intent>, intent: Intent, kind: FlowKind, since: int)
    ensures ConfirmedSum([], kind, since) == 0
    ensures ConfirmedSum(before + [intent], kind, since)
            == ConfirmedSum(before, kind, since)
               + if intent.kind != kind || intent.status != FlowConfirmed || intent.terminalAt < since then 0
                 else if kind == Deposit then intent.actual else intent.amount
  {
    assert (before + [intent])[..|before|] == before;
  }

  // ---- the mandate's life

  /** A document in order: dates, bands, the owner's signature and the agent's. */
  predicate InOrder(s: State, document: Mandate, agentSigned: bool) {
    && document.issuedAt < document.expiresAt && s.now < document.expiresAt
    && document.issuedAt <= s.now + 300_000
    && PolicyParses(document.policy)
    && (document.owner, MandateMessage(document)) in s.signed && agentSigned
  }

  /** Every cap positive, and the unattended band strictly below the payment's cap. */
  lemma PoliciesParseExactlyWhen(p: Policy)
    ensures PolicyParses(p)
            <==> && p.perPaymentCap >= 1
                 && p.dailySpendCap != Some(0) && p.monthlySpendCap != Some(0) && p.dailyDepositCap != Some(0)
                 && (p.approvalThreshold == None || OrElseZero(p.approvalThreshold) < p.perPaymentCap)
  {
  }

  function OrElseZero(value: Option<nat>): nat {
    match value
    case Some(v) => v
    case None => 0
  }

  /** Who may succeed: the owner, anybody once the mandate lapsed unrevoked, or an heir the owner co-signed. */
  predicate MaySucceed(s: State, document: Mandate)
    requires s.record.Some?
  {
    var current := s.record.value.mandate;
    || current.owner == document.owner
    || (Governing(s) == None && !RevokedNow(s))
    || (!RevokedNow(s) && (current.owner, MandateMessage(document)) in s.signed)
  }

  predicate Registers(s: State, document: Mandate, agentSigned: bool) {
    && InOrder(s, document, agentSigned)
    && (s.record.Some? ==> s.record.value.mandate.issuedAt < document.issuedAt && MaySucceed(s, document))
  }

  /** Registration takes exactly such a document; the first one brings the approval of its initial deposit. */
  lemma RegistersExactlyWhen(s: State, document: Mandate, agentSigned: bool)
    ensures
      var t := RegisterMandate(s, document, agentSigned);
      if !Registers(s, document, agentSigned) then t == s
      else
        && t.record == Some(MandateRecord(document, MandateActive, None))
        && t.log == s.log + [if s.record == None then Registered(document, s.now) else Replaced(document, s.now)]
        && t == s.(record := t.record, log := t.log, approvals := t.approvals, issued := t.issued)
        && (match document.initialDeposit
            case Some(amount) =>
              if s.record == None then
                var approval := Approval(DepositBinding(amount), document, Approved, s.now + 15 * 60 * 1000);
                t.issued == s.issued + [approval] && t.approvals == s.approvals[|s.issued| := approval]
              else t.issued == s.issued && t.approvals == s.approvals
            case None => t.issued == s.issued && t.approvals == s.approvals)
  {
  }

  predicate FreshlySigned(s: State, owner: OwnerKey, message: Message, signedAt: int) {
    s.now - 300_000 <= signedAt <= s.now + 300_000 && (owner, message) in s.signed
  }

  /** The owner revokes the registered mandate at any time, once; a recovery starts and ends as its clock says. */
  lemma RevocationAndRecovery(s: State, mandate: Mandate, signedAt: int)
    ensures
      var registered := s.record.Some? && s.record.value.mandate == mandate;
      && RevokeMandate(s, mandate, signedAt)
         == (if registered && !RevokedNow(s)
                && FreshlySigned(s, mandate.owner, RevokeMessage(mandate, signedAt), signedAt)
             then s.(record := Some(MandateRecord(mandate, Revoked, None)),
                     log := s.log + [RevokedEvent(mandate, s.now)])
             else s)
      && CancelRecoveryRevoke(s, mandate, signedAt)
         == (if registered && s.record.value.status == RecoveryPending && s.record.value.recoveryAt != None
                && Governs(s, mandate)
                && FreshlySigned(s, mandate.owner, RecoveryCancelMessage(mandate, signedAt), signedAt)
             then s.(record := Some(MandateRecord(mandate, MandateActive, None)),
                     log := s.log + [RecoveryCancelled(mandate, s.now)])
             else s)
      && (registered ==>
            ScheduleRecoveryRevoke(s)
            == (if !RevokedNow(s) && s.now < mandate.expiresAt
                   && !(s.record.value.status == RecoveryPending && s.record.value.recoveryAt != None)
                then s.(record := Some(MandateRecord(mandate, RecoveryPending, Some(s.now + 72 * 60 * 60 * 1000))),
                        log := s.log + [RecoveryScheduled(mandate, s.now)])
                else s))
      && (s.record == None ==> ScheduleRecoveryRevoke(s) == s)
  {
  }

  // ---- intents

  /** Late prepared intents have expired, the rest are as they were. */
  predicate Expired(before: seq<Intent>, after: seq<Intent>, now: int) {
    && |after| >= |before|
    && forall i | 0 <= i < |before| ::
         after[i] == if before[i].status == FlowPrepared && before[i].expiresAt <= now
                     then before[i].(status := FlowExpired, terminalAt := now) else before[i]
  }

  /** A preparation adds its intent, stamped as authorized, when none is open, the gate grants and it is built. */
  lemma PreparationExactlyWhen(s: State, kind: FlowKind, amount: nat, payment: Option<Binding>, provided: Option<nat>,
                               expiresAt: int, built: bool)
    ensures
      var t := PrepareIntent(s, kind, amount, payment, provided, expiresAt, built);
      var u := s.(intents := ExpireStale(s.intents, s.now));
      var free := forall i | 0 <= i < |s.intents| :: !Open(s.intents[i], s.now);
      var authorization := Authorize(u, kind, amount, payment, provided).authorization;
      && Expired(s.intents, t.intents, s.now)
      && (|t.intents| == |s.intents| + 1 <==> free && authorization.Granted? && built)
      && (|t.intents| == |s.intents| + 1 ==>
            && t.intents[|s.intents|].kind == kind && t.intents[|s.intents|].amount == amount
            && t.intents[|s.intents|].payment == payment && t.intents[|s.intents|].status == FlowPrepared
            && t.intents[|s.intents|].expiresAt == expiresAt && t.intents[|s.intents|].actual == 0
            && authorization == Granted(t.intents[|s.intents|].mandate, t.intents[|s.intents|].approvalId))
      && (|t.intents| != |s.intents| + 1 ==> |t.intents| == |s.intents|)
      && (!free ==> t == u)
  {
    var u := s.(intents := ExpireStale(s.intents, s.now));
    AuthorizationLeavesMandate(u, kind, amount, payment, provided);
    assert AnyPending(u) <==> exists i :: 0 <= i < |s.intents| && Open(s.intents[i], s.now) by {
      forall i | 0 <= i < |s.intents| ensures Pending(u.intents[i], s.now) <==> Open(s.intents[i], s.now) {
      }
    }
  }

  /** What submission rechecks of a prepared intent under active checks. */
  predicate StillAuthorized(s: State, intent: Intent) {
    || s.level == Off
    || (&& !RevokedNow(s) && Governing(s) == intent.mandate
        && (match intent.approvalId
            case None => true
            case Some(id) =>
              && id in s.approvals && Some(s.approvals[id].mandate) == intent.mandate
              && s.approvals[id].status == Approved && s.now < s.approvals[id].expiresAt))
  }

  lemma RecheckExactlyWhen(s: State, intent: Intent)
    ensures PreparedAuthorizationHolds(s, intent) <==> StillAuthorized(s, intent)
  {
    PolicyOfTheMandateInForce(s);
  }

  /** The life of an intent after its preparation, move by move. */
  lemma IntentMovesExactlyWhen(s: State, i: nat, actual: nat, status: FlowStatus)
    requires i < |s.intents|
    ensures
      var f := s.intents[i];
      && SubmitIntent(s, i)
         == (if f.status != FlowPrepared then s
             else if f.expiresAt <= s.now
             then s.(intents := s.intents[i := f.(status := FlowExpired, terminalAt := s.now)])
             else if StillAuthorized(s, f) then s.(intents := s.intents[i := f.(status := FlowSubmitted)])
             else s)
      && EndIntent(s, i, status)
         == (if f.status == FlowSubmitted
             then s.(intents := s.intents[i := f.(status := status, terminalAt := s.now)]) else s)
      && var t := ConfirmIntent(s, i, actual);
         if f.status != FlowSubmitted then t == s
         else
           && t == s.(intents := s.intents[i := f.(status := FlowConfirmed, terminalAt := s.now, actual := actual)],
                      approvals := t.approvals)
           && t.approvals == (match f.approvalId
                              case None => s.approvals
                              case Some(id) => ConsumeApproval(s, id).approvals)
  {
    RecheckExactlyWhen(s, s.intents[i]);
  }

  // ---- what every intent of a run carries

  /** An intent prepared under enforcement: within the rules of its stamped mandate, approved where they ask. */
  predicate WithinItsRules(intent: Intent) {
    var rules := RulesOf(intent.mandate);
    match intent.kind
    case YieldRealize =>
      && intent.amount <= rules.perPaymentCap
      && (match intent.payment
          case Some(PaymentBinding(payTo, named, _, _)) => named == intent.amount && PayeeAllowed(rules, payTo)
          case _ => false)
      && (AboveThreshold(rules, intent.amount) ==> intent.mandate.Some? && intent.approvalId.Some?)
    case Deposit => rules.depositsNeedOwner ==> intent.mandate.Some? && intent.approvalId.Some?
    case NormalWithdrawal => intent.mandate.Some? && rules.withdrawalsNeedOwner ==> intent.approvalId.Some?
  }

  /** Intents move through their statuses, but what they were prepared as stays. */
  predicate SameTerms(f: Intent, g: Intent) {
    g == f.(status := g.status, terminalAt := g.terminalAt, actual := g.actual)
  }

  lemma AuthorizedWithinRules(s: State, kind: FlowKind, amount: nat, payment: Option<Binding>, provided: Option<nat>,
                              intent: Intent)
    requires s.level == On
    requires intent.kind == kind && intent.amount == amount && intent.payment == payment
    requires Authorize(s, kind, amount, payment, provided).authorization == Granted(intent.mandate, intent.approvalId)
    ensures WithinItsRules(intent)
  {
    match kind
    case YieldRealize => RealizeGrantedExactlyWhen(s, amount, payment, provided);
    case Deposit => DepositGrantedExactlyWhen(s, amount, provided);
    case NormalWithdrawal => WithdrawalGrantedExactlyWhen(s, amount, provided);
  }

  lemma StepKeepsRules(s: State, a: Action)
    requires s.level == On && forall i | 0 <= i < |s.intents| :: WithinItsRules(s.intents[i])
    ensures Step(s, a).level == On
    ensures forall i | 0 <= i < |Step(s, a).intents| :: WithinItsRules(Step(s, a).intents[i])
  {
    var t := Step(s, a);
    if a.Prepare? {
      PreparationKeepsRules(s, a);
    } else {
      OthersKeepTerms(s, a);
    }
  }

  lemma OthersKeepTerms(s: State, a: Action)
    requires !a.Prepare?
    ensures Step(s, a).level == s.level && |Step(s, a).intents| == |s.intents|
    ensures forall i | 0 <= i < |s.intents| :: SameTerms(s.intents[i], Step(s, a).intents[i])
  {
  }

  lemma PreparationKeepsRules(s: State, a: Action)
    requires a.Prepare? && s.level == On && forall i | 0 <= i < |s.intents| :: WithinItsRules(s.intents[i])
    ensures Step(s, a).level == On
    ensures forall i | 0 <= i < |Step(s, a).intents| :: WithinItsRules(Step(s, a).intents[i])
  {
    var t := Step(s, a);
    var u := s.(intents := ExpireStale(s.intents, s.now));
    PreparationExactlyWhen(s, a.kind, a.amount, a.payment, a.provided, a.expiresAt, a.built);
    LevelStays(s, a);
    forall i | 0 <= i < |t.intents| ensures WithinItsRules(t.intents[i]) {
      if i < |s.intents| {
        assert SameTerms(s.intents[i], t.intents[i]);
      } else {
        AuthorizedWithinRules(u, a.kind, a.amount, a.payment, a.provided, t.intents[i]);
      }
    }
  }

  lemma LevelStays(s: State, a: Action)
    requires a.Prepare?
    ensures Step(s, a).level == s.level
  {
    var u := s.(intents := ExpireStale(s.intents, s.now));
    AuthorizationLeavesMandate(u, a.kind, a.amount, a.payment, a.provided);
  }

  lemma {:induction false} RunsKeepRules(s: State, actions: seq<Action>)
    requires s.level == On && forall i | 0 <= i < |s.intents| :: WithinItsRules(s.intents[i])
    ensures forall i | 0 <= i < |RunAll(s, actions).intents| :: WithinItsRules(RunAll(s, actions).intents[i])
    decreases |actions|
  {
    if actions != [] {
      StepKeepsRules(s, actions[0]);
      RunsKeepRules(Step(s, actions[0]), actions[1..]);
    }
  }

  /**
    Over every run with enforcement on, every intent ever prepared stays within the rules of the mandate it is stamped
    with: a realize above the threshold carries an approval, is within the payment's cap and goes to an allowed payee,
    and a deposit or withdrawal carries an approval where the rules ask for one.
   */
  lemma EveryIntentIsWithinItsRules(now: int, actions: seq<Action>, i: nat)
    requires i < |RunAll(Initial(On, now), actions).intents|
    ensures WithinItsRules(RunAll(Initial(On, now), actions).intents[i])
  {
    RunsKeepRules(Initial(On, now), actions);
  }
}
