/**
  The mandate service as it runs: records replaced under locks, window sums accumulated in loops.  Each method is
  proved to do exactly what the state machine's operation does.
 */
module SpendingMandateServices {
  import opened Wrappers
  import opened Models
  import M = SpendingMandates

  class SpendingMandateService {
    const level: M.Level
    var now: int
    var record: Option<M.MandateRecord>
    var approvals: map<nat, M.Approval>
    var nextApprovalId: nat
    ghost var issued: seq<M.Approval>
    var intents: seq<M.Intent>
    var log: seq<M.MandateEvent>
    var signed: set<(M.OwnerKey, M.Message)>

    ghost predicate Valid()
      reads this
    {
      nextApprovalId == |issued|
    }

    ghost function View(): M.State
      reads this
    {
      M.State(level, now, record, approvals, issued, intents, log, signed)
    }

    constructor (level: M.Level, startedAt: int)
      ensures Valid() && View() == M.Initial(level, startedAt)
    {
      this.level, now, record, approvals, nextApprovalId := level, startedAt, None, map[], 0;
      issued, intents, log, signed := [], [], [], {};
    }

    /** The clock and the record decide what is in force. */
    function StatusNow(existing: M.MandateRecord): M.EffectiveStatus
      reads this
    {
      M.StatusAt(existing, now)
    }

    method SaveNewApproval(approval: M.Approval)
      requires Valid()
      modifies this`approvals, this`nextApprovalId, this`issued
      ensures Valid() && View() == M.IssueApproval(old(View()), approval)
    {
      approvals := approvals[nextApprovalId := approval];
      nextApprovalId := nextApprovalId + 1;
      issued := issued + [approval];
    }

    method RegisterMandate(document: M.Mandate, agentSigned: bool)
      requires Valid()
      modifies this
      ensures Valid() && View() == M.RegisterMandate(old(View()), document, agentSigned)
    {
      var valid := document.issuedAt < document.expiresAt
                   && document.issuedAt <= now + M.SIGNED_AT_MAX_AGE_MS
                   && document.expiresAt > now
                   && M.PolicyParses(document.policy)
                   && (document.owner, M.MandateMessage(document)) in signed
                   && agentSigned;
      if !valid {
        return;
      }
      var isFirstRegistration := record.None?;
      if !isFirstRegistration {
        var existing := record.value;
        if document.issuedAt <= existing.mandate.issuedAt {
          return;
        }
        var status := StatusNow(existing);
        if !status.EffExpired? && !status.EffRecoveryElapsed? && existing.mandate.owner != document.owner {
          if status.EffRevoked? || (existing.mandate.owner, M.MandateMessage(document)) !in signed {
            return;
          }
        }
      }
      record := Some(M.MandateRecord(document, M.MandateActive, None));
      if isFirstRegistration {
        log := log + [M.Registered(document, now)];
        if document.initialDeposit.Some? {
          SaveNewApproval(M.Approval(M.DepositBinding(document.initialDeposit.value), document, M.Approved,
                                     now + M.APPROVAL_TTL_MS));
        }
      } else {
        log := log + [M.Replaced(document, now)];
      }
    }

    method RevokeMandate(mandate: M.Mandate, signedAt: int)
      requires Valid()
      modifies this`record, this`log
      ensures View() == M.RevokeMandate(old(View()), mandate, signedAt)
    {
      if record.None? || record.value.mandate != mandate || record.value.status.Revoked? {
        return;
      }
      if !M.FreshSignature(signedAt, now) || (mandate.owner, M.RevokeMessage(mandate, signedAt)) !in signed {
        return;
      }
      record := Some(M.MandateRecord(mandate, M.Revoked, None));
      log := log + [M.RevokedEvent(mandate, now)];
    }

    method ScheduleRecoveryRevoke()
      requires Valid()
      modifies this`record, this`log
      ensures View() == M.ScheduleRecoveryRevoke(old(View()))
    {
      if record.None? || record.value.status.Revoked? {
        return;
      }
      var existing := record.value;
      var status := StatusNow(existing);
      if status.EffExpired? || (existing.status.RecoveryPending? && existing.recoveryAt.Some?) {
        return;
      }
      record := Some(M.MandateRecord(existing.mandate, M.RecoveryPending, Some(now + M.RECOVERY_GRACE_MS)));
      log := log + [M.RecoveryScheduled(existing.mandate, now)];
    }

    method CancelRecoveryRevoke(mandate: M.Mandate, signedAt: int)
      requires Valid()
      modifies this`record, this`log
      ensures View() == M.CancelRecoveryRevoke(old(View()), mandate, signedAt)
    {
      if record.None? {
        return;
      }
      var existing := record.value;
      var status := StatusNow(existing);
      if status.EffExpired? || !existing.status.RecoveryPending? || existing.recoveryAt.None? {
        return;
      }
      if existing.recoveryAt.value <= now || existing.mandate != mandate {
        return;
      }
      if !M.FreshSignature(signedAt, now) || (mandate.owner, M.RecoveryCancelMessage(mandate, signedAt)) !in signed {
        return;
      }
      record := Some(M.MandateRecord(mandate, M.MandateActive, None));
      log := log + [M.RecoveryCancelled(mandate, now)];
    }

    /** The accumulating loop behind every cap check. */
    method ConfirmedSum(kind: FlowKind, since: int) returns (sum: nat)
      ensures sum == M.ConfirmedSum(intents, kind, since)
    {
      sum := 0;
      var i := 0;
      while i < |intents|
        invariant 0 <= i <= |intents|
        invariant sum == M.ConfirmedSum(intents[..i], kind, since)
      {
        var intent := intents[i];
        assert intents[..i + 1][..i] == intents[..i];
        if intent.kind == kind && intent.status.FlowConfirmed? && intent.terminalAt >= since {
          sum := sum + M.Counted(intent);
        }
        i := i + 1;
      }
      assert intents[..i] == intents;
    }

    method WithinCap(kind: FlowKind, cap: Option<nat>, window: nat, amount: nat) returns (within: bool)
      ensures within == M.WithinCap(View(), kind, cap, window, amount)
    {
      if cap.None? {
        return true;
      }
      var spent := ConfirmedSum(kind, now - window);
      return spent + amount <= cap.value;
    }

    method PruneSpendingApprovals()
      requires Valid()
      modifies this`approvals
      ensures View() == M.Prune(old(View()))
    {
      var stored := approvals;
      var remaining := approvals.Keys;
      while remaining != {}
        invariant remaining <= stored.Keys
        invariant forall id :: id in approvals <==> id in stored && (id in remaining || !M.Prunable(stored[id], now))
        invariant forall id | id in approvals :: approvals[id] == stored[id]
        decreases |remaining|
      {
        var id :| id in remaining;
        remaining := remaining - {id};
        if M.Prunable(stored[id], now) {
          approvals := approvals - {id};
        }
      }
      assert approvals == M.Prune(old(View())).approvals;
    }

    method ExpireIfStale(id: nat)
      requires Valid()
      modifies this`approvals
      ensures View() == M.ExpireProvided(old(View()), id)
    {
      if id in approvals {
        var viewed := M.Viewed(approvals[id], now);
        approvals := approvals[id := viewed];
      }
    }

    method ApprovalInFlight(id: nat, deposit: bool) returns (inFlight: bool)
      ensures inFlight == M.ApprovalInFlight(View(), id, deposit)
    {
      var i := 0;
      while i < |intents|
        invariant 0 <= i <= |intents|
        invariant forall k | 0 <= k < i ::
                    !(intents[k].approvalId == Some(id) && intents[k].kind.Deposit? == deposit
                      && M.Pending(intents[k], now))
      {
        if intents[i].approvalId == Some(id) && intents[i].kind.Deposit? == deposit && M.Pending(intents[i], now) {
          return true;
        }
        i := i + 1;
      }
      return false;
    }

    method RequireOperationApproval(binding: M.Binding, mandate: M.Mandate, provided: Option<nat>)
      returns (authorization: M.Authorization)
      requires Valid()
      modifies this`approvals, this`nextApprovalId, this`issued
      ensures Valid()
      ensures M.Decision(View(), authorization) == M.RequireOperationApproval(old(View()), binding, mandate, provided)
    {
      PruneSpendingApprovals();
      if provided.Some? {
        var id := provided.value;
        ExpireIfStale(id);
        if id in approvals && approvals[id].status.Approved? && approvals[id].mandate == mandate
           && approvals[id].binding == binding {
          var inFlight := ApprovalInFlight(id, binding.DepositBinding?);
          if !inFlight {
            return M.Granted(Some(mandate), provided);
          }
        }
      }
      authorization := SurfacePendingApproval(binding, mandate);
    }

    method SurfacePendingApproval(binding: M.Binding, mandate: M.Mandate) returns (authorization: M.Authorization)
      requires Valid()
      modifies this`approvals, this`nextApprovalId, this`issued
      ensures Valid()
      ensures M.Decision(View(), authorization) == M.SurfacePendingApproval(old(View()), binding, mandate)
    {
      if exists id | id in approvals :: approvals[id].binding == binding && approvals[id].mandate == mandate
                                        && approvals[id].status.ApprovalPending? && approvals[id].expiresAt > now {
        return M.Refused("approval_required");
      }
      var outstanding := set id | id in approvals && approvals[id].status.ApprovalPending?
                              && approvals[id].expiresAt > now;
      assert outstanding == M.OutstandingApprovals(View());
      if |outstanding| >= M.MAX_PENDING_APPROVALS_PER_WALLET {
        return M.Refused("too_many_pending_approvals");
      }
      SaveNewApproval(M.Approval(binding, mandate, M.ApprovalPending, now + M.APPROVAL_TTL_MS));
      return M.Refused("approval_required");
    }

    method DecideApproval(id: nat, approve: bool, signedAt: int)
      requires Valid()
      modifies this`approvals
      ensures Valid() && View() == M.DecideApproval(old(View()), id, approve, signedAt)
    {
      if id !in approvals || record.None? || record.value.mandate != approvals[id].mandate {
        return;
      }
      ExpireIfStale(id);
      var current := approvals[id];
      if !current.status.ApprovalPending? {
        return;
      }
      var status := StatusNow(record.value);
      if !status.EffActive? && !status.EffRecoveryPending? {
        return;
      }
      if !M.FreshSignature(signedAt, now)
         || (record.value.mandate.owner, M.ApprovalMessage(id, approve, current.binding, signedAt)) !in signed {
        return;
      }
      approvals := approvals[id := current.(status := if approve then M.Approved else M.Denied)];
    }

    method ConsumeApproval(id: nat)
      requires Valid()
      modifies this`approvals
      ensures Valid() && View() == M.ConsumeApproval(old(View()), id)
    {
      if id !in approvals || !approvals[id].status.Approved? {
        return;
      }
      approvals := approvals[id := approvals[id].(status := M.Consumed)];
    }

    method ResolvePolicy() returns (effective: M.Effective)
      ensures effective == M.ResolvePolicy(View())
    {
      if record.None? {
        return M.Effective(M.DEFAULT_RELAYER_POLICY, None, false, false);
      }
      var existing := record.value;
      match StatusNow(existing)
      case EffRevoked => return M.Effective(M.DEFAULT_RELAYER_POLICY, Some(existing.mandate), false, true);
      case EffExpired => return M.Effective(M.DEFAULT_RELAYER_POLICY, None, false, false);
      case EffRecoveryElapsed => return M.Effective(M.DEFAULT_RELAYER_POLICY, None, false, false);
      case _ => return M.Effective(existing.mandate.policy, Some(existing.mandate), true, false);
    }

    method AuthorizeRealize(amount: nat, payment: Option<M.Binding>, approvalId: Option<nat>)
      returns (authorization: M.Authorization)
      requires Valid()
      modifies this`approvals, this`nextApprovalId, this`issued
      ensures Valid()
      ensures M.Decision(View(), authorization) == M.AuthorizeRealize(old(View()), amount, payment, approvalId)
    {
      if level.Off? {
        return M.Granted(None, None);
      }
      var effective := ResolvePolicy();
      if effective.revoked {
        return M.Refused("mandate_revoked");
      }
      if level.Warn? {
        return M.Granted(effective.mandate, None);
      }
      if payment.None? || !payment.value.PaymentBinding? {
        return M.Refused("payment_binding_required");
      }
      if payment.value.amount != amount {
        return M.Refused("payment_binding_mismatch");
      }
      var policy := effective.policy;
      if policy.allowedPayees.Some? && payment.value.payTo !in policy.allowedPayees.value {
        return M.Refused("payee_not_allowed");
      }
      if amount > policy.perPaymentCap {
        return M.Refused("per_payment_cap_exceeded");
      }
      var daily := WithinCap(YieldRealize, policy.dailySpendCap, M.DAY_MS, amount);
      if !daily {
        return M.Refused("daily_cap_exceeded");
      }
      var monthly := WithinCap(YieldRealize, policy.monthlySpendCap, M.ROLLING_MONTH_MS, amount);
      if !monthly {
        return M.Refused("monthly_cap_exceeded");
      }
      if policy.approvalThreshold.Some? && amount > policy.approvalThreshold.value {
        if !effective.ownerAvailable || effective.mandate.None? {
          return M.Refused("mandate_required_for_larger_payments");
        }
        authorization := RequireOperationApproval(payment.value, effective.mandate.value, approvalId);
        return authorization;
      }
      return M.Granted(effective.mandate, None);
    }

    method AuthorizeDeposit(amount: nat, approvalId: Option<nat>) returns (authorization: M.Authorization)
      requires Valid()
      modifies this`approvals, this`nextApprovalId, this`issued
      ensures Valid()
      ensures M.Decision(View(), authorization) == M.AuthorizeDeposit(old(View()), amount, approvalId)
    {
      if level.Off? {
        return M.Granted(None, None);
      }
      var effective := ResolvePolicy();
      if effective.revoked {
        return M.Refused("mandate_revoked");
      }
      if level.Warn? {
        return M.Granted(effective.mandate, None);
      }
      var within := WithinCap(Deposit, effective.policy.dailyDepositCap, M.DAY_MS, amount);
      if !within {
        return M.Refused("daily_deposit_cap_exceeded");
      }
      if !effective.policy.depositsNeedOwner {
        return M.Granted(effective.mandate, None);
      }
      if !effective.ownerAvailable || effective.mandate.None? {
        return M.Refused("mandate_required_for_deposit");
      }
      authorization := RequireOperationApproval(M.DepositBinding(amount), effective.mandate.value, approvalId);
    }

    /** Called under the lock immediately before sponsor signing. */
    method AssertPreparedAuthorization(intent: M.Intent) returns (holds: bool)
      ensures holds == M.PreparedAuthorizationHolds(View(), intent)
    {
      if level.Off? {
        return true;
      }
      var effective := ResolvePolicy();
      if effective.revoked || effective.mandate != intent.mandate {
        return false;
      }
      if intent.approvalId.Some? {
        var id := intent.approvalId.value;
        if id !in approvals {
          return false;
        }
        var approval := approvals[id];
        return Some(approval.mandate) == intent.mandate && approval.status.Approved? && approval.expiresAt > now;
      }
      return true;
    }
  }
}
