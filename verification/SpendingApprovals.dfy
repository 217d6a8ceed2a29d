/**
  Single-use approvals: an intent is submitted only under the mandate it was prepared under, and every approval ever
  issued ends in at most one confirmed intent, which does exactly what the approval was bound to.
 */
module SpendingApprovals {
  import opened Wrappers
  import opened Models
  import opened SpendingMandates
  import opened MandateOwnership
  import opened SpendingWindows

  /** The operation of an intent is the one the binding names. */
  predicate Matches(binding: Binding, intent: Intent) {
    match intent.kind
    case YieldRealize => binding.PaymentBinding? && intent.payment == Some(binding) && binding.amount == intent.amount
    case Deposit => binding == DepositBinding(intent.amount)
    case NormalWithdrawal => binding == WithdrawalBinding(intent.amount)
  }

  predicate Live(approval: Approval) {
    approval.status.ApprovalPending? || approval.status.Approved?
  }

  /** A stored approval keeps what it was issued with, and never returns to an earlier stage. */
  predicate ApprovalMove(from: Approval, to: Approval) {
    && to == from.(status := to.status)
    && match from.status
       case ApprovalPending => !to.status.Consumed?
       case Approved => !to.status.ApprovalPending? && !to.status.Denied?
       case _ => to.status == from.status
  }

  /** Approvals may go, move on, or be issued under a fresh identifier. */
  predicate ApprovalsMove(s: State, t: State) {
    && |t.issued| >= |s.issued| && t.issued[..|s.issued|] == s.issued
    && forall id | id in t.approvals ::
         if id in s.approvals then ApprovalMove(s.approvals[id], t.approvals[id])
         else |s.issued| <= id < |t.issued| && t.approvals[id] == t.issued[id]
  }

  predicate ApprovalsAsIssued(s: State) {
    forall id | id in s.approvals ::
      id < |s.issued| && s.approvals[id] == s.issued[id].(status := s.approvals[id].status)
  }

  /** What every intent with an approval carries. */
  predicate StampedOk(s: State, intent: Intent) {
    intent.approvalId.Some? ==>
      && intent.approvalId.value < |s.issued|
      && Matches(s.issued[intent.approvalId.value].binding, intent)
      && intent.mandate == Some(s.issued[intent.approvalId.value].mandate)
      && (intent.approvalId.value in s.approvals ==> !s.approvals[intent.approvalId.value].status.ApprovalPending?)
      && (intent.status.FlowConfirmed? && intent.approvalId.value in s.approvals ==>
            !Live(s.approvals[intent.approvalId.value]))
  }

  predicate SpentTogether(f: Intent, g: Intent) {
    f.approvalId.Some? && f.approvalId == g.approvalId
  }

  predicate ApprovalInv(s: State) {
    && OnePending(s)
    && ApprovalsAsIssued(s)
    && (forall i | 0 <= i < |s.intents| :: StampedOk(s, s.intents[i]))
    && (forall i, j | 0 <= i < |s.intents| && 0 <= j < |s.intents| && i != j
        && SpentTogether(s.intents[i], s.intents[j]) ::
          !(s.intents[i].status.FlowConfirmed? && (s.intents[j].status.FlowConfirmed? || Pending(s.intents[j], s.now))))
  }

  // ---- how approvals move

  lemma ApprovalsStay(s: State, t: State)
    requires t.approvals == s.approvals && t.issued == s.issued
    ensures ApprovalsMove(s, t)
  {
  }

  lemma IssueMoves(s: State, u: State, approval: Approval)
    requires ApprovalsAsIssued(s) && ApprovalsMove(s, u) && u.issued == s.issued
    ensures ApprovalsMove(s, IssueApproval(u, approval))
  {
    var t := IssueApproval(u, approval);
    forall id | id in t.approvals
      ensures if id in s.approvals then ApprovalMove(s.approvals[id], t.approvals[id])
              else |s.issued| <= id < |t.issued| && t.approvals[id] == t.issued[id]
    {
      if id != |s.issued| {
        assert id in u.approvals && t.approvals[id] == u.approvals[id];
      }
    }
  }

  lemma RequiringMoves(s: State, binding: Binding, mandate: Mandate, provided: Option<nat>)
    requires ApprovalsAsIssued(s)
    ensures ApprovalsMove(s, RequireOperationApproval(s, binding, mandate, provided).state)
  {
    var u := if provided.Some? then ExpireProvided(Prune(s), provided.value) else Prune(s);
    assert ApprovalsMove(s, u);
    IssueMoves(s, u, Approval(binding, mandate, ApprovalPending, s.now + APPROVAL_TTL_MS));
  }

  /** A granted approval is approved, bound to this operation, and drives no open intent. */
  lemma GrantedApproval(s: State, binding: Binding, mandate: Mandate, provided: Option<nat>)
    requires ApprovalsAsIssued(s)
    ensures
      var decision := RequireOperationApproval(s, binding, mandate, provided);
      decision.authorization.Granted? ==>
        && decision.authorization.mandate == Some(mandate)
        && decision.authorization.approvalId.Some?
        && (var id := decision.authorization.approvalId.value;
            && id < |s.issued| && decision.state.issued == s.issued
            && s.issued[id].binding == binding && s.issued[id].mandate == mandate
            && id in s.approvals && s.approvals[id].status.Approved?
            && id in decision.state.approvals && decision.state.approvals[id].status.Approved?)
  {
  }

  predicate GrantOk(s: State, kind: FlowKind, amount: nat, payment: Option<Binding>, decision: Decision) {
    decision.authorization.Granted? && decision.authorization.approvalId.Some? ==>
      var id := decision.authorization.approvalId.value;
      && id < |s.issued| && decision.state.issued == s.issued
      && decision.authorization.mandate == Some(s.issued[id].mandate)
      && (match kind
          case YieldRealize => payment == Some(s.issued[id].binding) && s.issued[id].binding.PaymentBinding?
                               && s.issued[id].binding.amount == amount
          case Deposit => s.issued[id].binding == DepositBinding(amount)
          case NormalWithdrawal => s.issued[id].binding == WithdrawalBinding(amount))
      && id in s.approvals && s.approvals[id].status.Approved?
      && id in decision.state.approvals && decision.state.approvals[id].status.Approved?
  }

  /** Only a required approval touches the store; every other outcome leaves it and uses no approval. */
  predicate WithoutApproval(s: State, decision: Decision) {
    decision.state == s && (decision.authorization.Granted? ==> decision.authorization.approvalId.None?)
  }

  lemma RealizeDecides(s: State, amount: nat, payment: Option<Binding>, provided: Option<nat>)
    ensures
      var decision := AuthorizeRealize(s, amount, payment, provided);
      var mandate := ResolvePolicy(s).mandate;
      || WithoutApproval(s, decision)
      || (&& payment.Some? && payment.value.PaymentBinding? && payment.value.amount == amount && mandate.Some?
          && decision == RequireOperationApproval(s, payment.value, mandate.value, provided))
  {
  }

  lemma OthersDecide(s: State, kind: FlowKind, amount: nat, payment: Option<Binding>, provided: Option<nat>)
    requires !kind.YieldRealize?
    ensures
      var decision := Authorize(s, kind, amount, payment, provided);
      var mandate := ResolvePolicy(s).mandate;
      || WithoutApproval(s, decision)
      || (mandate.Some? && decision == RequireOperationApproval(s, PlainBinding(kind, amount), mandate.value, provided))
  {
  }

  function PlainBinding(kind: FlowKind, amount: nat): Binding {
    if kind.Deposit? then DepositBinding(amount) else WithdrawalBinding(amount)
  }

  lemma RequiredGrants(s: State, kind: FlowKind, amount: nat, payment: Option<Binding>, binding: Binding,
                       mandate: Mandate,
                       provided: Option<nat>)
    requires ApprovalsAsIssued(s)
    requires if kind.YieldRealize? then payment == Some(binding) && binding.PaymentBinding? && binding.amount == amount
             else binding == PlainBinding(kind, amount)
    ensures ApprovalsMove(s, RequireOperationApproval(s, binding, mandate, provided).state)
    ensures GrantOk(s, kind, amount, payment, RequireOperationApproval(s, binding, mandate, provided))
  {
    RequiringMoves(s, binding, mandate, provided);
    GrantedApproval(s, binding, mandate, provided);
  }

  lemma AuthorizationGrants(s: State, kind: FlowKind, amount: nat, payment: Option<Binding>, provided: Option<nat>)
    requires ApprovalsAsIssued(s)
    ensures ApprovalsMove(s, Authorize(s, kind, amount, payment, provided).state)
    ensures GrantOk(s, kind, amount, payment, Authorize(s, kind, amount, payment, provided))
  {
    var decision := Authorize(s, kind, amount, payment, provided);
    var mandate := ResolvePolicy(s).mandate;
    if kind.YieldRealize? {
      RealizeDecides(s, amount, payment, provided);
    } else {
      OthersDecide(s, kind, amount, payment, provided);
    }
    if WithoutApproval(s, decision) {
      ApprovalsStay(s, s);
    } else {
      RequiredGrants(s, kind, amount, payment, if kind.YieldRealize? then payment.value else PlainBinding(kind, amount),
                     mandate.value, provided);
    }
  }

  // ---- one step

  lemma MovesKeepAsIssued(s: State, t: State)
    requires ApprovalsAsIssued(s) && ApprovalsMove(s, t)
    ensures ApprovalsAsIssued(t)
  {
    forall id | id in t.approvals
      ensures id < |t.issued| && t.approvals[id] == t.issued[id].(status := t.approvals[id].status)
    {
      if id in s.approvals {
        assert ApprovalMove(s.approvals[id], t.approvals[id]);
        assert t.issued[id] == t.issued[..|s.issued|][id];
      }
    }
  }

  /** An intent that did not become confirmed keeps its stamp through any move of the approvals. */
  lemma StampKept(s: State, t: State, f: Intent, g: Intent)
    requires ApprovalsMove(s, t) && StampedOk(s, f)
    requires g == f.(status := g.status, terminalAt := g.terminalAt, actual := g.actual)
    requires g.status.FlowConfirmed? ==> f.status.FlowConfirmed?
    ensures StampedOk(t, g)
  {
    if g.approvalId.Some? {
      var id := g.approvalId.value;
      assert t.issued[id] == t.issued[..|s.issued|][id];
      if id in t.approvals && id in s.approvals {
        assert ApprovalMove(s.approvals[id], t.approvals[id]);
      }
    }
  }

  /** A step without new intents and without new confirmations. */
  lemma QuietStepKeepsApprovals(s: State, t: State)
    requires ApprovalInv(s) && ApprovalsMove(s, t) && OnePending(t)
    requires IntentStep(s.intents, t.intents, s.now) && t.now >= s.now && |t.intents| == |s.intents|
    requires forall i | 0 <= i < |s.intents| ::
               t.intents[i].status.FlowConfirmed? ==> s.intents[i].status.FlowConfirmed?
    ensures ApprovalInv(t)
  {
    MovesKeepAsIssued(s, t);
    forall i | 0 <= i < |t.intents| ensures StampedOk(t, t.intents[i]) {
      assert IntentMove(s.intents[i], t.intents[i], s.now);
      StampKept(s, t, s.intents[i], t.intents[i]);
    }
    forall i | 0 <= i < |t.intents|
      ensures t.intents[i].approvalId == s.intents[i].approvalId
      ensures Pending(t.intents[i], t.now) ==> Pending(s.intents[i], s.now)
    {
      assert IntentMove(s.intents[i], t.intents[i], s.now);
      PendingGoesBack(s, t, i);
    }
  }

  /** A granted preparation adds an intent whose approval no confirmed intent has used. */
  lemma JoiningIntentKeepsApprovals(s: State, t: State, intent: Intent)
    requires ApprovalInv(s) && OnePending(t) && t.now == s.now
    requires t.intents == s.intents + [intent] && t.approvals == s.approvals && t.issued == s.issued
    requires intent.status.FlowPrepared?
    requires intent.approvalId.Some? ==>
               && intent.approvalId.value < |s.issued|
               && Matches(s.issued[intent.approvalId.value].binding, intent)
               && intent.mandate == Some(s.issued[intent.approvalId.value].mandate)
               && intent.approvalId.value in s.approvals && s.approvals[intent.approvalId.value].status.Approved?
    ensures ApprovalInv(t)
  {
    forall i | 0 <= i < |t.intents| ensures StampedOk(t, t.intents[i]) {
      if i < |s.intents| {
        assert StampedOk(s, s.intents[i]);
      }
    }
    forall i | 0 <= i < |s.intents| && SpentTogether(s.intents[i], intent) ensures !s.intents[i].status.FlowConfirmed? {
      assert StampedOk(s, s.intents[i]);
    }
  }

  lemma PreparationKeepsApprovals(s: State, a: Action)
    requires a.Prepare? && ApprovalInv(s)
    ensures ApprovalInv(Step(s, a))
  {
    var u := s.(intents := ExpireStale(s.intents, s.now));
    StaleSweepKeepsApprovals(s, u);
    var decision := Authorize(u, a.kind, a.amount, a.payment, a.provided);
    AuthorizationGrants(u, a.kind, a.amount, a.payment, a.provided);
    AuthorizationLeavesMandate(u, a.kind, a.amount, a.payment, a.provided);
    var v := decision.state;
    QuietStepKeepsApprovals(u, v);
    StepKeepsOnePending(s, a);
    if Step(s, a).intents != v.intents {
      JoiningIntentKeepsApprovals(v, Step(s, a), Step(s, a).intents[|v.intents|]);
    }
  }

  lemma StaleSweepKeepsApprovals(s: State, u: State)
    requires ApprovalInv(s) && u == s.(intents := ExpireStale(s.intents, s.now))
    ensures ApprovalInv(u)
  {
    ApprovalsStay(s, u);
    QuietStepKeepsApprovals(s, u);
  }

  /** Confirming an intent consumes its approval, and no other intent of that approval was open. */
  lemma ConfirmationKeepsApprovals(s: State, i: nat, actual: nat)
    requires ApprovalInv(s)
    ensures ApprovalInv(ConfirmIntent(s, i, actual))
  {
    if i < |s.intents| && s.intents[i].status.FlowSubmitted? {
      var t := ConfirmIntent(s, i, actual);
      var q := t.intents[i];
      assert t.intents == s.intents[i := q];
      StepKeepsOnePending(s, Confirm(i, actual));
      ConsumptionMoves(s, t, i, q);
      MovesKeepAsIssued(s, t);
      assert Pending(s.intents[i], s.now);
      forall k | 0 <= k < |t.intents| ensures StampedOk(t, t.intents[k]) {
        if k != i {
          StampKept(s, t, s.intents[k], t.intents[k]);
        } else {
          ConsumedStamp(s, t, i, q);
        }
      }
    }
  }

  lemma ConsumptionMoves(s: State, t: State, i: nat, q: Intent)
    requires i < |s.intents|
    requires t == (var u := SaveIntent(s, i, q);
                   if q.approvalId.Some? then ConsumeApproval(u, q.approvalId.value) else u)
    ensures ApprovalsMove(s, t)
  {
  }

  lemma ConsumedStamp(s: State, t: State, i: nat, q: Intent)
    requires i < |s.intents| && StampedOk(s, s.intents[i]) && ApprovalsMove(s, t)
    requires q == s.intents[i].(status := FlowConfirmed, terminalAt := q.terminalAt, actual := q.actual)
    requires t == (var u := SaveIntent(s, i, q);
                   if q.approvalId.Some? then ConsumeApproval(u, q.approvalId.value) else u)
    ensures StampedOk(t, q)
  {
  }

  lemma DecisionMoves(s: State, id: nat, approve: bool, signedAt: int)
    ensures ApprovalsMove(s, DecideApproval(s, id, approve, signedAt))
  {
  }

  lemma RegistrationMoves(s: State, document: Mandate, agentSigned: bool)
    requires ApprovalsAsIssued(s)
    ensures ApprovalsMove(s, RegisterMandate(s, document, agentSigned))
  {
    if document.initialDeposit.Some? {
      var approval := Approval(DepositBinding(document.initialDeposit.value), document, Approved,
                               s.now + APPROVAL_TTL_MS);
      ApprovalsStay(s, s);
      IssueMoves(s, s, approval);
    }
  }

  lemma StepKeepsApprovals(s: State, a: Action)
    requires ApprovalInv(s)
    ensures ApprovalInv(Step(s, a))
  {
    match a
    case Prepare(_, _, _, _, _, _) => PreparationKeepsApprovals(s, a);
    case Confirm(i, actual) => ConfirmationKeepsApprovals(s, i, actual);
    case _ =>
      StepMovesIntents(s, a);
      NothingJoins(s, a);
      NoNewConfirmations(s, a);
      StepKeepsOnePending(s, a);
      QuietApprovalMoves(s, a);
      QuietStepKeepsApprovals(s, Step(s, a));
  }

  lemma QuietApprovalMoves(s: State, a: Action)
    requires !a.Prepare? && !a.Confirm? && ApprovalsAsIssued(s)
    ensures ApprovalsMove(s, Step(s, a))
  {
    match a
    case Decide(id, approve, signedAt) => DecisionMoves(s, id, approve, signedAt);
    case Register(document, agentSigned) => RegistrationMoves(s, document, agentSigned);
    case _ => ApprovalsStay(s, Step(s, a));
  }

  lemma {:induction false} RunsKeepApprovals(s: State, actions: seq<Action>)
    requires ApprovalInv(s)
    ensures ApprovalInv(RunAll(s, actions))
    decreases |actions|
  {
    if actions != [] {
      StepKeepsApprovals(s, actions[0]);
      RunsKeepApprovals(Step(s, actions[0]), actions[1..]);
    }
  }

  /**
    Over every run, at any enforcement level: two confirmed intents never share an approval, and a confirmed intent
    with an approval does what that approval was issued for, under the mandate it was issued under.
   */
  lemma EachApprovalConfirmsOnce(level: Level, now: int, actions: seq<Action>, i: nat, j: nat)
    requires
      var s := RunAll(Initial(level, now), actions);
      && i < |s.intents| && j < |s.intents|
      && s.intents[i].status.FlowConfirmed? && s.intents[j].status.FlowConfirmed?
      && s.intents[i].approvalId.Some? && s.intents[i].approvalId == s.intents[j].approvalId
    ensures
      var s := RunAll(Initial(level, now), actions);
      var id := s.intents[i].approvalId.value;
      && i == j
      && id < |s.issued|
      && Matches(s.issued[id].binding, s.intents[i])
      && s.intents[i].mandate == Some(s.issued[id].mandate)
  {
    RunsKeepApprovals(Initial(level, now), actions);
    var s := RunAll(Initial(level, now), actions);
    assert StampedOk(s, s.intents[i]);
    if i != j {
      assert SpentTogether(s.intents[i], s.intents[j]);
    }
  }

  /** The mandate that is in force now: registered, neither revoked, expired nor lapsed by recovery. */
  predicate InForce(s: State, mandate: Mandate) {
    && s.record.Some? && s.record.value.mandate == mandate
    && !s.record.value.status.Revoked?
    && mandate.expiresAt > s.now
    && !(s.record.value.status.RecoveryPending? && s.record.value.recoveryAt.Some?
         && s.record.value.recoveryAt.value <= s.now)
  }

  /**
    Any step of any run that takes an intent from prepared to submitted happens under active mandate checks only while
    no revoked mandate is registered, the mandate stamped at preparation (if any) is the one in force, and the approval
    (if any) is still stored, approved and unexpired.
   */
  lemma SubmissionsStayAuthorized(level: Level, now: int, actions: seq<Action>, a: Action, i: nat)
    requires !level.Off?
    requires
      var s := RunAll(Initial(level, now), actions);
      && i < |s.intents| && i < |Step(s, a).intents|
      && s.intents[i].status.FlowPrepared? && Step(s, a).intents[i].status.FlowSubmitted?
    ensures
      var s := RunAll(Initial(level, now), actions);
      var intent := s.intents[i];
      && !(s.record.Some? && s.record.value.status.Revoked?)
      && intent.expiresAt > s.now
      && (intent.mandate.Some? ==> InForce(s, intent.mandate.value))
      && (intent.approvalId.Some? ==>
            && intent.mandate.Some?
            && intent.approvalId.value in s.approvals
            && s.approvals[intent.approvalId.value].status.Approved?
            && s.approvals[intent.approvalId.value].expiresAt > s.now
            && s.approvals[intent.approvalId.value].mandate == intent.mandate.value
            && Matches(s.approvals[intent.approvalId.value].binding, intent))
  {
    var s := RunAll(Initial(level, now), actions);
    RunsKeepApprovals(Initial(level, now), actions);
    RunsKeepLevel(Initial(level, now), actions);
    assert StampedOk(s, s.intents[i]);
    OnlySubmitSubmits(s, a, i);
    assert PreparedAuthorizationHolds(s, s.intents[i]);
  }

  lemma OnlySubmitSubmits(s: State, a: Action, i: nat)
    requires i < |s.intents| && i < |Step(s, a).intents|
    requires s.intents[i].status.FlowPrepared? && Step(s, a).intents[i].status.FlowSubmitted?
    ensures a == Submit(i) && s.intents[i].expiresAt > s.now && PreparedAuthorizationHolds(s, s.intents[i])
  {
    if a.Prepare? {
      var u := s.(intents := ExpireStale(s.intents, s.now));
      AuthorizationLeavesMandate(u, a.kind, a.amount, a.payment, a.provided);
      assert false;
    }
  }

  lemma StepKeepsLevel(s: State, a: Action)
    ensures Step(s, a).level == s.level
  {
    if a.Prepare? {
      var u := s.(intents := ExpireStale(s.intents, s.now));
      AuthorizationKeepsLevel(u, a.kind, a.amount, a.payment, a.provided);
    }
  }

  lemma AuthorizationKeepsLevel(s: State, kind: FlowKind, amount: nat, payment: Option<Binding>, provided: Option<nat>)
    ensures Authorize(s, kind, amount, payment, provided).state.level == s.level
  {
    if kind.YieldRealize? {
      RealizeDecides(s, amount, payment, provided);
    } else {
      OthersDecide(s, kind, amount, payment, provided);
    }
  }

  lemma {:induction false} RunsKeepLevel(s: State, actions: seq<Action>)
    ensures RunAll(s, actions).level == s.level
    decreases |actions|
  {
    if actions != [] {
      StepKeepsLevel(s, actions[0]);
      RunsKeepLevel(Step(s, actions[0]), actions[1..]);
    }
  }

  // ---- approvals are the owner's

  predicate WasApproved(approval: Approval) {
    approval.status.Approved? || approval.status.Consumed?
  }

  /** The owner named by the mandate signed this approval, or signed the mandate whose first deposit it covers. */
  ghost predicate OwnerApproved(s: State, id: nat) {
    && id < |s.issued|
    && (var approval := s.issued[id];
        || (exists signedAt: int ::
              Verifies(s, approval.mandate.owner, ApprovalMessage(id, true, approval.binding, signedAt)))
        || (&& approval.mandate.initialDeposit.Some?
            && approval.binding == DepositBinding(approval.mandate.initialDeposit.value)
            && Verifies(s, approval.mandate.owner, MandateMessage(approval.mandate))))
  }

  ghost predicate ApprovalsAreOwners(s: State) {
    && ApprovalsAsIssued(s)
    && (forall id | id in s.approvals && WasApproved(s.approvals[id]) :: OwnerApproved(s, id))
    && (forall i | 0 <= i < |s.intents| && s.intents[i].approvalId.Some? ::
          OwnerApproved(s, s.intents[i].approvalId.value))
  }

  lemma OwnerApprovalLasts(s: State, t: State, id: nat)
    requires OwnerApproved(s, id) && s.signed <= t.signed
    requires |t.issued| >= |s.issued| && t.issued[..|s.issued|] == s.issued
    ensures OwnerApproved(t, id)
  {
    assert t.issued[id] == t.issued[..|s.issued|][id];
    var approval := s.issued[id];
    if signedAt: int :| Verifies(s, approval.mandate.owner, ApprovalMessage(id, true, approval.binding, signedAt)) {
      assert Verifies(t, approval.mandate.owner, ApprovalMessage(id, true, approval.binding, signedAt));
    }
  }

  /** The only steps that approve: the owner's signed decision, and the first registration with a first deposit. */
  lemma NewlyApproved(s: State, a: Action, id: nat)
    requires ApprovalsAsIssued(s) && !a.Prepare?
    requires id in Step(s, a).approvals && WasApproved(Step(s, a).approvals[id])
    ensures (id in s.approvals && WasApproved(s.approvals[id])) || OwnerApproved(Step(s, a), id)
  {
    var t := Step(s, a);
    match a
    case Decide(which, approve, signedAt) =>
      if id == which && !(id in s.approvals && WasApproved(s.approvals[id])) {
        assert Verifies(t, t.issued[id].mandate.owner, ApprovalMessage(id, true, t.issued[id].binding, signedAt));
      }
    case Register(document, agentSigned) =>
      if id !in s.approvals {
        assert t.issued[id].mandate == document;
      }
    case _ =>
  }

  lemma SurfacingApprovesNothing(u: State, binding: Binding, mandate: Mandate, id: nat)
    requires
      var t := SurfacePendingApproval(u, binding, mandate).state;
      id in t.approvals && WasApproved(t.approvals[id])
    ensures id in u.approvals && WasApproved(u.approvals[id])
  {
  }

  lemma SweepingApprovesNothing(s: State, provided: Option<nat>, id: nat)
    requires
      var u := if provided.Some? then ExpireProvided(Prune(s), provided.value) else Prune(s);
      id in u.approvals && WasApproved(u.approvals[id])
    ensures id in s.approvals && WasApproved(s.approvals[id])
  {
  }

  lemma RequiringApprovesNothing(s: State, binding: Binding, mandate: Mandate, provided: Option<nat>, id: nat)
    requires
      var t := RequireOperationApproval(s, binding, mandate, provided).state;
      id in t.approvals && WasApproved(t.approvals[id])
    ensures id in s.approvals && WasApproved(s.approvals[id])
  {
    var u := if provided.Some? then ExpireProvided(Prune(s), provided.value) else Prune(s);
    if !(provided.Some? && Honours(u, provided.value, binding, mandate)) {
      SurfacingApprovesNothing(u, binding, mandate, id);
    }
    SweepingApprovesNothing(s, provided, id);
  }

  lemma PreparingApprovesNothing(s: State, a: Action, id: nat)
    requires a.Prepare? && ApprovalsAsIssued(s)
    requires id in Step(s, a).approvals && WasApproved(Step(s, a).approvals[id])
    ensures id in s.approvals && WasApproved(s.approvals[id])
  {
    var u := s.(intents := ExpireStale(s.intents, s.now));
    var decision := Authorize(u, a.kind, a.amount, a.payment, a.provided);
    if a.kind.YieldRealize? {
      RealizeDecides(u, a.amount, a.payment, a.provided);
    } else {
      OthersDecide(u, a.kind, a.amount, a.payment, a.provided);
    }
    if !AnyPending(u) && !WithoutApproval(u, decision) {
      RequiringApprovesNothing(u, if a.kind.YieldRealize? then a.payment.value else PlainBinding(a.kind, a.amount),
                               ResolvePolicy(u).mandate.value, a.provided, id);
    }
  }

  lemma StepKeepsOwnersApprovals(s: State, a: Action)
    requires ApprovalInv(s) && ApprovalsAreOwners(s)
    ensures ApprovalsAreOwners(Step(s, a))
  {
    var t := Step(s, a);
    StepKeepsApprovals(s, a);
    StepGrows(s, a);
    forall id | id in t.approvals && WasApproved(t.approvals[id]) ensures OwnerApproved(t, id) {
      if a.Prepare? {
        PreparingApprovesNothing(s, a, id);
      } else {
        NewlyApproved(s, a, id);
      }
      if id in s.approvals && WasApproved(s.approvals[id]) {
        OwnerApprovalLasts(s, t, id);
      }
    }
    StepMovesIntents(s, a);
    forall i | 0 <= i < |t.intents| && t.intents[i].approvalId.Some?
      ensures OwnerApproved(t, t.intents[i].approvalId.value)
    {
      if i < |s.intents| {
        assert IntentMove(s.intents[i], t.intents[i], s.now);
        OwnerApprovalLasts(s, t, s.intents[i].approvalId.value);
      } else {
        JoinedWithApproval(s, a);
      }
    }
  }

  lemma StepGrows(s: State, a: Action)
    requires ApprovalsAsIssued(s)
    ensures s.signed <= Step(s, a).signed
    ensures |Step(s, a).issued| >= |s.issued| && Step(s, a).issued[..|s.issued|] == s.issued
  {
    if a.Prepare? {
      var u := s.(intents := ExpireStale(s.intents, s.now));
      AuthorizationLeavesMandate(u, a.kind, a.amount, a.payment, a.provided);
      AuthorizationGrants(u, a.kind, a.amount, a.payment, a.provided);
    } else if a.Confirm? {
      assert Step(s, a).issued == s.issued;
    } else {
      QuietApprovalMoves(s, a);
    }
  }

  lemma JoinedWithApproval(s: State, a: Action)
    requires ApprovalsAreOwners(s) && |Step(s, a).intents| > |s.intents|
    requires Step(s, a).intents[|s.intents|].approvalId.Some?
    ensures OwnerApproved(Step(s, a), Step(s, a).intents[|s.intents|].approvalId.value)
  {
    var t := Step(s, a);
    if a.Prepare? {
      var u := s.(intents := ExpireStale(s.intents, s.now));
      AuthorizationLeavesMandate(u, a.kind, a.amount, a.payment, a.provided);
      AuthorizationGrants(u, a.kind, a.amount, a.payment, a.provided);
      var id := t.intents[|s.intents|].approvalId.value;
      assert id in s.approvals && s.approvals[id].status.Approved?;
      StepGrows(s, a);
      OwnerApprovalLasts(s, t, id);
    } else {
      NothingJoins(s, a);
      assert false;
    }
  }

  lemma {:induction false} RunsKeepOwnersApprovals(s: State, actions: seq<Action>)
    requires ApprovalInv(s) && ApprovalsAreOwners(s)
    ensures ApprovalInv(RunAll(s, actions)) && ApprovalsAreOwners(RunAll(s, actions))
    decreases |actions|
  {
    if actions != [] {
      StepKeepsApprovals(s, actions[0]);
      StepKeepsOwnersApprovals(s, actions[0]);
      RunsKeepOwnersApprovals(Step(s, actions[0]), actions[1..]);
    }
  }

  /** Over every run, whatever rides an approval was approved by a signature of the owner its mandate names. */
  lemma ApprovedIntentsCarryTheOwnersConsent(level: Level, now: int, actions: seq<Action>, i: nat)
    requires
      var s := RunAll(Initial(level, now), actions);
      i < |s.intents| && s.intents[i].approvalId.Some?
    ensures
      var s := RunAll(Initial(level, now), actions);
      var id := s.intents[i].approvalId.value;
      OwnerApproved(s, id) && Matches(s.issued[id].binding, s.intents[i])
  {
    RunsKeepOwnersApprovals(Initial(level, now), actions);
    var s := RunAll(Initial(level, now), actions);
    assert StampedOk(s, s.intents[i]);
  }
}
