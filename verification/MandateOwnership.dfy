/**
  Who owns a mandate, over every history: the owner key changes only with the current owner's signature, after expiry,
  or after a full recovery window that nobody cancelled or superseded.
 */
module MandateOwnership {
  import opened Wrappers
  import opened Models
  import opened SpendingMandates

  /** A pending recovery is the last thing that happened to its mandate, and its deadline is 72 hours after it. */
  predicate RecoveryIsLogged(s: State) {
    s.record.Some? && s.record.value.status.RecoveryPending? ==>
      && s.log != []
      && s.log[|s.log| - 1].RecoveryScheduled?
      && s.log[|s.log| - 1].mandate == s.record.value.mandate
      && s.record.value.recoveryAt == Some(s.log[|s.log| - 1].at + RECOVERY_GRACE_MS)
  }

  /** The registered mandate was signed by the owner it names. */
  predicate RecordIsSigned(s: State) {
    s.record.Some? ==> Verifies(s, s.record.value.mandate.owner, MandateMessage(s.record.value.mandate))
  }

  predicate HistoryConsistent(s: State) {
    && RecoveryIsLogged(s)
    && RecordIsSigned(s)
    && (s.record.None? <==> s.log == [])
    && (forall i | 0 <= i < |s.log| :: s.log[i].at <= s.now)
  }

  /** Steps that act on intents and approvals leave the mandate, its log and the signatures alone. */
  predicate SameMandate(s: State, t: State) {
    t.record == s.record && t.log == s.log && t.signed == s.signed && t.now == s.now && t.level == s.level
  }

  lemma ApprovalsLeaveMandate(s: State, binding: Binding, mandate: Mandate, provided: Option<nat>)
    ensures SameMandate(s, RequireOperationApproval(s, binding, mandate, provided).state)
    ensures RequireOperationApproval(s, binding, mandate, provided).state.intents == s.intents
  {
  }

  lemma RealizeLeavesMandate(s: State, amount: nat, payment: Option<Binding>, provided: Option<nat>)
    ensures SameMandate(s, AuthorizeRealize(s, amount, payment, provided).state)
    ensures AuthorizeRealize(s, amount, payment, provided).state.intents == s.intents
  {
    var mandate := ResolvePolicy(s).mandate;
    if mandate.Some? && payment.Some? {
      ApprovalsLeaveMandate(s, payment.value, mandate.value, provided);
    }
  }

  lemma AuthorizationLeavesMandate(
    s: State, kind: FlowKind, amount: nat, payment: Option<Binding>, provided: Option<nat>)
    ensures SameMandate(s, Authorize(s, kind, amount, payment, provided).state)
    ensures Authorize(s, kind, amount, payment, provided).state.intents == s.intents
  {
    var mandate := ResolvePolicy(s).mandate;
    match kind
    case YieldRealize => RealizeLeavesMandate(s, amount, payment, provided);
    case Deposit =>
      if mandate.Some? {
        ApprovalsLeaveMandate(s, DepositBinding(amount), mandate.value, provided);
      }
    case NormalWithdrawal =>
      if mandate.Some? {
        ApprovalsLeaveMandate(s, WithdrawalBinding(amount), mandate.value, provided);
      }
  }

  predicate TouchesMandate(a: Action) {
    a.Tick? || a.OwnerSigns? || a.Register? || a.Revoke? || a.ScheduleRecovery? || a.CancelRecovery?
  }

  lemma OthersLeaveMandate(s: State, a: Action)
    requires !TouchesMandate(a)
    ensures SameMandate(s, Step(s, a))
  {
    if a.Prepare? {
      var u := s.(intents := ExpireStale(s.intents, s.now));
      AuthorizationLeavesMandate(u, a.kind, a.amount, a.payment, a.provided);
    }
  }

  lemma StepKeepsHistory(s: State, a: Action)
    requires HistoryConsistent(s)
    ensures HistoryConsistent(Step(s, a))
  {
    if !TouchesMandate(a) {
      OthersLeaveMandate(s, a);
    }
  }

  lemma {:induction false} EveryHistoryIsConsistent(s: State, actions: seq<Action>)
    requires HistoryConsistent(s)
    ensures HistoryConsistent(RunAll(s, actions))
    decreases |actions|
  {
    if actions != [] {
      StepKeepsHistory(s, actions[0]);
      EveryHistoryIsConsistent(Step(s, actions[0]), actions[1..]);
    }
  }

  /** The agent let a full grace window pass after scheduling a recovery, and nothing happened to the mandate since. */
  predicate RecoveryRanOut(s: State, mandate: Mandate) {
    && s.log != []
    && s.log[|s.log| - 1].RecoveryScheduled?
    && s.log[|s.log| - 1].mandate == mandate
    && s.log[|s.log| - 1].at + RECOVERY_GRACE_MS <= s.now
  }

  /** The current owner co-signed the very document that takes over. */
  predicate CoSigned(s: State, mandate: Mandate, successor: Mandate) {
    Verifies(s, mandate.owner, MandateMessage(successor))
  }

  /**
    Every step of every history: if the owner key changes, the mandate was not revoked, and the current owner co-signed
    the new document, or the mandate had expired, or a recovery had run its full 72 hours.
   */
  lemma OwnerChangesOnlyByRight(level: Level, now: int, actions: seq<Action>, a: Action)
    ensures
      var s := RunAll(Initial(level, now), actions);
      var t := Step(s, a);
      s.record.Some? ==>
        && t.record.Some?
        && (t.record.value.mandate.owner != s.record.value.mandate.owner ==>
              && !s.record.value.status.Revoked?
              && (|| CoSigned(s, s.record.value.mandate, t.record.value.mandate)
                  || s.record.value.mandate.expiresAt <= s.now
                  || RecoveryRanOut(s, s.record.value.mandate)))
  {
    EveryHistoryIsConsistent(Initial(level, now), actions);
    var s := RunAll(Initial(level, now), actions);
    if !TouchesMandate(a) {
      OthersLeaveMandate(s, a);
    }
  }

  /** A replacement is always newer, so no earlier mandate can be replayed. */
  lemma IssuedAtOnlyGrows(s: State, a: Action)
    ensures s.record.Some? ==>
              && Step(s, a).record.Some?
              && (Step(s, a).record.value.mandate == s.record.value.mandate
                  || Step(s, a).record.value.mandate.issuedAt > s.record.value.mandate.issuedAt)
  {
    if !TouchesMandate(a) {
      OthersLeaveMandate(s, a);
    }
  }

  /** Over every run the registered mandate is the same one or a strictly newer one. */
  lemma {:induction false} MandatesNeverReplay(s: State, actions: seq<Action>)
    ensures s.record.Some? ==>
              && RunAll(s, actions).record.Some?
              && (RunAll(s, actions).record.value.mandate == s.record.value.mandate
                  || RunAll(s, actions).record.value.mandate.issuedAt > s.record.value.mandate.issuedAt)
    decreases |actions|
  {
    if actions != [] {
      IssuedAtOnlyGrows(s, actions[0]);
      MandatesNeverReplay(Step(s, actions[0]), actions[1..]);
    }
  }

  /** A revoked mandate stays revoked until its own owner registers again; no other step of any run lifts it. */
  lemma {:induction false} RevocationHolds(s: State, actions: seq<Action>)
    requires s.record.Some? && s.record.value.status.Revoked?
    requires forall i | 0 <= i < |actions| && actions[i].Register? ::
               actions[i].document.owner != s.record.value.mandate.owner
    ensures RunAll(s, actions).record == s.record
    decreases |actions|
  {
    if actions != [] {
      if !TouchesMandate(actions[0]) {
        OthersLeaveMandate(s, actions[0]);
      }
      assert Step(s, actions[0]).record == s.record;
      RevocationHolds(Step(s, actions[0]), actions[1..]);
    }
  }
}
