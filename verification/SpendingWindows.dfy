/**
  The rolling caps: although a cap is checked when a realize or deposit is prepared and counts only what has confirmed,
  the amounts confirmed inside any window of the cap's length never exceed it.
 */
module SpendingWindows {
  import opened Wrappers
  import opened Models
  import opened SpendingMandates
  import opened MandateOwnership

  // ---- sums over closed windows

  function Share(intent: Intent, kind: FlowKind, from: int, to: int): nat {
    if intent.kind == kind && intent.status.FlowConfirmed? && from <= intent.terminalAt <= to then Counted(intent)
    else 0
  }

  /** What confirmed inside the closed window. */
  function WindowSum(intents: seq<Intent>, kind: FlowKind, from: int, to: int): nat {
    if intents == [] then 0
    else WindowSum(intents[..|intents| - 1], kind, from, to) + Share(intents[|intents| - 1], kind, from, to)
  }

  predicate EndedBy(intents: seq<Intent>, now: int) {
    forall i | 0 <= i < |intents| && intents[i].status.FlowConfirmed? :: intents[i].terminalAt <= now
  }

  lemma {:induction false} CheckedSumIsAWindow(intents: seq<Intent>, kind: FlowKind, since: int, to: int)
    requires EndedBy(intents, to)
    ensures ConfirmedSum(intents, kind, since) == WindowSum(intents, kind, since, to)
    decreases |intents|
  {
    if intents != [] {
      CheckedSumIsAWindow(intents[..|intents| - 1], kind, since, to);
    }
  }

  lemma {:induction false} NarrowerWindowsHoldLess(intents: seq<Intent>, kind: FlowKind, from: int, to: int,
                                                   later: int, earlier: int)
    requires from <= later && earlier <= to
    ensures WindowSum(intents, kind, later, earlier) <= WindowSum(intents, kind, from, to)
    decreases |intents|
  {
    if intents != [] {
      NarrowerWindowsHoldLess(intents[..|intents| - 1], kind, from, to, later, earlier);
    }
  }

  lemma {:induction false} SameSharesSameSum(a: seq<Intent>, b: seq<Intent>, kind: FlowKind, from: int, to: int)
    requires |a| == |b|
    requires forall i | 0 <= i < |a| :: Share(a[i], kind, from, to) == Share(b[i], kind, from, to)
    ensures WindowSum(a, kind, from, to) == WindowSum(b, kind, from, to)
    decreases |a|
  {
    if a != [] {
      SameSharesSameSum(a[..|a| - 1], b[..|b| - 1], kind, from, to);
    }
  }

  lemma {:induction false} SumAfterConfirm(intents: seq<Intent>, i: nat, q: Intent, kind: FlowKind, from: int, to: int)
    requires i < |intents|
    ensures WindowSum(intents[i := q], kind, from, to)
            == WindowSum(intents, kind, from, to) - Share(intents[i], kind, from, to) + Share(q, kind, from, to)
    decreases |intents|
  {
    var last := |intents| - 1;
    if i == last {
      assert intents[i := q][..last] == intents[..last];
    } else {
      SumAfterConfirm(intents[..last], i, q, kind, from, to);
      assert intents[i := q][..last] == intents[..last][i := q];
    }
  }

  // ---- how a step may change the intents

  predicate IntentMove(f: Intent, g: Intent, now: int) {
    || g == f
    || (f.status.FlowPrepared? && f.expiresAt > now && g == f.(status := FlowSubmitted))
    || (f.status.FlowPrepared? && f.expiresAt <= now && g == f.(status := FlowExpired, terminalAt := now))
    || (f.status.FlowSubmitted? && FlowTerminal(g.status) && !g.status.FlowExpired?
        && g == f.(status := g.status, terminalAt := now, actual := g.actual))
  }

  predicate IntentStep(before: seq<Intent>, after: seq<Intent>, now: int) {
    && |before| <= |after| <= |before| + 1
    && (forall i | 0 <= i < |before| :: IntentMove(before[i], after[i], now))
    && (|after| == |before| + 1 ==>
          && after[|before|].status.FlowPrepared?
          && forall i | 0 <= i < |before| :: !Pending(after[i], now))
  }

  lemma PrepareMovesIntents(s: State, a: Action)
    requires a.Prepare?
    ensures IntentStep(s.intents, Step(s, a).intents, s.now)
    ensures Step(s, a).now == s.now
  {
    var u := s.(intents := ExpireStale(s.intents, s.now));
    AuthorizationLeavesMandate(u, a.kind, a.amount, a.payment, a.provided);
    var t := Step(s, a);
    if |t.intents| > |s.intents| {
      assert forall i | 0 <= i < |s.intents| :: t.intents[i] == u.intents[i];
    }
  }

  lemma StepMovesIntents(s: State, a: Action)
    ensures IntentStep(s.intents, Step(s, a).intents, s.now)
    ensures Step(s, a).now >= s.now
  {
    match a
    case Prepare(_, _, _, _, _, _) => PrepareMovesIntents(s, a);
    case _ =>
  }

  predicate OnePending(s: State) {
    forall i, j | 0 <= i < j < |s.intents| :: !(Pending(s.intents[i], s.now) && Pending(s.intents[j], s.now))
  }

  lemma PendingGoesBack(s: State, t: State, i: nat)
    requires IntentStep(s.intents, t.intents, s.now) && t.now >= s.now && i < |s.intents|
    ensures Pending(t.intents[i], t.now) ==>
              Pending(s.intents[i], s.now) && Pending(t.intents[i], s.now) && s.intents[i].amount == t.intents[i].amount
              && s.intents[i].kind == t.intents[i].kind && s.intents[i].approvalId == t.intents[i].approvalId
  {
    assert IntentMove(s.intents[i], t.intents[i], s.now);
  }

  lemma StepKeepsOnePending(s: State, a: Action)
    requires OnePending(s)
    ensures OnePending(Step(s, a))
  {
    var t := Step(s, a);
    StepMovesIntents(s, a);
    forall i | 0 <= i < |s.intents|
      ensures Pending(t.intents[i], t.now) ==> Pending(s.intents[i], s.now) && Pending(t.intents[i], s.now)
    {
      PendingGoesBack(s, t, i);
    }
  }

  // ---- caps

  datatype Cap = DailySpend | MonthlySpend | DailyDeposit

  function KindOf(cap: Cap): FlowKind {
    if cap.DailyDeposit? then Deposit else YieldRealize
  }

  function LengthOf(cap: Cap): nat {
    if cap.MonthlySpend? then ROLLING_MONTH_MS else DAY_MS
  }

  function LimitIn(policy: Policy, cap: Cap): Option<nat> {
    match cap
    case DailySpend => policy.dailySpendCap
    case MonthlySpend => policy.monthlySpendCap
    case DailyDeposit => policy.dailyDepositCap
  }

  /** What the layer can promise: enforcement is on, every counted preparation ran under at most this limit, and a
      deposit never lands with more than was asked for. */
  predicate UnderLimit(s: State, a: Action, cap: Cap, limit: nat) {
    && s.level.On?
    && (a.Prepare? && a.kind == KindOf(cap) ==>
          LimitIn(ResolvePolicy(s).policy, cap).Some? && LimitIn(ResolvePolicy(s).policy, cap).value <= limit)
    && (cap.DailyDeposit? && a.Confirm? && a.intent < |s.intents| && s.intents[a.intent].kind.Deposit? ==>
          a.actual <= s.intents[a.intent].amount)
  }

  /** What confirmed inside the cap's window that ends at this moment. */
  function SumEndingAt(intents: seq<Intent>, cap: Cap, to: int): nat {
    WindowSum(intents, KindOf(cap), to - LengthOf(cap), to)
  }

  ghost predicate CapInv(s: State, cap: Cap, limit: nat) {
    && OnePending(s)
    && EndedBy(s.intents, s.now)
    && (forall i | 0 <= i < |s.intents| && s.intents[i].kind == KindOf(cap) && Pending(s.intents[i], s.now) ::
          ConfirmedSum(s.intents, KindOf(cap), s.now - LengthOf(cap)) + s.intents[i].amount <= limit)
    && (forall to :: SumEndingAt(s.intents, cap, to) <= limit)
  }

  lemma MovesKeepEnds(before: seq<Intent>, after: seq<Intent>, now: int, later: int)
    requires EndedBy(before, now) && IntentStep(before, after, now) && now <= later
    ensures EndedBy(after, later)
  {
    forall i | 0 <= i < |after| && after[i].status.FlowConfirmed? ensures after[i].terminalAt <= later {
      if i < |before| {
        assert IntentMove(before[i], after[i], now);
      }
    }
  }

  lemma StepKeepsEnds(s: State, a: Action)
    requires EndedBy(s.intents, s.now)
    ensures EndedBy(Step(s, a).intents, Step(s, a).now)
  {
    StepMovesIntents(s, a);
    MovesKeepEnds(s.intents, Step(s, a).intents, s.now, Step(s, a).now);
  }

  /** Every step but a confirmation leaves every window as it was. */
  lemma OnlyConfirmationsCount(s: State, a: Action, kind: FlowKind, from: int, to: int)
    requires !a.Confirm?
    ensures WindowSum(Step(s, a).intents, kind, from, to) == WindowSum(s.intents, kind, from, to)
  {
    StepMovesIntents(s, a);
    NoNewConfirmations(s, a);
    var after := Step(s, a).intents;
    var kept := after[..|s.intents|];
    forall i | 0 <= i < |s.intents| ensures Share(s.intents[i], kind, from, to) == Share(kept[i], kind, from, to) {
      assert IntentMove(s.intents[i], after[i], s.now);
    }
    SameSharesSameSum(s.intents, kept, kind, from, to);
    assert |after| == |s.intents| ==> kept == after;
  }

  lemma NoNewConfirmations(s: State, a: Action)
    requires !a.Confirm?
    ensures forall i | 0 <= i < |s.intents| && i < |Step(s, a).intents| ::
              Step(s, a).intents[i].status.FlowConfirmed? ==> s.intents[i].status.FlowConfirmed?
  {
    if a.Prepare? {
      var u := s.(intents := ExpireStale(s.intents, s.now));
      AuthorizationLeavesMandate(u, a.kind, a.amount, a.payment, a.provided);
    }
  }

  /** A preparation that is granted had room for its whole amount in the window that ends with it. */
  lemma GrantedHadRoom(s: State, a: Action, cap: Cap, limit: nat)
    requires a.Prepare? && a.kind == KindOf(cap) && UnderLimit(s, a, cap, limit)
    requires |Step(s, a).intents| > |s.intents|
    ensures ConfirmedSum(ExpireStale(s.intents, s.now), KindOf(cap), s.now - LengthOf(cap)) + a.amount <= limit
    ensures Step(s, a).intents[|s.intents|].amount == a.amount && Step(s, a).intents[|s.intents|].kind == a.kind
    ensures Step(s, a).intents[..|s.intents|] == ExpireStale(s.intents, s.now)
  {
    var u := s.(intents := ExpireStale(s.intents, s.now));
    AuthorizationLeavesMandate(u, a.kind, a.amount, a.payment, a.provided);
    assert ResolvePolicy(u) == ResolvePolicy(s);
    var t := Step(s, a);
    assert t.intents == u.intents + [t.intents[|s.intents|]];
  }

  /** The invariant of a later state from the facts a step provides. */
  lemma CapFromStep(s: State, t: State, cap: Cap, limit: nat)
    requires CapInv(s, cap, limit)
    requires IntentStep(s.intents, t.intents, s.now) && t.now >= s.now
    requires OnePending(t)
    requires forall to :: SumEndingAt(t.intents, cap, to) <= SumEndingAt(s.intents, cap, to)
    requires ConfirmedSum(t.intents, KindOf(cap), t.now - LengthOf(cap))
             <= ConfirmedSum(s.intents, KindOf(cap), s.now - LengthOf(cap))
    requires |t.intents| > |s.intents| && t.intents[|s.intents|].kind == KindOf(cap) ==>
               ConfirmedSum(t.intents, KindOf(cap), t.now - LengthOf(cap)) + t.intents[|s.intents|].amount <= limit
    ensures CapInv(t, cap, limit)
  {
    MovesKeepEnds(s.intents, t.intents, s.now, t.now);
    forall i | 0 <= i < |t.intents| && t.intents[i].kind == KindOf(cap) && Pending(t.intents[i], t.now)
      ensures ConfirmedSum(t.intents, KindOf(cap), t.now - LengthOf(cap)) + t.intents[i].amount <= limit
    {
      if i < |s.intents| {
        PendingGoesBack(s, t, i);
      }
    }
    forall to ensures SumEndingAt(t.intents, cap, to) <= limit {
      assert SumEndingAt(s.intents, cap, to) <= limit;
    }
  }

  lemma PreparationKeepsCap(s: State, a: Action, cap: Cap, limit: nat)
    requires a.Prepare? && CapInv(s, cap, limit) && UnderLimit(s, a, cap, limit)
    ensures CapInv(Step(s, a), cap, limit)
  {
    var t := Step(s, a);
    StepKeepsOnePending(s, a);
    PrepareMovesIntents(s, a);
    forall to ensures SumEndingAt(t.intents, cap, to) <= SumEndingAt(s.intents, cap, to) {
      OnlyConfirmationsCount(s, a, KindOf(cap), to - LengthOf(cap), to);
    }
    SameCheckedSum(s, a, KindOf(cap), s.now - LengthOf(cap));
    if |t.intents| > |s.intents| {
      GrantedIntent(s, a);
      if a.kind == KindOf(cap) {
        GrantedHadRoom(s, a, cap, limit);
      }
    }
    CapFromStep(s, t, cap, limit);
  }

  lemma GrantedIntent(s: State, a: Action)
    requires a.Prepare? && |Step(s, a).intents| > |s.intents|
    ensures Step(s, a).intents[|s.intents|].amount == a.amount && Step(s, a).intents[|s.intents|].kind == a.kind
  {
    var u := s.(intents := ExpireStale(s.intents, s.now));
    AuthorizationLeavesMandate(u, a.kind, a.amount, a.payment, a.provided);
  }

  /** The sum a cap is checked against does not move with anything but a confirmation. */
  lemma SameCheckedSum(s: State, a: Action, kind: FlowKind, since: int)
    requires !a.Confirm? && EndedBy(s.intents, s.now)
    ensures ConfirmedSum(Step(s, a).intents, kind, since) == ConfirmedSum(s.intents, kind, since)
    ensures a.Prepare? ==>
              ConfirmedSum(ExpireStale(s.intents, s.now), kind, since) == ConfirmedSum(s.intents, kind, since)
  {
    var t := Step(s, a);
    StepMovesIntents(s, a);
    StepKeepsEnds(s, a);
    OnlyConfirmationsCount(s, a, kind, since, t.now);
    CheckedSumIsAWindow(s.intents, kind, since, t.now);
    CheckedSumIsAWindow(t.intents, kind, since, t.now);
    var swept := ExpireStale(s.intents, s.now);
    CheckedSumIsAWindow(swept, kind, since, t.now);
    SameSharesSameSum(s.intents, swept, kind, since, t.now);
  }

  lemma QuietStepKeepsCap(s: State, a: Action, cap: Cap, limit: nat)
    requires !a.Prepare? && !a.Confirm? && CapInv(s, cap, limit)
    ensures CapInv(Step(s, a), cap, limit)
  {
    var t, kind := Step(s, a), KindOf(cap);
    StepKeepsOnePending(s, a);
    StepMovesIntents(s, a);
    NothingJoins(s, a);
    forall to ensures SumEndingAt(t.intents, cap, to) <= SumEndingAt(s.intents, cap, to) {
      OnlyConfirmationsCount(s, a, kind, to - LengthOf(cap), to);
    }
    SameCheckedSum(s, a, kind, t.now - LengthOf(cap));
    LaterChecksSeeLess(s.intents, kind, s.now - LengthOf(cap), t.now - LengthOf(cap), s.now);
    CapFromStep(s, t, cap, limit);
  }

  lemma LaterChecksSeeLess(intents: seq<Intent>, kind: FlowKind, since: int, later: int, now: int)
    requires EndedBy(intents, now) && since <= later
    ensures ConfirmedSum(intents, kind, later) <= ConfirmedSum(intents, kind, since)
  {
    CheckedSumIsAWindow(intents, kind, since, now);
    CheckedSumIsAWindow(intents, kind, later, now);
    NarrowerWindowsHoldLess(intents, kind, since, now, later, now);
  }

  lemma NothingJoins(s: State, a: Action)
    requires !a.Prepare?
    ensures |Step(s, a).intents| == |s.intents|
  {
  }

  /** Confirming spends the room the preparation left, inside every window that contains this moment. */
  lemma ConfirmationKeepsCap(s: State, i: nat, actual: nat, cap: Cap, limit: nat)
    requires CapInv(s, cap, limit) && UnderLimit(s, Confirm(i, actual), cap, limit)
    ensures CapInv(ConfirmIntent(s, i, actual), cap, limit)
  {
    var a := Confirm(i, actual);
    var t, kind := ConfirmIntent(s, i, actual), KindOf(cap);
    StepKeepsOnePending(s, a);
    StepKeepsEnds(s, a);
    StepMovesIntents(s, a);
    if i < |s.intents| && s.intents[i].status.FlowSubmitted? {
      var q := t.intents[i];
      assert t.intents == s.intents[i := q];
      assert Pending(s.intents[i], s.now);
      forall j | 0 <= j < |t.intents| ensures !Pending(t.intents[j], t.now) {
        if j != i {
          assert !(Pending(s.intents[i], s.now) && Pending(s.intents[j], s.now));
        }
      }
      forall to ensures SumEndingAt(t.intents, cap, to) <= limit {
        assert SumEndingAt(s.intents, cap, to) <= limit;
        WindowAfterConfirm(s, i, q, cap, limit, to);
      }
    }
  }

  lemma WindowAfterConfirm(s: State, i: nat, q: Intent, cap: Cap, limit: nat, to: int)
    requires CapInv(s, cap, limit)
    requires i < |s.intents| && s.intents[i].status.FlowSubmitted?
    requires q == s.intents[i].(status := FlowConfirmed, terminalAt := s.now, actual := q.actual)
    requires cap.DailyDeposit? && q.kind.Deposit? ==> q.actual <= q.amount
    ensures SumEndingAt(s.intents[i := q], cap, to) <= limit
  {
    assert SumEndingAt(s.intents, cap, to) <= limit;
    var kind, from := KindOf(cap), to - LengthOf(cap);
    SumAfterConfirm(s.intents, i, q, kind, from, to);
    if q.kind == kind && from <= s.now <= to {
      assert Pending(s.intents[i], s.now);
      var since := s.now - LengthOf(cap);
      CheckedSumIsAWindow(s.intents, kind, since, s.now);
      WindowsEndWithTheClock(s.intents, kind, since, s.now, to);
      NarrowerWindowsHoldLess(s.intents, kind, since, to, from, to);
    }
  }

  lemma WindowsEndWithTheClock(intents: seq<Intent>, kind: FlowKind, from: int, now: int, to: int)
    requires EndedBy(intents, now) && now <= to
    ensures WindowSum(intents, kind, from, to) == WindowSum(intents, kind, from, now)
  {
    SameSharesSameSumAcross(intents, kind, from, now, to);
  }

  lemma {:induction false} SameSharesSameSumAcross(intents: seq<Intent>, kind: FlowKind, from: int, now: int, to: int)
    requires EndedBy(intents, now) && now <= to
    ensures WindowSum(intents, kind, from, to) == WindowSum(intents, kind, from, now)
    decreases |intents|
  {
    if intents != [] {
      SameSharesSameSumAcross(intents[..|intents| - 1], kind, from, now, to);
    }
  }

  lemma StepKeepsCap(s: State, a: Action, cap: Cap, limit: nat)
    requires CapInv(s, cap, limit) && UnderLimit(s, a, cap, limit)
    ensures CapInv(Step(s, a), cap, limit)
  {
    match a
    case Prepare(_, _, _, _, _, _) => PreparationKeepsCap(s, a, cap, limit);
    case Confirm(i, actual) => ConfirmationKeepsCap(s, i, actual, cap, limit);
    case _ => QuietStepKeepsCap(s, a, cap, limit);
  }

  predicate RunUnderLimit(s: State, actions: seq<Action>, cap: Cap, limit: nat)
    decreases |actions|
  {
    actions == [] || (UnderLimit(s, actions[0], cap, limit)
                      && RunUnderLimit(Step(s, actions[0]), actions[1..], cap, limit))
  }

  lemma {:induction false} RunsKeepCap(s: State, actions: seq<Action>, cap: Cap, limit: nat)
    requires CapInv(s, cap, limit) && RunUnderLimit(s, actions, cap, limit)
    ensures CapInv(RunAll(s, actions), cap, limit)
    decreases |actions|
  {
    if actions != [] {
      StepKeepsCap(s, actions[0], cap, limit);
      RunsKeepCap(Step(s, actions[0]), actions[1..], cap, limit);
    }
  }

  /**
    With enforcement on and a policy whose cap is at most the limit, what confirms inside any window of the cap's
    length, wherever it lies, stays within the limit.
   */
  lemma AnyWindowStaysUnderTheCap(now: int, actions: seq<Action>, cap: Cap, limit: nat, to: int)
    requires RunUnderLimit(Initial(On, now), actions, cap, limit)
    ensures WindowSum(RunAll(Initial(On, now), actions).intents, KindOf(cap), to - LengthOf(cap), to) <= limit
  {
    RunsKeepCap(Initial(On, now), actions, cap, limit);
    assert SumEndingAt(RunAll(Initial(On, now), actions).intents, cap, to) <= limit;
  }
}
