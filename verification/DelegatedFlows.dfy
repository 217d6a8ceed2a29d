/**
  The money ledger and the mandate layer as one relayer.  A deposit or withdrawal of the delegated position is one
  record seen by both: its preparation asks the mandate layer and its submission asks again, so what each half proves
  of its own runs holds of the other half's records.
 */
module DelegatedFlows {
  import opened Wrappers
  import opened Models
  import L = Ledger
  import LI = LedgerInvariants
  import M = SpendingMandates
  import O = MandateOwnership
  import W = SpendingWindows
  import A = SpendingApprovals

  /** `link` names, for each intent of the mandate layer, the ledger's record of the same flow. */
  datatype Relayer = Relayer(key: PositionKey, ledger: L.LedgerState, mandates: M.State, link: seq<nat>)

  function Initial(key: PositionKey, level: M.Level, now: int): Relayer {
    Relayer(key, L.Initial(now), M.Initial(level, now), [])
  }

  datatype Action =
    | Elapse(elapsed: nat)
    | OnLedger(money: L.Action)
    | OnMandate(mandate: M.Action)
    | StartDeposit(deposit: L.DepositInput, provided: Option<nat>)
    | StartWithdrawal(withdrawal: L.WithdrawalInput, payment: Option<M.Binding>, provided: Option<nat>)
    | Submit(flowId: nat, transactionVerified: bool)
    | ReadStatus(flowId: nat)
    | Abandon(flowId: nat)
    | Land(flowId: nat, landed: L.LandedFlow)

  // ---- which record an action is about

  function LinkIndex(link: seq<nat>, flow: nat): (r: Option<nat>)
    ensures r.Some? ==> r.value < |link| && link[r.value] == flow
    ensures r.None? ==> flow !in link
  {
    if link == [] then None
    else if link[|link| - 1] == flow then Some(|link| - 1)
    else LinkIndex(link[..|link| - 1], flow)
  }

  /** A delegated flow: its index in the ledger's store, and its index among the intents. */
  datatype Place = Place(flow: nat, intent: nat)

  function PlaceOf(r: Relayer, flowId: nat): Option<Place> {
    var found := L.FlowIndex(r.ledger.flows, flowId);
    if found.None? then None
    else
      var i := LinkIndex(r.link, found.value);
      if i.None? || i.value >= |r.mandates.intents| then None else Some(Place(found.value, i.value))
  }

  predicate FlowElsewhere(s: L.LedgerState, flowId: nat, key: PositionKey) {
    var found := L.FlowIndex(s.flows, flowId);
    found.Some? ==> s.flows[found.value].key != key
  }

  predicate ActsElsewhere(s: L.LedgerState, a: L.Action, key: PositionKey) {
    match a
    case Tick(_) => false
    case StartDeposit(input) => input.key != key
    case StartWithdrawal(input) => input.key != key
    case Submit(id, _) => FlowElsewhere(s, id, key)
    case ReadStatus(id) => FlowElsewhere(s, id, key)
    case Abandon(id) => FlowElsewhere(s, id, key)
    case FinalizeLanded(id, _) => FlowElsewhere(s, id, key)
    case _ => true
  }

  predicate OwnersBusiness(a: M.Action) {
    a.OwnerSigns? || a.Register? || a.Revoke? || a.ScheduleRecovery? || a.CancelRecovery? || a.Decide?
  }

  // ---- what each half does

  function Swept(m: M.State): M.State {
    m.(intents := M.ExpireStale(m.intents, m.now))
  }

  function KindOf(input: L.WithdrawalInput): FlowKind {
    if input.yieldRealize then YieldRealize else NormalWithdrawal
  }

  function AskedDeposit(m: M.State, input: L.DepositInput, provided: Option<nat>): L.DepositInput {
    input.(mandateAllows := M.Authorize(Swept(m), Deposit, input.amountRawUsdc, None, provided).authorization.Granted?)
  }

  function AskedWithdrawal(
    m: M.State, input: L.WithdrawalInput, payment: Option<M.Binding>, provided: Option<nat>): L.WithdrawalInput
  {
    input.(mandateAllows :=
      M.Authorize(Swept(m), KindOf(input), input.amountRawUsdc, payment, provided).authorization.Granted?)
  }

  /** What the ledger does: the mandate layer's verdicts are its inputs. */
  function LedgerAction(r: Relayer, a: Action): Option<L.Action> {
    match a
    case Elapse(elapsed) => Some(L.Tick(elapsed))
    case OnLedger(money) => if ActsElsewhere(r.ledger, money, r.key) then Some(money) else None
    case OnMandate(_) => None
    case StartDeposit(input, provided) =>
      if input.key == r.key then Some(L.StartDeposit(AskedDeposit(r.mandates, input, provided))) else None
    case StartWithdrawal(input, payment, provided) =>
      if input.key != r.key then None
      else Some(L.StartWithdrawal(AskedWithdrawal(r.mandates, input, payment, provided)))
    case Submit(id, verified) =>
      var place := PlaceOf(r, id);
      if place.None? then None
      else
        var holds := M.PreparedAuthorizationHolds(r.mandates, r.mandates.intents[place.value.intent]);
        Some(L.Submit(id, L.SubmitInput(holds, verified)))
    case ReadStatus(id) => if PlaceOf(r, id).Some? then Some(L.ReadStatus(id)) else None
    case Abandon(id) => if PlaceOf(r, id).Some? then Some(L.Abandon(id)) else None
    case Land(id, landed) => if PlaceOf(r, id).Some? then Some(L.FinalizeLanded(id, landed)) else None
  }

  function LedgerAfter(r: Relayer, a: Action): L.LedgerState {
    var action := LedgerAction(r, a);
    if action.None? then r.ledger else L.Step(r.ledger, action.value)
  }

  /** Whether a preparation came as far as the sweep of stale flows, and with it to the mandate layer. */
  predicate Asks(replyWithoutConsent: L.Reply) {
    replyWithoutConsent == L.Refused(L.MandateRefused) || replyWithoutConsent == L.Refused(L.VaultFlowPending)
  }

  /** The same flow's move, told to the mandate layer. */
  function Told(before: FlowStatus, after: FlowStatus, intent: nat, moved: nat): Option<M.Action> {
    if after == before then None
    else
      match after
      case FlowNotSubmitted => Some(M.Abandon(intent))
      case FlowConfirmed => Some(M.Confirm(intent, moved))
      case FlowFailed => Some(M.FailLanded(intent))
      case _ => Some(M.Submit(intent))
  }

  function FollowUp(r: Relayer, t: L.LedgerState, flowId: nat, moved: nat): Option<M.Action> {
    var place := PlaceOf(r, flowId);
    if place.None? || place.value.flow >= |t.flows| then None
    else
      Told(r.ledger.flows[place.value.flow].status, t.flows[place.value.flow].status, place.value.intent, moved)
  }

  /** What a landed flow of this id proves to have moved. */
  function MovedOn(r: Relayer, flowId: nat, landed: L.LandedFlow): nat {
    var found := L.FlowIndex(r.ledger.flows, flowId);
    if found.None? then 0 else L.MovedAmount(r.ledger.flows[found.value].kind, landed.usdcDelta)
  }

  function MandateAction(r: Relayer, a: Action): Option<M.Action> {
    match a
    case Elapse(elapsed) => Some(M.Tick(elapsed))
    case OnLedger(_) => None
    case OnMandate(mandate) => if OwnersBusiness(mandate) then Some(mandate) else None
    case StartDeposit(input, provided) =>
      if input.key != r.key || !Asks(L.PrepareDeposit(r.ledger, input.(mandateAllows := false)).reply) then None
      else
        Some(M.Prepare(Deposit, input.amountRawUsdc, None, provided, input.expiresAt,
                       L.PrepareDeposit(r.ledger, AskedDeposit(r.mandates, input, provided)).reply.Done?))
    case StartWithdrawal(input, payment, provided) =>
      if input.key != r.key || !Asks(L.PrepareWithdrawal(r.ledger, input.(mandateAllows := false)).reply) then None
      else
        var asked := AskedWithdrawal(r.mandates, input, payment, provided);
        Some(M.Prepare(KindOf(input), input.amountRawUsdc, payment, provided, input.expiresAt,
                       L.PrepareWithdrawal(r.ledger, asked).reply.Done?))
    case Submit(id, _) => FollowUp(r, LedgerAfter(r, a), id, 0)
    case ReadStatus(id) => FollowUp(r, LedgerAfter(r, a), id, 0)
    case Abandon(id) => FollowUp(r, LedgerAfter(r, a), id, 0)
    case Land(id, landed) => FollowUp(r, LedgerAfter(r, a), id, MovedOn(r, id, landed))
  }

  function MandatesAfter(r: Relayer, a: Action): M.State {
    var action := MandateAction(r, a);
    if action.None? then r.mandates else M.Step(r.mandates, action.value)
  }

  function Step(r: Relayer, a: Action): Relayer {
    var ledger, mandates := LedgerAfter(r, a), MandatesAfter(r, a);
    var joins := (a.StartDeposit? || a.StartWithdrawal?) && |ledger.flows| > |r.ledger.flows|;
    Relayer(r.key, ledger, mandates, if joins then r.link + [|r.ledger.flows|] else r.link)
  }

  function RunAll(r: Relayer, actions: seq<Action>): Relayer
    decreases |actions|
  {
    if actions == [] then r else RunAll(Step(r, actions[0]), actions[1..])
  }

  // ---- both halves tell the same story

  predicate SameFlow(f: VaultFlow, g: M.Intent) {
    && f.kind == g.kind && f.amountRawUsdc == g.amount && f.expiresAt == g.expiresAt
    && f.status == g.status && f.movedRawUsdc == g.actual
    && (f.status.FlowConfirmed? ==> f.movedRawUsdc > 0)
  }

  /** Every flow of the delegated position is exactly one intent, in the same state, under the same clock. */
  predicate Linked(r: Relayer) {
    && r.ledger.now == r.mandates.now
    && |r.link| == |r.mandates.intents|
    && (forall i | 0 <= i < |r.link| ::
          && r.link[i] < |r.ledger.flows|
          && r.ledger.flows[r.link[i]].key == r.key
          && SameFlow(r.ledger.flows[r.link[i]], r.mandates.intents[i]))
    && (forall i, j | 0 <= i < j < |r.link| :: r.link[i] < r.link[j])
    && (forall k | 0 <= k < |r.ledger.flows| && r.ledger.flows[k].key == r.key :: k in r.link)
  }

  /** The delegated flows stayed as they were, and whatever joined belongs to another position. */
  predicate LeavesFlows(before: seq<VaultFlow>, after: seq<VaultFlow>, key: PositionKey) {
    && |before| <= |after|
    && (forall k | 0 <= k < |before| ::
          after[k].key == before[k].key && (before[k].key == key ==> after[k] == before[k]))
    && (forall k | |before| <= k < |after| :: after[k].key != key)
  }

  lemma OnlyTicksMoveTheClock(s: L.LedgerState, a: L.Action)
    requires !a.Tick?
    ensures L.Step(s, a).now == s.now
  {
    match a
    case Prepare(input) => LI.PrepareShape(s, input); LI.ExpiryMovesPayments(s, input.key);
    case ReadBudget(key) => LI.ExpiryMovesPayments(s, key);
    case StartDeposit(input) => LI.DepositShape(s, input);
    case StartWithdrawal(input) => LI.WithdrawalShape(s, input);
    case Finalize(id, result) => LI.FinalizeMove(s, id, result);
    case FinalizeLanded(id, landed) => LI.LandedFlowMove(s, id, landed);
    case ExpirePayment(id) => LI.SinglePaymentMove(s, a, id);
    case Begin(id, _) => LI.SinglePaymentMove(s, a, id);
    case MarkSubmitted(id) => LI.SinglePaymentMove(s, a, id);
    case RecordPending(id, _) => LI.SinglePaymentMove(s, a, id);
    case Submit(id, _) => LI.SingleFlowMove(s, a, id);
    case ReadStatus(id) => LI.SingleFlowMove(s, a, id);
    case Abandon(id) => LI.SingleFlowMove(s, a, id);
    case _ =>
  }

  /** A step on one stored flow moves that flow and no other record of the store. */
  lemma OneFlowMoves(s: L.LedgerState, a: L.Action, id: nat)
    requires LI.ActsOnFlow(a, id)
    ensures
      var found, t := L.FlowIndex(s.flows, id), L.Step(s, a);
      if found.None? then t.flows == s.flows
      else |t.flows| == |s.flows| && t.flows == s.flows[found.value := t.flows[found.value]]
  {
  }

  lemma ElsewhereLeavesFlows(s: L.LedgerState, a: L.Action, key: PositionKey)
    requires ActsElsewhere(s, a, key)
    ensures LeavesFlows(s.flows, L.Step(s, a).flows, key)
  {
    match a
    case StartDeposit(input) =>
      LI.DepositShape(s, input);
      OtherSweepLeavesFlows(s.flows, L.Step(s, a).flows, s.now, input.key, key);
    case StartWithdrawal(input) =>
      LI.WithdrawalShape(s, input);
      LI.ExpiryMovesPayments(s, input.key);
      OtherSweepLeavesFlows(s.flows, L.Step(s, a).flows, s.now, input.key, key);
    case Submit(id, _) => OneFlowMoves(s, a, id);
    case ReadStatus(id) => OneFlowMoves(s, a, id);
    case Abandon(id) => OneFlowMoves(s, a, id);
    case FinalizeLanded(id, _) => OneFlowMoves(s, a, id);
    case _ => LI.PaymentsLeaveFlows(s, a);
  }

  lemma OtherSweepLeavesFlows(
    before: seq<VaultFlow>, after: seq<VaultFlow>, now: int, other: PositionKey, key: PositionKey)
    requires other != key
    requires
      var swept := L.ExpireStaleFlows(before, other, now);
      || after == before || after == swept
      || (|after| == |swept| + 1 && after[..|swept|] == swept && after[|swept|].key == other)
    ensures LeavesFlows(before, after, key)
  {
    var swept := L.ExpireStaleFlows(before, other, now);
    if |after| == |swept| + 1 {
      assert forall k | 0 <= k < |swept| :: after[k] == after[..|swept|][k] == swept[k];
    }
  }

  // ---- preparation

  /** A preparation's flows: untouched, swept, or swept with the new flow at the end. */
  predicate Prepared(before: seq<VaultFlow>, after: seq<VaultFlow>, key: PositionKey, now: int, kind: FlowKind,
                     amount: nat, expiresAt: int, done: bool)
  {
    var swept := L.ExpireStaleFlows(before, key, now);
    if done then
      && |after| == |swept| + 1 && after[..|swept|] == swept
      && after[|swept|].key == key && after[|swept|].kind == kind && after[|swept|].amountRawUsdc == amount
      && after[|swept|].expiresAt == expiresAt && after[|swept|].status.FlowPrepared?
      && after[|swept|].movedRawUsdc == 0
    else after == swept
  }

  lemma DepositAsks(s: L.LedgerState, input: L.DepositInput)
    ensures
      var gate := L.PrepareDeposit(s, input.(mandateAllows := false)).reply;
      var outcome := L.PrepareDeposit(s, input);
      if !Asks(gate) then outcome.state.flows == s.flows && !outcome.reply.Done?
      else
        && Prepared(s.flows, outcome.state.flows, input.key, s.now, Deposit, input.amountRawUsdc, input.expiresAt,
                    outcome.reply.Done?)
        && (outcome.reply.Done? ==>
              && input.mandateAllows
              && !L.AnyFlowPending(s.(flows := L.ExpireStaleFlows(s.flows, input.key, s.now)), input.key))
  {
  }

  lemma WithdrawalAsks(s: L.LedgerState, input: L.WithdrawalInput)
    ensures
      var gate := L.PrepareWithdrawal(s, input.(mandateAllows := false)).reply;
      var outcome := L.PrepareWithdrawal(s, input);
      if !Asks(gate) then outcome.state.flows == s.flows && !outcome.reply.Done?
      else
        && Prepared(s.flows, outcome.state.flows, input.key, s.now, KindOf(input), input.amountRawUsdc, input.expiresAt,
                    outcome.reply.Done?)
        && (outcome.reply.Done? ==>
              && input.mandateAllows
              && !L.AnyFlowPending(s.(flows := L.ExpireStaleFlows(s.flows, input.key, s.now)), input.key))
  {
    LI.ExpiryMovesPayments(s, input.key);
    if input.key in s.positions {
      var s1 := L.ExpirePreparedPayments(s, input.key);
      var u := s1.(flows := L.ExpireStaleFlows(s1.flows, input.key, s1.now));
      if Asks(L.PrepareWithdrawal(s, input.(mandateAllows := false)).reply) {
        WithdrawalReaches(s, input);
        ApprovalAppends(u, input, s.positions[input.key]);
      } else {
        WithdrawalStopsEarly(s, input);
      }
    }
  }

  /** Past its first refusals a withdrawal goes on over the swept store. */
  lemma WithdrawalReaches(s: L.LedgerState, input: L.WithdrawalInput)
    requires input.key in s.positions && Asks(L.PrepareWithdrawal(s, input.(mandateAllows := false)).reply)
    ensures
      var s1 := L.ExpirePreparedPayments(s, input.key);
      var u := s1.(flows := L.ExpireStaleFlows(s1.flows, input.key, s1.now));
      var outcome := L.PrepareWithdrawal(s, input);
      || (outcome.state.flows == u.flows && !outcome.reply.Done?)
      || (&& !L.AnyFlowPending(u, input.key) && input.mandateAllows
          && outcome == L.ApproveWithdrawal(u, input, s.positions[input.key]))
  {
  }

  lemma WithdrawalStopsEarly(s: L.LedgerState, input: L.WithdrawalInput)
    requires input.key in s.positions && !Asks(L.PrepareWithdrawal(s, input.(mandateAllows := false)).reply)
    ensures L.PrepareWithdrawal(s, input).state.flows == L.ExpirePreparedPayments(s, input.key).flows == s.flows
    ensures !L.PrepareWithdrawal(s, input).reply.Done?
  {
  }

  lemma ApprovalAppends(s: L.LedgerState, input: L.WithdrawalInput, position: WalletPosition)
    ensures
      var outcome := L.ApproveWithdrawal(s, input, position);
      if outcome.reply.Done? then
        && |outcome.state.flows| == |s.flows| + 1 && outcome.state.flows[..|s.flows|] == s.flows
        && var f := outcome.state.flows[|s.flows|];
           && f.key == input.key && f.kind == KindOf(input) && f.amountRawUsdc == input.amountRawUsdc
           && f.expiresAt == input.expiresAt && f.status.FlowPrepared? && f.movedRawUsdc == 0
      else outcome.state == s
  {
    var outcome := L.ApproveWithdrawal(s, input, position);
    if outcome.reply.Done? {
      assert outcome.state.flows == s.flows + [outcome.state.flows[|s.flows|]];
    }
  }

  /** The mandate layer's side of the same preparation. */
  lemma IntentsPrepared(m: M.State, kind: FlowKind, amount: nat, payment: Option<M.Binding>, provided: Option<nat>,
                        expiresAt: int, built: bool)
    ensures
      var t := M.PrepareIntent(m, kind, amount, payment, provided, expiresAt, built);
      var swept := M.ExpireStale(m.intents, m.now);
      && t.now == m.now
      && (if !M.AnyPending(Swept(m)) && built
             && M.Authorize(Swept(m), kind, amount, payment, provided).authorization.Granted? then
            && |t.intents| == |swept| + 1 && t.intents[..|swept|] == swept
            && t.intents[|swept|].kind == kind && t.intents[|swept|].amount == amount
            && t.intents[|swept|].expiresAt == expiresAt && t.intents[|swept|].status.FlowPrepared?
            && t.intents[|swept|].actual == 0
          else t.intents == swept)
  {
    O.AuthorizationLeavesMandate(Swept(m), kind, amount, payment, provided);
  }

  lemma BothSweep(r: Relayer)
    requires Linked(r)
    ensures Linked(r.(ledger := r.ledger.(flows := L.ExpireStaleFlows(r.ledger.flows, r.key, r.ledger.now)),
                      mandates := Swept(r.mandates)))
    ensures L.AnyFlowPending(r.ledger.(flows := L.ExpireStaleFlows(r.ledger.flows, r.key, r.ledger.now)), r.key)
            <==> M.AnyPending(Swept(r.mandates))
  {
    var flows := L.ExpireStaleFlows(r.ledger.flows, r.key, r.ledger.now);
    var intents := Swept(r.mandates).intents;
    forall i | 0 <= i < |r.link|
      ensures SameFlow(flows[r.link[i]], intents[i])
      ensures FlowPending(flows[r.link[i]], r.ledger.now) <==> M.Pending(intents[i], r.mandates.now)
    {
    }
    forall k | 0 <= k < |flows| && flows[k].key == r.key && FlowPending(flows[k], r.ledger.now)
      ensures M.AnyPending(Swept(r.mandates))
    {
      assert k in r.link;
      var i :| 0 <= i < |r.link| && r.link[i] == k;
      assert M.Pending(intents[i], r.mandates.now);
    }
  }

  /** One more flow on both sides, at the end of both stores. */
  lemma BothAppend(r: Relayer, t: Relayer)
    requires Linked(r)
    requires t.key == r.key && t.ledger.now == r.ledger.now && t.mandates.now == r.mandates.now
    requires |t.ledger.flows| == |r.ledger.flows| + 1 && t.ledger.flows[..|r.ledger.flows|] == r.ledger.flows
    requires |t.mandates.intents| == |r.mandates.intents| + 1
    requires t.mandates.intents[..|r.mandates.intents|] == r.mandates.intents
    requires t.link == r.link + [|r.ledger.flows|]
    requires t.ledger.flows[|r.ledger.flows|].key == r.key
    requires SameFlow(t.ledger.flows[|r.ledger.flows|], t.mandates.intents[|r.mandates.intents|])
    ensures Linked(t)
  {
    forall k | 0 <= k < |r.ledger.flows| ensures t.ledger.flows[k] == r.ledger.flows[k] {
      assert t.ledger.flows[..|r.ledger.flows|][k] == t.ledger.flows[k];
    }
    forall i | 0 <= i < |r.mandates.intents| ensures t.mandates.intents[i] == r.mandates.intents[i] {
      assert t.mandates.intents[..|r.mandates.intents|][i] == t.mandates.intents[i];
    }
    forall k | 0 <= k < |t.ledger.flows| && t.ledger.flows[k].key == r.key ensures k in t.link {
      if k == |r.ledger.flows| {
        assert t.link[|r.link|] == k;
      } else {
        assert k in r.link;
      }
    }
  }

  /** What a preparation does to both halves, as far as the flows are concerned. */
  predicate PreparesBoth(r: Relayer, t: Relayer, kind: FlowKind, amount: nat, payment: Option<M.Binding>,
                         provided: Option<nat>, expiresAt: int, asks: bool, done: bool)
  {
    && t.key == r.key && t.ledger.now == r.ledger.now
    && t.link == (if done then r.link + [|r.ledger.flows|] else r.link)
    && (done ==>
          && asks
          && !L.AnyFlowPending(r.ledger.(flows := L.ExpireStaleFlows(r.ledger.flows, r.key, r.ledger.now)), r.key)
          && M.Authorize(Swept(r.mandates), kind, amount, payment, provided).authorization.Granted?)
    && if asks then
         && Prepared(r.ledger.flows, t.ledger.flows, r.key, r.ledger.now, kind, amount, expiresAt, done)
         && t.mandates == M.PrepareIntent(r.mandates, kind, amount, payment, provided, expiresAt, done)
       else t.ledger.flows == r.ledger.flows && t.mandates == r.mandates
  }

  lemma PreparationKeepsLinked(r: Relayer, t: Relayer, kind: FlowKind, amount: nat, payment: Option<M.Binding>,
                               provided: Option<nat>, expiresAt: int, asks: bool, done: bool)
    requires Linked(r) && PreparesBoth(r, t, kind, amount, payment, provided, expiresAt, asks, done)
    ensures Linked(t)
  {
    if asks {
      IntentsPrepared(r.mandates, kind, amount, payment, provided, expiresAt, done);
      BothSweep(r);
      var u := r.(ledger := r.ledger.(flows := L.ExpireStaleFlows(r.ledger.flows, r.key, r.ledger.now)),
                  mandates := Swept(r.mandates));
      if done {
        BothAppend(u, t);
      } else {
        SameFlowsStayLinked(u, t);
      }
    } else {
      SameFlowsStayLinked(r, t);
    }
  }

  /** A preparation on the ledger's side, with the mandate layer's verdict as an input. */
  predicate PreparesLedger(r: Relayer, t: L.LedgerState, kind: FlowKind, amount: nat, expiresAt: int, granted: bool,
                           asks: bool, done: bool)
  {
    && t.now == r.ledger.now
    && (done ==>
          && asks && granted
          && !L.AnyFlowPending(r.ledger.(flows := L.ExpireStaleFlows(r.ledger.flows, r.key, r.ledger.now)), r.key))
    && if asks then Prepared(r.ledger.flows, t.flows, r.key, r.ledger.now, kind, amount, expiresAt, done)
       else t.flows == r.ledger.flows
  }

  lemma BothSidesPrepare(r: Relayer, t: Relayer, kind: FlowKind, amount: nat, payment: Option<M.Binding>,
                         provided: Option<nat>, expiresAt: int, granted: bool, asks: bool, done: bool)
    requires PreparesLedger(r, t.ledger, kind, amount, expiresAt, granted, asks, done)
    requires granted == M.Authorize(Swept(r.mandates), kind, amount, payment, provided).authorization.Granted?
    requires t.mandates == if asks then M.PrepareIntent(r.mandates, kind, amount, payment, provided, expiresAt, done)
                           else r.mandates
    requires t.key == r.key
    requires t.link == if |t.ledger.flows| > |r.ledger.flows| then r.link + [|r.ledger.flows|] else r.link
    ensures PreparesBoth(r, t, kind, amount, payment, provided, expiresAt, asks, done)
  {
  }

  lemma DepositOnLedger(r: Relayer, input: L.DepositInput, given: L.DepositInput) returns (asks: bool, done: bool)
    requires input.key == r.key && input == given.(mandateAllows := input.mandateAllows)
    ensures asks == Asks(L.PrepareDeposit(r.ledger, given.(mandateAllows := false)).reply)
    ensures done == L.PrepareDeposit(r.ledger, input).reply.Done?
    ensures PreparesLedger(r, L.PrepareDeposit(r.ledger, input).state, Deposit, given.amountRawUsdc, given.expiresAt,
                           input.mandateAllows, asks, done)
  {
    assert input.(mandateAllows := false) == given.(mandateAllows := false);
    DepositAsks(r.ledger, input);
    OnlyTicksMoveTheClock(r.ledger, L.StartDeposit(input));
    asks := Asks(L.PrepareDeposit(r.ledger, given.(mandateAllows := false)).reply);
    done := L.PrepareDeposit(r.ledger, input).reply.Done?;
  }

  lemma WithdrawalOnLedger(r: Relayer, input: L.WithdrawalInput, given: L.WithdrawalInput)
    returns (asks: bool, done: bool)
    requires input.key == r.key && input == given.(mandateAllows := input.mandateAllows)
    ensures asks == Asks(L.PrepareWithdrawal(r.ledger, given.(mandateAllows := false)).reply)
    ensures done == L.PrepareWithdrawal(r.ledger, input).reply.Done?
    ensures PreparesLedger(r, L.PrepareWithdrawal(r.ledger, input).state, KindOf(given), given.amountRawUsdc,
                           given.expiresAt, input.mandateAllows, asks, done)
  {
    assert input.(mandateAllows := false) == given.(mandateAllows := false);
    WithdrawalAsks(r.ledger, input);
    OnlyTicksMoveTheClock(r.ledger, L.StartWithdrawal(input));
    asks := Asks(L.PrepareWithdrawal(r.ledger, given.(mandateAllows := false)).reply);
    done := L.PrepareWithdrawal(r.ledger, input).reply.Done?;
  }

  lemma DepositStep(r: Relayer, a: Action, done: bool)
    requires a.StartDeposit? && a.deposit.key == r.key
    requires done == L.PrepareDeposit(r.ledger, AskedDeposit(r.mandates, a.deposit, a.provided)).reply.Done?
    ensures
      var t := Step(r, a);
      && t.ledger == L.PrepareDeposit(r.ledger, AskedDeposit(r.mandates, a.deposit, a.provided)).state
      && t.mandates == if Asks(L.PrepareDeposit(r.ledger, a.deposit.(mandateAllows := false)).reply)
                       then M.PrepareIntent(r.mandates, Deposit, a.deposit.amountRawUsdc, None, a.provided,
                                            a.deposit.expiresAt, done)
                       else r.mandates
  {
  }

  lemma WithdrawalStep(r: Relayer, a: Action)
    requires a.StartWithdrawal? && a.withdrawal.key == r.key
    ensures LedgerAfter(r, a)
            == L.PrepareWithdrawal(r.ledger, AskedWithdrawal(r.mandates, a.withdrawal, a.payment, a.provided)).state
  {
  }

  lemma WithdrawalTold(r: Relayer, a: Action, asks: bool, done: bool)
    requires a.StartWithdrawal? && a.withdrawal.key == r.key
    requires asks == Asks(L.PrepareWithdrawal(r.ledger, a.withdrawal.(mandateAllows := false)).reply)
    requires
      var input := AskedWithdrawal(r.mandates, a.withdrawal, a.payment, a.provided);
      done == L.PrepareWithdrawal(r.ledger, input).reply.Done?
    ensures MandatesAfter(r, a)
            == if asks then M.PrepareIntent(r.mandates, KindOf(a.withdrawal), a.withdrawal.amountRawUsdc, a.payment,
                                            a.provided, a.withdrawal.expiresAt, done)
               else r.mandates
  {
    assert MandateAction(r, a)
           == if asks then Some(M.Prepare(KindOf(a.withdrawal), a.withdrawal.amountRawUsdc, a.payment, a.provided,
                                          a.withdrawal.expiresAt, done))
              else None;
  }

  lemma DepositPreparesBoth(r: Relayer, a: Action) returns (asks: bool, done: bool)
    requires a.StartDeposit? && a.deposit.key == r.key
    ensures PreparesBoth(r, Step(r, a), Deposit, a.deposit.amountRawUsdc, None, a.provided, a.deposit.expiresAt,
                         asks, done)
  {
    var input := AskedDeposit(r.mandates, a.deposit, a.provided);
    asks, done := DepositOnLedger(r, input, a.deposit);
    DepositStep(r, a, done);
    BothSidesPrepare(r, Step(r, a), Deposit, a.deposit.amountRawUsdc, None, a.provided, a.deposit.expiresAt,
                     input.mandateAllows, asks, done);
  }

  lemma WithdrawalPreparesBoth(r: Relayer, a: Action) returns (asks: bool, done: bool)
    requires a.StartWithdrawal? && a.withdrawal.key == r.key
    ensures PreparesBoth(r, Step(r, a), KindOf(a.withdrawal), a.withdrawal.amountRawUsdc, a.payment, a.provided,
                         a.withdrawal.expiresAt, asks, done)
  {
    var input := AskedWithdrawal(r.mandates, a.withdrawal, a.payment, a.provided);
    asks, done := WithdrawalOnLedger(r, input, a.withdrawal);
    WithdrawalStep(r, a);
    WithdrawalTold(r, a, asks, done);
    BothSidesPrepare(r, Step(r, a), KindOf(a.withdrawal), a.withdrawal.amountRawUsdc, a.payment, a.provided,
                     a.withdrawal.expiresAt, input.mandateAllows, asks, done);
  }

  lemma DepositKeepsLinked(r: Relayer, a: Action)
    requires Linked(r) && a.StartDeposit?
    ensures Linked(Step(r, a))
  {
    if a.deposit.key == r.key {
      var asks, done := DepositPreparesBoth(r, a);
      PreparationKeepsLinked(r, Step(r, a), Deposit, a.deposit.amountRawUsdc, None, a.provided, a.deposit.expiresAt,
                             asks, done);
    } else {
      SameFlowsStayLinked(r, Step(r, a));
    }
  }

  lemma WithdrawalKeepsLinked(r: Relayer, a: Action)
    requires Linked(r) && a.StartWithdrawal?
    ensures Linked(Step(r, a))
  {
    if a.withdrawal.key == r.key {
      var asks, done := WithdrawalPreparesBoth(r, a);
      PreparationKeepsLinked(r, Step(r, a), KindOf(a.withdrawal), a.withdrawal.amountRawUsdc, a.payment, a.provided,
                             a.withdrawal.expiresAt, asks, done);
    } else {
      SameFlowsStayLinked(r, Step(r, a));
    }
  }

  // ---- the life of a flow

  /** The same status change on both sides of one place. */
  lemma BothMove(r: Relayer, t: Relayer, place: Place, g: VaultFlow)
    requires Linked(r) && place.intent < |r.link| && r.link[place.intent] == place.flow
    requires t.key == r.key && t.link == r.link
    requires t.ledger.now == r.ledger.now && t.mandates.now == r.mandates.now
    requires t.ledger.flows == r.ledger.flows[place.flow := g] && g.key == r.key
    requires |t.mandates.intents| == |r.mandates.intents|
    requires SameFlow(t.ledger.flows[place.flow], t.mandates.intents[place.intent])
    requires forall i | 0 <= i < |r.link| && i != place.intent :: t.mandates.intents[i] == r.mandates.intents[i]
    ensures Linked(t)
  {
    forall i | 0 <= i < |r.link| && i != place.intent ensures t.ledger.flows[r.link[i]] == r.ledger.flows[r.link[i]] {
      assert r.link[i] != r.link[place.intent];
    }
  }

  /** The mandate layer follows a legal move of the flow with the same move of its intent. */
  lemma IntentFollows(m: M.State, i: nat, f: VaultFlow, g: VaultFlow, moved: nat)
    requires i < |m.intents| && SameFlow(f, m.intents[i]) && g.status != f.status
    requires LI.FlowKept(f, g, m.now) && (g.status.FlowConfirmed? ==> g.movedRawUsdc == moved)
    requires f.status.FlowPrepared? && g.status.FlowSubmitted? ==> M.PreparedAuthorizationHolds(m, m.intents[i])
    ensures Told(f.status, g.status, i, moved).Some?
    ensures
      var t := M.Step(m, Told(f.status, g.status, i, moved).value);
      && t.now == m.now && |t.intents| == |m.intents|
      && SameFlow(g, t.intents[i])
      && forall j | 0 <= j < |m.intents| && j != i :: t.intents[j] == m.intents[j]
  {
  }

  predicate ActsOnPlace(a: Action) {
    a.Submit? || a.ReadStatus? || a.Abandon? || a.Land?
  }

  lemma SubmissionNeedsConsent(s: L.LedgerState, a: L.Action, id: nat, k: nat)
    requires LI.ActsOnFlow(a, id) && k < |s.flows| && k < |L.Step(s, a).flows|
    requires s.flows[k].status.FlowPrepared? && L.Step(s, a).flows[k].status.FlowSubmitted?
    ensures a.Submit? && a.submission.mandateHolds
  {
  }

  lemma ConfirmationRecordsWhatMoved(r: Relayer, a: L.Action, id: nat, place: Place)
    requires LI.ActsOnFlow(a, id) && PlaceOf(r, id) == Some(place)
    requires place.flow < |L.Step(r.ledger, a).flows|
    requires !r.ledger.flows[place.flow].status.FlowConfirmed?
    requires L.Step(r.ledger, a).flows[place.flow].status.FlowConfirmed?
    ensures a.FinalizeLanded? && L.Step(r.ledger, a).flows[place.flow].movedRawUsdc == MovedOn(r, id, a.landed)
  {
  }

  /** A step on a placed flow moves it and its intent together, and nothing else of either store. */
  lemma PlaceMovesBoth(r: Relayer, a: Action, place: Place) returns (g: VaultFlow)
    requires ActsOnPlace(a) && PlaceOf(r, a.flowId) == Some(place)
    requires r.ledger.now == r.mandates.now && SameFlow(r.ledger.flows[place.flow], r.mandates.intents[place.intent])
    ensures
      var t := Step(r, a);
      && t.key == r.key && t.link == r.link
      && t.ledger.now == r.ledger.now && t.mandates.now == r.mandates.now
      && t.ledger.flows == r.ledger.flows[place.flow := g] && g.key == r.ledger.flows[place.flow].key
      && |t.mandates.intents| == |r.mandates.intents|
      && SameFlow(t.ledger.flows[place.flow], t.mandates.intents[place.intent])
      && forall i | 0 <= i < |r.mandates.intents| && i != place.intent :: t.mandates.intents[i] == r.mandates.intents[i]
  {
    var action := LedgerAction(r, a).value;
    var f, t := r.ledger.flows[place.flow], L.Step(r.ledger, action);
    assert LI.ActsOnFlow(action, a.flowId);
    OneFlowMoves(r.ledger, action, a.flowId);
    OnlyTicksMoveTheClock(r.ledger, action);
    LI.SingleFlowMove(r.ledger, action, a.flowId);
    assert LI.FlowKept(f, t.flows[place.flow], r.ledger.now);
    g := t.flows[place.flow];
    if g.status != f.status {
      if f.status.FlowPrepared? && g.status.FlowSubmitted? {
        SubmissionNeedsConsent(r.ledger, action, a.flowId, place.flow);
      }
      if g.status.FlowConfirmed? {
        ConfirmationRecordsWhatMoved(r, action, a.flowId, place);
      }
      IntentFollows(r.mandates, place.intent, f, g, if a.Land? then MovedOn(r, a.flowId, a.landed) else 0);
    }
  }

  lemma PlaceKeepsLinked(r: Relayer, a: Action)
    requires Linked(r) && ActsOnPlace(a)
    ensures Linked(Step(r, a))
  {
    var found := PlaceOf(r, a.flowId);
    if found.Some? {
      var g := PlaceMovesBoth(r, a, found.value);
      BothMove(r, Step(r, a), found.value, g);
    } else {
      SameFlowsStayLinked(r, Step(r, a));
    }
  }

  // ---- every step and every run

  lemma ElsewhereKeepsLinked(r: Relayer, a: Action)
    requires Linked(r) && a.OnLedger?
    ensures Linked(Step(r, a))
  {
    if ActsElsewhere(r.ledger, a.money, r.key) {
      ElsewhereLeavesFlows(r.ledger, a.money, r.key);
      OnlyTicksMoveTheClock(r.ledger, a.money);
    }
  }

  lemma OwnersBusinessLeavesIntents(m: M.State, a: M.Action)
    requires OwnersBusiness(a)
    ensures M.Step(m, a).intents == m.intents && M.Step(m, a).now == m.now
  {
  }

  lemma OwnersBusinessKeepsLinked(r: Relayer, a: Action)
    requires Linked(r) && a.OnMandate?
    ensures Linked(Step(r, a))
  {
    if OwnersBusiness(a.mandate) {
      OwnersBusinessLeavesIntents(r.mandates, a.mandate);
    }
    SameFlowsStayLinked(r, Step(r, a));
  }

  lemma SameFlowsStayLinked(r: Relayer, t: Relayer)
    requires Linked(r)
    requires t.key == r.key && t.link == r.link
    requires t.ledger.flows == r.ledger.flows && t.mandates.intents == r.mandates.intents
    requires t.ledger.now == t.mandates.now
    ensures Linked(t)
  {
  }

  lemma StepKeepsLinked(r: Relayer, a: Action)
    requires Linked(r)
    ensures Linked(Step(r, a))
  {
    match a
    case Elapse(elapsed) => SameFlowsStayLinked(r, Step(r, a));
    case OnLedger(money) => ElsewhereKeepsLinked(r, a);
    case OnMandate(mandate) => OwnersBusinessKeepsLinked(r, a);
    case StartDeposit(_, _) => DepositKeepsLinked(r, a);
    case StartWithdrawal(_, _, _) => WithdrawalKeepsLinked(r, a);
    case _ => PlaceKeepsLinked(r, a);
  }

  lemma {:induction false} RunsKeepLinked(r: Relayer, actions: seq<Action>)
    requires Linked(r)
    ensures Linked(RunAll(r, actions)) && RunAll(r, actions).key == r.key
    decreases |actions|
  {
    if actions != [] {
      StepKeepsLinked(r, actions[0]);
      RunsKeepLinked(Step(r, actions[0]), actions[1..]);
    }
  }

  /** The runs of the two halves inside a run of the relayer. */
  function LedgerRun(r: Relayer, actions: seq<Action>): seq<L.Action>
    decreases |actions|
  {
    if actions == [] then []
    else
      var own := LedgerAction(r, actions[0]);
      (if own.Some? then [own.value] else []) + LedgerRun(Step(r, actions[0]), actions[1..])
  }

  function MandateRun(r: Relayer, actions: seq<Action>): seq<M.Action>
    decreases |actions|
  {
    if actions == [] then []
    else
      var own := MandateAction(r, actions[0]);
      (if own.Some? then [own.value] else []) + MandateRun(Step(r, actions[0]), actions[1..])
  }

  /** So every theorem about runs of the ledger, or of the mandate layer, holds inside the relayer. */
  lemma {:induction false} BothHalvesRun(r: Relayer, actions: seq<Action>)
    ensures RunAll(r, actions).ledger == L.RunAll(r.ledger, LedgerRun(r, actions))
    ensures RunAll(r, actions).mandates == M.RunAll(r.mandates, MandateRun(r, actions))
    decreases |actions|
  {
    if actions != [] {
      var u := Step(r, actions[0]);
      BothHalvesRun(u, actions[1..]);
      var money, mandate := LedgerAction(r, actions[0]), MandateAction(r, actions[0]);
      if money.Some? {
        assert ([money.value] + LedgerRun(u, actions[1..]))[1..] == LedgerRun(u, actions[1..]);
      } else {
        assert [] + LedgerRun(u, actions[1..]) == LedgerRun(u, actions[1..]);
      }
      if mandate.Some? {
        assert ([mandate.value] + MandateRun(u, actions[1..]))[1..] == MandateRun(u, actions[1..]);
      } else {
        assert [] + MandateRun(u, actions[1..]) == MandateRun(u, actions[1..]);
      }
    }
  }

  // ---- what the mandate promises about the ledger

  /** What a flow of the ledger counts toward its cap: what landed of a deposit, what was asked for of a realize. */
  function CountedFlow(f: VaultFlow): nat {
    if f.kind.Deposit? then f.movedRawUsdc else f.amountRawUsdc
  }

  /** What the ledger's confirmed flows of a kind count for inside the closed window. */
  function LedgerWindowSum(
    flows: seq<VaultFlow>, link: seq<nat>, intents: seq<M.Intent>, kind: FlowKind, from: int, to: int): nat
    requires |link| == |intents| && forall i | 0 <= i < |link| :: link[i] < |flows|
  {
    if link == [] then 0
    else
      var last := |link| - 1;
      var f := flows[link[last]];
      LedgerWindowSum(flows, link[..last], intents[..last], kind, from, to)
      + if f.kind == kind && f.status.FlowConfirmed? && from <= intents[last].terminalAt <= to
        then CountedFlow(f) else 0
  }

  lemma {:induction false} SameWindows(
    flows: seq<VaultFlow>, link: seq<nat>, intents: seq<M.Intent>, kind: FlowKind, from: int, to: int)
    requires |link| == |intents|
    requires forall i | 0 <= i < |link| :: link[i] < |flows| && SameFlow(flows[link[i]], intents[i])
    ensures LedgerWindowSum(flows, link, intents, kind, from, to) == W.WindowSum(intents, kind, from, to)
    decreases |link|
  {
    if link != [] {
      SameWindows(flows, link[..|link| - 1], intents[..|intents| - 1], kind, from, to);
    }
  }

  lemma LinkedWindows(r: Relayer, kind: FlowKind, from: int, to: int)
    requires Linked(r)
    ensures LedgerWindowSum(r.ledger.flows, r.link, r.mandates.intents, kind, from, to)
            == W.WindowSum(r.mandates.intents, kind, from, to)
  {
    SameWindows(r.ledger.flows, r.link, r.mandates.intents, kind, from, to);
  }

  /**
    In every run of the whole relayer with enforcement on, the yield-realizes (or the landed amounts of the deposits)
    that the ledger confirms for the position inside any window of the cap's length stay within the cap, and every
    flow of the position is counted.
   */
  lemma LedgerFlowsStayUnderTheCap(
    key: PositionKey, now: int, actions: seq<Action>, cap: W.Cap, limit: nat, to: int)
    requires W.RunUnderLimit(M.Initial(M.On, now), MandateRun(Initial(key, M.On, now), actions), cap, limit)
    ensures
      var r := RunAll(Initial(key, M.On, now), actions);
      && Linked(r) && r.key == key
      && LedgerWindowSum(r.ledger.flows, r.link, r.mandates.intents, W.KindOf(cap), to - W.LengthOf(cap), to) <= limit
  {
    var r0 := Initial(key, M.On, now);
    RunsKeepLinked(r0, actions);
    BothHalvesRun(r0, actions);
    var r := RunAll(r0, actions);
    W.AnyWindowStaysUnderTheCap(now, MandateRun(r0, actions), cap, limit, to);
    LinkedWindows(r, W.KindOf(cap), to - W.LengthOf(cap), to);
  }

  /**
    In every run of the whole relayer under active checks, the step that submits a flow of the position in the ledger
    finds no revocation, the flow unexpired, its stamped mandate in force, and its approval approved and unexpired.
   */
  lemma LedgerSubmissionsAreAuthorized(
    key: PositionKey, level: M.Level, now: int, actions: seq<Action>, a: Action, k: nat)
    requires !level.Off?
    requires
      var r := RunAll(Initial(key, level, now), actions);
      var t := Step(r, a);
      && k < |r.ledger.flows| && k < |t.ledger.flows| && r.ledger.flows[k].key == key
      && r.ledger.flows[k].status.FlowPrepared? && t.ledger.flows[k].status.FlowSubmitted?
    ensures
      var r := RunAll(Initial(key, level, now), actions);
      && !(r.mandates.record.Some? && r.mandates.record.value.status.Revoked?)
      && exists i | 0 <= i < |r.link| ::
           && r.link[i] == k
           && i < |r.mandates.intents|
           && AuthorizedNow(r.mandates, r.mandates.intents[i])
  {
    var r0 := Initial(key, level, now);
    var r := RunAll(r0, actions);
    RunsKeepLinked(r0, actions);
    BothHalvesRun(r0, actions);
    StepKeepsLinked(r, a);
    assert k in r.link;
    var i :| 0 <= i < |r.link| && r.link[i] == k;
    SubmissionReachesIntent(r, a, i);
    A.SubmissionsStayAuthorized(level, now, MandateRun(r0, actions), MandateAction(r, a).value, i);
  }

  predicate AuthorizedNow(m: M.State, intent: M.Intent) {
    && intent.expiresAt > m.now
    && (intent.mandate.Some? ==> A.InForce(m, intent.mandate.value))
    && (intent.approvalId.Some? ==>
          && intent.mandate.Some?
          && intent.approvalId.value in m.approvals
          && m.approvals[intent.approvalId.value].status.Approved?
          && m.approvals[intent.approvalId.value].expiresAt > m.now
          && m.approvals[intent.approvalId.value].mandate == intent.mandate.value)
  }

  /** Links never move, so the flow and its intent are submitted by the same step. */
  lemma SubmissionReachesIntent(r: Relayer, a: Action, i: nat)
    requires Linked(r) && Linked(Step(r, a))
    requires i < |r.link| && r.link[i] < |Step(r, a).ledger.flows|
    requires r.ledger.flows[r.link[i]].status.FlowPrepared?
    requires Step(r, a).ledger.flows[r.link[i]].status.FlowSubmitted?
    ensures MandateAction(r, a).Some?
    ensures i < |M.Step(r.mandates, MandateAction(r, a).value).intents|
    ensures r.mandates.intents[i].status.FlowPrepared?
    ensures M.Step(r.mandates, MandateAction(r, a).value).intents[i].status.FlowSubmitted?
  {
    var t := Step(r, a);
    assert t.link[i] == r.link[i];
    assert SameFlow(t.ledger.flows[t.link[i]], t.mandates.intents[i]);
    assert SameFlow(r.ledger.flows[r.link[i]], r.mandates.intents[i]);
  }

  /**
    In every run of the whole relayer, two different confirmed flows of the position in the ledger never rode the same
    approval, and a confirmed flow was prepared for exactly the operation and amount its approval was issued for.
   */
  lemma LedgerFlowsSpendApprovalsOnce(
    key: PositionKey, level: M.Level, now: int, actions: seq<Action>, i: nat, j: nat)
    requires
      var r := RunAll(Initial(key, level, now), actions);
      && i < |r.link| && j < |r.link| && r.link[i] < |r.ledger.flows| && r.link[j] < |r.ledger.flows|
      && r.ledger.flows[r.link[i]].status.FlowConfirmed? && r.ledger.flows[r.link[j]].status.FlowConfirmed?
      && i < |r.mandates.intents| && j < |r.mandates.intents|
      && r.mandates.intents[i].approvalId.Some?
      && r.mandates.intents[i].approvalId == r.mandates.intents[j].approvalId
    ensures
      var r := RunAll(Initial(key, level, now), actions);
      var id := r.mandates.intents[i].approvalId.value;
      && r.link[i] == r.link[j]
      && id < |r.mandates.issued|
      && A.Matches(r.mandates.issued[id].binding, r.mandates.intents[i])
      && r.ledger.flows[r.link[i]].amountRawUsdc == r.mandates.issued[id].binding.amount
      && r.ledger.flows[r.link[i]].movedRawUsdc == r.mandates.intents[i].actual > 0
  {
    var r0 := Initial(key, level, now);
    RunsKeepLinked(r0, actions);
    BothHalvesRun(r0, actions);
    A.EachApprovalConfirmsOnce(level, now, MandateRun(r0, actions), i, j);
  }
}
