/**
  Deposits and withdrawals against the chain.  Any number of actors (submitters, status pollers, recovery) hold a flow
  at once and lock only to write; the chain may land a broadcast transaction at any moment of its blockhash window.
  Lookups are linearizable: they answer from the chain as it is at that moment.
 */
module FlowProtocol {
  import opened Wrappers
  import opened Models

  type FlowId = nat
  type ActorId = nat

  /** `effect` is the landed balance change of the agent's token account. */
  datatype Landing = Landing(failed: bool, effect: int)

  datatype Transaction = Transaction(broadcast: bool, landed: Option<Landing>, windowClosed: bool)

  /** `receipts` lists the principal changes the ledger applied for this flow. */
  datatype Flow = Flow(status: FlowStatus, receipts: seq<int>, transaction: Transaction)

  datatype Outcome = NotSubmitted | Found(landing: Landing)

  datatype Phase =
    | Resting
    | Simulating(flow: FlowId)
    | Broadcasting(flow: FlowId)
    | Waiting(flow: FlowId)
    | LookingUp(flow: FlowId, resubmit: bool)
    | CheckingExpiry(flow: FlowId, resubmit: bool)
    | LastLookup(flow: FlowId)
    | Resending(flow: FlowId)
    | LoadingConfirmed(flow: FlowId)
    | Writing(flow: FlowId, outcome: Outcome)

  datatype State = State(flows: map<FlowId, Flow>, actors: map<ActorId, Phase>)

  datatype Wait = Confirmed | Expired | TimedOut

  datatype Action =
    | Prepare(flow: FlowId)
    | ExpirePrepared(flow: FlowId)
    | Submit(actor: ActorId, flow: FlowId, intentExpired: bool)
    | Poll(actor: ActorId, flow: FlowId, resubmit: bool)
    | Simulated(actor: ActorId, ok: bool)
    | Broadcast(actor: ActorId, accepted: bool, threw: bool)
    | Waited(actor: ActorId, verdict: Wait)
    | LookedUp(actor: ActorId)
    | ExpiryChecked(actor: ActorId)
    | LookedUpAgain(actor: ActorId)
    | Resent(actor: ActorId, accepted: bool)
    | LoadedConfirmed(actor: ActorId)
    | Written(actor: ActorId, classified: bool)
    | ActorStops(actor: ActorId)
    | Lands(flow: FlowId, landing: Landing)
    | WindowCloses(flow: FlowId)

  /** The legacy settlement reconciliation has no second lookup; the vault flows have one. */
  datatype Variant = VaultFlows | LegacySettlement

  const Empty := State(map[], map[])
  const FreshTransaction := Transaction(false, None, false)

  function PhaseOf(s: State, actor: ActorId): Phase {
    if actor in s.actors then s.actors[actor] else Resting
  }

  function Goto(s: State, actor: ActorId, phase: Phase): State {
    s.(actors := s.actors[actor := phase])
  }

  function WithStatus(s: State, flow: FlowId, status: FlowStatus): State
    requires flow in s.flows
  {
    s.(flows := s.flows[flow := s.flows[flow].(status := status)])
  }

  function WithTransaction(s: State, flow: FlowId, tx: Transaction): State
    requires flow in s.flows
  {
    s.(flows := s.flows[flow := s.flows[flow].(transaction := tx)])
  }

  function Accept(s: State, flow: FlowId, accepted: bool): State
    requires flow in s.flows
  {
    if accepted then WithTransaction(s, flow, s.flows[flow].transaction.(broadcast := true)) else s
  }

  /** First under the lock: a prepared intent is expired or becomes `submitted` before anything is sent. */
  function DoSubmit(s: State, a: Action): State
    requires a.Submit?
  {
    if !PhaseOf(s, a.actor).Resting? || a.flow !in s.flows then s
    else
      match s.flows[a.flow].status
      case FlowPrepared =>
        if a.intentExpired then WithStatus(s, a.flow, FlowExpired)
        else Goto(WithStatus(s, a.flow, FlowSubmitted), a.actor, Simulating(a.flow))
      case FlowSubmitted => Goto(s, a.actor, LookingUp(a.flow, true))
      case _ => s
  }

  function DoPoll(s: State, a: Action): State
    requires a.Poll?
  {
    if PhaseOf(s, a.actor).Resting? && a.flow in s.flows && s.flows[a.flow].status.FlowSubmitted?
    then Goto(s, a.actor, LookingUp(a.flow, a.resubmit))
    else s
  }

  /** A failed simulation proves nothing: recovery may have broadcast the same bytes meanwhile. */
  function DoSimulated(s: State, a: Action): State
    requires a.Simulated?
  {
    var phase := PhaseOf(s, a.actor);
    if !phase.Simulating? then s
    else Goto(s, a.actor, if a.ok then Broadcasting(phase.flow) else LookingUp(phase.flow, false))
  }

  /** A send that throws may still have been accepted; the flow stays pending. */
  function DoBroadcast(s: State, a: Action): State
    requires a.Broadcast?
  {
    var phase := PhaseOf(s, a.actor);
    if !phase.Broadcasting? || phase.flow !in s.flows then s
    else Goto(Accept(s, phase.flow, a.accepted), a.actor, if a.threw then Resting else Waiting(phase.flow))
  }

  function DoWaited(s: State, a: Action): State
    requires a.Waited?
  {
    var phase := PhaseOf(s, a.actor);
    if !phase.Waiting? || phase.flow !in s.flows then s
    else
      var tx := s.flows[phase.flow].transaction;
      match a.verdict
      case Confirmed => if tx.landed.Some? then Goto(s, a.actor, LoadingConfirmed(phase.flow)) else s
      case Expired =>
        if tx.windowClosed && tx.landed.None? then Goto(s, a.actor, LookingUp(phase.flow, false)) else s
      case TimedOut => Goto(s, a.actor, Resting)
  }

  function DoLookedUp(s: State, a: Action): State
    requires a.LookedUp?
  {
    var phase := PhaseOf(s, a.actor);
    if !phase.LookingUp? || phase.flow !in s.flows then s
    else
      var landed := s.flows[phase.flow].transaction.landed;
      Goto(s, a.actor,
           if landed.Some? then Writing(phase.flow, Found(landed.value))
           else CheckingExpiry(phase.flow, phase.resubmit))
  }

  function DoExpiryChecked(variant: Variant, s: State, a: Action): State
    requires a.ExpiryChecked?
  {
    var phase := PhaseOf(s, a.actor);
    if !phase.CheckingExpiry? || phase.flow !in s.flows then s
    else if s.flows[phase.flow].transaction.windowClosed then
      Goto(s, a.actor, if variant.VaultFlows? then LastLookup(phase.flow) else Writing(phase.flow, NotSubmitted))
    else Goto(s, a.actor, if phase.resubmit then Resending(phase.flow) else Resting)
  }

  function DoLookedUpAgain(s: State, a: Action): State
    requires a.LookedUpAgain?
  {
    var phase := PhaseOf(s, a.actor);
    if !phase.LastLookup? || phase.flow !in s.flows then s
    else
      var landed := s.flows[phase.flow].transaction.landed;
      Goto(s, a.actor, Writing(phase.flow, if landed.Some? then Found(landed.value) else NotSubmitted))
  }

  function DoResent(s: State, a: Action): State
    requires a.Resent?
  {
    var phase := PhaseOf(s, a.actor);
    if !phase.Resending? || phase.flow !in s.flows then s
    else Goto(Accept(s, phase.flow, a.accepted), a.actor, Resting)
  }

  function DoLoadedConfirmed(s: State, a: Action): State
    requires a.LoadedConfirmed?
  {
    var phase := PhaseOf(s, a.actor);
    if !phase.LoadingConfirmed? || phase.flow !in s.flows then s
    else
      var landed := s.flows[phase.flow].transaction.landed;
      Goto(s, a.actor, if landed.Some? then Writing(phase.flow, Found(landed.value)) else Resting)
  }

  /** Under the lock again: only a flow still `submitted` is written, and at most once with a receipt. */
  function Finalized(flow: Flow, outcome: Outcome, classified: bool): Flow {
    if !flow.status.FlowSubmitted? then flow
    else
      match outcome
      case NotSubmitted => flow.(status := FlowNotSubmitted)
      case Found(landing) =>
        if landing.failed || !classified then flow.(status := FlowFailed)
        else flow.(status := FlowConfirmed, receipts := flow.receipts + [landing.effect])
  }

  function DoWritten(s: State, a: Action): State
    requires a.Written?
  {
    var phase := PhaseOf(s, a.actor);
    if !phase.Writing? || phase.flow !in s.flows then s
    else
      Goto(s.(flows := s.flows[phase.flow := Finalized(s.flows[phase.flow], phase.outcome, a.classified)]),
           a.actor, Resting)
  }

  function DoLands(s: State, a: Action): State
    requires a.Lands?
  {
    if a.flow !in s.flows then s
    else
      var tx := s.flows[a.flow].transaction;
      if tx.broadcast && tx.landed.None? && !tx.windowClosed
      then WithTransaction(s, a.flow, tx.(landed := Some(a.landing)))
      else s
  }

  function Step(variant: Variant, s: State, a: Action): State {
    match a
    case Prepare(flow) =>
      if flow in s.flows then s else s.(flows := s.flows[flow := Flow(FlowPrepared, [], FreshTransaction)])
    case ExpirePrepared(flow) =>
      if flow in s.flows && s.flows[flow].status.FlowPrepared? then WithStatus(s, flow, FlowExpired) else s
    case Submit(_, _, _) => DoSubmit(s, a)
    case Poll(_, _, _) => DoPoll(s, a)
    case Simulated(_, _) => DoSimulated(s, a)
    case Broadcast(_, _, _) => DoBroadcast(s, a)
    case Waited(_, _) => DoWaited(s, a)
    case LookedUp(_) => DoLookedUp(s, a)
    case ExpiryChecked(_) => DoExpiryChecked(variant, s, a)
    case LookedUpAgain(_) => DoLookedUpAgain(s, a)
    case Resent(_, _) => DoResent(s, a)
    case LoadedConfirmed(_) => DoLoadedConfirmed(s, a)
    case Written(_, _) => DoWritten(s, a)
    case ActorStops(actor) => Goto(s, actor, Resting)
    case Lands(_, _) => DoLands(s, a)
    case WindowCloses(flow) =>
      if flow in s.flows then WithTransaction(s, flow, s.flows[flow].transaction.(windowClosed := true)) else s
  }

  function RunAll(variant: Variant, s: State, actions: seq<Action>): State
    decreases |actions|
  {
    if actions == [] then s else RunAll(variant, Step(variant, s, actions[0]), actions[1..])
  }

  // ---- the properties

  /** The ledger never gives up on a transaction the chain executed. */
  predicate AgreesWithChain(flow: Flow) {
    match flow.status
    case FlowPrepared => flow.transaction.landed.None? && flow.receipts == []
    case FlowExpired => flow.transaction.landed.None? && flow.receipts == []
    case FlowNotSubmitted => flow.transaction.landed.None? && flow.transaction.windowClosed && flow.receipts == []
    case FlowSubmitted => flow.receipts == []
    case FlowFailed => flow.transaction.landed.Some? && flow.receipts == []
    case FlowConfirmed =>
      && flow.transaction.landed.Some?
      && !flow.transaction.landed.value.failed
      && flow.receipts == [flow.transaction.landed.value.effect]
  }

  predicate ChainConsistent(s: State) {
    forall flow | flow in s.flows :: AgreesWithChain(s.flows[flow])
  }

  predicate FlowInv(flow: Flow) {
    && AgreesWithChain(flow)
    && (flow.status.FlowPrepared? || flow.status.FlowExpired? ==> !flow.transaction.broadcast)
  }

  /** What an actor holds about its flow stays true whatever the others do. */
  predicate PhaseInv(s: State, phase: Phase) {
    !phase.Resting? ==>
      && phase.flow in s.flows
      && var flow := s.flows[phase.flow];
      && !flow.status.FlowPrepared? && !flow.status.FlowExpired?
      && (phase.LastLookup? ==> flow.transaction.windowClosed)
      && (phase.Writing? && phase.outcome.NotSubmitted? ==>
            flow.transaction.windowClosed && flow.transaction.landed.None?)
      && (phase.Writing? && phase.outcome.Found? ==> flow.transaction.landed == Some(phase.outcome.landing))
  }

  predicate Inv(s: State) {
    && (forall flow | flow in s.flows :: FlowInv(s.flows[flow]))
    && (forall actor | actor in s.actors :: PhaseInv(s, s.actors[actor]))
  }

  /** What a step may do to one flow. */
  predicate Evolves(before: Flow, after: Flow) {
    && (before.transaction.landed.Some? ==> after.transaction.landed == before.transaction.landed)
    && (before.transaction.windowClosed ==>
          after.transaction.windowClosed && after.transaction.landed == before.transaction.landed)
    && (before.transaction.broadcast ==> after.transaction.broadcast)
    && (FlowTerminal(before.status) ==> after.status == before.status && after.receipts == before.receipts)
    && (before.status.FlowSubmitted? ==> !after.status.FlowPrepared? && !after.status.FlowExpired?)
  }

  /** Terminal states are absorbing and the chain's past is fixed, in either variant. */
  lemma StepsEvolve(variant: Variant, s: State, a: Action, flow: FlowId)
    requires flow in s.flows
    ensures flow in Step(variant, s, a).flows
    ensures Evolves(s.flows[flow], Step(variant, s, a).flows[flow])
  {
  }

  lemma PhasesSurvive(s: State, after: State, phase: Phase)
    requires PhaseInv(s, phase)
    requires forall flow | flow in s.flows :: flow in after.flows && Evolves(s.flows[flow], after.flows[flow])
    ensures PhaseInv(after, phase)
  {
    if !phase.Resting? {
      assert Evolves(s.flows[phase.flow], after.flows[phase.flow]);
    }
  }

  lemma FlowsKeepInv(s: State, a: Action)
    requires Inv(s)
    ensures forall flow | flow in Step(VaultFlows, s, a).flows :: FlowInv(Step(VaultFlows, s, a).flows[flow])
  {
  }

  lemma ActingPhaseKeepsInv(s: State, a: Action, actor: ActorId)
    requires Inv(s)
    requires actor in Step(VaultFlows, s, a).actors
    ensures PhaseInv(Step(VaultFlows, s, a), Step(VaultFlows, s, a).actors[actor])
  {
    var after := Step(VaultFlows, s, a);
    forall flow | flow in s.flows ensures flow in after.flows && Evolves(s.flows[flow], after.flows[flow]) {
      StepsEvolve(VaultFlows, s, a, flow);
    }
    if actor in s.actors && after.actors[actor] == s.actors[actor] {
      PhasesSurvive(s, after, s.actors[actor]);
    } else {
      assert PhaseInv(s, PhaseOf(s, actor));
    }
  }

  lemma StepKeepsInv(s: State, a: Action)
    requires Inv(s)
    ensures Inv(Step(VaultFlows, s, a))
  {
    FlowsKeepInv(s, a);
    forall actor | actor in Step(VaultFlows, s, a).actors
      ensures PhaseInv(Step(VaultFlows, s, a), Step(VaultFlows, s, a).actors[actor])
    {
      ActingPhaseKeepsInv(s, a, actor);
    }
  }

  lemma {:induction false} RunsKeepInv(s: State, actions: seq<Action>)
    requires Inv(s)
    ensures Inv(RunAll(VaultFlows, s, actions))
    decreases |actions|
  {
    if actions != [] {
      StepKeepsInv(s, actions[0]);
      RunsKeepInv(Step(VaultFlows, s, actions[0]), actions[1..]);
    }
  }

  lemma {:induction false} TerminalIsForever(variant: Variant, s: State, actions: seq<Action>, flow: FlowId)
    requires flow in s.flows && FlowTerminal(s.flows[flow].status)
    ensures flow in RunAll(variant, s, actions).flows
    ensures RunAll(variant, s, actions).flows[flow].status == s.flows[flow].status
    ensures RunAll(variant, s, actions).flows[flow].receipts == s.flows[flow].receipts
    decreases |actions|
  {
    if actions != [] {
      StepsEvolve(variant, s, actions[0], flow);
      TerminalIsForever(variant, Step(variant, s, actions[0]), actions[1..], flow);
    }
  }

  /**
    With the lookup repeated after expiry was observed, every run agrees with the chain: a flow is abandoned only if
    its transaction never lands, and a landed one reaches the principal at most once, with the landed amount.
    Without it, a transaction landing between the first lookup and the expiry check is abandoned.
   */
  lemma AgreesWithChainExactlyWithSecondLookup(variant: Variant)
    ensures (forall actions :: ChainConsistent(RunAll(variant, Empty, actions))) <==> variant == VaultFlows
  {
    if variant == VaultFlows {
      forall actions ensures ChainConsistent(RunAll(variant, Empty, actions)) {
        RunsKeepInv(Empty, actions);
      }
    } else {
      var actions := LegacyAbandonsALanding();
      assert !ChainConsistent(RunAll(variant, Empty, actions));
    }
  }

  lemma LegacyAbandonsALanding() returns (actions: seq<Action>)
    ensures !ChainConsistent(RunAll(LegacySettlement, Empty, actions))
  {
    var tail2 := [ExpiryChecked(2), Written(2, true)];
    var tail1 := [LookedUp(2), Lands(7, Landing(false, 5)), WindowCloses(7)] + tail2;
    actions := [Prepare(7), Submit(1, 7, false), Simulated(1, true), Broadcast(1, true, true), Poll(2, 7, true)]
               + tail1;
    LegacyOpening(tail1);
    LegacyRace(tail2);
    LegacyGivesUp();
    assert 7 in RunAll(LegacySettlement, Empty, actions).flows;
    assert !AgreesWithChain(RunAll(LegacySettlement, Empty, actions).flows[7]);
  }

  const RacingSent := State(map[7 := Flow(FlowSubmitted, [], Transaction(true, None, false))],
                            map[1 := Resting, 2 := LookingUp(7, true)])
  const RacingLanded := State(map[7 := Flow(FlowSubmitted, [], Transaction(true, Some(Landing(false, 5)), true))],
                              map[1 := Resting, 2 := CheckingExpiry(7, true)])

  lemma LegacyOpening(rest: seq<Action>)
    ensures RunAll(LegacySettlement, Empty,
                   [Prepare(7), Submit(1, 7, false), Simulated(1, true), Broadcast(1, true, true), Poll(2, 7, true)]
                   + rest)
            == RunAll(LegacySettlement, RacingSent, rest)
  {
    var v := LegacySettlement;
    var a1 := [Prepare(7), Submit(1, 7, false), Simulated(1, true), Broadcast(1, true, true), Poll(2, 7, true)] + rest;
    assert a1[1..][1..][1..][1..][1..] == rest;
    var s1 := Step(v, Empty, a1[0]);
    var s2 := Step(v, s1, a1[1]);
    var s3 := Step(v, s2, a1[2]);
    var s4 := Step(v, s3, a1[3]);
    assert Step(v, s4, a1[4]) == RacingSent;
    assert RunAll(v, Empty, a1) == RunAll(v, s1, a1[1..]);
    assert RunAll(v, s1, a1[1..]) == RunAll(v, s2, a1[1..][1..]);
    assert RunAll(v, s2, a1[1..][1..]) == RunAll(v, s3, a1[1..][1..][1..]);
    assert RunAll(v, s3, a1[1..][1..][1..]) == RunAll(v, s4, a1[1..][1..][1..][1..]);
  }

  lemma LegacyRace(rest: seq<Action>)
    ensures RunAll(LegacySettlement, RacingSent,
                   [LookedUp(2), Lands(7, Landing(false, 5)), WindowCloses(7)] + rest)
            == RunAll(LegacySettlement, RacingLanded, rest)
  {
    var v := LegacySettlement;
    var a1 := [LookedUp(2), Lands(7, Landing(false, 5)), WindowCloses(7)] + rest;
    assert a1[1..][1..][1..] == rest;
    var s1 := Step(v, RacingSent, a1[0]);
    var s2 := Step(v, s1, a1[1]);
    assert Step(v, s2, a1[2]) == RacingLanded;
    assert RunAll(v, RacingSent, a1) == RunAll(v, s1, a1[1..]);
    assert RunAll(v, s1, a1[1..]) == RunAll(v, s2, a1[1..][1..]);
  }

  lemma LegacyGivesUp()
    ensures
      var s := RunAll(LegacySettlement, RacingLanded, [ExpiryChecked(2), Written(2, true)]);
      7 in s.flows && s.flows[7].status.FlowNotSubmitted? && s.flows[7].transaction.landed.Some?
  {
    var v := LegacySettlement;
    var a1 := [ExpiryChecked(2), Written(2, true)];
    assert a1[1..][1..] == [];
    var s1 := Step(v, RacingLanded, a1[0]);
    assert s1.actors[2] == Writing(7, NotSubmitted);
    assert RunAll(v, RacingLanded, a1) == RunAll(v, s1, a1[1..]);
    assert RunAll(v, s1, a1[1..]) == RunAll(v, Step(v, s1, a1[1]), a1[1..][1..]);
  }
}
