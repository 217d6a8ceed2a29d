/**
  What each step of an actor or of the chain does to a flow, and that actors left alone bring every flow to its end: a
  landed one to its confirmation, a dead one to its release.
 */
module ProtocolOutcomes {
  import opened Wrappers
  import opened Models
  import opened FlowProtocol

  predicate OnlyActorMoves(s: State, t: State, actor: ActorId, phase: Phase) {
    t == s.(actors := s.actors[actor := phase])
  }

  /** The actor moves on and one flow changes. */
  predicate ActorMovesFlow(s: State, t: State, actor: ActorId, phase: Phase, flow: FlowId, after: Flow) {
    t == State(s.flows[flow := after], s.actors[actor := phase])
  }

  predicate IsResting(s: State, actor: ActorId) {
    actor in s.actors ==> s.actors[actor] == Resting
  }

  predicate IsAt(s: State, actor: ActorId, phase: Phase) {
    actor in s.actors && s.actors[actor] == phase && phase != Resting
  }

  // ---- taking a flow up

  /** A submitter marks a prepared flow before it sends, expires a late one, and follows one already submitted. */
  lemma SubmitTakesUp(variant: Variant, s: State, actor: ActorId, flow: FlowId, late: bool)
    ensures
      var t := Step(variant, s, Submit(actor, flow, late));
      if !IsResting(s, actor) || flow !in s.flows then t == s
      else
        var f := s.flows[flow];
        match f.status
        case FlowPrepared =>
          if late then t == s.(flows := s.flows[flow := f.(status := FlowExpired)])
          else ActorMovesFlow(s, t, actor, Simulating(flow), flow, f.(status := FlowSubmitted))
        case FlowSubmitted => OnlyActorMoves(s, t, actor, LookingUp(flow, true))
        case _ => t == s
  {
  }

  /** A poller follows exactly submitted flows; preparation opens a new one; a late prepared one expires. */
  lemma PollTakesUp(variant: Variant, s: State, actor: ActorId, flow: FlowId, resubmit: bool)
    ensures
      var t := Step(variant, s, Poll(actor, flow, resubmit));
      if IsResting(s, actor) && flow in s.flows && s.flows[flow].status == FlowSubmitted
      then OnlyActorMoves(s, t, actor, LookingUp(flow, resubmit)) else t == s
    ensures Step(variant, s, Prepare(flow))
            == if flow in s.flows then s
               else s.(flows := s.flows[flow := Flow(FlowPrepared, [], Transaction(false, None, false))])
    ensures Step(variant, s, ExpirePrepared(flow))
            == if flow in s.flows && s.flows[flow].status == FlowPrepared
               then s.(flows := s.flows[flow := s.flows[flow].(status := FlowExpired)]) else s
    ensures Step(variant, s, ActorStops(actor)) == s.(actors := s.actors[actor := Resting])
  {
  }

  // ---- sending

  /** A simulation decides between sending and looking up; a send is on the wire when the chain accepts it. */
  lemma SendingMovesOn(variant: Variant, s: State, actor: ActorId, flow: FlowId, yes: bool, threw: bool)
    requires flow in s.flows
    ensures IsAt(s, actor, Simulating(flow)) ==>
              OnlyActorMoves(s, Step(variant, s, Simulated(actor, yes)), actor,
                             if yes then Broadcasting(flow) else LookingUp(flow, false))
    ensures IsAt(s, actor, Broadcasting(flow)) ==>
              ActorMovesFlow(s, Step(variant, s, Broadcast(actor, yes, threw)), actor,
                             if threw then Resting else Waiting(flow), flow, OnTheWire(s.flows[flow], yes))
    ensures IsAt(s, actor, Resending(flow)) ==>
              ActorMovesFlow(s, Step(variant, s, Resent(actor, yes)), actor, Resting, flow,
                             OnTheWire(s.flows[flow], yes))
  {
    assert s.flows[flow := s.flows[flow]] == s.flows;
  }

  function OnTheWire(f: Flow, accepted: bool): Flow {
    if accepted then f.(transaction := Transaction(true, f.transaction.landed, f.transaction.windowClosed)) else f
  }

  /** A sender learns of a landing or an expiry only when it is so, and may give up waiting at any time. */
  lemma WaitingLearnsTheTruth(variant: Variant, s: State, actor: ActorId, flow: FlowId, verdict: Wait)
    requires flow in s.flows && IsAt(s, actor, Waiting(flow))
    ensures
      var t, tx := Step(variant, s, Waited(actor, verdict)), s.flows[flow].transaction;
      match verdict
      case Confirmed => if tx.landed == None then t == s else OnlyActorMoves(s, t, actor, LoadingConfirmed(flow))
      case Expired =>
        if tx.landed == None && tx.windowClosed then OnlyActorMoves(s, t, actor, LookingUp(flow, false)) else t == s
      case TimedOut => OnlyActorMoves(s, t, actor, Resting)
  {
  }

  // ---- looking up

  /** What the chain says when it is asked. */
  function Answer(f: Flow): Outcome {
    match f.transaction.landed
    case None => NotSubmitted
    case Some(landing) => Found(landing)
  }

  lemma LookupsAnswerTheTruth(s: State, actor: ActorId, flow: FlowId, resubmit: bool)
    requires flow in s.flows
    ensures IsAt(s, actor, LookingUp(flow, resubmit)) ==>
              forall variant: Variant ::
                OnlyActorMoves(s, Step(variant, s, LookedUp(actor)), actor,
                               if s.flows[flow].transaction.landed == None then CheckingExpiry(flow, resubmit)
                               else Writing(flow, Answer(s.flows[flow])))
    ensures IsAt(s, actor, CheckingExpiry(flow, resubmit)) ==>
              OnlyActorMoves(s, Step(VaultFlows, s, ExpiryChecked(actor)), actor,
                             if s.flows[flow].transaction.windowClosed then LastLookup(flow)
                             else if resubmit then Resending(flow) else Resting)
    ensures IsAt(s, actor, LastLookup(flow)) ==>
              forall variant: Variant ::
                OnlyActorMoves(s, Step(variant, s, LookedUpAgain(actor)), actor, Writing(flow, Answer(s.flows[flow])))
    ensures IsAt(s, actor, LoadingConfirmed(flow)) ==>
              forall variant: Variant ::
                OnlyActorMoves(s, Step(variant, s, LoadedConfirmed(actor)), actor,
                               if s.flows[flow].transaction.landed == None then Resting
                               else Writing(flow, Answer(s.flows[flow])))
  {
  }

  // ---- writing

  /** What a flow becomes when an outcome is written: decided once, confirmed with one receipt. */
  predicate WrittenAs(f: Flow, g: Flow, outcome: Outcome, classified: bool) {
    && g.transaction == f.transaction
    && if f.status != FlowSubmitted then g == f
       else
         match outcome
         case NotSubmitted => g.status == FlowNotSubmitted && g.receipts == f.receipts
         case Found(landing) =>
           if classified && !landing.failed then
             g.status == FlowConfirmed && g.receipts == f.receipts + [landing.effect]
           else g.status == FlowFailed && g.receipts == f.receipts
  }

  lemma WritingDecides(variant: Variant, s: State, actor: ActorId, flow: FlowId, outcome: Outcome, classified: bool)
    requires flow in s.flows && IsAt(s, actor, Writing(flow, outcome))
    ensures
      var t := Step(variant, s, Written(actor, classified));
      && flow in t.flows && ActorMovesFlow(s, t, actor, Resting, flow, t.flows[flow])
      && WrittenAs(s.flows[flow], t.flows[flow], outcome, classified)
  {
  }

  // ---- the chain

  /** Only what is on the wire lands, once, while its window is open; a window only closes. */
  lemma ChainMoves(variant: Variant, s: State, flow: FlowId, landing: Landing)
    ensures
      var t := Step(variant, s, Lands(flow, landing));
      if flow in s.flows && s.flows[flow].transaction == Transaction(true, None, false)
      then t == s.(flows := s.flows[flow := s.flows[flow].(transaction := Transaction(true, Some(landing), false))])
      else t == s
    ensures
      var t := Step(variant, s, WindowCloses(flow));
      if flow in s.flows then
        t == s.(flows := s.flows[flow := s.flows[flow].(transaction := t.flows[flow].transaction)])
        && t.flows[flow].transaction == s.flows[flow].transaction.(windowClosed := true)
      else t == s
  {
  }

  /** An action of an actor that is elsewhere does nothing. */
  lemma ActorsKeepToTheirPhase(variant: Variant, s: State, a: Action)
    ensures a.Simulated? && !PhaseOf(s, a.actor).Simulating? ==> Step(variant, s, a) == s
    ensures a.Broadcast? && !PhaseOf(s, a.actor).Broadcasting? ==> Step(variant, s, a) == s
    ensures a.Waited? && !PhaseOf(s, a.actor).Waiting? ==> Step(variant, s, a) == s
    ensures a.LookedUp? && !PhaseOf(s, a.actor).LookingUp? ==> Step(variant, s, a) == s
    ensures a.ExpiryChecked? && !PhaseOf(s, a.actor).CheckingExpiry? ==> Step(variant, s, a) == s
    ensures a.LookedUpAgain? && !PhaseOf(s, a.actor).LastLookup? ==> Step(variant, s, a) == s
    ensures a.Resent? && !PhaseOf(s, a.actor).Resending? ==> Step(variant, s, a) == s
    ensures a.LoadedConfirmed? && !PhaseOf(s, a.actor).LoadingConfirmed? ==> Step(variant, s, a) == s
    ensures a.Written? && !PhaseOf(s, a.actor).Writing? ==> Step(variant, s, a) == s
  {
  }

  // ---- left alone, every flow ends

  lemma Then(variant: Variant, s: State, a: Action, rest: seq<Action>)
    ensures RunAll(variant, s, [a] + rest) == RunAll(variant, Step(variant, s, a), rest)
  {
    assert ([a] + rest)[1..] == rest;
  }

  /** Whoever looks at a submitted flow whose transaction landed brings it to its end, with its effect applied once. */
  lemma LandedFlowsAreFinished(variant: Variant, s: State, actor: ActorId, flow: FlowId)
    requires IsResting(s, actor) && flow in s.flows && s.flows[flow].status == FlowSubmitted
    requires s.flows[flow].transaction.landed.Some? && s.flows[flow].receipts == []
    ensures
      var t := RunAll(variant, s, [Poll(actor, flow, true)] + ([LookedUp(actor)] + ([Written(actor, true)] + [])));
      var landing := s.flows[flow].transaction.landed.value;
      && flow in t.flows && IsResting(t, actor)
      && t.flows[flow].status == (if landing.failed then FlowFailed else FlowConfirmed)
      && t.flows[flow].receipts == if landing.failed then [] else [landing.effect]
  {
    PollTakesUp(variant, s, actor, flow, true);
    var s1 := Step(variant, s, Poll(actor, flow, true));
    LookupsAnswerTheTruth(s1, actor, flow, true);
    var s2 := Step(variant, s1, LookedUp(actor));
    WritingDecides(variant, s2, actor, flow, Answer(s1.flows[flow]), true);
    Then(variant, s, Poll(actor, flow, true), [LookedUp(actor)] + ([Written(actor, true)] + []));
    Then(variant, s1, LookedUp(actor), [Written(actor, true)] + []);
    Then(variant, s2, Written(actor, true), []);
  }

  /** And whoever looks at one whose window closed without a landing releases it, after asking twice. */
  lemma DeadFlowsAreReleased(s: State, actor: ActorId, flow: FlowId)
    requires IsResting(s, actor) && flow in s.flows && s.flows[flow].status == FlowSubmitted
    requires s.flows[flow].transaction.landed == None && s.flows[flow].transaction.windowClosed
    ensures
      var actions := [Poll(actor, flow, true)] + ([LookedUp(actor)] + ([ExpiryChecked(actor)]
                     + ([LookedUpAgain(actor)] + ([Written(actor, true)] + []))));
      var t := RunAll(VaultFlows, s, actions);
      flow in t.flows && IsResting(t, actor) && t.flows[flow] == s.flows[flow].(status := FlowNotSubmitted)
  {
    var last := [Written(actor, true)] + [];
    PollTakesUp(VaultFlows, s, actor, flow, true);
    var s1 := Step(VaultFlows, s, Poll(actor, flow, true));
    LookupsAnswerTheTruth(s1, actor, flow, true);
    var s2 := Step(VaultFlows, s1, LookedUp(actor));
    LookupsAnswerTheTruth(s2, actor, flow, true);
    var s3 := Step(VaultFlows, s2, ExpiryChecked(actor));
    LookupsAnswerTheTruth(s3, actor, flow, true);
    var s4 := Step(VaultFlows, s3, LookedUpAgain(actor));
    WritingDecides(VaultFlows, s4, actor, flow, NotSubmitted, true);
    Then(VaultFlows, s, Poll(actor, flow, true),
         [LookedUp(actor)] + ([ExpiryChecked(actor)] + ([LookedUpAgain(actor)] + last)));
    Then(VaultFlows, s1, LookedUp(actor), [ExpiryChecked(actor)] + ([LookedUpAgain(actor)] + last));
    Then(VaultFlows, s2, ExpiryChecked(actor), [LookedUpAgain(actor)] + last);
    Then(VaultFlows, s3, LookedUpAgain(actor), last);
    Then(VaultFlows, s4, Written(actor, true), []);
  }

  /** A submission nothing disturbs: prepared, sent, landed, confirmed, with exactly the landed effect. */
  lemma UndisturbedSubmissionConfirms(variant: Variant, s: State, actor: ActorId, flow: FlowId, effect: int)
    requires IsResting(s, actor) && flow in s.flows
    requires s.flows[flow] == Flow(FlowPrepared, [], Transaction(false, None, false))
    ensures
      var landing := Landing(false, effect);
      var sent := [Submit(actor, flow, false)] + ([Simulated(actor, true)] + ([Broadcast(actor, true, false)]
                  + ([Lands(flow, landing)] + ([Waited(actor, Confirmed)] + ([LoadedConfirmed(actor)]
                  + ([Written(actor, true)] + []))))));
      var t := RunAll(variant, s, sent);
      && flow in t.flows && t.flows[flow].status == FlowConfirmed && t.flows[flow].receipts == [effect]
  {
    var landing := Landing(false, effect);
    var r7 := [Written(actor, true)] + [];
    var r6 := [LoadedConfirmed(actor)] + r7;
    var r5 := [Waited(actor, Confirmed)] + r6;
    var r4 := [Lands(flow, landing)] + r5;
    var r3 := [Broadcast(actor, true, false)] + r4;
    SubmitTakesUp(variant, s, actor, flow, false);
    var s1 := Step(variant, s, Submit(actor, flow, false));
    SendingMovesOn(variant, s1, actor, flow, true, false);
    var s2 := Step(variant, s1, Simulated(actor, true));
    SendingMovesOn(variant, s2, actor, flow, true, false);
    var s3 := Step(variant, s2, Broadcast(actor, true, false));
    ChainMoves(variant, s3, flow, landing);
    var s4 := Step(variant, s3, Lands(flow, landing));
    WaitingLearnsTheTruth(variant, s4, actor, flow, Confirmed);
    var s5 := Step(variant, s4, Waited(actor, Confirmed));
    LookupsAnswerTheTruth(s5, actor, flow, true);
    var s6 := Step(variant, s5, LoadedConfirmed(actor));
    WritingDecides(variant, s6, actor, flow, Found(landing), true);
    Then(variant, s, Submit(actor, flow, false), [Simulated(actor, true)] + r3);
    Then(variant, s1, Simulated(actor, true), r3);
    Then(variant, s2, Broadcast(actor, true, false), r4);
    Then(variant, s3, Lands(flow, landing), r5);
    Then(variant, s4, Waited(actor, Confirmed), r6);
    Then(variant, s5, LoadedConfirmed(actor), r7);
    Then(variant, s6, Written(actor, true), []);
  }
}
