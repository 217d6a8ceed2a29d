/**
  What each effect of the payer's run answers, said of the records and the phase alone; that no run spends above the
  cap of its call; and that an undisturbed or an interrupted purchase completes.
 */
module PayerOutcomes {
  import opened Wrappers
  import opened PendingPayments
  import opened CrashSafePayer

  // ---- saves

  /** A save that goes through, takes effect and throws, or throws without effect; memory rolls back on a throw. */
  predicate SavesAs(s: State, t: State, records: Records, outcome: SaveOutcome) {
    match outcome
    case Saved => t.pending == records && t.durable == records
    case ThrewAfterSaving => t.pending == s.pending && t.durable == records
    case ThrewBeforeSaving => t.pending == s.pending && t.durable == s.durable
  }

  /** The run goes on in this phase when the save went through, and ends otherwise. */
  predicate ContinuesAs(s: State, t: State, records: Records, outcome: SaveOutcome, phase: Phase) {
    && SavesAs(s, t, records, outcome)
    && t.phase == (if outcome == Saved then phase else Idle)
  }

  // ---- starting

  /** The record a call finds: on disk under the store's lock, in memory without one. */
  function Found(config: Config, s: State): Records {
    if config.exclusiveStore then s.durable else s.pending
  }

  /** Resumable with this context: its realization is recorded and nothing was paid. */
  predicate MayResume(record: PendingRecord, context: FundingContext, headers: string) {
    && record.status != ExternalOutcomeUnknown
    && (match record.recovery
        case None => false
        case Some(recovery) =>
          && recovery.context == context && recovery.requestHeadersHash == headers
          && (record.status == Realized || recovery.prepared != None))
  }

  /** A record only a forced payment may discard: it cannot be resumed, and is not an incomplete realization. */
  predicate MayDiscard(record: PendingRecord) {
    (record.recovery == None || record.status == ExternalOutcomeUnknown) && record.status != Realizing
  }

  lemma StartAnswers(config: Config, s: State, a: Action)
    requires a.Start?
    ensures
      var t := Step(config, s, a);
      var found := Found(config, s);
      var anew := Probing(a.key, a.context, a.headers, a.cap, None);
      if s.phase != Idle then t == s
      else
        && t.relayer == s.relayer && t.facts == s.facts
        && (if a.key !in found then t == s.(pending := found, phase := anew)
            else
              var record := found[a.key];
              if MayResume(record, a.context, a.headers) then
                t == s.(pending := found, phase := Probing(a.key, a.context, a.headers, a.cap, Some(record)))
              else if a.force && config.mayForce && MayDiscard(record) then
                ContinuesAs(s.(pending := found), t, found - {a.key}, a.save, anew)
              else t == s.(pending := found))
  {
  }

  // ---- the challenge

  /** The challenge the record was funded for, field by field. */
  predicate SameChallenge(record: PendingRecord, offered: Requirement) {
    match record.recovery
    case None => false
    case Some(recovery) =>
      && recovery.requirement == offered && record.amountRawUsdc == offered.amountRawUsdc
      && record.payTo == offered.payTo && record.feePayer == offered.feePayer
  }

  /** What a fresh purchase writes down first: the price, the payee, the context, and nothing realized. */
  function FirstRecord(p: Phase, offered: Requirement): PendingRecord
    requires p.Probing?
  {
    PendingRecord(offered.amountRawUsdc, offered.payTo, offered.feePayer, 0, Realizing,
                  Some(Recovery(p.context, p.headers, offered, None)))
  }

  /** A challenge within the cap goes on: recorded when fresh, picked up where it stopped when it is the saved one. */
  lemma ProbeAnswers(config: Config, s: State, a: Action)
    requires a.Probed?
    ensures
      var t := Step(config, s, a);
      if !s.phase.Probing? then t == s
      else
        && t.relayer == s.relayer && t.facts == s.facts
        && var p := s.phase;
           match a.offered
           case None => t == s.(phase := Idle)
           case Some(offered) =>
             if offered.amountRawUsdc > p.cap then t == s.(phase := Idle)
             else
               match p.resumed
               case None =>
                 var record := FirstRecord(p, offered);
                 ContinuesAs(s, t, s.pending[p.key := record], a.save,
                             Preparing(Run(p.key, false, record, offered, p.cap)))
               case Some(record) =>
                 var run := Run(p.key, true, record, offered, p.cap);
                 if !SameChallenge(record, offered) then t == s.(phase := Idle)
                 else if record.status == Realized then t == s.(phase := OutcomeKnown(run, record.realizedRawUsdc))
                 else
                   match record.recovery.value.prepared
                   case None => t == s.(phase := Idle)
                   case Some(w) => t == s.(phase := Rereading(run, w))
  {
  }

  // ---- realizing

  /** A refusal before anything was prepared is safe; a prepared withdrawal of the price is written down first. */
  lemma PrepareAnswersRun(config: Config, s: State, w: WithdrawalId, save: SaveOutcome)
    requires s.phase.Preparing? && s.phase.run.record.recovery.Some? && w !in s.relayer
    ensures Step(config, s, PrepareRefused) == s.(phase := RefusedSafely(s.phase.run))
    ensures
      var t := Step(config, s, PrepareAnswered(w, save));
      var run := s.phase.run;
      var record := run.record.(recovery := Some(run.record.recovery.value.(prepared := Some(w))));
      && ContinuesAs(s, t, s.pending[run.key := record], save, ReadyToSubmit(run.(record := record), w))
      && t.relayer == s.relayer[w := RelayerWithdrawal(run.selected.amountRawUsdc, RelayerPrepared)]
      && t.facts == s.facts
  {
  }

  /** A resumed run goes on only from a withdrawal still prepared, to submit it, or confirmed, to count it. */
  lemma RereadAnswersRun(config: Config, s: State, readable: bool)
    requires s.phase.Rereading?
    ensures
      var t := Step(config, s, RereadAnswered(readable));
      var run, w := s.phase.run, s.phase.withdrawal;
      && (readable && w in s.relayer && s.relayer[w].status == RelayerPrepared ==>
            t == s.(phase := ReadyToSubmit(run, w)))
      && (readable && w in s.relayer && s.relayer[w].status.RelayerConfirmed? ==>
            t == s.(phase := OutcomeKnown(run, s.relayer[w].status.actualWithdrawRawUsdc)))
      && (!readable || w !in s.relayer || s.relayer[w].status in {RelayerSubmitted, RelayerDead} ==>
            t == s.(phase := Idle))
  {
  }

  /** Before the submit request only a first attempt may call its failure safe; the submission itself is a fact. */
  lemma SubmitAnswersRun(config: Config, s: State)
    requires s.phase.ReadyToSubmit?
    ensures Step(config, s, PreviewRefused)
            == s.(phase := if s.phase.run.resuming then Idle else RefusedSafely(s.phase.run))
    ensures
      var t := Step(config, s, Submit);
      && t == s.(phase := AwaitingOutcome(s.phase.run, s.phase.withdrawal), facts := t.facts)
      && FactsOf(t, s.phase.run.key)
         == Facts(FactsOf(s, s.phase.run.key).submitted + {s.phase.withdrawal}, FactsOf(s, s.phase.run.key).payments)
      && forall k | k != s.phase.run.key :: FactsOf(t, k) == FactsOf(s, k)
  {
  }

  /** Only a confirmed withdrawal is an outcome; a lost or dead one ends the run with its record kept. */
  lemma OutcomeAnswersRun(config: Config, s: State, save: SaveOutcome)
    requires s.phase.AwaitingOutcome?
    ensures Step(config, s, OutcomeLost) == s.(phase := Idle)
    ensures
      var t, w := Step(config, s, OutcomeAnswered), s.phase.withdrawal;
      t == s.(phase := if w in s.relayer && s.relayer[w].status.RelayerConfirmed?
                       then OutcomeKnown(s.phase.run, s.relayer[w].status.actualWithdrawRawUsdc) else Idle)
  {
  }

  /** The safe refusal clears its record; the known outcome is written down as realized before anything else. */
  lemma CheckpointAnswers(config: Config, s: State, save: SaveOutcome)
    ensures s.phase.RefusedSafely? ==>
              var t := Step(config, s, ClearRefused(save));
              && ContinuesAs(s, t, s.pending - {s.phase.run.key}, save, Idle)
              && t.relayer == s.relayer && t.facts == s.facts
    ensures s.phase.OutcomeKnown? ==>
              var t, run := Step(config, s, RecordRealized(save)), s.phase.run;
              var record := run.record.(status := Realized, realizedRawUsdc := s.phase.actual);
              && ContinuesAs(s, t, s.pending[run.key := record], save, Funded(run.(record := record)))
              && t.relayer == s.relayer && t.facts == s.facts
  {
  }

  // ---- paying

  /** A covering realization raises the barrier before the seller is paid; an underfunded one ends the run. */
  lemma BarrierAnswers(config: Config, s: State, save: SaveOutcome)
    requires s.phase.Funded?
    ensures
      var t, run := Step(config, s, RaiseBarrier(save)), s.phase.run;
      && t.relayer == s.relayer && t.facts == s.facts
      && if run.selected.amountRawUsdc <= run.record.realizedRawUsdc then
           ContinuesAs(s, t, s.pending[run.key := run.record.(status := ExternalOutcomeUnknown)], save, Paying(run))
         else t == s.(phase := Idle)
  {
  }

  /** The payment is one fact; a delivery ends the purchase and its record, anything else leaves the outcome unknown. */
  lemma PaymentAnswers(config: Config, s: State, save: SaveOutcome)
    ensures s.phase.Paying? ==>
              var t, run := Step(config, s, PaySeller), s.phase.run;
              && t == s.(phase := AwaitingDelivery(run), facts := t.facts)
              && FactsOf(t, run.key) == Facts(FactsOf(s, run.key).submitted, FactsOf(s, run.key).payments + 1)
              && forall k | k != run.key :: FactsOf(t, k) == FactsOf(s, k)
    ensures s.phase.AwaitingDelivery? ==>
              var t, run := Step(config, s, SellerAnswered(true, save)), s.phase.run;
              && ContinuesAs(s, t, s.pending - {run.key}, save, Idle) && t.relayer == s.relayer
              && FactsOf(t, run.key) == NoFacts && forall k | k != run.key :: FactsOf(t, k) == FactsOf(s, k)
    ensures s.phase.AwaitingDelivery? ==>
              var t, run := Step(config, s, SellerAnswered(false, save)), s.phase.run;
              && t.relayer == s.relayer && t.facts == s.facts && t.phase == Idle
              && (run.key in s.pending ==>
                    SavesAs(s, t, s.pending[run.key := s.pending[run.key].(status := ExternalOutcomeUnknown)], save))
              && (run.key !in s.pending ==> t.pending == s.pending && t.durable == s.durable)
  {
  }

  /** A crash loses memory and the run, nothing else; and every effect out of its phase does nothing. */
  lemma CrashAnswers(config: Config, s: State)
    ensures Step(config, s, Crash) == s.(phase := Idle, pending := s.durable)
  {
  }

  /** The relayer's own moves: a prepared withdrawal dies or, once submitted, leaves; then it lands or dies. */
  lemma RelayerMovesExactlyWhen(config: Config, s: State, w: WithdrawalId, status: RelayerStatus)
    ensures
      var t := Step(config, s, RelayerMoves(w, status));
      var leaves :=
        && w in s.relayer
        && (match s.relayer[w].status
            case RelayerPrepared =>
              status == RelayerDead
              || (status == RelayerSubmitted && exists key | key in s.facts :: w in FactsOf(s, key).submitted)
            case RelayerSubmitted => status == RelayerDead || status.RelayerConfirmed?
            case _ => false);
      t == if leaves then s.(relayer := s.relayer[w := s.relayer[w].(status := status)]) else s
  {
    assert forall key | key in s.facts :: FactsOf(s, key) == s.facts[key];
  }

  lemma EffectsKeepToTheirPhase(config: Config, s: State, a: Action)
    ensures (a.PrepareRefused? || a.PrepareAnswered?) && !s.phase.Preparing? ==> Step(config, s, a) == s
    ensures a.RereadAnswered? && !s.phase.Rereading? ==> Step(config, s, a) == s
    ensures (a.PreviewRefused? || a.Submit?) && !s.phase.ReadyToSubmit? ==> Step(config, s, a) == s
    ensures (a.OutcomeLost? || a.OutcomeAnswered?) && !s.phase.AwaitingOutcome? ==> Step(config, s, a) == s
    ensures a.ClearRefused? && !s.phase.RefusedSafely? ==> Step(config, s, a) == s
    ensures a.RecordRealized? && !s.phase.OutcomeKnown? ==> Step(config, s, a) == s
    ensures a.RaiseBarrier? && !s.phase.Funded? ==> Step(config, s, a) == s
    ensures a.PaySeller? && !s.phase.Paying? ==> Step(config, s, a) == s
    ensures a.SellerAnswered? && !s.phase.AwaitingDelivery? ==> Step(config, s, a) == s
  {
  }

  // ---- the cap

  /** The run in progress, if the phase has one. */
  function RunOf(phase: Phase): Option<Run> {
    match phase
    case Preparing(run) => Some(run)
    case ReadyToSubmit(run, _) => Some(run)
    case RefusedSafely(run) => Some(run)
    case AwaitingOutcome(run, _) => Some(run)
    case Rereading(run, _) => Some(run)
    case OutcomeKnown(run, _) => Some(run)
    case Funded(run) => Some(run)
    case Paying(run) => Some(run)
    case AwaitingDelivery(run) => Some(run)
    case _ => None
  }

  /** The challenge a run works on is within the cap of its call. */
  predicate WithinCap(s: State) {
    var run := RunOf(s.phase);
    run.Some? ==> run.value.selected.amountRawUsdc <= run.value.cap
  }

  /** The cap of the call in progress. */
  function CapOf(phase: Phase): Option<nat> {
    match phase
    case Probing(_, _, _, cap, _) => Some(cap)
    case _ => if RunOf(phase).Some? then Some(RunOf(phase).value.cap) else None
  }

  /** A call's cap is the one it started with, to its end; and its run works on a challenge within it. */
  lemma StepKeepsCap(config: Config, s: State, a: Action)
    requires WithinCap(s)
    ensures WithinCap(Step(config, s, a))
    ensures s.phase != Idle && Step(config, s, a).phase != Idle ==> CapOf(Step(config, s, a).phase) == CapOf(s.phase)
    ensures s.phase == Idle && Step(config, s, a).phase != Idle ==>
              a.Start? && CapOf(Step(config, s, a).phase) == Some(a.cap)
  {
    match a
    case Start(_, _, _, _, _, _) => StartAnswers(config, s, a);
    case Probed(_, _) => ProbeAnswers(config, s, a);
    case _ =>
  }

  lemma {:induction false} RunsKeepCap(config: Config, s: State, actions: seq<Action>)
    requires WithinCap(s)
    ensures WithinCap(RunAll(config, s, actions))
    decreases |actions|
  {
    if actions != [] {
      StepKeepsCap(config, s, actions[0]);
      RunsKeepCap(config, Step(config, s, actions[0]), actions[1..]);
    }
  }

  /** What the relayer was asked to withdraw for a record is the record's price. */
  predicate AsksForPrice(r: Option<PendingRecord>, relayer: Relayer) {
    r.Some? && r.value.recovery.Some? && r.value.recovery.value.prepared.Some? ==>
      var w := r.value.recovery.value.prepared.value;
      w in relayer && relayer[w].requestedRawUsdc == r.value.amountRawUsdc
  }

  ghost predicate Priced(s: State) {
    Inv(s) && forall key :: AsksForPrice(Lookup(s.durable, key), s.relayer)
  }

  lemma StepKeepsPrices(s: State, a: Action, key: RequestKey)
    requires Inv(s) && forall k :: AsksForPrice(Lookup(s.durable, k), s.relayer)
    ensures AsksForPrice(Lookup(Step(Guarded, s, a).durable, key), Step(Guarded, s, a).relayer)
  {
    assert AsksForPrice(Lookup(s.durable, key), s.relayer);
  }

  lemma StepKeepsPriced(s: State, a: Action)
    requires Priced(s)
    ensures Priced(Step(Guarded, s, a))
  {
    StepKeepsInv(s, a);
    forall key ensures AsksForPrice(Lookup(Step(Guarded, s, a).durable, key), Step(Guarded, s, a).relayer) {
      StepKeepsPrices(s, a, key);
    }
  }

  lemma {:induction false} RunsKeepPriced(s: State, actions: seq<Action>)
    requires Priced(s)
    ensures Priced(RunAll(Guarded, s, actions))
    decreases |actions|
  {
    if actions != [] {
      StepKeepsPriced(s, actions[0]);
      RunsKeepPriced(Step(Guarded, s, actions[0]), actions[1..]);
    }
  }

  /** Over every run, guarded or not: the seller is only ever paid a challenge within the cap of its call. */
  lemma PaymentsStayWithinCap(config: Config, stored: Records, actions: seq<Action>, a: Action, key: RequestKey)
    ensures
      var s := RunAll(config, Initial(stored), actions);
      FactsOf(Step(config, s, a), key).payments > FactsOf(s, key).payments ==>
        && s.phase.Paying? && s.phase.run.key == key
        && CapOf(s.phase) == Some(s.phase.run.cap) && s.phase.run.selected.amountRawUsdc <= s.phase.run.cap
  {
    RunsKeepCap(config, Initial(stored), actions);
  }

  /** Over every guarded run a submitted withdrawal asks the relayer for exactly the price, within the call's cap. */
  lemma WithdrawalsStayWithinCap(stored: Records, actions: seq<Action>, a: Action, key: RequestKey, w: WithdrawalId)
    requires LegacyOnly(stored)
    ensures
      var s := RunAll(Guarded, Initial(stored), actions);
      w in FactsOf(Step(Guarded, s, a), key).submitted && w !in FactsOf(s, key).submitted ==>
        && s.phase.ReadyToSubmit? && s.phase.run.key == key && s.phase.withdrawal == w
        && w in s.relayer && s.relayer[w].requestedRawUsdc == s.phase.run.selected.amountRawUsdc
        && s.phase.run.selected.amountRawUsdc <= s.phase.run.cap
  {
    var s := RunAll(Guarded, Initial(stored), actions);
    RunsKeepCap(Guarded, Initial(stored), actions);
    assert Inv(Initial(stored));
    RunsKeepPriced(Initial(stored), actions);
    if w in FactsOf(Step(Guarded, s, a), key).submitted && w !in FactsOf(s, key).submitted {
      assert AsksForPrice(Lookup(s.durable, key), s.relayer);
    }
  }

  // ---- completion

  /** A call, its challenge, and what the relayer does for it. */
  datatype Purchase = Purchase(
    key: RequestKey,
    context: FundingContext,
    headers: string,
    cap: nat,
    offered: Requirement,
    withdrawal: WithdrawalId,
    actual: nat)

  function Call(p: Purchase): Action {
    Start(p.key, p.context, p.headers, p.cap, false, Saved)
  }

  /** From a confirmed outcome to the payment. */
  const FINISH: seq<Action> := [RecordRealized(Saved), RaiseBarrier(Saved), PaySeller]

  /** The record a paid purchase leaves until its delivery. */
  function PaidRecord(record: PendingRecord, actual: nat): PendingRecord {
    record.(status := ExternalOutcomeUnknown, realizedRawUsdc := actual)
  }

  lemma Then(config: Config, s: State, a: Action, rest: seq<Action>)
    ensures RunAll(config, s, [a] + rest) == RunAll(config, Step(config, s, a), rest)
  {
    assert ([a] + rest)[1..] == rest;
  }

  lemma FinishPays(config: Config, s: State)
    requires s.phase.OutcomeKnown? && s.phase.actual >= s.phase.run.selected.amountRawUsdc
    ensures
      var t, run := RunAll(config, s, FINISH), s.phase.run;
      && t.phase.AwaitingDelivery? && t.phase.run.key == run.key && t.relayer == s.relayer
      && t.pending == t.durable == s.pending[run.key := PaidRecord(run.record, s.phase.actual)]
      && FactsOf(t, run.key) == Facts(FactsOf(s, run.key).submitted, FactsOf(s, run.key).payments + 1)
  {
    var run := s.phase.run;
    CheckpointAnswers(config, s, Saved);
    var s1 := Step(config, s, RecordRealized(Saved));
    BarrierAnswers(config, s1, Saved);
    var s2 := Step(config, s1, RaiseBarrier(Saved));
    PaymentAnswers(config, s2, Saved);
    assert FINISH == [RecordRealized(Saved)] + ([RaiseBarrier(Saved)] + ([PaySeller] + []));
    Then(config, s, RecordRealized(Saved), [RaiseBarrier(Saved)] + ([PaySeller] + []));
    Then(config, s1, RaiseBarrier(Saved), [PaySeller] + []);
    Then(config, s2, PaySeller, []);
    assert s2.pending == s.pending[run.key := PaidRecord(run.record, s.phase.actual)];
  }

  /** Idle, with a store that memory agrees with or that is reread. */
  predicate ReadyForCall(config: Config, s: State) {
    s.phase == Idle && (config.exclusiveStore || s.pending == s.durable)
  }

  predicate Affordable(p: Purchase) {
    p.offered.amountRawUsdc <= p.cap && p.offered.amountRawUsdc <= p.actual
  }

  /** The call, the challenge, the prepared and submitted withdrawal, and its confirmation. */
  function Funding(p: Purchase): seq<Action> {
    [Call(p)]
    + ([Probed(Some(p.offered), Saved)] + ([PrepareAnswered(p.withdrawal, Saved)] + ([Submit] + Confirmation(p))))
  }

  function Confirmation(p: Purchase): seq<Action> {
    [RelayerMoves(p.withdrawal, RelayerSubmitted)]
    + ([RelayerMoves(p.withdrawal, RelayerConfirmed(p.actual))] + ([OutcomeAnswered] + FINISH))
  }

  /** Once submitted, a withdrawal the chain confirms is counted and the seller paid. */
  lemma ConfirmationPays(config: Config, s: State, p: Purchase)
    requires s.phase.AwaitingOutcome? && s.phase.withdrawal == p.withdrawal && s.phase.run.selected == p.offered
    requires p.withdrawal in s.relayer && s.relayer[p.withdrawal].status == RelayerPrepared
    requires p.withdrawal in FactsOf(s, s.phase.run.key).submitted && Affordable(p)
    ensures
      var t, run := RunAll(config, s, Confirmation(p)), s.phase.run;
      && t.phase.AwaitingDelivery? && t.phase.run.key == run.key
      && t.pending == t.durable == s.pending[run.key := PaidRecord(run.record, p.actual)]
      && FactsOf(t, run.key) == Facts(FactsOf(s, run.key).submitted, FactsOf(s, run.key).payments + 1)
  {
    var submitted := RelayerMoves(p.withdrawal, RelayerSubmitted);
    var confirmed := RelayerMoves(p.withdrawal, RelayerConfirmed(p.actual));
    assert s.phase.run.key in s.facts;
    var s1 := Step(config, s, submitted);
    var s2 := Step(config, s1, confirmed);
    OutcomeAnswersRun(config, s2, Saved);
    var s3 := Step(config, s2, OutcomeAnswered);
    Then(config, s, submitted, [confirmed] + ([OutcomeAnswered] + FINISH));
    Then(config, s1, confirmed, [OutcomeAnswered] + FINISH);
    Then(config, s2, OutcomeAnswered, FINISH);
    FinishPays(config, s3);
  }

  /**
    Nothing recorded, an affordable challenge, and nothing goes wrong: one withdrawal is submitted and the seller paid
    once; and with the delivery the record is gone.
   */
  lemma UndisturbedPurchaseCompletes(config: Config, s: State, p: Purchase)
    requires ReadyForCall(config, s) && p.key !in Found(config, s) && FactsOf(s, p.key) == NoFacts
    requires p.withdrawal !in s.relayer && Affordable(p)
    ensures
      var t := RunAll(config, s, Funding(p));
      && t.phase.AwaitingDelivery? && t.phase.run.key == p.key && FactsOf(t, p.key) == Facts({p.withdrawal}, 1)
      && var u := Step(config, t, SellerAnswered(true, Saved));
         u.phase == Idle && u.durable == Found(config, s) && FactsOf(u, p.key) == NoFacts
  {
    var s1 := Step(config, s, Call(p));
    StartAnswers(config, s, Call(p));
    var probed, prepared := Probed(Some(p.offered), Saved), PrepareAnswered(p.withdrawal, Saved);
    ProbeAnswers(config, s1, probed);
    var s2 := Step(config, s1, probed);
    PrepareAnswersRun(config, s2, p.withdrawal, Saved);
    var s3 := Step(config, s2, prepared);
    SubmitAnswersRun(config, s3);
    var s4 := Step(config, s3, Submit);
    Then(config, s, Call(p), [probed] + ([prepared] + ([Submit] + Confirmation(p))));
    Then(config, s1, probed, [prepared] + ([Submit] + Confirmation(p)));
    Then(config, s2, prepared, [Submit] + Confirmation(p));
    Then(config, s3, Submit, Confirmation(p));
    ConfirmationPays(config, s4, p);
    var t := RunAll(config, s4, Confirmation(p));
    PaymentAnswers(config, t, Saved);
    assert t.pending - {p.key} == Found(config, s);
  }

  /** The record of a purchase interrupted after its withdrawal was prepared. */
  predicate InterruptedAt(p: Purchase, record: PendingRecord) {
    && record.status == Realizing && SameChallenge(record, p.offered)
    && record.recovery == Some(Recovery(p.context, p.headers, p.offered, Some(p.withdrawal)))
  }

  /**
    Interrupted while its withdrawal was on the way, and confirmed meanwhile: the same call picks it up, submits no
    second withdrawal, and pays the seller once.
   */
  lemma InterruptedPurchaseCompletes(config: Config, s: State, p: Purchase)
    requires ReadyForCall(config, s) && p.key in Found(config, s) && InterruptedAt(p, Found(config, s)[p.key])
    requires p.withdrawal in s.relayer && s.relayer[p.withdrawal].status == RelayerConfirmed(p.actual) && Affordable(p)
    ensures
      var t := RunAll(config, s, [Call(p)] + ([Probed(Some(p.offered), Saved)] + ([RereadAnswered(true)] + FINISH)));
      && t.phase.AwaitingDelivery? && t.phase.run.key == p.key
      && FactsOf(t, p.key) == Facts(FactsOf(s, p.key).submitted, FactsOf(s, p.key).payments + 1)
  {
    var s1 := Step(config, s, Call(p));
    StartAnswers(config, s, Call(p));
    var probed := Probed(Some(p.offered), Saved);
    ProbeAnswers(config, s1, probed);
    var s2 := Step(config, s1, probed);
    RereadAnswersRun(config, s2, true);
    var s3 := Step(config, s2, RereadAnswered(true));
    Then(config, s, Call(p), [probed] + ([RereadAnswered(true)] + FINISH));
    Then(config, s1, probed, [RereadAnswered(true)] + FINISH);
    Then(config, s2, RereadAnswered(true), FINISH);
    FinishPays(config, s3);
  }
}
