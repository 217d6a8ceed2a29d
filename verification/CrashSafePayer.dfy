/**
  One payer process at a time, run by run, against a relayer and a seller.  Each action is one effect; the process can
  crash between any two of them, after which memory is rebuilt from the store.  The relayer keeps moving on its own.
 */
module CrashSafePayer {
  import opened Wrappers
  import opened PendingPayments

  datatype RelayerStatus =
    | RelayerPrepared
    | RelayerSubmitted
    | RelayerConfirmed(actualWithdrawRawUsdc: nat)
    | RelayerDead

  datatype RelayerWithdrawal = RelayerWithdrawal(requestedRawUsdc: nat, status: RelayerStatus)

  type Relayer = map<WithdrawalId, RelayerWithdrawal>

  /** What happened for one request since its last delivery. */
  datatype Facts = Facts(submitted: set<WithdrawalId>, payments: nat)

  const NoFacts := Facts({}, 0)

  datatype Run = Run(
    key: RequestKey,
    resuming: bool,
    record: PendingRecord,
    selected: Requirement,
    cap: nat)

  datatype Phase =
    | Idle
    | Probing(key: RequestKey, context: FundingContext, headers: string, cap: nat, resumed: Option<PendingRecord>)
    | Preparing(run: Run)
    | ReadyToSubmit(run: Run, withdrawal: WithdrawalId)
    | RefusedSafely(run: Run)
    | AwaitingOutcome(run: Run, withdrawal: WithdrawalId)
    | Rereading(run: Run, withdrawal: WithdrawalId)
    | OutcomeKnown(run: Run, actual: nat)
    | Funded(run: Run)
    | Paying(run: Run)
    | AwaitingDelivery(run: Run)

  /** `exclusiveStore`: the store offers a lock, so every run rereads it first.  `mayForce`: forceNewPayment is used. */
  datatype Config = Config(exclusiveStore: bool, mayForce: bool)

  datatype State = State(
    pending: Records,
    durable: Records,
    phase: Phase,
    relayer: Relayer,
    facts: map<RequestKey, Facts>)

  datatype Action =
    | Start(key: RequestKey, context: FundingContext, headers: string, cap: nat, force: bool, save: SaveOutcome)
    | Probed(offered: Option<Requirement>, save: SaveOutcome)
    | PrepareRefused
    | PrepareAnswered(withdrawal: WithdrawalId, save: SaveOutcome)
    | RereadAnswered(readable: bool)
    | PreviewRefused
    | Submit
    | OutcomeLost
    | OutcomeAnswered
    | ClearRefused(save: SaveOutcome)
    | RecordRealized(save: SaveOutcome)
    | RaiseBarrier(save: SaveOutcome)
    | PaySeller
    | SellerAnswered(delivered: bool, save: SaveOutcome)
    | Crash
    | RelayerMoves(withdrawal: WithdrawalId, status: RelayerStatus)

  function Initial(stored: Records): State {
    State(stored, stored, Idle, map[], map[])
  }

  function FactsOf(s: State, key: RequestKey): Facts {
    if key in s.facts then s.facts[key] else NoFacts
  }

  function Stop(s: State): State {
    s.(phase := Idle)
  }

  /** Continue in `phase` when the save went through; otherwise the run ends with an error. */
  function AfterSave(s: State, p: Persisted, phase: Phase): State {
    s.(pending := p.pending, durable := p.durable, phase := if p.threw then Idle else phase)
  }

  // ---- the run, effect by effect

  function DoStart(config: Config, s: State, a: Action): State
    requires a.Start?
  {
    if !s.phase.Idle? then s
    else
      var s := if config.exclusiveStore then s.(pending := s.durable) else s;
      var existing := Lookup(s.pending, a.key);
      if existing.None? then s.(phase := Probing(a.key, a.context, a.headers, a.cap, None))
      else
        var record := existing.value;
        if record.recovery.Some? && !record.status.ExternalOutcomeUnknown? then
          if record.recovery.value.context != a.context || record.recovery.value.requestHeadersHash != a.headers then s
          else if record.status.Realizing? && record.recovery.value.prepared.None? then s
          else s.(phase := Probing(a.key, a.context, a.headers, a.cap, Some(record)))
        else if !(a.force && config.mayForce) || record.status.Realizing? then s
        else AfterSave(s, Untracked(s.pending, s.durable, a.key, a.save),
                       Probing(a.key, a.context, a.headers, a.cap, None))
  }

  function FreshRecord(p: Phase, offered: Requirement): PendingRecord
    requires p.Probing?
  {
    PendingRecord(offered.amountRawUsdc, offered.payTo, offered.feePayer, 0, Realizing,
                  Some(Recovery(p.context, p.headers, offered, None)))
  }

  predicate MatchesSaved(record: PendingRecord, offered: Requirement)
    requires record.recovery.Some?
  {
    && record.recovery.value.requirement == offered
    && record.amountRawUsdc == offered.amountRawUsdc
    && record.payTo == offered.payTo
    && record.feePayer == offered.feePayer
  }

  function DoProbed(s: State, a: Action): State
    requires a.Probed?
  {
    if !s.phase.Probing? then s
    else if a.offered.None? then Stop(s)
    else
      var p, offered := s.phase, a.offered.value;
      match p.resumed
      case Some(record) =>
        if record.recovery.None? || !MatchesSaved(record, offered) || offered.amountRawUsdc > p.cap then Stop(s)
        else if record.status.Realized? then
          s.(phase := OutcomeKnown(Run(p.key, true, record, offered, p.cap), record.realizedRawUsdc))
        else if record.recovery.value.prepared.None? then Stop(s)
        else s.(phase := Rereading(Run(p.key, true, record, offered, p.cap), record.recovery.value.prepared.value))
      case None =>
        if offered.amountRawUsdc > p.cap then Stop(s)
        else
          var record := FreshRecord(p, offered);
          AfterSave(s, Tracked(s.pending, s.durable, p.key, record, a.save),
                    Preparing(Run(p.key, false, record, offered, p.cap)))
  }

  /** Budget precheck and relayer prepare failures: nothing can have been submitted. */
  function DoPrepareRefused(s: State): State {
    if s.phase.Preparing? then s.(phase := RefusedSafely(s.phase.run)) else s
  }

  /** The relayer prepared a fresh withdrawal; its id must be durable before anything is signed. */
  function DoPrepareAnswered(s: State, a: Action): State
    requires a.PrepareAnswered?
  {
    if !s.phase.Preparing? || a.withdrawal in s.relayer || s.phase.run.record.recovery.None? then s
    else
      var run := s.phase.run;
      var record := run.record.(recovery := Some(run.record.recovery.value.(prepared := Some(a.withdrawal))));
      var s := s.(relayer := s.relayer[a.withdrawal := RelayerWithdrawal(run.selected.amountRawUsdc, RelayerPrepared)]);
      AfterSave(s, Tracked(s.pending, s.durable, run.key, record, a.save),
                ReadyToSubmit(run.(record := record), a.withdrawal))
  }

  function DoRereadAnswered(s: State, a: Action): State
    requires a.RereadAnswered?
  {
    if !s.phase.Rereading? then s
    else if !a.readable || s.phase.withdrawal !in s.relayer then Stop(s)
    else
      match s.relayer[s.phase.withdrawal].status
      case RelayerPrepared => s.(phase := ReadyToSubmit(s.phase.run, s.phase.withdrawal))
      case RelayerConfirmed(actual) => s.(phase := OutcomeKnown(s.phase.run, actual))
      case _ => Stop(s)
  }

  /** Preview or signing fails before the submit request: only a first attempt is provably unsubmitted. */
  function DoPreviewRefused(s: State): State {
    if !s.phase.ReadyToSubmit? then s
    else if s.phase.run.resuming then Stop(s)
    else s.(phase := RefusedSafely(s.phase.run))
  }

  function DoSubmit(s: State): State {
    if !s.phase.ReadyToSubmit? then s
    else
      var key := s.phase.run.key;
      var f := FactsOf(s, key);
      s.(phase := AwaitingOutcome(s.phase.run, s.phase.withdrawal),
         facts := s.facts[key := f.(submitted := f.submitted + {s.phase.withdrawal})])
  }

  function DoOutcomeLost(s: State): State {
    if s.phase.AwaitingOutcome? then Stop(s) else s
  }

  function DoOutcomeAnswered(s: State): State {
    if !s.phase.AwaitingOutcome? then s
    else if s.phase.withdrawal in s.relayer && s.relayer[s.phase.withdrawal].status.RelayerConfirmed? then
      s.(phase := OutcomeKnown(s.phase.run, s.relayer[s.phase.withdrawal].status.actualWithdrawRawUsdc))
    else Stop(s)
  }

  function DoClearRefused(s: State, a: Action): State
    requires a.ClearRefused?
  {
    if !s.phase.RefusedSafely? then s
    else AfterSave(s, Untracked(s.pending, s.durable, s.phase.run.key, a.save), Idle)
  }

  function DoRecordRealized(s: State, a: Action): State
    requires a.RecordRealized?
  {
    if !s.phase.OutcomeKnown? then s
    else
      var run := s.phase.run;
      var record := run.record.(status := Realized, realizedRawUsdc := s.phase.actual);
      AfterSave(s, Tracked(s.pending, s.durable, run.key, record, a.save), Funded(run.(record := record)))
  }

  /** An underfunded realization stops here; otherwise the barrier must be durable before the seller is paid. */
  function DoRaiseBarrier(s: State, a: Action): State
    requires a.RaiseBarrier?
  {
    if !s.phase.Funded? then s
    else
      var run := s.phase.run;
      if run.record.realizedRawUsdc < run.selected.amountRawUsdc then Stop(s)
      else
        var record := run.record.(status := ExternalOutcomeUnknown);
        AfterSave(s, Tracked(s.pending, s.durable, run.key, record, a.save), Paying(run))
  }

  function DoPaySeller(s: State): State {
    if !s.phase.Paying? then s
    else
      var key := s.phase.run.key;
      var f := FactsOf(s, key);
      s.(phase := AwaitingDelivery(s.phase.run), facts := s.facts[key := f.(payments := f.payments + 1)])
  }

  /** A delivery closes the request: what happens afterwards belongs to the next purchase. */
  function DoSellerAnswered(s: State, a: Action): State
    requires a.SellerAnswered?
  {
    if !s.phase.AwaitingDelivery? then s
    else
      var key := s.phase.run.key;
      if a.delivered then
        AfterSave(s.(facts := s.facts[key := NoFacts]), Untracked(s.pending, s.durable, key, a.save), Idle)
      else
        AfterSave(s, MarkedUnknown(s.pending, s.durable, key, a.save), Idle)
  }

  function DoCrash(s: State): State {
    s.(phase := Idle, pending := s.durable)
  }

  /** Only a withdrawal somebody submitted can leave the prepared state for the chain. */
  function DoRelayerMoves(s: State, a: Action): State
    requires a.RelayerMoves?
  {
    var w := a.withdrawal;
    if w !in s.relayer then s
    else
      var from := s.relayer[w].status;
      var allowed :=
        || (from.RelayerPrepared? && a.status.RelayerDead?)
        || (from.RelayerPrepared? && a.status.RelayerSubmitted?
            && exists key | key in s.facts :: w in s.facts[key].submitted)
        || (from.RelayerSubmitted? && (a.status.RelayerConfirmed? || a.status.RelayerDead?));
      if allowed then s.(relayer := s.relayer[w := s.relayer[w].(status := a.status)]) else s
  }

  function Step(config: Config, s: State, a: Action): State {
    match a
    case Start(_, _, _, _, _, _) => DoStart(config, s, a)
    case Probed(_, _) => DoProbed(s, a)
    case PrepareRefused => DoPrepareRefused(s)
    case PrepareAnswered(_, _) => DoPrepareAnswered(s, a)
    case RereadAnswered(_) => DoRereadAnswered(s, a)
    case PreviewRefused => DoPreviewRefused(s)
    case Submit => DoSubmit(s)
    case OutcomeLost => DoOutcomeLost(s)
    case OutcomeAnswered => DoOutcomeAnswered(s)
    case ClearRefused(_) => DoClearRefused(s, a)
    case RecordRealized(_) => DoRecordRealized(s, a)
    case RaiseBarrier(_) => DoRaiseBarrier(s, a)
    case PaySeller => DoPaySeller(s)
    case SellerAnswered(_, _) => DoSellerAnswered(s, a)
    case Crash => DoCrash(s)
    case RelayerMoves(_, _) => DoRelayerMoves(s, a)
  }

  function RunAll(config: Config, s: State, actions: seq<Action>): State
    decreases |actions|
  {
    if actions == [] then s else RunAll(config, Step(config, s, actions[0]), actions[1..])
  }

  // ---- what the theorem says

  /** Since the last delivery: at most one distinct withdrawal submitted, the seller paid at most once. */
  predicate SpentOnce(f: Facts) {
    && f.payments <= 1
    && forall v, w | v in f.submitted && w in f.submitted :: v == w
  }

  ghost predicate Safe(s: State) {
    forall key :: SpentOnce(FactsOf(s, key))
  }

  /** Records left by an older version carry no recovery data. */
  predicate LegacyOnly(stored: Records) {
    forall key | key in stored :: stored[key].recovery.None?
  }

  /** Everything a payment to the seller rests on, at the moment it is made. */
  ghost predicate PaymentIsBacked(s: State) {
    s.phase.Paying? &&
    var run := s.phase.run;
    && run.key in s.durable
    && var record := s.durable[run.key];
    && record.status.ExternalOutcomeUnknown?
    && record.amountRawUsdc == run.selected.amountRawUsdc
    && record.recovery.Some? && record.recovery.value.prepared.Some?
    && var w := record.recovery.value.prepared.value;
    && w in s.relayer
    && s.relayer[w].status.RelayerConfirmed?
    && s.relayer[w].status.actualWithdrawRawUsdc >= run.selected.amountRawUsdc
    && FactsOf(s, run.key).payments == 0
  }

  // ---- the inductive invariant

  predicate ConfirmedFor(relayer: Relayer, w: WithdrawalId, actual: nat) {
    w in relayer && relayer[w].status == RelayerConfirmed(actual)
  }

  /** What a record, durable or in memory, proves about its request. */
  predicate Justified(r: Option<PendingRecord>, f: Facts, relayer: Relayer) {
    match r
    case None => f == NoFacts
    case Some(record) =>
      if record.recovery.None? then f == NoFacts
      else
        match record.recovery.value.prepared
        case None => f == NoFacts && record.status.Realizing?
        case Some(w) =>
          && f.submitted <= {w}
          && w in relayer
          && f.payments <= 1
          && (record.status.ExternalOutcomeUnknown? || f.payments == 0)
          && (!record.status.Realizing? ==> ConfirmedFor(relayer, w, record.realizedRawUsdc))
  }

  /** The run's own copy of its record is the one on disk. */
  predicate Current(s: State, run: Run) {
    && Lookup(s.pending, run.key) == Some(run.record)
    && run.record.recovery.Some?
    && run.record.amountRawUsdc == run.selected.amountRawUsdc
  }

  predicate Holds(s: State, run: Run, w: WithdrawalId) {
    && Current(s, run)
    && run.record.recovery.value.prepared == Some(w)
    && run.record.status.Realizing?
    && w in s.relayer
  }

  predicate PhaseInv(s: State) {
    match s.phase
    case Idle => true
    case Probing(key, _, _, _, resumed) =>
      (match resumed
       case None => FactsOf(s, key) == NoFacts
       case Some(record) => Lookup(s.pending, key) == Some(record) && record.recovery.Some?
                            && record.recovery.value.prepared.Some? && !record.status.ExternalOutcomeUnknown?)
    case Preparing(run) =>
      Current(s, run) && run.record.status.Realizing? && run.record.recovery.value.prepared.None? && !run.resuming
    case ReadyToSubmit(run, w) => Holds(s, run, w) && (run.resuming || FactsOf(s, run.key) == NoFacts)
    case RefusedSafely(run) => FactsOf(s, run.key) == NoFacts
    case AwaitingOutcome(run, w) => Holds(s, run, w)
    case Rereading(run, w) => Holds(s, run, w) && run.resuming
    case OutcomeKnown(run, actual) =>
      && Current(s, run) && !run.record.status.ExternalOutcomeUnknown? && run.record.recovery.value.prepared.Some?
      && ConfirmedFor(s.relayer, run.record.recovery.value.prepared.value, actual)
    case Funded(run) =>
      Current(s, run) && run.record.status.Realized? && run.record.recovery.value.prepared.Some?
    case Paying(run) =>
      && FactsOf(s, run.key).payments == 0
      && Lookup(s.pending, run.key) == Some(run.record.(status := ExternalOutcomeUnknown))
      && run.record.recovery.Some? && run.record.recovery.value.prepared.Some?
      && run.record.amountRawUsdc == run.selected.amountRawUsdc
      && run.record.realizedRawUsdc >= run.selected.amountRawUsdc
    case AwaitingDelivery(run) =>
      && Lookup(s.pending, run.key) == Some(run.record.(status := ExternalOutcomeUnknown))
      && run.record.recovery.Some? && run.record.recovery.value.prepared.Some?
  }

  ghost predicate Inv(s: State) {
    && (!s.phase.Idle? ==> s.pending == s.durable)
    && (forall key :: Justified(Lookup(s.durable, key), FactsOf(s, key), s.relayer))
    && PhaseInv(s)
  }

  const Guarded := Config(true, false)

  lemma InvImpliesSafe(s: State)
    requires Inv(s)
    ensures Safe(s)
  {
    forall key ensures SpentOnce(FactsOf(s, key)) {
      assert Justified(Lookup(s.durable, key), FactsOf(s, key), s.relayer);
    }
  }

  predicate Monotone(before: Relayer, after: Relayer) {
    forall w | w in before :: w in after && (before[w].status.RelayerConfirmed? ==> after[w].status == before[w].status)
  }

  /** An effect on one request cannot unsettle what the records of the others prove. */
  lemma OthersStayJustified(s: State, after: State, key: RequestKey)
    requires forall k :: Justified(Lookup(s.durable, k), FactsOf(s, k), s.relayer)
    requires forall k | k != key :: Lookup(after.durable, k) == Lookup(s.durable, k)
    requires forall k | k != key :: FactsOf(after, k) == FactsOf(s, k)
    requires Monotone(s.relayer, after.relayer)
    requires Justified(Lookup(after.durable, key), FactsOf(after, key), after.relayer)
    ensures forall k :: Justified(Lookup(after.durable, k), FactsOf(after, k), after.relayer)
  {
    forall k ensures Justified(Lookup(after.durable, k), FactsOf(after, k), after.relayer) {
      assert Justified(Lookup(s.durable, k), FactsOf(s, k), s.relayer);
    }
  }

  lemma StartKeepsInv(s: State, a: Action)
    requires Inv(s) && a.Start?
    ensures Inv(DoStart(Guarded, s, a))
  {
    assert Justified(Lookup(s.durable, a.key), FactsOf(s, a.key), s.relayer);
  }

  lemma FreshProbeKeepsInv(s: State, a: Action)
    requires Inv(s) && a.Probed? && s.phase.Probing? && s.phase.resumed.None?
    ensures Inv(DoProbed(s, a))
  {
    assert Justified(Lookup(s.durable, s.phase.key), FactsOf(s, s.phase.key), s.relayer);
    OthersStayJustified(s, DoProbed(s, a), s.phase.key);
  }

  lemma ResumedProbeKeepsInv(s: State, a: Action)
    requires Inv(s) && a.Probed? && s.phase.Probing? && s.phase.resumed.Some?
    ensures Inv(DoProbed(s, a))
  {
    assert Justified(Lookup(s.durable, s.phase.key), FactsOf(s, s.phase.key), s.relayer);
  }

  lemma ProbedKeepsInv(s: State, a: Action)
    requires Inv(s) && a.Probed?
    ensures Inv(DoProbed(s, a))
  {
    if s.phase.Probing? {
      if s.phase.resumed.None? {
        FreshProbeKeepsInv(s, a);
      } else {
        ResumedProbeKeepsInv(s, a);
      }
    }
  }

  lemma PrepareKeepsInv(s: State, a: Action)
    requires Inv(s)
    ensures Inv(DoPrepareRefused(s))
    ensures a.PrepareAnswered? ==> Inv(DoPrepareAnswered(s, a))
  {
    if s.phase.Preparing? {
      var key := s.phase.run.key;
      assert Justified(Lookup(s.durable, key), FactsOf(s, key), s.relayer);
      if a.PrepareAnswered? {
        OthersStayJustified(s, DoPrepareAnswered(s, a), key);
      }
    }
  }

  lemma SubmitKeepsInv(s: State)
    requires Inv(s)
    ensures Inv(DoSubmit(s))
  {
    if s.phase.ReadyToSubmit? {
      var key := s.phase.run.key;
      assert Justified(Lookup(s.durable, key), FactsOf(s, key), s.relayer);
      OthersStayJustified(s, DoSubmit(s), key);
    }
  }

  lemma OutcomeKeepsInv(s: State, a: Action)
    requires Inv(s)
    ensures a.RereadAnswered? ==> Inv(DoRereadAnswered(s, a))
    ensures Inv(DoPreviewRefused(s))
    ensures Inv(DoOutcomeLost(s))
    ensures Inv(DoOutcomeAnswered(s))
  {
  }

  lemma ClearRefusedKeepsInv(s: State, a: Action)
    requires Inv(s) && a.ClearRefused?
    ensures Inv(DoClearRefused(s, a))
  {
    if s.phase.RefusedSafely? {
      var key := s.phase.run.key;
      assert Justified(Lookup(s.durable, key), FactsOf(s, key), s.relayer);
      OthersStayJustified(s, DoClearRefused(s, a), key);
    }
  }

  lemma RecordRealizedKeepsInv(s: State, a: Action)
    requires Inv(s) && a.RecordRealized?
    ensures Inv(DoRecordRealized(s, a))
  {
    if s.phase.OutcomeKnown? {
      var key := s.phase.run.key;
      assert Justified(Lookup(s.durable, key), FactsOf(s, key), s.relayer);
      OthersStayJustified(s, DoRecordRealized(s, a), key);
    }
  }

  lemma RaiseBarrierKeepsInv(s: State, a: Action)
    requires Inv(s) && a.RaiseBarrier?
    ensures Inv(DoRaiseBarrier(s, a))
  {
    if s.phase.Funded? {
      var key := s.phase.run.key;
      assert Justified(Lookup(s.durable, key), FactsOf(s, key), s.relayer);
      OthersStayJustified(s, DoRaiseBarrier(s, a), key);
    }
  }

  lemma PaymentKeepsInv(s: State, a: Action)
    requires Inv(s)
    ensures Inv(DoPaySeller(s))
    ensures a.SellerAnswered? ==> Inv(DoSellerAnswered(s, a))
  {
    if s.phase.Paying? || s.phase.AwaitingDelivery? {
      var key := s.phase.run.key;
      assert Justified(Lookup(s.durable, key), FactsOf(s, key), s.relayer);
      OthersStayJustified(s, DoPaySeller(s), key);
      if a.SellerAnswered? {
        OthersStayJustified(s, DoSellerAnswered(s, a), key);
      }
    }
  }

  lemma EnvironmentKeepsInv(s: State, a: Action)
    requires Inv(s)
    ensures Inv(DoCrash(s))
    ensures a.RelayerMoves? ==> Inv(DoRelayerMoves(s, a))
  {
    if a.RelayerMoves? {
      assert forall k :: Justified(Lookup(s.durable, k), FactsOf(s, k), DoRelayerMoves(s, a).relayer) by {
        forall k ensures Justified(Lookup(s.durable, k), FactsOf(s, k), DoRelayerMoves(s, a).relayer) {
          assert Justified(Lookup(s.durable, k), FactsOf(s, k), s.relayer);
        }
      }
    }
  }

  lemma StepKeepsInv(s: State, a: Action)
    requires Inv(s)
    ensures Inv(Step(Guarded, s, a))
  {
    match a
    case Start(_, _, _, _, _, _) => StartKeepsInv(s, a);
    case Probed(_, _) => ProbedKeepsInv(s, a);
    case PrepareRefused => PrepareKeepsInv(s, a);
    case PrepareAnswered(_, _) => PrepareKeepsInv(s, a);
    case RereadAnswered(_) => OutcomeKeepsInv(s, a);
    case PreviewRefused => OutcomeKeepsInv(s, a);
    case Submit => SubmitKeepsInv(s);
    case OutcomeLost => OutcomeKeepsInv(s, a);
    case OutcomeAnswered => OutcomeKeepsInv(s, a);
    case ClearRefused(_) => ClearRefusedKeepsInv(s, a);
    case RecordRealized(_) => RecordRealizedKeepsInv(s, a);
    case RaiseBarrier(_) => RaiseBarrierKeepsInv(s, a);
    case PaySeller => PaymentKeepsInv(s, a);
    case SellerAnswered(_, _) => PaymentKeepsInv(s, a);
    case Crash => EnvironmentKeepsInv(s, a);
    case RelayerMoves(_, _) => EnvironmentKeepsInv(s, a);
  }

  lemma {:induction false} RunsKeepInv(s: State, actions: seq<Action>)
    requires Inv(s)
    ensures Inv(RunAll(Guarded, s, actions))
    decreases |actions|
  {
    if actions != [] {
      StepKeepsInv(s, actions[0]);
      RunsKeepInv(Step(Guarded, s, actions[0]), actions[1..]);
    }
  }

  /**
    With a locking store and no forced payments, every run from any legacy store is safe: crashes and half-failed
    saves anywhere never lead to a second withdrawal or a second payment for the same purchase.
   */
  lemma GuardedRunsAreSafe(stored: Records, actions: seq<Action>)
    requires LegacyOnly(stored)
    ensures Safe(RunAll(Guarded, Initial(stored), actions))
  {
    assert Inv(Initial(stored));
    RunsKeepInv(Initial(stored), actions);
    InvImpliesSafe(RunAll(Guarded, Initial(stored), actions));
  }

  /** A payment call is only ever made behind the durable barrier, from a confirmed withdrawal covering the price. */
  lemma PaymentsAreBacked(stored: Records, actions: seq<Action>, a: Action, key: RequestKey)
    requires LegacyOnly(stored)
    ensures
      var s := RunAll(Guarded, Initial(stored), actions);
      FactsOf(Step(Guarded, s, a), key).payments > FactsOf(s, key).payments ==>
        a.PaySeller? && PaymentIsBacked(s) && s.phase.run.key == key
  {
    var s := RunAll(Guarded, Initial(stored), actions);
    assert Inv(Initial(stored));
    RunsKeepInv(Initial(stored), actions);
    if FactsOf(Step(Guarded, s, a), key).payments > FactsOf(s, key).payments {
      assert Justified(Lookup(s.durable, key), FactsOf(s, key), s.relayer);
    }
  }

  // ---- why both halves of the guard are needed

  lemma {:induction false} RunAllSnoc(config: Config, s: State, actions: seq<Action>, a: Action)
    ensures RunAll(config, s, actions + [a]) == Step(config, RunAll(config, s, actions), a)
    decreases |actions|
  {
    if actions == [] {
      assert (actions + [a])[1..] == [];
    } else {
      assert (actions + [a])[1..] == actions[1..] + [a];
      RunAllSnoc(config, Step(config, s, actions[0]), actions[1..], a);
    }
  }

  lemma Extend(config: Config, start: State, actions: seq<Action>, s: State, a: Action)
    returns (longer: seq<Action>, next: State)
    requires RunAll(config, start, actions) == s
    ensures RunAll(config, start, longer) == next
    ensures next == Step(config, s, a)
  {
    longer, next := actions + [a], Step(config, s, a);
    RunAllSnoc(config, start, actions, a);
  }

  const SomeKey: RequestKey := "GET"
  const SomeOffer := Requirement(5, "seller", "sponsor")
  const SomeContext := FundingContext("wallet", "vault", "relayer")

  function PreparedRecord(w: WithdrawalId): PendingRecord {
    PendingRecord(5, "seller", "sponsor", 0, Realizing, Some(Recovery(SomeContext, "", SomeOffer, Some(w))))
  }

  /** From the probe with no record left, a fresh purchase reaches the point before its submit request. */
  lemma FreshPurchase(config: Config, start: State, actions: seq<Action>, s: State, w: WithdrawalId)
    returns (longer: seq<Action>, next: State)
    requires RunAll(config, start, actions) == s
    requires s.phase == Probing(SomeKey, SomeContext, "", 5, None)
    requires s.pending == map[] && w !in s.relayer
    ensures RunAll(config, start, longer) == next
    ensures next.phase == ReadyToSubmit(Run(SomeKey, false, PreparedRecord(w), SomeOffer, 5), w)
    ensures next.pending == next.durable == map[SomeKey := PreparedRecord(w)]
    ensures next.relayer == s.relayer[w := RelayerWithdrawal(5, RelayerPrepared)]
    ensures next.facts == s.facts
  {
    longer, next := Extend(config, start, actions, s, Probed(Some(SomeOffer), Saved));
    longer, next := Extend(config, start, longer, next, PrepareAnswered(w, Saved));
  }

  lemma SubmitOnceMore(config: Config, start: State, actions: seq<Action>, s: State)
    returns (longer: seq<Action>, next: State)
    requires RunAll(config, start, actions) == s
    requires s.phase.ReadyToSubmit? && s.phase.run.key == SomeKey
    ensures RunAll(config, start, longer) == next
    ensures next == s.(phase := AwaitingOutcome(s.phase.run, s.phase.withdrawal), facts := next.facts)
    ensures FactsOf(next, SomeKey).submitted == FactsOf(s, SomeKey).submitted + {s.phase.withdrawal}
  {
    longer, next := Extend(config, start, actions, s, Submit);
  }

  /**
    Without rereading the store: clearing a refused realization throws after it reached the disk, the same process
    still remembers the record and resumes it, and after a crash nothing stops a second withdrawal.
   */
  lemma UnlockedStoreCanWithdrawTwice(mayForce: bool)
    ensures exists actions :: !Safe(RunAll(Config(false, mayForce), Initial(map[]), actions))
  {
    var config, start := Config(false, mayForce), Initial(map[]);
    var begin := Start(SomeKey, SomeContext, "", 5, false, Saved);
    var actions, s := Extend(config, start, [], start, begin);
    actions, s := FreshPurchase(config, start, actions, s, 1);
    actions, s := Extend(config, start, actions, s, PreviewRefused);
    actions, s := Extend(config, start, actions, s, ClearRefused(ThrewAfterSaving));
    assert s.durable == map[] && s.phase.Idle? && s.pending == map[SomeKey := PreparedRecord(1)];
    actions, s := ResumeForgotten(config, start, actions, s);
    actions, s := Extend(config, start, actions, s, Crash);
    actions, s := Extend(config, start, actions, s, begin);
    actions, s := FreshPurchase(config, start, actions, s, 2);
    actions, s := SubmitOnceMore(config, start, actions, s);
    assert 1 in FactsOf(s, SomeKey).submitted && 2 in FactsOf(s, SomeKey).submitted;
    assert !SpentOnce(FactsOf(s, SomeKey));
  }

  /** Memory remembers a withdrawal the disk has forgotten: an unlocked run submits it with nothing durable. */
  lemma ResumeForgotten(config: Config, start: State, actions: seq<Action>, s: State)
    returns (longer: seq<Action>, next: State)
    requires !config.exclusiveStore
    requires RunAll(config, start, actions) == s
    requires s.phase.Idle? && s.durable == map[] && s.pending == map[SomeKey := PreparedRecord(1)]
    requires s.relayer == map[1 := RelayerWithdrawal(5, RelayerPrepared)]
    ensures RunAll(config, start, longer) == next
    ensures next.durable == map[] && next.relayer == s.relayer
    ensures 1 in FactsOf(next, SomeKey).submitted
  {
    longer, next := Extend(config, start, actions, s, Start(SomeKey, SomeContext, "", 5, false, Saved));
    longer, next := Extend(config, start, longer, next, Probed(Some(SomeOffer), Saved));
    longer, next := Extend(config, start, longer, next, RereadAnswered(true));
    longer, next := SubmitOnceMore(config, start, longer, next);
  }

  lemma ConfirmOnRelayer(config: Config, start: State, actions: seq<Action>, s: State)
    returns (longer: seq<Action>, next: State)
    requires RunAll(config, start, actions) == s
    requires s.relayer == map[1 := RelayerWithdrawal(5, RelayerPrepared)]
    requires 1 in FactsOf(s, SomeKey).submitted
    ensures RunAll(config, start, longer) == next
    ensures next == s.(relayer := map[1 := RelayerWithdrawal(5, RelayerConfirmed(5))])
  {
    longer, next := Extend(config, start, actions, s, RelayerMoves(1, RelayerSubmitted));
    assert SomeKey in s.facts;
    assert next == s.(relayer := map[1 := RelayerWithdrawal(5, RelayerSubmitted)]);
    longer, next := Extend(config, start, longer, next, RelayerMoves(1, RelayerConfirmed(5)));
  }

  /** One confirmed realization, from its answer to the raised barrier. */
  lemma BarrierEffects(config: Config, s: State, run: Run, records: seq<PendingRecord>)
    requires s.phase == AwaitingOutcome(run, 1)
    requires s.relayer == map[1 := RelayerWithdrawal(5, RelayerConfirmed(5))]
    requires run.selected == SomeOffer
    requires records == [run.record.(status := Realized, realizedRawUsdc := 5),
                         run.record.(status := ExternalOutcomeUnknown, realizedRawUsdc := 5)]
    ensures
      var s1 := s.(phase := OutcomeKnown(run, 5));
      var saved := s.pending[run.key := records[0]];
      var s2 := s.(pending := saved, durable := saved, phase := Funded(run.(record := records[0])));
      var barrier := saved[run.key := records[1]];
      var s3 := s2.(pending := barrier, durable := barrier, phase := Paying(run.(record := records[0])));
      && Step(config, s, OutcomeAnswered) == s1
      && Step(config, s1, RecordRealized(Saved)) == s2
      && Step(config, s2, RaiseBarrier(Saved)) == s3
  {
  }

  lemma RaiseBarrierAfterConfirmation(config: Config, start: State, actions: seq<Action>, s: State)
    returns (longer: seq<Action>, next: State)
    requires RunAll(config, start, actions) == s
    requires s.phase == AwaitingOutcome(Run(SomeKey, false, PreparedRecord(1), SomeOffer, 5), 1)
    requires s.relayer == map[1 := RelayerWithdrawal(5, RelayerConfirmed(5))]
    requires s.pending == map[SomeKey := PreparedRecord(1)]
    ensures RunAll(config, start, longer) == next
    ensures next.durable == map[SomeKey := PreparedRecord(1).(status := ExternalOutcomeUnknown, realizedRawUsdc := 5)]
    ensures next.relayer == s.relayer && next.facts == s.facts
  {
    var record := PreparedRecord(1).(realizedRawUsdc := 5);
    BarrierEffects(config, s, s.phase.run,
                   [record.(status := Realized), record.(status := ExternalOutcomeUnknown)]);
    longer := actions + [OutcomeAnswered] + [RecordRealized(Saved)] + [RaiseBarrier(Saved)];
    RunAllSnoc(config, start, actions, OutcomeAnswered);
    RunAllSnoc(config, start, actions + [OutcomeAnswered], RecordRealized(Saved));
    RunAllSnoc(config, start, actions + [OutcomeAnswered] + [RecordRealized(Saved)], RaiseBarrier(Saved));
    next := RunAll(config, start, longer);
  }

  /** A forced new payment abandons the unknown outcome of the previous one, by design. */
  lemma ForcedPaymentCanWithdrawTwice()
    ensures exists actions :: !Safe(RunAll(Config(true, true), Initial(map[]), actions))
  {
    var config, start := Config(true, true), Initial(map[]);
    var actions, s := Extend(config, start, [], start, Start(SomeKey, SomeContext, "", 5, false, Saved));
    actions, s := FreshPurchase(config, start, actions, s, 1);
    actions, s := SubmitOnceMore(config, start, actions, s);
    actions, s := ConfirmOnRelayer(config, start, actions, s);
    actions, s := RaiseBarrierAfterConfirmation(config, start, actions, s);
    actions, s := Extend(config, start, actions, s, Crash);
    actions, s := Extend(config, start, actions, s, Start(SomeKey, SomeContext, "", 5, true, Saved));
    assert s.pending == map[];
    actions, s := FreshPurchase(config, start, actions, s, 2);
    actions, s := SubmitOnceMore(config, start, actions, s);
    assert 1 in FactsOf(s, SomeKey).submitted && 2 in FactsOf(s, SomeKey).submitted;
    assert !SpentOnce(FactsOf(s, SomeKey));
  }

  /** Exactly the locking, unforced configuration is safe over all runs. */
  lemma SafeExactlyWhenGuarded(config: Config)
    ensures (forall stored, actions | LegacyOnly(stored) :: Safe(RunAll(config, Initial(stored), actions)))
            <==> config == Guarded
  {
    if config == Guarded {
      forall stored, actions | LegacyOnly(stored) ensures Safe(RunAll(config, Initial(stored), actions)) {
        GuardedRunsAreSafe(stored, actions);
      }
    } else if !config.exclusiveStore {
      UnlockedStoreCanWithdrawTwice(config.mayForce);
    } else {
      ForcedPaymentCanWithdrawTwice();
    }
    assert LegacyOnly(map[]);
  }
}
