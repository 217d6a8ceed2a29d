/**
  The promise-chain lock: every caller of a key waits for the tail of those before it and leaves its own tail behind.
  An asynchronous call is split at its awaits into arrival, resumption and completion, which may interleave freely.
 */
module KeyedLock {
  import opened Wrappers

  type Key = string

  datatype Phase = Waiting | Running | Finished

  /** `previous` is the tail the call found; its own tail resolves once that one has and the call has finished. */
  datatype Call = Call(key: Key, previous: Option<nat>, phase: Phase)

  datatype Locks = Locks(lockTails: map<Key, nat>, calls: seq<Call>)

  function Unlocked(): Locks {
    Locks(map[], [])
  }

  // ---- the chain of tails

  /** A call refers only to calls before it. */
  predicate PointsBack(calls: seq<Call>) {
    forall t | 0 <= t < |calls| && calls[t].previous.Some? :: calls[t].previous.value < t
  }

  predicate TailResolved(calls: seq<Call>, t: nat)
    requires t < |calls| && PointsBack(calls)
    decreases t
  {
    calls[t].phase.Finished? && (calls[t].previous.None? || TailResolved(calls, calls[t].previous.value))
  }

  predicate MayResume(s: Locks, t: nat)
    requires PointsBack(s.calls)
  {
    && t < |s.calls| && s.calls[t].phase.Waiting?
    && (s.calls[t].previous.None? || TailResolved(s.calls, s.calls[t].previous.value))
  }

  function Arrive(s: Locks, key: Key): Locks {
    var previous := if key in s.lockTails then Some(s.lockTails[key]) else None;
    Locks(s.lockTails[key := |s.calls|], s.calls + [Call(key, previous, Waiting)])
  }

  function Resume(s: Locks, t: nat): Locks
    requires PointsBack(s.calls)
  {
    if !MayResume(s, t) then s else s.(calls := s.calls[t := s.calls[t].(phase := Running)])
  }

  /** A callback that returns and one that throws release alike; the entry goes only with the last tail. */
  function Complete(s: Locks, t: nat): Locks {
    if t >= |s.calls| || !s.calls[t].phase.Running? then s
    else
      var key := s.calls[t].key;
      Locks(if key in s.lockTails && s.lockTails[key] == t then s.lockTails - {key} else s.lockTails,
            s.calls[t := s.calls[t].(phase := Finished)])
  }

  datatype Action = Arrival(key: Key) | Resumption(call: nat) | Completion(call: nat, throws: bool)

  function Step(s: Locks, a: Action): Locks
    requires PointsBack(s.calls)
  {
    match a
    case Arrival(key) => Arrive(s, key)
    case Resumption(t) => Resume(s, t)
    case Completion(t, _) => Complete(s, t)
  }

  /** Each step moves one call: it queues, runs once nobody is before it, and finishes once, throwing or not. */
  lemma StepsMoveOneCall(s: Locks, key: Key, t: nat, throws: bool)
    requires PointsBack(s.calls)
    ensures
      var u := Step(s, Arrival(key));
      && |u.calls| == |s.calls| + 1 && u.calls[..|s.calls|] == s.calls
      && u.calls[|s.calls|].key == key && u.calls[|s.calls|].phase == Waiting
    ensures Step(s, Resumption(t))
            == if MayResume(s, t) then s.(calls := s.calls[t := s.calls[t].(phase := Running)]) else s
    ensures
      var u := Step(s, Completion(t, throws));
      if t < |s.calls| && s.calls[t].phase == Running then u.calls == s.calls[t := s.calls[t].(phase := Finished)]
      else u == s
  {
  }

  // ---- what every interleaving keeps

  predicate EarlierFinished(calls: seq<Call>, key: Key, t: nat) {
    forall u | 0 <= u < t && u < |calls| && calls[u].key == key :: calls[u].phase.Finished?
  }

  /** A call is chained to the latest earlier call of its key, or every earlier one is already done. */
  predicate Chained(calls: seq<Call>, t: nat)
    requires t < |calls|
  {
    match calls[t].previous
    case None => EarlierFinished(calls, calls[t].key, t)
    case Some(p) =>
      && p < t && calls[p].key == calls[t].key
      && forall u | p < u < t :: calls[u].key != calls[t].key
  }

  predicate LastOfKey(calls: seq<Call>, key: Key, t: nat) {
    && t < |calls| && calls[t].key == key
    && forall u | t < u < |calls| :: calls[u].key != key
  }

  predicate LockInv(s: Locks) {
    && PointsBack(s.calls)
    && (forall t | 0 <= t < |s.calls| :: Chained(s.calls, t))
    && (forall t | 0 <= t < |s.calls| && !s.calls[t].phase.Waiting? :: EarlierFinished(s.calls, s.calls[t].key, t))
    && (forall key | key in s.lockTails ::
          LastOfKey(s.calls, key, s.lockTails[key]) && !s.calls[s.lockTails[key]].phase.Finished?)
    && (forall t | 0 <= t < |s.calls| && !s.calls[t].phase.Finished? :: s.calls[t].key in s.lockTails)
  }

  /** A resolved tail means everyone up to it is done. */
  lemma {:induction false} ResolvedTailsAreDone(s: Locks, t: nat)
    requires LockInv(s) && t < |s.calls| && TailResolved(s.calls, t)
    ensures EarlierFinished(s.calls, s.calls[t].key, t + 1)
    decreases t
  {
    assert Chained(s.calls, t);
    if s.calls[t].previous.Some? {
      ResolvedTailsAreDone(s, s.calls[t].previous.value);
    }
  }

  /** And when everyone up to it is done the tail has resolved: nobody waits for a lock that is free. */
  lemma {:induction false} DoneTailsResolve(s: Locks, t: nat)
    requires LockInv(s) && t < |s.calls| && EarlierFinished(s.calls, s.calls[t].key, t + 1)
    ensures TailResolved(s.calls, t)
    decreases t
  {
    assert Chained(s.calls, t);
    if s.calls[t].previous.Some? {
      DoneTailsResolve(s, s.calls[t].previous.value);
    }
  }

  lemma ArrivalKeepsChains(s: Locks, key: Key)
    requires LockInv(s)
    ensures
      var calls := Arrive(s, key).calls;
      PointsBack(calls) && forall u | 0 <= u < |calls| :: Chained(calls, u)
  {
    var calls, n := Arrive(s, key).calls, |s.calls|;
    forall u | 0 <= u < n ensures Chained(calls, u) {
      assert Chained(s.calls, u);
      if s.calls[u].previous.None? {
        assert EarlierFinished(s.calls, s.calls[u].key, u);
      }
    }
    if key in s.lockTails {
      assert LastOfKey(s.calls, key, s.lockTails[key]);
    } else {
      assert EarlierFinished(calls, key, n);
    }
    assert Chained(calls, n);
  }

  lemma ArrivalKeepsInv(s: Locks, key: Key)
    requires LockInv(s)
    ensures LockInv(Arrive(s, key))
  {
    var t := Arrive(s, key);
    ArrivalKeepsChains(s, key);
    forall u | 0 <= u < |t.calls| && !t.calls[u].phase.Waiting? ensures EarlierFinished(t.calls, t.calls[u].key, u) {
      assert EarlierFinished(s.calls, s.calls[u].key, u);
    }
    forall k | k in t.lockTails
      ensures LastOfKey(t.calls, k, t.lockTails[k]) && !t.calls[t.lockTails[k]].phase.Finished?
    {
      assert k != key ==> LastOfKey(s.calls, k, s.lockTails[k]);
    }
  }

  lemma PhaseChangeKeepsChains(s: Locks, t: nat, phase: Phase)
    requires LockInv(s) && t < |s.calls|
    requires !s.calls[t].phase.Finished? || phase.Finished?
    ensures
      var calls := s.calls[t := s.calls[t].(phase := phase)];
      PointsBack(calls) && forall u | 0 <= u < |calls| :: Chained(calls, u)
  {
    var calls := s.calls[t := s.calls[t].(phase := phase)];
    forall u | 0 <= u < |calls| ensures Chained(calls, u) {
      assert Chained(s.calls, u);
    }
  }

  lemma ResumptionKeepsInv(s: Locks, t: nat)
    requires LockInv(s)
    ensures LockInv(Resume(s, t))
  {
    if MayResume(s, t) {
      assert Chained(s.calls, t);
      if s.calls[t].previous.Some? {
        ResolvedTailsAreDone(s, s.calls[t].previous.value);
      }
      assert EarlierFinished(s.calls, s.calls[t].key, t);
      PhaseChangeKeepsChains(s, t, Running);
    }
  }

  lemma CompletionKeepsInv(s: Locks, t: nat)
    requires LockInv(s)
    ensures LockInv(Complete(s, t))
  {
    if t < |s.calls| && s.calls[t].phase.Running? {
      PhaseChangeKeepsChains(s, t, Finished);
      var after := Complete(s, t);
      forall u | 0 <= u < |after.calls| && !after.calls[u].phase.Finished?
        ensures after.calls[u].key in after.lockTails
      {
        if s.calls[u].key == s.calls[t].key && s.lockTails[s.calls[t].key] == t {
          assert false;
        }
      }
    }
  }

  lemma StepKeepsInv(s: Locks, a: Action)
    requires LockInv(s)
    ensures LockInv(Step(s, a))
  {
    match a
    case Arrival(key) => ArrivalKeepsInv(s, key);
    case Resumption(t) => ResumptionKeepsInv(s, t);
    case Completion(t, _) => CompletionKeepsInv(s, t);
  }

  /** The states some interleaving reaches. */
  function RunAll(s: Locks, actions: seq<Action>): (t: Locks)
    requires LockInv(s)
    ensures LockInv(t)
    decreases |actions|
  {
    if actions == [] then s
    else
      StepKeepsInv(s, actions[0]);
      RunAll(Step(s, actions[0]), actions[1..])
  }

  /**
    In every interleaving of arrivals, resumptions, completions and throwing callbacks: two callbacks of a key never
    run together, a callback that has started has seen everyone who arrived before it finish, and a key has an entry
    exactly while somebody holds or waits for it.
   */
  lemma MutualExclusionInArrivalOrder(actions: seq<Action>, t: nat, u: nat)
    requires
      var s := RunAll(Unlocked(), actions);
      t < u < |s.calls| && s.calls[t].key == s.calls[u].key
    ensures
      var s := RunAll(Unlocked(), actions);
      && !(s.calls[t].phase.Running? && s.calls[u].phase.Running?)
      && (!s.calls[u].phase.Waiting? ==> s.calls[t].phase.Finished?)
  {
    var s := RunAll(Unlocked(), actions);
    assert !s.calls[u].phase.Waiting? ==> EarlierFinished(s.calls, s.calls[u].key, u);
  }

  lemma EntriesLastExactlyWhileNeeded(actions: seq<Action>, key: Key)
    ensures
      var s := RunAll(Unlocked(), actions);
      key in s.lockTails
      <==> exists t | 0 <= t < |s.calls| :: s.calls[t].key == key && !s.calls[t].phase.Finished?
  {
    var s := RunAll(Unlocked(), actions);
    if key in s.lockTails {
      assert LastOfKey(s.calls, key, s.lockTails[key]);
    }
  }

  /** The first unfinished caller of a key is never stuck: it is running, or it may resume at once. */
  lemma TheFirstInLineMayResume(actions: seq<Action>, t: nat)
    requires
      var s := RunAll(Unlocked(), actions);
      t < |s.calls| && !s.calls[t].phase.Finished? && EarlierFinished(s.calls, s.calls[t].key, t)
    ensures
      var s := RunAll(Unlocked(), actions);
      s.calls[t].phase.Running? || MayResume(s, t)
  {
    var s := RunAll(Unlocked(), actions);
    assert Chained(s.calls, t);
    if s.calls[t].previous.Some? {
      DoneTailsResolve(s, s.calls[t].previous.value);
    }
  }

  /** The ledger's lock table; the calls stand for the promises its callers hold. */
  class LockTable {
    var lockTails: map<Key, nat>
    var calls: seq<Call>

    ghost function View(): Locks
      reads this
    {
      Locks(lockTails, calls)
    }

    constructor ()
      ensures View() == Unlocked()
    {
      lockTails, calls := map[], [];
    }

    /** The synchronous part of a call: remember the tail found, and leave the own one. */
    method Enter(key: Key) returns (call: nat)
      requires LockInv(View())
      modifies this
      ensures View() == Arrive(old(View()), key) && call == |old(calls)|
      ensures LockInv(View())
    {
      ArrivalKeepsInv(View(), key);
      var previous: Option<nat> := None;
      if key in lockTails {
        previous := Some(lockTails[key]);
      }
      call := |calls|;
      calls := calls + [Call(key, previous, Waiting)];
      lockTails := lockTails[key := call];
    }

    /** The await: goes through exactly when the tail found has resolved. */
    method Proceed(call: nat) returns (running: bool)
      requires LockInv(View()) && call < |calls| && calls[call].phase.Waiting?
      modifies this`calls
      ensures View() == Resume(old(View()), call) && LockInv(View())
      ensures running <==> EarlierFinished(old(calls), old(calls)[call].key, call)
    {
      ResumptionKeepsInv(View(), call);
      assert Chained(calls, call);
      running := calls[call].previous.None? || TailResolved(calls, calls[call].previous.value);
      if calls[call].previous.Some? {
        if running {
          ResolvedTailsAreDone(View(), calls[call].previous.value);
        } else if EarlierFinished(calls, calls[call].key, call) {
          DoneTailsResolve(View(), calls[call].previous.value);
        }
      }
      if running {
        calls := calls[call := calls[call].(phase := Running)];
      }
    }

    /** The finally block, on return and on throw. */
    method Leave(call: nat)
      requires LockInv(View()) && call < |calls| && calls[call].phase.Running?
      modifies this
      ensures View() == Complete(old(View()), call) && LockInv(View())
      ensures calls[call].key !in lockTails <==> LastOfKey(old(calls), old(calls)[call].key, call)
    {
      CompletionKeepsInv(View(), call);
      var key := calls[call].key;
      calls := calls[call := calls[call].(phase := Finished)];
      if key in lockTails && lockTails[key] == call {
        lockTails := lockTails - {key};
      }
    }
  }
}
