/**
  The payer's checkpoint log: volatile `pending` records in front of a durable store.  A save replaces the whole
  store atomically; when it throws, it may or may not have taken effect.
 */
module PendingPayments {
  import opened Wrappers

  /** method:url:bodyHash of a request. */
  type RequestKey = string

  type WithdrawalId = nat

  datatype Requirement = Requirement(amountRawUsdc: nat, payTo: string, feePayer: string)

  datatype FundingContext = FundingContext(wallet: string, vault: string, relayerBaseUrl: string)

  datatype RecordStatus = Realizing | Realized | ExternalOutcomeUnknown

  datatype Recovery = Recovery(
    context: FundingContext,
    requestHeadersHash: string,
    requirement: Requirement,
    prepared: Option<WithdrawalId>)

  /** A record without `recovery` was written by an older version; it can only be refused. */
  datatype PendingRecord = PendingRecord(
    amountRawUsdc: nat,
    payTo: string,
    feePayer: string,
    realizedRawUsdc: nat,
    status: RecordStatus,
    recovery: Option<Recovery>)

  type Records = map<RequestKey, PendingRecord>

  function Lookup(records: Records, key: RequestKey): Option<PendingRecord> {
    if key in records then Some(records[key]) else None
  }

  datatype SaveOutcome = Saved | ThrewAfterSaving | ThrewBeforeSaving

  /** Memory, store, and whether the caller saw an exception. */
  datatype Persisted = Persisted(pending: Records, durable: Records, threw: bool)

  function SaveWith(pending: Records, rolledBack: Records, durable: Records, outcome: SaveOutcome): Persisted {
    match outcome
    case Saved => Persisted(pending, pending, false)
    case ThrewAfterSaving => Persisted(rolledBack, pending, true)
    case ThrewBeforeSaving => Persisted(rolledBack, durable, true)
  }

  function Tracked(pending: Records, durable: Records, key: RequestKey, record: PendingRecord, outcome: SaveOutcome)
    : Persisted
  {
    SaveWith(pending[key := record], pending, durable, outcome)
  }

  function Untracked(pending: Records, durable: Records, key: RequestKey, outcome: SaveOutcome): Persisted {
    SaveWith(pending - {key}, pending, durable, outcome)
  }

  function MarkedUnknown(pending: Records, durable: Records, key: RequestKey, outcome: SaveOutcome): Persisted {
    if key !in pending then Persisted(pending, durable, false)
    else SaveWith(pending[key := pending[key].(status := ExternalOutcomeUnknown)], pending, durable, outcome)
  }

  /** The volatile half of the payer, writing through to the store. */
  class StandardX402Payer {
    var pending: Records
    var durable: Records
    var inFlight: set<RequestKey>

    constructor (stored: Records)
      ensures pending == durable == stored && inFlight == {}
    {
      pending, durable, inFlight := stored, stored, {};
    }

    /** False when a payment for the same request already runs; that payment's outcome is shared instead. */
    method Enter(key: RequestKey) returns (admitted: bool)
      modifies this`inFlight
      ensures admitted <==> key !in old(inFlight)
      ensures inFlight == old(inFlight) + {key}
    {
      admitted := key !in inFlight;
      if admitted {
        inFlight := inFlight + {key};
      }
    }

    method Leave(key: RequestKey)
      modifies this`inFlight
      ensures inFlight == old(inFlight) - {key}
    {
      inFlight := inFlight - {key};
    }

    method Persist(outcome: SaveOutcome) returns (threw: bool)
      modifies this`durable
      ensures threw <==> !outcome.Saved?
      ensures durable == if outcome.ThrewBeforeSaving? then old(durable) else pending
    {
      if !outcome.ThrewBeforeSaving? {
        durable := pending;
      }
      threw := !outcome.Saved?;
    }

    method Track(key: RequestKey, record: PendingRecord, outcome: SaveOutcome) returns (threw: bool)
      modifies this`pending, this`durable
      ensures Persisted(pending, durable, threw) == Tracked(old(pending), old(durable), key, record, outcome)
    {
      var previous := Lookup(pending, key);
      pending := pending[key := record];
      threw := Persist(outcome);
      if threw {
        if previous.None? {
          pending := pending - {key};
        } else {
          pending := pending[key := previous.value];
        }
        assert pending == old(pending);
      }
    }

    method Untrack(key: RequestKey, outcome: SaveOutcome) returns (threw: bool)
      modifies this`pending, this`durable
      ensures Persisted(pending, durable, threw) == Untracked(old(pending), old(durable), key, outcome)
    {
      var previous := Lookup(pending, key);
      pending := pending - {key};
      threw := Persist(outcome);
      if threw {
        if previous.Some? {
          pending := pending[key := previous.value];
        }
        assert pending == old(pending);
      }
    }

    method TryMarkUnknown(key: RequestKey, outcome: SaveOutcome) returns (threw: bool)
      modifies this`pending, this`durable
      ensures Persisted(pending, durable, threw) == MarkedUnknown(old(pending), old(durable), key, outcome)
    {
      if key !in pending {
        return false;
      }
      var current := pending[key];
      pending := pending[key := current.(status := ExternalOutcomeUnknown)];
      threw := Persist(outcome);
      if threw {
        pending := pending[key := current];
        assert pending == old(pending);
      }
    }

    /** Same writes as `Untrack`, but the exception is only logged: the payment was delivered. */
    method ClearDelivered(key: RequestKey, outcome: SaveOutcome)
      modifies this`pending, this`durable
      ensures exists threw :: Persisted(pending, durable, threw) == Untracked(old(pending), old(durable), key, outcome)
    {
      var threw := Untrack(key, outcome);
      assert Persisted(pending, durable, threw) == Untracked(old(pending), old(durable), key, outcome);
    }
  }
}
