/** The relayer performs what it is asked: each action reaches the half it concerns, or both. */
module DelegationOutcomes {
  import opened Wrappers
  import opened Models
  import opened DelegatedFlows
  import L = Ledger
  import LI = LedgerInvariants
  import M = SpendingMandates

  lemma PlaceIsFound(r: Relayer, k: nat, j: nat)
    requires Linked(r) && LI.FlowIdsDistinct(r.ledger.flows)
    requires k < |r.ledger.flows| && j < |r.link| && r.link[j] == k
    ensures PlaceOf(r, r.ledger.flows[k].flowId) == Some(Place(k, j))
  {
    assert L.FlowIndex(r.ledger.flows, r.ledger.flows[k].flowId) == Some(k);
    assert LinkIndex(r.link, k) == Some(j);
  }

  /** An action on the stored flow of index `k`. */
  predicate ActsOnStored(s: L.LedgerState, flowId: nat, k: nat) {
    k < |s.flows| && s.flows[k].flowId == flowId
  }

  /** What the ledger is asked to do with a delegated flow: submission carries the verdict on the flow's own intent. */
  function AskedOf(r: Relayer, a: Action, j: nat): L.Action
    requires ActsOnPlace(a) && j < |r.mandates.intents|
  {
    match a
    case Submit(id, verified) =>
      L.Submit(id, L.SubmitInput(M.PreparedAuthorizationHolds(r.mandates, r.mandates.intents[j]), verified))
    case ReadStatus(id) => L.ReadStatus(id)
    case Abandon(id) => L.Abandon(id)
    case Land(id, landed) => L.FinalizeLanded(id, landed)
  }

  /** A delegated flow is submitted on the verdict of the mandate layer on its own intent, and moved as it is asked. */
  lemma DelegatedFlowsArePerformed(r: Relayer, a: Action, k: nat, j: nat)
    requires Linked(r) && LI.FlowIdsDistinct(r.ledger.flows)
    requires ActsOnPlace(a) && ActsOnStored(r.ledger, a.flowId, k) && j < |r.link| && r.link[j] == k
    ensures Step(r, a).ledger == L.Step(r.ledger, AskedOf(r, a, j))
  {
    PlaceIsFound(r, k, j);
  }

  /** Payments, syncs and registrations, and the flows of other positions. */
  predicate LedgersOwn(r: Relayer, money: L.Action, k: nat) {
    || money.Register? || money.Sync? || money.ReadBudget? || money.Prepare? || money.ExpirePayment?
    || money.Begin? || money.MarkSubmitted? || money.RecordPending? || money.Finalize?
    || (money.StartDeposit? && money.deposit.key != r.key)
    || (money.StartWithdrawal? && money.withdrawal.key != r.key)
    || ((money.Submit? || money.ReadStatus? || money.Abandon? || money.FinalizeLanded?)
        && ActsOnStored(r.ledger, money.flowId, k) && r.ledger.flows[k].key != r.key)
  }

  /** Flows of other positions, payments, syncs and registrations go to the ledger alone. */
  lemma OthersArePerformed(r: Relayer, money: L.Action, k: nat)
    requires LI.FlowIdsDistinct(r.ledger.flows)
    ensures Step(r, OnLedger(money)).mandates == r.mandates
    ensures LedgersOwn(r, money, k) ==> Step(r, OnLedger(money)).ledger == L.Step(r.ledger, money)
  {
    if LedgersOwn(r, money, k) {
      if money.Submit? || money.ReadStatus? || money.Abandon? || money.FinalizeLanded? {
        assert L.FlowIndex(r.ledger.flows, money.flowId) == Some(k);
      }
      assert LedgerAction(r, OnLedger(money)) == Some(money);
    }
  }

  /** What the owner does goes to the mandate layer alone; its other actions are the relayer's own. */
  lemma OwnersActionsArePerformed(r: Relayer, mandate: M.Action)
    ensures
      var owners := || mandate.OwnerSigns? || mandate.Register? || mandate.Revoke? || mandate.ScheduleRecovery?
                    || mandate.CancelRecovery? || mandate.Decide?;
      Step(r, OnMandate(mandate)) == r.(mandates := if owners then M.Step(r.mandates, mandate) else r.mandates)
  {
  }
}
