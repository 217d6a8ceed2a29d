# Formal model of the Subly relayer's money ledger

This project models the relayer that lets agents pay x402 sellers out of the yield of a Kamino vault position, and
proves that the deposited principal, the spending mandate and each purchase stay intact over whole runs.

- **Ledger.** `Ledger.dfy` is the money ledger as a state machine: registration, position sync, payment preparation,
  expiry, submission and settlement, deposits and withdrawals. A write made before an error persists, as in the
  in-memory ledger. `LedgerInvariants`, `LedgerAccounting`, `PrincipalSafety`, `PositionReads`, `ChainWalletSync`,
  `RealizeSafety` and `PrincipalRuns` prove what every step and every run keeps; `PaymentOutcomes`,
  `PositionOutcomes` and `FlowOutcomes` say when each operation succeeds and what it writes, and `Refusals` that the
  reasons it gives hold. `LedgerServices` and `VaultFlowServices` are the services as classes whose methods update the
  stores step by step; each is proved to do exactly what the state machine's operation does.
- **Protocols.** `FlowProtocol.dfy` runs submitters, pollers and recovery against a chain that can land a transaction at
  any moment before its blockhash expires. `PendingPayments.dfy` and `CrashSafePayer.dfy` run the standard payer with
  crashes between any two effects. `ProtocolOutcomes` and `PayerOutcomes` say what each step answers and that
  undisturbed runs complete. `KeyedLock.dfy` is the promise-chain lock under arbitrary interleavings.
- **Mandates.** `SpendingMandates.dfy` is the mandate layer: rolling caps, single-use approvals, and the owner's life
  cycle. `SpendingWindows`, `SpendingApprovals` and `MandateOwnership` prove its promises, `MandateOutcomes` says
  exactly what each gate grants, and `SpendingMandateServices` is the service as a class. `DelegatedFlows` joins ledger
  and mandate layer into one relayer, which performs what it is asked (`DelegationOutcomes`).
- **Kernels.** Penalty inversion and quotes (`VaultAdapter`), the budget (`Budget`), modular powers and the Ed25519 curve
  test with Euler's criterion proved from the definition of a prime (`ModularArithmetic`, `AssociatedTokenAccount`), the
  canonical JSON printer with a parser that undoes it (`JsonText`, `StableJson`, `CanonicalText`), the instruction
  validators with a small token-account semantics (`TransactionIntentValidator`, `SettlementSemantics`), the transaction
  builder (`KaminoTransactionBuilder`), and what both mean instruction by instruction (`SignedTransactions`).

`dafny verify dfyconfig.toml` checks the whole project.

Where a property one would expect does not hold of the code, the model keeps the code and says exactly when it holds:

- The gross search is least only for a positive target or a vault without a flat fee (`LeastExactlyWhen`).
- The sync endpoint is safe against every input only once a baseline is established (`SyncIsSafeExactlyWhenEstablished`).
- Reservations equal the sum of what payments hold unless a withdrawal finds shares moved outside the ledger on a
  position whose due payments hold reservations: it writes back the position copy it read before expiring them, and they
  exceed the sum (`BooksStayExactUnlessWrittenBack`).
- A position's version names one position unless a withdrawal finds moved shares over a due payment: it saves the released
  copy and then the earlier one under one version (`VersionsIdentifyExactlyUnlessSavedTwice`), and a chain sync that read
  in between replaces a position it did not read (`SyncsReplaceTheirReadExactlyUnlessSavedTwice`).
- The payer is safe only with an exclusive store and without forced payments (`SafeExactlyWhenGuarded`).
- Chain agreement needs the second lookup, which vault flows make and the legacy settlement path does not
  (`AgreesWithChainExactlyWithSecondLookup`).
- A yield-realize keeps the principal exactly when its gross plus the overhead covers the worst burn, the ceiling of what
  the needed shares are worth (`PrincipalSafeExactlyWhenHeadroomCoversBurn`); a share worth at most the overhead is
  enough (`CheapSharesAreCovered`).

Read "refines" below as: the new store and the reply are exactly those of the state machine's operation of that name, so
every invariant proved of the state machine holds of the method.

## Model

| member | source | states |
|---|---|---|
| RawUnits.CeilDiv | src/lib/raw-units.ts:67-77 | the least integer whose product with the denominator covers the numerator |
| RawUnits.MulDivFloor | src/lib/raw-units.ts:79-93 | the largest integer whose product with the denominator stays within the product |
| RawUnits.MulDivCeil | src/lib/raw-units.ts:95-101 | the least integer that covers the product |
| VaultAdapter.WithdrawalPenaltyFor | src/kamino/vault-adapter.ts:532-542 | the penalty covers both the percentage and the flat fee, and is zero for a non-positive gross |
| VaultAdapter.InitialGrossNetsTheTarget | src/kamino/vault-adapter.ts:553-566 | the starting point of the search already nets exactly the target, so the correction loop never iterates |
| VaultAdapter.LeastExactlyWhen | src/kamino/vault-adapter.ts:544-566 | no smaller gross covers the target exactly when the target is positive or the vault charges no flat fee |
| VaultAdapter.GrossWithdrawForNetTarget | src/kamino/vault-adapter.ts:544-566 | the search, loop included: fails exactly for a penalty of 10,000 bps or more, nets the target exactly, and is least for positive targets |
| VaultAdapter.QuotesAreExact | src/kamino/vault-adapter.ts:268-306 | a quote exists exactly when the target exceeds the vault minimum and some covering gross fits the instant capacity; it then expects exactly the target, from the least gross, with a burn less than one share too large |
| VaultAdapter.QuoteSettlementWithdraw | src/kamino/vault-adapter.ts:268-306 | the quote method computes that quote and every refusal |
| Budget.SharesToRedeem | src/domain/budget.ts:69-78 | the burn covers the withdrawal and overshoots by less than one share |
| Budget.EvaluationGrantsExactlyTheSurplus | src/domain/budget.ts:80-189 | for every position, amount and fee: granted if and only if there is a rate, the value covers every commitment, the withdrawal and its fee, and the vault can pay what is outstanding and it; with the figures granted, and which check refuses |
| Budget.BurnLossBound | src/domain/budget.ts:36-45 | burning shares worth at most a gross plus an overshoot costs at most the gross plus the ceiling of the overshoot, floors included |
| Budget.ValueOfAddedShares | src/domain/budget.ts:36-45 | added shares raise the value by at most the ceiling of their own value |
| Ledger.FindPaymentBySellerRequest | src/domain/ledger.ts:189-205 | finds a live or settled payment of the request whenever there is one, and nothing exactly when the request is unknown |
| Ledger.ExpireDue | src/domain/position-maintenance.ts:27-64 | exactly the due prepared payments of the position become expired, in place |
| LedgerInvariants.StepMovesPayments | src/domain/payment-service.ts:986-1128 | every operation moves stored payments only along the status graph, and a new payment joins only when all earlier ones of its request failed for good under the same binding |
| LedgerInvariants.StepMovesFlows | src/domain/vault-flow-service.ts:841-923 | every operation moves stored flows only along the status graph, and a new flow joins only when its position has no pending one |
| LedgerInvariants.StepKeepsStores | src/domain/vault-flow-service.ts:397-421 | ids stay distinct, requests disciplined, at most one pending flow per position, and no live payment beside a pending withdrawal |
| LedgerInvariants.ReachableStoresAreConsistent | src/domain/vault-flow-service.ts:397-421 | the same in every reachable state |
| LedgerInvariants.AtMostOneLiveOrSettledPayment | src/domain/payment-service.ts:621-704 | in every reachable state the payments of a seller request share one binding hash and at most one, the latest, is live or settled |
| LedgerInvariants.RunsOnlyAdvanceRecords | src/domain/payment-service.ts:986-1128 | over every run a stored record keeps its terms and a final one never changes again |
| LedgerAccounting.StepMovesSlackExactly | src/domain/payment-service.ts:394-452 | reserved minus held moves only at a conservative reset (to zero) and at a stale write-back (by what expiry had just released), so no clamp to zero ever bites |
| LedgerAccounting.MovedSharesRefuse | src/domain/vault-flow-service.ts:397-464 | a withdrawal is refused for a baseline reset exactly when, before the call, its id is new, its signer is ready, the position is held by nothing but due payments, the mandate allows it and the chain shows other shares than the ledger |
| LedgerAccounting.BooksStayExactUnlessWrittenBack | src/domain/vault-flow-service.ts:397-464 | from exact books a step leaves inexact ones if and only if it is such a withdrawal and some due payment holds a reservation |
| LedgerAccounting.StaleCopyOverReserves | src/domain/vault-flow-service.ts:397-464 | a ledger reached by registering, syncing and preparing a payment that falls due, where that write-back happens |
| LedgerAccounting.ReachableReservationsAreBacked | src/domain/payment-service.ts:944-952 | in every reachable state a position reserves at least what its payments hold, and exactly that in runs where no such withdrawal meets a due reservation |
| LedgerAccounting.ReplayReproducesPrincipal | src/domain/payment-service.ts:453-476 | in every reachable state the logged principal deltas of a position sum to its principal basis |
| LedgerAccounting.RunsWitnessVersions | src/domain/payment-service.ts:295-312 | over every run a position seen again between operations, under the lock, with the same version is the same position |
| PositionReads.EveryReadPrecedes | src/domain/position-maintenance.ts:57-63 | a position read at any moment of an operation, between its saves included, is no newer than what the operation leaves, and of the same version only if it is that position or the copy a withdrawal writes back |
| PositionReads.ReadsWitnessVersions | src/domain/chain-wallet-sync.ts:37-54 | the same after anything has run since: a version still stored names the position read, up to the reservation and the block that such a write-back restores |
| PositionReads.VersionsIdentifyExactlyUnlessSavedTwice | src/domain/vault-flow-service.ts:397-464 | for every ledger and operation: versions read meanwhile always identify their position if and only if the operation is not a withdrawal that meets moved shares over a due payment, with a reservation released or the position not yet blocked |
| PositionReads.OneVersionIsSavedTwice | src/domain/vault-flow-service.ts:397-464 | a reachable ledger and a withdrawal that save two positions under one version |
| PrincipalSafety.SettlementCostsOneAllowance | src/domain/payment-service.ts:1929-1978 | a settlement costs at most its withdrawal plus one allowance of ceil(5 * rate / scale) and gives back its reservation |
| PrincipalSafety.GrantedPrepareCoversEverything | src/domain/payment-service.ts:806-951 | right after any granted prepare the value covers principal, buffer, reservations and fee debt outright, and the new payment has bounded terms |
| PrincipalSafety.StepKeepsPrincipalSafe | src/domain/payment-service.ts:1592-1667 | one payment step at the same rate keeps the cover, with one more allowance per settlement and none after a granted prepare |
| PrincipalSafety.PrincipalIsNeverSpent | src/domain/payment-service.ts:540-951 | over every run of payment steps at one rate, unless the position is blocked for a reset, its value falls short of its commitments by at most one allowance per settlement since the last granted prepare |
| ChainWalletSync.ChooseBaseline | src/domain/chain-wallet-sync.ts:55-96 | the branch that reset or floored basis is chosen by, with the floor that leaves no new surplus |
| ChainWalletSync.EstablishedSyncMintsNoYield | src/domain/payment-service.ts:364-452 | with an established baseline no sync input makes more spendable than the old shares and basis give at the new rate |
| ChainWalletSync.SyncIsSafeExactlyWhenEstablished | src/domain/payment-service.ts:364-452 | the sync endpoint is safe against every input if and only if the baseline is established; otherwise a zero-basis claim turns fresh shares into yield |
| ChainWalletSync.ChainInputMintsNoYield | src/domain/chain-wallet-sync.ts:55-96 | the inputs the chain sync builds create no spendable yield for any position |
| ChainWalletSync.ChainSyncNeverCreatesYield | src/domain/chain-wallet-sync.ts:37-117 | from a read without the lock at any moment, whatever ran before the write: an accepted chain sync replaces a position of the shares, basis, source and rate it read that reserves no less, the very one unless a withdrawal saved two under its version, and creates no spendable yield |
| ChainWalletSync.MisledCallIsAccepted | src/domain/chain-wallet-sync.ts:37-117 | wherever a withdrawal saves two positions under one version, a sync that read the released one is accepted over the other |
| ChainWalletSync.SyncsReplaceTheirReadExactlyUnlessSavedTwice | src/domain/chain-wallet-sync.ts:37-117 | for every ledger and operation: all accepted chain syncs replace the very position they read if and only if that does not happen |
| ChainWalletSync.LedgerSyncNeverCreatesYield | src/domain/payment-service.ts:279-478 | the whole sync operation creates no spendable yield once a baseline exists |
| RealizeSafety.ApprovalLeavesRoom | src/domain/vault-flow-service.ts:507-534 | an approved yield-realize leaves room for its gross and overhead above every commitment, and approves no more than all shares |
| RealizeSafety.BurnCostsAtMostWorstBurn | src/domain/vault-flow-service.ts:534-541 | burning at most the approved shares costs at most the ceiling of what the needed shares are worth |
| RealizeSafety.BurnCostsAtMostOneShareMore | src/domain/vault-flow-service.ts:534-541 | that worst burn lies between the gross and one ceiling share more |
| RealizeSafety.OpenFlowFreezesPrincipalOverRuns | src/domain/vault-flow-service.ts:1365-1373 | while a flow stays open, no run without a sync of its position moves the principal |
| RealizeSafety.RealizeNeverTouchesPrincipal | src/domain/vault-flow-service.ts:985-1050 | an approved yield-realize that lands at the same rate leaves the principal basis unchanged, whatever happened in between, if gross plus overhead covers the worst burn |
| RealizeSafety.CheapSharesAreCovered | src/domain/vault-flow-service.ts:507-541 | it does whenever one share is worth at most the overhead |
| RealizeSafety.UncoveredBurnDigsIntoPrincipal | src/domain/vault-flow-service.ts:507-534 | for every amount, rate, penalty and overhead where it does not, a realize approved in a reachable ledger lands below the principal |
| RealizeSafety.PrincipalSafeExactlyWhenHeadroomCoversBurn | src/domain/vault-flow-service.ts:507-541 | for every amount, rate, penalty and overhead: all approved realizes in all reachable ledgers keep the principal if and only if gross plus overhead covers the worst burn |
| PrincipalRuns.ApprovalGivesRoom | src/domain/vault-flow-service.ts:507-534 | an approval clears the rounding allowance and reserves room for the flow it opens |
| PrincipalRuns.OpenWithdrawalFreezesPosition | src/domain/vault-flow-service.ts:397-421 | while a withdrawal is open every other step leaves the whole position as it is |
| PrincipalRuns.StepKeepsSpendingSafe | src/domain/vault-flow-service.ts:985-1050 | one step of payments and realizes at one rate keeps the cover, and only a landed realize moves the principal, down by at most the excess of a share over the overhead |
| PrincipalRuns.PaymentsAndRealizesKeepPrincipal | src/domain/vault-flow-service.ts:507-541 | over every run of payments and realizes at one rate the principal falls by at most that excess per realize, not at all for ordinary share prices, and the value keeps covering every commitment up to one allowance per settlement, or one share and the fees beyond the overhead per realize, since the last grant |
| PaymentOutcomes.PaymentGrantedExactlyWhenDeserved | src/domain/payment-service.ts:621-951 | a payment is granted if and only if its request is free, the position may spend, the policy allows it, no flow owns the position, the shares on chain agree, and value and cash left by the outstanding withdrawals cover it |
| PaymentOutcomes.GrantedPaymentBooks | src/domain/payment-service.ts:886-951 | what a grant writes: the new record field by field, the reservation, the figures of the quote |
| PaymentOutcomes.RefusedPaymentBooks | src/domain/payment-service.ts:735-805 | what a refusal leaves: nothing, expiries, or the quoted figures or the mark of moved shares |
| PaymentOutcomes.KnownRequestsAreAnswered | src/domain/payment-service.ts:628-653 | a request with a live or settled payment is answered with that payment, and with another binding is refused |
| PaymentOutcomes.SubmissionNeedsMatchingPayload | src/domain/payment-service.ts:1045-1119 | a submission is recorded for exactly the payload of the request, in time, verified and signed; late it expires, otherwise nothing changes |
| PaymentOutcomes.SubmittedBeforeSend | src/domain/payment-service.ts:1216-1231 | the mark before sending and the record of an ambiguous submission move exactly the payments awaiting a receipt |
| PaymentOutcomes.ReceiptDecidesPayment | src/domain/payment-service.ts:1592-1667 | an accepted receipt leaves the payment settled, failed or not submitted if and only if the receipt says so; any other receipt leaves it submitted |
| PaymentOutcomes.ReceiptSettlesBooks | src/domain/payment-service.ts:1929-1978 | the position after a receipt, figure by figure, and the logged difference |
| PaymentOutcomes.ExpiryReleases | src/domain/payment-service.ts:1547-1573 | exactly a prepared payment past its expiry expires, and gives its reservation back |
| PaymentOutcomes.RequestsSettleAtMostOnce | src/domain/payment-service.ts:628-653 | over every run at most one settled receipt is ever accepted per seller request |
| PaymentOutcomes.SettledRequestsStayAnswered | src/domain/payment-service.ts:628-653 | after an accepted settled receipt, whatever runs meanwhile, every preparation of that request is answered with the settled payment, or refused when bound to something else |
| PositionOutcomes.FirstRegistration | src/domain/payment-service.ts:200-277 | a new position is empty, and active exactly when its signer is configured and signs non-interactively |
| PositionOutcomes.LaterRegistration | src/domain/payment-service.ts:200-277 | registering again touches the signer and the buffer only and never lifts the block for a reset |
| PositionOutcomes.SyncAcceptedExactlyWhen | src/domain/payment-service.ts:279-363 | a sync is accepted if and only if its figures are current and consistent and nothing is being settled on the position |
| PositionOutcomes.SyncBooks | src/domain/payment-service.ts:364-478 | what an accepted sync writes, figure by figure, what it logs, and what a reset expires |
| FlowOutcomes.DepositGrantedExactlyWhen | src/domain/vault-flow-service.ts:135-277 | a deposit is prepared if and only if the position is free and ready, the mandate allows it, the amount clears the minimum by ten and the shares agree |
| FlowOutcomes.DepositNoticesMovedShares | src/domain/vault-flow-service.ts:193-216 | shares moved outside the ledger are noticed exactly where nothing else stops the deposit |
| FlowOutcomes.ApprovedExactlyWhen | src/domain/vault-flow-service.ts:475-541 | a withdrawal passes if and only if its gross fits the cash and, for a realize, the value above every commitment |
| FlowOutcomes.WithdrawalGrantedExactlyWhen | src/domain/vault-flow-service.ts:380-618 | a withdrawal is prepared if and only if nothing live holds the position, the shares agree, the mandate allows it and it passes |
| FlowOutcomes.WithdrawalBooks | src/domain/vault-flow-service.ts:541-618 | the granted flow: its kind, its amount, the fewest shares that cover the gross or all of them; and what it expires |
| FlowOutcomes.FlowSubmission | src/domain/vault-flow-service.ts:620-683 | a flow is submitted if and only if it is prepared, in time, with consent and signature |
| FlowOutcomes.LandingBooks | src/domain/vault-flow-service.ts:863-1050 | a landed flow is confirmed with what it moved, and the position booked figure by figure, or failed and charged or flagged; a deposit raises the principal by exactly what it paid in |
| FlowOutcomes.StepMovesPrincipal | src/domain/vault-flow-service.ts:899-923 | between syncs a step moves the principal by exactly what it lands of deposits, unless it lands a withdrawal, which never raises it |
| FlowOutcomes.DepositsRaisePrincipalOverRuns | src/domain/vault-flow-service.ts:899-923 | over every run without a sync of the position its principal grows by at most what its deposits landed, and by exactly that while no withdrawal lands |
| FlowOutcomes.LandedDepositMintsNoYield | src/domain/vault-flow-service.ts:899-923 | a landed deposit whose new shares are worth at most what was paid in leaves no more spendable than the old shares and basis give at the new rate |
| PaymentOutcomes.BudgetReadExpiresWhatIsLate | src/domain/payment-service.ts:520-538 | reading a budget expires exactly the late prepared payments of the position, in one saved position |
| Refusals.PaymentRefusalsAreTrue | src/domain/payment-service.ts:621-951 | whatever reason a payment is refused for holds: of its request, its position, its policy, its quote, its budget or its transaction |
| Refusals.SyncRefusalsAreTrue | src/domain/payment-service.ts:279-363 | the reason of a refused sync holds |
| Refusals.DepositRefusalsAreTrue | src/domain/vault-flow-service.ts:135-277 | the reason of a refused deposit holds |
| Refusals.WithdrawalRefusalsAreTrue | src/domain/vault-flow-service.ts:380-618 | the reason of a refused withdrawal holds of the ledger before the call |
| LedgerServices.InMemoryLedger.SavePayment | src/domain/ledger.ts:207-211 | replaces the record of an id in place or appends it |
| LedgerServices.ExpireEach | src/domain/position-maintenance.ts:41-54 | the expiry loop saves each due payment as expired and accumulates exactly their reservations |
| LedgerServices.ExpirePreparedPaymentsForLockedPosition | src/domain/position-maintenance.ts:27-64 | refines the expiry operation |
| LedgerServices.SublyService.RegisterAgentWallet | src/domain/payment-service.ts:191-277 | refines registration |
| LedgerServices.SublyService.ExpireForReset | src/domain/payment-service.ts:394-407 | the reset loop expires exactly the prepared payments of the position |
| LedgerServices.SublyService.SyncWalletPosition | src/domain/payment-service.ts:279-478 | refines the sync operation, refusals included |
| LedgerServices.SublyService.PreparePayment | src/domain/payment-service.ts:621-951 | refines payment preparation: all checks in order, saves made before a refusal, reservation |
| LedgerServices.SublyService.ReserveOnQuote | src/domain/payment-service.ts:735-777 | refines the quote part: movement flagged, working position saved before the budget |
| LedgerServices.SublyService.Reserve | src/domain/payment-service.ts:786-951 | refines the budget part and the two final saves |
| LedgerServices.SublyService.ExpirePreparedPayment | src/domain/payment-service.ts:1547-1573 | refines single expiry |
| LedgerServices.SublyService.BeginSubmission | src/domain/payment-service.ts:1045-1119 | refines settling a prepared payment: payload checks, expiry in place of submission, the submission record |
| LedgerServices.SublyService.MarkSubmittedBeforeSend | src/domain/payment-service.ts:1216-1231 | refines the mark before broadcasting |
| LedgerServices.SublyService.RecordPendingSubmission | src/domain/payment-service.ts:1694-1731 | refines recording an ambiguous submission |
| LedgerServices.SublyService.FinalizeSubmittedPayment | src/domain/payment-service.ts:1592-1667 | refines finalization: rejected receipts flag the position and keep the payment open |
| VaultFlowServices.VaultFlowService.ExpireStaleFlows | src/domain/vault-flow-service.ts:1375-1390 | the sweep expires exactly the stale prepared flows of the position |
| VaultFlowServices.VaultFlowService.PendingVaultFlows | src/domain/vault-flow-service.ts:1420-1439 | the count is zero exactly when no flow owns the position |
| VaultFlowServices.VaultFlowService.SigningRefusal | src/domain/vault-flow-service.ts:1340-1360 | a position is ready exactly when it signs non-interactively with a configured signer, validated in production |
| VaultFlowServices.VaultFlowService.PrepareDeposit | src/domain/vault-flow-service.ts:135-277 | refines deposit preparation |
| VaultFlowServices.VaultFlowService.PrepareWithdrawal | src/domain/vault-flow-service.ts:380-618 | refines withdrawal preparation, stale position copy included |
| VaultFlowServices.VaultFlowService.ApproveWithdrawal | src/domain/vault-flow-service.ts:475-541 | refines the gross, capacity and yield guard of a withdrawal |
| VaultFlowServices.VaultFlowService.SubmitFlow | src/domain/vault-flow-service.ts:620-683 | refines submission of a prepared flow: expiry, the mandate recheck, the signed transaction |
| VaultFlowServices.VaultFlowService.AbandonFlow | src/domain/vault-flow-service.ts:848-858 | refines giving up on a submitted flow |
| VaultFlowServices.VaultFlowService.FinalizeFlow | src/domain/vault-flow-service.ts:985-1072 | refines classification of a landed flow |
| FlowProtocol.TerminalIsForever | src/domain/vault-flow-service.ts:841-861 | over every run a terminal flow keeps its status and its receipts |
| FlowProtocol.AgreesWithChainExactlyWithSecondLookup | src/domain/vault-flow-service.ts:1119-1164 | with any actors and landings before blockhash expiry, no flow is abandoned that lands and none is applied twice, if and only if the lookup is repeated after expiry was seen |
| FlowProtocol.LegacyAbandonsALanding | src/domain/kamino-settlement-submitter.ts:143-181 | without the second lookup a run exists in which a landed transaction is abandoned |
| ProtocolOutcomes.WritingDecides | src/domain/vault-flow-service.ts:841-861 | what a submitter or poller writes once it knows: a landed flow is applied, a failed one closed, a dead one released, under the lock and only while submitted |
| ProtocolOutcomes.LookupsAnswerTheTruth | src/domain/vault-flow-service.ts:1119-1178 | a lookup finds exactly what landed, and only a closed window without a landing leads to giving up |
| ProtocolOutcomes.LandedFlowsAreFinished | src/domain/vault-flow-service.ts:1119-1178 | whoever looks at a submitted flow whose transaction landed brings it to its end, its effect applied once |
| ProtocolOutcomes.DeadFlowsAreReleased | src/domain/vault-flow-service.ts:1119-1164 | whoever looks at one whose window closed without a landing releases it |
| ProtocolOutcomes.UndisturbedSubmissionConfirms | src/domain/vault-flow-service.ts:1074-1117 | a submission nothing disturbs is confirmed with exactly the landed effect |
| PendingPayments.StandardX402Payer.Track | src/client/standard-x402-payer.ts:537-550 | stores a checkpoint, rolling memory back when the save throws |
| PendingPayments.StandardX402Payer.Untrack | src/client/standard-x402-payer.ts:581-593 | drops a checkpoint, restoring it in memory when the save throws |
| PendingPayments.StandardX402Payer.TryMarkUnknown | src/client/standard-x402-payer.ts:552-579 | raises the barrier before payment, or leaves the record as it was |
| PendingPayments.StandardX402Payer.ClearDelivered | src/client/standard-x402-payer.ts:595-609 | forgets a delivered purchase whatever the save does |
| CrashSafePayer.GuardedRunsAreSafe | src/client/standard-x402-payer.ts:257-487 | over every run with crashes between any two effects and saves that may or may not take effect when they throw, at most one withdrawal is submitted and the seller is paid at most once between deliveries |
| CrashSafePayer.PaymentsAreBacked | src/client/standard-x402-payer.ts:400-487 | a payment is only ever made behind a durable outcome-unknown record and a confirmed withdrawal covering the price |
| CrashSafePayer.UnlockedStoreCanWithdrawTwice | src/client/standard-x402-payer.ts:229-256 | without an exclusive store a run submits two withdrawals for one purchase |
| CrashSafePayer.ForcedPaymentCanWithdrawTwice | src/client/standard-x402-payer.ts:257-330 | with forced payments a run submits two withdrawals for one purchase |
| CrashSafePayer.SafeExactlyWhenGuarded | src/client/standard-x402-payer.ts:229-487 | all runs are safe if and only if the store is exclusive and payments cannot be forced |
| PayerOutcomes.ProbeAnswers | src/client/standard-x402-payer.ts:303-344 | a challenge above the cap of the call is refused before anything is recorded; within it a fresh one is recorded and goes on when its save goes through, and a saved one is picked up where it stopped |
| PayerOutcomes.PrepareAnswersRun | src/client/standard-x402-payer.ts:359-397 | a refusal before anything was prepared is safe, and a prepared withdrawal of the price is written down first |
| PayerOutcomes.BarrierAnswers | src/client/standard-x402-payer.ts:399-414 | a covering realization raises the barrier before the seller is paid, an underfunded one ends the run |
| PayerOutcomes.PaymentAnswers | src/client/standard-x402-payer.ts:416-448 | a delivery ends the purchase and its record, anything else leaves the outcome unknown |
| PayerOutcomes.PaymentsStayWithinCap | src/client/standard-x402-payer.ts:320-327 | over every run the seller is only ever paid a challenge within the cap its call started with |
| PayerOutcomes.WithdrawalsStayWithinCap | src/client/standard-x402-payer.ts:320-327 | over every guarded run a submitted withdrawal asks for exactly the price of the purchase, within the cap of its call |
| PayerOutcomes.UndisturbedPurchaseCompletes | src/client/standard-x402-payer.ts:257-487 | from no record, an affordable challenge and no failure: one withdrawal, one payment, and with the delivery no record |
| PayerOutcomes.InterruptedPurchaseCompletes | src/client/standard-x402-payer.ts:257-487 | interrupted with its withdrawal on the way, the same call picks it up, submits no second one and pays once |
| KeyedLock.StepKeepsInv | src/domain/ledger.ts:140-159 | every arrival, resumption and completion keeps the chain of tails |
| KeyedLock.MutualExclusionInArrivalOrder | src/domain/ledger.ts:140-159 | in every interleaving two callbacks of a key never run together and callbacks start in arrival order |
| KeyedLock.EntriesLastExactlyWhileNeeded | src/domain/ledger.ts:140-159 | a key has an entry exactly while somebody holds or waits for it |
| KeyedLock.TheFirstInLineMayResume | src/domain/ledger.ts:140-159 | the first unfinished caller of a key is running or may resume at once |
| KeyedLock.LockTable.Enter | src/domain/ledger.ts:140-146 | the synchronous part chains the caller to the tail it found |
| KeyedLock.LockTable.Proceed | src/domain/ledger.ts:148 | the await goes through exactly when everyone who arrived earlier has finished |
| KeyedLock.LockTable.Leave | src/domain/ledger.ts:150-157 | the finally block removes the entry exactly when the caller is the last of its key |
| ModularArithmetic.EulerCriterion | src/lib/associated-token-account.ts:90 | a nonzero residue to the power (p - 1) / 2 is one exactly when it has a square root, else minus one |
| ModularArithmetic.FermatInverse | src/lib/associated-token-account.ts:86-89 | raising to p - 2 inverts |
| AssociatedTokenAccount.Mod | src/lib/associated-token-account.ts:102-105 | the truncated remainder corrected to the least non-negative residue |
| AssociatedTokenAccount.ModPow | src/lib/associated-token-account.ts:107-121 | square-and-multiply equals the power modulo the modulus for every positive exponent |
| AssociatedTokenAccount.LittleEndianToBigInt | src/lib/associated-token-account.ts:93-100 | the loop computes the little-endian value |
| AssociatedTokenAccount.SignDoesNotMoveY | src/lib/associated-token-account.ts:72-73 | clearing the sign bit keeps the value modulo 2^255 |
| AssociatedTokenAccount.OnlyYDecides | src/lib/associated-token-account.ts:67-91 | an encoding is accepted exactly when there are 32 bytes and their value modulo 2^255 is a y below p with a point |
| AssociatedTokenAccount.SignBitDoesNotMatter | src/lib/associated-token-account.ts:72-73 | two encodings that differ in the sign bit only get the same verdict |
| AssociatedTokenAccount.DenominatorNeverVanishes | src/lib/associated-token-account.ts:81-84 | for a non-square d and a prime that is 1 modulo 4 the zero-denominator branch is dead |
| AssociatedTokenAccount.HasMatchingX | src/lib/associated-token-account.ts:79-90 | accepts y exactly when some x lies on the curve with it |
| AssociatedTokenAccount.IsEd25519Point | src/lib/associated-token-account.ts:67-91 | accepts bytes exactly when there are 32, y is below p, and some x solves -x^2 + y^2 = 1 + d x^2 y^2 |
| JsonText.QuotedScans | src/lib/hash.ts:27-37 | scanning a quoted string gives the string back, lone surrogates and control characters included |
| JsonText.DecimalScans | src/lib/hash.ts:32-38 | scanning a printed integer gives the integer back |
| StableJson.PrintsNormalValue | src/lib/hash.ts:19-47 | the printer prints the normalized value: members sorted, undefined dropped, big integers as strings |
| StableJson.ParserInvertsPrinter | src/lib/hash.ts:19-47 | a parser recovers the normalized value from the canonical string |
| StableJson.PrintedAlikeExactlyWhenEquivalent | src/lib/hash.ts:19-47 | two values print alike if and only if they are equal up to member order, undefined members and big integers read as decimal strings |
| CanonicalText.PrintedMembersAscend | src/lib/hash.ts:40-46 | of any two members printed of an object, the key of the first is a proper prefix of the second, or has the smaller code unit where they first differ |
| CanonicalText.EntriesAreDefinedMembers | src/lib/hash.ts:40-46 | the entries printed of an object are exactly its defined members with their normalized values |
| CanonicalText.StringsArePrintedUnitByUnit | src/lib/hash.ts:28-34 | a string is printed in quotes, unit by unit with the standard escapes, surrogate pairs as they are |
| CanonicalText.IntegersAreWrittenInDecimal | src/lib/hash.ts:28-34 | an integer is written in decimal digits without a leading zero, and the digits add up to it |
| CanonicalText.ArraysAreBracketed | src/lib/hash.ts:36-38 | an array is its printed items between brackets, separated by commas, in order |
| CanonicalText.ObjectsAreBraced | src/lib/hash.ts:40-46 | an object is its members between braces, each a quoted key, a colon and the printed value |
| TransactionIntentValidator.ValidatePaymentInstructions | src/client/transaction-intent-validator.ts:344-391 | shifting expectations accept exactly the lists of the payment grammar |
| TransactionIntentValidator.ConsumeFarmInstructions | src/client/transaction-intent-validator.ts:760-783 | takes exactly an optional unstake and withdrawal pair |
| TransactionIntentValidator.ValidatePaymentIntentTransaction | src/client/transaction-intent-validator.ts:242-392 | the whole payment check accepts exactly when targets, binding, hash, fee payer, signers and instructions are right |
| TransactionIntentValidator.ValidateWithdrawalInstructions | src/client/transaction-intent-validator.ts:519-595 | the one-pass flags accept exactly the lists of the withdrawal grammar |
| TransactionIntentValidator.FormIsDetermined | src/client/transaction-intent-validator.ts:760-783 | whether the optional parts are present can be read off an accepted list |
| SettlementSemantics.AcceptedPaymentPaysExactly | src/client/transaction-intent-validator.ts:344-391 | executing an accepted list pays the seller exactly the amount, sends the remainder only to the dust account, leaves no temporary account, touches no other and burns at most the approved shares |
| SettlementSemantics.AcceptedTransactionPaysExactly | src/client/transaction-intent-validator.ts:242-392 | read from the whole check: the remainder goes to the wallet's own account, the amount to the payee's |
| KaminoTransactionBuilder.ProbeShares | src/domain/kamino-transaction-builder.ts:159-246 | the probe loop never exceeds the approved maximum and ends with an output that covers the amount, or says why not |
| KaminoTransactionBuilder.BuildInstructions | src/domain/kamino-transaction-builder.ts:269-301 | the pushed list is the canonical one, with a sweep exactly when something is left over |
| KaminoTransactionBuilder.BuiltListIsAccepted | src/domain/kamino-transaction-builder.ts:179-301 | every built list within the approved shares satisfies the payment grammar |
| KaminoTransactionBuilder.ProbedListIsAccepted | src/domain/kamino-transaction-builder.ts:159-301 | whatever the simulations say, the list built on the probed shares is accepted |
| SignedTransactions.AcceptedPaymentsAreTheseParts | src/client/transaction-intent-validator.ts:344-391 | a payment list is accepted if and only if it is, in order, budget pair, temporary account, optional farm pair, vault withdrawal, transfer, optional sweep, close and memo, each read field by field from its bytes |
| SignedTransactions.AcceptedTransactionMeans | src/client/transaction-intent-validator.ts:242-343 | a payment transaction is accepted if and only if it is in time, for this vault and asset, bound to its request, signed by exactly its three, and its list is |
| SignedTransactions.AcceptedWithdrawalsMean | src/client/transaction-intent-validator.ts:519-595 | a withdrawal list is accepted if and only if it has one vault withdrawal within the shares, no farm instruction or an unstake followed by its own withdrawal, and is otherwise free-standing |
| SignedTransactions.VaultWithdrawalReads | src/client/transaction-intent-validator.ts:871-935 | a vault withdrawal is by the wallet, to the expected account, of at most the approved shares unless it is a full exit |
| SignedTransactions.BuiltListExecutes | src/domain/kamino-transaction-builder.ts:179-301 | what the builder builds executes and burns exactly its shares, for whatever covering output the vault pays out |
| SignedTransactions.ProbeAgainstPlainVault | src/domain/kamino-transaction-builder.ts:159-246 | against a vault that pays the floor of the shares' worth, the probe settles at once or on the shares the deficit asks for, or says it cannot |
| MandateOutcomes.RealizeGrantedExactlyWhen | src/domain/spending-mandate-service.ts:944-1110 | the realize gate, whole: off it grants; else a revocation refuses; on, it grants if and only if caps, payees and payment binding hold and above the threshold a usable approval is given |
| MandateOutcomes.DepositGrantedExactlyWhen | src/domain/spending-mandate-service.ts:1121-1220 | the deposit gate: on, granted if and only if unrevoked, within the rolling cap, with a usable approval where the rules ask for one |
| MandateOutcomes.WithdrawalGrantedExactlyWhen | src/domain/spending-mandate-service.ts:1232-1307 | the withdrawal gate: on, granted if and only if unrevoked, with a usable approval where the mandate asks for one |
| MandateOutcomes.RealizeRefusalsAreTrue | src/domain/spending-mandate-service.ts:944-1110 | the reason a realize is refused for holds: the revocation, the binding, the payee, a cap, or a missing approval |
| MandateOutcomes.EscalationGrantsExactlyWhen | src/domain/spending-mandate-service.ts:1373-1451 | an escalation grants exactly on the caller's own approved, unexpired, unused approval of this operation and mandate |
| MandateOutcomes.RefusedEscalationAsksTheOwner | src/domain/spending-mandate-service.ts:1413-1451 | a call refused for want of approval leaves the owner a pending one, reused or new for fifteen minutes |
| MandateOutcomes.DecisionExactlyWhenSigned | src/domain/spending-mandate-service.ts:425-495 | a pending approval in time is decided exactly by a fresh signature of the owner in force over that decision |
| MandateOutcomes.RegistersExactlyWhen | src/domain/spending-mandate-service.ts:129-249 | which documents register, first or in replacement, and what registration stores |
| MandateOutcomes.RevocationAndRecovery | src/domain/spending-mandate-service.ts:276-420 | when revocation, recovery and its cancellation are accepted, and the state each leaves |
| MandateOutcomes.RecheckExactlyWhen | src/domain/spending-mandate-service.ts:914-937 | a prepared authorization still holds exactly when nothing is revoked, its mandate is in force and its approval usable |
| MandateOutcomes.IntentMovesExactlyWhen | src/domain/vault-flow-service.ts:620-683 | the life of an intent after its preparation, move by move |
| MandateOutcomes.EveryIntentIsWithinItsRules | src/domain/spending-mandate-service.ts:944-1307 | over every run with enforcement on, every intent keeps the rules of its stamped mandate: a realize above the threshold carries an approval, is within the cap of a payment and pays an allowed payee; a deposit or withdrawal carries one where the rules ask for it |
| SpendingWindows.CheckedSumIsAWindow | src/domain/spending-mandate-service.ts:1639-1671 | the sum a cap is checked against is what confirmed in the window ending now |
| SpendingWindows.StepKeepsOnePending | src/domain/vault-flow-service.ts:1365-1373 | at most one intent is ever pending |
| SpendingWindows.GrantedHadRoom | src/domain/spending-mandate-service.ts:1034-1063 | a granted preparation had room for its whole amount |
| SpendingWindows.ConfirmationKeepsCap | src/domain/spending-mandate-service.ts:1639-1656 | a confirmation spends that room in every window containing it |
| SpendingWindows.AnyWindowStaysUnderTheCap | src/domain/spending-mandate-service.ts:1034-1063 | with enforcement on, what confirms inside any closed 24-hour or 30-day window stays within the cap, for realizes and deposits |
| SpendingApprovals.GrantedApproval | src/domain/spending-mandate-service.ts:1373-1451 | only an approved approval with this binding and mandate is granted |
| SpendingApprovals.EachApprovalConfirmsOnce | src/domain/spending-mandate-service.ts:516-527 | over every run no two confirmed intents share an approval, and a confirmed one does what its approval was issued for |
| SpendingApprovals.SubmissionsStayAuthorized | src/domain/spending-mandate-service.ts:914-937 | an intent is submitted only while nothing is revoked, the stamped mandate is in force, and its approval is approved and unexpired |
| SpendingApprovals.ApprovedIntentsCarryTheOwnersConsent | src/domain/spending-mandate-service.ts:425-495 | whatever rides an approval was approved by a signature of the owner its mandate names |
| MandateOwnership.OwnerChangesOnlyByRight | src/domain/spending-mandate-service.ts:1673-1715 | in every history the owner key changes only unrevoked, and by co-signature, after expiry, or 72 hours after an unsuperseded recovery |
| MandateOwnership.MandatesNeverReplay | src/domain/spending-mandate-service.ts:165-175 | over every run the registered mandate is the same or strictly newer |
| MandateOwnership.RevocationHolds | src/domain/spending-mandate-service.ts:1688-1701 | a revocation holds over every run until the same owner registers again |
| DelegatedFlows.WithdrawalAsks | src/domain/vault-flow-service.ts:397-455 | before the mandate layer is asked a withdrawal leaves the flows alone; once asked, it sweeps the stale ones and opens exactly the flow asked for, only with consent and with no other flow pending |
| DelegatedFlows.StepKeepsLinked | src/domain/vault-flow-service.ts:427-455 | every step of ledger and mandate layer together keeps each delegated flow and its intent one record in one state |
| DelegatedFlows.BothHalvesRun | src/domain/vault-flow-service.ts:424-455 | a run of the whole relayer is a run of the ledger and a run of the mandate layer, so the theorems of both hold in it |
| DelegationOutcomes.DelegatedFlowsArePerformed | src/domain/vault-flow-service.ts:620-683 | a delegated flow is submitted on the mandate layer's verdict on its own intent, and read, abandoned or landed as the ledger does it |
| DelegationOutcomes.OthersArePerformed | src/domain/vault-flow-service.ts:424-455 | flows of other positions, payments, syncs and registrations go to the ledger unasked and leave the mandate layer alone |
| DelegatedFlows.LedgerFlowsStayUnderTheCap | src/domain/spending-mandate-service.ts:1034-1063 | in every run of the whole relayer with enforcement on, what the ledger confirms of realizes, or what landed of its deposits, in any window of the cap stays within the cap |
| DelegatedFlows.LedgerSubmissionsAreAuthorized | src/domain/spending-mandate-service.ts:914-937 | in every run of the whole relayer the ledger submits a flow only unrevoked, under the stamped mandate, with its approval approved and unexpired |
| DelegatedFlows.LedgerFlowsSpendApprovalsOnce | src/domain/spending-mandate-service.ts:516-527 | in every run of the whole relayer no two flows the ledger confirmed share an approval, and each was prepared for exactly the operation and amount its approval names and recorded a positive landed amount |
| SpendingMandateServices.SpendingMandateService.RegisterMandate | src/domain/spending-mandate-service.ts:129-249 | refines registration and replacement |
| SpendingMandateServices.SpendingMandateService.RevokeMandate | src/domain/spending-mandate-service.ts:276-318 | refines revocation |
| SpendingMandateServices.SpendingMandateService.ScheduleRecoveryRevoke | src/domain/spending-mandate-service.ts:325-366 | refines scheduling a recovery |
| SpendingMandateServices.SpendingMandateService.CancelRecoveryRevoke | src/domain/spending-mandate-service.ts:368-420 | refines cancelling a recovery |
| SpendingMandateServices.SpendingMandateService.ConfirmedSum | src/domain/spending-mandate-service.ts:1639-1671 | the accumulating loop computes the rolling sum |
| SpendingMandateServices.SpendingMandateService.PruneSpendingApprovals | src/domain/ledger.ts:316-331 | the loop removes exactly the old and the decided approvals |
| SpendingMandateServices.SpendingMandateService.ApprovalInFlight | src/domain/spending-mandate-service.ts:1498-1515 | true exactly when an open intent of that kind rides the approval |
| SpendingMandateServices.SpendingMandateService.RequireOperationApproval | src/domain/spending-mandate-service.ts:1373-1451 | refines the escalation: prune, honour, reuse, bound, issue |
| SpendingMandateServices.SpendingMandateService.DecideApproval | src/domain/spending-mandate-service.ts:425-495 | refines the owner's decision |
| SpendingMandateServices.SpendingMandateService.ConsumeApproval | src/domain/spending-mandate-service.ts:516-527 | refines consumption |
| SpendingMandateServices.SpendingMandateService.AuthorizeRealize | src/domain/spending-mandate-service.ts:944-1110 | refines the realize gate: order of refusals, caps, escalation |
| SpendingMandateServices.SpendingMandateService.AuthorizeDeposit | src/domain/spending-mandate-service.ts:1121-1220 | refines the deposit gate |
| SpendingMandateServices.SpendingMandateService.AssertPreparedAuthorization | src/domain/spending-mandate-service.ts:914-937 | decides exactly whether the prepared authorization still holds |

## Left out

- Postgres, the RPC engine, the Kamino SDK, fee conversion and Pyth prices appear only as inputs of an operation.
- Locking: each ledger operation is one atomic step, which the keyed lock (`KeyedLock`) justifies for whoever takes it.
  The chain sync reads its position without the lock; `PositionReads` lets that read fall between the saves of an
  operation. Other reads without the lock concern fixed terms or are repeated under it. One clock value is read per
  operation.
- Identifiers drawn at random are inputs; an operation given an identifier already in use refuses without a trace.
- Serialized transactions and settlement responses stored with a record are not part of it; the checks of a signed
  transaction and of a message hash enter an operation as their verdicts.
- CrashSafePayer.GuardedRunsAreSafe: one payer process runs at a time per request, and the run is a state machine over its
  effects; only the checkpoint methods of the payer class are given as methods.
- FlowProtocol.AgreesWithChainExactlyWithSecondLookup: lookups are linearizable and no transaction lands after its
  blockhash expired, which is what the service relies on.
- FlowProtocol.LegacyAbandonsALanding: of the legacy settlement path only the order of its lookup and expiry check is
  modelled, on the steps of a vault flow.
- PrincipalSafety.PrincipalIsNeverSpent: payment steps at one exchange rate; yield-realizes are added by `PrincipalRuns`,
  while syncs, deposits and normal withdrawals of the position, which are meant to move its principal, are covered by
  their own theorems.
- RealizeSafety.RealizeNeverTouchesPrincipal: the chain burns at most the approved shares and moves no other share of the
  wallet while the withdrawal is open.
- SpendingWindows.AnyWindowStaysUnderTheCap: a deposit confirms with at most the amount it was prepared for.
- AssociatedTokenAccount.IsEd25519Point: primality of p and d being a non-square are premises; p and d are parameters, and
  the sha256 and base58 around the test are not part of this model.
- StableJson.PrintedAlikeExactlyWhenEquivalent: numbers are integers that print in plain decimal; fractions and exponents
  are not modelled.
- StableJson.PrintsNormalValue: integers only, as above.
- StableJson.ParserInvertsPrinter: integers only, as above.
- SettlementSemantics.AcceptedPaymentPaysExactly: starts from decoded instructions, so base64 and lookup tables are not
  part of it; signatures and share balances are left to the chain, and the seller's and the wallet's accounts exist.
- KaminoTransactionBuilder.ProbedListIsAccepted: the farm instructions are taken as canonical, as below.
- KaminoTransactionBuilder.BuiltListIsAccepted: the farm instructions of the vault SDK are taken as canonical, and text
  encodings as inverted by their decoders.
- The deposit validator: the withdrawal validator without farm and close instructions.
- DelegatedFlows.LedgerFlowsSpendApprovalsOnce: how much lands of an approved amount is left to the chain.
- DelegatedFlows.LedgerFlowsStayUnderTheCap: one delegated position; the mandate layer's clock and the ledger's are one,
  and a deposit lands with at most the amount it was prepared for.
- Mandates are modelled for one wallet and vault; setup sessions, warnings and the spending log only read or wrap them.
  Signatures are membership in the set of signed messages, hashes are the values hashed, and a passkey is a key.
- HTTP routes, schemas, MCP tools, owner pages, the legacy paid-fetch client, liquidity-policy administration and metrics.
