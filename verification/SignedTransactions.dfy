/**
  The wire format a signer accepts, byte by byte: every instruction of an accepted list in its program's own encoding,
  the lists themselves, and that what the relayer builds not only passes but executes.
 */
module SignedTransactions {
  import opened Wrappers
  import opened Bytes
  import opened ModularArithmetic
  import opened TransactionIntentValidator
  import opened SettlementSemantics
  import opened KaminoTransactionBuilder
  import opened RawUnits

  // ---- single instructions

  predicate Runs(ix: Instruction, program: Address, opcode: seq<int>) {
    ix.programAddress == program && |ix.data| >= |opcode| && forall i | 0 <= i < |opcode| :: ix.data[i] == opcode[i]
  }

  predicate Slot(ix: Instruction, i: nat, account: Address) {
    i < |ix.accounts| && ix.accounts[i] == account
  }

  function Field(ix: Instruction, from: nat, to: nat): nat
    requires from <= to <= |ix.data|
  {
    LittleEndian(ix.data[from..to])
  }

  /** The compute unit limit is opcode 2 with 32 bits, its price opcode 3 with 64; both bounded, the limit positive. */
  lemma BudgetInstructionsRead(ix: Instruction, limits: Limits)
    ensures IsComputeBudget(ix, 2, limits)
            <==> && Runs(ix, "ComputeBudget111111111111111111111111111111", [2])
                 && |ix.data| >= 5 && 1 <= Field(ix, 1, 5) <= limits.maxComputeUnitLimit
    ensures IsComputeBudget(ix, 3, limits)
            <==> && Runs(ix, "ComputeBudget111111111111111111111111111111", [3])
                 && |ix.data| >= 9 && Field(ix, 1, 9) <= limits.maxComputeUnitPriceMicroLamports
    ensures ix.programAddress == COMPUTE_BUDGET_PROGRAM_ID ==>
              (ComputeBudgetOk(ix, limits) <==> IsComputeBudget(ix, 2, limits) || IsComputeBudget(ix, 3, limits))
  {
  }

  /** The temporary account: created by the sponsor for 165 bytes of the token program, within the rent allowed. */
  lemma AccountSetupReads(env: Environment, ix: Instruction, intent: PaymentIntent, limits: Limits)
    ensures IsCreateTemporaryAccount(env, ix, intent, limits)
            <==> && ix.programAddress == "11111111111111111111111111111111"
                 && |ix.data| >= 52 && Field(ix, 0, 4) == 0
                 && Field(ix, 4, 12) <= limits.maxTemporaryAccountLamports && Field(ix, 12, 20) == 165
                 && env.base58(ix.data[20..52]) == "TokenkegQfeZyiNwAJbNbGKPFXCWuBvf9Ss623VQ5DA"
                 && Slot(ix, 0, intent.feePayer) && Slot(ix, 1, intent.temporaryAccount)
    ensures IsInitializeTemporaryAccount(env, ix, intent)
            <==> && Runs(ix, "TokenkegQfeZyiNwAJbNbGKPFXCWuBvf9Ss623VQ5DA", [18])
                 && env.base58(ix.data[1..if |ix.data| < 33 then |ix.data| else 33]) == intent.wallet
                 && Slot(ix, 0, intent.temporaryAccount) && Slot(ix, 1, intent.asset)
  {
    if 1 <= |ix.data| < 33 {
      assert ix.data[1..] == ix.data[1..|ix.data|];
    }
  }

  /** The farm pair: a positive unstake by the wallet, and its withdrawal to the wallet's share account. */
  lemma FarmPairReads(env: Environment, unstake: Instruction, withdraw: Instruction, wallet: Address, farm: Address,
                      shareMint: Address)
    ensures IsFarmUnstake(unstake, wallet, farm)
            <==> && Runs(unstake, "FarmsPZpWu9i7Kky8tPN37rs2TpmMrAZrC7S7vJa91Hr", [90, 95, 107, 42, 205, 124, 50, 225])
                 && |unstake.data| == 24 && Field(unstake, 8, 24) != 0
                 && |unstake.accounts| == 4 && Slot(unstake, 0, wallet) && Slot(unstake, 2, farm)
    ensures |unstake.accounts| == 4 ==>
              (IsFarmWithdraw(env, withdraw, wallet, farm, shareMint, Some(unstake.accounts[1]))
               <==> && Runs(withdraw, "FarmsPZpWu9i7Kky8tPN37rs2TpmMrAZrC7S7vJa91Hr",
                            [36, 102, 187, 49, 220, 36, 132, 67])
                    && |withdraw.data| == 8 && |withdraw.accounts| == 7
                    && Slot(withdraw, 0, wallet) && Slot(withdraw, 1, unstake.accounts[1]) && Slot(withdraw, 2, farm)
                    && Slot(withdraw, 3, env.associatedTokenAddress(wallet, shareMint))
                    && Slot(withdraw, 6, "TokenkegQfeZyiNwAJbNbGKPFXCWuBvf9Ss623VQ5DA"))
  {
    OpcodeIsPrefix(unstake.data, KAMINO_FARMS_UNSTAKE_DISCRIMINATOR);
    OpcodeIsPrefix(withdraw.data, KAMINO_FARMS_WITHDRAW_UNSTAKED_DISCRIMINATOR);
  }

  lemma OpcodeIsPrefix(data: seq<Byte>, opcode: seq<Byte>)
    ensures StartsWith(data, opcode)
            <==> |data| >= |opcode| && forall i | 0 <= i < |opcode| :: data[i] == opcode[i]
  {
  }

  /** A vault withdrawal by the wallet into the expected account, of at most the approved shares unless a full exit. */
  lemma VaultWithdrawalReads(env: Environment, ix: Instruction, e: WithdrawExpectation)
    ensures KvaultWithdrawOk(env, ix, e)
            <==> && |ix.data| >= 16
                 && (|| (forall i | 0 <= i < 8 :: ix.data[i] == [183, 18, 70, 156, 148, 109, 161, 34][i])
                     || (forall i | 0 <= i < 8 :: ix.data[i] == [19, 131, 112, 155, 170, 220, 34, 57][i]))
                 && (var shares := Field(ix, 8, 16);
                     if shares == 0xffff_ffff_ffff_ffff then e.allowFullExit else shares <= e.maxSharesToRedeemRaw)
                 && Slot(ix, 0, e.wallet) && Slot(ix, 1, e.vault) && Slot(ix, 5, e.userTokenAccount)
                 && Slot(ix, 6, e.asset) && Slot(ix, 7, env.associatedTokenAddress(e.wallet, e.shareMint))
                 && Slot(ix, 8, e.shareMint)
  {
    OpcodeIsPrefix(ix.data, KVAULT_WITHDRAW_DISCRIMINATOR);
    OpcodeIsPrefix(ix.data, KVAULT_WITHDRAW_FROM_AVAILABLE_DISCRIMINATOR);
  }

  /** A checked transfer of six-decimal tokens, a close, and the memo. */
  lemma TokenInstructionsRead(env: Environment, ix: Instruction, a: Address, b: Address, c: Address, d: Address,
                              amount: Option<nat>, memo: string)
    ensures LooksLikeTransfer(ix) <==> Runs(ix, "TokenkegQfeZyiNwAJbNbGKPFXCWuBvf9Ss623VQ5DA", [12])
    ensures IsTransferChecked(ix, a, b, c, d, amount)
            <==> && Runs(ix, "TokenkegQfeZyiNwAJbNbGKPFXCWuBvf9Ss623VQ5DA", [12])
                 && |ix.data| >= 10 && ix.data[9] == 6
                 && (amount == None || amount == Some(Field(ix, 1, 9)))
                 && Slot(ix, 0, a) && Slot(ix, 1, b) && Slot(ix, 2, c) && Slot(ix, 3, d)
    ensures IsCloseAccount(ix, a, b, c)
            <==> && Runs(ix, "TokenkegQfeZyiNwAJbNbGKPFXCWuBvf9Ss623VQ5DA", [9])
                 && Slot(ix, 0, a) && Slot(ix, 1, b) && Slot(ix, 2, c)
    ensures IsMemo(env, ix, memo)
            <==> ix.programAddress == "MemoSq4gqABAXKb96qnH8TysNcWxMyWCqXgDLGmfcHr" && env.utf8(ix.data) == memo
  {
  }

  /** What a withdrawal may contain besides its vault and farm instructions. */
  lemma FreeStandingReads(ix: Instruction, intent: WithdrawalIntent, limits: Limits)
    ensures StandsAlone(ix, intent, limits)
            <==> || IsComputeBudget(ix, 2, limits) || IsComputeBudget(ix, 3, limits)
                 || ix.programAddress == "MemoSq4gqABAXKb96qnH8TysNcWxMyWCqXgDLGmfcHr"
                 || (ix.programAddress == "ATokenGPvbdGVxr1b2hvZbsiqW5xWH25efTNsLJA8knL" && Slot(ix, 2, intent.wallet))
                 || (Runs(ix, "TokenkegQfeZyiNwAJbNbGKPFXCWuBvf9Ss623VQ5DA", [9])
                     && Slot(ix, 1, intent.wallet) && Slot(ix, 2, intent.wallet))
  {
    BudgetInstructionsRead(ix, limits);
  }

  // ---- lists

  /** The parts of a payment, in their order. */
  datatype PaymentParts = PaymentParts(
    unitLimit: Instruction,
    unitPrice: Instruction,
    create: Instruction,
    initialize: Instruction,
    farm: Option<(Instruction, Instruction)>,
    withdraw: Instruction,
    pay: Instruction,
    sweep: Option<Instruction>,
    close: Instruction,
    memo: Instruction)

  function Listed(p: PaymentParts): seq<Instruction> {
    [p.unitLimit, p.unitPrice, p.create, p.initialize]
    + (match p.farm case None => [] case Some((unstake, withdraw)) => [unstake, withdraw])
    + [p.withdraw, p.pay]
    + (match p.sweep case None => [] case Some(sweep) => [sweep])
    + [p.close, p.memo]
  }

  /** Every part as its own instruction: paid from the temporary account, swept to the wallet, closed to the sponsor. */
  predicate PartsOk(env: Environment, p: PaymentParts, intent: PaymentIntent, limits: Limits) {
    var temporary, wallet, asset := intent.temporaryAccount, intent.wallet, intent.asset;
    && IsComputeBudget(p.unitLimit, 2, limits) && IsComputeBudget(p.unitPrice, 3, limits)
    && IsCreateTemporaryAccount(env, p.create, intent, limits)
    && IsInitializeTemporaryAccount(env, p.initialize, intent)
    && (match p.farm
        case None => true
        case Some((unstake, withdraw)) =>
          && IsFarmUnstake(unstake, wallet, intent.farm)
          && IsFarmWithdraw(env, withdraw, wallet, intent.farm, intent.shareMint, Some(unstake.accounts[1])))
    && p.withdraw.programAddress == "KvauGMspG5k6rtzrqqn7WNn3oZdyKqLKwK2XWQ8FLjd"
    && KvaultWithdrawOk(env, p.withdraw, WithdrawExpectation(wallet, intent.vault, intent.shareMint, asset, temporary,
                                                             intent.maxSharesToRedeemRaw, false))
    && IsTransferChecked(p.pay, temporary, asset, intent.sellerUsdcAta, wallet, Some(intent.amountRawUsdc))
    && (match p.sweep
        case None => true
        case Some(sweep) => IsTransferChecked(sweep, temporary, asset, intent.dustRecipientUsdcAta, wallet, None))
    && IsCloseAccount(p.close, temporary, intent.feePayer, wallet)
    && IsMemo(env, p.memo, intent.memo)
  }

  /** An accepted list is such parts in this order, and every such list is accepted. */
  lemma AcceptedPaymentsAreTheseParts(env: Environment, ixs: seq<Instruction>, intent: PaymentIntent, limits: Limits)
    ensures PaymentGrammar(env, ixs, intent, limits)
            <==> exists p: PaymentParts :: ixs == Listed(p) && PartsOk(env, p, intent, limits)
  {
    if PaymentGrammar(env, ixs, intent, limits) {
      var farm, dust :| PaymentForm(env, ixs, intent, limits, farm, dust);
      PartsAreListed(ixs, farm, dust);
      PartsOfAccepted(env, ixs, intent, limits, farm, dust);
    }
    forall p: PaymentParts | ixs == Listed(p) && PartsOk(env, p, intent, limits)
      ensures PaymentGrammar(env, ixs, intent, limits)
    {
      PartsAreAccepted(env, p, intent, limits);
    }
  }

  function PartsOf(ixs: seq<Instruction>, farm: bool, dust: bool): PaymentParts
    requires |ixs| == 8 + (if farm then 2 else 0) + (if dust then 1 else 0)
  {
    var f, d := if farm then 2 else 0, if dust then 1 else 0;
    PaymentParts(ixs[0], ixs[1], ixs[2], ixs[3], if farm then Some((ixs[4], ixs[5])) else None, ixs[4 + f], ixs[5 + f],
                 if dust then Some(ixs[6 + f]) else None, ixs[6 + f + d], ixs[7 + f + d])
  }

  lemma PartsAreListed(ixs: seq<Instruction>, farm: bool, dust: bool)
    requires |ixs| == 8 + (if farm then 2 else 0) + (if dust then 1 else 0)
    ensures ixs == Listed(PartsOf(ixs, farm, dust))
  {
  }

  lemma PartsOfAccepted(env: Environment, ixs: seq<Instruction>, intent: PaymentIntent, limits: Limits, farm: bool,
                        dust: bool)
    requires PaymentForm(env, ixs, intent, limits, farm, dust)
    ensures PartsOk(env, PartsOf(ixs, farm, dust), intent, limits)
  {
  }

  lemma PartsAreAccepted(env: Environment, p: PaymentParts, intent: PaymentIntent, limits: Limits)
    requires PartsOk(env, p, intent, limits)
    ensures PaymentGrammar(env, Listed(p), intent, limits)
  {
    assert PaymentForm(env, Listed(p), intent, limits, p.farm.Some?, p.sweep.Some?);
  }

  /** Around the list: in time, for this vault and asset, bound to its request, signed by exactly its three. */
  lemma AcceptedTransactionMeans(
    env: Environment, tx: DecodedTransaction, intent: PaymentIntent, vault: VaultConfig, limits: Limits, now: int)
    ensures PaymentTransactionOk(env, tx, intent, vault, limits, now)
            <==> && now < intent.expiresAt
                 && intent.scheme == "subly-yield-exact" && intent.network == "solana:5eykt4UsFv8P8NJdTREpY1vzqKqZKvdp"
                 && intent.vault == vault.address && intent.shareMint == vault.shareMint
                 && intent.farm == vault.farm && intent.asset == vault.usdcMint
                 && intent.memo == intent.paymentId
                 && intent.requestBindingHash == env.requestBinding(intent)
                 && intent.sellerUsdcAta == env.associatedTokenAddress(intent.payTo, vault.usdcMint)
                 && intent.dustRecipientUsdcAta == env.associatedTokenAddress(intent.wallet, vault.usdcMint)
                 && tx.messageHash == intent.preparedMessageHash && tx.feePayer == intent.feePayer
                 && (forall signer | signer in tx.requiredSigners ::
                       signer == intent.feePayer || signer == intent.wallet || signer == intent.temporaryAccount)
                 && |tx.requiredSigners| == |{intent.feePayer, intent.wallet, intent.temporaryAccount}|
                 && PaymentGrammar(env, tx.instructions, intent, limits)
  {
    assert ExpectedSigners(intent) == {intent.feePayer, intent.wallet, intent.temporaryAccount};
    if SignersOk(tx, intent) {
      forall signer | signer in tx.requiredSigners
        ensures signer == intent.feePayer || signer == intent.wallet || signer == intent.temporaryAccount
      {
        var i :| 0 <= i < |tx.requiredSigners| && tx.requiredSigners[i] == signer;
        assert tx.requiredSigners[i] in ExpectedSigners(intent);
      }
    }
    if (forall signer | signer in tx.requiredSigners ::
          signer == intent.feePayer || signer == intent.wallet || signer == intent.temporaryAccount) {
      forall i | 0 <= i < |tx.requiredSigners| ensures tx.requiredSigners[i] in ExpectedSigners(intent) {
        assert tx.requiredSigners[i] in tx.requiredSigners;
      }
    }
  }

  // ---- withdrawal lists

  lemma {:induction false} OfSelects(ixs: seq<Instruction>, program: Address)
    ensures Of(ixs, program) == [] <==> forall i | 0 <= i < |ixs| :: ixs[i].programAddress != program
    ensures |Of(ixs, program)| <= |ixs|
    decreases |ixs|
  {
    if ixs != [] {
      OfSelects(ixs[..|ixs| - 1], program);
    }
  }

  /** No other instruction of the program than those at these places. */
  predicate OnlyAt(ixs: seq<Instruction>, program: Address, places: set<nat>) {
    forall i | 0 <= i < |ixs| :: ixs[i].programAddress == program <==> i in places
  }

  lemma {:induction false} OnlyAtNone(ixs: seq<Instruction>, program: Address)
    requires OnlyAt(ixs, program, {})
    ensures Of(ixs, program) == []
  {
    OfSelects(ixs, program);
  }

  lemma {:induction false} OnlyAtOne(ixs: seq<Instruction>, program: Address, i: nat)
    requires i < |ixs| && OnlyAt(ixs, program, {i})
    ensures Of(ixs, program) == [ixs[i]]
    decreases |ixs|
  {
    var last, shorter := |ixs| - 1, ixs[..|ixs| - 1];
    if i == last {
      assert OnlyAt(shorter, program, {});
      OnlyAtNone(shorter, program);
    } else {
      assert ixs[last].programAddress == program <==> last in {i};
      assert OnlyAt(shorter, program, {i});
      OnlyAtOne(shorter, program, i);
    }
  }

  lemma {:induction false} OnlyAtTwo(ixs: seq<Instruction>, program: Address, i: nat, j: nat)
    requires i < j < |ixs| && OnlyAt(ixs, program, {i, j})
    ensures Of(ixs, program) == [ixs[i], ixs[j]]
    decreases |ixs|
  {
    var last, shorter := |ixs| - 1, ixs[..|ixs| - 1];
    if j == last {
      assert OnlyAt(shorter, program, {i});
      OnlyAtOne(shorter, program, i);
    } else {
      assert ixs[last].programAddress == program <==> last in {i, j};
      assert OnlyAt(shorter, program, {i, j});
      OnlyAtTwo(shorter, program, i, j);
    }
  }

  lemma {:induction false} OneStands(ixs: seq<Instruction>, program: Address) returns (i: nat)
    requires |Of(ixs, program)| == 1
    ensures i < |ixs| && OnlyAt(ixs, program, {i})
    decreases |ixs|
  {
    var last, shorter := |ixs| - 1, ixs[..|ixs| - 1];
    if ixs[last].programAddress == program {
      OfSelects(shorter, program);
      i := last;
    } else {
      i := OneStands(shorter, program);
      assert forall k | 0 <= k < last :: shorter[k].programAddress == program <==> k in {i};
    }
  }

  lemma {:induction false} TwoStand(ixs: seq<Instruction>, program: Address) returns (i: nat, j: nat)
    requires |Of(ixs, program)| == 2
    ensures i < j < |ixs| && OnlyAt(ixs, program, {i, j})
    decreases |ixs|
  {
    var last, shorter := |ixs| - 1, ixs[..|ixs| - 1];
    if ixs[last].programAddress == program {
      i := OneStands(shorter, program);
      j := last;
      assert forall k | 0 <= k < last :: shorter[k].programAddress == program <==> k in {i};
    } else {
      i, j := TwoStand(shorter, program);
      assert forall k | 0 <= k < last :: shorter[k].programAddress == program <==> k in {i, j};
    }
  }

  const VAULT: Address := "KvauGMspG5k6rtzrqqn7WNn3oZdyKqLKwK2XWQ8FLjd"
  const FARM: Address := "FarmsPZpWu9i7Kky8tPN37rs2TpmMrAZrC7S7vJa91Hr"

  predicate AllKnown(ixs: seq<Instruction>, intent: WithdrawalIntent, limits: Limits) {
    forall i | 0 <= i < |ixs| ::
      StandsAlone(ixs[i], intent, limits) || ixs[i].programAddress == VAULT || ixs[i].programAddress == FARM
  }

  predicate OneWithdrawal(env: Environment, ixs: seq<Instruction>, intent: WithdrawalIntent) {
    exists i | 0 <= i < |ixs| :: OnlyAt(ixs, VAULT, {i}) && WithdrawsWithin(env, ixs[i], intent)
  }

  predicate OneUnstake(env: Environment, ixs: seq<Instruction>, intent: WithdrawalIntent) {
    exists i, j | 0 <= i < j < |ixs| :: OnlyAt(ixs, FARM, {i, j}) && UnstakesFor(env, ixs[i], ixs[j], intent)
  }

  /**
    An accepted withdrawal: one vault withdrawal to the intent's account within its shares; no farm instruction, or an
    unstake and later the withdrawal it belongs to; and everything else free-standing.
   */
  lemma AcceptedWithdrawalsMean(env: Environment, ixs: seq<Instruction>, intent: WithdrawalIntent, limits: Limits)
    ensures WithdrawalGrammar(env, ixs, intent, limits)
            <==> && AllKnown(ixs, intent, limits) && OneWithdrawal(env, ixs, intent)
                 && (OnlyAt(ixs, FARM, {}) || OneUnstake(env, ixs, intent))
  {
    if WithdrawalGrammar(env, ixs, intent, limits) {
      AcceptedWithdrawalStands(env, ixs, intent, limits);
    }
    if AllKnown(ixs, intent, limits) && OneWithdrawal(env, ixs, intent)
       && (OnlyAt(ixs, FARM, {}) || OneUnstake(env, ixs, intent)) {
      StandingWithdrawalIsAccepted(env, ixs, intent, limits);
    }
  }

  lemma AcceptedWithdrawalStands(env: Environment, ixs: seq<Instruction>, intent: WithdrawalIntent, limits: Limits)
    requires WithdrawalGrammar(env, ixs, intent, limits)
    ensures AllKnown(ixs, intent, limits) && OneWithdrawal(env, ixs, intent)
    ensures OnlyAt(ixs, FARM, {}) || OneUnstake(env, ixs, intent)
  {
    forall i | 0 <= i < |ixs|
      ensures StandsAlone(ixs[i], intent, limits) || ixs[i].programAddress == VAULT || ixs[i].programAddress == FARM
    {
      assert Placed(ixs[i], intent, limits);
    }
    var v := OneStands(ixs, VAULT);
    OnlyAtOne(ixs, VAULT, v);
    OfSelects(ixs, FARM);
    if Of(ixs, FARM) != [] {
      var i, j := TwoStand(ixs, FARM);
      OnlyAtTwo(ixs, FARM, i, j);
    }
  }

  lemma StandingWithdrawalIsAccepted(env: Environment, ixs: seq<Instruction>, intent: WithdrawalIntent, limits: Limits)
    requires AllKnown(ixs, intent, limits) && OneWithdrawal(env, ixs, intent)
    requires OnlyAt(ixs, FARM, {}) || OneUnstake(env, ixs, intent)
    ensures WithdrawalGrammar(env, ixs, intent, limits)
  {
    forall i | 0 <= i < |ixs| ensures Placed(ixs[i], intent, limits) {
    }
    var v :| 0 <= v < |ixs| && OnlyAt(ixs, VAULT, {v}) && WithdrawsWithin(env, ixs[v], intent);
    OnlyAtOne(ixs, VAULT, v);
    if OnlyAt(ixs, FARM, {}) {
      OnlyAtNone(ixs, FARM);
    } else {
      var i, j :| 0 <= i < j < |ixs| && OnlyAt(ixs, FARM, {i, j}) && UnstakesFor(env, ixs[i], ixs[j], intent);
      OnlyAtTwo(ixs, FARM, i, j);
    }
  }

  predicate WithdrawsWithin(env: Environment, ix: Instruction, intent: WithdrawalIntent) {
    KvaultWithdrawOk(env, ix, WithdrawExpectation(intent.wallet, intent.vault, intent.shareMint, intent.asset,
                                                  intent.destinationUsdcAta, intent.maxSharesToRedeemRaw,
                                                  intent.allowFullExit))
  }

  predicate UnstakesFor(env: Environment, unstake: Instruction, withdraw: Instruction, intent: WithdrawalIntent) {
    && IsFarmUnstake(unstake, intent.wallet, intent.farm)
    && IsFarmWithdraw(env, withdraw, intent.wallet, intent.farm, intent.shareMint, Some(unstake.accounts[1]))
  }

  // ---- what is built executes

  /** The accounts of a settlement as the chain holds them: the recipients exist, the temporary account does not. */
  predicate ReadyToSettle(s: Chain, intent: PaymentIntent) {
    && intent.sellerUsdcAta in s.tokens && intent.dustRecipientUsdcAta in s.tokens
    && intent.temporaryAccount !in s.tokens && intent.temporaryAccount !in s.created
  }

  lemma SetupExecutes(env: Environment, encoders: Encoders, input: BuildInput, limits: Limits, s: Chain, output: nat,
                      rest: seq<Instruction>)
    requires Buildable(env, encoders, input, limits) && ReadyToSettle(s, input.intent)
    ensures ExecuteAll(Setup(encoders, input) + rest, s, output)
            == ExecuteAll(rest, Opened(s, input.intent.temporaryAccount), output)
  {
    ProgramsDiffer();
    SetupAccepted(env, encoders, input, limits);
    var setup, temporary := Setup(encoders, input), input.intent.temporaryAccount;
    var all := setup + rest;
    assert all[0] == setup[0] && all[1] == setup[1] && all[2] == setup[2] && all[3] == setup[3];
    var s1 := s.(created := s.created + {temporary});
    Unfold(all, s, output);
    Unfold(all[1..], s, output);
    Unfold(all[2..], s, output);
    assert Execute(all[2], s, output) == Some(s1);
    Unfold(all[3..], s1, output);
    assert s1.created - {temporary} == s.created;
    assert all[3..][1..] == rest;
  }

  lemma FarmExecutes(farm: seq<Instruction>, rest: seq<Instruction>, s: Chain, output: nat)
    requires forall i | 0 <= i < |farm| :: farm[i].programAddress == KAMINO_FARMS_PROGRAM_ID
    requires |farm| <= 2
    ensures ExecuteAll(farm + rest, s, output) == ExecuteAll(rest, s, output)
  {
    ProgramsDiffer();
    var all := farm + rest;
    assert farm == [] ==> all == rest;
    if |farm| >= 1 {
      Unfold(all, s, output);
      assert |farm| == 1 ==> all[1..] == rest;
    }
    if |farm| == 2 {
      Unfold(all[1..], s, output);
      assert all[1..][1..] == rest;
    }
  }

  lemma TwoExecute(a: Instruction, b: Instruction, rest: seq<Instruction>, s0: Chain, s1: Chain, s2: Chain, output: nat)
    requires Execute(a, s0, output) == Some(s1) && Execute(b, s1, output) == Some(s2)
    ensures ExecuteAll([a, b] + rest, s0, output) == ExecuteAll(rest, s2, output)
  {
    var all := [a, b] + rest;
    Unfold(all, s0, output);
    Unfold(all[1..], s1, output);
    assert all[1..][1..] == rest;
  }

  /** The temporary account once the vault has paid into it. */
  function VaultPaid(s: Chain, temporary: Address, shares: nat, output: nat): Chain {
    Chain(s.tokens[temporary := output], s.created, s.burned + shares)
  }

  lemma WithdrawalExecutes(env: Environment, input: BuildInput, shares: nat, output: nat, s: Chain)
    requires |input.vaultAccounts| == 3 && shares < U64_MAX
    ensures Execute(KvaultWithdraw(env, input, shares), Opened(s, input.intent.temporaryAccount), output)
            == Some(VaultPaid(s, input.intent.temporaryAccount, shares, output))
  {
    ProgramsDiffer();
    SharesRead(env, input, shares);
    var temporary := input.intent.temporaryAccount;
    assert s.tokens[temporary := 0][temporary := output] == s.tokens[temporary := output];
  }

  /** The vault pays into the temporary account, and the seller is paid from it. */
  lemma PaymentExecutes(env: Environment, input: BuildInput, shares: nat, output: nat, s: Chain,
                        rest: seq<Instruction>)
    returns (paid: Chain)
    requires |input.vaultAccounts| == 3 && shares < U64_MAX
    requires input.intent.amountRawUsdc <= output < U64_BOUND && ReadyToSettle(s, input.intent)
    ensures paid.tokens.Keys == s.tokens.Keys + {input.intent.temporaryAccount}
    ensures paid.tokens[input.intent.temporaryAccount] == output - input.intent.amountRawUsdc
    ensures paid.burned == s.burned + shares
    ensures ExecuteAll(Paying(env, input, shares) + rest, Opened(s, input.intent.temporaryAccount), output)
            == ExecuteAll(rest, paid, output)
  {
    var intent := input.intent;
    var s1 := VaultPaid(s, intent.temporaryAccount, shares, output);
    var transfer := TransferChecked(intent.temporaryAccount, intent.asset, intent.sellerUsdcAta, intent.wallet,
                                    intent.amountRawUsdc);
    WithdrawalExecutes(env, input, shares, output, s);
    TransferExecutes(intent.temporaryAccount, intent.asset, intent.sellerUsdcAta, intent.wallet, intent.amountRawUsdc,
                     s1, output);
    paid := Execute(transfer, s1, output).value;
    TwoExecute(KvaultWithdraw(env, input, shares), transfer, rest, Opened(s, intent.temporaryAccount), s1, paid,
               output);
  }

  lemma TransferExecutes(source: Address, mint: Address, destination: Address, authority: Address, amount: nat,
                         s: Chain, output: nat)
    requires amount < U64_BOUND && source != destination && source in s.tokens && destination in s.tokens
    requires s.tokens[source] >= amount
    ensures Execute(TransferChecked(source, mint, destination, authority, amount), s, output)
            == Some(s.(tokens := s.tokens[source := s.tokens[source] - amount]
                                         [destination := s.tokens[destination] + amount]))
  {
    ProgramsDiffer();
    AmountReads(amount);
  }

  /** A sweep and the closing after it leave nothing of the temporary account. */
  lemma SweepAndClose(intent: PaymentIntent, s: Chain, closing: seq<Instruction>, output: nat)
    requires intent.temporaryAccount in s.tokens && intent.dustRecipientUsdcAta in s.tokens
    requires intent.temporaryAccount != intent.dustRecipientUsdcAta
    requires s.tokens[intent.temporaryAccount] < U64_BOUND
    requires Closes(closing, intent)
    ensures
      var after := ExecuteAll([Sweep(intent, s.tokens[intent.temporaryAccount])] + closing, s, output);
      after.Some? && after.value.burned == s.burned
  {
    var dust := s.tokens[intent.temporaryAccount];
    TransferExecutes(intent.temporaryAccount, intent.asset, intent.dustRecipientUsdcAta, intent.wallet, dust, s,
                     output);
    var sweep := Sweep(intent, dust);
    var all := [sweep] + closing;
    Unfold(all, s, output);
    assert all[1..] == closing;
    ClosingExecutes(closing, intent, Execute(sweep, s, output).value, output);
  }

  function Closing(encoders: Encoders, intent: PaymentIntent): seq<Instruction> {
    [Instruction(SPL_TOKEN_PROGRAM_ID, [intent.temporaryAccount, intent.feePayer, intent.wallet], [CLOSE_ACCOUNT]),
     Instruction(MEMO_PROGRAM_ID, [], encoders.memo(intent.memo))]
  }

  function Paying(env: Environment, input: BuildInput, shares: nat): seq<Instruction>
    requires |input.vaultAccounts| == 3
  {
    var intent := input.intent;
    [KvaultWithdraw(env, input, shares),
     TransferChecked(intent.temporaryAccount, intent.asset, intent.sellerUsdcAta, intent.wallet, intent.amountRawUsdc)]
  }

  function Sweep(intent: PaymentIntent, dust: nat): Instruction {
    TransferChecked(intent.temporaryAccount, intent.asset, intent.dustRecipientUsdcAta, intent.wallet, dust)
  }

  /** After the withdrawal and the seller's transfer come the sweep of a remainder, if any, and the closing. */
  lemma TailParts(env: Environment, encoders: Encoders, input: BuildInput, shares: nat, output: nat)
    requires |input.vaultAccounts| == 3 && input.intent.amountRawUsdc <= output
    ensures
      var closing, dust := Closing(encoders, input.intent), output - input.intent.amountRawUsdc;
      Tail(env, encoders, input, shares, output)
      == Paying(env, input, shares) + if dust > 0 then [Sweep(input.intent, dust)] + closing else closing
  {
  }

  predicate Burns(after: Option<Chain>, s: Chain, shares: nat) {
    after.Some? && after.value.burned == s.burned + shares
  }

  lemma SweptTailExecutes(env: Environment, encoders: Encoders, input: BuildInput, shares: nat, output: nat, s: Chain)
    requires |input.vaultAccounts| == 3 && shares < U64_MAX
    requires input.intent.amountRawUsdc < output < U64_BOUND && ReadyToSettle(s, input.intent)
    ensures Burns(ExecuteAll(Tail(env, encoders, input, shares, output), Opened(s, input.intent.temporaryAccount),
                             output), s, shares)
  {
    TailParts(env, encoders, input, shares, output);
    PaidAndSwept(env, input, shares, output, s, Closing(encoders, input.intent));
  }

  predicate Closes(closing: seq<Instruction>, intent: PaymentIntent) {
    && |closing| == 2
    && closing[0] == Instruction(SPL_TOKEN_PROGRAM_ID, [intent.temporaryAccount, intent.feePayer, intent.wallet],
                                 [CLOSE_ACCOUNT])
    && closing[1].programAddress == MEMO_PROGRAM_ID
  }

  lemma PaidAndSwept(env: Environment, input: BuildInput, shares: nat, output: nat, s: Chain, closing: seq<Instruction>)
    requires |input.vaultAccounts| == 3 && shares < U64_MAX && Closes(closing, input.intent)
    requires input.intent.amountRawUsdc < output < U64_BOUND && ReadyToSettle(s, input.intent)
    ensures
      var rest := [Sweep(input.intent, output - input.intent.amountRawUsdc)] + closing;
      Burns(ExecuteAll(Paying(env, input, shares) + rest, Opened(s, input.intent.temporaryAccount), output), s, shares)
  {
    var rest := [Sweep(input.intent, output - input.intent.amountRawUsdc)] + closing;
    var paid := PaymentExecutes(env, input, shares, output, s, rest);
    SweepAndClose(input.intent, paid, closing, output);
  }

  lemma PlainTailExecutes(env: Environment, encoders: Encoders, input: BuildInput, shares: nat, output: nat, s: Chain)
    requires |input.vaultAccounts| == 3 && shares < U64_MAX
    requires input.intent.amountRawUsdc == output < U64_BOUND && ReadyToSettle(s, input.intent)
    ensures Burns(ExecuteAll(Tail(env, encoders, input, shares, output), Opened(s, input.intent.temporaryAccount),
                             output), s, shares)
  {
    var intent, closing := input.intent, Closing(encoders, input.intent);
    TailParts(env, encoders, input, shares, output);
    var paid := PaymentExecutes(env, input, shares, output, s, closing);
    ClosingExecutes(closing, intent, paid, output);
  }

  lemma SharesRead(env: Environment, input: BuildInput, shares: nat)
    requires |input.vaultAccounts| == 3 && shares < U64_MAX
    ensures
      var ix := KvaultWithdraw(env, input, shares);
      |ix.data| >= 16 && LittleEndian(ix.data[8..16]) == shares
  {
    FieldBounds();
    FieldReads(KVAULT_WITHDRAW_DISCRIMINATOR, shares, 8, []);
    assert KvaultWithdraw(env, input, shares).data == KVAULT_WITHDRAW_DISCRIMINATOR + LittleEndianBytes(shares, 8) + [];
  }

  lemma AmountReads(amount: nat)
    requires amount < U64_BOUND
    ensures forall a, b, c, d ::
              var ix := TransferChecked(a, b, c, d, amount);
              |ix.data| >= 9 && LittleEndian(ix.data[1..9]) == amount
  {
    FieldBounds();
    FieldReads([TRANSFER_CHECKED], amount, 8, [USDC_DECIMALS]);
  }

  lemma ClosingExecutes(closing: seq<Instruction>, intent: PaymentIntent, s: Chain, output: nat)
    requires Closes(closing, intent)
    requires intent.temporaryAccount in s.tokens && s.tokens[intent.temporaryAccount] == 0
    ensures ExecuteAll(closing, s, output) == Some(s.(tokens := s.tokens - {intent.temporaryAccount}))
  {
    ProgramsDiffer();
    Unfold(closing, s, output);
    var t := Execute(closing[0], s, output).value;
    Unfold(closing[1..], t, output);
    assert closing[1..][1..] == [];
  }

  /** What the relayer builds executes, burning exactly its shares, for whatever the vault pays out. */
  lemma BuiltListExecutes(
    env: Environment, encoders: Encoders, input: BuildInput, limits: Limits, shares: nat, output: nat, s: Chain)
    requires Buildable(env, encoders, input, limits) && shares < U64_MAX
    requires input.intent.amountRawUsdc <= output < U64_BOUND && ReadyToSettle(s, input.intent)
    ensures Burns(ExecuteAll(Built(env, encoders, input, shares, output), s, output), s, shares)
  {
    var tail := Tail(env, encoders, input, shares, output);
    SetupExecutes(env, encoders, input, limits, s, output, input.unstakeIxs + tail);
    FarmExecutes(input.unstakeIxs, tail, Opened(s, input.intent.temporaryAccount), output);
    if output > input.intent.amountRawUsdc {
      SweptTailExecutes(env, encoders, input, shares, output, s);
    } else {
      PlainTailExecutes(env, encoders, input, shares, output, s);
    }
    assert Built(env, encoders, input, shares, output) == Setup(encoders, input) + (input.unstakeIxs + tail);
  }

  // ---- probing

  /** A vault that pays its rate to the unit. */
  function PaysRate(rate: nat): Simulation {
    (shares: nat) => Some(MulDivFloor(shares, rate, RATE_SCALE))
  }

  /** Against such a vault the probe settles at once, or on the shares the deficit asks for, or says it cannot. */
  lemma ProbeAgainstPlainVault(shares: nat, approved: nat, amount: nat, rate: nat)
    requires rate > 0 && shares <= approved
    ensures
      var output := MulDivFloor(shares, rate, RATE_SCALE);
      var probe := ProbeFrom(PaysRate(rate), shares, approved, amount, rate, 4);
      if output >= amount then probe == Covered(shares, output)
      else
        var more := CeilDiv((amount - output) * RATE_SCALE, rate);
        if shares + more <= approved then
          probe == Covered(shares + more, MulDivFloor(shares + more, rate, RATE_SCALE))
        else probe == NotCovered
  {
    var output := MulDivFloor(shares, rate, RATE_SCALE);
    if output < amount {
      var more := CeilDiv((amount - output) * RATE_SCALE, rate);
      assert more * rate >= (amount - output) * RATE_SCALE > 0;
      assert (shares + more) * rate == shares * rate + more * rate;
      assert MulDivFloor(shares + more, rate, RATE_SCALE) >= amount;
    }
  }

  /** At most four probes; a failing simulation ends the search. */
  lemma ProbesEnd(simulate: Simulation, shares: nat, approved: nat, amount: nat, rate: nat, attempts: nat)
    requires rate > 0
    ensures attempts == 0 ==> ProbeFrom(simulate, shares, approved, amount, rate, attempts) == NotCovered
    ensures attempts > 0 && simulate(shares) == None ==>
              ProbeFrom(simulate, shares, approved, amount, rate, attempts) == SimulationFailed
    ensures MAX_PROBES == 4
  {
  }
}
