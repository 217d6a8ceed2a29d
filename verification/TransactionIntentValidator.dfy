/**
  What a signer checks before signing: the decoded instructions of a transaction against the structured intent.  The
  payment validator shifts instructions off a list, the withdrawal validator walks it once with flags; both are proved
  to accept exactly the lists their grammar describes.
 */
module TransactionIntentValidator {
  import opened Wrappers
  import opened Bytes

  type Address = string

  const COMPUTE_BUDGET_PROGRAM_ID: Address := "ComputeBudget111111111111111111111111111111"
  const SYSTEM_PROGRAM_ID: Address := "11111111111111111111111111111111"
  const ASSOCIATED_TOKEN_PROGRAM_ID: Address := "ATokenGPvbdGVxr1b2hvZbsiqW5xWH25efTNsLJA8knL"
  const MEMO_PROGRAM_ID: Address := "MemoSq4gqABAXKb96qnH8TysNcWxMyWCqXgDLGmfcHr"
  const KVAULT_PROGRAM_ID: Address := "KvauGMspG5k6rtzrqqn7WNn3oZdyKqLKwK2XWQ8FLjd"
  const KAMINO_FARMS_PROGRAM_ID: Address := "FarmsPZpWu9i7Kky8tPN37rs2TpmMrAZrC7S7vJa91Hr"
  const SPL_TOKEN_PROGRAM_ID: Address := "TokenkegQfeZyiNwAJbNbGKPFXCWuBvf9Ss623VQ5DA"

  const KVAULT_WITHDRAW_DISCRIMINATOR: seq<Byte> := [183, 18, 70, 156, 148, 109, 161, 34]
  const KVAULT_WITHDRAW_FROM_AVAILABLE_DISCRIMINATOR: seq<Byte> := [19, 131, 112, 155, 170, 220, 34, 57]
  const KAMINO_FARMS_UNSTAKE_DISCRIMINATOR: seq<Byte> := [90, 95, 107, 42, 205, 124, 50, 225]
  const KAMINO_FARMS_WITHDRAW_UNSTAKED_DISCRIMINATOR: seq<Byte> := [36, 102, 187, 49, 220, 36, 132, 67]
  const U64_MAX: nat := 0xffff_ffff_ffff_ffff
  const TOKEN_ACCOUNT_SIZE: nat := 165
  const USDC_DECIMALS: Byte := 6
  const TRANSFER_CHECKED: Byte := 12
  const CLOSE_ACCOUNT: Byte := 9
  const INITIALIZE_ACCOUNT_3: Byte := 18

  datatype Instruction = Instruction(programAddress: Address, accounts: seq<Address>, data: seq<Byte>)

  /** Base58, UTF-8 decoding, address derivation and the request binding hash, as functions. */
  datatype Environment = Environment(
    base58: seq<Byte> -> Address,
    utf8: seq<Byte> -> string,
    associatedTokenAddress: (Address, Address) -> Address,
    requestBinding: PaymentIntent -> string)

  datatype Limits = Limits(
    maxComputeUnitLimit: nat,
    maxComputeUnitPriceMicroLamports: nat,
    maxTemporaryAccountLamports: nat)

  datatype PaymentIntent = PaymentIntent(
    paymentId: string,
    scheme: string,
    network: string,
    request: seq<string>,        // the seller request's own fields, which only travel into the binding
    requestBindingHash: string,
    expiresAt: int,
    preparedMessageHash: string,
    wallet: Address,
    payTo: Address,
    vault: Address,
    farm: Address,
    shareMint: Address,
    asset: Address,
    amountRawUsdc: nat,
    sellerUsdcAta: Address,
    feePayer: Address,
    temporaryAccount: Address,
    dustRecipientUsdcAta: Address,
    maxSharesToRedeemRaw: nat,
    memo: string)

  datatype VaultConfig = VaultConfig(address: Address, shareMint: Address, farm: Address, usdcMint: Address)

  /** The wire transaction with every account resolved. */
  datatype DecodedTransaction = DecodedTransaction(
    feePayer: Address,
    requiredSigners: seq<Address>,
    instructions: seq<Instruction>,
    messageHash: string)

  const PAYMENT_SCHEME: string := "subly-yield-exact"
  const SOLANA_MAINNET_NETWORK: string := "solana:5eykt4UsFv8P8NJdTREpY1vzqKqZKvdp"

  lemma ProgramsDiffer()
    ensures COMPUTE_BUDGET_PROGRAM_ID != SYSTEM_PROGRAM_ID && COMPUTE_BUDGET_PROGRAM_ID != SPL_TOKEN_PROGRAM_ID
    ensures KAMINO_FARMS_PROGRAM_ID !in [COMPUTE_BUDGET_PROGRAM_ID, SYSTEM_PROGRAM_ID, ASSOCIATED_TOKEN_PROGRAM_ID,
                                         MEMO_PROGRAM_ID, KVAULT_PROGRAM_ID, SPL_TOKEN_PROGRAM_ID]
    ensures KVAULT_PROGRAM_ID !in [COMPUTE_BUDGET_PROGRAM_ID, SYSTEM_PROGRAM_ID, ASSOCIATED_TOKEN_PROGRAM_ID,
                                   MEMO_PROGRAM_ID, SPL_TOKEN_PROGRAM_ID]
    ensures SPL_TOKEN_PROGRAM_ID !in [SYSTEM_PROGRAM_ID, ASSOCIATED_TOKEN_PROGRAM_ID, MEMO_PROGRAM_ID]
    ensures MEMO_PROGRAM_ID !in [COMPUTE_BUDGET_PROGRAM_ID, SYSTEM_PROGRAM_ID, ASSOCIATED_TOKEN_PROGRAM_ID]
  {
    assert COMPUTE_BUDGET_PROGRAM_ID[0] == 'C' && SYSTEM_PROGRAM_ID[0] == '1' && ASSOCIATED_TOKEN_PROGRAM_ID[0] == 'A';
    assert MEMO_PROGRAM_ID[0] == 'M' && KVAULT_PROGRAM_ID[0] == 'K' && KAMINO_FARMS_PROGRAM_ID[0] == 'F';
    assert SPL_TOKEN_PROGRAM_ID[0] == 'T';
  }

  // ---- readers

  /** An account slot; a missing one equals no address. */
  function AccountAt(ix: Instruction, i: nat): Option<Address> {
    if i < |ix.accounts| then Some(ix.accounts[i]) else None
  }

  function FirstByte(ix: Instruction): Option<Byte> {
    if ix.data == [] then None else Some(ix.data[0])
  }

  /** Reading past the end rejects the transaction, which None stands for. */
  function ReadLE(data: seq<Byte>, offset: nat, width: nat): Option<nat> {
    if |data| < offset + width then None else Some(LittleEndian(data[offset..offset + width]))
  }

  predicate StartsWith(data: seq<Byte>, prefix: seq<Byte>) {
    prefix <= data
  }

  // ---- single instructions

  predicate ComputeBudgetOk(ix: Instruction, limits: Limits) {
    if FirstByte(ix) == Some(2) then
      var units := ReadLE(ix.data, 1, 4);
      units.Some? && 0 < units.value <= limits.maxComputeUnitLimit
    else if FirstByte(ix) == Some(3) then
      var price := ReadLE(ix.data, 1, 8);
      price.Some? && price.value <= limits.maxComputeUnitPriceMicroLamports
    else false
  }

  predicate IsComputeBudget(ix: Instruction, discriminator: Byte, limits: Limits) {
    && ix.programAddress == COMPUTE_BUDGET_PROGRAM_ID
    && FirstByte(ix) == Some(discriminator)
    && ComputeBudgetOk(ix, limits)
  }

  predicate IsCreateTemporaryAccount(env: Environment, ix: Instruction, intent: PaymentIntent, limits: Limits) {
    && ix.programAddress == SYSTEM_PROGRAM_ID
    && |ix.data| >= 52 && ReadLE(ix.data, 0, 4) == Some(0)
    && ReadLE(ix.data, 12, 8) == Some(TOKEN_ACCOUNT_SIZE)
    && env.base58(ix.data[20..52]) == SPL_TOKEN_PROGRAM_ID
    && ReadLE(ix.data, 4, 8).value <= limits.maxTemporaryAccountLamports
    && AccountAt(ix, 0) == Some(intent.feePayer)
    && AccountAt(ix, 1) == Some(intent.temporaryAccount)
  }

  /** The owner is read from whatever 32 bytes the data still has. */
  predicate IsInitializeTemporaryAccount(env: Environment, ix: Instruction, intent: PaymentIntent) {
    && ix.programAddress == SPL_TOKEN_PROGRAM_ID
    && FirstByte(ix) == Some(INITIALIZE_ACCOUNT_3)
    && env.base58(if |ix.data| >= 33 then ix.data[1..33] else ix.data[1..]) == intent.wallet
    && AccountAt(ix, 0) == Some(intent.temporaryAccount)
    && AccountAt(ix, 1) == Some(intent.asset)
  }

  predicate IsFarmUnstake(ix: Instruction, wallet: Address, farm: Address) {
    && ix.programAddress == KAMINO_FARMS_PROGRAM_ID
    && StartsWith(ix.data, KAMINO_FARMS_UNSTAKE_DISCRIMINATOR)
    && |ix.data| == 24 && LittleEndian(ix.data[8..24]) > 0
    && |ix.accounts| == 4 && ix.accounts[0] == wallet && ix.accounts[2] == farm
  }

  predicate IsFarmWithdraw(
    env: Environment, ix: Instruction, wallet: Address, farm: Address, shareMint: Address, userState: Option<Address>)
  {
    && ix.programAddress == KAMINO_FARMS_PROGRAM_ID
    && StartsWith(ix.data, KAMINO_FARMS_WITHDRAW_UNSTAKED_DISCRIMINATOR) && |ix.data| == 8
    && |ix.accounts| == 7
    && ix.accounts[0] == wallet && Some(ix.accounts[1]) == userState && ix.accounts[2] == farm
    && ix.accounts[3] == env.associatedTokenAddress(wallet, shareMint)
    && ix.accounts[6] == SPL_TOKEN_PROGRAM_ID
  }

  datatype WithdrawExpectation = WithdrawExpectation(
    wallet: Address,
    vault: Address,
    shareMint: Address,
    asset: Address,
    userTokenAccount: Address,
    maxSharesToRedeemRaw: nat,
    allowFullExit: bool)

  predicate KvaultWithdrawOk(env: Environment, ix: Instruction, e: WithdrawExpectation) {
    && (StartsWith(ix.data, KVAULT_WITHDRAW_DISCRIMINATOR)
        || StartsWith(ix.data, KVAULT_WITHDRAW_FROM_AVAILABLE_DISCRIMINATOR))
    && ReadLE(ix.data, 8, 8).Some?
    && (var shares := ReadLE(ix.data, 8, 8).value;
        if shares == U64_MAX then e.allowFullExit else shares <= e.maxSharesToRedeemRaw)
    && AccountAt(ix, 0) == Some(e.wallet)
    && AccountAt(ix, 1) == Some(e.vault)
    && AccountAt(ix, 5) == Some(e.userTokenAccount)
    && AccountAt(ix, 6) == Some(e.asset)
    && AccountAt(ix, 7) == Some(env.associatedTokenAddress(e.wallet, e.shareMint))
    && AccountAt(ix, 8) == Some(e.shareMint)
  }

  predicate LooksLikeTransfer(ix: Instruction) {
    ix.programAddress == SPL_TOKEN_PROGRAM_ID && FirstByte(ix) == Some(TRANSFER_CHECKED)
  }

  /** `amount`: None leaves the amount open, as for the dust sweep. */
  predicate IsTransferChecked(
    ix: Instruction, source: Address, mint: Address, destination: Address, authority: Address, amount: Option<nat>)
  {
    && LooksLikeTransfer(ix)
    && ReadLE(ix.data, 1, 8).Some?
    && (amount.Some? ==> ReadLE(ix.data, 1, 8) == amount)
    && |ix.data| > 9 && ix.data[9] == USDC_DECIMALS
    && AccountAt(ix, 0) == Some(source)
    && AccountAt(ix, 1) == Some(mint)
    && AccountAt(ix, 2) == Some(destination)
    && AccountAt(ix, 3) == Some(authority)
  }

  predicate IsCloseAccount(ix: Instruction, account: Address, destination: Address, owner: Address) {
    && ix.programAddress == SPL_TOKEN_PROGRAM_ID
    && FirstByte(ix) == Some(CLOSE_ACCOUNT)
    && AccountAt(ix, 0) == Some(account)
    && AccountAt(ix, 1) == Some(destination)
    && AccountAt(ix, 2) == Some(owner)
  }

  predicate IsMemo(env: Environment, ix: Instruction, memo: string) {
    ix.programAddress == MEMO_PROGRAM_ID && env.utf8(ix.data) == memo
  }

  // ---- the payment grammar

  function PaymentWithdraw(intent: PaymentIntent): WithdrawExpectation {
    WithdrawExpectation(intent.wallet, intent.vault, intent.shareMint, intent.asset, intent.temporaryAccount,
                        intent.maxSharesToRedeemRaw, false)
  }

  predicate IsPaymentWithdraw(env: Environment, ix: Instruction, intent: PaymentIntent) {
    ix.programAddress == KVAULT_PROGRAM_ID && KvaultWithdrawOk(env, ix, PaymentWithdraw(intent))
  }

  predicate IsSellerTransfer(ix: Instruction, intent: PaymentIntent) {
    IsTransferChecked(ix, intent.temporaryAccount, intent.asset, intent.sellerUsdcAta, intent.wallet,
                      Some(intent.amountRawUsdc))
  }

  predicate IsDustSweep(ix: Instruction, intent: PaymentIntent) {
    IsTransferChecked(ix, intent.temporaryAccount, intent.asset, intent.dustRecipientUsdcAta, intent.wallet, None)
  }

  predicate IsPaymentClose(ix: Instruction, intent: PaymentIntent) {
    IsCloseAccount(ix, intent.temporaryAccount, intent.feePayer, intent.wallet)
  }

  predicate IsFarmPair(env: Environment, unstake: Instruction, withdraw: Instruction, intent: PaymentIntent) {
    && IsFarmUnstake(unstake, intent.wallet, intent.farm)
    && IsFarmWithdraw(env, withdraw, intent.wallet, intent.farm, intent.shareMint, Some(unstake.accounts[1]))
  }

  /** budget budget create initialize (unstake withdraw)? kvault transfer dust? close memo */
  predicate PaymentForm(
    env: Environment, ixs: seq<Instruction>, intent: PaymentIntent, limits: Limits, farm: bool, dust: bool)
  {
    var f := if farm then 2 else 0;
    var d := if dust then 1 else 0;
    && |ixs| == 8 + f + d
    && IsComputeBudget(ixs[0], 2, limits)
    && IsComputeBudget(ixs[1], 3, limits)
    && IsCreateTemporaryAccount(env, ixs[2], intent, limits)
    && IsInitializeTemporaryAccount(env, ixs[3], intent)
    && (farm ==> IsFarmPair(env, ixs[4], ixs[5], intent))
    && IsPaymentWithdraw(env, ixs[4 + f], intent)
    && IsSellerTransfer(ixs[5 + f], intent)
    && (dust ==> IsDustSweep(ixs[6 + f], intent))
    && IsPaymentClose(ixs[6 + f + d], intent)
    && IsMemo(env, ixs[7 + f + d], intent.memo)
  }

  predicate PaymentGrammar(env: Environment, ixs: seq<Instruction>, intent: PaymentIntent, limits: Limits) {
    exists farm, dust :: PaymentForm(env, ixs, intent, limits, farm, dust)
  }

  datatype Verdict = Accepted | Rejected(reason: string)

  /** Whether the optional parts are there can be read off the list. */
  predicate HasFarm(ixs: seq<Instruction>) {
    |ixs| > 4 && ixs[4].programAddress == KAMINO_FARMS_PROGRAM_ID
  }

  predicate HasDust(ixs: seq<Instruction>) {
    var f := if HasFarm(ixs) then 2 else 0;
    |ixs| > 6 + f && LooksLikeTransfer(ixs[6 + f])
  }

  lemma FormIsDetermined(env: Environment, ixs: seq<Instruction>, intent: PaymentIntent, limits: Limits)
    ensures PaymentGrammar(env, ixs, intent, limits)
            <==> PaymentForm(env, ixs, intent, limits, HasFarm(ixs), HasDust(ixs))
  {
    ProgramsDiffer();
    forall farm: bool, dust: bool | PaymentForm(env, ixs, intent, limits, farm, dust)
      ensures farm == HasFarm(ixs) && dust == HasDust(ixs)
    {
    }
  }

  /** What an expectation leaves of the list, or why it rejects. */
  type Remaining = Result<seq<Instruction>, string>

  method ExpectSetup(env: Environment, instructions: seq<Instruction>, intent: PaymentIntent, limits: Limits)
    returns (rest: Remaining)
    ensures rest.Success? <==>
              && |instructions| >= 4
              && IsComputeBudget(instructions[0], 2, limits)
              && IsComputeBudget(instructions[1], 3, limits)
              && IsCreateTemporaryAccount(env, instructions[2], intent, limits)
              && IsInitializeTemporaryAccount(env, instructions[3], intent)
    ensures rest.Success? ==> rest.value == instructions[4..]
  {
    var ixs := instructions;
    if ixs == [] || !IsComputeBudget(ixs[0], 2, limits) {
      return Failure("compute_budget_mismatch");
    }
    ixs := ixs[1..];
    if ixs == [] || !IsComputeBudget(ixs[0], 3, limits) {
      return Failure("compute_budget_mismatch");
    }
    ixs := ixs[1..];
    if ixs == [] || !IsCreateTemporaryAccount(env, ixs[0], intent, limits) {
      return Failure("temp_account_mismatch");
    }
    ixs := ixs[1..];
    if ixs == [] || !IsInitializeTemporaryAccount(env, ixs[0], intent) {
      return Failure("temp_account_mismatch");
    }
    return Success(ixs[1..]);
  }

  predicate StartsWithFarm(ixs: seq<Instruction>) {
    ixs != [] && ixs[0].programAddress == KAMINO_FARMS_PROGRAM_ID
  }

  method ConsumeFarmInstructions(env: Environment, instructions: seq<Instruction>, intent: PaymentIntent)
    returns (rest: Remaining)
    ensures !StartsWithFarm(instructions) ==> rest == Success(instructions)
    ensures StartsWithFarm(instructions) ==>
              (rest.Success? <==>
                 && |instructions| >= 2
                 && IsFarmPair(env, instructions[0], instructions[1], intent)
                 && !StartsWithFarm(instructions[2..]))
              && (rest.Success? ==> rest.value == instructions[2..])
  {
    if !StartsWithFarm(instructions) {
      return Success(instructions);
    }
    var unstake := instructions[0];
    var ixs := instructions[1..];
    if !IsFarmUnstake(unstake, intent.wallet, intent.farm) {
      return Failure("farm_instruction_mismatch");
    }
    var userState := unstake.accounts[1];
    if ixs == [] || !IsFarmWithdraw(env, ixs[0], intent.wallet, intent.farm, intent.shareMint, Some(userState)) {
      return Failure("farm_instruction_mismatch");
    }
    ixs := ixs[1..];
    if StartsWithFarm(ixs) {
      return Failure("farm_instruction_mismatch");
    }
    return Success(ixs);
  }

  /** What may follow the farm part. */
  predicate SettlementTail(env: Environment, ixs: seq<Instruction>, intent: PaymentIntent, dust: bool) {
    var d := if dust then 1 else 0;
    && |ixs| == 4 + d
    && IsPaymentWithdraw(env, ixs[0], intent)
    && IsSellerTransfer(ixs[1], intent)
    && (dust ==> IsDustSweep(ixs[2], intent))
    && IsPaymentClose(ixs[2 + d], intent)
    && IsMemo(env, ixs[3 + d], intent.memo)
  }

  predicate TailHasDust(ixs: seq<Instruction>) {
    |ixs| > 2 && LooksLikeTransfer(ixs[2])
  }

  predicate ClosingTail(env: Environment, ixs: seq<Instruction>, intent: PaymentIntent) {
    |ixs| == 2 && IsPaymentClose(ixs[0], intent) && IsMemo(env, ixs[1], intent.memo)
  }

  method ExpectClosing(env: Environment, instructions: seq<Instruction>, intent: PaymentIntent)
    returns (verdict: Verdict)
    ensures verdict.Accepted? <==> ClosingTail(env, instructions, intent)
  {
    var ixs := instructions;
    if ixs == [] || !IsPaymentClose(ixs[0], intent) {
      return Rejected("close_mismatch");
    }
    ixs := ixs[1..];
    if ixs == [] || !IsMemo(env, ixs[0], intent.memo) {
      return Rejected("memo_mismatch");
    }
    ixs := ixs[1..];
    if |ixs| > 0 {
      return Rejected("unexpected_instruction");
    }
    return Accepted;
  }

  /** With the sweep the closing part starts one later. */
  lemma TailSplits(env: Environment, ixs: seq<Instruction>, intent: PaymentIntent)
    requires |ixs| >= 2 && IsPaymentWithdraw(env, ixs[0], intent) && IsSellerTransfer(ixs[1], intent)
    ensures TailHasDust(ixs) ==>
              (SettlementTail(env, ixs, intent, true)
               <==> IsDustSweep(ixs[2], intent) && ClosingTail(env, ixs[3..], intent))
    ensures SettlementTail(env, ixs, intent, false) <==> ClosingTail(env, ixs[2..], intent)
  {
    if TailHasDust(ixs) && |ixs| == 5 {
      assert ixs[3..][0] == ixs[3] && ixs[3..][1] == ixs[4];
    }
    if |ixs| == 4 {
      assert ixs[2..][0] == ixs[2] && ixs[2..][1] == ixs[3];
    }
  }

  method ExpectSettlement(env: Environment, instructions: seq<Instruction>, intent: PaymentIntent)
    returns (verdict: Verdict)
    ensures verdict.Accepted? <==> SettlementTail(env, instructions, intent, TailHasDust(instructions))
  {
    var ixs := instructions;
    if ixs == [] || !IsPaymentWithdraw(env, ixs[0], intent) {
      return Rejected("withdraw_mismatch");
    }
    ixs := ixs[1..];
    if ixs == [] || !IsSellerTransfer(ixs[0], intent) {
      return Rejected("transfer_mismatch");
    }
    ixs := ixs[1..];
    TailSplits(env, instructions, intent);
    assert ixs == instructions[2..];
    if ixs != [] && LooksLikeTransfer(ixs[0]) {
      if !IsDustSweep(ixs[0], intent) {
        return Rejected("transfer_mismatch");
      }
      ixs := ixs[1..];
      assert ixs == instructions[3..];
    }
    verdict := ExpectClosing(env, ixs, intent);
  }

  /** The form is the setup, the optional farm pair, and a tail. */
  lemma FormSplits(env: Environment, ixs: seq<Instruction>, intent: PaymentIntent, limits: Limits)
    ensures PaymentForm(env, ixs, intent, limits, HasFarm(ixs), HasDust(ixs))
            <==>
            && |ixs| >= 4
            && IsComputeBudget(ixs[0], 2, limits)
            && IsComputeBudget(ixs[1], 3, limits)
            && IsCreateTemporaryAccount(env, ixs[2], intent, limits)
            && IsInitializeTemporaryAccount(env, ixs[3], intent)
            && (if StartsWithFarm(ixs[4..]) then
                  && |ixs| >= 6
                  && IsFarmPair(env, ixs[4], ixs[5], intent)
                  && SettlementTail(env, ixs[6..], intent, TailHasDust(ixs[6..]))
                else SettlementTail(env, ixs[4..], intent, TailHasDust(ixs[4..])))
  {
  }

  /** The validator's instruction checks, in its order: each expectation shifts its instructions off the list. */
  method ValidatePaymentInstructions(
    env: Environment, instructions: seq<Instruction>, intent: PaymentIntent, limits: Limits) returns (verdict: Verdict)
    ensures verdict.Accepted? <==> PaymentGrammar(env, instructions, intent, limits)
  {
    FormIsDetermined(env, instructions, intent, limits);
    FormSplits(env, instructions, intent, limits);
    var setup := ExpectSetup(env, instructions, intent, limits);
    if setup.Failure? {
      return Rejected(setup.error);
    }
    var ixs := setup.value;
    var farm := ConsumeFarmInstructions(env, ixs, intent);
    if farm.Failure? {
      SecondFarmPairIsNoWithdraw(env, ixs, intent);
      return Rejected(farm.error);
    }
    assert StartsWithFarm(ixs) ==> farm.value == instructions[6..];
    verdict := ExpectSettlement(env, farm.value, intent);
  }

  lemma SecondFarmPairIsNoWithdraw(env: Environment, ixs: seq<Instruction>, intent: PaymentIntent)
    ensures |ixs| >= 2 && StartsWithFarm(ixs[2..]) ==> !SettlementTail(env, ixs[2..], intent, TailHasDust(ixs[2..]))
  {
    ProgramsDiffer();
  }

  // ---- the whole payment check

  predicate IntentTargetsOk(env: Environment, intent: PaymentIntent, vault: VaultConfig, now: int) {
    && intent.expiresAt > now
    && intent.scheme == PAYMENT_SCHEME && intent.network == SOLANA_MAINNET_NETWORK
    && intent.vault == vault.address && intent.shareMint == vault.shareMint
    && intent.farm == vault.farm && intent.asset == vault.usdcMint
    && intent.memo == intent.paymentId
    && env.requestBinding(intent) == intent.requestBindingHash
    && intent.sellerUsdcAta == env.associatedTokenAddress(intent.payTo, intent.asset)
    && intent.dustRecipientUsdcAta == env.associatedTokenAddress(intent.wallet, intent.asset)
  }

  function ExpectedSigners(intent: PaymentIntent): set<Address> {
    {intent.feePayer, intent.wallet, intent.temporaryAccount}
  }

  predicate SignersOk(tx: DecodedTransaction, intent: PaymentIntent) {
    && |tx.requiredSigners| == |ExpectedSigners(intent)|
    && forall i | 0 <= i < |tx.requiredSigners| :: tx.requiredSigners[i] in ExpectedSigners(intent)
  }

  predicate PaymentTransactionOk(
    env: Environment, tx: DecodedTransaction, intent: PaymentIntent, vault: VaultConfig, limits: Limits, now: int)
  {
    && IntentTargetsOk(env, intent, vault, now)
    && tx.messageHash == intent.preparedMessageHash
    && tx.feePayer == intent.feePayer
    && SignersOk(tx, intent)
    && PaymentGrammar(env, tx.instructions, intent, limits)
  }

  method ValidatePaymentIntentTransaction(
    env: Environment, tx: DecodedTransaction, intent: PaymentIntent, vault: VaultConfig, limits: Limits, now: int)
    returns (verdict: Verdict)
    ensures verdict.Accepted? <==> PaymentTransactionOk(env, tx, intent, vault, limits, now)
  {
    if intent.expiresAt <= now {
      return Rejected("expired");
    }
    if intent.scheme != PAYMENT_SCHEME {
      return Rejected("scheme_mismatch");
    }
    if intent.network != SOLANA_MAINNET_NETWORK {
      return Rejected("network_mismatch");
    }
    if intent.vault != vault.address {
      return Rejected("vault_mismatch");
    }
    if intent.shareMint != vault.shareMint {
      return Rejected("share_mint_mismatch");
    }
    if intent.farm != vault.farm {
      return Rejected("farm_mismatch");
    }
    if intent.asset != vault.usdcMint {
      return Rejected("asset_mismatch");
    }
    if intent.memo != intent.paymentId {
      return Rejected("memo_mismatch");
    }
    if env.requestBinding(intent) != intent.requestBindingHash {
      return Rejected("request_binding_mismatch");
    }
    if env.associatedTokenAddress(intent.payTo, intent.asset) != intent.sellerUsdcAta {
      return Rejected("seller_ata_mismatch");
    }
    if env.associatedTokenAddress(intent.wallet, intent.asset) != intent.dustRecipientUsdcAta {
      return Rejected("dust_recipient_mismatch");
    }
    if tx.messageHash != intent.preparedMessageHash {
      return Rejected("message_hash_mismatch");
    }
    if tx.feePayer != intent.feePayer {
      return Rejected("fee_payer_mismatch");
    }
    if !SignersOk(tx, intent) {
      return Rejected("unexpected_signers");
    }
    verdict := ValidatePaymentInstructions(env, tx.instructions, intent, limits);
  }

  // ---- the withdrawal grammar

  datatype WithdrawalIntent = WithdrawalIntent(
    wallet: Address,
    vault: Address,
    farm: Address,
    shareMint: Address,
    asset: Address,
    destinationUsdcAta: Address,
    maxSharesToRedeemRaw: nat,
    allowFullExit: bool)

  function WithdrawalExpectation(intent: WithdrawalIntent): WithdrawExpectation {
    WithdrawExpectation(intent.wallet, intent.vault, intent.shareMint, intent.asset, intent.destinationUsdcAta,
                        intent.maxSharesToRedeemRaw, intent.allowFullExit)
  }

  /** Instructions that are judged on their own. */
  predicate StandsAlone(ix: Instruction, intent: WithdrawalIntent, limits: Limits) {
    || (ix.programAddress == COMPUTE_BUDGET_PROGRAM_ID && ComputeBudgetOk(ix, limits))
    || ix.programAddress == MEMO_PROGRAM_ID
    || (ix.programAddress == ASSOCIATED_TOKEN_PROGRAM_ID && AccountAt(ix, 2) == Some(intent.wallet))
    || (&& ix.programAddress == SPL_TOKEN_PROGRAM_ID
        && FirstByte(ix) == Some(CLOSE_ACCOUNT)
        && AccountAt(ix, 1) == Some(intent.wallet) && AccountAt(ix, 2) == Some(intent.wallet))
  }

  function Of(ixs: seq<Instruction>, program: Address): seq<Instruction> {
    if ixs == [] then []
    else
      var last := |ixs| - 1;
      Of(ixs[..last], program) + if ixs[last].programAddress == program then [ixs[last]] else []
  }

  /**
    The list without its farm and vault instructions consists of free-standing ones; exactly one vault withdrawal is
    there and fits the intent; the farm part is empty or one unstake followed, anywhere later, by its withdrawal.
   */
  predicate WithdrawalGrammar(env: Environment, ixs: seq<Instruction>, intent: WithdrawalIntent, limits: Limits) {
    && AllPlaced(ixs, intent, limits)
    && (var vaults := Of(ixs, KVAULT_PROGRAM_ID);
        |vaults| == 1 && KvaultWithdrawOk(env, vaults[0], WithdrawalExpectation(intent)))
    && (var farms := Of(ixs, KAMINO_FARMS_PROGRAM_ID);
        farms == []
        || (&& |farms| == 2
            && IsFarmUnstake(farms[0], intent.wallet, intent.farm)
            && IsFarmWithdraw(env, farms[1], intent.wallet, intent.farm, intent.shareMint, Some(farms[0].accounts[1]))))
  }

  predicate Placed(ix: Instruction, intent: WithdrawalIntent, limits: Limits) {
    || StandsAlone(ix, intent, limits)
    || ix.programAddress == KVAULT_PROGRAM_ID
    || ix.programAddress == KAMINO_FARMS_PROGRAM_ID
  }

  predicate AllPlaced(ixs: seq<Instruction>, intent: WithdrawalIntent, limits: Limits) {
    forall i | 0 <= i < |ixs| :: Placed(ixs[i], intent, limits)
  }

  predicate VaultsOk(env: Environment, vaults: seq<Instruction>, intent: WithdrawalIntent) {
    |vaults| <= 1 && (|vaults| == 1 ==> KvaultWithdrawOk(env, vaults[0], WithdrawalExpectation(intent)))
  }

  predicate FarmsOk(env: Environment, farms: seq<Instruction>, intent: WithdrawalIntent) {
    && |farms| <= 2
    && (|farms| >= 1 ==> IsFarmUnstake(farms[0], intent.wallet, intent.farm))
    && (|farms| == 2 ==>
          IsFarmWithdraw(env, farms[1], intent.wallet, intent.farm, intent.shareMint, Some(farms[0].accounts[1])))
  }

  /** A prefix that can still be completed to an acceptable list. */
  predicate PrefixOk(env: Environment, ixs: seq<Instruction>, intent: WithdrawalIntent, limits: Limits) {
    && AllPlaced(ixs, intent, limits)
    && VaultsOk(env, Of(ixs, KVAULT_PROGRAM_ID), intent)
    && FarmsOk(env, Of(ixs, KAMINO_FARMS_PROGRAM_ID), intent)
  }

  /** An unacceptable prefix stays unacceptable. */
  lemma {:induction false} PrefixesOfAccepted(
    env: Environment, ixs: seq<Instruction>, n: nat, intent: WithdrawalIntent, limits: Limits)
    requires n <= |ixs| && PrefixOk(env, ixs, intent, limits)
    ensures PrefixOk(env, ixs[..n], intent, limits)
    decreases |ixs|
  {
    if n == |ixs| {
      assert ixs[..n] == ixs;
    } else {
      var shorter := ixs[..|ixs| - 1];
      assert PrefixOk(env, shorter, intent, limits) by {
        forall i | 0 <= i < |shorter| ensures shorter[i] == ixs[i] {
        }
      }
      PrefixesOfAccepted(env, shorter, n, intent, limits);
      assert shorter[..n] == ixs[..n];
    }
  }

  lemma AcceptedIsPrefixOk(env: Environment, ixs: seq<Instruction>, intent: WithdrawalIntent, limits: Limits)
    ensures WithdrawalGrammar(env, ixs, intent, limits)
            <==> && PrefixOk(env, ixs, intent, limits)
                 && |Of(ixs, KVAULT_PROGRAM_ID)| == 1
                 && |Of(ixs, KAMINO_FARMS_PROGRAM_ID)| != 1
  {
  }

  /** What the walk remembers of the instructions behind it. */
  datatype Flags = Flags(sawWithdraw: bool, farmInstructionCount: nat, farmUserState: Option<Address>)

  /** The flags describe a prefix. */
  predicate FlagsOf(flags: Flags, prefix: seq<Instruction>) {
    && flags.sawWithdraw == (|Of(prefix, KVAULT_PROGRAM_ID)| == 1)
    && flags.farmInstructionCount == |Of(prefix, KAMINO_FARMS_PROGRAM_ID)|
    && (flags.farmInstructionCount == 1 ==>
          && |Of(prefix, KAMINO_FARMS_PROGRAM_ID)[0].accounts| > 1
          && flags.farmUserState == Some(Of(prefix, KAMINO_FARMS_PROGRAM_ID)[0].accounts[1]))
  }

  /** Whether the next instruction is acceptable after what the flags remember. */
  predicate Admits(env: Environment, ix: Instruction, flags: Flags, intent: WithdrawalIntent, limits: Limits) {
    if ix.programAddress == KVAULT_PROGRAM_ID then
      !flags.sawWithdraw && KvaultWithdrawOk(env, ix, WithdrawalExpectation(intent))
    else if ix.programAddress == KAMINO_FARMS_PROGRAM_ID then
      || (flags.farmInstructionCount == 0 && IsFarmUnstake(ix, intent.wallet, intent.farm))
      || (flags.farmInstructionCount == 1
          && IsFarmWithdraw(env, ix, intent.wallet, intent.farm, intent.shareMint, flags.farmUserState))
    else StandsAlone(ix, intent, limits)
  }

  function After(flags: Flags, ix: Instruction): Flags {
    if ix.programAddress == KVAULT_PROGRAM_ID then flags.(sawWithdraw := true)
    else if ix.programAddress == KAMINO_FARMS_PROGRAM_ID then
      Flags(flags.sawWithdraw, flags.farmInstructionCount + 1,
            if flags.farmInstructionCount == 0 && |ix.accounts| > 1 then Some(ix.accounts[1]) else flags.farmUserState)
    else flags
  }

  lemma OfGrows(ixs: seq<Instruction>, i: nat, program: Address)
    requires i < |ixs|
    ensures Of(ixs[..i + 1], program)
            == Of(ixs[..i], program) + if ixs[i].programAddress == program then [ixs[i]] else []
  {
    assert ixs[..i + 1][..i] == ixs[..i];
  }

  lemma PlacesGrow(ixs: seq<Instruction>, i: nat, intent: WithdrawalIntent, limits: Limits)
    requires i < |ixs|
    ensures AllPlaced(ixs[..i + 1], intent, limits)
            <==> AllPlaced(ixs[..i], intent, limits) && Placed(ixs[i], intent, limits)
  {
    var longer, shorter := ixs[..i + 1], ixs[..i];
    assert longer[i] == ixs[i];
    assert forall k | 0 <= k < i :: longer[k] == shorter[k];
  }

  lemma FarmsGrow(env: Environment, farms: seq<Instruction>, ix: Instruction, intent: WithdrawalIntent)
    requires FarmsOk(env, farms, intent)
    ensures FarmsOk(env, farms + [ix], intent)
            <==>
            || (|farms| == 0 && IsFarmUnstake(ix, intent.wallet, intent.farm))
            || (|farms| == 1 && IsFarmWithdraw(env, ix, intent.wallet, intent.farm, intent.shareMint,
                                               Some(farms[0].accounts[1])))
  {
  }

  /** What one more instruction does to the parts of a prefix. */
  predicate Extends(longer: seq<Instruction>, shorter: seq<Instruction>, ix: Instruction, intent: WithdrawalIntent,
                    limits: Limits)
  {
    && Of(longer, KVAULT_PROGRAM_ID)
       == Of(shorter, KVAULT_PROGRAM_ID) + (if ix.programAddress == KVAULT_PROGRAM_ID then [ix] else [])
    && Of(longer, KAMINO_FARMS_PROGRAM_ID)
       == Of(shorter, KAMINO_FARMS_PROGRAM_ID) + (if ix.programAddress == KAMINO_FARMS_PROGRAM_ID then [ix] else [])
    && (AllPlaced(longer, intent, limits) <==> AllPlaced(shorter, intent, limits) && Placed(ix, intent, limits))
  }

  lemma PrefixGrows(env: Environment, ixs: seq<Instruction>, i: nat, flags: Flags, intent: WithdrawalIntent,
                    limits: Limits)
    requires i < |ixs| && PrefixOk(env, ixs[..i], intent, limits) && FlagsOf(flags, ixs[..i])
    ensures PrefixOk(env, ixs[..i + 1], intent, limits) <==> Admits(env, ixs[i], flags, intent, limits)
    ensures Admits(env, ixs[i], flags, intent, limits) ==> FlagsOf(After(flags, ixs[i]), ixs[..i + 1])
  {
    OfGrows(ixs, i, KVAULT_PROGRAM_ID);
    OfGrows(ixs, i, KAMINO_FARMS_PROGRAM_ID);
    PlacesGrow(ixs, i, intent, limits);
    if ixs[i].programAddress == KAMINO_FARMS_PROGRAM_ID {
      FarmExtends(env, ixs[..i + 1], ixs[..i], ixs[i], flags, intent, limits);
    } else if ixs[i].programAddress == KVAULT_PROGRAM_ID {
      VaultExtends(env, ixs[..i + 1], ixs[..i], ixs[i], flags, intent, limits);
    } else {
      StandaloneExtends(env, ixs[..i + 1], ixs[..i], ixs[i], flags, intent, limits);
    }
  }

  lemma FarmExtends(env: Environment, longer: seq<Instruction>, shorter: seq<Instruction>, ix: Instruction,
                    flags: Flags,
                    intent: WithdrawalIntent, limits: Limits)
    requires Extends(longer, shorter, ix, intent, limits) && ix.programAddress == KAMINO_FARMS_PROGRAM_ID
    requires PrefixOk(env, shorter, intent, limits) && FlagsOf(flags, shorter)
    ensures PrefixOk(env, longer, intent, limits) <==> Admits(env, ix, flags, intent, limits)
    ensures Admits(env, ix, flags, intent, limits) ==> FlagsOf(After(flags, ix), longer)
  {
    ProgramsDiffer();
    var farms, vaults := Of(shorter, KAMINO_FARMS_PROGRAM_ID), Of(shorter, KVAULT_PROGRAM_ID);
    FarmsGrow(env, farms, ix, intent);
    FarmStep(env, ix, farms, vaults, longer, flags, intent, limits);
  }

  lemma VaultExtends(env: Environment, longer: seq<Instruction>, shorter: seq<Instruction>, ix: Instruction,
                     flags: Flags,
                     intent: WithdrawalIntent, limits: Limits)
    requires Extends(longer, shorter, ix, intent, limits) && ix.programAddress == KVAULT_PROGRAM_ID
    requires PrefixOk(env, shorter, intent, limits) && FlagsOf(flags, shorter)
    ensures PrefixOk(env, longer, intent, limits) <==> Admits(env, ix, flags, intent, limits)
    ensures Admits(env, ix, flags, intent, limits) ==> FlagsOf(After(flags, ix), longer)
  {
    ProgramsDiffer();
    assert Of(longer, KAMINO_FARMS_PROGRAM_ID) == Of(shorter, KAMINO_FARMS_PROGRAM_ID);
  }

  lemma StandaloneExtends(env: Environment, longer: seq<Instruction>, shorter: seq<Instruction>, ix: Instruction,
                          flags: Flags, intent: WithdrawalIntent, limits: Limits)
    requires Extends(longer, shorter, ix, intent, limits)
    requires ix.programAddress != KVAULT_PROGRAM_ID && ix.programAddress != KAMINO_FARMS_PROGRAM_ID
    requires PrefixOk(env, shorter, intent, limits) && FlagsOf(flags, shorter)
    ensures PrefixOk(env, longer, intent, limits) <==> Admits(env, ix, flags, intent, limits)
    ensures Admits(env, ix, flags, intent, limits) ==> FlagsOf(After(flags, ix), longer)
  {
    assert Of(longer, KVAULT_PROGRAM_ID) == Of(shorter, KVAULT_PROGRAM_ID);
    assert Of(longer, KAMINO_FARMS_PROGRAM_ID) == Of(shorter, KAMINO_FARMS_PROGRAM_ID);
  }

  lemma FarmStep(env: Environment, ix: Instruction, farms: seq<Instruction>, vaults: seq<Instruction>,
                 longer: seq<Instruction>, flags: Flags, intent: WithdrawalIntent, limits: Limits)
    requires ix.programAddress == KAMINO_FARMS_PROGRAM_ID
    requires Of(longer, KAMINO_FARMS_PROGRAM_ID) == farms + [ix] && Of(longer, KVAULT_PROGRAM_ID) == vaults
    requires flags.sawWithdraw == (|vaults| == 1) && flags.farmInstructionCount == |farms|
    requires |farms| == 1 ==> |farms[0].accounts| > 1 && flags.farmUserState == Some(farms[0].accounts[1])
    ensures Admits(env, ix, flags, intent, limits) ==> FlagsOf(After(flags, ix), longer)
  {
    ProgramsDiffer();
  }

  /** The checks on instructions that need no memory of earlier ones. */
  method ValidateStandalone(ix: Instruction, intent: WithdrawalIntent, limits: Limits) returns (verdict: Verdict)
    requires ix.programAddress != KVAULT_PROGRAM_ID && ix.programAddress != KAMINO_FARMS_PROGRAM_ID
    ensures verdict.Accepted? <==> StandsAlone(ix, intent, limits)
  {
    ProgramsDiffer();
    if ix.programAddress == COMPUTE_BUDGET_PROGRAM_ID {
      if !ComputeBudgetOk(ix, limits) {
        return Rejected("compute_budget_mismatch");
      }
    } else if ix.programAddress == MEMO_PROGRAM_ID {
    } else if ix.programAddress == ASSOCIATED_TOKEN_PROGRAM_ID {
      if AccountAt(ix, 2) != Some(intent.wallet) {
        return Rejected("unexpected_instruction");
      }
    } else if ix.programAddress == SPL_TOKEN_PROGRAM_ID {
      if FirstByte(ix) != Some(CLOSE_ACCOUNT) {
        return Rejected("unexpected_instruction");
      }
      if AccountAt(ix, 1) != Some(intent.wallet) || AccountAt(ix, 2) != Some(intent.wallet) {
        return Rejected("unexpected_instruction");
      }
    } else {
      return Rejected("unexpected_instruction");
    }
    return Accepted;
  }

  method CheckInstruction(env: Environment, ix: Instruction, flags: Flags, intent: WithdrawalIntent, limits: Limits)
    returns (verdict: Verdict, next: Flags)
    ensures verdict.Accepted? <==> Admits(env, ix, flags, intent, limits)
    ensures verdict.Accepted? ==> next == After(flags, ix)
  {
    next := flags;
    if ix.programAddress == KAMINO_FARMS_PROGRAM_ID {
      ProgramsDiffer();
      next := next.(farmInstructionCount := flags.farmInstructionCount + 1);
      if next.farmInstructionCount == 1 {
        if !IsFarmUnstake(ix, intent.wallet, intent.farm) {
          return Rejected("farm_instruction_mismatch"), next;
        }
        next := next.(farmUserState := Some(ix.accounts[1]));
      } else if next.farmInstructionCount == 2 {
        if !IsFarmWithdraw(env, ix, intent.wallet, intent.farm, intent.shareMint, flags.farmUserState) {
          return Rejected("farm_instruction_mismatch"), next;
        }
      } else {
        return Rejected("farm_instruction_mismatch"), next;
      }
    } else if ix.programAddress == KVAULT_PROGRAM_ID {
      if flags.sawWithdraw || !KvaultWithdrawOk(env, ix, WithdrawalExpectation(intent)) {
        return Rejected("withdraw_mismatch"), next;
      }
      next := next.(sawWithdraw := true);
    } else {
      verdict := ValidateStandalone(ix, intent, limits);
      return verdict, next;
    }
    return Accepted, next;
  }

  method ValidateWithdrawalInstructions(
    env: Environment, instructions: seq<Instruction>, intent: WithdrawalIntent, limits: Limits)
    returns (verdict: Verdict)
    ensures verdict.Accepted? <==> WithdrawalGrammar(env, instructions, intent, limits)
  {
    AcceptedIsPrefixOk(env, instructions, intent, limits);
    var flags := Flags(false, 0, None);
    var i := 0;
    assert instructions[..0] == [];
    while i < |instructions|
      invariant 0 <= i <= |instructions|
      invariant PrefixOk(env, instructions[..i], intent, limits)
      invariant FlagsOf(flags, instructions[..i])
    {
      PrefixGrows(env, instructions, i, flags, intent, limits);
      var checked, next := CheckInstruction(env, instructions[i], flags, intent, limits);
      if checked.Rejected? {
        RejectedPrefix(env, instructions, i + 1, intent, limits);
        return checked;
      }
      flags := next;
      i := i + 1;
    }
    assert instructions[..i] == instructions;
    if !flags.sawWithdraw {
      return Rejected("missing_instruction");
    }
    if flags.farmInstructionCount == 1 {
      return Rejected("farm_instruction_mismatch");
    }
    return Accepted;
  }

  lemma RejectedPrefix(env: Environment, ixs: seq<Instruction>, n: nat, intent: WithdrawalIntent, limits: Limits)
    requires n <= |ixs| && !PrefixOk(env, ixs[..n], intent, limits)
    ensures !WithdrawalGrammar(env, ixs, intent, limits)
  {
    AcceptedIsPrefixOk(env, ixs, intent, limits);
    if PrefixOk(env, ixs, intent, limits) {
      PrefixesOfAccepted(env, ixs, n, intent, limits);
    }
  }
}
