/**
  The settlement transaction as the relayer builds it: a probe loop that settles on a number of shares, and the
  canonical instruction list.  Whatever the builder returns, the signer's validator accepts.
 */
module KaminoTransactionBuilder {
  import opened Wrappers
  import opened RawUnits
  import opened Bytes
  import opened ModularArithmetic
  import opened TransactionIntentValidator

  const MAX_PROBES: nat := 4

  /** The outcome of a probe simulation: None when it errs, else what lands in the temporary account. */
  type Simulation = nat -> Option<nat>

  datatype Probe = Covered(shares: nat, output: nat) | NotCovered | SimulationFailed

  /** The probe loop as a recursion over the attempts left. */
  function ProbeFrom(
    simulate: Simulation, shares: nat, approved: nat, amount: nat, rate: nat, attempts: nat): (r: Probe)
    requires rate > 0
    ensures r.Covered? && shares <= approved ==> shares <= r.shares <= approved
    ensures r.Covered? ==> simulate(r.shares) == Some(r.output) && r.output >= amount
    decreases attempts
  {
    if attempts == 0 then NotCovered
    else
      match simulate(shares)
      case None => SimulationFailed
      case Some(output) =>
        if output >= amount then Covered(shares, output)
        else
          var bump := Max(1, CeilDiv((amount - output) * RATE_SCALE, rate));
          if shares + bump > approved then NotCovered
          else ProbeFrom(simulate, shares + bump, approved, amount, rate, attempts - 1)
  }

  /** Starts from the exact quote, never above what the signer approved, and never probes beyond it. */
  method ProbeShares(simulate: Simulation, exactShares: nat, approved: nat, amount: nat, rate: nat) returns (r: Probe)
    requires rate > 0
    ensures r == ProbeFrom(simulate, Min(exactShares, approved), approved, amount, rate, MAX_PROBES)
    ensures r.Covered? ==> r.shares <= approved && r.output >= amount
  {
    var shares: nat := Min(exactShares, approved);
    var attempt := 0;
    while attempt < MAX_PROBES
      invariant 0 <= attempt <= MAX_PROBES && shares <= approved
      invariant ProbeFrom(simulate, Min(exactShares, approved), approved, amount, rate, MAX_PROBES)
                == ProbeFrom(simulate, shares, approved, amount, rate, MAX_PROBES - attempt)
    {
      var probe := simulate(shares);
      if probe.None? {
        return SimulationFailed;
      }
      var output := probe.value;
      if output >= amount {
        return Covered(shares, output);
      }
      var deficit := amount - output;
      var bump := Max(1, CeilDiv(deficit * RATE_SCALE, rate));
      if shares + bump > approved {
        return NotCovered;
      }
      shares := shares + bump;
      attempt := attempt + 1;
    }
    return NotCovered;
  }

  // ---- encoding

  /** Inverses of the environment's decoders, for the texts that occur in a built transaction. */
  datatype Encoders = Encoders(address: Address -> seq<Byte>, memo: string -> seq<Byte>)

  predicate Encodes(env: Environment, encoders: Encoders, account: Address) {
    |encoders.address(account)| == 32 && env.base58(encoders.address(account)) == account
  }

  datatype BuildInput = BuildInput(
    intent: PaymentIntent,
    computeUnitLimit: nat,
    computeUnitPriceMicroLamports: nat,
    rentLamports: nat,
    unstakeIxs: seq<Instruction>,   // the farm plan of the vault SDK, empty when no unstake is needed
    vaultAccounts: seq<Address>)    // the vault program's other accounts: global config, vault tokens, authority

  function BudgetInstruction(discriminator: Byte, value: nat, width: nat): Instruction {
    Instruction(COMPUTE_BUDGET_PROGRAM_ID, [], [discriminator] + LittleEndianBytes(value, width))
  }

  function CreateAccountData(encoders: Encoders, lamports: nat): seq<Byte> {
    LittleEndianBytes(0, 4) + LittleEndianBytes(lamports, 8) + LittleEndianBytes(TOKEN_ACCOUNT_SIZE, 8)
    + encoders.address(SPL_TOKEN_PROGRAM_ID)
  }

  function KvaultWithdraw(env: Environment, input: BuildInput, shares: nat): Instruction
    requires |input.vaultAccounts| == 3
  {
    var intent := input.intent;
    Instruction(KVAULT_PROGRAM_ID,
                [intent.wallet, intent.vault, input.vaultAccounts[0], input.vaultAccounts[1], input.vaultAccounts[2],
                 intent.temporaryAccount, intent.asset, env.associatedTokenAddress(intent.wallet, intent.shareMint),
                 intent.shareMint],
                KVAULT_WITHDRAW_DISCRIMINATOR + LittleEndianBytes(shares, 8))
  }

  function TransferChecked(
    source: Address, mint: Address, destination: Address, authority: Address, amount: nat): Instruction
  {
    Instruction(SPL_TOKEN_PROGRAM_ID, [source, mint, destination, authority],
                [TRANSFER_CHECKED] + LittleEndianBytes(amount, 8) + [USDC_DECIMALS])
  }

  function Setup(encoders: Encoders, input: BuildInput): seq<Instruction> {
    var intent := input.intent;
    [BudgetInstruction(2, input.computeUnitLimit, 4),
     BudgetInstruction(3, input.computeUnitPriceMicroLamports, 8),
     Instruction(SYSTEM_PROGRAM_ID, [intent.feePayer, intent.temporaryAccount],
                 CreateAccountData(encoders, input.rentLamports)),
     Instruction(SPL_TOKEN_PROGRAM_ID, [intent.temporaryAccount, intent.asset],
                 [INITIALIZE_ACCOUNT_3] + encoders.address(intent.wallet))]
  }

  function Prefix(env: Environment, encoders: Encoders, input: BuildInput, shares: nat): seq<Instruction>
    requires |input.vaultAccounts| == 3
  {
    Setup(encoders, input) + input.unstakeIxs + [KvaultWithdraw(env, input, shares)]
  }

  /** The list grows by push: the seller's transfer, a sweep only when something is left over, the close, the memo. */
  method BuildInstructions(env: Environment, encoders: Encoders, input: BuildInput, shares: nat, output: nat)
    returns (instructions: seq<Instruction>)
    requires |input.vaultAccounts| == 3 && output >= input.intent.amountRawUsdc
    ensures instructions == Built(env, encoders, input, shares, output)
  {
    var intent := input.intent;
    instructions := Prefix(env, encoders, input, shares);
    instructions := instructions + [TransferChecked(intent.temporaryAccount, intent.asset, intent.sellerUsdcAta,
                                                    intent.wallet, intent.amountRawUsdc)];
    var dust := output - intent.amountRawUsdc;
    if dust > 0 {
      instructions := instructions
                      + [TransferChecked(intent.temporaryAccount, intent.asset, intent.dustRecipientUsdcAta,
                                                      intent.wallet, dust)];
    }
    instructions := instructions
      + [Instruction(SPL_TOKEN_PROGRAM_ID, [intent.temporaryAccount, intent.feePayer, intent.wallet], [CLOSE_ACCOUNT]),
         Instruction(MEMO_PROGRAM_ID, [], encoders.memo(intent.memo))];
    BuiltUnfolds(env, encoders, input, shares, output, instructions);
  }

  function Tail(env: Environment, encoders: Encoders, input: BuildInput, shares: nat, output: nat): seq<Instruction>
    requires |input.vaultAccounts| == 3 && output >= input.intent.amountRawUsdc
  {
    var intent := input.intent;
    [KvaultWithdraw(env, input, shares),
     TransferChecked(intent.temporaryAccount, intent.asset, intent.sellerUsdcAta, intent.wallet, intent.amountRawUsdc)]
    + (if output > intent.amountRawUsdc then
         [TransferChecked(intent.temporaryAccount, intent.asset, intent.dustRecipientUsdcAta, intent.wallet,
                          output - intent.amountRawUsdc)]
       else [])
    + [Instruction(SPL_TOKEN_PROGRAM_ID, [intent.temporaryAccount, intent.feePayer, intent.wallet], [CLOSE_ACCOUNT]),
       Instruction(MEMO_PROGRAM_ID, [], encoders.memo(intent.memo))]
  }

  function Built(env: Environment, encoders: Encoders, input: BuildInput, shares: nat, output: nat): seq<Instruction>
    requires |input.vaultAccounts| == 3 && output >= input.intent.amountRawUsdc
  {
    Setup(encoders, input) + input.unstakeIxs + Tail(env, encoders, input, shares, output)
  }

  lemma BuiltUnfolds(env: Environment, encoders: Encoders, input: BuildInput, shares: nat, output: nat,
                     pushed: seq<Instruction>)
    requires |input.vaultAccounts| == 3 && output >= input.intent.amountRawUsdc
    requires
      var intent := input.intent;
      pushed == Prefix(env, encoders, input, shares)
                + [TransferChecked(intent.temporaryAccount, intent.asset, intent.sellerUsdcAta, intent.wallet,
                                   intent.amountRawUsdc)]
                + (if output > intent.amountRawUsdc then
                     [TransferChecked(intent.temporaryAccount, intent.asset, intent.dustRecipientUsdcAta, intent.wallet,
                                      output - intent.amountRawUsdc)]
                   else [])
                + [Instruction(SPL_TOKEN_PROGRAM_ID, [intent.temporaryAccount, intent.feePayer, intent.wallet],
                               [CLOSE_ACCOUNT]),
                   Instruction(MEMO_PROGRAM_ID, [], encoders.memo(intent.memo))]
    ensures pushed == Built(env, encoders, input, shares, output)
  {
  }

  // ---- everything built is accepted

  const U64_BOUND: nat := 0x1_0000_0000_0000_0000
  const U32_BOUND: nat := 0x1_0000_0000

  /** What the relayer and the vault SDK supply: figures that fit their fields and policy, and a canonical farm plan. */
  predicate Buildable(env: Environment, encoders: Encoders, input: BuildInput, limits: Limits) {
    && |input.vaultAccounts| == 3
    && 0 < input.computeUnitLimit <= limits.maxComputeUnitLimit && input.computeUnitLimit < U32_BOUND
    && input.computeUnitPriceMicroLamports <= limits.maxComputeUnitPriceMicroLamports
    && input.computeUnitPriceMicroLamports < U64_BOUND
    && input.rentLamports <= limits.maxTemporaryAccountLamports && input.rentLamports < U64_BOUND
    && (input.unstakeIxs == []
        || (|input.unstakeIxs| == 2 && IsFarmPair(env, input.unstakeIxs[0], input.unstakeIxs[1], input.intent)))
    && Encodes(env, encoders, SPL_TOKEN_PROGRAM_ID) && Encodes(env, encoders, input.intent.wallet)
    && env.utf8(encoders.memo(input.intent.memo)) == input.intent.memo
    && input.intent.amountRawUsdc < U64_BOUND
  }

  lemma FieldReads(before: seq<Byte>, n: nat, width: nat, after: seq<Byte>)
    requires n < Pow(256, width)
    ensures ReadLE(before + LittleEndianBytes(n, width) + after, |before|, width) == Some(n)
  {
    var data := before + LittleEndianBytes(n, width) + after;
    assert data[|before|..|before| + width] == LittleEndianBytes(n, width);
    LittleEndianRoundTrip(n, width);
  }

  lemma FieldBounds()
    ensures Pow(256, 8) == U64_BOUND && Pow(256, 4) == U32_BOUND
  {
    assert Pow(256, 2) == 65536;
    PowAdds(256, 2, 2);
    PowAdds(256, 4, 4);
  }

  lemma SetupAccepted(env: Environment, encoders: Encoders, input: BuildInput, limits: Limits)
    requires Buildable(env, encoders, input, limits)
    ensures
      var setup := Setup(encoders, input);
      && IsComputeBudget(setup[0], 2, limits) && IsComputeBudget(setup[1], 3, limits)
      && IsCreateTemporaryAccount(env, setup[2], input.intent, limits)
      && IsInitializeTemporaryAccount(env, setup[3], input.intent)
  {
    FieldBounds();
    BudgetAccepted(2, input.computeUnitLimit, 4);
    BudgetAccepted(3, input.computeUnitPriceMicroLamports, 8);
    CreateAccountReads(env, encoders, input.rentLamports);
    var wallet := encoders.address(input.intent.wallet);
    assert ([INITIALIZE_ACCOUNT_3] + wallet)[1..33] == wallet;
  }

  lemma BudgetAccepted(discriminator: Byte, value: nat, width: nat)
    requires value < Pow(256, width)
    ensures ReadLE(BudgetInstruction(discriminator, value, width).data, 1, width) == Some(value)
  {
    FieldReads([discriminator], value, width, []);
    assert BudgetInstruction(discriminator, value, width).data
           == [discriminator] + LittleEndianBytes(value, width) + [];
  }

  lemma FourFields(a: seq<Byte>, b: seq<Byte>, c: seq<Byte>, d: seq<Byte>)
    requires |a| == 4 && |b| == 8 && |c| == 8 && |d| == 32
    ensures
      var data := a + b + c + d;
      |data| == 52 && data[0..4] == a && data[4..12] == b && data[12..20] == c && data[20..52] == d
  {
  }

  lemma CreateAccountReads(env: Environment, encoders: Encoders, lamports: nat)
    requires Encodes(env, encoders, SPL_TOKEN_PROGRAM_ID) && lamports < U64_BOUND
    ensures
      var data := CreateAccountData(encoders, lamports);
      && |data| == 52 && ReadLE(data, 0, 4) == Some(0) && ReadLE(data, 4, 8) == Some(lamports)
      && ReadLE(data, 12, 8) == Some(TOKEN_ACCOUNT_SIZE)
      && data[20..52] == encoders.address(SPL_TOKEN_PROGRAM_ID)
  {
    FieldBounds();
    FourFields(LittleEndianBytes(0, 4), LittleEndianBytes(lamports, 8), LittleEndianBytes(TOKEN_ACCOUNT_SIZE, 8),
               encoders.address(SPL_TOKEN_PROGRAM_ID));
    LittleEndianRoundTrip(0, 4);
    LittleEndianRoundTrip(lamports, 8);
    LittleEndianRoundTrip(TOKEN_ACCOUNT_SIZE, 8);
  }

  lemma TransferAccepted(source: Address, mint: Address, destination: Address, authority: Address, amount: nat)
    requires amount < U64_BOUND
    ensures IsTransferChecked(TransferChecked(source, mint, destination, authority, amount),
                              source, mint, destination, authority, Some(amount))
  {
    FieldBounds();
    FieldReads([TRANSFER_CHECKED], amount, 8, [USDC_DECIMALS]);
  }

  lemma WithdrawAccepted(env: Environment, input: BuildInput, shares: nat)
    requires |input.vaultAccounts| == 3 && shares < U64_MAX && shares <= input.intent.maxSharesToRedeemRaw
    ensures IsPaymentWithdraw(env, KvaultWithdraw(env, input, shares), input.intent)
  {
    FieldBounds();
    FieldReads(KVAULT_WITHDRAW_DISCRIMINATOR, shares, 8, []);
    assert KvaultWithdraw(env, input, shares).data == KVAULT_WITHDRAW_DISCRIMINATOR + LittleEndianBytes(shares, 8) + [];
  }

  lemma TailAccepted(env: Environment, encoders: Encoders, input: BuildInput, limits: Limits, shares: nat, output: nat)
    requires Buildable(env, encoders, input, limits)
    requires shares < U64_MAX && shares <= input.intent.maxSharesToRedeemRaw
    requires input.intent.amountRawUsdc <= output < U64_BOUND
    ensures SettlementTail(env, Tail(env, encoders, input, shares, output), input.intent,
                           output > input.intent.amountRawUsdc)
  {
    var intent := input.intent;
    WithdrawAccepted(env, input, shares);
    TransferAccepted(intent.temporaryAccount, intent.asset, intent.sellerUsdcAta, intent.wallet, intent.amountRawUsdc);
    TransferAccepted(intent.temporaryAccount, intent.asset, intent.dustRecipientUsdcAta, intent.wallet,
                     output - intent.amountRawUsdc);
  }

  /** Whatever shares the probe settles on within the approval, the signer's validator accepts the built list. */
  lemma BuiltListIsAccepted(
    env: Environment, encoders: Encoders, input: BuildInput, limits: Limits, shares: nat, output: nat)
    requires Buildable(env, encoders, input, limits)
    requires shares < U64_MAX && shares <= input.intent.maxSharesToRedeemRaw
    requires input.intent.amountRawUsdc <= output < U64_BOUND
    ensures PaymentGrammar(env, Built(env, encoders, input, shares, output), input.intent, limits)
  {
    SetupAccepted(env, encoders, input, limits);
    TailAccepted(env, encoders, input, limits, shares, output);
    var dust := output > input.intent.amountRawUsdc;
    var farm := input.unstakeIxs != [];
    AssembledForm(env, Setup(encoders, input), input.unstakeIxs, Tail(env, encoders, input, shares, output),
                  input.intent,
                  limits, farm, dust);
  }

  lemma Positions(setup: seq<Instruction>, farmIxs: seq<Instruction>, tail: seq<Instruction>)
    requires |setup| == 4
    ensures
      var ixs := setup + farmIxs + tail;
      && |ixs| == 4 + |farmIxs| + |tail|
      && (forall k | 0 <= k < 4 :: ixs[k] == setup[k])
      && (forall k | 0 <= k < |farmIxs| :: ixs[4 + k] == farmIxs[k])
      && (forall k | 0 <= k < |tail| :: ixs[4 + |farmIxs| + k] == tail[k])
  {
  }

  lemma AssembledForm(env: Environment, setup: seq<Instruction>, farmIxs: seq<Instruction>, tail: seq<Instruction>,
                      intent: PaymentIntent, limits: Limits, farm: bool, dust: bool)
    requires |setup| == 4 && IsComputeBudget(setup[0], 2, limits) && IsComputeBudget(setup[1], 3, limits)
    requires IsCreateTemporaryAccount(env, setup[2], intent, limits)
             && IsInitializeTemporaryAccount(env, setup[3], intent)
    requires if farm then |farmIxs| == 2 && IsFarmPair(env, farmIxs[0], farmIxs[1], intent) else farmIxs == []
    requires SettlementTail(env, tail, intent, dust)
    ensures PaymentForm(env, setup + farmIxs + tail, intent, limits, farm, dust)
  {
    Positions(setup, farmIxs, tail);
    FormFromParts(env, setup + farmIxs + tail, setup, farmIxs, tail, intent, limits, farm, dust);
  }

  lemma FormFromParts(env: Environment, ixs: seq<Instruction>, setup: seq<Instruction>, farmIxs: seq<Instruction>,
                      tail: seq<Instruction>, intent: PaymentIntent, limits: Limits, farm: bool, dust: bool)
    requires |setup| == 4 && IsComputeBudget(setup[0], 2, limits) && IsComputeBudget(setup[1], 3, limits)
    requires IsCreateTemporaryAccount(env, setup[2], intent, limits)
             && IsInitializeTemporaryAccount(env, setup[3], intent)
    requires if farm then |farmIxs| == 2 && IsFarmPair(env, farmIxs[0], farmIxs[1], intent) else farmIxs == []
    requires SettlementTail(env, tail, intent, dust)
    requires |ixs| == 4 + |farmIxs| + |tail|
    requires forall k | 0 <= k < 4 :: ixs[k] == setup[k]
    requires forall k | 0 <= k < |farmIxs| :: ixs[4 + k] == farmIxs[k]
    requires forall k | 0 <= k < |tail| :: ixs[4 + |farmIxs| + k] == tail[k]
    ensures PaymentForm(env, ixs, intent, limits, farm, dust)
  {
    var f, d := |farmIxs|, if dust then 1 else 0;
    assert ixs[4 + f + 0] == tail[0] && ixs[4 + f + 1] == tail[1];
    assert ixs[4 + f + (2 + d)] == tail[2 + d] && ixs[4 + f + (3 + d)] == tail[3 + d];
    assert farm ==> ixs[4 + 0] == farmIxs[0] && ixs[4 + 1] == farmIxs[1];
    assert dust ==> ixs[4 + f + 2] == tail[2];
  }

  /** The probe's result is always within the approval, so building on it is always accepted. */
  lemma ProbedListIsAccepted(
    env: Environment, encoders: Encoders, input: BuildInput, limits: Limits,
    simulate: Simulation, exactShares: nat, rate: nat)
    requires rate > 0 && Buildable(env, encoders, input, limits)
    requires input.intent.maxSharesToRedeemRaw < U64_MAX
    ensures
      var approved := input.intent.maxSharesToRedeemRaw;
      var probe := ProbeFrom(simulate, Min(exactShares, approved), approved, input.intent.amountRawUsdc, rate,
                             MAX_PROBES);
      probe.Covered? && probe.output < U64_BOUND ==>
        PaymentGrammar(env, Built(env, encoders, input, probe.shares, probe.output), input.intent, limits)
  {
    var approved := input.intent.maxSharesToRedeemRaw;
    var probe := ProbeFrom(simulate, Min(exactShares, approved), approved, input.intent.amountRawUsdc, rate,
                           MAX_PROBES);
    if probe.Covered? && probe.output < U64_BOUND {
      BuiltListIsAccepted(env, encoders, input, limits, probe.shares, probe.output);
    }
  }
}
