/**
  What an accepted payment transaction does when the chain executes it, under a small token-account semantics:
  transfers need the balance, closing needs a zero balance, and the vault pays out an amount of its own choosing.
 */
module SettlementSemantics {
  import opened Wrappers
  import opened Bytes
  import opened TransactionIntentValidator

  /** Open token accounts with their balances, accounts created but not initialized, and shares burned so far. */
  datatype Chain = Chain(tokens: map<Address, nat>, created: set<Address>, burned: nat)

  /** One instruction; None when the chain fails it, and with it the whole transaction. */
  function Execute(ix: Instruction, s: Chain, output: nat): Option<Chain> {
    if ix.programAddress == COMPUTE_BUDGET_PROGRAM_ID || ix.programAddress == MEMO_PROGRAM_ID
       || ix.programAddress == KAMINO_FARMS_PROGRAM_ID then Some(s)
    else if ix.programAddress == SYSTEM_PROGRAM_ID then
      if |ix.accounts| > 1 && ix.accounts[1] !in s.tokens && ix.accounts[1] !in s.created
      then Some(s.(created := s.created + {ix.accounts[1]})) else None
    else if ix.programAddress == KVAULT_PROGRAM_ID then
      if |ix.accounts| > 5 && ix.accounts[5] in s.tokens && |ix.data| >= 16
      then Some(s.(tokens := s.tokens[ix.accounts[5] := s.tokens[ix.accounts[5]] + output],
                   burned := s.burned + LittleEndian(ix.data[8..16])))
      else None
    else if ix.programAddress == SPL_TOKEN_PROGRAM_ID then
      if FirstByte(ix) == Some(INITIALIZE_ACCOUNT_3) then
        if |ix.accounts| > 0 && ix.accounts[0] in s.created
        then Some(s.(tokens := s.tokens[ix.accounts[0] := 0], created := s.created - {ix.accounts[0]})) else None
      else if FirstByte(ix) == Some(TRANSFER_CHECKED) then ExecuteTransfer(ix, s)
      else if FirstByte(ix) == Some(CLOSE_ACCOUNT) then
        if |ix.accounts| > 0 && ix.accounts[0] in s.tokens && s.tokens[ix.accounts[0]] == 0
        then Some(s.(tokens := s.tokens - {ix.accounts[0]})) else None
      else None
    else None
  }

  function ExecuteTransfer(ix: Instruction, s: Chain): Option<Chain> {
    if |ix.accounts| > 2 && |ix.data| >= 9 && ix.accounts[0] in s.tokens && ix.accounts[2] in s.tokens
       && LittleEndian(ix.data[1..9]) <= s.tokens[ix.accounts[0]]
    then
      var amount := LittleEndian(ix.data[1..9]);
      var debited := s.tokens[ix.accounts[0] := s.tokens[ix.accounts[0]] - amount];
      Some(s.(tokens := debited[ix.accounts[2] := debited[ix.accounts[2]] + amount]))
    else None
  }

  function ExecuteAll(ixs: seq<Instruction>, s: Chain, output: nat): Option<Chain>
    decreases |ixs|
  {
    if ixs == [] then Some(s)
    else
      match Execute(ixs[0], s, output)
      case None => None
      case Some(t) => ExecuteAll(ixs[1..], t, output)
  }

  // ---- the effect of each accepted instruction

  lemma SetupEffect(env: Environment, ixs: seq<Instruction>, intent: PaymentIntent, limits: Limits, farm: bool,
                    dust: bool,
                    s: Chain, output: nat)
    requires PaymentForm(env, ixs, intent, limits, farm, dust)
    requires ExecuteAll(ixs, s, output).Some?
    ensures intent.temporaryAccount !in s.tokens
    ensures
      var f := if farm then 2 else 0;
      ExecuteAll(ixs, s, output)
      == ExecuteAll(ixs[4 + f..], Opened(s, intent.temporaryAccount), output)
  {
    ProgramsDiffer();
    var temp := intent.temporaryAccount;
    var s1 := s.(created := s.created + {temp});
    Unfold(ixs, s, output);
    Unfold(ixs[1..], s, output);
    Unfold(ixs[2..], s, output);
    assert Execute(ixs[2], s, output) == Some(s1);
    Unfold(ixs[3..], s1, output);
    assert Execute(ixs[3], s1, output) == Some(Opened(s, temp)) by {
      assert s1.created - {temp} == s.created;
    }
    if farm {
      Unfold(ixs[4..], Opened(s, temp), output);
      Unfold(ixs[5..], Opened(s, temp), output);
    }
  }

  function Opened(s: Chain, account: Address): Chain {
    s.(tokens := s.tokens[account := 0])
  }

  /** Running a list runs its head first. */
  lemma Unfold(ixs: seq<Instruction>, s: Chain, output: nat)
    requires ixs != []
    ensures ExecuteAll(ixs, s, output)
            == match Execute(ixs[0], s, output) { case None => None case Some(t) => ExecuteAll(ixs[1..], t, output) }
  {
  }

  /** What account x holds after the payment: the seller's amount, the wallet's remainder, and nothing else moves. */
  function Paid(s: Chain, x: Address, intent: PaymentIntent, output: nat): int
    requires x in s.tokens
  {
    s.tokens[x]
    + (if x == intent.sellerUsdcAta then intent.amountRawUsdc else 0)
    + (if x == intent.dustRecipientUsdcAta then output - intent.amountRawUsdc else 0)
  }

  ghost predicate PaysExactly(s: Chain, t: Chain, intent: PaymentIntent, output: nat) {
    && output >= intent.amountRawUsdc
    && t.tokens.Keys == s.tokens.Keys
    && (forall x | x in s.tokens :: t.tokens[x] == Paid(s, x, intent, output))
    && intent.temporaryAccount !in t.tokens
    && s.burned <= t.burned <= s.burned + intent.maxSharesToRedeemRaw
  }

  /** The tokens once the vault has paid into the temporary account and the seller has been paid from it. */
  function SellerPaid(s: Chain, intent: PaymentIntent, output: nat): map<Address, nat>
    requires intent.sellerUsdcAta in s.tokens && output >= intent.amountRawUsdc
  {
    s.tokens[intent.temporaryAccount := output - intent.amountRawUsdc]
            [intent.sellerUsdcAta := s.tokens[intent.sellerUsdcAta] + intent.amountRawUsdc]
  }

  lemma WithdrawAndPay(env: Environment, ixs: seq<Instruction>, intent: PaymentIntent, s: Chain, output: nat)
    returns (paid: Chain)
    requires |ixs| >= 2 && IsPaymentWithdraw(env, ixs[0], intent) && IsSellerTransfer(ixs[1], intent)
    requires intent.temporaryAccount !in s.tokens && intent.sellerUsdcAta in s.tokens
    requires ExecuteAll(ixs, Opened(s, intent.temporaryAccount), output).Some?
    ensures output >= intent.amountRawUsdc && paid.tokens == SellerPaid(s, intent, output)
    ensures s.burned <= paid.burned <= s.burned + intent.maxSharesToRedeemRaw
    ensures ExecuteAll(ixs, Opened(s, intent.temporaryAccount), output) == ExecuteAll(ixs[2..], paid, output)
  {
    ProgramsDiffer();
    var temp := intent.temporaryAccount;
    var s0 := Opened(s, temp);
    Unfold(ixs, s0, output);
    var s1 := Execute(ixs[0], s0, output).value;
    assert s1.tokens == s.tokens[temp := output];
    Unfold(ixs[1..], s1, output);
    TransferEffect(ixs[1], s1, temp, intent.sellerUsdcAta, intent.amountRawUsdc);
    paid := Execute(ixs[1], s1, output).value;
    assert paid.tokens == SellerPaid(s, intent, output);
    assert ixs[1..][1..] == ixs[2..];
  }

  /** Withdraw into the temporary account, pay the seller, sweep the rest if there is any, close. */
  lemma SettlementEffect(env: Environment, ixs: seq<Instruction>, intent: PaymentIntent, dust: bool, s: Chain,
                         output: nat)
    requires SettlementTail(env, ixs, intent, dust)
    requires intent.temporaryAccount !in s.tokens
    requires intent.sellerUsdcAta in s.tokens && intent.dustRecipientUsdcAta in s.tokens
    requires ExecuteAll(ixs, Opened(s, intent.temporaryAccount), output).Some?
    ensures PaysExactly(s, ExecuteAll(ixs, Opened(s, intent.temporaryAccount), output).value, intent, output)
  {
    var paid := WithdrawAndPay(env, ixs, intent, s, output);
    if dust {
      Unfold(ixs[2..], paid, output);
      TransferEffect(ixs[2], paid, intent.temporaryAccount, intent.dustRecipientUsdcAta,
                     LittleEndian(ixs[2].data[1..9]));
      var swept := Execute(ixs[2], paid, output).value;
      assert ixs[2..][1..] == ixs[3..];
      CloseEffect(env, ixs[3..], intent, swept, output);
    } else {
      CloseEffect(env, ixs[2..], intent, paid, output);
    }
  }

  lemma CloseEffect(env: Environment, closing: seq<Instruction>, intent: PaymentIntent, s: Chain, output: nat)
    requires |closing| == 2 && IsPaymentClose(closing[0], intent) && IsMemo(env, closing[1], intent.memo)
    requires ExecuteAll(closing, s, output).Some?
    ensures intent.temporaryAccount in s.tokens && s.tokens[intent.temporaryAccount] == 0
    ensures ExecuteAll(closing, s, output) == Some(s.(tokens := s.tokens - {intent.temporaryAccount}))
  {
    ProgramsDiffer();
    Unfold(closing, s, output);
    var t := Execute(closing[0], s, output).value;
    Unfold(closing[1..], t, output);
    assert closing[1..][1..] == [];
  }

  lemma TransferEffect(ix: Instruction, s: Chain, source: Address, destination: Address, amount: nat)
    requires LooksLikeTransfer(ix) && Execute(ix, s, 0).Some?
    requires |ix.accounts| > 2 && ix.accounts[0] == source && ix.accounts[2] == destination && source != destination
    requires |ix.data| >= 9 && LittleEndian(ix.data[1..9]) == amount
    ensures forall output: nat :: Execute(ix, s, output) == Execute(ix, s, 0)
    ensures source in s.tokens && destination in s.tokens && s.tokens[source] >= amount
    ensures Execute(ix, s, 0).value
            == s.(tokens := s.tokens[source := s.tokens[source] - amount]
                                    [destination := s.tokens[destination] + amount])
  {
    ProgramsDiffer();
  }

  /** Read from the whole check: the remainder's account belongs to the wallet, the seller's to the payee. */
  lemma AcceptedTransactionPaysExactly(
    env: Environment, tx: DecodedTransaction, intent: PaymentIntent, vault: VaultConfig, limits: Limits, now: int,
    s: Chain, output: nat)
    requires PaymentTransactionOk(env, tx, intent, vault, limits, now)
    requires env.associatedTokenAddress(intent.payTo, vault.usdcMint) in s.tokens
    requires env.associatedTokenAddress(intent.wallet, vault.usdcMint) in s.tokens
    requires ExecuteAll(tx.instructions, s, output).Some?
    ensures
      var t := ExecuteAll(tx.instructions, s, output).value;
      var seller := env.associatedTokenAddress(intent.payTo, vault.usdcMint);
      var own := env.associatedTokenAddress(intent.wallet, vault.usdcMint);
      && t.tokens.Keys == s.tokens.Keys
      && (seller != own ==> t.tokens[seller] == s.tokens[seller] + intent.amountRawUsdc
                            && t.tokens[own] == s.tokens[own] + output - intent.amountRawUsdc)
      && (seller == own ==> t.tokens[own] == s.tokens[own] + output)
      && (forall x | x in s.tokens && x != seller && x != own :: t.tokens[x] == s.tokens[x])
      && t.burned <= s.burned + intent.maxSharesToRedeemRaw
  {
    AcceptedPaymentPaysExactly(env, tx.instructions, intent, limits, s, output);
  }

  /**
    Every accepted payment list that executes pays the seller the intent amount exactly, sends whatever the vault paid
    beyond it to the wallet's own account only, leaves no temporary account and touches no other, and burns at most
    the approved shares.
   */
  lemma AcceptedPaymentPaysExactly(
    env: Environment, ixs: seq<Instruction>, intent: PaymentIntent, limits: Limits, s: Chain, output: nat)
    requires PaymentGrammar(env, ixs, intent, limits)
    requires intent.sellerUsdcAta in s.tokens && intent.dustRecipientUsdcAta in s.tokens
    requires ExecuteAll(ixs, s, output).Some?
    ensures PaysExactly(s, ExecuteAll(ixs, s, output).value, intent, output)
  {
    var farm, dust :| PaymentForm(env, ixs, intent, limits, farm, dust);
    var f := if farm then 2 else 0;
    SetupEffect(env, ixs, intent, limits, farm, dust, s, output);
    var tail := ixs[4 + f..];
    assert SettlementTail(env, tail, intent, dust);
    SettlementEffect(env, tail, intent, dust, s, output);
  }
}
