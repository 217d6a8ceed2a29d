/** Withdrawal-penalty arithmetic of the vault and its inversion: the gross that nets out to a target. */
module VaultAdapter {
  import opened RawUnits
  import opened Wrappers

  const FULL_BPS: nat := 10_000

  datatype LiquidityError =
    | TargetNotPositive
    | ExchangeRateNotPositive
    | PenaltyConsumesWithdraw
    | BelowVaultMinimum
    | ExceedsInstantCapacity

  datatype SettlementWithdrawQuote = SettlementWithdrawQuote(
    requiredWithdrawRawUsdc: nat,
    sharesToRedeemRaw: nat,
    withdrawalPenaltyRawUsdc: nat,
    expectedNetOutputRawUsdc: int)

  /** The vault figures a quote reads. */
  datatype VaultContext = VaultContext(
    exchangeRateScaled: nat,
    withdrawalPenaltyBps: nat,
    withdrawalPenaltyLamports: nat,
    minWithdrawAmountRaw: nat,
    singleInstructionRedeemCapacityRawUsdc: nat)

  function WithdrawalPenaltyFor(gross: int, bps: nat, lamports: nat): (r: nat)
    ensures gross > 0 ==> r >= lamports && r * FULL_BPS >= gross * bps
    ensures gross <= 0 ==> r == 0
  {
    if gross <= 0 then 0
    else Max(CeilDiv(gross * bps, FULL_BPS), lamports)
  }

  function NetOf(gross: int, bps: nat, lamports: nat): int {
    gross - WithdrawalPenaltyFor(gross, bps, lamports)
  }

  /** Where the search of grossWithdrawForNetTarget starts. */
  function InitialGross(target: nat, bps: nat, lamports: nat): nat
    requires bps < FULL_BPS
  {
    Max(CeilDiv(target * FULL_BPS, FULL_BPS - bps), target + lamports)
  }

  predicate CoversTarget(gross: int, target: nat, bps: nat, lamports: nat) {
    NetOf(gross, bps, lamports) >= target
  }

  /** Percentage part alone: the ceiling-inverse of "gross minus ceil(gross * bps / FULL_BPS)" is exact. */
  lemma PercentageInversionIsExact(target: nat, bps: nat, gross: nat)
    requires bps < FULL_BPS
    requires gross == CeilDiv(target * FULL_BPS, FULL_BPS - bps)
    ensures gross - CeilDiv(gross * bps, FULL_BPS) == target
  {
    var penalty := CeilDiv(gross * bps, FULL_BPS);
    assert gross * (FULL_BPS - bps) == gross * FULL_BPS - gross * bps;
    assert target * FULL_BPS <= gross * (FULL_BPS - bps) < target * FULL_BPS + (FULL_BPS - bps);
  }

  /** The percentage net is monotone, so anything below the ceiling-inverse falls short. */
  lemma PercentageNetBelow(target: nat, bps: nat, gross: nat, lower: nat)
    requires bps < FULL_BPS
    requires gross == CeilDiv(target * FULL_BPS, FULL_BPS - bps)
    requires lower < gross
    ensures lower - CeilDiv(lower * bps, FULL_BPS) < target
  {
    var kept := FULL_BPS - bps;
    MulMonotone(lower, gross - 1, kept);
    assert (gross - 1) * kept == gross * kept - kept;
    assert lower * kept < target * FULL_BPS;
    assert lower * kept == lower * FULL_BPS - lower * bps;
    CeilDivAbove(lower * bps, FULL_BPS, lower - target);
  }

  lemma PercentageNetMonotone(low: nat, high: nat, bps: nat)
    requires bps < FULL_BPS
    requires low <= high
    ensures low - CeilDiv(low * bps, FULL_BPS) <= high - CeilDiv(high * bps, FULL_BPS)
  {
    assert (high - low) * bps <= (high - low) * FULL_BPS;
    assert (high - low) * bps == high * bps - low * bps;
  }

  /** The starting point already nets exactly the target: the correction loop has nothing to correct. */
  lemma InitialGrossNetsTheTarget(target: nat, bps: nat, lamports: nat)
    requires bps < FULL_BPS
    ensures NetOf(InitialGross(target, bps, lamports), bps, lamports) == target
  {
    var inverse := CeilDiv(target * FULL_BPS, FULL_BPS - bps);
    PercentageInversionIsExact(target, bps, inverse);
    if inverse < target + lamports {
      PercentageNetMonotone(inverse, target + lamports, bps);
    }
  }

  /** Everything from the starting point on covers the target. */
  lemma AboveInitialGrossCovers(target: nat, bps: nat, lamports: nat, gross: int)
    requires bps < FULL_BPS
    ensures gross >= InitialGross(target, bps, lamports) ==> CoversTarget(gross, target, bps, lamports)
  {
    var inverse := CeilDiv(target * FULL_BPS, FULL_BPS - bps);
    if gross >= InitialGross(target, bps, lamports) {
      PercentageInversionIsExact(target, bps, inverse);
      PercentageNetMonotone(inverse, gross, bps);
    }
  }

  /** No smaller gross covers a positive target. */
  lemma InitialGrossIsLeast(target: nat, bps: nat, lamports: nat, lower: int)
    requires bps < FULL_BPS
    requires target > 0 || lamports == 0
    requires lower < InitialGross(target, bps, lamports)
    ensures !CoversTarget(lower, target, bps, lamports)
  {
    var inverse := CeilDiv(target * FULL_BPS, FULL_BPS - bps);
    if target == 0 {
      CeilDivOfZero(FULL_BPS - bps);
    }
    if 0 < lower < inverse {
      PercentageNetBelow(target, bps, inverse, lower);
    }
  }

  /**
    The search result is the least gross covering the target exactly when the target is positive or the vault
    charges no flat penalty: for a zero target nothing needs to be withdrawn, yet the flat penalty is asked for.
   */
  lemma LeastExactlyWhen(target: nat, bps: nat, lamports: nat)
    requires bps < FULL_BPS
    ensures (forall lower | lower < InitialGross(target, bps, lamports) :: !CoversTarget(lower, target, bps, lamports))
            <==> target > 0 || lamports == 0
  {
    if target > 0 || lamports == 0 {
      forall lower | lower < InitialGross(target, bps, lamports)
        ensures !CoversTarget(lower, target, bps, lamports)
      {
        InitialGrossIsLeast(target, bps, lamports, lower);
      }
    } else {
      assert CoversTarget(0, target, bps, lamports);
    }
  }

  lemma ShortfallIsBelowInitialGross(target: nat, bps: nat, lamports: nat, gross: nat)
    requires bps < FULL_BPS
    requires !CoversTarget(gross, target, bps, lamports)
    ensures gross < InitialGross(target, bps, lamports)
    ensures gross >= lamports ==> NetOf(gross, bps, lamports) <= NetOf(gross + 1, bps, lamports)
  {
    AboveInitialGrossCovers(target, bps, lamports, gross);
    PercentageNetMonotone(gross, gross + 1, bps);
  }

  /** A covering gross that the search can reach without passing the starting point is the starting point. */
  lemma FirstCoveringGross(target: nat, bps: nat, lamports: nat, gross: nat)
    requires bps < FULL_BPS
    requires target + lamports <= gross <= InitialGross(target, bps, lamports)
    requires CoversTarget(gross, target, bps, lamports)
    ensures gross == InitialGross(target, bps, lamports)
  {
    if target > 0 {
      if gross < InitialGross(target, bps, lamports) {
        InitialGrossIsLeast(target, bps, lamports, gross);
        assert false;
      }
    } else {
      CeilDivOfZero(FULL_BPS - bps);
    }
  }

  method GrossWithdrawForNetTarget(target: nat, bps: nat, lamports: nat) returns (r: Result<nat, LiquidityError>)
    ensures r.Failure? <==> bps >= FULL_BPS
    ensures r.Success? ==> NetOf(r.value, bps, lamports) == target
    ensures r.Success? && (target > 0 || lamports == 0) ==>
              forall lower | lower < r.value :: !CoversTarget(lower, target, bps, lamports)
    ensures r.Success? ==> r.value == InitialGross(target, bps, lamports)
  {
    if bps >= FULL_BPS {
      return Failure(PenaltyConsumesWithdraw);
    }
    var gross := CeilDiv(target * FULL_BPS, FULL_BPS - bps);
    if gross < target + lamports {
      gross := target + lamports;
    }
    while NetOf(gross, bps, lamports) < target
      invariant target + lamports <= gross <= InitialGross(target, bps, lamports)
      decreases target - NetOf(gross, bps, lamports), InitialGross(target, bps, lamports) - gross
    {
      ShortfallIsBelowInitialGross(target, bps, lamports, gross);
      gross := gross + 1;
    }
    FirstCoveringGross(target, bps, lamports, gross);
    InitialGrossNetsTheTarget(target, bps, lamports);
    LeastExactlyWhen(target, bps, lamports);
    return Success(gross);
  }

  /** The quote a settlement is prepared from; an unserviceable one is refused, never rounded. */
  function SettlementQuoteFor(target: nat, context: VaultContext): (r: Result<SettlementWithdrawQuote, LiquidityError>)
    ensures r.Success? ==> target > 0 && context.exchangeRateScaled > 0
  {
    var bps, lamports := context.withdrawalPenaltyBps, context.withdrawalPenaltyLamports;
    if target == 0 then Failure(TargetNotPositive)
    else if context.exchangeRateScaled == 0 then Failure(ExchangeRateNotPositive)
    else if bps >= FULL_BPS then Failure(PenaltyConsumesWithdraw)
    else
      var gross := InitialGross(target, bps, lamports);
      if NetOf(gross, bps, lamports) <= context.minWithdrawAmountRaw then Failure(BelowVaultMinimum)
      else if gross > context.singleInstructionRedeemCapacityRawUsdc then Failure(ExceedsInstantCapacity)
      else
        Success(SettlementWithdrawQuote(gross, CeilDiv(gross * RATE_SCALE, context.exchangeRateScaled),
                                        WithdrawalPenaltyFor(gross, bps, lamports), NetOf(gross, bps, lamports)))
  }

  /**
    A quote expects exactly the requested amount, from the least gross and a burn less than one share too large; and
    it is refused exactly when the inputs are out of range or the vault cannot serve that gross at once.
   */
  lemma QuotesAreExact(target: nat, context: VaultContext)
    ensures
      var quoted := SettlementQuoteFor(target, context);
      var bps, lamports := context.withdrawalPenaltyBps, context.withdrawalPenaltyLamports;
      && (quoted.Success? <==>
            && target > context.minWithdrawAmountRaw && target > 0
            && context.exchangeRateScaled > 0 && bps < FULL_BPS
            && exists gross: nat | gross <= context.singleInstructionRedeemCapacityRawUsdc ::
                 CoversTarget(gross, target, bps, lamports))
      && (quoted.Success? ==>
            var quote := quoted.value;
            && quote.expectedNetOutputRawUsdc == target
            && quote.requiredWithdrawRawUsdc == target + quote.withdrawalPenaltyRawUsdc
            && quote.requiredWithdrawRawUsdc <= context.singleInstructionRedeemCapacityRawUsdc
            && quote.requiredWithdrawRawUsdc * RATE_SCALE
               <= quote.sharesToRedeemRaw * context.exchangeRateScaled
               < quote.requiredWithdrawRawUsdc * RATE_SCALE + context.exchangeRateScaled
            && forall lower | lower < quote.requiredWithdrawRawUsdc :: !CoversTarget(lower, target, bps, lamports))
  {
    var bps, lamports := context.withdrawalPenaltyBps, context.withdrawalPenaltyLamports;
    if target > 0 && bps < FULL_BPS {
      InitialGrossNetsTheTarget(target, bps, lamports);
      LeastExactlyWhen(target, bps, lamports);
      assert CoversTarget(InitialGross(target, bps, lamports), target, bps, lamports);
    }
  }

  method QuoteSettlementWithdraw(target: nat, context: VaultContext)
    returns (r: Result<SettlementWithdrawQuote, LiquidityError>)
    ensures r == SettlementQuoteFor(target, context)
    ensures r.Success? ==> r.value.expectedNetOutputRawUsdc == target
  {
    if target == 0 {
      return Failure(TargetNotPositive);
    }
    if context.exchangeRateScaled == 0 {
      return Failure(ExchangeRateNotPositive);
    }
    var inverted := GrossWithdrawForNetTarget(target, context.withdrawalPenaltyBps, context.withdrawalPenaltyLamports);
    if inverted.Failure? {
      return Failure(PenaltyConsumesWithdraw);
    }
    var gross := inverted.value;
    var penalty := WithdrawalPenaltyFor(gross, context.withdrawalPenaltyBps, context.withdrawalPenaltyLamports);
    var net := gross - penalty;
    if net <= context.minWithdrawAmountRaw {
      return Failure(BelowVaultMinimum);
    }
    if gross > context.singleInstructionRedeemCapacityRawUsdc {
      return Failure(ExceedsInstantCapacity);
    }
    return Success(SettlementWithdrawQuote(gross, CeilDiv(gross * RATE_SCALE, context.exchangeRateScaled), penalty,
                                           net));
  }
}
