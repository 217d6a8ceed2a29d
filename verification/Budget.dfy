/** The yield budget: what a position can spend without touching the deposited principal. */
module Budget {
  import opened RawUnits
  import opened Wrappers
  import opened Models

  datatype BudgetSnapshot = BudgetSnapshot(
    positionValueRawUsdc: nat,
    grossYieldRawUsdc: nat,
    spendableYieldRawUsdc: nat)

  datatype BudgetRejection = InsufficientYield | BudgetIlliquid | InvalidExchangeRate | PostStateInvariantFailed

  datatype PaymentBudget = PaymentBudget(
    budget: BudgetSnapshot,
    requiredWithdrawRawUsdc: nat,
    sharesToRedeemRaw: nat,
    postPositionValueRawUsdc: int,
    reservationRawUsdc: nat)

  function PositionValue(totalShares: nat, rate: nat): nat {
    MulDivFloor(totalShares, rate, RATE_SCALE)
  }

  /** Everything the position value must keep covering. */
  function Committed(p: WalletPosition): nat {
    p.principalBasisRawUsdc + p.safetyBufferRawUsdc + p.reservedRawUsdc + p.feeDebtRawUsdc
  }

  function SpendableAt(p: WalletPosition, totalShares: nat, rate: nat): nat {
    ClampToZero(ClampToZero(PositionValue(totalShares, rate) - p.principalBasisRawUsdc)
                - p.reservedRawUsdc - p.feeDebtRawUsdc - p.safetyBufferRawUsdc)
  }

  function ComputeBudgetSnapshot(p: WalletPosition): BudgetSnapshot {
    var value := PositionValue(p.totalSharesRaw, p.exchangeRateScaled);
    var grossYield := ClampToZero(value - p.principalBasisRawUsdc);
    BudgetSnapshot(value, grossYield,
                   ClampToZero(grossYield - p.reservedRawUsdc - p.feeDebtRawUsdc - p.safetyBufferRawUsdc))
  }

  /** Covers the withdrawal, overshooting by less than the value of one share. */
  function SharesToRedeem(requiredWithdraw: nat, rate: nat): (r: nat)
    requires rate > 0
    ensures requiredWithdraw * RATE_SCALE <= r * rate < requiredWithdraw * RATE_SCALE + rate
  {
    CeilDiv(requiredWithdraw * RATE_SCALE, rate)
  }

  function EvaluatePaymentBudget(
    p: WalletPosition,
    sellerAmount: nat,
    estimatedFeeDebt: nat,
    requiredWithdraw: Option<nat>,
    activeWithdrawReserved: nat): Result<PaymentBudget, BudgetRejection>
  {
    if p.exchangeRateScaled == 0 then Failure(InvalidExchangeRate)
    else
      var budget := ComputeBudgetSnapshot(p);
      var required := if requiredWithdraw.Some? then requiredWithdraw.value else sellerAmount;
      if budget.spendableYieldRawUsdc < required + estimatedFeeDebt then Failure(InsufficientYield)
      else if p.instantRedeemCapacityRawUsdc < activeWithdrawReserved + required then Failure(BudgetIlliquid)
      else
        var post := budget.positionValueRawUsdc - required;
        if post - p.reservedRawUsdc - p.feeDebtRawUsdc - estimatedFeeDebt
           < p.principalBasisRawUsdc + p.safetyBufferRawUsdc then Failure(PostStateInvariantFailed)
        else
          Success(PaymentBudget(budget, required, SharesToRedeem(required, p.exchangeRateScaled), post,
                                required + estimatedFeeDebt))
  }

  /**
    A budget is granted exactly when the position value covers every commitment plus the new one and the vault can pay
    it out at once, and then states what it withdraws, burns, reserves and leaves.  The last of the four checks never
    decides a positive budget: it can only reject a request whose whole budget is zero.
   */
  lemma EvaluationGrantsExactlyTheSurplus(
    p: WalletPosition,
    sellerAmount: nat,
    estimatedFeeDebt: nat,
    requiredWithdraw: Option<nat>,
    activeWithdrawReserved: nat)
    ensures
      var r := EvaluatePaymentBudget(p, sellerAmount, estimatedFeeDebt, requiredWithdraw, activeWithdrawReserved);
      var required := if requiredWithdraw.Some? then requiredWithdraw.value else sellerAmount;
      var value := PositionValue(p.totalSharesRaw, p.exchangeRateScaled);
      && (r.Success? <==>
            && p.exchangeRateScaled > 0
            && value >= Committed(p) + required + estimatedFeeDebt
            && p.instantRedeemCapacityRawUsdc >= activeWithdrawReserved + required)
      && (r.Success? ==>
            && r.value.reservationRawUsdc == required + estimatedFeeDebt
            && r.value.requiredWithdrawRawUsdc == required
            && r.value.postPositionValueRawUsdc == value - required
            && required * RATE_SCALE <= r.value.sharesToRedeemRaw * p.exchangeRateScaled
            && r.value.sharesToRedeemRaw * p.exchangeRateScaled < required * RATE_SCALE + p.exchangeRateScaled)
      && (r == Failure(PostStateInvariantFailed) ==> required + estimatedFeeDebt == 0)
      && (p.exchangeRateScaled == 0 ==> r == Failure(InvalidExchangeRate))
      && (p.exchangeRateScaled > 0 && value < Committed(p) + required + estimatedFeeDebt ==>
            required + estimatedFeeDebt > 0 ==> r == Failure(InsufficientYield))
  {
  }

  /** A position is worth its shares at the rate of twelve decimals, rounded down to the raw unit. */
  lemma ValueIsRoundedDown(shares: nat, rate: nat)
    ensures PositionValue(shares, rate) * 1_000_000_000_000 <= shares * rate
    ensures shares * rate < (PositionValue(shares, rate) + 1) * 1_000_000_000_000
  {
  }

  /** Burning shares worth at most `gross` plus `overshoot` lowers the value by at most `gross` plus its ceiling. */
  lemma BurnLossBound(total: nat, burned: nat, rate: nat, gross: nat, overshoot: nat)
    requires burned <= total
    requires burned * rate <= gross * RATE_SCALE + overshoot
    ensures PositionValue(total - burned, rate) + gross + CeilDiv(overshoot, RATE_SCALE) >= PositionValue(total, rate)
  {
    assert total * rate == (total - burned) * rate + burned * rate;
  }

  /** New shares are worth at most the ceiling of their own value: the floor that classifies external deposits. */
  lemma ValueOfAddedShares(shares: nat, added: nat, rate: nat)
    ensures PositionValue(shares + added, rate)
            <= PositionValue(shares, rate) + MulDivCeil(added, rate, RATE_SCALE)
  {
    assert (shares + added) * rate == shares * rate + added * rate;
  }
}
