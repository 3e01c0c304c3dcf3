/** How large the fee of a borrow is (token-lending/sdk/src/state/reserve.rs, `ReserveFees`).

    On top of a fixed amount the fee is its rate times the amount; out of a "maximum" borrow it is the rate
    times what is left after the fee.  Both are rounded to the nearest whole token, and are at least one
    token, or two if a host takes a share. */
module BorrowFees {
  import opened Results
  import opened FloorMath
  import opened FixedPoint
  import opened ReserveConfigs
  import opened Reserves
  import opened Valuation

  /** `whole` tokens are the nearest to `amount`, halves up. */
  predicate Nearest(whole: nat, amount: nat) { whole * WAD <= amount + HALF_WAD < whole * WAD + WAD }

  function MinimumFee(fees: Fees): nat { if fees.hostFeePercentage > 0 then 2 else 1 }

  /** The unrounded fee on top of `amount` tokens. */
  function FeeOn(amount: nat, feeWad: nat, fees: Fees): nat { Max(amount * feeWad, MinimumFee(fees) * WAD) }

  /** The host's tokens: nearest to its percentage of the fee, and at least one if it has any. */
  predicate HostShare(host: nat, fee: nat, percentage: u8) {
    if percentage == 0 then host == 0
    else
      && host >= 1 && fee * percentage < 100 * (host * WAD + HALF_WAD)
      && (host > 1 ==> 100 * host * WAD <= fee * percentage + 100 * HALF_WAD)
  }

  lemma FeesAre(fees: Fees, amount: Decimal, feeWad: u64, calculation: FeeCalculation)
    requires feeWad > 0 && amount > 0 && CalculateFees(fees, amount, feeWad, calculation).Ok?
    ensures FeeAmount(amount, feeWad, calculation).Ok?
    ensures var (total, host) := CalculateFees(fees, amount, feeWad, calculation).value;
      var fee := Max(FeeAmount(amount, feeWad, calculation).value, FromInt(MinimumFee(fees)));
      Nearest(total, fee) && fee < amount && HostShare(host, fee, fees.hostFeePercentage)
  {
    hide FeeAmount, Mul;
    var fee: Decimal := Max(FeeAmount(amount, feeWad, calculation).value, FromInt(MinimumFee(fees)));
    if fees.hostFeePercentage > 0 {
      HostIs(fee, fees.hostFeePercentage, Mul(fee, Percent(fees.hostFeePercentage)).value);
    }
  }

  lemma HostIs(fee: Decimal, percentage: u8, share: Decimal)
    requires Mul(fee, Percent(percentage)) == Ok(share) && RoundU64(share).Ok? && percentage > 0
    ensures HostShare(Max(RoundU64(share).value, 1), fee, percentage)
  {
    var host := RoundU64(share).value;
    assert share * WAD <= fee * Percent(percentage) < share * WAD + WAD;
    assert host * WAD <= share + HALF_WAD < host * WAD + WAD;
    hide Mul, RoundU64;
    assert fee * Percent(percentage) == (fee * percentage) * PERCENT_SCALER by { Assoc(fee, percentage, PERCENT_SCALER); }
  }

  /** Of a fixed amount: the exact product. */
  lemma FixedFeeAmount(amount: u64, feeWad: u64)
    requires FeeAmount(FromInt(amount), feeWad, Exclusive).Ok?
    ensures FeeAmount(FromInt(amount), feeWad, Exclusive).value == amount * feeWad
  {
    Assoc(amount, WAD, feeWad);
    FloorOfMultiple(amount * feeWad, WAD);
  }

  /** A fixed borrow: the fee is the nearest whole number of tokens to the received amount times the fee
      rate - or to the minimum, if that is more - and the host's part is nearest to its share of that. */
  lemma FixedBorrowFee(r: Reserve, amount: u64, maxValue: Decimal, remaining: Decimal)
    requires amount != U64_MAX && CalculateBorrow(r, amount, maxValue, remaining).Ok?
    ensures var t, fees := CalculateBorrow(r, amount, maxValue, remaining).value, r.config.fees;
      && t.receiveAmount == amount && t.borrowAmount == FromInt(amount) + FromInt(t.borrowFee)
      && if fees.borrowFeeWad == 0 || amount == 0 then t.borrowFee == t.hostFee == 0
         else
           var fee := FeeOn(amount, fees.borrowFeeWad, fees);
           Nearest(t.borrowFee, fee) && HostShare(t.hostFee, fee, fees.hostFeePercentage)
  {
    hide MarketValueUpperBound, Mul, FeeAmount, HostShare, Nearest, BorrowWeight;
    var fees := r.config.fees;
    if fees.borrowFeeWad > 0 && amount > 0 {
      FeesAre(fees, FromInt(amount), fees.borrowFeeWad, Exclusive);
      FixedFeeAmount(amount, fees.borrowFeeWad);
    }
  }

  /** A flash loan: as for a fixed borrow, split between the owner and the host. */
  lemma FlashLoanFee(fees: Fees, amount: u64)
    requires CalculateFlashLoanFees(fees, FromInt(amount)).Ok?
    ensures var (owner, host) := CalculateFlashLoanFees(fees, FromInt(amount)).value;
      if fees.flashLoanFeeWad == 0 || amount == 0 then owner == host == 0
      else
        var fee := FeeOn(amount, fees.flashLoanFeeWad, fees);
        Nearest(owner + host, fee) && HostShare(host, fee, fees.hostFeePercentage)
  {
    hide FeeAmount, HostShare, Nearest;
    if fees.flashLoanFeeWad > 0 && amount > 0 {
      FeesAre(fees, FromInt(amount), fees.flashLoanFeeWad, Exclusive);
      FixedFeeAmount(amount, fees.flashLoanFeeWad);
    }
  }

  /** Out of a borrowed amount: fee / amount = rate / (1 + rate), up to two floors. */
  lemma InclusiveFeeAmount(amount: Decimal, feeWad: u64)
    requires FeeAmount(amount, feeWad, Inclusive).Ok?
    ensures var raw := FeeAmount(amount, feeWad, Inclusive).value;
      && raw * (WAD + feeWad) <= amount * feeWad
      && amount * feeWad * WAD <= (raw + 1) * WAD * (WAD + feeWad) + amount * (WAD + feeWad)
  {
    var d: Rate := feeWad + WAD;
    var rate := RateDiv(feeWad, d).value;
    var raw := Mul(amount, rate).value;
    assert rate * d <= feeWad * WAD < rate * d + d && raw * WAD <= amount * rate < raw * WAD + WAD;
    hide RateDiv, Mul, FeeAmount;
    ShareBracket(amount, feeWad, d, rate, raw);
  }

  lemma ShareBracket(amount: nat, f: nat, d: nat, rate: nat, raw: nat)
    requires rate * d <= f * WAD < rate * d + d && raw * WAD <= amount * rate < raw * WAD + WAD
    ensures raw * d <= amount * f && amount * f * WAD <= (raw + 1) * WAD * d + amount * d
  {
    MulMono(raw * WAD, amount * rate, d);
    Assoc(amount, rate, d);
    MulMono(rate * d, f * WAD, amount);
    Assoc(raw, WAD, d);
    Assoc(amount, f, WAD);
    MulCancel(raw * d, amount * f, WAD);
    MulMono(f * WAD, rate * d + d, amount);
    Distribute(amount, rate * d, d);
    MulMono(amount * rate, raw * WAD + WAD, d);
    Distribute(WAD, raw, 1);
  }

  /** A "maximum" borrow: with `raw` as the unrounded fee, the whole-token fee is nearest to it - or to the
      minimum - and fee·(1 + rate) is the borrowed amount times the rate, to within half a token and the
      floors of the rate. */
  lemma MaximumBorrowFee(r: Reserve, maxValue: Decimal, remaining: Decimal) returns (raw: Decimal)
    requires CalculateBorrow(r, U64_MAX, maxValue, remaining).Ok?
    ensures var t, fees := CalculateBorrow(r, U64_MAX, maxValue, remaining).value, r.config.fees;
      var f, d := fees.borrowFeeWad, WAD + fees.borrowFeeWad;
      if f == 0 || t.borrowAmount == 0 then t.borrowFee == t.hostFee == 0
      else
        && raw * d <= t.borrowAmount * f && t.borrowAmount * f * WAD <= (raw + 1) * WAD * d + t.borrowAmount * d
        && var fee := Max(raw, MinimumFee(fees) * WAD);
        && Nearest(t.borrowFee, fee) && HostShare(t.hostFee, fee, fees.hostFeePercentage)
        && t.borrowAmount * f * WAD <= (t.borrowFee * WAD + HALF_WAD) * WAD * d + t.borrowAmount * d
        && (t.borrowFee > MinimumFee(fees) ==> t.borrowFee * WAD * d <= t.borrowAmount * f + HALF_WAD * d)
  {
    hide MaxBorrow, FeeAmount, HostShare;
    var t, fees := CalculateBorrow(r, U64_MAX, maxValue, remaining).value, r.config.fees;
    raw := 0;
    if fees.borrowFeeWad > 0 && t.borrowAmount > 0 {
      FeesAre(fees, t.borrowAmount, fees.borrowFeeWad, Inclusive);
      InclusiveFeeAmount(t.borrowAmount, fees.borrowFeeWad);
      raw := FeeAmount(t.borrowAmount, fees.borrowFeeWad, Inclusive).value;
      WholeFee(t.borrowAmount, fees.borrowFeeWad, WAD + fees.borrowFeeWad, raw, MinimumFee(fees), t.borrowFee);
    }
  }

  lemma WholeFee(amount: nat, f: nat, d: nat, raw: nat, least: nat, fee: nat)
    requires raw * d <= amount * f && amount * f * WAD <= (raw + 1) * WAD * d + amount * d
    requires Nearest(fee, Max(raw, least * WAD))
    ensures amount * f * WAD <= (fee * WAD + HALF_WAD) * WAD * d + amount * d
    ensures fee > least ==> fee * WAD * d <= amount * f + HALF_WAD * d
  {
    assert raw + 1 <= fee * WAD + HALF_WAD;
    MulMono((raw + 1) * WAD, (fee * WAD + HALF_WAD) * WAD, d);
    if fee > least {
      assert fee * WAD <= raw + HALF_WAD;
      MulMono(fee * WAD, raw + HALF_WAD, d);
      Distribute(d, raw, HALF_WAD);
    }
  }
}
