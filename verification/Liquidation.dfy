/** Liquidation (token-lending/sdk/src/state/reserve.rs): the bonus, how much debt is settled for how
    much collateral, and the protocol's fee. */
module Liquidation {
  import opened Results
  import opened FloorMath
  import opened FixedPoint
  import opened ReserveConfigs
  import opened Obligations

  function DecaBps(n: u8): Decimal { FromInt(n) / 1000 }

  /** `calculate_bonus`: from the minimum to the maximum bonus as the obligation's borrowed value
      moves from the unhealthy to the super-unhealthy limit, plus the protocol's fee, capped. */
  function CalculateBonus(c: Config, o: Obligation): Result<Decimal> {
    if o.borrowedValue < o.unhealthyBorrowValue then Err(ObligationHealthy)
    else if o.unhealthyBorrowValue == o.superUnhealthyBorrowValue then
      var bonus :- Add(Percent(c.liquidationBonus), DecaBps(c.protocolLiquidationFee));
      Ok(Min(bonus, Percent(MAX_BONUS_PCT)))
    else
      var over: Decimal := o.borrowedValue - o.unhealthyBorrowValue;
      var span :- Sub(o.superUnhealthyBorrowValue, o.unhealthyBorrowValue);
      var weight: Decimal := match Div(over, span) case Ok(w) => Min(w, WAD) case Err(_) => WAD;
      var range :- Sub(Percent(c.maxLiquidationBonus), Percent(c.liquidationBonus));
      var scaled :- Mul(weight, range);
      var graded :- Add(Percent(c.liquidationBonus), scaled);
      var bonus :- Add(graded, DecaBps(c.protocolLiquidationFee));
      Ok(Min(bonus, Percent(MAX_BONUS_PCT)))
  }

  datatype LiquidationTerms = LiquidationTerms(
    settleAmount: Decimal, repayAmount: u64, withdrawAmount: u64, bonusRate: Decimal)

  /** The collateral does not cover the liquidation: all of it goes, for its share of the debt. */
  function TakeAll(debt: Decimal, value: Decimal, c: Collateral, bonusRate: Decimal): Result<LiquidationTerms> {
    var share :- Div(c.marketValue, value);
    var settle :- Mul(debt, share);
    var repay :- CeilU64(settle);
    Ok(LiquidationTerms(settle, repay, c.deposited, bonusRate))
  }

  /** The collateral covers the liquidation exactly. */
  function TakeExactly(debt: Decimal, c: Collateral, bonusRate: Decimal): Result<LiquidationTerms> {
    var repay :- CeilU64(debt);
    Ok(LiquidationTerms(debt, repay, c.deposited, bonusRate))
  }

  /** The whole debt, which is worth at most one unit of the quote currency. */
  function FullLiquidation(loan: Loan, c: Collateral, bonusRate: Decimal): Result<LiquidationTerms> {
    var value :- Mul(loan.marketValue, bonusRate);
    if value > c.marketValue then TakeAll(loan.borrowed, value, c, bonusRate)
    else if value == c.marketValue then TakeExactly(loan.borrowed, c, bonusRate)
    else
      var share :- Div(value, c.marketValue);
      var repay :- CeilU64(loan.borrowed);
      var _ :- Guard(repay != 0, LiquidationTooSmall);
      var part :- Mul(FromInt(c.deposited), share);
      var withdraw :- FloorU64(part);
      Ok(LiquidationTerms(loan.borrowed, repay, Max(withdraw, 1), bonusRate))
  }

  /** At most `amount` of the debt, which the close factor caps further. */
  function PartialLiquidation(o: Obligation, loan: Loan, c: Collateral, amount: Decimal, bonusRate: Decimal): Result<LiquidationTerms> {
    var most :- MaxLiquidationAmount(o, loan);
    var debt: Decimal := Min(most, amount);
    var ratio :- Div(debt, loan.borrowed);
    var plain :- Mul(loan.marketValue, ratio);
    var value :- Mul(plain, bonusRate);
    if value > c.marketValue then TakeAll(debt, value, c, bonusRate)
    else if value == c.marketValue then TakeExactly(debt, c, bonusRate)
    else
      var share :- Div(value, c.marketValue);
      var repay :- CeilU64(debt);
      var part :- Mul(FromInt(c.deposited), share);
      var withdraw :- FloorU64(part);
      Ok(LiquidationTerms(debt, repay, withdraw, bonusRate))
  }

  /** What the liquidator asks to repay: everything, or at most the debt. */
  function Requested(amount: u64, loan: Loan): Decimal {
    if amount == U64_MAX then loan.borrowed else Min(FromInt(amount), loan.borrowed)
  }

  function CalculateLiquidation(config: Config, amount: u64, o: Obligation, loan: Loan, c: Collateral): Result<LiquidationTerms> {
    var bonus :- CalculateBonus(config, o);
    var bonusRate :- Add(bonus, WAD);
    if loan.marketValue <= WAD then FullLiquidation(loan, c, bonusRate)
    else
      PartialLiquidation(o, loan, c, Requested(amount, loan), bonusRate)
  }

  /** The protocol's cut of the redeemed collateral, at least one token. */
  function ProtocolLiquidationFee(c: Config, amount: u64, bonusRate: Decimal): Result<u64> {
    var plain :- Div(FromInt(amount), bonusRate);
    var cut :- Mul(plain, DecaBps(c.protocolLiquidationFee));
    var fee :- CeilU64(cut);
    Ok(Max(fee, 1))
  }

  // ----- bounds

  /** Whatever the configuration - also one whose bonus sum is out of range - the bonus rate is
      between 1 and 1.25, and only unhealthy obligations have one. */
  lemma BonusRateBounded(config: Config, amount: u64, o: Obligation, loan: Loan, c: Collateral)
    requires CalculateLiquidation(config, amount, o, loan, c).Ok?
    ensures WAD <= CalculateLiquidation(config, amount, o, loan, c).value.bonusRate <= WAD + Percent(MAX_BONUS_PCT)
    ensures o.borrowedValue >= o.unhealthyBorrowValue
  {
    hide Mul, Div, MaxLiquidationAmount, CeilU64, FloorU64, DecaBps;
  }

  /** For a sane configuration the bonus is at least the minimum bonus plus the protocol's fee, and at
      most the maximum bonus plus the fee, before the cap. */
  lemma BonusGraded(c: Config, o: Obligation)
    requires Sane(c) && CalculateBonus(c, o).Ok?
    ensures Min(Percent(c.liquidationBonus) + DecaBps(c.protocolLiquidationFee), Percent(MAX_BONUS_PCT))
              <= CalculateBonus(c, o).value
              <= Min(Percent(c.maxLiquidationBonus) + DecaBps(c.protocolLiquidationFee), Percent(MAX_BONUS_PCT))
  {
    hide DecaBps;
    if o.unhealthyBorrowValue != o.superUnhealthyBorrowValue {
      var over: Decimal, span := o.borrowedValue - o.unhealthyBorrowValue,
                        o.superUnhealthyBorrowValue - o.unhealthyBorrowValue;
      var weight := match Div(over, span) case Ok(w) => Min(w, WAD) case Err(_) => WAD;
      ScaledAtMost(weight, Percent(c.maxLiquidationBonus) - Percent(c.liquidationBonus));
      hide Div;
    }
  }

  /** A share of at most one of a debt settles at most that debt; a liquidation that takes all the
      collateral settles no more than the collateral pays for: settle / debt <= collateral / value. */
  lemma TakeAllBounded(debt: Decimal, value: Decimal, c: Collateral, bonusRate: Decimal)
    requires TakeAll(debt, value, c, bonusRate).Ok? && c.marketValue <= value
    ensures TakeAll(debt, value, c, bonusRate).value.settleAmount <= debt
    ensures TakeAll(debt, value, c, bonusRate).value.settleAmount * value <= debt * c.marketValue
  {
    hide Div, Mul, CeilU64;
    var share := Div(c.marketValue, value).value;
    var settle := Mul(debt, share).value;
    SettledWithin(debt, value, c.marketValue, share, settle);
  }

  lemma SettledWithin(debt: nat, value: nat, worth: nat, share: nat, settle: nat)
    requires 0 < value && worth <= value && share * value <= worth * WAD && settle * WAD <= debt * share
    ensures settle <= debt && settle * value <= debt * worth
  {
    MulMono(worth, value, WAD);
    MulCancel(share, WAD, value);
    MulMono(share, WAD, debt);
    MulCancel(settle, debt, WAD);
    ShareOfDebt(settle, debt, share, value, worth);
  }

  /** The collateral taken for a liquidation worth `value` is worth at most `value`. */
  lemma SpareBounded(c: Collateral, value: Decimal, share: Decimal, part: Decimal, withdraw: u64)
    requires value < c.marketValue && Div(value, c.marketValue) == Ok(share)
    requires Mul(FromInt(c.deposited), share) == Ok(part) && FloorU64(part) == Ok(withdraw)
    ensures withdraw <= c.deposited && withdraw * c.marketValue <= c.deposited * value
  {
    assert share * c.marketValue <= value * WAD && part * WAD <= FromInt(c.deposited) * share && withdraw * WAD <= part;
    hide Div, Mul, FloorU64;
    Assoc(c.deposited, WAD, share);
    MulCancel(part, c.deposited * share, WAD);
    MulMono(withdraw * WAD, c.deposited * share, c.marketValue);
    Assoc(c.deposited, share, c.marketValue);
    MulMono(share * c.marketValue, value * WAD, c.deposited);
    Assoc(withdraw, WAD, c.marketValue);
    Assoc(c.deposited, value, WAD);
    MulCancel(withdraw * c.marketValue, c.deposited * value, WAD);
    MulMono(value, c.marketValue, c.deposited);
    MulCancel(withdraw, c.deposited, c.marketValue);
  }

  lemma MaxLiquidationBounded(o: Obligation, loan: Loan)
    requires MaxLiquidationAmount(o, loan).Ok?
    ensures var most := MaxLiquidationAmount(o, loan).value;
      && most <= loan.borrowed
      && most * loan.marketValue <= loan.borrowed * FromInt(MAX_LIQUIDATABLE_VALUE_AT_ONCE)
      && most * loan.marketValue * 100 <= loan.borrowed * (o.borrowedValue * LIQUIDATION_CLOSE_FACTOR)
  {
    var fifth := Mul(o.borrowedValue, Percent(LIQUIDATION_CLOSE_FACTOR)).value;
    var value := Min(Min(fifth, loan.marketValue), FromInt(MAX_LIQUIDATABLE_VALUE_AT_ONCE));
    var part := Div(value, loan.marketValue).value;
    var most := MaxLiquidationAmount(o, loan).value;
    assert fifth * 100 <= o.borrowedValue * LIQUIDATION_CLOSE_FACTOR;
    assert part * loan.marketValue <= value * WAD && most * WAD <= loan.borrowed * part && loan.marketValue > 0;
    hide Mul, Div, MaxLiquidationAmount;
    MulMono(value, loan.marketValue, WAD);
    MulCancel(part, WAD, loan.marketValue);
    MulMono(part, WAD, loan.borrowed);
    MulCancel(most, loan.borrowed, WAD);
    ShareOfDebt(most, loan.borrowed, part, loan.marketValue, value);
    MulMono(value, FromInt(MAX_LIQUIDATABLE_VALUE_AT_ONCE), loan.borrowed);
    MulMono(value * 100, o.borrowedValue * LIQUIDATION_CLOSE_FACTOR, loan.borrowed);
    Assoc(loan.borrowed, value, 100);
  }

  /** settle <= debt·part and part·worth <= value give settle·worth <= debt·value. */
  lemma ShareOfDebt(settle: nat, debt: nat, part: nat, worth: nat, value: nat)
    requires settle * WAD <= debt * part && part * worth <= value * WAD
    ensures settle * worth <= debt * value
  {
    MulMono(settle * WAD, debt * part, worth);
    Assoc(debt, part, worth);
    MulMono(part * worth, value * WAD, debt);
    Assoc(settle, WAD, worth);
    Assoc(debt, value, WAD);
    MulCancel(settle * worth, debt * value, WAD);
  }

  /** Any liquidation of a nonempty deposit settles at most the debt, takes at most the deposit, and
      repays at least what it settles. */
  lemma LiquidationWithinPosition(config: Config, amount: u64, o: Obligation, loan: Loan, c: Collateral)
    requires CalculateLiquidation(config, amount, o, loan, c).Ok? && c.deposited >= 1
    ensures var t := CalculateLiquidation(config, amount, o, loan, c).value;
      && t.settleAmount <= loan.borrowed && t.withdrawAmount <= c.deposited
      && t.settleAmount <= FromInt(t.repayAmount)
  {
    hide CalculateBonus, PartialLiquidation, FullLiquidation;
    var bonusRate := CalculateBonus(config, o).value + WAD;
    if loan.marketValue <= WAD {
      FullWithinPosition(loan, c, bonusRate);
    } else {
      PartialWithinPosition(o, loan, c, Requested(amount, loan), bonusRate);
    }
  }

  /** The liquidator pays at least what is settled, rounded up to whole tokens. */
  lemma LiquidationRepaysInFull(config: Config, amount: u64, o: Obligation, loan: Loan, c: Collateral)
    requires CalculateLiquidation(config, amount, o, loan, c).Ok?
    ensures var t := CalculateLiquidation(config, amount, o, loan, c).value;
            t.settleAmount <= FromInt(t.repayAmount) < t.settleAmount + WAD
  {
    hide Mul, Div, FloorU64, CeilU64, MaxLiquidationAmount, CalculateBonus;
  }

  lemma FullWithinPosition(loan: Loan, c: Collateral, bonusRate: Decimal)
    requires FullLiquidation(loan, c, bonusRate).Ok? && c.deposited >= 1
    ensures var t := FullLiquidation(loan, c, bonusRate).value;
      && t.settleAmount <= loan.borrowed && t.withdrawAmount <= c.deposited && t.settleAmount <= FromInt(t.repayAmount)
  {
    hide Mul, Div, FloorU64;
    var value := Mul(loan.marketValue, bonusRate).value;
    if value > c.marketValue {
      TakeAllBounded(loan.borrowed, value, c, bonusRate);
    } else if value < c.marketValue {
      var share := Div(value, c.marketValue).value;
      var part := Mul(FromInt(c.deposited), share).value;
      SpareBounded(c, value, share, part, FloorU64(part).value);
    }
  }

  lemma PartialWithinPosition(o: Obligation, loan: Loan, c: Collateral, amount: Decimal, bonusRate: Decimal)
    requires PartialLiquidation(o, loan, c, amount, bonusRate).Ok?
    ensures MaxLiquidationAmount(o, loan).Ok?
    ensures var t := PartialLiquidation(o, loan, c, amount, bonusRate).value;
      && t.settleAmount <= MaxLiquidationAmount(o, loan).value <= loan.borrowed
      && t.withdrawAmount <= c.deposited && t.settleAmount <= FromInt(t.repayAmount)
  {
    hide Mul, Div, FloorU64, MaxLiquidationAmount;
    MaxLiquidationBounded(o, loan);
    var debt := Min(MaxLiquidationAmount(o, loan).value, amount);
    var value := Mul(Mul(loan.marketValue, Div(debt, loan.borrowed).value).value, bonusRate).value;
    if value > c.marketValue {
      TakeAllBounded(debt, value, c, bonusRate);
    } else if value < c.marketValue {
      var share := Div(value, c.marketValue).value;
      var part := Mul(FromInt(c.deposited), share).value;
      SpareBounded(c, value, share, part, FloorU64(part).value);
    }
  }

  /** A debt worth more than one unit is only liquidated in part: the settled share of its value is at
      most a fifth of everything borrowed, and at most 500000. */
  lemma PartialLiquidationCapped(config: Config, amount: u64, o: Obligation, loan: Loan, c: Collateral)
    requires CalculateLiquidation(config, amount, o, loan, c).Ok? && loan.marketValue > WAD
    ensures var t := CalculateLiquidation(config, amount, o, loan, c).value;
      && t.settleAmount * loan.marketValue <= loan.borrowed * FromInt(500_000)
      && t.settleAmount * loan.marketValue * 5 <= loan.borrowed * o.borrowedValue
  {
    hide CalculateBonus, PartialLiquidation, MaxLiquidationAmount;
    var t := CalculateLiquidation(config, amount, o, loan, c).value;
    var bonusRate := CalculateBonus(config, o).value + WAD;
    PartialWithinPosition(o, loan, c, Requested(amount, loan), bonusRate);
    MaxLiquidationBounded(o, loan);
    var most := MaxLiquidationAmount(o, loan).value;
    MulMono(t.settleAmount, most, loan.marketValue);
    Assoc(loan.borrowed, o.borrowedValue, 20);
  }

  /** withdraw/deposit · collateral value <= bonus · settle/debt · debt value */
  predicate AtMostBonus(t: LiquidationTerms, loan: Loan, c: Collateral) {
    (t.withdrawAmount * c.marketValue) * (loan.borrowed * WAD)
      <= (c.deposited * loan.marketValue) * (t.settleAmount * t.bonusRate)
  }

  lemma PartialSeizesAtMostBonus(o: Obligation, loan: Loan, c: Collateral, amount: Decimal, bonusRate: Decimal)
    requires PartialLiquidation(o, loan, c, amount, bonusRate).Ok?
    requires PartialLiquidation(o, loan, c, amount, bonusRate).value.withdrawAmount < c.deposited
    ensures AtMostBonus(PartialLiquidation(o, loan, c, amount, bonusRate).value, loan, c)
  {
    hide MaxLiquidationAmount, FloorU64;
    var debt: Decimal := Min(MaxLiquidationAmount(o, loan).value, amount);
    var ratio := Div(debt, loan.borrowed).value;
    var plain := Mul(loan.marketValue, ratio).value;
    var value := Mul(plain, bonusRate).value;
    var t := PartialLiquidation(o, loan, c, amount, bonusRate).value;
    assert value < c.marketValue && t.settleAmount == debt && t.bonusRate == bonusRate;
    var share := Div(value, c.marketValue).value;
    var part := Mul(FromInt(c.deposited), share).value;
    assert ratio * loan.borrowed <= debt * WAD && plain * WAD <= loan.marketValue * ratio && value * WAD <= plain * bonusRate;
    SpareBounded(c, value, share, part, t.withdrawAmount);
    hide Mul, Div, PartialLiquidation;
    ValueOfDebt(value, plain, ratio, bonusRate, loan.marketValue, loan.borrowed, debt);
    SeizedChain(t.withdrawAmount, c.marketValue, c.deposited, value, loan.borrowed, loan.marketValue, debt, bonusRate);
  }

  /** The share of a deposit that is worth `value`, in whole tokens. */
  function FlooredShare(value: Decimal, c: Collateral): Result<u64> {
    var share :- Div(value, c.marketValue);
    var part :- Mul(FromInt(c.deposited), share);
    FloorU64(part)
  }

  /** A debt worth at most one unit, whose share of the deposit floors to no token at all, takes one. */
  predicate BumpedToOne(loan: Loan, c: Collateral, bonusRate: Decimal) {
    && loan.marketValue <= WAD && Mul(loan.marketValue, bonusRate).Ok?
    && var value := Mul(loan.marketValue, bonusRate).value;
    value < c.marketValue && FlooredShare(value, c) == Ok(0)
  }

  lemma FullSeizesAtMostBonus(loan: Loan, c: Collateral, bonusRate: Decimal)
    requires FullLiquidation(loan, c, bonusRate).Ok? && loan.marketValue <= WAD
    requires FullLiquidation(loan, c, bonusRate).value.withdrawAmount < c.deposited && !BumpedToOne(loan, c, bonusRate)
    ensures AtMostBonus(FullLiquidation(loan, c, bonusRate).value, loan, c)
  {
    hide FloorU64, CeilU64;
    var value := Mul(loan.marketValue, bonusRate).value;
    var t := FullLiquidation(loan, c, bonusRate).value;
    assert value < c.marketValue && t.settleAmount == loan.borrowed && t.bonusRate == bonusRate;
    var share := Div(value, c.marketValue).value;
    var part := Mul(FromInt(c.deposited), share).value;
    assert value * WAD <= loan.marketValue * bonusRate;
    SpareBounded(c, value, share, part, t.withdrawAmount);
    hide Mul, Div, FullLiquidation;
    MulMono(value * WAD, loan.marketValue * bonusRate, loan.borrowed);
    Assoc(value, WAD, loan.borrowed);
    Assoc(loan.marketValue, bonusRate, loan.borrowed);
    SeizedChain(t.withdrawAmount, c.marketValue, c.deposited, value, loan.borrowed, loan.marketValue, loan.borrowed, bonusRate);
  }

  /** What the liquidator seizes, when there is collateral to spare, is worth at most the bonus rate
      times the value of the debt repaid - except for one token seized where the share is less than one. */
  lemma SeizedAtMostBonus(config: Config, amount: u64, o: Obligation, loan: Loan, c: Collateral)
    requires CalculateLiquidation(config, amount, o, loan, c).Ok?
    requires CalculateLiquidation(config, amount, o, loan, c).value.withdrawAmount < c.deposited
    ensures var t := CalculateLiquidation(config, amount, o, loan, c).value;
      if BumpedToOne(loan, c, t.bonusRate) then t.withdrawAmount == 1 else AtMostBonus(t, loan, c)
  {
    hide CalculateBonus, PartialLiquidation, FullLiquidation, AtMostBonus, BumpedToOne;
    var bonusRate := CalculateBonus(config, o).value + WAD;
    if loan.marketValue > WAD {
      PartialSeizesAtMostBonus(o, loan, c, Requested(amount, loan), bonusRate);
      NoBump(loan, c, bonusRate);
    } else if BumpedToOne(loan, c, bonusRate) {
      BumpTakesOne(loan, c, bonusRate);
    } else {
      FullSeizesAtMostBonus(loan, c, bonusRate);
    }
    BonusOfTerms(config, amount, o, loan, c);
  }

  lemma NoBump(loan: Loan, c: Collateral, bonusRate: Decimal)
    requires loan.marketValue > WAD
    ensures !BumpedToOne(loan, c, bonusRate)
  {
  }

  lemma BumpTakesOne(loan: Loan, c: Collateral, bonusRate: Decimal)
    requires BumpedToOne(loan, c, bonusRate) && FullLiquidation(loan, c, bonusRate).Ok?
    ensures FullLiquidation(loan, c, bonusRate).value.withdrawAmount == 1
  {
    hide Mul, Div, FloorU64, CeilU64;
  }

  lemma BonusOfTerms(config: Config, amount: u64, o: Obligation, loan: Loan, c: Collateral)
    requires CalculateLiquidation(config, amount, o, loan, c).Ok?
    ensures CalculateBonus(config, o).Ok?
    ensures CalculateLiquidation(config, amount, o, loan, c).value.bonusRate == CalculateBonus(config, o).value + WAD
  {
    hide CalculateBonus, Mul, Div, FloorU64, CeilU64, MaxLiquidationAmount;
  }

  lemma ValueOfDebt(value: nat, plain: nat, ratio: nat, bonus: nat, worth: nat, borrowed: nat, debt: nat)
    requires value * WAD <= plain * bonus && plain * WAD <= worth * ratio && ratio * borrowed <= debt * WAD
    ensures value * (borrowed * WAD) <= worth * (debt * bonus)
  {
    MulMono(value * WAD, plain * bonus, WAD);
    MulMono(plain * WAD, worth * ratio, bonus);
    Assoc(plain, bonus, WAD);
    MulMono(value * WAD * WAD, worth * ratio * bonus, borrowed);
    MulMono(ratio * borrowed, debt * WAD, worth * bonus);
    Regroup(worth, ratio, bonus, borrowed, debt);
    RegroupValue(value, borrowed);
    MulCancel(value * (borrowed * WAD), worth * (debt * bonus), WAD);
  }

  lemma Regroup(worth: int, ratio: int, bonus: int, borrowed: int, debt: int)
    ensures worth * ratio * bonus * borrowed == (ratio * borrowed) * (worth * bonus)
    ensures (debt * WAD) * (worth * bonus) == worth * (debt * bonus) * WAD
  {
  }

  lemma RegroupValue(value: int, borrowed: int)
    ensures value * WAD * WAD * borrowed == value * (borrowed * WAD) * WAD
  {
  }

  lemma SeizedChain(withdraw: nat, worth: nat, deposited: nat, value: nat, borrowed: nat, price: nat, debt: nat, bonus: nat)
    requires withdraw * worth <= deposited * value && value * (borrowed * WAD) <= price * (debt * bonus)
    ensures (withdraw * worth) * (borrowed * WAD) <= (deposited * price) * (debt * bonus)
  {
    MulMono(withdraw * worth, deposited * value, borrowed * WAD);
    MulMono(value * (borrowed * WAD), price * (debt * bonus), deposited);
    Assoc(deposited, value, borrowed * WAD);
    Assoc(deposited, price, debt * bonus);
  }

  /** The protocol's fee fits in the redeemed amount unless nothing was redeemed at all. */
  lemma ProtocolFeeFits(c: Config, amount: u64, bonusRate: Decimal)
    requires c.protocolLiquidationFee <= MAX_PROTOCOL_LIQUIDATION_FEE && bonusRate >= WAD
    requires ProtocolLiquidationFee(c, amount, bonusRate).Ok?
    ensures ProtocolLiquidationFee(c, amount, bonusRate).value <= amount <==> amount >= 1
  {
    hide Div, Mul, CeilU64, DecaBps;
    var plain := Div(FromInt(amount), bonusRate).value;
    var cut := Mul(plain, DecaBps(c.protocolLiquidationFee)).value;
    FeeShare(c.protocolLiquidationFee);
    CutWithin(FromInt(amount), bonusRate, plain, DecaBps(c.protocolLiquidationFee), cut);
    CeilWithin(cut, amount);
  }

  lemma FeeShare(fee: u8)
    ensures DecaBps(fee) <= WAD
  {
  }

  /** A share of at most one of what is left of an amount after dividing by at least one. */
  lemma CutWithin(amount: nat, bonusRate: nat, plain: nat, share: nat, cut: nat)
    requires bonusRate >= WAD && plain * bonusRate <= amount * WAD && share <= WAD && cut * WAD <= plain * share
    ensures cut <= amount
  {
    MulMono(WAD, bonusRate, plain);
    MulCancel(plain, amount, WAD);
    MulMono(share, WAD, plain);
    MulCancel(cut, plain, WAD);
  }

  lemma CeilWithin(cut: Decimal, amount: u64)
    requires cut <= FromInt(amount) && CeilU64(cut).Ok?
    ensures CeilU64(cut).value <= amount
  {
  }
}
