/** How much a liquidation settles and seizes (token-lending/sdk/src/state/reserve.rs, obligation.rs).

    `Liquidation` bounds the terms from above.  Here is the other side: the cap of a partial liquidation is
    used to the full, the seized collateral is worth at least the bonus rate times the repaid debt up to a
    stated slack, and all of it goes only against as much debt as it pays for. */
module Seizure {
  import opened Results
  import opened FloorMath
  import opened FixedPoint
  import opened ReserveConfigs
  import opened Obligations
  import opened Liquidation
  import opened InterestBounds

  // ----- how much debt

  /** The most value that a partial liquidation may settle: a fifth of everything borrowed, the debt itself,
      and half a million. */
  function ValueCap(o: Obligation, loan: Loan): nat {
    Min(Min(o.borrowedValue / 5, loan.marketValue), 500_000 * WAD)
  }

  /** The cap is that value's part of the debt, to within two floors. */
  lemma CapIs(o: Obligation, loan: Loan)
    requires MaxLiquidationAmount(o, loan).Ok?
    ensures var most, cap := MaxLiquidationAmount(o, loan).value, ValueCap(o, loan);
      && most <= loan.borrowed && most * loan.marketValue <= loan.borrowed * cap
      && loan.borrowed * cap * WAD <= (most + 1) * WAD * loan.marketValue + loan.borrowed * loan.marketValue
  {
    var fifth := Mul(o.borrowedValue, Percent(LIQUIDATION_CLOSE_FACTOR)).value;
    FifthIs(o.borrowedValue, fifth);
    var cap: Decimal := ValueCap(o, loan);
    var part := Div(cap, loan.marketValue).value;
    var most := MaxLiquidationAmount(o, loan).value;
    assert part * loan.marketValue <= cap * WAD < part * loan.marketValue + loan.marketValue;
    assert most * WAD <= loan.borrowed * part < most * WAD + WAD;
    hide Mul, Div, MaxLiquidationAmount, ValueCap;
    MaxLiquidationBounded(o, loan);
    ShareOfDebt(most, loan.borrowed, part, loan.marketValue, cap);
    ShareAtLeast(most, loan.borrowed, part, loan.marketValue, cap);
  }

  lemma FifthIs(value: Decimal, fifth: Decimal)
    requires Mul(value, Percent(20)) == Ok(fifth)
    ensures fifth == value / 5
  {
    FloorExact(value, 5, fifth);
  }

  lemma ShareAtLeast(most: nat, debt: nat, part: nat, worth: nat, value: nat)
    requires value * WAD < part * worth + worth && debt * part < most * WAD + WAD
    ensures debt * value * WAD <= (most + 1) * WAD * worth + debt * worth
  {
    MulMono(value * WAD, part * worth + worth, debt);
    Assoc(debt, value, WAD);
    Distribute(debt, part * worth, worth);
    Assoc(debt, part, worth);
    MulMono(debt * part, most * WAD + WAD, worth);
    Distribute(WAD, most, 1);
  }

  /** What the liquidator may settle: all of a debt worth at most one, and otherwise the smaller of what is
      asked for and the cap. */
  function Settleable(amount: u64, o: Obligation, loan: Loan): Result<Decimal> {
    if loan.marketValue <= WAD then Ok(loan.borrowed)
    else
      var most :- MaxLiquidationAmount(o, loan);
      Ok(Min(most, Requested(amount, loan)))
  }

  // ----- how much collateral

  /** The value of `debt` of a loan, with the bonus, as the code floors it. */
  function ValueWithBonus(debt: Decimal, loan: Loan, bonusRate: Decimal): Result<Decimal> {
    if loan.marketValue <= WAD then Mul(loan.marketValue, bonusRate)
    else
      var ratio :- Div(debt, loan.borrowed);
      var plain :- Mul(loan.marketValue, ratio);
      Mul(plain, bonusRate)
  }

  /** The exact value in units of 10^-36 loses, in three floors, less than this per unit of the loan. */
  function Slack(loan: Loan, bonusRate: nat): nat { loan.marketValue * bonusRate + (bonusRate + WAD) * WAD }

  /** value·W·borrowed·W is worth·bonus·debt·W, to within the slack. */
  predicate ValueBrackets(value: nat, debt: nat, loan: Loan, bonusRate: nat) {
    && value * (loan.borrowed * WAD) <= loan.marketValue * (debt * bonusRate)
    && loan.marketValue * (debt * bonusRate) * WAD <= value * (loan.borrowed * WAD) * WAD + loan.borrowed * Slack(loan, bonusRate)
  }

  lemma ThreeFloors(value: nat, plain: nat, ratio: nat, bonus: nat, worth: nat, borrowed: nat, debt: nat)
    requires plain * bonus < value * WAD + WAD && worth * ratio < plain * WAD + WAD
    requires debt * WAD < ratio * borrowed + borrowed
    ensures worth * (debt * bonus) * WAD <= value * (borrowed * WAD) * WAD + borrowed * (worth * bonus + (bonus + WAD) * WAD)
  {
    // debt·W <= ratio·borrowed + borrowed, times worth·bonus
    MulMono(debt * WAD, ratio * borrowed + borrowed, worth * bonus);
    RegroupDebt(worth, debt, bonus);
    Distribute(worth * bonus, ratio * borrowed, borrowed);
    RegroupRatio(worth, bonus, ratio, borrowed);
    // worth·ratio <= plain·W + W, times bonus·borrowed
    MulMono(worth * ratio, plain * WAD + WAD, bonus * borrowed);
    RegroupPlain(plain, bonus, borrowed);
    // plain·bonus <= value·W + W, times W·borrowed
    MulMono(plain * bonus, value * WAD + WAD, WAD * borrowed);
    RegroupWorth(value, borrowed, worth, bonus);
  }

  lemma RegroupDebt(worth: int, debt: int, bonus: int)
    ensures (debt * WAD) * (worth * bonus) == worth * (debt * bonus) * WAD
  {
  }

  lemma RegroupRatio(worth: int, bonus: int, ratio: int, borrowed: int)
    ensures (ratio * borrowed) * (worth * bonus) == (worth * ratio) * (bonus * borrowed)
    ensures borrowed * (worth * bonus) == worth * bonus * borrowed
  {
  }

  lemma RegroupPlain(plain: int, bonus: int, borrowed: int)
    ensures (plain * WAD + WAD) * (bonus * borrowed) == (plain * bonus) * (WAD * borrowed) + bonus * WAD * borrowed
  {
  }

  lemma RegroupWorth(value: int, borrowed: int, worth: int, bonus: int)
    ensures (value * WAD + WAD) * (WAD * borrowed) == value * (borrowed * WAD) * WAD + WAD * WAD * borrowed
    ensures borrowed * (worth * bonus + (bonus + WAD) * WAD)
              == worth * bonus * borrowed + bonus * WAD * borrowed + WAD * WAD * borrowed
  {
  }

  lemma ValueIsBracketed(debt: Decimal, loan: Loan, bonusRate: Decimal, value: Decimal)
    requires ValueWithBonus(debt, loan, bonusRate) == Ok(value)
    requires loan.marketValue <= WAD ==> debt == loan.borrowed
    ensures ValueBrackets(value, debt, loan, bonusRate)
  {
    if loan.marketValue <= WAD {
      assert value * WAD <= loan.marketValue * bonusRate < value * WAD + WAD;
      hide Mul, ValueWithBonus;
      WholeValue(value, loan.marketValue, bonusRate, debt);
    } else {
      var ratio := Div(debt, loan.borrowed).value;
      var plain := Mul(loan.marketValue, ratio).value;
      assert ratio * loan.borrowed <= debt * WAD < ratio * loan.borrowed + loan.borrowed;
      assert plain * WAD <= loan.marketValue * ratio < plain * WAD + WAD;
      assert value * WAD <= plain * bonusRate < value * WAD + WAD;
      hide Mul, Div, ValueWithBonus;
      ValueOfDebt(value, plain, ratio, bonusRate, loan.marketValue, loan.borrowed, debt);
      ThreeFloors(value, plain, ratio, bonusRate, loan.marketValue, loan.borrowed, debt);
    }
  }

  lemma WholeValue(value: nat, worth: nat, bonus: nat, debt: nat)
    requires value * WAD <= worth * bonus < value * WAD + WAD
    ensures value * (debt * WAD) <= worth * (debt * bonus)
    ensures worth * (debt * bonus) * WAD <= value * (debt * WAD) * WAD + debt * (worth * bonus + (bonus + WAD) * WAD)
  {
    MulMono(value * WAD, worth * bonus, debt);
    MulMono(worth * bonus, value * WAD + WAD, debt * WAD);
    RegroupWhole(value, worth, bonus, debt);
    MulMono(0, worth * bonus + bonus * WAD, debt);
    Distribute(debt, worth * bonus + bonus * WAD, WAD * WAD);
  }

  lemma RegroupWhole(value: int, worth: int, bonus: int, debt: int)
    ensures (value * WAD) * debt == value * (debt * WAD) && (worth * bonus) * debt == worth * (debt * bonus)
    ensures (worth * bonus) * (debt * WAD) == worth * (debt * bonus) * WAD
    ensures (value * WAD + WAD) * (debt * WAD) == value * (debt * WAD) * WAD + debt * (WAD * WAD)
    ensures worth * bonus + (bonus + WAD) * WAD == worth * bonus + bonus * WAD + WAD * WAD
  {
  }

  // ----- the terms

  /** All of the collateral goes, against the part of the debt that it pays for. */
  predicate TakesAll(t: LiquidationTerms, debt: nat, value: nat, c: Collateral) {
    && t.withdrawAmount == c.deposited && t.settleAmount <= debt && t.settleAmount * value <= debt * c.marketValue
    && debt * c.marketValue * WAD <= (t.settleAmount + 1) * WAD * value + debt * value
  }

  /** All of the debt goes, against the share of the collateral that is worth as much. */
  predicate TakesShare(t: LiquidationTerms, debt: nat, value: nat, c: Collateral) {
    && t.settleAmount == debt && (t.withdrawAmount > 1 ==> t.withdrawAmount * c.marketValue <= c.deposited * value)
    && c.deposited * value * WAD <= (t.withdrawAmount + 1) * WAD * c.marketValue + c.deposited * c.marketValue
  }

  /** What the liquidation comes to, whichever branch computes it. */
  predicate TermsAre(t: LiquidationTerms, debt: nat, value: nat, c: Collateral) {
    if value > c.marketValue then TakesAll(t, debt, value, c)
    else if value == c.marketValue then t.settleAmount == debt && t.withdrawAmount == c.deposited
    else TakesShare(t, debt, value, c)
  }

  lemma TakeAllIs(debt: Decimal, value: Decimal, c: Collateral, bonusRate: Decimal)
    requires TakeAll(debt, value, c, bonusRate).Ok? && c.marketValue < value
    ensures TakesAll(TakeAll(debt, value, c, bonusRate).value, debt, value, c)
  {
    TakeAllBounded(debt, value, c, bonusRate);
    hide Mul, Div, CeilU64;
    ShareAtLeast(TakeAll(debt, value, c, bonusRate).value.settleAmount, debt, Div(c.marketValue, value).value, value, c.marketValue);
  }

  lemma ShareIs(c: Collateral, value: Decimal, share: Decimal, part: Decimal, withdraw: u64)
    requires value < c.marketValue && Div(value, c.marketValue) == Ok(share)
    requires Mul(FromInt(c.deposited), share) == Ok(part) && FloorU64(part) == Ok(withdraw)
    ensures withdraw * c.marketValue <= c.deposited * value
    ensures c.deposited * value * WAD <= (withdraw + 1) * WAD * c.marketValue + c.deposited * c.marketValue
  {
    SpareBounded(c, value, share, part, withdraw);
    assert value * WAD < share * c.marketValue + c.marketValue && withdraw * WAD <= part < withdraw * WAD + WAD;
    assert part * WAD <= FromInt(c.deposited) * share < part * WAD + WAD;
    hide Div, Mul, FloorU64;
    Assoc(c.deposited, WAD, share);
    MulCancelStrict(c.deposited * share, part + 1, WAD);
    ShareAtLeast(withdraw, c.deposited, share, c.marketValue, value);
  }

  lemma FullTermsAre(loan: Loan, c: Collateral, bonusRate: Decimal)
    requires FullLiquidation(loan, c, bonusRate).Ok?
    ensures Mul(loan.marketValue, bonusRate).Ok?
    ensures var value := Mul(loan.marketValue, bonusRate).value;
      TermsAre(FullLiquidation(loan, c, bonusRate).value, loan.borrowed, value, c)
  {
    hide Mul, Div, FloorU64, CeilU64, TakesAll;
    var value := Mul(loan.marketValue, bonusRate).value;
    if value > c.marketValue {
      TakeAllIs(loan.borrowed, value, c, bonusRate);
    } else if value < c.marketValue {
      var share := Div(value, c.marketValue).value;
      var part := Mul(FromInt(c.deposited), share).value;
      ShareIs(c, value, share, part, FloorU64(part).value);
      BumpedShare(FloorU64(part).value, c, value);
    }
  }

  lemma BumpedShare(withdraw: nat, c: Collateral, value: nat)
    requires withdraw * c.marketValue <= c.deposited * value
    requires c.deposited * value * WAD <= (withdraw + 1) * WAD * c.marketValue + c.deposited * c.marketValue
    ensures var most := Max(withdraw, 1);
      && (most > 1 ==> most * c.marketValue <= c.deposited * value)
      && c.deposited * value * WAD <= (most + 1) * WAD * c.marketValue + c.deposited * c.marketValue
  {
    MulMono((withdraw + 1) * WAD, (Max(withdraw, 1) + 1) * WAD, c.marketValue);
  }

  lemma PartialTermsAre(o: Obligation, loan: Loan, c: Collateral, amount: Decimal, bonusRate: Decimal)
    requires PartialLiquidation(o, loan, c, amount, bonusRate).Ok? && loan.marketValue > WAD
    ensures MaxLiquidationAmount(o, loan).Ok?
    ensures var debt: Decimal := Min(MaxLiquidationAmount(o, loan).value, amount);
      && ValueWithBonus(debt, loan, bonusRate).Ok?
      && TermsAre(PartialLiquidation(o, loan, c, amount, bonusRate).value, debt, ValueWithBonus(debt, loan, bonusRate).value, c)
  {
    hide Mul, Div, FloorU64, CeilU64, TakesAll, MaxLiquidationAmount;
    var debt: Decimal := Min(MaxLiquidationAmount(o, loan).value, amount);
    var value := ValueWithBonus(debt, loan, bonusRate).value;
    if value > c.marketValue {
      TakeAllIs(debt, value, c, bonusRate);
    } else if value < c.marketValue {
      var share := Div(value, c.marketValue).value;
      var part := Mul(FromInt(c.deposited), share).value;
      ShareIs(c, value, share, part, FloorU64(part).value);
    }
  }

  /** The terms of any liquidation: what may be settled is settled, for collateral worth that with the
      bonus - or all of it, for as much debt as it is worth. */
  lemma LiquidationTermsAre(config: Config, amount: u64, o: Obligation, loan: Loan, c: Collateral)
    returns (debt: Decimal, value: Decimal)
    requires CalculateLiquidation(config, amount, o, loan, c).Ok?
    ensures var t := CalculateLiquidation(config, amount, o, loan, c).value;
      Settleable(amount, o, loan) == Ok(debt) && ValueBrackets(value, debt, loan, t.bonusRate) && TermsAre(t, debt, value, c)
  {
    hide CalculateBonus, FullLiquidation, PartialLiquidation, MaxLiquidationAmount, TermsAre, ValueBrackets, ValueWithBonus, Mul;
    BonusOfTerms(config, amount, o, loan, c);
    var bonusRate := CalculateBonus(config, o).value + WAD;
    if loan.marketValue <= WAD {
      FullTermsAre(loan, c, bonusRate);
      debt := loan.borrowed;
      value := Mul(loan.marketValue, bonusRate).value;
      WholeValueIs(debt, loan, bonusRate, value);
    } else {
      PartialTermsAre(o, loan, c, Requested(amount, loan), bonusRate);
      debt := Min(MaxLiquidationAmount(o, loan).value, Requested(amount, loan));
      value := ValueWithBonus(debt, loan, bonusRate).value;
    }
    ValueIsBracketed(debt, loan, bonusRate, value);
  }

  lemma WholeValueIs(debt: Decimal, loan: Loan, bonusRate: Decimal, value: Decimal)
    requires loan.marketValue <= WAD && Mul(loan.marketValue, bonusRate) == Ok(value)
    ensures ValueWithBonus(debt, loan, bonusRate) == Ok(value)
  {
    hide Mul, Div;
  }

  // ----- at least the bonus

  /** bonus · settle/debt · debt value <= seized share of the collateral's value, less one token and a few
      units: the floors of the share, and of the value with its bonus. */
  predicate AtLeastBonus(t: LiquidationTerms, loan: Loan, c: Collateral) {
    c.deposited * (loan.marketValue * (t.settleAmount * t.bonusRate)) * WAD
      <= (t.withdrawAmount + 1) * c.marketValue * (loan.borrowed * WAD) * WAD
         + c.deposited * loan.borrowed * (c.marketValue * WAD + Slack(loan, t.bonusRate))
  }

  lemma ShareAtLeastBonus(t: LiquidationTerms, debt: nat, value: nat, loan: Loan, c: Collateral)
    requires ValueBrackets(value, debt, loan, t.bonusRate) && TakesShare(t, debt, value, c)
    ensures AtLeastBonus(t, loan, c)
  {
    var exact, unit, n := loan.marketValue * (debt * t.bonusRate), loan.borrowed * WAD, c.deposited;
    var slack := Slack(loan, t.bonusRate);
    hide Slack;
    ShareChain(n, exact, value, unit, loan.borrowed, slack, t.withdrawAmount, c.marketValue);
  }

  lemma ShareChain(n: nat, exact: nat, value: nat, unit: nat, borrowed: nat, slack: nat, withdraw: nat, worth: nat)
    requires exact * WAD <= value * unit * WAD + borrowed * slack && unit == borrowed * WAD
    requires n * value * WAD <= (withdraw + 1) * WAD * worth + n * worth
    ensures n * exact * WAD <= (withdraw + 1) * worth * unit * WAD + n * borrowed * (worth * WAD + slack)
  {
    MulMono(exact * WAD, value * unit * WAD + borrowed * slack, n);
    Assoc(n, exact, WAD);
    Distribute(n, value * unit * WAD, borrowed * slack);
    MulMono(n * value * WAD, (withdraw + 1) * WAD * worth + n * worth, unit);
    RegroupShare(n, value, unit, withdraw, worth);
    RegroupRest(n, borrowed, worth, slack);
  }

  lemma RegroupShare(n: int, value: int, unit: int, withdraw: int, worth: int)
    ensures (n * value * WAD) * unit == n * (value * unit * WAD)
    ensures ((withdraw + 1) * WAD * worth + n * worth) * unit == (withdraw + 1) * worth * unit * WAD + n * worth * unit
  {
    assert n * (value * unit * WAD) == (n * value * WAD) * unit;
    assert ((withdraw + 1) * WAD * worth) * unit == (withdraw + 1) * worth * unit * WAD;
    Distribute(unit, (withdraw + 1) * WAD * worth, n * worth);
  }

  lemma RegroupRest(n: int, borrowed: int, worth: int, slack: int)
    ensures n * borrowed * (worth * WAD + slack) == n * worth * (borrowed * WAD) + n * (borrowed * slack)
  {
    Distribute(n * borrowed, worth * WAD, slack);
    assert n * borrowed * (worth * WAD) == n * worth * (borrowed * WAD);
    assert n * borrowed * slack == n * (borrowed * slack);
  }

  lemma AllAtLeastBonus(t: LiquidationTerms, debt: nat, value: nat, loan: Loan, c: Collateral)
    requires ValueBrackets(value, debt, loan, t.bonusRate) && t.withdrawAmount == c.deposited
    requires t.settleAmount <= debt && t.settleAmount * value <= debt * c.marketValue
    ensures AtLeastBonus(t, loan, c)
  {
    var slack := Slack(loan, t.bonusRate);
    hide Slack;
    AllChain(c.deposited, loan.marketValue, debt, t.settleAmount, t.bonusRate, value, loan.borrowed * WAD, loan.borrowed, slack,
             c.marketValue);
  }

  lemma AllChain(n: nat, price: nat, debt: nat, settle: nat, bonus: nat, value: nat, unit: nat, borrowed: nat, slack: nat, worth: nat)
    requires price * (debt * bonus) * WAD <= value * unit * WAD + borrowed * slack
    requires settle <= debt && settle * value <= debt * worth
    ensures n * (price * (settle * bonus)) * WAD <= (n + 1) * worth * unit * WAD + n * borrowed * (worth * WAD + slack)
  {
    SettledPart(price, debt, settle, bonus, value, unit, borrowed, slack, worth);
    var exact := price * (settle * bonus);
    MulMono(exact * WAD, worth * unit * WAD + borrowed * slack, n);
    Assoc(n, exact, WAD);
    Distribute(n, worth * unit * WAD, borrowed * slack);
    AllRest(n, worth, unit, borrowed, slack);
  }

  lemma AllRest(n: nat, worth: nat, unit: nat, borrowed: nat, slack: nat)
    ensures n * (worth * unit * WAD) <= (n + 1) * worth * unit * WAD
    ensures n * (borrowed * slack) <= n * borrowed * (worth * WAD + slack)
  {
    MulMono(n, n + 1, worth * unit * WAD);
    assert (n + 1) * (worth * unit * WAD) == (n + 1) * worth * unit * WAD;
    MulMono(slack, worth * WAD + slack, n * borrowed);
    Assoc(n, borrowed, slack);
  }

  /** A part of the debt is worth as much of the value. */
  lemma SettledPart(price: nat, debt: nat, settle: nat, bonus: nat, value: nat, unit: nat, borrowed: nat, slack: nat, worth: nat)
    requires price * (debt * bonus) * WAD <= value * unit * WAD + borrowed * slack
    requires settle <= debt && settle * value <= debt * worth
    ensures price * (settle * bonus) * WAD <= worth * unit * WAD + borrowed * slack
  {
    if debt > 0 {
      MulMono(price * (debt * bonus) * WAD, value * unit * WAD + borrowed * slack, settle);
      RegroupSettled(price, debt, settle, bonus);
      Distribute(settle, value * unit * WAD, borrowed * slack);
      RegroupValueOf(settle, value, unit);
      MulMono(settle * value, debt * worth, unit * WAD);
      RegroupValueOf(debt, worth, unit);
      MulMono(settle, debt, borrowed * slack);
      Distribute(debt, worth * unit * WAD, borrowed * slack);
      MulCancel(price * (settle * bonus) * WAD, worth * unit * WAD + borrowed * slack, debt);
    }
  }

  lemma RegroupSettled(price: int, debt: int, settle: int, bonus: int)
    ensures (price * (debt * bonus) * WAD) * settle == (price * (settle * bonus) * WAD) * debt
  {
  }

  lemma RegroupValueOf(settle: int, value: int, unit: int)
    ensures settle * (value * unit * WAD) == (settle * value) * (unit * WAD)
  {
  }

  /** Whatever the branch, the liquidator seizes collateral worth at least the bonus rate times the debt
      repaid, up to the stated slack. */
  lemma SeizedAtLeastBonus(config: Config, amount: u64, o: Obligation, loan: Loan, c: Collateral)
    requires CalculateLiquidation(config, amount, o, loan, c).Ok?
    ensures AtLeastBonus(CalculateLiquidation(config, amount, o, loan, c).value, loan, c)
  {
    hide CalculateLiquidation, ValueBrackets, AtLeastBonus, Settleable;
    var t := CalculateLiquidation(config, amount, o, loan, c).value;
    var debt, value := LiquidationTermsAre(config, amount, o, loan, c);
    if value < c.marketValue {
      ShareAtLeastBonus(t, debt, value, loan, c);
    } else {
      AllAtLeastBonus(t, debt, value, loan, c);
    }
  }

  /** When all of the collateral goes, it is worth at most the bonus rate times the debt repaid plus one unit
      and a speck of the debt. */
  lemma AllTakenAtMostBonus(config: Config, amount: u64, o: Obligation, loan: Loan, c: Collateral) returns (debt: Decimal)
    requires CalculateLiquidation(config, amount, o, loan, c).Ok?
    ensures Settleable(amount, o, loan) == Ok(debt)
    ensures var t := CalculateLiquidation(config, amount, o, loan, c).value;
      && t.settleAmount <= debt
      && (t.settleAmount < debt ==>
            c.marketValue * WAD * (loan.borrowed * WAD) <= ((t.settleAmount + 1) * WAD + debt) * (loan.marketValue * t.bonusRate))
  {
    hide CalculateLiquidation, Settleable;
    var t := CalculateLiquidation(config, amount, o, loan, c).value;
    var value;
    debt, value := LiquidationTermsAre(config, amount, o, loan, c);
    if t.settleAmount < debt {
      AllWorth(debt, value, c.marketValue, t.settleAmount, loan.borrowed * WAD, loan.marketValue, t.bonusRate);
    }
  }

  lemma AllWorth(debt: nat, value: nat, worth: nat, settle: nat, unit: nat, price: nat, bonus: nat)
    requires debt > 0 && debt * worth * WAD <= (settle + 1) * WAD * value + debt * value
    requires value * unit <= price * (debt * bonus)
    ensures worth * WAD * unit <= ((settle + 1) * WAD + debt) * (price * bonus)
  {
    var part := (settle + 1) * WAD + debt;
    Distribute(value, (settle + 1) * WAD, debt);
    MulMono(debt * worth * WAD, part * value, unit);
    Assoc(part, value, unit);
    MulMono(value * unit, price * (debt * bonus), part);
    RegroupAll(debt, worth, unit, part, price, bonus);
    MulCancel(worth * WAD * unit, part * (price * bonus), debt);
  }

  lemma RegroupAll(debt: int, worth: int, unit: int, part: int, price: int, bonus: int)
    ensures (debt * worth * WAD) * unit == (worth * WAD * unit) * debt
    ensures part * (price * (debt * bonus)) == (part * (price * bonus)) * debt
  {
  }

  // ----- the bonus and the protocol's cut

  /** In tenths of a per cent, at most a quarter. */
  function CappedBonus(c: Config, bonus: nat): nat {
    Min(bonus + c.protocolLiquidationFee * 1_000_000_000_000_000, 250_000_000_000_000_000)
  }

  /** The bonus moves on a line from the minimum at the unhealthy limit to the maximum at the super-unhealthy
      one, and stays there - as it does for values so large that their ratio overflows; the protocol's fee
      comes on top, and a quarter is the cap. */
  lemma BonusInterpolates(c: Config, o: Obligation) returns (graded: nat)
    requires Sane(c) && CalculateBonus(c, o).Ok?
    ensures CalculateBonus(c, o).value == CappedBonus(c, graded)
    ensures o.unhealthyBorrowValue <= o.borrowedValue
    ensures var least, most := Percent(c.liquidationBonus), Percent(c.maxLiquidationBonus);
      if o.superUnhealthyBorrowValue == o.unhealthyBorrowValue then graded == least
      else
        && o.superUnhealthyBorrowValue > o.unhealthyBorrowValue
        && var over, span := o.borrowedValue - o.unhealthyBorrowValue, o.superUnhealthyBorrowValue - o.unhealthyBorrowValue;
        if over >= span || over * WAD >= U192 then graded == most else OnLine(graded, least, over, span, most - least)
  {
    PerMille(c.protocolLiquidationFee);
    var least, most := Percent(c.liquidationBonus), Percent(c.maxLiquidationBonus);
    graded := least;
    if o.superUnhealthyBorrowValue != o.unhealthyBorrowValue {
      var weight: Decimal;
      weight, graded := GradedBy(c, o);
      var over, span := o.borrowedValue - o.unhealthyBorrowValue, o.superUnhealthyBorrowValue - o.unhealthyBorrowValue;
      hide CalculateBonus, DecaBps, Ramp, OnLine, Sane, Percent;
      GradedOnLine(over, span, weight, least, most);
    }
  }

  /** The weight of an obligation beyond the unhealthy limit, and the bonus before fee and cap. */
  lemma GradedBy(c: Config, o: Obligation) returns (weight: Decimal, graded: nat)
    requires Sane(c) && CalculateBonus(c, o).Ok? && o.superUnhealthyBorrowValue != o.unhealthyBorrowValue
    ensures CalculateBonus(c, o).value
              == Min(graded + DecaBps(c.protocolLiquidationFee), Percent(MAX_BONUS_PCT))
    ensures o.unhealthyBorrowValue <= o.borrowedValue && o.unhealthyBorrowValue < o.superUnhealthyBorrowValue
    ensures weight == WeightOf(o.borrowedValue - o.unhealthyBorrowValue, o.superUnhealthyBorrowValue - o.unhealthyBorrowValue)
    ensures graded == Percent(c.liquidationBonus)
              + Scaled(weight, Percent(c.maxLiquidationBonus) - Percent(c.liquidationBonus))
  {
    hide Div, DecaBps;
    weight := WeightOf(o.borrowedValue - o.unhealthyBorrowValue, o.superUnhealthyBorrowValue - o.unhealthyBorrowValue);
    graded := Percent(c.liquidationBonus) + Scaled(weight, Percent(c.maxLiquidationBonus) - Percent(c.liquidationBonus));
  }

  function WeightOf(over: Decimal, span: Decimal): Decimal {
    match Div(over, span) case Ok(w) => Min(w, WAD) case Err(_) => WAD
  }

  lemma GradedOnLine(over: Decimal, span: Decimal, weight: Decimal, least: nat, most: nat)
    requires span > 0 && least <= most && weight == WeightOf(over, span)
    ensures var graded := least + Scaled(weight, most - least);
      if over >= span || over * WAD >= U192 then graded == most else OnLine(graded, least, over, span, most - least)
  {
    if over * WAD < U192 && over < span {
      MulMono(over, span, WAD);
      FloorAtMost(over * WAD, span, WAD);
      OnRamp(least, over, span, most - least);
      hide OnLine;
    } else {
      if over * WAD < U192 {
        MulMono(span, over, WAD);
        FloorAtLeast(over * WAD, span, WAD);
      }
      hide Div;
      FloorOfMultiple(most - least, WAD);
    }
  }

  predicate FeeBrackets(fee: nat, amount: nat, f: nat, bonus: nat) {
    && fee >= 1 && (fee > 1 ==> (fee - 1) * 1000 * bonus < amount * f * WAD)
    && amount * f * WAD * WAD <= (fee * WAD + 1) * 1000 * bonus + bonus * f
  }

  /** The protocol's cut is its per-mille fee of the redeemed amount less the bonus, rounded up, at least one
      token. */
  lemma ProtocolFeeIs(c: Config, amount: u64, bonusRate: Decimal)
    requires ProtocolLiquidationFee(c, amount, bonusRate).Ok?
    ensures FeeBrackets(ProtocolLiquidationFee(c, amount, bonusRate).value, amount, c.protocolLiquidationFee, bonusRate)
  {
    hide FeeBrackets, Div, Mul, CeilU64, DecaBps;
    var f := c.protocolLiquidationFee;
    var plain := Div(FromInt(amount), bonusRate).value;
    var cut := Mul(plain, DecaBps(f)).value;
    PerMille(f);
    CutIs(plain, f, cut);
    CutRoundedUp(cut);
    FeeBracket(amount, f, bonusRate, plain, cut, ProtocolLiquidationFee(c, amount, bonusRate).value);
  }

  lemma PerMille(f: u8)
    ensures DecaBps(f) == f * 1_000_000_000_000_000
  {
  }

  lemma CutRoundedUp(cut: Decimal)
    requires CeilU64(cut).Ok?
    ensures var fee := Max(CeilU64(cut).value, 1); cut <= fee * WAD && (fee > 1 ==> (fee - 1) * WAD < cut)
  {
  }

  lemma CutIs(plain: Decimal, f: nat, cut: Decimal)
    requires f < 256 && Mul(plain, f * 1_000_000_000_000_000) == Ok(cut)
    ensures cut * 1000 <= plain * f < cut * 1000 + 1000
  {
    Assoc(plain, f, 1_000_000_000_000_000);
  }

  lemma FeeBracket(amount: nat, f: nat, bonus: nat, plain: nat, cut: nat, fee: nat)
    requires bonus > 0 && plain * bonus <= amount * WAD * WAD < plain * bonus + bonus
    requires cut * 1000 <= plain * f < cut * 1000 + 1000
    requires 1 <= fee && cut <= fee * WAD && (fee > 1 ==> (fee - 1) * WAD < cut)
    ensures FeeBrackets(fee, amount, f, bonus)
  {
    FeeUpper(amount, f, bonus, plain, cut, fee);
    MulMono(amount * WAD * WAD, plain * bonus + bonus, f);
    Distribute(f, plain * bonus, bonus);
    Assoc(plain, bonus, f);
    MulMono(plain * f, (fee * WAD + 1) * 1000, bonus);
    RegroupCut(amount, f);
  }

  lemma RegroupCut(amount: int, f: int)
    ensures (amount * WAD * WAD) * f == amount * f * WAD * WAD
  {
  }

  lemma FeeUpper(amount: nat, f: nat, bonus: nat, plain: nat, cut: nat, fee: nat)
    requires bonus > 0 && plain * bonus <= amount * WAD * WAD && cut * 1000 <= plain * f
    requires 1 <= fee && (fee > 1 ==> (fee - 1) * WAD < cut)
    ensures fee > 1 ==> (fee - 1) * 1000 * bonus < amount * f * WAD
  {
    if fee > 1 {
      MulMono((fee - 1) * WAD * 1000 + 1, plain * f, bonus);
      Distribute(bonus, (fee - 1) * WAD * 1000, 1);
      MulMono(plain * bonus, amount * WAD * WAD, f);
      Assoc(plain, f, bonus);
      RegroupCut(amount, f);
      RegroupUpper(fee - 1, bonus);
      MulCancelStrict((fee - 1) * 1000 * bonus, amount * f * WAD, WAD);
    }
  }

  lemma RegroupUpper(whole: int, bonus: int)
    ensures (whole * WAD * 1000) * bonus == (whole * 1000 * bonus) * WAD
  {
  }
}
