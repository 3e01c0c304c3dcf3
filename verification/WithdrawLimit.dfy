/** How much `max_withdraw_amount` lets out (token-lending/sdk/src/state/obligation.rs): everything where
    there is nothing to cover, nothing where the limit is used up, and otherwise just about as much as the
    room under the limit pays for. */
module WithdrawLimits {
  import opened Results
  import opened FloorMath
  import opened FixedPoint
  import opened Reserves
  import opened Valuation
  import opened Obligations

  /** What the collateral is worth of which the room is the loan-to-value share, and so on down to the tokens:
      every step floors, so one token more would not fit. */
  predicate JustFits(max: nat, room: nat, share: nat, scale: nat, price: nat, rate: nat) {
    room * WAD * scale * WAD * rate < share * (((max + 1) * WAD * WAD + rate) * price + scale * WAD * rate)
  }

  lemma MaxWithdrawIs(o: Obligation, c: Collateral, r: Reserve)
    requires MaxWithdrawAmount(o, c, r).Ok?
    ensures var max := MaxWithdrawAmount(o, c, r).value;
      if o.borrows == [] then max == c.deposited
      else if o.allowedBorrowValue <= o.borrowedValueUpperBound then max == 0
      else if r.config.loanToValue == 0 then max == c.deposited
      else
        && ExchangeRate(r).Ok? && max <= c.deposited
        && (max < c.deposited ==>
              JustFits(max, o.allowedBorrowValue - o.borrowedValueUpperBound, Percent(r.config.loanToValue),
                       TenTo(r.liquidity.decimals), PriceLow(r.liquidity), ExchangeRate(r).value))
  {
    hide Div, Mul, FloorU64, TenTo, ExchangeRate, JustFits;
    if o.borrows != [] && o.allowedBorrowValue > o.borrowedValueUpperBound && r.config.loanToValue > 0 {
      LimitedWithdraw(o, c, r);
    }
  }

  lemma LimitedWithdraw(o: Obligation, c: Collateral, r: Reserve)
    requires MaxWithdrawAmount(o, c, r).Ok? && o.borrows != [] && o.allowedBorrowValue > o.borrowedValueUpperBound
    requires r.config.loanToValue > 0
    ensures ExchangeRate(r).Ok?
    ensures var max := MaxWithdrawAmount(o, c, r).value;
      && max <= c.deposited
      && (max < c.deposited ==>
            JustFits(max, o.allowedBorrowValue - o.borrowedValueUpperBound, Percent(r.config.loanToValue),
                     TenTo(r.liquidity.decimals), PriceLow(r.liquidity), ExchangeRate(r).value))
  {
    hide TenTo, PriceLow, ExchangeRate, JustFits;
    var room: Decimal := o.allowedBorrowValue - o.borrowedValueUpperBound;
    var share, scale, p, rate := Percent(r.config.loanToValue), TenTo(r.liquidity.decimals), PriceLow(r.liquidity), ExchangeRate(r).value;
    var value := Div(room, share).value;
    var liquidity := Div(MulInt(value, scale).value, p).value;
    var collateral := Mul(liquidity, rate).value;
    var whole := FloorU64(collateral).value;
    assert room * WAD < value * share + share && value * scale * WAD < liquidity * p + p && p > 0 && share > 0;
    assert liquidity * rate < collateral * WAD + WAD && collateral < whole * WAD + WAD;
    hide MaxWithdrawAmount, Div, Mul, FloorU64, Percent;
    StepsFit(whole, room, share, scale, p, rate, value, liquidity, collateral);
    WholeIsMax(o, c, r, whole);
  }

  lemma WholeIsMax(o: Obligation, c: Collateral, r: Reserve, whole: u64)
    requires MaxWithdrawAmount(o, c, r).Ok? && o.borrows != [] && o.allowedBorrowValue > o.borrowedValueUpperBound
    requires r.config.loanToValue > 0 && ExchangeRate(r).Ok?
    requires Div(o.allowedBorrowValue - o.borrowedValueUpperBound, Percent(r.config.loanToValue)).Ok?
    requires var value := Div(o.allowedBorrowValue - o.borrowedValueUpperBound, Percent(r.config.loanToValue)).value;
      && TenTo(r.liquidity.decimals) < U64 && MulInt(value, TenTo(r.liquidity.decimals)).Ok?
      && var scaled := MulInt(value, TenTo(r.liquidity.decimals)).value;
      && Div(scaled, PriceLow(r.liquidity)).Ok? && Mul(Div(scaled, PriceLow(r.liquidity)).value, ExchangeRate(r).value).Ok?
      && FloorU64(Mul(Div(scaled, PriceLow(r.liquidity)).value, ExchangeRate(r).value).value) == Ok(whole)
    ensures MaxWithdrawAmount(o, c, r).value == Min(whole, c.deposited)
  {
    hide Div, Mul, FloorU64, TenTo, PriceLow, Percent, ExchangeRate;
  }

  lemma StepsFit(whole: nat, room: nat, share: nat, scale: nat, p: nat, rate: nat, value: nat, liquidity: nat, collateral: nat)
    requires room * WAD < value * share + share && value * scale * WAD < liquidity * p + p
    requires liquidity * rate < collateral * WAD + WAD && collateral < whole * WAD + WAD && scale > 0 && share > 0 && p > 0
    ensures JustFits(whole, room, share, scale, p, rate)
  {
    if rate > 0 {
      var k := scale * WAD * rate;
      MulMono(0, rate, scale * WAD);
      TokensFit(whole, rate, liquidity, collateral);
      LiquidityFits(whole, scale, p, rate, value, liquidity);
      ValueFits(whole, room, share, scale, p, rate, value, k);
    } else {
      NothingFits(whole, room, share, scale, p);
    }
  }

  lemma NothingFits(whole: nat, room: nat, share: nat, scale: nat, p: nat)
    requires share > 0 && p > 0
    ensures JustFits(whole, room, share, scale, p, 0)
  {
    var tokens := (whole + 1) * WAD * WAD;
    MulMono(1, p, tokens);
    MulMono(1, share, tokens * p);
    assert room * WAD * scale * WAD * 0 == 0 && scale * WAD * 0 == 0;
  }

  lemma TokensFit(whole: nat, rate: nat, liquidity: nat, collateral: nat)
    requires liquidity * rate < collateral * WAD + WAD && collateral < whole * WAD + WAD
    ensures liquidity * rate <= (whole + 1) * WAD * WAD
  {
    MulMono(collateral + 1, (whole + 1) * WAD, WAD);
  }

  lemma LiquidityFits(whole: nat, scale: nat, p: nat, rate: nat, value: nat, liquidity: nat)
    requires value * scale * WAD < liquidity * p + p && liquidity * rate <= (whole + 1) * WAD * WAD
    ensures value * (scale * WAD * rate) <= ((whole + 1) * WAD * WAD + rate) * p
  {
    MulMono(value * scale * WAD, liquidity * p + p, rate);
    Distribute(rate, liquidity * p, p);
    Assoc(liquidity, p, rate);
    MulMono(liquidity * rate, (whole + 1) * WAD * WAD, p);
    Distribute(p, (whole + 1) * WAD * WAD, rate);
    RegroupScale(value, scale, rate);
  }

  lemma RegroupScale(value: int, scale: int, rate: int)
    ensures (value * scale * WAD) * rate == value * (scale * WAD * rate)
  {
  }

  lemma ValueFits(whole: nat, room: nat, share: nat, scale: nat, p: nat, rate: nat, value: nat, k: nat)
    requires room * WAD < value * share + share && k == scale * WAD * rate && k > 0
    requires value * k <= ((whole + 1) * WAD * WAD + rate) * p
    ensures JustFits(whole, room, share, scale, p, rate)
  {
    var most := ((whole + 1) * WAD * WAD + rate) * p;
    MulMono(room * WAD + 1, value * share + share, k);
    Distribute(k, room * WAD, 1);
    Distribute(k, value * share, share);
    Assoc(value, share, k);
    MulMono(value * k, most, share);
    Distribute(share, most, k);
    RegroupRoom(room, scale, rate, k);
  }

  lemma RegroupRoom(room: int, scale: int, rate: int, k: int)
    requires k == scale * WAD * rate
    ensures (room * WAD) * k == room * WAD * scale * WAD * rate
  {
  }
}
