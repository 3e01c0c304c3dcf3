/** Reserve accounting (token-lending/sdk/src/state/reserve.rs, last_update.rs), on values.

    `Net` is the total supply owed to the holders of the reserve's collateral tokens, scaled by
    10^18; with `mintSupply` tokens outstanding the share price is `Net / mintSupply`. */
module Reserves {
  import opened Results
  import opened FloorMath
  import opened FixedPoint
  import opened RatePower
  import opened RateLimiters
  import opened ReserveConfigs

  const SLOTS_PER_YEAR: u64 := 63072000
  const INITIAL_COLLATERAL_RATE: Rate := WAD

  datatype LastUpdate = LastUpdate(slot: u64, stale: bool) {
    function SlotsElapsed(now: u64): Result<u64> {
      if slot <= now then Ok(now - slot) else Err(MathOverflow)
    }

    function IsStale(now: u64): Result<bool> {
      if stale then Ok(true)
      else
        var elapsed :- SlotsElapsed(now);
        Ok(elapsed >= 1)
    }

    function MarkStale(): LastUpdate { this.(stale := true) }
  }

  datatype Liquidity = Liquidity(
    decimals: u8, available: u64, borrowed: Decimal, cumulativeRate: Decimal, fees: Decimal,
    price: Decimal, smoothedPrice: Decimal)

  datatype Reserve = Reserve(
    lastUpdate: LastUpdate, liquidity: Liquidity, mintSupply: u64, config: Config, limiter: Limiter)

  function Net(l: Liquidity): int { FromInt(l.available) + l.borrowed - l.fees }

  function TotalSupply(l: Liquidity): (r: Result<Decimal>)
    ensures r.Ok? ==> r.value == Net(l)
  {
    var gross :- Add(FromInt(l.available), l.borrowed);
    Sub(gross, l.fees)
  }

  // ----- collateral exchange rate

  function ExchangeRate(r: Reserve): (e: Result<Rate>)
    ensures e.Ok? ==> TotalSupply(r.liquidity).Ok?
  {
    var total :- TotalSupply(r.liquidity);
    if r.mintSupply == 0 || total == 0 then Ok(INITIAL_COLLATERAL_RATE)
    else
      var rate :- Div(FromInt(r.mintSupply), total);
      ToRate(rate)
  }

  function DecimalToLiquidity(rate: Rate, collateral: Decimal): Result<Decimal> { Div(collateral, rate) }

  function DecimalToCollateral(rate: Rate, liquidity: Decimal): Result<Decimal> { Mul(liquidity, rate) }

  function CollateralToLiquidity(rate: Rate, collateral: u64): Result<u64> {
    var d :- DecimalToLiquidity(rate, FromInt(collateral));
    FloorU64(d)
  }

  function LiquidityToCollateral(rate: Rate, liquidity: u64): Result<u64> {
    var d :- DecimalToCollateral(rate, FromInt(liquidity));
    FloorU64(d)
  }

  // ----- operations on the liquidity

  function DepositAvailable(l: Liquidity, amount: u64): Result<Liquidity> {
    if l.available + amount < U64 then Ok(l.(available := l.available + amount)) else Err(MathOverflow)
  }

  function WithdrawAvailable(l: Liquidity, amount: u64): Result<Liquidity> {
    if amount > l.available then Err(InsufficientLiquidity) else Ok(l.(available := l.available - amount))
  }

  function BorrowLiquidity(l: Liquidity, amount: Decimal): Result<Liquidity> {
    var whole :- FloorU64(amount);
    if whole > l.available then Err(InsufficientLiquidity)
    else
      var borrowed :- Add(l.borrowed, amount);
      Ok(l.(available := l.available - whole, borrowed := borrowed))
  }

  /** The settled part of the debt is capped by the reserve's own total, which may lag behind the
      sum of its borrowers' debts. */
  function RepayLiquidity(l: Liquidity, repay: u64, settle: Decimal): Result<Liquidity> {
    if l.available + repay >= U64 then Err(MathOverflow)
    else Ok(l.(available := l.available + repay, borrowed := l.borrowed - Min(settle, l.borrowed)))
  }

  function ForgiveDebt(l: Liquidity, amount: Decimal): Result<Liquidity> {
    var borrowed :- Sub(l.borrowed, amount);
    Ok(l.(borrowed := borrowed))
  }

  function RedeemableFees(l: Liquidity): Result<u64> {
    var whole :- FloorU64(l.fees);
    Ok(Min(l.available, whole))
  }

  function RedeemFees(l: Liquidity, amount: u64): Result<Liquidity> {
    if amount > l.available then Err(MathOverflow)
    else
      var fees :- Sub(l.fees, FromInt(amount));
      Ok(l.(available := l.available - amount, fees := fees))
  }

  // ----- operations on the reserve

  function DepositLiquidity(r: Reserve, amount: u64): Result<(Reserve, u64)> {
    var rate :- ExchangeRate(r);
    var collateral :- LiquidityToCollateral(rate, amount);
    var liquidity :- DepositAvailable(r.liquidity, amount);
    if r.mintSupply + collateral >= U64 then Err(MathOverflow)
    else Ok((r.(liquidity := liquidity, mintSupply := r.mintSupply + collateral), collateral))
  }

  function RedeemCollateral(r: Reserve, collateral: u64): Result<(Reserve, u64)> {
    var rate :- ExchangeRate(r);
    var amount :- CollateralToLiquidity(rate, collateral);
    if collateral > r.mintSupply then Err(MathOverflow)
    else
      var liquidity :- WithdrawAvailable(r.liquidity, amount);
      Ok((r.(liquidity := liquidity, mintSupply := r.mintSupply - collateral), amount))
  }

  function UtilizationRate(l: Liquidity): Result<Rate> {
    var total :- TotalSupply(l);
    if total == 0 || l.borrowed == 0 then Ok(0)
    else
      var denominator :- Add(l.borrowed, FromInt(l.available));
      var utilization :- Div(l.borrowed, denominator);
      ToRate(utilization)
  }

  function CurrentBorrowRate(r: Reserve): Result<Rate> {
    var utilization :- UtilizationRate(r.liquidity);
    BorrowRateAt(r.config, utilization)
  }

  /** Growth over `slots` slots at a yearly `rate`. */
  function Growth(rate: Rate, slots: u64): Result<Rate> {
    var perSlot: Rate := rate / SLOTS_PER_YEAR;
    var base :- RateAdd(WAD, perSlot);
    PowSpec(base, slots)
  }

  function CompoundBy(l: Liquidity, growth: Rate, takeRate: Rate): Result<Liquidity> {
    var cumulative :- Mul(l.cumulativeRate, growth);
    var grown :- Mul(l.borrowed, growth);
    var newDebt :- Sub(grown, l.borrowed);
    var share :- Mul(newDebt, takeRate);
    var fees :- Add(share, l.fees);
    var borrowed :- Add(l.borrowed, newDebt);
    Ok(l.(cumulativeRate := cumulative, fees := fees, borrowed := borrowed))
  }

  function CompoundInterest(l: Liquidity, rate: Rate, slots: u64, takeRate: Rate): Result<Liquidity> {
    var growth :- Growth(rate, slots);
    CompoundBy(l, growth, takeRate)
  }

  function AccrueInterest(r: Reserve, now: u64): Result<Reserve> {
    var slots :- r.lastUpdate.SlotsElapsed(now);
    if slots == 0 then Ok(r)
    else
      var rate :- CurrentBorrowRate(r);
      var l :- CompoundInterest(r.liquidity, rate, slots, Percent(r.config.protocolTakeRate));
      Ok(r.(liquidity := l))
  }

  // ----- share price

  /** The price of one collateral token does not fall from `r` to `s`. */
  predicate PriceKept(r: Reserve, s: Reserve) {
    s.mintSupply * Net(r.liquidity) <= r.mintSupply * Net(s.liquidity)
  }

  lemma PriceKeptTransitive(r: Reserve, s: Reserve, t: Reserve)
    requires PriceKept(r, s) && PriceKept(s, t) && s.mintSupply > 0
    requires Net(r.liquidity) >= 0 && Net(s.liquidity) >= 0 && Net(t.liquidity) >= 0
    ensures PriceKept(r, t)
  {
    ChainRatios(r.mintSupply, Net(r.liquidity), s.mintSupply, Net(s.liquidity), t.mintSupply, Net(t.liquidity));
  }

  lemma ChainRatios(m0: nat, t0: nat, m1: nat, t1: nat, m2: nat, t2: nat)
    requires m1 * t0 <= m0 * t1 && m2 * t1 <= m1 * t2 && m1 > 0
    ensures m2 * t0 <= m0 * t2
  {
    MulMono(m1 * t0, m0 * t1, m2);
    MulMono(m2 * t1, m1 * t2, m0);
    Assoc(m1, t0, m2);
    Assoc(t0, m2, m1);
    Assoc(m0, t1, m2);
    Assoc(m2, t1, m0);
    Assoc(m1, t2, m0);
    Assoc(m0, t2, m1);
    MulCancel(m2 * t0, m0 * t2, m1);
  }

  /** An exchange rate `e` with collateral outstanding and liquidity behind it brackets the exact
      ratio: e·T <= M·10^36 < (e + 1)·T. */
  lemma ExchangeRateBrackets(r: Reserve)
    requires ExchangeRate(r).Ok? && r.mintSupply > 0 && Net(r.liquidity) > 0
    ensures var e := ExchangeRate(r).value; var t := Net(r.liquidity);
            e * t <= FromInt(r.mintSupply) * WAD < e * t + t
  {
  }

  /** The minted collateral is `L·e` floored to whole tokens. */
  lemma MintedBrackets(rate: Rate, amount: u64)
    requires LiquidityToCollateral(rate, amount).Ok?
    ensures var c := LiquidityToCollateral(rate, amount).value; c * WAD <= amount * rate < c * WAD + WAD
  {
    var d := DecimalToCollateral(rate, FromInt(amount)).value;
    Assoc(amount, WAD, rate);
    hide Mul, FloorU64;
    MulCancel(d, amount * rate, WAD);
    MulCancelStrict(amount * rate, d + 1, WAD);
  }

  /** The redeemed liquidity is `c / e` floored to whole tokens. */
  lemma RedeemedBrackets(rate: Rate, collateral: u64)
    requires CollateralToLiquidity(rate, collateral).Ok?
    ensures rate > 0
    ensures var l := CollateralToLiquidity(rate, collateral).value; l * rate <= collateral * WAD
  {
    var d := DecimalToLiquidity(rate, FromInt(collateral)).value;
    var l := CollateralToLiquidity(rate, collateral).value;
    hide Div, FloorU64;
    MulMono(l * WAD, d, rate);
    Assoc(l, WAD, rate);
    MulCancel(l * rate, collateral * WAD, WAD);
  }

  /** Minting at a floored rate: c·T <= L·10^18·M. */
  lemma MintAtMostShare(c: nat, amount: nat, e: nat, m: nat, t: nat)
    requires c * WAD <= amount * e && e * t <= m * WAD * WAD
    ensures c * t <= m * (amount * WAD)
  {
    MulMono(c * WAD, amount * e, t);
    MulMono(e * t, m * WAD * WAD, amount);
    Assoc(amount, e, t);
    Assoc(c, WAD, t);
    Assoc(m, amount, WAD);
    Assoc(m * WAD, WAD, amount);
    MulCancel(c * t, m * WAD * amount, WAD);
  }

  lemma DepositEffect(r: Reserve, amount: u64)
    requires DepositLiquidity(r, amount).Ok?
    ensures ExchangeRate(r).Ok? && Net(r.liquidity) >= 0
    ensures var (s, c) := DepositLiquidity(r, amount).value;
      && LiquidityToCollateral(ExchangeRate(r).value, amount) == Ok(c)
      && s.mintSupply == r.mintSupply + c && Net(s.liquidity) == Net(r.liquidity) + amount * WAD
  {
    hide LiquidityToCollateral;
  }

  /** The minted collateral is worth at most the deposit at the old share price. */
  lemma DepositMintsWithinPrice(r: Reserve, amount: u64)
    requires DepositLiquidity(r, amount).Ok? && r.mintSupply > 0
    ensures DepositLiquidity(r, amount).value.1 * Net(r.liquidity) <= r.mintSupply * (amount * WAD)
  {
    DepositEffect(r, amount);
    var c, m, t, e := DepositLiquidity(r, amount).value.1, r.mintSupply, Net(r.liquidity), ExchangeRate(r).value;
    MintedBrackets(e, amount);
    if t > 0 { ExchangeRateBrackets(r); }
    hide DepositLiquidity, LiquidityToCollateral, ExchangeRate, Net;
    if t > 0 {
      MintAtMostShare(c, amount, e, m, t);
    } else {
      MulMono(0, amount * WAD, m);
    }
  }

  /** Deposits never lower the share price of the holders already there. */
  lemma DepositKeepsPrice(r: Reserve, amount: u64)
    requires DepositLiquidity(r, amount).Ok? && r.mintSupply > 0
    ensures PriceKept(r, DepositLiquidity(r, amount).value.0)
  {
    DepositEffect(r, amount);
    DepositMintsWithinPrice(r, amount);
    var (s, c) := DepositLiquidity(r, amount).value;
    hide DepositLiquidity, ExchangeRate, Net;
    Distribute(Net(r.liquidity), r.mintSupply, c);
    Distribute(r.mintSupply, Net(r.liquidity), amount * WAD);
  }

  lemma RedeemLoss(e: nat, m: nat, t: nat, c: nat, l: nat)
    requires c <= m && l * e <= c * WAD && m * WAD * WAD <= e * t + t
    ensures e * ((m - c) * t - m * (t - l * WAD)) <= c * t
  {
    ExpandLoss(m, t, c, l * WAD);
    RegroupFour(e, m, l);
    MulMono(l * e, c * WAD, m * WAD);
    RegroupMint(c, m);
    MulMono(m * WAD * WAD, e * t + t, c);
    Distribute(c, e * t, t);
    Assoc(c, e, t);
    Assoc(e, c, t);
    Distribute(e, m * (l * WAD), -(c * t));
  }

  lemma ExpandLoss(m: int, t: int, c: int, paid: int)
    ensures (m - c) * t - m * (t - paid) == m * paid - c * t
  {
  }

  lemma RegroupFour(e: int, m: int, l: int)
    ensures e * (m * (l * WAD)) == (l * e) * (m * WAD)
  {
  }

  lemma RegroupMint(c: int, m: int)
    ensures (c * WAD) * (m * WAD) == (m * WAD * WAD) * c
  {
  }

  /** Redeeming at a floored rate can overpay, by less than one collateral token's worth per token:
      e·(M'·T - M·T') <= c·T. */
  lemma RedeemLossBounded(r: Reserve, c: u64)
    requires RedeemCollateral(r, c).Ok? && Net(r.liquidity) > 0
    ensures var s := RedeemCollateral(r, c).value.0;
            ExchangeRate(r).value * (s.mintSupply * Net(r.liquidity) - r.mintSupply * Net(s.liquidity))
              <= c * Net(r.liquidity)
  {
    var (s, l) := RedeemCollateral(r, c).value;
    var e, m, t := ExchangeRate(r).value, r.mintSupply, Net(r.liquidity);
    assert Net(s.liquidity) == t - l * WAD && s.mintSupply == m - c;
    RedeemedBrackets(e, c);
    if m > 0 {
      ExchangeRateBrackets(r);
      hide RedeemCollateral, ExchangeRate, Net;
      RedeemLoss(e, m, t, c, l);
    }
  }

  /** A redemption pays the floored quotient at the floored rate ... */
  lemma RedeemPaysQuotient(rate: Rate, collateral: u64)
    requires CollateralToLiquidity(rate, collateral).Ok?
    ensures rate > 0 && CollateralToLiquidity(rate, collateral).value == Quot(collateral * WAD, rate)
  {
    var d := DecimalToLiquidity(rate, FromInt(collateral)).value;
    var l := CollateralToLiquidity(rate, collateral).value;
    assert l * WAD <= d < l * WAD + WAD && d * rate <= collateral * WAD * WAD < d * rate + rate;
    hide Div, FloorU64, CollateralToLiquidity;
    QuotientOfQuotient(collateral * WAD, d, rate, l);
    FloorUnique(collateral * WAD, rate, l, Quot(collateral * WAD, rate));
  }

  lemma QuotientOfQuotient(n: nat, d: nat, rate: nat, l: nat)
    requires rate > 0 && l * WAD <= d < l * WAD + WAD && d * rate <= n * WAD < d * rate + rate
    ensures l * rate <= n < l * rate + rate
  {
    MulMono(l * WAD, d, rate);
    MulMono(d + 1, l * WAD + WAD, rate);
    Distribute(rate, d, 1);
    Distribute(rate, l * WAD, WAD);
    Assoc(l, WAD, rate);
    MulCancel(l * rate, n, WAD);
    MulCancelStrict(n, l * rate + rate, WAD);
  }

  /** ... which is never less than the exact share c·T / (M·10^18), floored. */
  lemma ExactShareIsNoMore(e: nat, m: nat, t: nat, c: nat)
    requires e > 0 && m > 0 && t > 0 && e * t <= m * WAD * WAD
    ensures Quot(c * t, m * WAD) <= Quot(c * WAD, e)
  {
    var q := Quot(c * t, m * WAD);
    assert q * (m * WAD) <= c * t;
    hide Quot;
    MulMono(e * t, m * WAD * WAD, q);
    Assoc(q, e, t);
    Assoc(q, m * WAD, WAD);
    MulMono(q * (m * WAD), c * t, WAD);
    Assoc(c, t, WAD);
    MulCancel(q * e, c * WAD, t);
    ShareOfQuotient(q, e, c * WAD);
  }

  lemma ShareOfQuotient(q: nat, e: nat, n: nat)
    requires e > 0 && q * e <= n
    ensures q <= Quot(n, e)
  {
    FloorAtLeast(n, e, q);
  }

  /** So redeeming keeps the share price exactly if flooring the rate does not carry the payment over a
      whole token: floor(c·10^18 / e) == floor(c·T / (M·10^18)). */
  lemma RedeemKeepsPriceIff(r: Reserve, c: u64)
    requires RedeemCollateral(r, c).Ok? && Net(r.liquidity) > 0 && r.mintSupply > 0
    ensures ExchangeRate(r).value > 0
    ensures PriceKept(r, RedeemCollateral(r, c).value.0) <==>
      Quot(c * WAD, ExchangeRate(r).value) == Quot(c * Net(r.liquidity), r.mintSupply * WAD)
  {
    var (s, l) := RedeemCollateral(r, c).value;
    var e, m, t := ExchangeRate(r).value, r.mintSupply, Net(r.liquidity);
    assert Net(s.liquidity) == t - l * WAD && s.mintSupply == m - c;
    assert CollateralToLiquidity(e, c) == Ok(l);
    RedeemPaysQuotient(e, c);
    ExchangeRateBrackets(r);
    hide RedeemCollateral, ExchangeRate, Net, CollateralToLiquidity;
    ExactShareIsNoMore(e, m, t, c);
    ExpandLoss(m, t, c, l * WAD);
    Assoc(m, l, WAD);
    PaidWithinShare(l, m * WAD, c * t);
    Assoc(l, m, WAD);
  }

  lemma PaidWithinShare(l: nat, unit: nat, n: nat)
    requires unit > 0
    ensures l * unit <= n <==> l <= Quot(n, unit)
  {
    if l * unit <= n { FloorAtLeast(n, unit, l); } else { FloorBelow(n, unit, l); }
  }

  /** ... but in general it can: six tokens less a speck of protocol fees, shared by two. */
  lemma RedeemCanLowerPrice(c: Config, limiter: Limiter)
    ensures var r := Reserve(LastUpdate(0, false), Liquidity(0, 6, 0, WAD, 1, WAD, WAD), 2, c, limiter);
            RedeemCollateral(r, 1).Ok? && !PriceKept(r, RedeemCollateral(r, 1).value.0)
  {
    var r := Reserve(LastUpdate(0, false), Liquidity(0, 6, 0, WAD, 1, WAD, WAD), 2, c, limiter);
    FloorExact(2 * WAD * WAD, 6 * WAD - 1, 333_333_333_333_333_333);
    assert ExchangeRate(r) == Ok(333_333_333_333_333_333);
    FloorExact(WAD * WAD, 333_333_333_333_333_333, 3_000_000_000_000_000_003);
    assert CollateralToLiquidity(333_333_333_333_333_333, 1) == Ok(3);
  }

  /** Borrowing moves whole tokens out and books at least as much debt. */
  lemma BorrowKeepsNet(l: Liquidity, amount: Decimal)
    requires BorrowLiquidity(l, amount).Ok?
    ensures Net(l) <= Net(BorrowLiquidity(l, amount).value) < Net(l) + WAD
  {
  }

  /** Repayments bring in at least what they settle. */
  lemma RepayKeepsNet(l: Liquidity, repay: u64, settle: Decimal)
    requires RepayLiquidity(l, repay, settle).Ok? && settle <= FromInt(repay)
    ensures Net(l) <= Net(RepayLiquidity(l, repay, settle).value)
  {
  }

  lemma RedeemFeesKeepsNet(l: Liquidity, amount: u64)
    requires RedeemFees(l, amount).Ok?
    ensures Net(RedeemFees(l, amount).value) == Net(l)
  {
  }

  /** The fees on offer can always be redeemed in one go. */
  lemma RedeemableFeesCanBeRedeemed(l: Liquidity)
    requires RedeemableFees(l).Ok?
    ensures RedeemFees(l, RedeemableFees(l).value).Ok?
  {
  }

  lemma MoreNetKeepsPrice(r: Reserve, s: Reserve)
    requires s.mintSupply == r.mintSupply && Net(r.liquidity) <= Net(s.liquidity)
    ensures PriceKept(r, s)
  {
    var d := Net(s.liquidity) - Net(r.liquidity);
    Distribute(r.mintSupply, Net(r.liquidity), d);
    MulMono(0, d, r.mintSupply);
  }

  // ----- interest

  lemma GrowthAtLeastOne(rate: Rate, slots: u64)
    requires Growth(rate, slots).Ok?
    ensures Growth(rate, slots).value >= WAD + slots * (rate / SLOTS_PER_YEAR) >= WAD
  {
    PowAtLeastLinear(WAD + rate / SLOTS_PER_YEAR, slots);
    MulMono(0, rate / SLOTS_PER_YEAR, slots);
  }

  lemma MulGrows(value: Decimal, growth: Rate)
    requires growth >= WAD && Mul(value, growth).Ok?
    ensures Mul(value, growth).value >= value
  {
    MulMono(WAD, growth, value);
    FloorAtLeast(value * growth, WAD, value);
  }

  lemma MulShrinks(value: Decimal, factor: Rate)
    requires factor <= WAD && Mul(value, factor).Ok?
    ensures Mul(value, factor).value <= value
  {
    ScaledAtMost(factor, value);
  }

  /** `net_new_debt` never underflows, debt and index never shrink, and no more than the new debt
      goes to the protocol, so the holders' supply does not shrink. */
  lemma CompoundGrows(l: Liquidity, growth: Rate, takeRate: Rate)
    requires growth >= WAD && takeRate <= WAD
    ensures Mul(l.borrowed, growth).Ok? ==> Sub(Mul(l.borrowed, growth).value, l.borrowed).Ok?
    ensures CompoundBy(l, growth, takeRate).Ok? ==>
      var m := CompoundBy(l, growth, takeRate).value;
      && m.cumulativeRate >= l.cumulativeRate && m.borrowed >= l.borrowed
      && m.available == l.available && Net(m) >= Net(l) && m.fees >= l.fees
      && m.decimals == l.decimals && m.price == l.price && m.smoothedPrice == l.smoothedPrice
  {
    if Mul(l.borrowed, growth).Ok? { MulGrows(l.borrowed, growth); }
    if CompoundBy(l, growth, takeRate).Ok? {
      MulGrows(l.cumulativeRate, growth);
      MulShrinks(Sub(Mul(l.borrowed, growth).value, l.borrowed).value, takeRate);
      hide Mul;
    }
  }

  /** Accruing interest never lowers the index, the debt, the fees or the holders' supply. */
  lemma AccrueGrows(r: Reserve, now: u64)
    requires Sane(r.config) && AccrueInterest(r, now).Ok?
    ensures var s := AccrueInterest(r, now).value;
      && s == r.(liquidity := s.liquidity)
      && s.liquidity.cumulativeRate >= r.liquidity.cumulativeRate
      && s.liquidity.borrowed >= r.liquidity.borrowed
      && s.liquidity.available == r.liquidity.available
      && s.liquidity.price == r.liquidity.price && s.liquidity.smoothedPrice == r.liquidity.smoothedPrice
      && s.liquidity.decimals == r.liquidity.decimals
      && Net(s.liquidity) >= Net(r.liquidity)
      && (now == r.lastUpdate.slot ==> s == r)
  {
    if now != r.lastUpdate.slot {
      var rate := CurrentBorrowRate(r).value;
      var growth := Growth(rate, now - r.lastUpdate.slot).value;
      GrowthAtLeastOne(rate, now - r.lastUpdate.slot);
      CompoundGrows(r.liquidity, growth, Percent(r.config.protocolTakeRate));
      hide CompoundBy, Growth, CurrentBorrowRate;
    }
  }

  lemma AccrueKeepsPrice(r: Reserve, now: u64)
    requires Sane(r.config) && AccrueInterest(r, now).Ok?
    ensures PriceKept(r, AccrueInterest(r, now).value)
  {
    hide AccrueInterest, PriceKept;
    AccrueGrows(r, now);
    MoreNetKeepsPrice(r, AccrueInterest(r, now).value);
  }

  /** Utilization, once the total supply is defined, is at most one - so the interest curve applies. */
  lemma UtilizationAtMostOne(l: Liquidity)
    requires UtilizationRate(l).Ok?
    ensures UtilizationRate(l).value <= WAD
  {
    if l.borrowed > 0 && TotalSupply(l).value != 0 {
      MulMono(l.borrowed, l.borrowed + FromInt(l.available), WAD);
      FloorAtMost(l.borrowed * WAD, l.borrowed + FromInt(l.available), WAD);
    }
  }

  lemma CurrentBorrowRateDefined(r: Reserve)
    requires Sane(r.config) && UtilizationRate(r.liquidity).Ok?
    ensures CurrentBorrowRate(r).Ok?
    ensures Percent(r.config.minBorrowRate) <= CurrentBorrowRate(r).value
              <= r.config.superMaxBorrowRate * PERCENT_SCALER
  {
    hide UtilizationRate, BorrowRateAt, Curve;
    UtilizationAtMostOne(r.liquidity);
    BorrowRateDefined(r.config, UtilizationRate(r.liquidity).value);
    BorrowRateWithin(r.config, UtilizationRate(r.liquidity).value);
  }

  // ----- deposit, then redeem

  /** c tokens minted for L out of (M + c) tokens over T + L are worth at most L: c·T' <= M'·L. */
  lemma MintedShareOfTotal(c: nat, m: nat, t: nat, paid: nat)
    requires c * t <= m * paid
    ensures c * (t + paid) <= (m + c) * paid
  {
    Distribute(c, t, paid);
    Distribute(paid, m, c);
  }

  lemma RoundTripArithmetic(amount: nat, c: nat, m: nat, t: nat, e: nat, l: nat)
    requires t > 0 && c * t <= m * (amount * WAD)
    requires m * WAD * WAD < e * t + t && l * e <= c * WAD && amount > 0
    ensures l * e < amount * (e + 1)
  {
    MulMono(c * t, m * (amount * WAD), WAD);
    MulMono(m * WAD * WAD + 1, e * t + t, amount);
    Distribute(amount, m * WAD * WAD, 1);
    RegroupRoundTrip(m, amount);
    Assoc(c, t, WAD);
    Assoc(c, WAD, t);
    MulMono(l * e, c * WAD, t);
    Distribute(t, e, 1);
    Assoc(amount, e + 1, t);
    MulCancelStrict(l * e, amount * (e + 1), t);
  }

  lemma RegroupRoundTrip(m: int, amount: int)
    ensures m * (amount * WAD) * WAD == amount * (m * WAD * WAD)
  {
  }

  /** What `DepositThenRedeem` needs to know of a deposit. */
  lemma DepositMintsAtMostShare(r: Reserve, amount: u64)
    requires DepositLiquidity(r, amount).Ok?
    requires r.mintSupply > 0 || Net(r.liquidity) == 0
    ensures var (s, c) := DepositLiquidity(r, amount).value;
            c * Net(s.liquidity) <= s.mintSupply * (amount * WAD)
  {
    DepositEffect(r, amount);
    if r.mintSupply > 0 { DepositMintsWithinPrice(r, amount); }
    var (s, c) := DepositLiquidity(r, amount).value;
    hide DepositLiquidity, ExchangeRate, Net;
    MintedShareOfTotal(c, r.mintSupply, Net(r.liquidity), amount * WAD);
  }

  /** Redeeming freshly minted collateral returns l with l·e' < L·(e' + 1) at the new rate e', so
      never more than was deposited as long as L <= e'. */
  lemma DepositThenRedeem(r: Reserve, amount: u64)
    requires amount > 0 && DepositLiquidity(r, amount).Ok?
    requires r.mintSupply > 0 || Net(r.liquidity) == 0
    requires var (s, c) := DepositLiquidity(r, amount).value; RedeemCollateral(s, c).Ok?
    ensures var (s, c) := DepositLiquidity(r, amount).value;
            var e, l := ExchangeRate(s).value, RedeemCollateral(s, c).value.1;
            l * e < amount * (e + 1) && (amount <= e ==> l <= amount)
  {
    DepositEffect(r, amount);
    DepositMintsAtMostShare(r, amount);
    var (s, c) := DepositLiquidity(r, amount).value;
    var e, l := ExchangeRate(s).value, RedeemCollateral(s, c).value.1;
    var m, t := s.mintSupply, Net(s.liquidity);
    RedeemedBrackets(e, c);
    if m > 0 { ExchangeRateBrackets(s); }
    hide DepositLiquidity, RedeemCollateral, ExchangeRate, Net;
    if m > 0 {
      RoundTripArithmetic(amount, c, m, t, e, l);
    } else {
      MulMono(1, amount, e + 1);
    }
    if amount <= e {
      Distribute(amount, e, 1);
      Distribute(e, amount, 1);
      MulCancelStrict(l, amount + 1, e);
    }
  }
}
