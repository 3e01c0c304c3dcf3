/** What a borrow comes to: which amount is lent, what the limiters record, and how the borrow limit holds. */
module BorrowOutcomes {
  import opened Results
  import opened FloorMath
  import opened FixedPoint
  import opened RateLimiters
  import opened ReserveConfigs
  import opened Reserves
  import opened Valuation
  import opened BorrowFees
  import opened Obligations
  import opened BorrowingLimits
  import opened Lending
  import opened LendingSafety
  import opened ReserveSteps
  import opened PositionSteps

  /** What the reserve's borrow limit still leaves. */
  function Capacity(r: Reserve): nat {
    if r.liquidity.borrowed <= r.config.borrowLimit * WAD then r.config.borrowLimit * WAD - r.liquidity.borrowed else 0
  }

  /** Ten thousand basis points more are one more weight. */
  lemma BorrowWeightIs(c: Config)
    ensures BorrowWeight(c) * 10_000 == (10_000 + c.addedBorrowWeightBps) * WAD
  {
    FloorExact(FromInt(c.addedBorrowWeightBps), 10_000, c.addedBorrowWeightBps * 100_000_000_000_000);
  }

  /** Dollars turn into tokens at the high price, floored twice. */
  lemma UsdToLiquidityBrackets(l: Liquidity, quote: Decimal)
    requires UsdToLiquidityLowerBound(l, quote).Ok?
    ensures var tokens, p := UsdToLiquidityLowerBound(l, quote).value, PriceHigh(l);
      && tokens * p <= quote * TenTo(l.decimals) * WAD < tokens * p + p
  {
    var scale, p := TenTo(l.decimals), PriceHigh(l);
    var scaled := Mul(quote, scale * WAD).value;
    var tokens := Div(scaled, p).value;
    ScaledExactly(quote, scale, scaled);
    hide Mul, TenTo;
  }

  lemma ScaledExactly(quote: Decimal, scale: nat, scaled: Decimal)
    requires scale * WAD < U192 && Mul(quote, scale * WAD) == Ok(scaled)
    ensures scaled == quote * scale
  {
    Assoc(quote, scale, WAD);
    hide Mul;
    FloorUnique(quote * scale * WAD, WAD, scaled, quote * scale);
  }

  /** What the limiters leave for a borrow: no more tokens than the reserve's, no more than the market's - or
      the borrower's - value buys at the higher price, and as many as that. */
  lemma OutflowTokensAre(r: Reserve, market: Limiter, now: u64, maxValue: Decimal) returns (usd: Decimal, own: Decimal)
    requires MaxOutflowTokens(r, market, now, maxValue).Ok?
    ensures RemainingOutflow(market, now).Ok? && RemainingOutflow(market, now).value.1 == usd
    ensures RemainingOutflow(r.limiter, now).Ok? && RemainingOutflow(r.limiter, now).value.1 == own
    ensures var most, l := MaxOutflowTokens(r, market, now, maxValue).value, r.liquidity;
      most <= own && Buys(l, Min(usd, maxValue), most, own)
  {
    usd, own := RemainingOutflow(market, now).value.1, RemainingOutflow(r.limiter, now).value.1;
    hide RemainingOutflow, UsdToLiquidityLowerBound, TenTo;
    UsdToLiquidityBrackets(r.liquidity, Min(usd, maxValue));
    FewerTokens(UsdToLiquidityLowerBound(r.liquidity, Min(usd, maxValue)).value, own, PriceHigh(r.liquidity));
  }

  /** `quote` buys `tokens` at the higher of the two prices, and no more - unless `most` is the limit. */
  predicate Buys(l: Liquidity, quote: nat, tokens: nat, most: nat) {
    var p, value := Max(l.price, l.smoothedPrice), quote * TenTo(l.decimals) * WAD;
    tokens * p <= value && (tokens < most ==> value < tokens * p + p)
  }

  lemma FewerTokens(bought: nat, own: nat, p: nat)
    ensures Min(bought, own) * p <= bought * p
  {
    MulMono(Min(bought, own), bought, p);
  }

  /** ... and for a withdrawal that is redeemed: the collateral that redeems for that many tokens. */
  lemma OutflowCollateralIs(r: Reserve, market: Limiter, now: u64, depositedValue: Decimal)
    returns (usd: Decimal, own: Decimal, tokens: Decimal)
    requires MaxOutflowCollateral(r, market, now, depositedValue).Ok?
    ensures RemainingOutflow(market, now).Ok? && RemainingOutflow(market, now).value.1 == usd
    ensures RemainingOutflow(r.limiter, now).Ok? && RemainingOutflow(r.limiter, now).value.1 == own
    ensures ExchangeRate(r).Ok? && tokens <= own && Buys(r.liquidity, Min(usd, depositedValue * 2), tokens, own)
    ensures var most, rate := MaxOutflowCollateral(r, market, now, depositedValue).value, ExchangeRate(r).value;
      most * WAD * WAD <= tokens * rate < (most + 1) * WAD * WAD
  {
    usd, own := RemainingOutflow(market, now).value.1, RemainingOutflow(r.limiter, now).value.1;
    var bought := UsdToLiquidityLowerBound(r.liquidity, Min(usd, depositedValue * 2)).value;
    tokens := Min(bought, own);
    var scaled := DecimalToCollateral(ExchangeRate(r).value, tokens).value;
    assert scaled * WAD <= tokens * ExchangeRate(r).value < scaled * WAD + WAD;
    hide RemainingOutflow, UsdToLiquidityLowerBound, TenTo, ExchangeRate, Mul;
    UsdToLiquidityBrackets(r.liquidity, Min(usd, depositedValue * 2));
    FewerTokens(bought, own, PriceHigh(r.liquidity));
  }

  lemma PriceBorrowIs(w: World, r: Reserve, amount: u64, room: Decimal)
    requires Safe(w) && ReserveOk(r, w.slot) && PriceBorrow(w, r, amount, room).Ok?
    ensures MaxOutflowTokens(r, w.market, w.slot, room).Ok? && Capacity(r) < U192
    ensures var t := PriceBorrow(w, r, amount, room).value.0;
      && t.receiveAmount > 0
      && CalculateBorrow(r, amount, room, Min(Capacity(r), MaxOutflowTokens(r, w.market, w.slot, room).value)) == Ok(t)
  {
    hide Safe, RemainingOutflow, MaxOutflowTokens, CalculateBorrow, LimiterOk, Sane, ReserveFits;
  }

  /** The largest borrow is the smallest of what the value allows, what is left of the limits, and what is
      there. */
  lemma LargestBorrow(r: Reserve, maxValue: Decimal, remaining: Decimal)
    requires CalculateBorrow(r, U64_MAX, maxValue, remaining).Ok?
    ensures MaxBorrow(r, maxValue).Ok?
    ensures CalculateBorrow(r, U64_MAX, maxValue, remaining).value.borrowAmount
              == Min(Min(MaxBorrow(r, maxValue).value, remaining), FromInt(r.liquidity.available))
  {
    hide MaxBorrow, CalculateFees, FloorU64;
  }

  /** A borrow: its terms; the limiters, which record its value at the high price and its amount; the
      reserve, which books it and pays out the received amount and the fee; and the borrow limit, which a
      "maximum" borrow keeps and a fixed one keeps without its fee. */
  lemma BorrowOutcome(w: World, u: World, id: nat, key: Pubkey, amount: u64) returns (t: BorrowTerms, room: Decimal)
    requires Safe(w) && DoBorrow(w, id, key, amount) == Ok(u)
    ensures id < |w.obligations| && key in w.reserves && key in u.reserves && amount > 0
    ensures RemainingBorrowValue(w.obligations[id]) == Ok(room) && room > 0 && Capacity(w.reserves[key]) < U192
    ensures w.obligations[id].borrowedValueUpperBound + room == w.obligations[id].allowedBorrowValue
    ensures MaxOutflowTokens(w.reserves[key], w.market, w.slot, room).Ok?
    ensures CalculateBorrow(w.reserves[key], amount, room,
              Min(Capacity(w.reserves[key]), MaxOutflowTokens(w.reserves[key], w.market, w.slot, room).value)) == Ok(t)
    ensures var r, s := w.reserves[key], u.reserves[key];
      && MarketValueUpperBound(r.liquidity, t.borrowAmount).Ok?
      && Update(w.market, w.slot, MarketValueUpperBound(r.liquidity, t.borrowAmount).value) == Ok(u.market)
      && Update(r.limiter, w.slot, t.borrowAmount) == Ok(s.limiter)
      && Lent(r, s, t) && LimitKept(r, s, amount, t)
  {
    hide Safe, CheckBorrow, PriceBorrow, ValueAt, Update, LimiterFits, BorrowLiquidity, AddLoan, PayBorrow,
         ObligationFits, ReserveFits, LimiterOk, CalculateBorrow, Sane, RemainingOutflow, MaxOutflowTokens, Capacity, Lent, LimitKept;
    SafeReserve(w, key);
    SafeMarket(w);
    var r, o := w.reserves[key], w.obligations[id];
    CheckBorrowFacts(w, o, r, key, amount);
    CheckedLimit(w, o, r, key, amount);
    room := CheckBorrow(w, o, r, key, amount).value;
    PriceBorrowFacts(w, r, amount, room);
    PriceBorrowIs(w, r, amount, room);
    t := PriceBorrow(w, r, amount, room).value.0;
    var market, own := PriceBorrow(w, r, amount, room).value.1, PriceBorrow(w, r, amount, room).value.2;
    BorrowLimiters(w.market, market, w.slot, MarketValueUpperBound(r.liquidity, t.borrowAmount).value);
    BorrowLimiters(r.limiter, own, w.slot, t.borrowAmount);
    var remaining: Decimal := Min(Capacity(r), MaxOutflowTokens(r, w.market, w.slot, room).value);
    LentIs(r, u.reserves[key], amount, room, remaining, t);
    LimitIs(r, u.reserves[key], amount, room, remaining, t);
  }

  /** The reserve after it lent on these terms. */
  predicate Lent(r: Reserve, s: Reserve, t: BorrowTerms) {
    && s.liquidity.borrowed == r.liquidity.borrowed + t.borrowAmount
    && s.liquidity.available + t.receiveAmount + t.borrowFee == r.liquidity.available
    && s.liquidity == r.liquidity.(available := s.liquidity.available, borrowed := s.liquidity.borrowed)
    && s.mintSupply == r.mintSupply && s.config == r.config
  }

  predicate LimitKept(r: Reserve, s: Reserve, amount: u64, t: BorrowTerms) {
    if amount == U64_MAX then s.liquidity.borrowed <= FromInt(r.config.borrowLimit)
    else s.liquidity.borrowed < FromInt(r.config.borrowLimit) + FromInt(t.borrowFee) + WAD
  }

  lemma CheckedLimit(w: World, o: Obligation, r: Reserve, key: Pubkey, amount: u64)
    requires CheckBorrow(w, o, r, key, amount).Ok?
    ensures amount > 0 && CheckBorrow(w, o, r, key, amount).value > 0
    ensures amount != U64_MAX ==> FromInt(amount) + r.liquidity.borrowed < FromInt(r.config.borrowLimit) + WAD
  {
    hide NotStale, CheckTier;
  }

  lemma LentIs(r: Reserve, s: Reserve, amount: u64, room: Decimal, remaining: Decimal, t: BorrowTerms)
    requires Sane(r.config) && CalculateBorrow(r, amount, room, remaining) == Ok(t)
    requires BorrowLiquidity(r.liquidity, t.borrowAmount) == Ok(s.liquidity) && s.mintSupply == r.mintSupply && s.config == r.config
    ensures Lent(r, s, t)
  {
    BorrowAddsUp(r, amount, room, remaining);
    hide CalculateBorrow, FloorU64;
  }

  lemma LimitIs(r: Reserve, s: Reserve, amount: u64, room: Decimal, remaining: Decimal, t: BorrowTerms)
    requires CalculateBorrow(r, amount, room, remaining) == Ok(t) && remaining <= Capacity(r)
    requires t.receiveAmount > 0 && BorrowLiquidity(r.liquidity, t.borrowAmount) == Ok(s.liquidity)
    requires amount != U64_MAX ==> FromInt(amount) + r.liquidity.borrowed < FromInt(r.config.borrowLimit) + WAD
    ensures LimitKept(r, s, amount, t)
  {
    if amount == U64_MAX {
      LargestBorrow(r, room, remaining);
      assert t.borrowAmount >= WAD by { ReceivesWhole(r, room, remaining, t); }
    } else {
      FixedBorrowFee(r, amount, room, remaining);
    }
    hide CalculateBorrow, MaxBorrow, FloorU64, HostShare, Nearest;
  }

  lemma ReceivesWhole(r: Reserve, room: Decimal, remaining: Decimal, t: BorrowTerms)
    requires CalculateBorrow(r, U64_MAX, room, remaining) == Ok(t) && t.receiveAmount > 0
    ensures t.borrowAmount >= WAD
  {
    hide MaxBorrow, CalculateFees;
  }
}
