/** Market values, borrow fees and the borrow and repay calculators
    (token-lending/sdk/src/state/reserve.rs). */
module Valuation {
  import opened Results
  import opened FloorMath
  import opened FixedPoint
  import opened ReserveConfigs
  import opened Reserves

  // ----- market values

  function TenTo(d: nat): (p: nat)
    ensures p >= 1
  {
    if d == 0 then 1 else 10 * TenTo(d - 1)
  }

  /** `10u128.checked_pow(decimals)` */
  function ScaleU128(d: u8): Result<Rate> {
    if TenTo(d) < U128 then Ok(TenTo(d)) else Err(MathOverflow)
  }

  /** `10u64.checked_pow(decimals)` */
  function ScaleU64(d: u8): Result<u64> {
    if TenTo(d) < U64 then Ok(TenTo(d)) else Err(MathOverflow)
  }

  function ValueAt(price: Decimal, d: u8, amount: Decimal): Result<Decimal> {
    var scale :- ScaleU128(d);
    var product :- Mul(price, amount);
    Div(product, scale * WAD)
  }

  function PriceLow(l: Liquidity): Decimal { Min(l.price, l.smoothedPrice) }

  function PriceHigh(l: Liquidity): Decimal { Max(l.price, l.smoothedPrice) }

  function MarketValue(l: Liquidity, amount: Decimal): Result<Decimal> { ValueAt(l.price, l.decimals, amount) }

  function MarketValueUpperBound(l: Liquidity, amount: Decimal): Result<Decimal> {
    ValueAt(PriceHigh(l), l.decimals, amount)
  }

  function MarketValueLowerBound(l: Liquidity, amount: Decimal): Result<Decimal> {
    ValueAt(PriceLow(l), l.decimals, amount)
  }

  function UsdToLiquidityLowerBound(l: Liquidity, quote: Decimal): Result<Decimal> {
    var scale :- ScaleU128(l.decimals);
    var scaled :- Mul(quote, scale * WAD);
    Div(scaled, PriceHigh(l))
  }

  /** A price and an amount are scaled by 10^18 each, and the amount counts 10^-d tokens. */
  function Unit(d: u8): (n: nat)
    ensures n >= WAD
  {
    MulMono(1, TenTo(d), WAD);
    WAD * TenTo(d)
  }

  /** What the nested floors of `ValueAt` come to. */
  function Worth(price: nat, d: u8, amount: nat): nat { Quot(price * amount, Unit(d)) }

  lemma ValueAtIsWorth(price: Decimal, d: u8, amount: Decimal)
    requires ValueAt(price, d, amount).Ok?
    ensures ValueAt(price, d, amount) == Ok(Worth(price, d, amount))
  {
    var product := Mul(price, amount).value;
    var v := ValueAt(price, d, amount).value;
    assert v * (TenTo(d) * WAD) <= product * WAD < v * (TenTo(d) * WAD) + TenTo(d) * WAD;
    hide Mul, Div, TenTo, ValueAt, Quot;
    NestedFloors(price * amount, product, TenTo(d), v);
    FloorUnique(price * amount, Unit(d), v, Worth(price, d, amount));
  }

  lemma NestedFloors(n: nat, product: nat, scale: nat, v: nat)
    requires product * WAD <= n < product * WAD + WAD
    requires v * (scale * WAD) <= product * WAD < v * (scale * WAD) + scale * WAD
    ensures v * (WAD * scale) <= n < v * (WAD * scale) + WAD * scale
  {
    Assoc(v, scale, WAD);
    MulCancelStrict(product, v * scale + scale, WAD);
  }

  lemma WorthBounds(price: nat, d: u8, amount: nat)
    ensures Worth(price, d, amount) * Unit(d) <= price * amount < Worth(price, d, amount) * Unit(d) + Unit(d)
  {
  }

  lemma WorthMono(p: nat, q: nat, d: u8, a: nat, b: nat)
    requires p <= q && a <= b
    ensures Worth(p, d, a) <= Worth(q, d, b)
  {
    MulMono(p, q, a);
    MulMono(a, b, q);
    FloorMono(p * a, q * b, Unit(d));
  }

  /** Values of two amounts add up, to within one unit. */
  lemma WorthSum(price: nat, d: u8, a: nat, b: nat)
    ensures Worth(price, d, a) + Worth(price, d, b) <= Worth(price, d, a + b)
              <= Worth(price, d, a) + Worth(price, d, b) + 1
  {
    Distribute(price, a, b);
    FloorSum(price * a, price * b, Unit(d));
  }

  /** The upper bound is the larger and the lower bound the smaller of the values at the two prices. */
  lemma ConservativeValues(l: Liquidity, amount: Decimal)
    requires MarketValueUpperBound(l, amount).Ok? && MarketValueLowerBound(l, amount).Ok?
    ensures var current, smoothed := Worth(l.price, l.decimals, amount), Worth(l.smoothedPrice, l.decimals, amount);
      && MarketValueUpperBound(l, amount) == Ok(Max(current, smoothed))
      && MarketValueLowerBound(l, amount) == Ok(Min(current, smoothed))
  {
    ValueAtIsWorth(PriceHigh(l), l.decimals, amount);
    ValueAtIsWorth(PriceLow(l), l.decimals, amount);
    hide ValueAt, Worth;
    WorthMono(PriceLow(l), PriceHigh(l), l.decimals, amount, amount);
  }

  /** Converting dollars to tokens and back never gains. */
  lemma UsdRoundTrip(l: Liquidity, quote: Decimal, amount: Decimal)
    requires UsdToLiquidityLowerBound(l, quote).Ok? && amount <= UsdToLiquidityLowerBound(l, quote).value
    ensures Worth(PriceHigh(l), l.decimals, amount) <= quote
  {
    var scale, p := TenTo(l.decimals), PriceHigh(l);
    var scaled := Mul(quote, scale * WAD).value;
    var tokens := Div(scaled, p).value;
    assert tokens * p <= scaled * WAD && scaled * WAD <= quote * (scale * WAD);
    hide Mul, Div, UsdToLiquidityLowerBound, TenTo;
    MulMono(amount, tokens, p);
    FloorAtMost(p * amount, Unit(l.decimals), quote);
  }

  // ----- fees

  datatype FeeCalculation = Exclusive | Inclusive

  function FeeAmount(amount: Decimal, feeWad: u64, calculation: FeeCalculation): Result<Decimal> {
    match calculation
    case Exclusive => Mul(amount, feeWad)
    case Inclusive =>
      var divisor :- RateAdd(feeWad, WAD);
      var rate :- RateDiv(feeWad, divisor);
      Mul(amount, rate)
  }

  /** The total fee and the host's part of it. */
  function CalculateFees(fees: Fees, amount: Decimal, feeWad: u64, calculation: FeeCalculation): Result<(u64, u64)> {
    if feeWad == 0 || amount == 0 then Ok((0, 0))
    else
      var toHost := fees.hostFeePercentage > 0;
      var feeAmount :- FeeAmount(amount, feeWad, calculation);
      var fee: Decimal := Max(feeAmount, FromInt(if toHost then 2 else 1));
      var _ :- Guard(fee < amount, BorrowTooSmall);
      var total :- RoundU64(fee);
      if !toHost then Ok((total, 0))
      else
        var share :- Mul(fee, Percent(fees.hostFeePercentage));
        var host :- RoundU64(share);
        Ok((total, Max(host, 1)))
  }

  function CalculateFlashLoanFees(fees: Fees, amount: Decimal): Result<(u64, u64)> {
    var (total, host) :- CalculateFees(fees, amount, fees.flashLoanFeeWad, Exclusive);
    if host <= total then Ok((total - host, host)) else Err(MathOverflow)
  }

  /** The host's part never exceeds the fee, so the owner's part does not underflow; with a host
      configured both get at least one token. */
  lemma HostFeeWithinFee(fees: Fees, amount: Decimal, feeWad: u64, calculation: FeeCalculation)
    requires fees.hostFeePercentage <= 100
    requires CalculateFees(fees, amount, feeWad, calculation).Ok?
    ensures var (total, host) := CalculateFees(fees, amount, feeWad, calculation).value;
      && host <= total
      && (feeWad > 0 && amount > 0 ==> FromInt(total) <= amount + HALF_WAD)
      && (feeWad > 0 && amount > 0 && fees.hostFeePercentage > 0 ==> 1 <= host && 2 <= total)
  {
    if feeWad > 0 && amount > 0 {
      var toHost := fees.hostFeePercentage > 0;
      var fee := Max(FeeAmount(amount, feeWad, calculation).value, FromInt(if toHost then 2 else 1));
      hide FeeAmount;
      if toHost { ScaledAtMost(Percent(fees.hostFeePercentage), fee); }
    }
  }

  // ----- borrow and repay calculators

  /** At least one, scaled by 10^18. */
  function BorrowWeight(c: Config): (w: Decimal)
    ensures w >= WAD
  {
    WAD + FromInt(c.addedBorrowWeightBps) / 10_000
  }

  datatype BorrowTerms = BorrowTerms(borrowAmount: Decimal, receiveAmount: u64, borrowFee: u64, hostFee: u64)

  /** What can be borrowed for `value`: converted at the high price, then divided by the weight. */
  function MaxBorrow(r: Reserve, value: Decimal): Result<Decimal> {
    var scale :- ScaleU64(r.liquidity.decimals);
    var scaled :- MulInt(value, scale);
    var tokens :- Div(scaled, PriceHigh(r.liquidity));
    Div(tokens, BorrowWeight(r.config))
  }

  function CalculateBorrow(r: Reserve, amount: u64, maxValue: Decimal, remaining: Decimal): Result<BorrowTerms> {
    var _ :- ScaleU64(r.liquidity.decimals);
    if amount == U64_MAX then
      var most :- MaxBorrow(r, maxValue);
      var borrow: Decimal := Min(Min(most, remaining), FromInt(r.liquidity.available));
      var (fee, host) :- CalculateFees(r.config.fees, borrow, r.config.fees.borrowFeeWad, Inclusive);
      var whole :- FloorU64(borrow);
      var _ :- Guard(fee <= whole, MathOverflow);
      Ok(BorrowTerms(borrow, whole - fee, fee, host))
    else
      var (fee, host) :- CalculateFees(r.config.fees, FromInt(amount), r.config.fees.borrowFeeWad, Exclusive);
      var borrow :- Add(FromInt(amount), FromInt(fee));
      var plain :- MarketValueUpperBound(r.liquidity, borrow);
      var value :- Mul(plain, BorrowWeight(r.config));
      var _ :- Guard(value <= maxValue, BorrowTooLarge);
      Ok(BorrowTerms(borrow, amount, fee, host))
  }

  /** What a loan of `amount` adds to the weighted upper bound of the borrowed value. */
  function WeightedWorth(r: Reserve, amount: nat): nat {
    Worth(PriceHigh(r.liquidity), r.liquidity.decimals, amount) * BorrowWeight(r.config) / WAD
  }

  /** Everything that leaves the vault - to the borrower, the fee receiver and the host - is the
      whole part of the booked debt. */
  lemma BorrowAddsUp(r: Reserve, amount: u64, maxValue: Decimal, remaining: Decimal)
    requires Sane(r.config) && CalculateBorrow(r, amount, maxValue, remaining).Ok?
    ensures var t := CalculateBorrow(r, amount, maxValue, remaining).value;
      && (FloorU64(t.borrowAmount).Ok? ==> FloorU64(t.borrowAmount).value == t.receiveAmount + t.borrowFee)
      && t.hostFee <= t.borrowFee
      && (amount != U64_MAX ==> t.receiveAmount == amount)
  {
    var t := CalculateBorrow(r, amount, maxValue, remaining).value;
    hide MaxBorrow, MarketValueUpperBound, Mul, CalculateFees;
    if amount == U64_MAX {
      HostFeeWithinFee(r.config.fees, t.borrowAmount, r.config.fees.borrowFeeWad, Inclusive);
    } else {
      HostFeeWithinFee(r.config.fees, FromInt(amount), r.config.fees.borrowFeeWad, Exclusive);
    }
  }

  lemma MaxBorrowWithinValue(r: Reserve, value: Decimal, amount: nat)
    requires MaxBorrow(r, value).Ok? && amount <= MaxBorrow(r, value).value
    ensures WeightedWorth(r, amount) <= value
  {
    var d, p, w := r.liquidity.decimals, PriceHigh(r.liquidity), BorrowWeight(r.config);
    var scale := TenTo(d);
    var tokens := Div(MulInt(value, scale).value, p).value;
    var most := MaxBorrow(r, value).value;
    var v := Worth(p, d, amount);
    WorthBounds(p, d, amount);
    assert tokens * p <= value * scale * WAD && most * w <= tokens * WAD && Unit(d) == WAD * scale;
    hide MaxBorrow, Div, Worth, Unit, TenTo, BorrowWeight, PriceHigh;
    WithinValue(v, scale, p, amount, w, most, tokens, value);
    FloorAtMost(v * w, WAD, value);
  }

  /** ... and not much less could be borrowed: one unit more, with one whole unit of weight for the
      floors, is worth more than the value allowed. */
  lemma MaxBorrowIsTight(r: Reserve, value: Decimal)
    requires MaxBorrow(r, value).Ok?
    ensures var most, w := MaxBorrow(r, value).value, BorrowWeight(r.config);
      value * TenTo(r.liquidity.decimals) * WAD * WAD < ((most + 1) * w + WAD) * PriceHigh(r.liquidity)
  {
    var p, w, scale := PriceHigh(r.liquidity), BorrowWeight(r.config), TenTo(r.liquidity.decimals);
    var tokens := Div(MulInt(value, scale).value, p).value;
    var most := MaxBorrow(r, value).value;
    assert tokens * WAD < most * w + w && value * scale * WAD < tokens * p + p && p > 0;
    hide MaxBorrow, Div, TenTo, BorrowWeight, PriceHigh;
    Distribute(w, most, 1);
    Distribute(p, tokens, 1);
    MulMono(value * scale * WAD + 1, (tokens + 1) * p, WAD);
    Distribute(WAD, tokens, 1);
    Assoc(tokens + 1, p, WAD);
    MulMono((tokens + 1) * WAD, (most + 1) * w + WAD, p);
  }

  lemma WithinValue(v: nat, scale: nat, p: nat, amount: nat, w: nat, most: nat, tokens: nat, value: nat)
    requires v * (WAD * scale) <= p * amount && amount <= most && scale > 0
    requires most * w <= tokens * WAD && tokens * p <= value * scale * WAD
    ensures v * w <= value * WAD
  {
    var n := WAD * scale;
    MulMono(amount, most, w);
    MulMono(v * n, p * amount, w);
    Assoc(p, amount, w);
    MulMono(amount * w, tokens * WAD, p);
    Assoc(p, tokens, WAD);
    MulMono(tokens * p, value * scale * WAD, WAD);
    Assoc(v, n, w);
    Assoc(value, scale, WAD);
    Assoc(value, n, WAD);
    MulCancel(v * w, value * WAD, n);
  }

  /** An accepted borrow, on either branch, is worth at most the value the caller was allowed. */
  lemma BorrowWithinValue(r: Reserve, amount: u64, maxValue: Decimal, remaining: Decimal)
    requires CalculateBorrow(r, amount, maxValue, remaining).Ok?
    ensures var t := CalculateBorrow(r, amount, maxValue, remaining).value;
      && WeightedWorth(r, t.borrowAmount) <= maxValue
      && (amount == U64_MAX ==> t.borrowAmount <= remaining)
  {
    var t := CalculateBorrow(r, amount, maxValue, remaining).value;
    hide CalculateFees, Worth, ValueAt, MaxBorrow;
    if amount == U64_MAX {
      MaxBorrowWithinValue(r, maxValue, t.borrowAmount);
    } else {
      ValueAtIsWorth(PriceHigh(r.liquidity), r.liquidity.decimals, t.borrowAmount);
    }
  }

  datatype RepayTerms = RepayTerms(settleAmount: Decimal, repayAmount: u64)

  function CalculateRepay(amount: u64, borrowed: Decimal): (t: Result<RepayTerms>)
    ensures t.Ok? ==> t.value.settleAmount <= borrowed && t.value.settleAmount <= FromInt(t.value.repayAmount)
    ensures t.Ok? && amount != U64_MAX ==> t.value.repayAmount <= amount
  {
    var settle := if amount == U64_MAX then borrowed else Min(FromInt(amount), borrowed);
    var repay :- CeilU64(settle);
    Ok(RepayTerms(settle, repay))
  }
}
