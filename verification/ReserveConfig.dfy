/** Reserve configuration (token-lending/sdk/src/state/reserve.rs): validation, the three-piece
    interest curve, and the three ways a configuration is updated. */
module ReserveConfigs {
  import opened Results
  import opened FloorMath
  import opened FixedPoint

  datatype ReserveType = Regular | Isolated

  datatype Fees = Fees(borrowFeeWad: u64, flashLoanFeeWad: u64, hostFeePercentage: u8)

  datatype Config = Config(
    optimalUtilization: u8, maxUtilization: u8, loanToValue: u8,
    liquidationBonus: u8, maxLiquidationBonus: u8,
    liquidationThreshold: u8, maxLiquidationThreshold: u8,
    minBorrowRate: u8, optimalBorrowRate: u8, maxBorrowRate: u8, superMaxBorrowRate: u64,
    fees: Fees, depositLimit: u64, borrowLimit: u64, feeReceiver: nat,
    protocolLiquidationFee: u8, protocolTakeRate: u8, addedBorrowWeightBps: u64,
    reserveType: ReserveType)

  const MAX_BONUS_PCT: u8 := 25
  const MAX_PROTOCOL_LIQUIDATION_FEE: u8 := 50

  /** Every check of `validate_reserve_config` except the sum of the bonus and the protocol fee. */
  predicate Sane(c: Config) {
    && c.optimalUtilization <= c.maxUtilization <= 100
    && c.loanToValue < 100
    && c.liquidationBonus <= c.maxLiquidationBonus <= 100
    && c.loanToValue <= c.liquidationThreshold <= c.maxLiquidationThreshold <= 100
    && c.minBorrowRate <= c.optimalBorrowRate <= c.maxBorrowRate <= c.superMaxBorrowRate
    && c.fees.borrowFeeWad < WAD
    && c.fees.hostFeePercentage <= 100
    && c.protocolLiquidationFee <= MAX_PROTOCOL_LIQUIDATION_FEE
    && c.protocolTakeRate <= 100
    && (c.reserveType == Isolated ==> c.loanToValue == 0 && c.liquidationThreshold == 0)
  }

  predicate BonusWithinCap(c: Config) {
    c.maxLiquidationBonus * 100 + c.protocolLiquidationFee * 10 <= MAX_BONUS_PCT * 100
  }

  /** `validate_reserve_config`, check by check. */
  function Validate(c: Config): Result<()> {
    if c.optimalUtilization > 100 then Err(InvalidConfig)
    else if c.maxUtilization < c.optimalUtilization || c.maxUtilization > 100 then Err(InvalidConfig)
    else if c.loanToValue >= 100 then Err(InvalidConfig)
    else if c.liquidationBonus > 100 then Err(InvalidConfig)
    else if c.maxLiquidationBonus < c.liquidationBonus || c.maxLiquidationBonus > 100 then Err(InvalidConfig)
    else if c.liquidationThreshold < c.loanToValue || c.liquidationThreshold > 100 then Err(InvalidConfig)
    else if c.maxLiquidationThreshold < c.liquidationThreshold || c.maxLiquidationThreshold > 100 then Err(InvalidConfig)
    else if c.optimalBorrowRate < c.minBorrowRate then Err(InvalidConfig)
    else if c.optimalBorrowRate > c.maxBorrowRate then Err(InvalidConfig)
    else if c.superMaxBorrowRate < c.maxBorrowRate then Err(InvalidConfig)
    else if c.fees.borrowFeeWad >= WAD then Err(InvalidConfig)
    else if c.fees.hostFeePercentage > 100 then Err(InvalidConfig)
    else if c.protocolLiquidationFee > MAX_PROTOCOL_LIQUIDATION_FEE then Err(InvalidConfig)
    else if c.maxLiquidationBonus * 100 + c.protocolLiquidationFee * 10 > MAX_BONUS_PCT * 100 then Err(InvalidConfig)
    else if c.protocolTakeRate > 100 then Err(InvalidConfig)
    else if c.reserveType == Isolated && !(c.loanToValue == 0 && c.liquidationThreshold == 0) then Err(InvalidConfig)
    else Ok(())
  }

  lemma ValidateMeans(c: Config)
    ensures Validate(c).Ok? <==> Sane(c) && BonusWithinCap(c)
  {
  }

  // ----- updates

  datatype Signer = MarketOwner | RiskAuthority | ProgramOwner | Nobody

  /** What a stored configuration reads back as: `Reserve::unpack_from_slice` lifts the `max_*`
      fields to their lower neighbours and caps the protocol's liquidation fee. */
  function Normalized(c: Config): Config {
    c.(maxUtilization := Max(c.optimalUtilization, c.maxUtilization),
       maxLiquidationBonus := Max(c.liquidationBonus, c.maxLiquidationBonus),
       maxLiquidationThreshold := Max(c.liquidationThreshold, c.maxLiquidationThreshold),
       superMaxBorrowRate := Max(c.maxBorrowRate, c.superMaxBorrowRate),
       protocolLiquidationFee := Min(c.protocolLiquidationFee, MAX_PROTOCOL_LIQUIDATION_FEE))
  }

  /** The configuration part of `process_update_reserve_config`, as read back afterwards. */
  function UpdateConfig(old_: Config, c: Config, signer: Signer): Result<Config> {
    var _ :- Validate(c);
    match signer
    case MarketOwner => Ok(Normalized(c))
    case RiskAuthority =>
      Ok(Normalized(old_.(
        borrowLimit := Min(old_.borrowLimit, c.borrowLimit),
        depositLimit := Min(old_.depositLimit, c.depositLimit),
        fees := old_.fees.(borrowFeeWad := c.fees.borrowFeeWad),
        optimalUtilization := c.optimalUtilization, maxUtilization := c.maxUtilization,
        minBorrowRate := c.minBorrowRate, optimalBorrowRate := c.optimalBorrowRate,
        maxBorrowRate := c.maxBorrowRate,
        addedBorrowWeightBps := c.addedBorrowWeightBps,
        protocolTakeRate := c.protocolTakeRate)))
    case ProgramOwner =>
      Ok(Normalized(old_.(
        fees := c.fees, protocolLiquidationFee := c.protocolLiquidationFee,
        protocolTakeRate := c.protocolTakeRate, feeReceiver := c.feeReceiver)))
    case Nobody => Err(InvalidSigner)
  }

  /** No authority's update can take a configuration out of `Sane`, although two of the three paths
      mix old and new fields that were never validated together.  The bonus sum survives exactly when
      the path is not the program owner's or the old bonus still fits beside the new fee. */
  lemma UpdateKeepsSane(old_: Config, c: Config, signer: Signer)
    requires Sane(old_) && BonusWithinCap(old_) && UpdateConfig(old_, c, signer).Ok?
    ensures Sane(UpdateConfig(old_, c, signer).value)
    ensures BonusWithinCap(UpdateConfig(old_, c, signer).value) <==>
      (signer == ProgramOwner ==> old_.maxLiquidationBonus * 10 + c.protocolLiquidationFee <= 250)
  {
    ValidateMeans(c);
  }

  /** Without assuming the bonus sum - which `ProgramOwnerBreaksBonusSum` shows can be lost - `Sane`
      is still kept by every update. */
  lemma UpdateKeepsSaneAlone(old_: Config, c: Config, signer: Signer)
    requires Sane(old_) && UpdateConfig(old_, c, signer).Ok?
    ensures Sane(UpdateConfig(old_, c, signer).value)
  {
    ValidateMeans(c);
  }

  lemma ProgramOwnerBreaksBonusSum()
    ensures exists old_: Config, c: Config ::
      && Validate(old_).Ok? && UpdateConfig(old_, c, ProgramOwner).Ok?
      && !BonusWithinCap(UpdateConfig(old_, c, ProgramOwner).value)
  {
    var f := Fees(0, 0, 0);
    var old_ := Config(80, 90, 50, 5, 25, 55, 60, 0, 10, 20, 30, f, 0, 0, 0, 0, 0, 0, Regular);
    var c := old_.(maxLiquidationBonus := 5, protocolLiquidationFee := 50);
    assert UpdateConfig(old_, c, ProgramOwner).value.maxLiquidationBonus == 25;
  }

  // ----- the interest curve

  /** `current_borrow_rate` at a utilization. */
  function BorrowRateAt(c: Config, utilization: Rate): Result<Rate> {
    var optimal := Percent(c.optimalUtilization);
    var max := Percent(c.maxUtilization);
    if utilization <= optimal then
      if optimal == 0 then Ok(Percent(c.minBorrowRate))
      else
        var normalized :- RateDiv(utilization, optimal);
        var _ :- Guard(c.minBorrowRate <= c.optimalBorrowRate, MathOverflow);
        var scaled :- RateMul(normalized, Percent(c.optimalBorrowRate - c.minBorrowRate));
        RateAdd(scaled, Percent(c.minBorrowRate))
    else if utilization <= max then
      var over :- RateSub(utilization, optimal);
      var span :- RateSub(max, optimal);
      var weight :- RateDiv(over, span);
      var range :- RateSub(Percent(c.maxBorrowRate), Percent(c.optimalBorrowRate));
      var scaled :- RateMul(weight, range);
      RateAdd(scaled, Percent(c.optimalBorrowRate))
    else
      var over :- RateSub(utilization, max);
      var _ :- Guard(c.maxUtilization <= 100, MathOverflow);
      var weight :- RateDiv(over, Percent(100 - c.maxUtilization));
      var range :- RateSub(c.superMaxBorrowRate * PERCENT_SCALER, Percent(c.maxBorrowRate));
      var scaled :- Mul(weight, range);
      var total :- Add(scaled, Percent(c.maxBorrowRate));
      ToRate(total)
  }

  /** A point on a segment: the floored share of the way along, times the rise, floored. */
  function Ramp(over: nat, span: nat, rise: nat): nat
    requires span > 0
  {
    over * WAD / span * rise / WAD
  }

  lemma RampBounds(over: nat, span: nat, rise: nat)
    requires over <= span && span > 0
    ensures over * WAD / span <= WAD
    ensures over * WAD / span * rise <= WAD * rise
    ensures Ramp(over, span, rise) <= rise
  {
    MulMono(over, span, WAD);
    FloorAtMost(over * WAD, span, WAD);
    ScaledAtMost(over * WAD / span, rise);
  }

  lemma RampMono(a: nat, b: nat, span: nat, rise: nat)
    requires a <= b && span > 0
    ensures Ramp(a, span, rise) <= Ramp(b, span, rise)
  {
    FloorMono(a * WAD, b * WAD, span);
    MulMono(a * WAD / span, b * WAD / span, rise);
    FloorMono(a * WAD / span * rise, b * WAD / span * rise, WAD);
  }

  /** The curve in closed form. */
  function Curve(c: Config, u: Rate): nat
    requires Sane(c) && u <= WAD
  {
    var optimal, max := Percent(c.optimalUtilization), Percent(c.maxUtilization);
    if u <= optimal then
      Percent(c.minBorrowRate) +
        (if optimal == 0 then 0 else Ramp(u, optimal, Percent(c.optimalBorrowRate - c.minBorrowRate)))
    else if u <= max then
      Percent(c.optimalBorrowRate) +
        Ramp(u - optimal, max - optimal, Percent(c.maxBorrowRate) - Percent(c.optimalBorrowRate))
    else
      Percent(c.maxBorrowRate) +
        Ramp(u - max, WAD - max, c.superMaxBorrowRate * PERCENT_SCALER - Percent(c.maxBorrowRate))
  }

  /** Each of the code's pieces computes a ramp, with no step that can fail. */
  lemma RateRamp(over: Rate, span: Rate, rise: Rate)
    requires over <= span <= WAD && span > 0 && rise <= 255 * PERCENT_SCALER
    ensures RateDiv(over, span).Ok?
    ensures RateMul(RateDiv(over, span).value, rise) == Ok(Ramp(over, span, rise))
  {
    RampBounds(over, span, rise);
  }

  lemma DecimalRamp(over: Rate, span: Rate, rise: Rate)
    requires over <= span <= WAD && span > 0 && rise <= U64 * PERCENT_SCALER
    ensures RateDiv(over, span).Ok?
    ensures Mul(RateDiv(over, span).value, rise) == Ok(Ramp(over, span, rise))
  {
    RampBounds(over, span, rise);
  }

  lemma FirstPieceSteps(c: Config, u: Rate)
    requires Sane(c) && u <= Percent(c.optimalUtilization) && c.optimalUtilization > 0
    ensures BorrowRateAt(c, u) == (
      var weight :- RateDiv(u, Percent(c.optimalUtilization));
      var scaled :- RateMul(weight, Percent(c.optimalBorrowRate - c.minBorrowRate));
      RateAdd(scaled, Percent(c.minBorrowRate)))
    ensures u <= WAD && Curve(c, u) == Percent(c.minBorrowRate)
      + Ramp(u, Percent(c.optimalUtilization), Percent(c.optimalBorrowRate - c.minBorrowRate))
  {
    hide RateDiv, RateMul, RateAdd, Ramp;
  }

  lemma FirstPieceDefined(c: Config, u: Rate)
    requires Sane(c) && u <= Percent(c.optimalUtilization)
    ensures BorrowRateAt(c, u) == Ok(Curve(c, u))
  {
    if c.optimalUtilization == 0 {
      hide Ramp;
    } else {
      var span, rise := Percent(c.optimalUtilization), Percent(c.optimalBorrowRate - c.minBorrowRate);
      FirstPieceSteps(c, u);
      assert span <= WAD && rise <= 255 * PERCENT_SCALER;
      hide Ramp, RateDiv, RateMul, Percent, Sane, BorrowRateAt, Curve;
      RateRamp(u, span, rise);
      RampAtMostRise(u, span, rise);
    }
  }

  lemma SecondPieceSteps(c: Config, u: Rate)
    requires Sane(c) && Percent(c.optimalUtilization) < u <= Percent(c.maxUtilization)
    ensures var over, span: Rate := u - Percent(c.optimalUtilization), Percent(c.maxUtilization) - Percent(c.optimalUtilization);
      var rise: Rate := Percent(c.maxBorrowRate) - Percent(c.optimalBorrowRate);
      && BorrowRateAt(c, u) == (
           var weight :- RateDiv(over, span);
           var scaled :- RateMul(weight, rise);
           RateAdd(scaled, Percent(c.optimalBorrowRate)))
      && u <= WAD && Curve(c, u) == Percent(c.optimalBorrowRate) + Ramp(over, span, rise)
  {
    hide RateDiv, RateMul, RateAdd, Ramp;
  }

  lemma SecondPieceDefined(c: Config, u: Rate)
    requires Sane(c) && Percent(c.optimalUtilization) < u <= Percent(c.maxUtilization)
    ensures BorrowRateAt(c, u) == Ok(Curve(c, u))
  {
    var over, span := u - Percent(c.optimalUtilization), Percent(c.maxUtilization) - Percent(c.optimalUtilization);
    var rise := Percent(c.maxBorrowRate) - Percent(c.optimalBorrowRate);
    SecondPieceSteps(c, u);
    assert span <= WAD && rise <= 255 * PERCENT_SCALER;
    hide Ramp, RateDiv, RateMul, Percent, Sane, BorrowRateAt, Curve;
    RateRamp(over, span, rise);
    RampAtMostRise(over, span, rise);
  }

  lemma ThirdPieceDefined(c: Config, u: Rate)
    requires Sane(c) && Percent(c.maxUtilization) < u <= WAD
    ensures BorrowRateAt(c, u) == Ok(Curve(c, u))
  {
    var over, span := u - Percent(c.maxUtilization), WAD - Percent(c.maxUtilization);
    var rise := c.superMaxBorrowRate * PERCENT_SCALER - Percent(c.maxBorrowRate);
    assert RateSub(u, Percent(c.maxUtilization)) == Ok(over);
    assert RateSub(c.superMaxBorrowRate * PERCENT_SCALER, Percent(c.maxBorrowRate)) == Ok(rise);
    ThirdPieceSteps(c, u);
    assert Curve(c, u) == Percent(c.maxBorrowRate) + Ramp(over, span, rise) by {
      hide Ramp, BorrowRateAt;
      assert Percent(c.optimalUtilization) <= Percent(c.maxUtilization) < u;
    }
    hide Ramp, RateDiv, RateMul, Mul, RateSub, Percent, Sane, BorrowRateAt, Curve;
    DecimalRamp(over, span, rise);
    RampAtMostRise(over, span, rise);
  }

  lemma ThirdPieceSteps(c: Config, u: Rate)
    requires Sane(c) && Percent(c.maxUtilization) < u <= WAD
    ensures BorrowRateAt(c, u) == (
      var over :- RateSub(u, Percent(c.maxUtilization));
      var weight :- RateDiv(over, WAD - Percent(c.maxUtilization));
      var range :- RateSub(c.superMaxBorrowRate * PERCENT_SCALER, Percent(c.maxBorrowRate));
      var scaled :- Mul(weight, range);
      var total :- Add(scaled, Percent(c.maxBorrowRate));
      ToRate(total))
  {
    assert WAD - Percent(c.maxUtilization) == Percent(100 - c.maxUtilization);
    assert Percent(c.optimalUtilization) <= Percent(c.maxUtilization) < u;
    hide RateDiv, RateMul, Mul, RateSub, Percent;
  }

  /** For every configuration that can be stored and every utilization up to one, the borrow rate is
      defined - no division by zero, no overflow. */
  lemma BorrowRateDefined(c: Config, u: Rate)
    requires Sane(c) && u <= WAD
    ensures BorrowRateAt(c, u) == Ok(Curve(c, u))
  {
    hide BorrowRateAt, Curve;
    if u <= Percent(c.optimalUtilization) {
      FirstPieceDefined(c, u);
    } else if u <= Percent(c.maxUtilization) {
      SecondPieceDefined(c, u);
    } else {
      ThirdPieceDefined(c, u);
    }
  }

  lemma RampAtMostRise(over: nat, span: nat, rise: nat)
    requires over <= span && span > 0
    ensures Ramp(over, span, rise) <= rise
  {
    RampBounds(over, span, rise);
  }

  lemma BorrowRateWithin(c: Config, u: Rate)
    requires Sane(c) && u <= WAD
    ensures Percent(c.minBorrowRate) <= Curve(c, u) <= c.superMaxBorrowRate * PERCENT_SCALER
    ensures u <= Percent(c.optimalUtilization) ==> Curve(c, u) <= Percent(c.optimalBorrowRate)
    ensures u > Percent(c.optimalUtilization) ==> Curve(c, u) >= Percent(c.optimalBorrowRate)
    ensures u <= Percent(c.maxUtilization) ==> Curve(c, u) <= Percent(c.maxBorrowRate)
    ensures u > Percent(c.maxUtilization) ==> Curve(c, u) >= Percent(c.maxBorrowRate)
  {
    hide Ramp;
    var optimal, max := Percent(c.optimalUtilization), Percent(c.maxUtilization);
    if u <= optimal {
      if optimal > 0 { RampAtMostRise(u, optimal, Percent(c.optimalBorrowRate - c.minBorrowRate)); }
    } else if u <= max {
      RampAtMostRise(u - optimal, max - optimal, Percent(c.maxBorrowRate) - Percent(c.optimalBorrowRate));
    } else {
      RampAtMostRise(u - max, WAD - max, c.superMaxBorrowRate * PERCENT_SCALER - Percent(c.maxBorrowRate));
    }
  }

  /** Borrowing more never lowers the rate, also across the two kinks. */
  lemma BorrowRateMonotone(c: Config, u: Rate, v: Rate)
    requires Sane(c) && u <= v <= WAD
    ensures BorrowRateAt(c, u).Ok? && BorrowRateAt(c, v).Ok?
    ensures BorrowRateAt(c, u).value <= BorrowRateAt(c, v).value
  {
    hide Ramp, BorrowRateAt;
    BorrowRateDefined(c, u);
    BorrowRateDefined(c, v);
    BorrowRateWithin(c, u);
    BorrowRateWithin(c, v);
    var optimal, max := Percent(c.optimalUtilization), Percent(c.maxUtilization);
    if v <= optimal {
      if optimal > 0 { RampMono(u, v, optimal, Percent(c.optimalBorrowRate - c.minBorrowRate)); }
    } else if optimal < u && v <= max {
      RampMono(u - optimal, v - optimal, max - optimal, Percent(c.maxBorrowRate) - Percent(c.optimalBorrowRate));
    } else if max < u {
      RampMono(u - max, v - max, WAD - max, c.superMaxBorrowRate * PERCENT_SCALER - Percent(c.maxBorrowRate));
    }
  }
}
