/** How much interest accrues, and to whom (token-lending/sdk/src/state/reserve.rs, obligation.rs).

    Utilization and the rate are bracketed against their exact values; the index and the debt grow by at
    least the linear and at most the compounded rate; the protocol takes its share of the new debt and the
    holders get the rest; a borrower's debt follows the index. */
module InterestBounds {
  import opened FloorMath
  import opened FixedPoint
  import opened RatePower
  import opened ReserveConfigs
  import opened Reserves
  import opened Obligations

  // ----- utilization and the rate

  /** Utilization is the borrowed part of everything that is borrowed or available, floored. */
  lemma UtilizationBrackets(l: Liquidity)
    requires UtilizationRate(l).Ok?
    ensures var u, all := UtilizationRate(l).value, l.borrowed + FromInt(l.available);
      if l.borrowed == 0 || Net(l) == 0 then u == 0 else u * all <= l.borrowed * WAD < u * all + all
  {
    hide ToRate;
    if l.borrowed > 0 && Net(l) > 0 { RatioFits(l); }
  }

  lemma RatioFits(l: Liquidity)
    requires UtilizationRate(l).Ok? && l.borrowed > 0 && Net(l) > 0
    ensures Div(l.borrowed, l.borrowed + FromInt(l.available)) == UtilizationRate(l)
  {
    hide Div;
  }

  /** A ramp is the exact point on its segment, to within two units. */
  lemma RampBrackets(over: nat, span: nat, rise: nat)
    requires span > 0
    ensures var r := Ramp(over, span, rise);
      r * span <= over * rise && over * rise * WAD <= (r + 1) * WAD * span + span * rise
  {
    var share, r := over * WAD / span, Ramp(over, span, rise);
    FloorBounds(over * WAD, span);
    FloorBounds(share * rise, WAD);
    hide Ramp;
    RampSteps(over, span, rise, share, r);
  }

  lemma RampSteps(over: nat, span: nat, rise: nat, share: nat, r: nat)
    requires share * span <= over * WAD < share * span + span && r * WAD <= share * rise < r * WAD + WAD
    ensures r * span <= over * rise && over * rise * WAD <= (r + 1) * WAD * span + span * rise
  {
    MulMono(r * WAD, share * rise, span);
    Assoc(share, rise, span);
    MulMono(share * span, over * WAD, rise);
    Assoc(r, WAD, span);
    Assoc(over, rise, WAD);
    MulCancel(r * span, over * rise, WAD);
    MulMono(over * WAD, share * span + span, rise);
    Distribute(rise, share * span, span);
    Assoc(share, span, rise);
    MulMono(share * rise, r * WAD + WAD, span);
    Distribute(WAD, r, 1);
  }

  /** `rate` lies on the line that starts at `low` and rises by `rise` over `span`, at `over`. */
  predicate OnLine(rate: nat, low: nat, over: nat, span: nat, rise: nat) {
    rate >= low && (rate - low) * span <= over * rise && over * rise * WAD <= (rate - low + 1) * WAD * span + span * rise
  }

  lemma OnRamp(low: nat, over: nat, span: nat, rise: nat)
    requires span > 0
    ensures OnLine(low + Ramp(over, span, rise), low, over, span, rise)
  {
    hide Ramp;
    RampBrackets(over, span, rise);
  }

  /** The borrow rate interpolates its two neighbouring points on every piece. */
  lemma BorrowRateInterpolates(c: Config, u: Rate)
    requires Sane(c) && u <= WAD
    ensures BorrowRateAt(c, u).Ok?
    ensures var rate, optimal, max := BorrowRateAt(c, u).value, Percent(c.optimalUtilization), Percent(c.maxUtilization);
      if u <= optimal then
        if optimal == 0 then rate == Percent(c.minBorrowRate)
        else OnLine(rate, Percent(c.minBorrowRate), u, optimal, Percent(c.optimalBorrowRate) - Percent(c.minBorrowRate))
      else if u <= max then
        OnLine(rate, Percent(c.optimalBorrowRate), u - optimal, max - optimal, Percent(c.maxBorrowRate) - Percent(c.optimalBorrowRate))
      else
        OnLine(rate, Percent(c.maxBorrowRate), u - max, WAD - max, c.superMaxBorrowRate * PERCENT_SCALER - Percent(c.maxBorrowRate))
  {
    BorrowRateDefined(c, u);
    hide Ramp, BorrowRateAt, OnLine;
    var optimal, max := Percent(c.optimalUtilization), Percent(c.maxUtilization);
    if u <= optimal {
      if optimal > 0 {
        assert Percent(c.optimalBorrowRate - c.minBorrowRate) == Percent(c.optimalBorrowRate) - Percent(c.minBorrowRate);
        OnRamp(Percent(c.minBorrowRate), u, optimal, Percent(c.optimalBorrowRate - c.minBorrowRate));
      }
    } else if u <= max {
      OnRamp(Percent(c.optimalBorrowRate), u - optimal, max - optimal, Percent(c.maxBorrowRate) - Percent(c.optimalBorrowRate));
    } else {
      OnRamp(Percent(c.maxBorrowRate), u - max, WAD - max, c.superMaxBorrowRate * PERCENT_SCALER - Percent(c.maxBorrowRate));
    }
  }

  // ----- growth

  /** After a compounding of an amount by a growth over `n` slots at `step` a slot: at most the compounded,
      at least the linear growth. */
  ghost predicate Grown(before: nat, after: nat, n: nat, step: nat) {
    && after * Pow(WAD, n) <= before * Pow(WAD + step, n)
    && before * (WAD + n * step) < after * WAD + WAD
  }

  lemma GrownBy(before: nat, after: nat, growth: nat, n: nat, step: nat)
    requires after * WAD <= before * growth < after * WAD + WAD
    requires growth * Pow(WAD, n) <= WAD * Pow(WAD + step, n) && growth >= WAD + n * step
    ensures Grown(before, after, n, step)
  {
    hide Pow;
    var w, b := Pow(WAD, n), Pow(WAD + step, n);
    MulMono(after * WAD, before * growth, w);
    Assoc(before, growth, w);
    MulMono(growth * w, WAD * b, before);
    Assoc(after, WAD, w);
    Assoc(WAD, b, before);
    MulCancel(after * w, before * b, WAD);
    MulMono(WAD + n * step, growth, before);
  }

  /** The protocol's fees take `share` of the new debt, floored, and the holders the rest. */
  predicate Shared(l: Liquidity, m: Liquidity, share: nat) {
    var debt, fees, held := m.borrowed - l.borrowed, m.fees - l.fees, Net(m) - Net(l);
    && fees * WAD <= debt * share < fees * WAD + WAD
    && debt * (WAD - share) <= held * WAD < debt * (WAD - share) + WAD
  }

  lemma CompoundShares(l: Liquidity, growth: Rate, takeRate: Rate)
    requires growth >= WAD && CompoundBy(l, growth, takeRate).Ok?
    ensures var m := CompoundBy(l, growth, takeRate).value;
      && m.cumulativeRate * WAD <= l.cumulativeRate * growth < m.cumulativeRate * WAD + WAD
      && m.borrowed * WAD <= l.borrowed * growth < m.borrowed * WAD + WAD
      && m.borrowed >= l.borrowed && m.fees >= l.fees && m.available == l.available
      && (m.fees - l.fees) * WAD <= (m.borrowed - l.borrowed) * takeRate < (m.fees - l.fees) * WAD + WAD
  {
    MulGrows(l.borrowed, growth);
    hide Mul;
  }

  lemma SharesSplit(l: Liquidity, m: Liquidity, share: nat)
    requires m.available == l.available && m.borrowed >= l.borrowed && m.fees >= l.fees && share <= WAD
    requires (m.fees - l.fees) * WAD <= (m.borrowed - l.borrowed) * share < (m.fees - l.fees) * WAD + WAD
    ensures Shared(l, m, share)
  {
    var debt, fees := m.borrowed - l.borrowed, m.fees - l.fees;
    assert Net(m) - Net(l) == debt - fees;
    Distribute(debt, WAD - share, share);
    Distribute(WAD, debt - fees, fees);
  }

  /** Accruing interest over n slots: the index and the debt grow as much as n slots at the current rate
      make them, the protocol books its share of the new debt, and the holders get the rest. */
  lemma AccrueIs(r: Reserve, now: u64)
    requires Sane(r.config) && AccrueInterest(r, now).Ok? && now > r.lastUpdate.slot
    ensures CurrentBorrowRate(r).Ok? && UtilizationRate(r.liquidity).Ok?
      && BorrowRateAt(r.config, UtilizationRate(r.liquidity).value) == CurrentBorrowRate(r)
    ensures var l, m, n := r.liquidity, AccrueInterest(r, now).value.liquidity, now - r.lastUpdate.slot;
      var step := CurrentBorrowRate(r).value / 63_072_000;
      && Grown(l.cumulativeRate, m.cumulativeRate, n, step) && Grown(l.borrowed, m.borrowed, n, step)
      && Shared(l, m, Percent(r.config.protocolTakeRate))
  {
    var n: u64 := now - r.lastUpdate.slot;
    var rate := CurrentBorrowRate(r).value;
    var growth := Growth(rate, n).value;
    var l, m := r.liquidity, AccrueInterest(r, now).value.liquidity;
    GrowthBracketed(rate, n);
    CompoundShares(l, growth, Percent(r.config.protocolTakeRate));
    hide CompoundBy, Growth, CurrentBorrowRate, Grown, Shared;
    GrownBy(l.cumulativeRate, m.cumulativeRate, growth, n, rate / 63_072_000);
    GrownBy(l.borrowed, m.borrowed, growth, n, rate / 63_072_000);
    SharesSplit(l, m, Percent(r.config.protocolTakeRate));
  }

  lemma GrowthBracketed(rate: Rate, n: u64)
    requires Growth(rate, n).Ok?
    ensures var growth, step := Growth(rate, n).value, rate / 63_072_000;
      growth * Pow(WAD, n) <= WAD * Pow(WAD + step, n) && growth >= WAD + n * step >= WAD
  {
    GrowthAtLeastOne(rate, n);
    PowAtMostExact(WAD + rate / SLOTS_PER_YEAR, n);
    hide PowSpec, Pow;
  }

  // ----- a borrower's debt

  /** One refresh brings the debt up to the index, less than a unit and a speck behind it. */
  lemma AccrueLoanAtLeast(loan: Loan, index: Decimal)
    requires loan.cumulativeRate > 0 && AccrueLoan(loan, index).Ok?
    ensures var a := AccrueLoan(loan, index).value;
      loan.borrowed * index * WAD <= (a.borrowed + 1) * WAD * loan.cumulativeRate + loan.borrowed * loan.cumulativeRate
  {
    hide Div, Mul;
    var debt, from := loan.borrowed, loan.cumulativeRate;
    var grown := AccrueLoan(loan, index).value.borrowed;
    if index > from {
      RatioAtLeast(debt, from, index, Div(index, from).value, grown);
    } else {
      Unchanged(debt, from);
    }
  }

  lemma Unchanged(debt: nat, index: nat)
    ensures debt * index * WAD <= (debt + 1) * WAD * index + debt * index
  {
    Distribute(WAD, debt, 1);
    Assoc(debt, index, WAD);
    Distribute(index, debt * WAD, WAD);
    MulMono(0, WAD, index);
    MulMono(0, debt, index);
  }

  lemma RatioAtLeast(debt: nat, from: nat, index: nat, ratio: nat, grown: nat)
    requires index * WAD < ratio * from + from && debt * ratio < grown * WAD + WAD
    ensures debt * index * WAD <= (grown + 1) * WAD * from + debt * from
  {
    MulMono(index * WAD, ratio * from + from, debt);
    Assoc(debt, index, WAD);
    Distribute(debt, ratio * from, from);
    Assoc(debt, ratio, from);
    MulMono(debt * ratio, grown * WAD + WAD, from);
    Distribute(WAD, grown, 1);
  }
}
