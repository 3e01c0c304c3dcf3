/** What a refreshed obligation's stored totals are (token-lending/program/src/processor.rs,
    process_refresh_obligation): exact sums over its lists, each entry at its own price and
    percentage, stated without the loops. */
module RefreshTotals {
  import opened FloorMath
  import opened FixedPoint
  import opened ReserveConfigs
  import opened Reserves
  import opened Valuation
  import opened Obligations
  import opened ObligationRefresh
  import opened BorrowingLimits

  /** The sums over the deposits at the current price; the borrowing limit, at the lower price, is
      `SumAllowances`. */
  datatype Limit = Value | Unhealthy | SuperUnhealthy

  function PercentOf(k: Limit, c: Config): nat {
    match k
    case Value => WAD
    case Unhealthy => Percent(c.liquidationThreshold)
    case SuperUnhealthy => Percent(c.maxLiquidationThreshold)
  }

  function ShareOf(k: Limit, c: Collateral, rs: ReserveMap): nat {
    if c.reserve in rs && HasRate(rs[c.reserve]) then
      var r := rs[c.reserve];
      Scaled(Worth(r.liquidity.price, r.liquidity.decimals, Backing(ExchangeRate(r).value, c.deposited)),
             PercentOf(k, r.config))
    else 0
  }

  function SumShares(k: Limit, ds: seq<Collateral>, rs: ReserveMap): nat {
    if ds == [] then 0 else SumShares(k, ds[..|ds| - 1], rs) + ShareOf(k, ds[|ds| - 1], rs)
  }

  /** A debt's value at the current price, times its borrow weight; `SumDebts` takes the higher price. */
  function SpotDebt(loan: Loan, rs: ReserveMap): nat {
    if loan.reserve in rs then
      var r := rs[loan.reserve];
      Scaled(Worth(r.liquidity.price, r.liquidity.decimals, loan.borrowed), BorrowWeight(r.config))
    else 0
  }

  function SumSpotDebts(bs: seq<Loan>, rs: ReserveMap): nat {
    if bs == [] then 0 else SumSpotDebts(bs[..|bs| - 1], rs) + SpotDebt(bs[|bs| - 1], rs)
  }

  /** One turn of the deposit loop adds each of the shares. */
  lemma DepositAdds(c: Collateral, rs: ReserveMap, t: DepositTotals)
    requires c.reserve in rs && ValueDeposit(c, rs[c.reserve], t).Ok?
    ensures var u := ValueDeposit(c, rs[c.reserve], t).value.1;
      && u.deposited == t.deposited + ShareOf(Value, c, rs)
      && u.unhealthy == t.unhealthy + ShareOf(Unhealthy, c, rs)
      && u.superUnhealthy == t.superUnhealthy + ShareOf(SuperUnhealthy, c, rs)
  {
    var r := rs[c.reserve];
    var rate := ExchangeRate(r).value;
    var l := r.liquidity;
    var liquidity := DecimalToLiquidity(rate, FromInt(c.deposited)).value;
    FloorUnique(c.deposited * WAD * WAD, rate, liquidity, Backing(rate, c.deposited));
    ValueAtIsWorth(l.price, l.decimals, liquidity);
    assert MarketValue(l, liquidity) == ValueAt(l.price, l.decimals, liquidity);
    FloorOfMultiple(Worth(l.price, l.decimals, liquidity), WAD);
    hide ValueAt, Worth, Backing, ExchangeRate, DecimalToLiquidity, MarketValue, MarketValueLowerBound;
  }

  lemma {:induction false} DepositTotalsAre(ds: seq<Collateral>, rs: ReserveMap, now: u64, n: nat)
    requires n <= |ds| && ValueDeposits(ds, rs, now, n).Ok?
    ensures var t := ValueDeposits(ds, rs, now, n).value.1;
      && t.deposited == SumShares(Value, ds[..n], rs) && t.unhealthy == SumShares(Unhealthy, ds[..n], rs)
      && t.superUnhealthy == SumShares(SuperUnhealthy, ds[..n], rs)
  {
    hide ValueDeposit, ShareOf;
    if n > 0 {
      DepositTotalsAre(ds, rs, now, n - 1);
      var t := ValueDeposits(ds, rs, now, n - 1).value.1;
      DepositAdds(ds[n - 1], rs, t);
      assert ds[..n][..n - 1] == ds[..n - 1];
      hide ValueDeposits;
    }
  }

  lemma LoanAdds(loan: Loan, rs: ReserveMap, index: nat, t: BorrowTotals)
    requires loan.reserve in rs && ValueLoan(loan, rs[loan.reserve], index, t).Ok?
    ensures var (v, u) := ValueLoan(loan, rs[loan.reserve], index, t).value;
      && u.borrowed == t.borrowed + SpotDebt(v, rs)
      && u.isolated == (t.isolated || rs[loan.reserve].config.reserveType == Isolated)
  {
    var r := rs[loan.reserve];
    var l := r.liquidity;
    var debt := AccrueLoan(loan, l.cumulativeRate).value.borrowed;
    ValueAtIsWorth(l.price, l.decimals, debt);
    assert MarketValue(l, debt) == ValueAt(l.price, l.decimals, debt);
    assert AccrueLoan(loan, l.cumulativeRate).value.reserve == loan.reserve;
    hide ValueAt, Worth, AccrueLoan, BorrowWeight, NextTop, MarketValue, MarketValueUpperBound;
  }

  /** Some borrow is from an isolated reserve. */
  predicate AnyIsolated(bs: seq<Loan>, rs: ReserveMap) {
    exists i :: 0 <= i < |bs| && bs[i].reserve in rs && rs[bs[i].reserve].config.reserveType == Isolated
  }

  lemma AnyIsolatedNext(bs: seq<Loan>, rs: ReserveMap, n: nat)
    requires n <= |bs|
    ensures AnyIsolated(bs[..n], rs) <==>
      n > 0 && (AnyIsolated(bs[..n - 1], rs)
                || (bs[n - 1].reserve in rs && rs[bs[n - 1].reserve].config.reserveType == Isolated))
  {
    if n > 0 { assert bs[..n] == bs[..n - 1] + [bs[n - 1]]; }
  }

  lemma {:induction false} LoanTotalsAre(bs: seq<Loan>, rs: ReserveMap, now: u64, n: nat)
    requires n <= |bs| && ValueLoans(bs, rs, now, n).Ok?
    ensures var (vs, t) := ValueLoans(bs, rs, now, n).value;
      t.borrowed == SumSpotDebts(vs, rs) && (t.isolated <==> AnyIsolated(bs[..n], rs))
  {
    hide ValueLoan, SpotDebt, AnyIsolated;
    AnyIsolatedNext(bs, rs, n);
    if n > 0 {
      LoanTotalsAre(bs, rs, now, n - 1);
      var (front, t) := ValueLoans(bs, rs, now, n - 1).value;
      LoanAdds(bs[n - 1], rs, n - 1, t);
      var vs := ValueLoans(bs, rs, now, n).value.0;
      assert vs[..|vs| - 1] == front;
    }
  }

  /** Every stored total of a refreshed obligation, capped where the code caps it. */
  lemma RefreshedTotals(o: Obligation, rs: ReserveMap, now: u64)
    requires Refresh(o, rs, now).Ok?
    ensures ValueLoans(o.borrows, rs, now, |o.borrows|).Ok?
    ensures var f, accrued := Refresh(o, rs, now).value, ValueLoans(o.borrows, rs, now, |o.borrows|).value.0;
      && f.depositedValue == SumShares(Value, o.deposits, rs)
      && f.allowedBorrowValue == Min(SumAllowances(o.deposits, rs), FromInt(65_000_000))
      && f.unhealthyBorrowValue == Min(SumShares(Unhealthy, o.deposits, rs), FromInt(70_000_000))
      && f.superUnhealthyBorrowValue == Min(SumShares(SuperUnhealthy, o.deposits, rs), FromInt(70_000_000))
      && f.borrowedValue == SumSpotDebts(accrued, rs)
      && f.borrowedValueUpperBound == SumDebts(accrued, rs)
      && (f.borrowingIsolatedAsset <==> AnyIsolated(o.borrows, rs))
      && f.lastUpdate == LastUpdate(now, false)
  {
    RefreshIsFresh(o, rs, now);
    assert o.deposits[..|o.deposits|] == o.deposits && o.borrows[..|o.borrows|] == o.borrows;
    hide ValueDeposits, ValueLoans, SumShares, SumSpotDebts, SumAllowances, SumDebts, KeepDeposits, KeepLoans, Promote,
         Fresh, AnyIsolated;
    assert ValueDeposits(o.deposits, rs, now, |o.deposits|).Ok? && ValueLoans(o.borrows, rs, now, |o.borrows|).Ok?;
    DepositTotalsAre(o.deposits, rs, now, |o.deposits|);
    LoanTotalsAre(o.borrows, rs, now, |o.borrows|);
  }

  // ----- the value of each entry

  /** A deposit is worth the liquidity behind it at the current price. */
  predicate DepositValued(c: Collateral, rs: ReserveMap) {
    && c.reserve in rs && HasRate(rs[c.reserve])
    && var l := rs[c.reserve].liquidity;
    c.marketValue == Worth(l.price, l.decimals, Backing(ExchangeRate(rs[c.reserve]).value, c.deposited))
  }

  /** A borrow is worth its debt, at the reserve's index, at the current price - without its weight. */
  predicate LoanValued(b: Loan, rs: ReserveMap) {
    && b.reserve in rs && b.cumulativeRate == rs[b.reserve].liquidity.cumulativeRate
    && var l := rs[b.reserve].liquidity;
    b.marketValue == Worth(l.price, l.decimals, b.borrowed)
  }

  lemma DepositIsValued(c: Collateral, rs: ReserveMap, t: DepositTotals)
    requires c.reserve in rs && ValueDeposit(c, rs[c.reserve], t).Ok?
    ensures DepositValued(ValueDeposit(c, rs[c.reserve], t).value.0, rs)
  {
    var r := rs[c.reserve];
    var rate := ExchangeRate(r).value;
    var liquidity := DecimalToLiquidity(rate, FromInt(c.deposited)).value;
    FloorUnique(c.deposited * WAD * WAD, rate, liquidity, Backing(rate, c.deposited));
    ValueAtIsWorth(r.liquidity.price, r.liquidity.decimals, liquidity);
    hide ValueAt, Worth, Backing, ExchangeRate, DecimalToLiquidity, Mul;
  }

  lemma LoanIsValued(b: Loan, rs: ReserveMap, index: nat, t: BorrowTotals)
    requires b.reserve in rs && ValueLoan(b, rs[b.reserve], index, t).Ok?
    ensures LoanValued(ValueLoan(b, rs[b.reserve], index, t).value.0, rs)
  {
    var l := rs[b.reserve].liquidity;
    AccruedIs(b, l.cumulativeRate);
    ValueAtIsWorth(l.price, l.decimals, AccrueLoan(b, l.cumulativeRate).value.borrowed);
    hide ValueAt, Worth, AccrueLoan, BorrowWeight, Mul;
  }

  lemma AccruedIs(b: Loan, index: Decimal)
    requires AccrueLoan(b, index).Ok?
    ensures var a := AccrueLoan(b, index).value; a.reserve == b.reserve && a.cumulativeRate == index
  {
    hide Div, ToRate, Mul;
  }

  lemma {:induction false} DepositsAreValued(ds: seq<Collateral>, rs: ReserveMap, now: u64, n: nat)
    requires n <= |ds| && ValueDeposits(ds, rs, now, n).Ok?
    ensures forall c :: c in ValueDeposits(ds, rs, now, n).value.0 ==> DepositValued(c, rs)
  {
    hide ValueDeposit, DepositValued;
    if n > 0 {
      DepositsAreValued(ds, rs, now, n - 1);
      DepositIsValued(ds[n - 1], rs, ValueDeposits(ds, rs, now, n - 1).value.1);
    }
  }

  lemma {:induction false} LoansAreValued(bs: seq<Loan>, rs: ReserveMap, now: u64, n: nat)
    requires n <= |bs| && ValueLoans(bs, rs, now, n).Ok?
    ensures forall b :: b in ValueLoans(bs, rs, now, n).value.0 ==> LoanValued(b, rs)
  {
    hide ValueLoan, LoanValued;
    if n > 0 {
      LoansAreValued(bs, rs, now, n - 1);
      LoanIsValued(bs[n - 1], rs, n - 1, ValueLoans(bs, rs, now, n - 1).value.1);
    }
  }

  /** Every entry of a refreshed obligation carries its current value, on which liquidations rest. */
  lemma RefreshedValues(o: Obligation, rs: ReserveMap, now: u64)
    requires Refresh(o, rs, now).Ok?
    ensures var f := Refresh(o, rs, now).value;
      && (forall c :: c in f.deposits ==> c.deposited > 0 && DepositValued(c, rs))
      && (forall b :: b in f.borrows ==> b.borrowed > 0 && LoanValued(b, rs))
  {
    hide ValueDeposits, ValueLoans, KeepDeposits, KeepLoans, Promote, DepositValued, LoanValued;
    DepositsAreValued(o.deposits, rs, now, |o.deposits|);
    LoansAreValued(o.borrows, rs, now, |o.borrows|);
    ValuedLoans(o.borrows, rs, now, |o.borrows|);
    var ds := ValueDeposits(o.deposits, rs, now, |o.deposits|).value.0;
    var (bs, bt) := ValueLoans(o.borrows, rs, now, |o.borrows|).value;
    KeptDeposits(ds);
    KeptPositive(ds);
    Promoted(bs, bt.top);
    KeptLoans(Promote(bs, bt.top));
  }

  lemma {:induction false} KeptPositive(ds: seq<Collateral>)
    ensures forall i :: 0 <= i < |KeepDeposits(ds)| ==> KeepDeposits(ds)[i].deposited > 0
  {
    if ds != [] { KeptPositive(ds[..|ds| - 1]); }
  }
}
