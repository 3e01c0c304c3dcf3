/** Obligations (token-lending/sdk/src/state/obligation.rs), on values: the lists of deposits and
    borrows, the limits computed from them, and interest accrual on one borrow. */
module Obligations {
  import opened Results
  import opened FloorMath
  import opened FixedPoint
  import opened Reserves
  import opened Valuation

  const MAX_OBLIGATION_RESERVES: nat := 10
  const LIQUIDATION_CLOSE_FACTOR: u8 := 20
  const MAX_LIQUIDATABLE_VALUE_AT_ONCE: u64 := 500_000

  /** An account address, read as a 256-bit number whose order is that of its bytes. */
  type Pubkey = k: nat | k < 0x1_0000000000000000_0000000000000000_0000000000000000_0000000000000000

  datatype Collateral = Collateral(reserve: Pubkey, deposited: u64, marketValue: Decimal)

  datatype Loan = Loan(reserve: Pubkey, cumulativeRate: Decimal, borrowed: Decimal, marketValue: Decimal)

  datatype Obligation = Obligation(
    lastUpdate: LastUpdate, deposits: seq<Collateral>, borrows: seq<Loan>,
    depositedValue: Decimal, borrowedValue: Decimal, borrowedValueUpperBound: Decimal,
    allowedBorrowValue: Decimal, unhealthyBorrowValue: Decimal, superUnhealthyBorrowValue: Decimal,
    borrowingIsolatedAsset: bool)

  function NewObligation(slot: u64): Obligation {
    Obligation(LastUpdate(slot, true), [], [], 0, 0, 0, 0, 0, 0, false)
  }

  // ----- list operations

  /** `position`: the first deposit in the reserve, or the length of the list. */
  function FindDeposit(ds: seq<Collateral>, reserve: Pubkey): (i: nat)
    ensures i <= |ds|
    ensures i < |ds| ==> ds[i].reserve == reserve
    ensures forall j :: 0 <= j < i ==> ds[j].reserve != reserve
  {
    if ds == [] || ds[0].reserve == reserve then 0 else 1 + FindDeposit(ds[1..], reserve)
  }

  function FindLoan(bs: seq<Loan>, reserve: Pubkey): (i: nat)
    ensures i <= |bs|
    ensures i < |bs| ==> bs[i].reserve == reserve
    ensures forall j :: 0 <= j < i ==> bs[j].reserve != reserve
  {
    if bs == [] || bs[0].reserve == reserve then 0 else 1 + FindLoan(bs[1..], reserve)
  }

  function FindCollateralInDeposits(o: Obligation, reserve: Pubkey): (r: Result<nat>)
    ensures r.Ok? ==> r.value < |o.deposits| && o.deposits[r.value].reserve == reserve
  {
    if o.deposits == [] then Err(ObligationDepositsEmpty)
    else if FindDeposit(o.deposits, reserve) == |o.deposits| then Err(InvalidObligationCollateral)
    else Ok(FindDeposit(o.deposits, reserve))
  }

  function FindLiquidityInBorrows(o: Obligation, reserve: Pubkey): (r: Result<nat>)
    ensures r.Ok? ==> r.value < |o.borrows| && o.borrows[r.value].reserve == reserve
  {
    if o.borrows == [] then Err(ObligationBorrowsEmpty)
    else if FindLoan(o.borrows, reserve) == |o.borrows| then Err(InvalidObligationLiquidity)
    else Ok(FindLoan(o.borrows, reserve))
  }

  /** `find_or_add_collateral_to_deposits(..)?.deposit(amount)` */
  function DepositCollateral(o: Obligation, reserve: Pubkey, amount: u64): Result<Obligation> {
    var i := FindDeposit(o.deposits, reserve);
    if i < |o.deposits| then
      if o.deposits[i].deposited + amount >= U64 then Err(MathOverflow)
      else Ok(o.(deposits := o.deposits[i := o.deposits[i].(deposited := o.deposits[i].deposited + amount)]))
    else if |o.deposits| + |o.borrows| >= MAX_OBLIGATION_RESERVES then Err(ObligationReserveLimit)
    else Ok(o.(deposits := o.deposits + [Collateral(reserve, amount, 0)]))
  }

  /** `find_or_add_liquidity_to_borrows(..)?.borrow(amount)` */
  function AddLoan(o: Obligation, reserve: Pubkey, cumulativeRate: Decimal, amount: Decimal): Result<Obligation> {
    var i := FindLoan(o.borrows, reserve);
    if i < |o.borrows| then
      var borrowed :- Add(o.borrows[i].borrowed, amount);
      Ok(o.(borrows := o.borrows[i := o.borrows[i].(borrowed := borrowed)]))
    else if |o.deposits| + |o.borrows| >= MAX_OBLIGATION_RESERVES then Err(ObligationReserveLimit)
    else Ok(o.(borrows := o.borrows + [Loan(reserve, cumulativeRate, amount, 0)]))
  }

  function WithdrawCollateral(o: Obligation, amount: u64, i: nat): Result<Obligation>
    requires i < |o.deposits|
  {
    if amount == o.deposits[i].deposited then Ok(o.(deposits := o.deposits[..i] + o.deposits[i + 1..]))
    else if amount > o.deposits[i].deposited then Err(MathOverflow)
    else Ok(o.(deposits := o.deposits[i := o.deposits[i].(deposited := o.deposits[i].deposited - amount)]))
  }

  function SettleLoan(o: Obligation, amount: Decimal, i: nat): Result<Obligation>
    requires i < |o.borrows|
  {
    if amount == o.borrows[i].borrowed then Ok(o.(borrows := o.borrows[..i] + o.borrows[i + 1..]))
    else
      var left :- Sub(o.borrows[i].borrowed, amount);
      Ok(o.(borrows := o.borrows[i := o.borrows[i].(borrowed := left)]))
  }

  // ----- limits

  function MaxWithdrawAmount(o: Obligation, c: Collateral, r: Reserve): Result<u64> {
    if o.borrows == [] then Ok(c.deposited)
    else if o.allowedBorrowValue <= o.borrowedValueUpperBound then Ok(0)
    else if r.config.loanToValue == 0 then Ok(c.deposited)
    else
      var room: Decimal := o.allowedBorrowValue - o.borrowedValueUpperBound;
      var value :- Div(room, Percent(r.config.loanToValue));
      var scale :- ScaleU64(r.liquidity.decimals);
      var scaled :- MulInt(value, scale);
      var liquidity :- Div(scaled, PriceLow(r.liquidity));
      var rate :- ExchangeRate(r);
      var collateral :- DecimalToCollateral(rate, liquidity);
      var whole :- FloorU64(collateral);
      Ok(Min(whole, c.deposited))
  }

  function RemainingBorrowValue(o: Obligation): Result<Decimal> {
    Sub(o.allowedBorrowValue, o.borrowedValueUpperBound)
  }

  function MaxLiquidationAmount(o: Obligation, loan: Loan): Result<Decimal> {
    var share :- Mul(o.borrowedValue, Percent(LIQUIDATION_CLOSE_FACTOR));
    var value := Min(Min(share, loan.marketValue), FromInt(MAX_LIQUIDATABLE_VALUE_AT_ONCE));
    var part :- Div(value, loan.marketValue);
    Mul(loan.borrowed, part)
  }

  // ----- interest on one borrow

  /** `ObligationLiquidity::accrue_interest`: scale the debt by the growth of the reserve's index. */
  function AccrueLoan(loan: Loan, index: Decimal): Result<Loan> {
    if index < loan.cumulativeRate then Err(NegativeInterestRate)
    else if index == loan.cumulativeRate then Ok(loan)
    else
      var ratio :- Div(index, loan.cumulativeRate);
      var growth :- ToRate(ratio);
      var borrowed :- Mul(loan.borrowed, growth);
      Ok(loan.(borrowed := borrowed, cumulativeRate := index))
  }

  /** One refresh: the debt does not shrink, and it grows by at most the growth of the index. */
  lemma AccrueLoanBrackets(loan: Loan, index: Decimal)
    requires loan.cumulativeRate > 0 && AccrueLoan(loan, index).Ok?
    ensures var a := AccrueLoan(loan, index).value;
      && a.reserve == loan.reserve && a.cumulativeRate == index
      && loan.borrowed <= a.borrowed
      && a.borrowed * loan.cumulativeRate <= loan.borrowed * index
  {
    hide Div, Mul;
    if index > loan.cumulativeRate {
      GrowthBracket(loan.borrowed, loan.cumulativeRate, index, Div(index, loan.cumulativeRate).value,
                    AccrueLoan(loan, index).value.borrowed);
    }
  }

  /** A debt times a floored ratio of two indices, floored again. */
  lemma GrowthBracket(debt: nat, from: nat, index: nat, ratio: nat, grown: nat)
    requires 0 < from <= index && ratio * from <= index * WAD < ratio * from + from
    requires grown * WAD <= debt * ratio < grown * WAD + WAD
    ensures debt <= grown && grown * from <= debt * index
  {
    MulMono(from, index, WAD);
    MulCancelStrict(WAD, ratio + 1, from);
    MulMono(WAD, ratio, debt);
    MulCancelStrict(debt, grown + 1, WAD);
    GrowthAtMost(debt, from, index, ratio, grown);
  }

  lemma GrowthAtMost(debt: nat, from: nat, index: nat, ratio: nat, grown: nat)
    requires ratio * from <= index * WAD && grown * WAD <= debt * ratio
    ensures grown * from <= debt * index
  {
    MulMono(grown * WAD, debt * ratio, from);
    Assoc(debt, ratio, from);
    MulMono(ratio * from, index * WAD, debt);
    Assoc(grown, WAD, from);
    Assoc(debt, index, WAD);
    MulCancel(grown * from, debt * index, WAD);
  }

  /** A borrow refreshed against each index of a schedule in turn. */
  function AccrueAll(loan: Loan, indices: seq<Decimal>): Result<Loan> {
    if indices == [] then Ok(loan)
    else
      var before :- AccrueAll(loan, indices[..|indices| - 1]);
      AccrueLoan(before, indices[|indices| - 1])
  }

  lemma GrowthChain(d0: nat, x0: nat, d1: nat, x1: nat, d2: nat, x2: nat)
    requires d1 * x0 <= d0 * x1 && d2 * x1 <= d1 * x2 && x1 > 0
    ensures d2 * x0 <= d0 * x2
  {
    ChainRatios(x2, d2, x1, d1, x0, d0);
  }

  /** However often a debt is refreshed, it never shrinks and never outgrows the index:
      debt_n · index_0 <= debt_0 · index_n. */
  lemma {:induction false} AccrueAllBrackets(loan: Loan, indices: seq<Decimal>)
    requires loan.cumulativeRate > 0 && AccrueAll(loan, indices).Ok?
    ensures var a := AccrueAll(loan, indices).value;
      && loan.cumulativeRate <= a.cumulativeRate
      && (indices != [] ==> a.cumulativeRate == indices[|indices| - 1])
      && loan.borrowed <= a.borrowed
      && a.borrowed * loan.cumulativeRate <= loan.borrowed * a.cumulativeRate
  {
    if indices != [] {
      var front, index := indices[..|indices| - 1], indices[|indices| - 1];
      AccrueAllBrackets(loan, front);
      var b := AccrueAll(loan, front).value;
      var a := AccrueAll(loan, indices).value;
      assert AccrueLoan(b, index) == Ok(a);
      assert b.cumulativeRate <= index;
      hide AccrueLoan, AccrueAll;
      AccrueLoanBrackets(b, index);
      GrowthChain(loan.borrowed, loan.cumulativeRate, b.borrowed, b.cumulativeRate, a.borrowed, index);
    }
  }
}
