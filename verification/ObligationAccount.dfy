/** An obligation account being worked on (token-lending/sdk/src/state/obligation.rs, and the refresh in
    token-lending/program/src/processor.rs): the operations that update its lists and limits in place,
    each tied to the function of `Obligations` or `ObligationRefresh` that says what it computes. */
module ObligationAccounts {
  import opened Results
  import opened FixedPoint
  import opened Reserves
  import opened Obligations
  import opened ObligationRefresh

  class ObligationAccount {
    var lastUpdate: LastUpdate
    var deposits: seq<Collateral>
    var borrows: seq<Loan>
    var depositedValue: Decimal
    var borrowedValue: Decimal
    var borrowedValueUpperBound: Decimal
    var allowedBorrowValue: Decimal
    var unhealthyBorrowValue: Decimal
    var superUnhealthyBorrowValue: Decimal
    var borrowingIsolatedAsset: bool

    function State(): Obligation
      reads this
    {
      Obligation(lastUpdate, deposits, borrows, depositedValue, borrowedValue, borrowedValueUpperBound,
                 allowedBorrowValue, unhealthyBorrowValue, superUnhealthyBorrowValue, borrowingIsolatedAsset)
    }

    constructor Unpack(o: Obligation)
      ensures State() == o
    {
      lastUpdate := o.lastUpdate;
      deposits := o.deposits;
      borrows := o.borrows;
      depositedValue := o.depositedValue;
      borrowedValue := o.borrowedValue;
      borrowedValueUpperBound := o.borrowedValueUpperBound;
      allowedBorrowValue := o.allowedBorrowValue;
      unhealthyBorrowValue := o.unhealthyBorrowValue;
      superUnhealthyBorrowValue := o.superUnhealthyBorrowValue;
      borrowingIsolatedAsset := o.borrowingIsolatedAsset;
    }

    method MarkStale()
      modifies this`lastUpdate
      ensures lastUpdate == old(lastUpdate).MarkStale()
    {
      lastUpdate := lastUpdate.(stale := true);
    }

    /** `find_or_add_collateral_to_deposits(..)?.deposit(amount)` */
    method Deposit(reserve: Pubkey, amount: u64) returns (r: Result<()>)
      modifies this`deposits
      ensures r == Done(DepositCollateral(old(State()), reserve, amount))
      ensures State() == if r.Ok? then DepositCollateral(old(State()), reserve, amount).value else old(State())
    {
      hide FindDeposit;
      var i := FindDeposit(deposits, reserve);
      if i < |deposits| {
        if deposits[i].deposited + amount >= U64 { return Err(MathOverflow); }
        deposits := deposits[i := deposits[i].(deposited := deposits[i].deposited + amount)];
      } else {
        if |deposits| + |borrows| >= MAX_OBLIGATION_RESERVES { return Err(ObligationReserveLimit); }
        deposits := deposits + [Collateral(reserve, 0, 0)];
        deposits := deposits[i := deposits[i].(deposited := deposits[i].deposited + amount)];
      }
      return Ok(());
    }

    /** `find_or_add_liquidity_to_borrows(..)?.borrow(amount)` */
    method Borrow(reserve: Pubkey, cumulativeRate: Decimal, amount: Decimal) returns (r: Result<()>)
      modifies this`borrows
      ensures r == Done(AddLoan(old(State()), reserve, cumulativeRate, amount))
      ensures State() == if r.Ok? then AddLoan(old(State()), reserve, cumulativeRate, amount).value else old(State())
    {
      hide FindLoan;
      var i := FindLoan(borrows, reserve);
      if i < |borrows| {
        var borrowed :- Add(borrows[i].borrowed, amount);
        borrows := borrows[i := borrows[i].(borrowed := borrowed)];
      } else {
        if |deposits| + |borrows| >= MAX_OBLIGATION_RESERVES { return Err(ObligationReserveLimit); }
        borrows := borrows + [Loan(reserve, cumulativeRate, 0, 0)];
        borrows := borrows[i := borrows[i].(borrowed := borrows[i].borrowed + amount)];
      }
      return Ok(());
    }

    method Withdraw(amount: u64, i: nat) returns (r: Result<()>)
      requires i < |deposits|
      modifies this`deposits
      ensures r == Done(WithdrawCollateral(old(State()), amount, i))
      ensures State() == if r.Ok? then WithdrawCollateral(old(State()), amount, i).value else old(State())
    {
      if amount == deposits[i].deposited {
        deposits := deposits[..i] + deposits[i + 1..];
      } else {
        if amount > deposits[i].deposited { return Err(MathOverflow); }
        deposits := deposits[i := deposits[i].(deposited := deposits[i].deposited - amount)];
      }
      return Ok(());
    }

    method Repay(amount: Decimal, i: nat) returns (r: Result<()>)
      requires i < |borrows|
      modifies this`borrows
      ensures r == Done(SettleLoan(old(State()), amount, i))
      ensures State() == if r.Ok? then SettleLoan(old(State()), amount, i).value else old(State())
    {
      if amount == borrows[i].borrowed {
        borrows := borrows[..i] + borrows[i + 1..];
      } else {
        var left :- Sub(borrows[i].borrowed, amount);
        borrows := borrows[i := borrows[i].(borrowed := left)];
      }
      return Ok(());
    }

    /** `ObligationLiquidity::accrue_interest` on one borrow. */
    method Accrue(i: nat, index: Decimal) returns (r: Result<()>)
      requires i < |borrows|
      modifies this`borrows
      ensures r == Done(AccrueLoan(old(borrows)[i], index))
      ensures borrows == if r.Ok? then old(borrows)[i := AccrueLoan(old(borrows)[i], index).value] else old(borrows)
    {
      if index < borrows[i].cumulativeRate { return Err(NegativeInterestRate); }
      if index > borrows[i].cumulativeRate {
        var ratio :- Div(index, borrows[i].cumulativeRate);
        var growth :- ToRate(ratio);
        var borrowed :- Mul(borrows[i].borrowed, growth);
        borrows := borrows[i := borrows[i].(borrowed := borrowed, cumulativeRate := index)];
      }
      return Ok(());
    }

    /** `process_refresh_obligation`: two loops over the lists, the limits, the swap of the heaviest
        borrow, and two retains. */
    method RefreshAll(rs: ReserveMap, now: u64) returns (r: Result<()>)
      modifies this
      ensures r == Done(Refresh(old(State()), rs, now))
      ensures State() == if r.Ok? then Refresh(old(State()), rs, now).value else old(State())
    {
      hide KeepLoans, KeepDeposits, ValueLoans, ValueDeposits;
      var valuedDeposits :- RevalueDeposits(deposits, rs, now);
      var valuedLoans :- RevalueLoans(borrows, rs, now);
      ValuedLoans(borrows, rs, now, |borrows|);
      deposits, borrows := valuedDeposits.0, valuedLoans.0;
      RecordLimits(valuedDeposits.1, valuedLoans.1);
      PutFirst(valuedLoans.1.top);
      deposits := RetainDeposits(deposits);
      borrows := RetainLoans(borrows);
      lastUpdate := LastUpdate(now, false);
      return Ok(());
    }

    method RecordLimits(d: DepositTotals, b: BorrowTotals)
      modifies this`depositedValue, this`borrowedValue, this`borrowedValueUpperBound, this`allowedBorrowValue,
               this`unhealthyBorrowValue, this`superUnhealthyBorrowValue, this`borrowingIsolatedAsset
      ensures State() == old(State()).(
        depositedValue := d.deposited, borrowedValue := b.borrowed, borrowedValueUpperBound := b.upperBound,
        allowedBorrowValue := Min(d.allowed, GLOBAL_ALLOWED_BORROW_VALUE),
        unhealthyBorrowValue := Min(d.unhealthy, GLOBAL_UNHEALTHY_BORROW_VALUE),
        superUnhealthyBorrowValue := Min(d.superUnhealthy, GLOBAL_UNHEALTHY_BORROW_VALUE),
        borrowingIsolatedAsset := b.isolated)
    {
      depositedValue := d.deposited;
      borrowedValue := b.borrowed;
      borrowedValueUpperBound := b.upperBound;
      allowedBorrowValue := Min(d.allowed, GLOBAL_ALLOWED_BORROW_VALUE);
      unhealthyBorrowValue := Min(d.unhealthy, GLOBAL_UNHEALTHY_BORROW_VALUE);
      superUnhealthyBorrowValue := Min(d.superUnhealthy, GLOBAL_UNHEALTHY_BORROW_VALUE);
      borrowingIsolatedAsset := b.isolated;
    }

    /** `obligation.borrows.swap(0, index)` */
    method PutFirst(top: Top)
      requires top.Top? ==> top.index < |borrows|
      modifies this`borrows
      ensures borrows == Promote(old(borrows), top)
    {
      if top.Top? {
        borrows := borrows[0 := borrows[top.index]][top.index := borrows[0]];
      }
    }
  }
}
