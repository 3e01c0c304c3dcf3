/** Instructions that touch an obligation keep `Safe`; none of them finds a vault short or an index
    that went back. */
module ObligationSteps {
  import opened Results
  import opened FixedPoint
  import opened RateLimiters
  import opened ReserveConfigs
  import opened Reserves
  import opened Valuation
  import opened Obligations
  import opened ObligationRefresh
  import opened BorrowingLimits
  import opened Lending
  import opened LendingSafety
  import opened ReserveSteps

  lemma SafeObligation(w: World, id: nat)
    requires Safe(w) && id < |w.obligations|
    ensures ObligationOk(w.obligations[id], w.reserves, w.slot)
  {
  }

  lemma SafeKeys(w: World)
    requires Safe(w)
    ensures w.reserves.Keys == w.ledger.Keys
  {
  }

  // ----- the lists after each operation

  lemma DepositCollateralLists(o: Obligation, key: Pubkey, amount: u64)
    requires ListsOk(o) && DepositCollateral(o, key, amount).Ok?
    ensures var p := DepositCollateral(o, key, amount).value;
      && ListsOk(p) && p.borrows == o.borrows && p.lastUpdate == o.lastUpdate
      && (forall i :: 0 <= i < |p.deposits| ==>
            p.deposits[i].reserve == key || (i < |o.deposits| && p.deposits[i] == o.deposits[i]))
  {
  }

  lemma DepositCollateralSum(o: Obligation, key: Pubkey, amount: u64, k: Pubkey)
    requires DepositCollateral(o, key, amount).Ok?
    ensures DepositedIn(DepositCollateral(o, key, amount).value.deposits, k)
              == DepositedIn(o.deposits, k) + (if k == key then amount else 0)
  {
    var i := FindDeposit(o.deposits, key);
    var p := DepositCollateral(o, key, amount).value;
    if i < |o.deposits| {
      DepositedPut(o.deposits, i, p.deposits[i], k);
    } else {
      assert p.deposits[..|o.deposits|] == o.deposits;
    }
  }

  lemma WithdrawCollateralLists(o: Obligation, amount: u64, i: nat)
    requires ListsOk(o) && i < |o.deposits| && WithdrawCollateral(o, amount, i).Ok?
    ensures var p := WithdrawCollateral(o, amount, i).value;
      && ListsOk(p) && p.borrows == o.borrows && p.lastUpdate == o.lastUpdate
      && (forall j :: 0 <= j < |p.deposits| ==> exists l :: 0 <= l < |o.deposits| && o.deposits[l].reserve == p.deposits[j].reserve)
  {
    var p := WithdrawCollateral(o, amount, i).value;
    forall j | 0 <= j < |p.deposits|
      ensures exists l :: 0 <= l < |o.deposits| && o.deposits[l].reserve == p.deposits[j].reserve
    {
      var l := if |p.deposits| < |o.deposits| && j >= i then j + 1 else j;
      assert o.deposits[l].reserve == p.deposits[j].reserve;
    }
  }

  lemma WithdrawCollateralSum(o: Obligation, amount: u64, i: nat, k: Pubkey)
    requires i < |o.deposits| && WithdrawCollateral(o, amount, i).Ok?
    ensures amount <= o.deposits[i].deposited <= DepositedIn(o.deposits, o.deposits[i].reserve)
    ensures DepositedIn(WithdrawCollateral(o, amount, i).value.deposits, k)
              == DepositedIn(o.deposits, k) - (if k == o.deposits[i].reserve then amount else 0)
  {
    hide DepositedIn;
    DepositedAtLeast(o.deposits, i);
    if amount == o.deposits[i].deposited {
      DepositedRemove(o.deposits, i, k);
    } else {
      DepositedPut(o.deposits, i, o.deposits[i].(deposited := o.deposits[i].deposited - amount), k);
    }
  }

  /** Borrowing needs a deposit, so the tenth entry is never a tenth borrow. */
  lemma AddLoanLists(o: Obligation, key: Pubkey, index: Decimal, amount: Decimal, rs: ReserveMap)
    requires ListsOk(o) && LoansOk(o.borrows, rs) && o.deposits != [] && AddLoan(o, key, index, amount).Ok?
    requires key in rs && WAD <= index <= rs[key].liquidity.cumulativeRate
    ensures var p := AddLoan(o, key, index, amount).value;
      ListsOk(p) && LoansOk(p.borrows, rs) && p.deposits == o.deposits && p.lastUpdate == o.lastUpdate
  {
  }

  lemma SettleLoanLists(o: Obligation, amount: Decimal, i: nat, rs: ReserveMap)
    requires ListsOk(o) && LoansOk(o.borrows, rs) && i < |o.borrows| && SettleLoan(o, amount, i).Ok?
    ensures var p := SettleLoan(o, amount, i).value;
      ListsOk(p) && LoansOk(p.borrows, rs) && p.deposits == o.deposits && p.lastUpdate == o.lastUpdate
  {
  }

  lemma TouchedOk(o: Obligation, p: Obligation, rs: ReserveMap, now: u64)
    requires ObligationOk(o, rs, now) && p.lastUpdate == o.lastUpdate
    requires ListsOk(p) && DepositsKnown(p.deposits, rs) && LoansOk(p.borrows, rs) && ObligationFits(Touched(p))
    ensures ObligationOk(Touched(p), rs, now)
  {
    hide DepositsKnown, LoansOk;
  }

  // ----- refresh

  lemma {:induction false} KeptDistinct(bs: seq<Loan>)
    requires DistinctLoans(bs)
    ensures DistinctLoans(KeepLoans(bs))
  {
    if bs != [] {
      var front := bs[..|bs| - 1];
      KeptDistinct(front);
      KeptLoans(front);
    }
  }

  lemma {:induction false} KeptDepositsDistinct(ds: seq<Collateral>)
    requires DistinctDeposits(ds)
    ensures DistinctDeposits(KeepDeposits(ds)) && |KeepDeposits(ds)| <= |ds|
  {
    if ds != [] {
      var front := ds[..|ds| - 1];
      KeptDepositsDistinct(front);
      KeptDeposits(front);
    }
  }

  lemma PromoteDistinct(bs: seq<Loan>, top: Top)
    requires DistinctLoans(bs) && (top.Top? ==> top.index < |bs|)
    ensures DistinctLoans(Promote(bs, top))
  {
  }

  /** Refreshed reserves carry the current slot. */
  lemma {:induction false} ValuedAreCurrent(bs: seq<Loan>, rs: ReserveMap, now: u64, n: nat)
    requires n <= |bs| && ValueLoans(bs, rs, now, n).Ok?
    ensures forall i :: 0 <= i < n ==> bs[i].reserve in rs && rs[bs[i].reserve].lastUpdate.slot == now
  {
    hide ValueLoan;
    if n > 0 { ValuedAreCurrent(bs, rs, now, n - 1); }
  }

  lemma ValuedLoansFresh(bs: seq<Loan>, rs: ReserveMap, now: u64)
    requires ValueLoans(bs, rs, now, |bs|).Ok?
    ensures var (vs, t) := ValueLoans(bs, rs, now, |bs|).value;
      && |vs| == |bs| && LoansFresh(vs, rs, now) && (t.top.Top? ==> t.top.index < |vs|)
      && (forall i :: 0 <= i < |bs| ==> vs[i].reserve == bs[i].reserve)
  {
    hide ValueLoans;
    ValuedLoans(bs, rs, now, |bs|);
    ValuedAreCurrent(bs, rs, now, |bs|);
    AccruedAtIndex(bs, ValueLoans(bs, rs, now, |bs|).value.0, rs);
  }

  lemma FreshLoansOk(bs: seq<Loan>, rs: ReserveMap, now: u64)
    requires LoansFresh(bs, rs, now)
    requires forall k :: k in rs ==> WAD <= rs[k].liquidity.cumulativeRate
    ensures LoansOk(bs, rs)
  {
  }

  lemma RefreshedLoans(bs: seq<Loan>, rs: ReserveMap, now: u64)
    requires ValueLoans(bs, rs, now, |bs|).Ok? && DistinctLoans(bs)
    ensures var (vs, t) := ValueLoans(bs, rs, now, |bs|).value;
      && (t.top.Top? ==> t.top.index < |vs|)
      && var kept := KeepLoans(Promote(vs, t.top));
         && |kept| <= |bs| && DistinctLoans(kept) && LoansFresh(kept, rs, now)
  {
    hide ValueLoans, KeepLoans, Promote;
    ValuedLoansFresh(bs, rs, now);
    var (vs, t) := ValueLoans(bs, rs, now, |bs|).value;
    PromoteDistinct(vs, t.top);
    Promoted(vs, t.top);
    KeptDistinct(Promote(vs, t.top));
    KeptLoans(Promote(vs, t.top));
    assert |Promote(vs, t.top)| == |vs| by { PromoteLength(vs, t.top); }
  }

  lemma PromoteLength(bs: seq<Loan>, top: Top)
    requires top.Top? ==> top.index < |bs|
    ensures |Promote(bs, top)| == |bs|
  {
  }

  lemma RefreshedDeposits(ds: seq<Collateral>, rs: ReserveMap, now: u64)
    requires ValueDeposits(ds, rs, now, |ds|).Ok? && DistinctDeposits(ds)
    ensures var kept := KeepDeposits(ValueDeposits(ds, rs, now, |ds|).value.0);
      && |kept| <= |ds| && DistinctDeposits(kept) && DepositsKnown(kept, rs)
      && forall k: Pubkey :: DepositedIn(kept, k) == DepositedIn(ds, k)
  {
    hide ValueDeposits, KeepDeposits, DepositedIn;
    ValuedDeposits(ds, rs, now, |ds|);
    var vs := ValueDeposits(ds, rs, now, |ds|).value.0;
    KeptDepositsDistinct(vs);
    KeptDeposits(vs);
    forall k: Pubkey
      ensures DepositedIn(KeepDeposits(vs), k) == DepositedIn(ds, k)
    {
      DepositedKept(vs, k);
      DepositedSame(vs, ds, k);
    }
  }

  lemma IndicesAtLeastOne(w: World)
    requires Safe(w)
    ensures forall k :: k in w.reserves ==> WAD <= w.reserves[k].liquidity.cumulativeRate
  {
    hide LimiterOk, Sane, ObligationOk, TotalDeposited;
  }

  lemma RefreshObligationSafe(w: World, id: nat)
    requires Safe(w) && DoRefreshObligation(w, id).Ok?
    ensures Safe(DoRefreshObligation(w, id).value)
  {
    hide Safe, ValueDeposits, ValueLoans, KeepDeposits, KeepLoans, Promote, DepositedIn, LoansFresh, LoansOk,
         DepositsKnown, DistinctLoans, DistinctDeposits, ObligationFits;
    SafeObligation(w, id);
    var o := w.obligations[id];
    var p := Refresh(o, w.reserves, w.slot).value;
    RefreshedDeposits(o.deposits, w.reserves, w.slot);
    RefreshedLoans(o.borrows, w.reserves, w.slot);
    IndicesAtLeastOne(w);
    FreshLoansOk(p.borrows, w.reserves, w.slot);
    PutObligationOnly(w, id, p);
  }

  lemma AccrueLoanErrors(loan: Loan, index: Decimal)
    requires loan.cumulativeRate <= index
    ensures AccrueLoan(loan, index).Err? ==> AccrueLoan(loan, index).error == MathOverflow
  {
  }

  lemma ValueLoanErrors(loan: Loan, r: Reserve, index: nat, t: BorrowTotals)
    requires loan.cumulativeRate <= r.liquidity.cumulativeRate
    ensures ValueLoan(loan, r, index, t).Err? ==> ValueLoan(loan, r, index, t).error == MathOverflow
  {
    hide AccrueLoan, BorrowWeight, NextTop;
    AccrueLoanErrors(loan, r.liquidity.cumulativeRate);
  }

  lemma {:induction false} ValueLoansErrors(bs: seq<Loan>, rs: ReserveMap, now: u64, n: nat)
    requires n <= |bs| && LoansOk(bs, rs)
    ensures ValueLoans(bs, rs, now, n).Err? ==>
      ValueLoans(bs, rs, now, n).error in {MathOverflow, InvalidAccountInput, ReserveStale}
  {
    hide ValueLoan;
    if n > 0 {
      ValueLoansErrors(bs, rs, now, n - 1);
      if ValueLoans(bs, rs, now, n - 1).Ok? && Lookup(rs, bs[n - 1].reserve, now).Ok? {
        ValueLoanErrors(bs[n - 1], rs[bs[n - 1].reserve], n - 1, ValueLoans(bs, rs, now, n - 1).value.1);
      }
    }
  }

  lemma {:induction false} ValueDepositsErrors(ds: seq<Collateral>, rs: ReserveMap, now: u64, n: nat)
    requires n <= |ds|
    ensures ValueDeposits(ds, rs, now, n).Err? ==>
      ValueDeposits(ds, rs, now, n).error in {MathOverflow, InvalidAccountInput, ReserveStale}
  {
    hide ValueDeposit;
    if n > 0 {
      ValueDepositsErrors(ds, rs, now, n - 1);
      if ValueDeposits(ds, rs, now, n - 1).Ok? && Lookup(rs, ds[n - 1].reserve, now).Ok? {
        ValueDepositErrors(ds[n - 1], rs[ds[n - 1].reserve], ValueDeposits(ds, rs, now, n - 1).value.1);
      }
    }
  }

  lemma ValueDepositErrors(c: Collateral, r: Reserve, t: DepositTotals)
    ensures ValueDeposit(c, r, t).Err? ==> ValueDeposit(c, r, t).error == MathOverflow
  {
  }

  lemma RefreshObligationErrors(w: World, id: nat)
    requires Safe(w)
    ensures DoRefreshObligation(w, id).Err? ==>
      DoRefreshObligation(w, id).error in {MathOverflow, InvalidAccountInput, ReserveStale, Panic}
  {
    hide Safe, ValueDeposits, ValueLoans, ObligationFits, KeepLoans, KeepDeposits;
    if id < |w.obligations| {
      SafeObligation(w, id);
      var o := w.obligations[id];
      ValueDepositsErrors(o.deposits, w.reserves, w.slot, |o.deposits|);
      ValueLoansErrors(o.borrows, w.reserves, w.slot, |o.borrows|);
    }
  }

  // ----- deposit and withdraw collateral

  lemma DepositCollateralInnerSafe(w: World, id: nat, key: Pubkey, amount: u64)
    requires Safe(w) && DepositCollateralInner(w, id, key, amount).Ok?
    ensures Safe(DepositCollateralInner(w, id, key, amount).value)
  {
    hide Safe, DepositedIn, DepositCollateral, LoansOk, ListsOk, ObligationFits;
    SafeObligation(w, id);
    var o := w.obligations[id];
    var p := DepositCollateral(o, key, amount).value;
    DepositCollateralLists(o, key, amount);
    TouchedOk(o, p, w.reserves, w.slot);
    forall k: Pubkey
      ensures DepositedIn(p.deposits, k) == DepositedIn(o.deposits, k) + (if k == key then amount else 0)
    {
      DepositCollateralSum(o, key, amount, k);
    }
    PutObligation(w, id, Touched(p), key, w.ledger[key].Lock(amount).value);
  }

  lemma DepositCollateralSafe(w: World, id: nat, key: Pubkey, amount: u64)
    requires Safe(w) && DoDepositCollateral(w, id, key, amount).Ok?
    ensures Safe(DoDepositCollateral(w, id, key, amount).value)
  {
    hide Safe, RefreshInterest, DepositCollateralInner, Restale;
    RefreshInterestSafe(w, key);
    var u := RefreshInterest(w, key).value;
    DepositCollateralInnerSafe(u, id, key, amount);
    RestaleSafe(DepositCollateralInner(u, id, key, amount).value, key);
  }

  lemma DepositBothSafe(w: World, id: nat, key: Pubkey, amount: u64)
    requires Safe(w) && DoDepositBoth(w, id, key, amount).Ok?
    ensures Safe(DoDepositBoth(w, id, key, amount).value)
  {
    hide Safe, RefreshInterest, DepositInner, DepositCollateralInner, Restale;
    RefreshInterestSafe(w, key);
    var t := RefreshInterest(w, key).value;
    DepositInnerSafe(t, key, amount);
    var (u, collateral) := DepositInner(t, key, amount).value;
    RefreshInterestSafe(u, key);
    var v := RefreshInterest(u, key).value;
    DepositCollateralInnerSafe(v, id, key, collateral);
    RestaleSafe(DepositCollateralInner(v, id, key, collateral).value, key);
  }

  /** The vault holds at least what any one deposit records. */
  lemma VaultCovers(w: World, id: nat, i: nat)
    requires Safe(w) && id < |w.obligations| && i < |w.obligations[id].deposits|
    requires w.obligations[id].deposits[i].reserve in w.ledger
    ensures var c := w.obligations[id].deposits[i]; c.deposited <= w.ledger[c.reserve].collateral
  {
    hide LimiterOk, ObligationOk, ReserveOk, Backed;
    var o := w.obligations[id];
    DepositedAtLeast(o.deposits, i);
    TotalPut(w.obligations, id, o, o.deposits[i].reserve);
    hide TotalDeposited, DepositedIn;
  }

  /** Withdrawing recorded collateral from the vault, after any change to the borrows. */
  lemma WithdrawnSafe(w: World, id: nat, p: Obligation, i: nat, amount: u64, key: Pubkey)
    requires Safe(w) && id < |w.obligations| && i < |p.deposits| && key in w.ledger
    requires p.deposits == w.obligations[id].deposits && p.lastUpdate == w.obligations[id].lastUpdate
    requires ListsOk(p) && LoansOk(p.borrows, w.reserves)
    requires p.deposits[i].reserve == key && WithdrawCollateral(p, amount, i).Ok?
    requires ObligationFits(Touched(WithdrawCollateral(p, amount, i).value))
    ensures w.ledger[key].Unlock(amount).Ok?
    ensures Safe(w.(ledger := w.ledger[key := w.ledger[key].Unlock(amount).value],
                    obligations := w.obligations[id := Touched(WithdrawCollateral(p, amount, i).value)]))
  {
    SafeObligation(w, id);
    hide Safe, DepositedIn, WithdrawCollateral, LoansOk, ListsOk, ObligationFits;
    var q := WithdrawCollateral(p, amount, i).value;
    WithdrawCollateralLists(p, amount, i);
    TouchedOk(w.obligations[id], q, w.reserves, w.slot);
    VaultCovers(w, id, i);
    WithdrawCollateralSum(p, amount, i, key);
    forall k: Pubkey
      ensures DepositedIn(q.deposits, k) == DepositedIn(p.deposits, k) - (if k == key then amount else 0)
    {
      WithdrawCollateralSum(p, amount, i, k);
    }
    PutObligation(w, id, Touched(q), key, w.ledger[key].Unlock(amount).value);
  }
}
