/** What each instruction that moves value does, as one account of it: the debt or the deposit of the
    obligation, the reserve's totals and the tokens all move by the same amounts, and nothing else does. */
module InstructionEffects {
  import opened Results
  import opened FixedPoint
  import opened RateLimiters
  import opened ReserveConfigs
  import opened Reserves
  import opened Valuation
  import opened Obligations
  import opened BorrowingLimits
  import opened Liquidation
  import opened Seizure
  import opened Lending
  import opened Freshness
  import opened LendingSafety
  import opened ReserveSteps
  import opened ObligationSteps
  import opened PositionSteps

  function DebtIn(bs: seq<Loan>, key: Pubkey): nat {
    if bs == [] then 0
    else DebtIn(bs[..|bs| - 1], key) + (if bs[|bs| - 1].reserve == key then bs[|bs| - 1].borrowed else 0)
  }

  lemma {:induction false} DebtPut(bs: seq<Loan>, i: nat, b: Loan, key: Pubkey)
    requires i < |bs| && b.reserve == bs[i].reserve
    ensures DebtIn(bs[i := b], key) == DebtIn(bs, key) + (if b.reserve == key then b.borrowed - bs[i].borrowed else 0)
  {
    var n := |bs| - 1;
    if i < n {
      DebtPut(bs[..n], i, b, key);
      assert bs[i := b][..n] == bs[..n][i := b];
    } else {
      assert bs[i := b][..n] == bs[..n];
    }
  }

  lemma {:induction false} DebtRemove(bs: seq<Loan>, i: nat, key: Pubkey)
    requires i < |bs|
    ensures DebtIn(bs[..i] + bs[i + 1..], key) == DebtIn(bs, key) - (if bs[i].reserve == key then bs[i].borrowed else 0)
  {
    var n := |bs| - 1;
    var rest := bs[..i] + bs[i + 1..];
    if i < n {
      DebtRemove(bs[..n], i, key);
      assert rest[..|rest| - 1] == bs[..n][..i] + bs[..n][i + 1..];
      assert rest[|rest| - 1] == bs[n];
    } else {
      assert rest == bs[..n];
    }
  }

  lemma {:induction false} DebtElsewhere(bs: seq<Loan>, key: Pubkey)
    requires forall i :: 0 <= i < |bs| ==> bs[i].reserve != key
    ensures DebtIn(bs, key) == 0
  {
    if bs != [] { DebtElsewhere(bs[..|bs| - 1], key); }
  }

  /** With unique reserves the debt in one of them is the one borrow from it. */
  lemma {:induction false} DebtOfLoan(bs: seq<Loan>, i: nat)
    requires DistinctLoans(bs) && i < |bs|
    ensures DebtIn(bs, bs[i].reserve) == bs[i].borrowed
  {
    var n := |bs| - 1;
    if i < n { DebtOfLoan(bs[..n], i); } else { DebtElsewhere(bs[..n], bs[n].reserve); }
  }

  lemma AddLoanDebt(o: Obligation, key: Pubkey, index: Decimal, amount: Decimal, k: Pubkey)
    requires AddLoan(o, key, index, amount).Ok?
    ensures DebtIn(AddLoan(o, key, index, amount).value.borrows, k)
              == DebtIn(o.borrows, k) + (if k == key then amount else 0)
    ensures AddLoan(o, key, index, amount).value.deposits == o.deposits
  {
    var i := FindLoan(o.borrows, key);
    var p := AddLoan(o, key, index, amount).value;
    if i < |o.borrows| {
      DebtPut(o.borrows, i, p.borrows[i], k);
    } else {
      assert p.borrows[..|o.borrows|] == o.borrows;
    }
  }

  lemma SettleLoanDebt(o: Obligation, amount: Decimal, i: nat, k: Pubkey)
    requires i < |o.borrows| && SettleLoan(o, amount, i).Ok?
    ensures amount <= o.borrows[i].borrowed
    ensures DebtIn(SettleLoan(o, amount, i).value.borrows, k)
              == DebtIn(o.borrows, k) - (if k == o.borrows[i].reserve then amount else 0)
    ensures SettleLoan(o, amount, i).value.deposits == o.deposits
  {
    if amount == o.borrows[i].borrowed {
      DebtRemove(o.borrows, i, k);
    } else {
      DebtPut(o.borrows, i, o.borrows[i].(borrowed := o.borrows[i].borrowed - amount), k);
    }
  }

  // ----- borrow

  /** A borrow adds the same amount to the obligation's debt and to the reserve's total, and takes its
      whole part out of the vault. */
  lemma BorrowEffects(w: World, u: World, id: nat, key: Pubkey, amount: u64) returns (borrowed: Decimal, whole: u64)
    requires Safe(w) && DoBorrow(w, id, key, amount) == Ok(u)
    ensures id < |w.obligations| == |u.obligations| && key in w.reserves && key in u.reserves && key in w.ledger && key in u.ledger
    ensures forall k: Pubkey :: DebtIn(u.obligations[id].borrows, k)
              == DebtIn(w.obligations[id].borrows, k) + (if k == key then borrowed else 0)
    ensures u.obligations[id].deposits == w.obligations[id].deposits
    ensures u.reserves[key].liquidity.borrowed == w.reserves[key].liquidity.borrowed + borrowed
    ensures u.ledger[key].liquidity + whole == w.ledger[key].liquidity
    ensures u.ledger[key].collateral == w.ledger[key].collateral && u.ledger[key].held == w.ledger[key].held
    ensures whole * WAD <= borrowed < whole * WAD + WAD && (amount != U64_MAX ==> amount <= whole)
  {
    hide Safe, CheckBorrow, PriceBorrow, ValueAt, Update, LimiterFits, BorrowLiquidity, AddLoan, PayBorrow,
         ObligationFits, ReserveFits, LimiterOk, CalculateBorrow, Sane, RemainingOutflow, MaxOutflowTokens, DebtIn;
    SafeReserve(w, key);
    var r, o := w.reserves[key], w.obligations[id];
    var remaining := CheckBorrow(w, o, r, key, amount).value;
    var t := PriceBorrow(w, r, amount, remaining).value.0;
    borrowed := t.borrowAmount;
    whole := BorrowTotals(r.liquidity, borrowed);
    BorrowedWhole(w, r, amount, remaining);
    TermsAddUp(w, r, amount, remaining);
    PayBorrowCovered(w.ledger[key], r, t);
    BorrowFrame(r.liquidity, borrowed);
    forall k: Pubkey
      ensures DebtIn(u.obligations[id].borrows, k) == DebtIn(o.borrows, k) + (if k == key then borrowed else 0)
    {
      AddLoanDebt(o, key, r.liquidity.cumulativeRate, borrowed, k);
    }
    AddLoanDebt(o, key, r.liquidity.cumulativeRate, borrowed, key);
  }

  lemma BorrowTotals(l: Liquidity, amount: Decimal) returns (whole: u64)
    requires BorrowLiquidity(l, amount).Ok?
    ensures FloorU64(amount) == Ok(whole) && whole * WAD <= amount < whole * WAD + WAD
    ensures var m := BorrowLiquidity(l, amount).value;
      m.borrowed == l.borrowed + amount && m.available == l.available - whole
  {
    whole := FloorU64(amount).value;
  }

  lemma BorrowedWhole(w: World, r: Reserve, amount: u64, remaining: Decimal)
    requires Safe(w) && ReserveOk(r, w.slot) && PriceBorrow(w, r, amount, remaining).Ok?
    ensures var t := PriceBorrow(w, r, amount, remaining).value.0;
      amount != U64_MAX && FloorU64(t.borrowAmount).Ok? ==> amount <= FloorU64(t.borrowAmount).value
  {
    PriceBorrowFacts(w, r, amount, remaining);
    hide Safe, PriceBorrow, CalculateBorrow, RemainingOutflow, MaxOutflowTokens, FloorU64, LimiterOk, ReserveFits;
    var t := PriceBorrow(w, r, amount, remaining).value.0;
    var tokens := MaxOutflowTokens(r, w.market, w.slot, remaining).value;
    var capacity: Decimal :| CalculateBorrow(r, amount, remaining, Min(capacity, tokens)) == Ok(t);
    BorrowAddsUp(r, amount, remaining, Min(capacity, tokens));
  }

  // ----- repay

  /** No obligation but `id` differs. */
  predicate OnlyObligation(w: World, u: World, id: nat) {
    |u.obligations| == |w.obligations| && forall j :: 0 <= j < |w.obligations| && j != id ==> u.obligations[j] == w.obligations[j]
  }

  /** A reserve's liquidity after `repay` tokens have settled `settle` of its debt. */
  function RepaidInto(l: Liquidity, repay: nat, settle: nat): (int, int) {
    (l.available + repay, l.borrowed - Min(settle, l.borrowed))
  }

  /** `s` is `r` with other amounts lent and available, and possibly another timestamp. */
  predicate OnlyAmounts(r: Reserve, s: Reserve) {
    && s.mintSupply == r.mintSupply && s.config == r.config && s.limiter == r.limiter
    && s.liquidity == r.liquidity.(available := s.liquidity.available, borrowed := s.liquidity.borrowed)
  }

  /** A repayment takes from the accrued debt what it settles and brings in that much rounded up; the
      reserve, once its own interest is accrued, counts the settled part as repaid as far as its total
      goes.  A repayment of everything leaves no debt. */
  lemma RepayEffects(w: World, u: World, id: nat, key: Pubkey, amount: u64)
    returns (i: nat, accrued: Decimal, settle: Decimal, repay: u64)
    requires Safe(w) && DoRepay(w, id, key, amount) == Ok(u)
    ensures id < |w.obligations| == |u.obligations| && key in w.ledger && key in u.ledger
    ensures DebtIn(w.obligations[id].borrows, key) <= accrued && settle <= accrued
    ensures DebtIn(u.obligations[id].borrows, key) == accrued - settle
    ensures forall k: Pubkey :: k != key ==> DebtIn(u.obligations[id].borrows, k) == DebtIn(w.obligations[id].borrows, k)
    ensures u.obligations[id].deposits == w.obligations[id].deposits
    ensures u.ledger[key] == w.ledger[key].(liquidity := w.ledger[key].liquidity + repay)
    ensures settle <= FromInt(repay) < settle + WAD
    ensures if amount == U64_MAX then settle == accrued else repay <= amount && settle == Min(FromInt(amount), accrued)
    ensures OnlyObligation(w, u, id) && key in w.reserves && key in u.reserves && AccrueInterest(w.reserves[key], w.slot).Ok?
    ensures i < |w.obligations[id].borrows| && w.obligations[id].borrows[i].reserve == key
    ensures var loan := AccrueLoan(w.obligations[id].borrows[i], AccrueInterest(w.reserves[key], w.slot).value.liquidity.cumulativeRate);
      loan.Ok? && loan.value.borrowed == accrued
    ensures var r, s := AccrueInterest(w.reserves[key], w.slot).value, u.reserves[key];
      OnlyAmounts(r, s) && (s.liquidity.available, s.liquidity.borrowed) == RepaidInto(r.liquidity, repay, settle)
  {
    hide AccrueInterest, Safe, RefreshInterest, DoRepay, BookRepay, AccrueLoan, DebtIn, OnlyObligation, OnlyAmounts, RepaidInto,
         LoansOk, ObligationFits;
    i, accrued := RepayStart(w, u, id, key, amount);
    InterestOnly(w, key);
    var v := RefreshInterest(w, key).value;
    var loan := AccrueLoan(v.obligations[id].borrows[i], v.reserves[key].liquidity.cumulativeRate).value;
    settle, repay := BookRepayEffects(v, u, id, key, i, loan, amount);
    SameButStamp(AccrueInterest(w.reserves[key], w.slot).value, v.reserves[key], u.reserves[key]);
    OthersThrough(w, v, u, id);
  }

  lemma SameButStamp(r: Reserve, t: Reserve, s: Reserve)
    requires t == r.(lastUpdate := t.lastUpdate) && OnlyAmounts(t, s)
    ensures OnlyAmounts(r, s)
  {
  }

  lemma OthersThrough(w: World, v: World, u: World, id: nat)
    requires v.obligations == w.obligations && OnlyObligation(v, u, id)
    ensures OnlyObligation(w, u, id)
  {
  }

  /** The loan that a repayment finds, with its interest accrued, and the settlement that follows. */
  lemma RepayStart(w: World, u: World, id: nat, key: Pubkey, amount: u64) returns (i: nat, accrued: Decimal)
    requires Safe(w) && DoRepay(w, id, key, amount) == Ok(u)
    ensures RefreshInterest(w, key).Ok?
    ensures var v := RefreshInterest(w, key).value;
      && id < |v.obligations| && i < |v.obligations[id].borrows| && key in v.reserves && key in v.ledger
      && var b := v.obligations[id].borrows[i];
      && b.reserve == key && DebtIn(v.obligations[id].borrows, key) == b.borrowed <= accrued
      && var loan := AccrueLoan(b, v.reserves[key].liquidity.cumulativeRate);
      loan.Ok? && loan.value.reserve == key && loan.value.borrowed == accrued
      && BookRepay(v, id, key, i, loan.value, amount) == Ok(u)
  {
    hide Safe, RefreshInterest, AccrueLoan, FindLoan, BookRepay, DebtIn, LoansOk, DepositsKnown, ObligationFits, LoanOk;
    RefreshInterestSafe(w, key);
    var v := RefreshInterest(w, key).value;
    SafeObligation(w, id);
    var o := v.obligations[id];
    assert DistinctLoans(o.borrows);
    hide DistinctLoans;
    i := FindLiquidityInBorrows(o, key).value;
    SafeLoan(v, id, i);
    LoanIndexPositive(v, o.borrows[i]);
    accrued := AccrueLoan(o.borrows[i], v.reserves[key].liquidity.cumulativeRate).value.borrowed;
    AccrueLoanBrackets(o.borrows[i], v.reserves[key].liquidity.cumulativeRate);
    DebtOfLoan(o.borrows, i);
  }

  lemma InterestOnly(w: World, key: Pubkey)
    requires RefreshInterest(w, key).Ok?
    ensures key in w.reserves && key in w.ledger && AccrueInterest(w.reserves[key], w.slot).Ok?
    ensures var s := AccrueInterest(w.reserves[key], w.slot).value.(lastUpdate := LastUpdate(w.slot, false));
      RefreshInterest(w, key) == Ok(w.(reserves := w.reserves[key := s]))
  {
    hide AccrueInterest, ReserveFits;
    assert w.ledger[key := w.ledger[key]] == w.ledger;
  }

  lemma LoanIndexPositive(w: World, loan: Loan)
    requires LoanOk(loan, w.reserves)
    ensures loan.cumulativeRate > 0
  {
  }

  lemma BookRepayEffects(w: World, u: World, id: nat, key: Pubkey, i: nat, loan: Loan, amount: u64) returns (settle: Decimal, repay: u64)
    requires id < |w.obligations| && i < |w.obligations[id].borrows| && key in w.reserves && key in w.ledger
    requires BookRepay(w, id, key, i, loan, amount) == Ok(u)
    requires w.obligations[id].borrows[i].reserve == key == loan.reserve
    requires DebtIn(w.obligations[id].borrows, key) == w.obligations[id].borrows[i].borrowed
    ensures |u.obligations| == |w.obligations| && key in u.ledger
    ensures settle <= loan.borrowed && DebtIn(u.obligations[id].borrows, key) == loan.borrowed - settle
    ensures forall k: Pubkey :: k != key ==> DebtIn(u.obligations[id].borrows, k) == DebtIn(w.obligations[id].borrows, k)
    ensures u.obligations[id].deposits == w.obligations[id].deposits
    ensures u.ledger[key] == w.ledger[key].(liquidity := w.ledger[key].liquidity + repay)
    ensures settle <= FromInt(repay) < settle + WAD
    ensures if amount == U64_MAX then settle == loan.borrowed else repay <= amount && settle == Min(FromInt(amount), loan.borrowed)
    ensures OnlyObligation(w, u, id) && key in u.reserves
    ensures var r, s := w.reserves[key], u.reserves[key];
      OnlyAmounts(r, s) && (s.liquidity.available, s.liquidity.borrowed) == RepaidInto(r.liquidity, repay, settle)
  {
    hide RepayLiquidity, SettleLoan, ObligationFits, ReserveFits, DebtIn;
    var t := CalculateRepay(amount, loan.borrowed).value;
    settle, repay := t.settleAmount, t.repayAmount;
    RepaidFrame(w.reserves[key].liquidity, repay, settle);
    assert settle <= FromInt(repay) < settle + WAD;
    hide CalculateRepay;
    var o := w.obligations[id];
    var p := o.(borrows := o.borrows[i := loan]);
    forall k: Pubkey
      ensures DebtIn(u.obligations[id].borrows, k)
                == DebtIn(o.borrows, k) + (if k == key then loan.borrowed - o.borrows[i].borrowed - settle else 0)
    {
      DebtPut(o.borrows, i, loan, k);
      SettleLoanDebt(p, settle, i, k);
    }
    SettleLoanDebt(p, settle, i, key);
  }

  // ----- withdraw, liquidate, forgive

  /** What a withdrawal of `take` tokens does: they leave the obligation and the vault, and nothing else
      moves. */
  predicate Withdrawn(w: World, u: World, id: nat, key: Pubkey, take: u64) {
    && OnlyObligation(w, u, id) && id < |w.obligations| && key in w.ledger && take <= w.ledger[key].collateral
    && (forall k: Pubkey :: DepositedIn(u.obligations[id].deposits, k)
          == DepositedIn(w.obligations[id].deposits, k) - (if k == key then take else 0))
    && u.obligations[id].borrows == w.obligations[id].borrows
    && u.reserves == w.reserves && u.market == w.market && u.slot == w.slot
    && u.ledger == w.ledger[key := w.ledger[key].(collateral := w.ledger[key].collateral - take,
                                                  held := w.ledger[key].held + take)]
  }

  /** What may be withdrawn at most: what the limits leave and, if `limited`, what the limiters let out. */
  function MostWithdrawable(w: World, o: Obligation, c: Collateral, r: Reserve, limited: bool): Result<nat> {
    var max :- MaxWithdrawAmount(o, c, r);
    var outflow :- if limited then MaxOutflowCollateral(r, w.market, w.slot, o.depositedValue) else Ok(U64_MAX);
    Ok(Min(max, outflow))
  }

  lemma WithdrawInnerTakes(w: World, u: World, id: nat, key: Pubkey, amount: u64, limited: bool, take: u64) returns (i: nat)
    requires WithdrawInner(w, id, key, amount, limited) == Ok((u, take)) && id < |w.obligations| && key in w.reserves
    ensures FindCollateralInDeposits(w.obligations[id], key) == Ok(i)
    ensures i < |w.obligations[id].deposits| && w.obligations[id].deposits[i].reserve == key
    ensures var most := MostWithdrawable(w, w.obligations[id], w.obligations[id].deposits[i], w.reserves[key], limited);
      most.Ok? && take == Min(amount, most.value) > 0
  {
    hide MaxWithdrawAmount, MaxOutflowCollateral, WithdrawCollateral, FindDeposit, NotStale;
    i := FindCollateralInDeposits(w.obligations[id], key).value;
  }

  lemma WithdrawInnerMoves(w: World, u: World, id: nat, key: Pubkey, amount: u64, limited: bool, take: u64)
    requires WithdrawInner(w, id, key, amount, limited) == Ok((u, take))
    ensures Withdrawn(w, u, id, key, take)
  {
    hide MaxWithdrawAmount, MaxOutflowCollateral, ObligationFits, WithdrawCollateral, FindDeposit, DepositedIn, NotStale;
    var o := w.obligations[id];
    var i := FindCollateralInDeposits(o, key).value;
    WithdrawCollateralBorrows(o, take, i);
    forall k: Pubkey
      ensures DepositedIn(u.obligations[id].deposits, k) == DepositedIn(o.deposits, k) - (if k == key then take else 0)
    {
      WithdrawCollateralSum(o, take, i, k);
    }
  }

  lemma WithdrawInnerEffects(w: World, u: World, id: nat, key: Pubkey, amount: u64, limited: bool, take: u64) returns (i: nat)
    requires WithdrawInner(w, id, key, amount, limited) == Ok((u, take))
    ensures ObligationUpToDate(w, id) && ReserveUpToDate(w, key) && Withdrawn(w, u, id, key, take)
    ensures i < |w.obligations[id].deposits| && w.obligations[id].deposits[i].reserve == key
    ensures var most := MostWithdrawable(w, w.obligations[id], w.obligations[id].deposits[i], w.reserves[key], limited);
      most.Ok? && take == Min(amount, most.value) > 0
  {
    hide WithdrawInner, Withdrawn, MostWithdrawable, UpToDate, FindCollateralInDeposits;
    WithdrawInnerNeeds(w, id, key, amount, limited);
    WithdrawInnerMoves(w, u, id, key, amount, limited, take);
    i := WithdrawInnerTakes(w, u, id, key, amount, limited, take);
  }

  /** A withdrawal needs obligation and reserve to be up to date, takes the smaller of what is asked for and
      what the limits leave, and moves the same number of tokens off the obligation and out of the vault. */
  lemma WithdrawEffects(w: World, u: World, id: nat, key: Pubkey, amount: u64) returns (take: u64, i: nat)
    requires DoWithdraw(w, id, key, amount) == Ok(u)
    ensures ObligationUpToDate(w, id) && ReserveUpToDate(w, key) && Withdrawn(w, u, id, key, take)
    ensures i < |w.obligations[id].deposits| && w.obligations[id].deposits[i].reserve == key
    ensures var max := MaxWithdrawAmount(w.obligations[id], w.obligations[id].deposits[i], w.reserves[key]);
      max.Ok? && take == Min(amount, max.value) > 0
  {
    hide WithdrawInner, Withdrawn, MaxWithdrawAmount, UpToDate;
    take := WithdrawInner(w, id, key, amount, false).value.1;
    i := WithdrawInnerEffects(w, u, id, key, amount, false, take);
  }

  lemma WithdrawCollateralBorrows(o: Obligation, take: u64, i: nat)
    requires i < |o.deposits| && WithdrawCollateral(o, take, i).Ok?
    ensures WithdrawCollateral(o, take, i).value.borrows == o.borrows
  {
  }

  /** The settlement of a liquidation moves its terms and nothing else. */
  lemma BookLiquidationEffects(w: World, u: World, id: nat, repayKey: Pubkey, withdrawKey: Pubkey, i: nat, j: nat, t: LiquidationTerms)
    requires repayKey in w.reserves && repayKey in w.ledger && withdrawKey in w.ledger && id < |w.obligations|
    requires i < |w.obligations[id].borrows| && j < |w.obligations[id].deposits|
    requires w.obligations[id].borrows[i].reserve == repayKey && w.obligations[id].deposits[j].reserve == withdrawKey
    requires BookLiquidation(w, id, repayKey, withdrawKey, i, j, t) == Ok(u)
    ensures |u.obligations| == |w.obligations| && withdrawKey in u.ledger && repayKey in u.ledger
    ensures forall k: Pubkey :: DebtIn(u.obligations[id].borrows, k)
              == DebtIn(w.obligations[id].borrows, k) - (if k == repayKey then t.settleAmount else 0)
    ensures forall k: Pubkey :: DepositedIn(u.obligations[id].deposits, k)
              == DepositedIn(w.obligations[id].deposits, k) - (if k == withdrawKey then t.withdrawAmount else 0)
    ensures t.withdrawAmount <= w.ledger[withdrawKey].collateral
    ensures var paid := w.ledger[repayKey := w.ledger[repayKey].Receive(t.repayAmount)];
      u.ledger == paid[withdrawKey := paid[withdrawKey].(collateral := paid[withdrawKey].collateral - t.withdrawAmount,
                                                         held := paid[withdrawKey].held + t.withdrawAmount)]
    ensures var l := w.reserves[repayKey].liquidity;
      l.available + t.repayAmount < U64 && u.reserves == w.reserves[repayKey := MarkStale(w.reserves[repayKey].(liquidity :=
        l.(available := l.available + t.repayAmount, borrowed := l.borrowed - Min(t.settleAmount, l.borrowed))))]
    ensures u.slot == w.slot && u.market == w.market
  {
    hide RepayLiquidity, SettleLoan, WithdrawCollateral, ObligationFits, ReserveFits, DebtIn, DepositedIn;
    var o := w.obligations[id];
    RepaidFrame(w.reserves[repayKey].liquidity, t.repayAmount, t.settleAmount);
    SettleLoanDebt(o, t.settleAmount, i, repayKey);
    var p := SettleLoan(o, t.settleAmount, i).value;
    WithdrawCollateralBorrows(p, t.withdrawAmount, j);
    forall k: Pubkey
      ensures DebtIn(u.obligations[id].borrows, k) == DebtIn(o.borrows, k) - (if k == repayKey then t.settleAmount else 0)
      ensures DepositedIn(u.obligations[id].deposits, k)
                == DepositedIn(o.deposits, k) - (if k == withdrawKey then t.withdrawAmount else 0)
    {
      SettleLoanDebt(o, t.settleAmount, i, k);
      WithdrawCollateralSum(p, t.withdrawAmount, j, k);
    }
  }

  /** Redeeming collateral outside the limiters pays its quotient at the current rate. */
  lemma RedeemEffects(w: World, u: World, key: Pubkey, collateral: u64, paid: u64)
    requires RedeemInner(w, key, collateral, false) == Ok((u, paid))
    ensures key in w.reserves && key in w.ledger && paid <= w.ledger[key].liquidity && collateral <= w.ledger[key].held
    ensures collateral <= w.reserves[key].mintSupply && paid <= w.reserves[key].liquidity.available
    ensures ExchangeRate(w.reserves[key]).Ok? && CollateralToLiquidity(ExchangeRate(w.reserves[key]).value, collateral) == Ok(paid)
    ensures u.obligations == w.obligations && u.market == w.market && u.slot == w.slot
    ensures u.ledger == w.ledger[key := w.ledger[key].(liquidity := w.ledger[key].liquidity - paid,
                                                       held := w.ledger[key].held - collateral)]
    ensures var r := w.reserves[key];
      u.reserves == w.reserves[key := MarkStale(r.(mintSupply := r.mintSupply - collateral,
        liquidity := r.liquidity.(available := r.liquidity.available - paid)))]
  {
    hide RedeemCollateral, ExchangeRate, CollateralToLiquidity, ReserveFits, LimiterFits;
    var r := w.reserves[key];
    RedeemFrame(r, collateral);
    RedeemPays(r, collateral);
  }

  lemma RedeemPays(r: Reserve, collateral: u64)
    requires RedeemCollateral(r, collateral).Ok?
    ensures var (s, l) := RedeemCollateral(r, collateral).value;
      && ExchangeRate(r).Ok? && CollateralToLiquidity(ExchangeRate(r).value, collateral) == Ok(l)
      && l <= r.liquidity.available && collateral <= r.mintSupply
  {
    hide ExchangeRate, CollateralToLiquidity;
  }

  /** Refreshing a reserve that is up to date only renews its timestamp. */
  lemma RefreshAgain(w: World, u: World, key: Pubkey)
    requires RefreshInterest(w, key) == Ok(u) && key in w.reserves && w.reserves[key].lastUpdate.slot == w.slot
    ensures key in w.ledger && u == w.(reserves := w.reserves[key := w.reserves[key].(lastUpdate := LastUpdate(w.slot, false))])
  {
    hide ReserveFits, CurrentBorrowRate, CompoundInterest;
    assert w.ledger[key := w.ledger[key]] == w.ledger;
  }

  /** What a reserve and its tokens look like after `redeemed` of them went for `paid`. */
  predicate Redeemed(w: World, u: World, key: Pubkey, redeemed: u64, paid: u64) {
    && key in w.reserves && key in w.ledger && key in u.reserves && key in u.ledger
    && redeemed <= w.reserves[key].mintSupply && redeemed <= w.ledger[key].held
    && paid <= w.reserves[key].liquidity.available && paid <= w.ledger[key].liquidity
    && u.obligations == w.obligations
    && u.ledger == w.ledger[key := w.ledger[key].(liquidity := w.ledger[key].liquidity - paid,
                                                  held := w.ledger[key].held - redeemed)]
    && (forall k :: k in w.reserves && k != key ==> k in u.reserves && u.reserves[k] == w.reserves[k])
    && u.reserves[key].mintSupply == w.reserves[key].mintSupply - redeemed
    && u.reserves[key].liquidity
         == w.reserves[key].liquidity.(available := w.reserves[key].liquidity.available - paid)
  }

  /** As much of the seized collateral as the available liquidity is worth goes for its quotient. */
  predicate RedeemedFrom(r: Reserve, seized: u64, redeemed: u64, paid: u64) {
    && ExchangeRate(r).Ok?
    && var rate := ExchangeRate(r).value;
    && LiquidityToCollateral(rate, r.liquidity.available).Ok?
    && redeemed == Min(seized, LiquidityToCollateral(rate, r.liquidity.available).value)
    && if redeemed == 0 then paid == 0 else CollateralToLiquidity(rate, redeemed) == Ok(paid)
  }

  lemma RateIgnoresTimestamp(r: Reserve, update: LastUpdate)
    ensures ExchangeRate(r.(lastUpdate := update)) == ExchangeRate(r)
  {
  }

  lemma SeizedEffects(w: World, u: World, key: Pubkey, seized: u64, bonusRate: Decimal) returns (redeemed: u64, paid: u64)
    requires RedeemSeized(w, key, seized, bonusRate) == Ok(u)
    requires key in w.reserves && w.reserves[key].lastUpdate.slot == w.slot
    ensures Redeemed(w, u, key, redeemed, paid) && RedeemedFrom(w.reserves[key], seized, redeemed, paid)
  {
    hide RefreshInterest, ExchangeRate, LiquidityToCollateral, CollateralToLiquidity, RedeemInner, ProtocolLiquidationFee;
    RateIgnoresTimestamp(w.reserves[key], LastUpdate(w.slot, false));
    var v := RefreshInterest(w, key).value;
    RefreshAgain(w, v, key);
    var s := v.reserves[key];
    redeemed := Min(seized, LiquidityToCollateral(ExchangeRate(s).value, s.liquidity.available).value);
    paid := 0;
    if redeemed > 0 {
      var x := RedeemInner(v, key, redeemed, false).value;
      paid := x.1;
      RedeemEffects(v, x.0, key, redeemed, paid);
    } else {
      assert w.ledger[key := w.ledger[key]] == w.ledger;
    }
  }

  /** Terms that the calculator gives for an unhealthy obligation: what may be settled is settled, as far as
      the collateral pays for it, and repaid in full; the seized collateral is worth the bonus rate times
      the repaid debt, up to the slack of a few floors. */
  predicate FairTerms(amount: u64, o: Obligation, loan: Loan, c: Collateral, t: LiquidationTerms) {
    && o.borrowedValue >= o.unhealthyBorrowValue
    && Settleable(amount, o, loan).Ok? && t.settleAmount <= Settleable(amount, o, loan).value
    && (t.withdrawAmount < c.deposited ==> t.settleAmount == Settleable(amount, o, loan).value)
    && AtLeastBonus(t, loan, c)
    && WAD <= t.bonusRate <= WAD + Percent(MAX_BONUS_PCT)
    && t.settleAmount <= FromInt(t.repayAmount) < t.settleAmount + WAD
    && (loan.marketValue > WAD ==>
          && t.settleAmount * loan.marketValue <= loan.borrowed * FromInt(500_000)
          && t.settleAmount * loan.marketValue * 5 <= loan.borrowed * o.borrowedValue)
    && (t.withdrawAmount < c.deposited ==>
          if BumpedToOne(loan, c, t.bonusRate) then t.withdrawAmount == 1 else AtMostBonus(t, loan, c))
  }

  lemma TermsAreFair(config: Config, amount: u64, o: Obligation, loan: Loan, c: Collateral, t: LiquidationTerms)
    requires CalculateLiquidation(config, amount, o, loan, c) == Ok(t)
    ensures FairTerms(amount, o, loan, c, t)
  {
    hide CalculateLiquidation, BumpedToOne, AtMostBonus, AtLeastBonus, ValueBrackets, Settleable;
    SeizedAtLeastBonus(config, amount, o, loan, c);
    var debt, value := LiquidationTermsAre(config, amount, o, loan, c);
    SpareSettles(t, debt, value, c);
    BonusRateBounded(config, amount, o, loan, c);
    LiquidationRepaysInFull(config, amount, o, loan, c);
    if loan.marketValue > WAD { PartialLiquidationCapped(config, amount, o, loan, c); }
    if t.withdrawAmount < c.deposited { SeizedAtMostBonus(config, amount, o, loan, c); }
  }

  /** The reserve of the seized collateral once the debt is settled, which may be its own. */
  function SettledReserve(w: World, repayKey: Pubkey, withdrawKey: Pubkey, t: LiquidationTerms): Reserve
    requires withdrawKey in w.reserves
    requires repayKey == withdrawKey ==> w.reserves[repayKey].liquidity.available + t.repayAmount < U64
  {
    var r := w.reserves[withdrawKey];
    var l := r.liquidity;
    if repayKey != withdrawKey then r
    else r.(liquidity := l.(available := l.available + t.repayAmount, borrowed := l.borrowed - Min(t.settleAmount, l.borrowed)))
  }

  lemma SpareSettles(t: LiquidationTerms, debt: nat, value: nat, c: Collateral)
    requires TermsAre(t, debt, value, c)
    ensures t.settleAmount <= debt && (t.withdrawAmount < c.deposited ==> t.settleAmount == debt)
  {
  }

  /** The books of a liquidation: the obligation loses what is settled and what is seized, the reserve of
      the debt gains the repayment and counts the settled part as repaid, and of the seized collateral
      `redeemed` is burnt for `paid`. */
  predicate LiquidationBooked(w: World, u: World, id: nat, repayKey: Pubkey, withdrawKey: Pubkey, t: LiquidationTerms,
                              redeemed: u64, paid: u64) {
    && id < |w.obligations| == |u.obligations|
    && repayKey in w.reserves && repayKey in u.reserves && withdrawKey in w.reserves && withdrawKey in u.reserves
    && repayKey in w.ledger && repayKey in u.ledger && withdrawKey in w.ledger && withdrawKey in u.ledger
    && (forall k: Pubkey :: DebtIn(u.obligations[id].borrows, k)
          == DebtIn(w.obligations[id].borrows, k) - (if k == repayKey then t.settleAmount else 0))
    && (forall k: Pubkey :: DepositedIn(u.obligations[id].deposits, k)
          == DepositedIn(w.obligations[id].deposits, k) - (if k == withdrawKey then t.withdrawAmount else 0))
    && w.reserves[repayKey].liquidity.available + t.repayAmount < U64
    && RedeemedFrom(SettledReserve(w, repayKey, withdrawKey, t), t.withdrawAmount, redeemed, paid)
    && (var debt := w.reserves[repayKey].liquidity.borrowed;
        u.reserves[repayKey].liquidity.borrowed == debt - Min(t.settleAmount, debt))
    && u.reserves[withdrawKey].mintSupply == w.reserves[withdrawKey].mintSupply - redeemed
    && u.ledger[repayKey].liquidity
         == w.ledger[repayKey].liquidity + t.repayAmount - (if repayKey == withdrawKey then paid else 0)
    && u.ledger[withdrawKey].liquidity
         == w.ledger[withdrawKey].liquidity - paid + (if repayKey == withdrawKey then t.repayAmount else 0)
    && u.ledger[withdrawKey].collateral == w.ledger[withdrawKey].collateral - t.withdrawAmount
    && u.ledger[withdrawKey].held == w.ledger[withdrawKey].held + t.withdrawAmount - redeemed
  }

  lemma LiquidationAddsUp(w: World, x: World, u: World, id: nat, repayKey: Pubkey, withdrawKey: Pubkey, i: nat, j: nat,
                          t: LiquidationTerms, redeemed: u64, paid: u64)
    requires repayKey in w.reserves && withdrawKey in w.reserves && repayKey in w.ledger && withdrawKey in w.ledger
    requires id < |w.obligations| && i < |w.obligations[id].borrows| && j < |w.obligations[id].deposits|
    requires w.obligations[id].borrows[i].reserve == repayKey && w.obligations[id].deposits[j].reserve == withdrawKey
    requires BookLiquidation(w, id, repayKey, withdrawKey, i, j, t) == Ok(x)
    requires Redeemed(x, u, withdrawKey, redeemed, paid)
    requires RedeemedFrom(x.reserves[withdrawKey], t.withdrawAmount, redeemed, paid)
    ensures LiquidationBooked(w, u, id, repayKey, withdrawKey, t, redeemed, paid)
  {
    hide BookLiquidation, DebtIn, DepositedIn, ExchangeRate, LiquidityToCollateral, CollateralToLiquidity;
    BookLiquidationEffects(w, x, id, repayKey, withdrawKey, i, j, t);
    var r := w.reserves[withdrawKey];
    RateIgnoresTimestamp(SettledReserve(w, repayKey, withdrawKey, t), r.lastUpdate.MarkStale());
  }

  /** A liquidation: fair terms for the one borrow that may be repaid and the deposit named, moved as they
      are, and the seized collateral redeemed as far as it goes. */
  lemma LiquidationEffects(w: World, u: World, id: nat, repayKey: Pubkey, withdrawKey: Pubkey, amount: u64)
    returns (t: LiquidationTerms, j: nat, redeemed: u64, paid: u64)
    requires DoLiquidate(w, id, repayKey, withdrawKey, amount) == Ok(u)
    ensures id < |w.obligations| && |w.obligations[id].borrows| > 0 && w.obligations[id].borrows[0].reserve == repayKey
    ensures j < |w.obligations[id].deposits| && w.obligations[id].deposits[j].reserve == withdrawKey
    ensures FairTerms(amount, w.obligations[id], w.obligations[id].borrows[0], w.obligations[id].deposits[j], t)
    ensures ObligationUpToDate(w, id) && ReserveUpToDate(w, repayKey) && ReserveUpToDate(w, withdrawKey)
    ensures LiquidationBooked(w, u, id, repayKey, withdrawKey, t, redeemed, paid)
  {
    LiquidateNeeds(w, id, repayKey, withdrawKey, amount);
    hide CalculateLiquidation, BookLiquidation, RedeemSeized, CheckLiquidation, FairTerms, LiquidationBooked;
    var o := w.obligations[id];
    var s := w.reserves[withdrawKey];
    j := CheckLiquidation(o, repayKey, withdrawKey).value.1;
    t := CalculateLiquidation(s.config, amount, o, o.borrows[0], o.deposits[j]).value;
    TermsAreFair(s.config, amount, o, o.borrows[0], o.deposits[j], t);
    var x := BookLiquidation(w, id, repayKey, withdrawKey, 0, j, t).value;
    BookLiquidationEffects(w, x, id, repayKey, withdrawKey, 0, j, t);
    redeemed, paid := SeizedEffects(x, u, withdrawKey, t.withdrawAmount, t.bonusRate);
    LiquidationAddsUp(w, x, u, id, repayKey, withdrawKey, 0, j, t, redeemed, paid);
  }

  /** Forgiving takes the same amount off the obligation's debt and off the reserve's total and moves no
      tokens: as much as asked for, unless that is the whole debt or leaves the reserve just a hundredth of
      its collateral's face value. */
  lemma ForgiveEffects(w: World, u: World, id: nat, key: Pubkey, amount: u64) returns (forgiven: Decimal, i: nat)
    requires DoForgive(w, id, key, amount) == Ok(u)
    ensures id < |w.obligations| == |u.obligations| && key in w.reserves && key in u.reserves && forgiven <= FromInt(amount)
    ensures forall k: Pubkey :: DebtIn(u.obligations[id].borrows, k)
              == DebtIn(w.obligations[id].borrows, k) - (if k == key then forgiven else 0)
    ensures u.reserves[key].liquidity.borrowed + forgiven == w.reserves[key].liquidity.borrowed
    ensures u.reserves[key].liquidity == w.reserves[key].liquidity.(borrowed := u.reserves[key].liquidity.borrowed)
    ensures u.ledger == w.ledger && w.obligations[id].deposits == []
    ensures w.reserves[key].mintSupply * PERCENT_SCALER <= Net(u.reserves[key].liquidity)
    ensures ObligationUpToDate(w, id) && ReserveUpToDate(w, key) && OnlyObligation(w, u, id)
    ensures i < |w.obligations[id].borrows| && w.obligations[id].borrows[i].reserve == key
    ensures forgiven == FromInt(amount) || forgiven == w.obligations[id].borrows[i].borrowed
         || w.reserves[key].mintSupply * PERCENT_SCALER == Net(u.reserves[key].liquidity)
  {
    ForgiveNeeds(w, id, key, amount);
    hide SettleLoan, FindLoan, ObligationFits, ReserveFits, DebtIn, ForgivenAmount, NotStale, UpToDate;
    var r, o := w.reserves[key], w.obligations[id];
    i := FindLiquidityInBorrows(o, key).value;
    forgiven := ForgivenAmount(r, o.borrows[i], amount).value;
    ForgivenBounds(r, o.borrows[i], amount);
    forall k: Pubkey
      ensures DebtIn(u.obligations[id].borrows, k) == DebtIn(o.borrows, k) - (if k == key then forgiven else 0)
    {
      SettleLoanDebt(o, forgiven, i, k);
    }
    assert w.ledger[key := w.ledger[key]] == w.ledger;
  }

  lemma ForgivenBounds(r: Reserve, loan: Loan, amount: u64)
    requires ForgivenAmount(r, loan, amount).Ok?
    ensures var f := ForgivenAmount(r, loan, amount).value;
      && f <= FromInt(amount) && f <= loan.borrowed && r.mintSupply * PERCENT_SCALER <= Net(r.liquidity) - f
      && (f == FromInt(amount) || f == loan.borrowed || r.mintSupply * PERCENT_SCALER == Net(r.liquidity) - f)
  {
  }

  // ----- deposit

  /** The reserve has taken `amount` in and minted `minted` for it. */
  predicate DepositedInto(r: Reserve, s: Reserve, amount: nat, minted: nat) {
    && s.liquidity == r.liquidity.(available := s.liquidity.available)
    && s.liquidity.available == r.liquidity.available + amount && s.mintSupply == r.mintSupply + minted
    && s.config == r.config && s.limiter == r.limiter
  }

  lemma DepositStart(w: World, u: World, key: Pubkey, amount: u64)
    requires DoDeposit(w, key, amount) == Ok(u)
    ensures RefreshInterest(w, key).Ok? && DepositInner(RefreshInterest(w, key).value, key, amount).Ok?
    ensures DepositInner(RefreshInterest(w, key).value, key, amount).value.0 == u
  {
    hide RefreshInterest, DepositInner;
  }

  /** A deposit brings in exactly its amount, puts exactly the minted tokens into circulation, and stays
      within the deposit limit. */
  lemma DepositEffects(w: World, u: World, key: Pubkey, amount: u64) returns (minted: u64, rate: Rate)
    requires DoDeposit(w, key, amount) == Ok(u)
    ensures key in w.ledger && key in u.ledger && key in u.reserves && u.obligations == w.obligations
    ensures u.ledger[key] == w.ledger[key].(liquidity := w.ledger[key].liquidity + amount, held := w.ledger[key].held + minted)
    ensures key in w.reserves && RefreshInterest(w, key).Ok? && key in RefreshInterest(w, key).value.reserves
    ensures ExchangeRate(RefreshInterest(w, key).value.reserves[key]) == Ok(rate)
    ensures AccrueInterest(w.reserves[key], w.slot).Ok?
    ensures DepositedInto(AccrueInterest(w.reserves[key], w.slot).value, u.reserves[key], amount, minted)
    ensures minted * WAD <= amount * rate < minted * WAD + WAD
    ensures Net(u.reserves[key].liquidity) < FromInt(u.reserves[key].config.depositLimit) + WAD
  {
    hide DoDeposit, AccrueInterest, RefreshInterest, DepositInner, Net, DepositedInto, ExchangeRate;
    DepositStart(w, u, key, amount);
    InterestOnly(w, key);
    var v := RefreshInterest(w, key).value;
    minted, rate := DepositInnerEffects(v, u, key, amount);
    StampedInto(AccrueInterest(w.reserves[key], w.slot).value, v.reserves[key], u.reserves[key], amount, minted);
  }

  lemma StampedInto(r: Reserve, t: Reserve, s: Reserve, amount: nat, minted: nat)
    requires t == r.(lastUpdate := t.lastUpdate) && DepositedInto(t, s, amount, minted)
    ensures DepositedInto(r, s, amount, minted)
  {
  }

  lemma DepositInnerEffects(w: World, u: World, key: Pubkey, amount: u64) returns (minted: u64, rate: Rate)
    requires DepositInner(w, key, amount).Ok? && DepositInner(w, key, amount).value.0 == u
    ensures key in w.ledger && key in u.ledger && key in u.reserves && u.obligations == w.obligations
    ensures u.ledger[key] == w.ledger[key].(liquidity := w.ledger[key].liquidity + amount, held := w.ledger[key].held + minted)
    ensures key in w.reserves && ExchangeRate(w.reserves[key]) == Ok(rate)
    ensures DepositedInto(w.reserves[key], u.reserves[key], amount, minted)
    ensures minted * WAD <= amount * rate < minted * WAD + WAD
    ensures Net(u.reserves[key].liquidity) < FromInt(u.reserves[key].config.depositLimit) + WAD
  {
    var r := w.reserves[key];
    rate := ExchangeRate(r).value;
    minted := DepositLiquidity(r, amount).value.1;
    DepositFrame(r, amount);
    DepositEffect(r, amount);
    assert TotalSupply(r.liquidity) == Ok(Net(r.liquidity));
    hide DepositLiquidity, LiquidityToCollateral, ExchangeRate, TotalSupply, Net, ReserveFits;
    MintedBrackets(rate, amount);
  }
}
