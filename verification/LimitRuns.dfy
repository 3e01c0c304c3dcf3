/** Borrowing limits across instructions: a borrow or a withdrawal that the program accepts for a
    refreshed obligation still fits the borrowing limit when the obligation is next refreshed in the
    same slot at the same prices, up to a rounding slack of a few units of 10^-18. */
module LimitRuns {
  import opened Results
  import opened FloorMath
  import opened FixedPoint
  import opened RateLimiters
  import opened ReserveConfigs
  import opened Reserves
  import opened Valuation
  import opened Obligations
  import opened ObligationRefresh
  import opened BorrowingLimits
  import opened Lending
  import opened LendingSafety
  import opened ReserveSteps
  import opened ObligationSteps
  import opened PositionSteps
  import opened LendingRuns

  lemma RefreshIgnoresStaleness(o: Obligation, rs: ReserveMap, now: u64)
    ensures Refresh(Touched(o), rs, now) == Refresh(o, rs, now)
  {
    hide ValueDeposits, ValueLoans, KeepLoans, KeepDeposits, Promote;
  }

  /** The obligation and the reserves after a refresh. */
  lemma RefreshStep(w: World, id: nat)
    requires DoRefreshObligation(w, id).Ok?
    ensures var v := DoRefreshObligation(w, id).value;
      && id < |w.obligations| == |v.obligations| && Refresh(w.obligations[id], w.reserves, w.slot) == Ok(v.obligations[id])
      && v.slot == w.slot && v.reserves == w.reserves && v.market == w.market
      && Fresh(v.obligations[id], v.reserves)
  {
    hide Refresh, ObligationFits, Fresh;
    RefreshIsFresh(w.obligations[id], w.reserves, w.slot);
  }

  // ----- withdrawing

  lemma WithdrawStep(w: World, id: nat, key: Pubkey, amount: u64)
    requires DoWithdraw(w, id, key, amount).Ok?
    ensures id < |w.obligations| && key in w.reserves
    ensures var o, v := w.obligations[id], DoWithdraw(w, id, key, amount).value;
      && FindCollateralInDeposits(o, key).Ok?
      && var i := FindCollateralInDeposits(o, key).value;
      && |v.obligations| == |w.obligations| && v.reserves == w.reserves && v.slot == w.slot
      && var max := MaxWithdrawAmount(o, o.deposits[i], w.reserves[key]);
      && max.Ok?
      && exists take: u64 :: 0 < take <= max.value
           && WithdrawCollateral(o, take, i).Ok? && v.obligations[id] == Touched(WithdrawCollateral(o, take, i).value)
  {
    hide MaxWithdrawAmount, ObligationFits, WithdrawCollateral, FindDeposit;
    var take := WithdrawInner(w, id, key, amount, false).value.1;
    var o := w.obligations[id];
    var i := FindCollateralInDeposits(o, key).value;
    assert WithdrawCollateral(o, take, i).Ok? && take > 0;
  }

  /** Refresh, withdraw as much as is accepted, refresh again: the borrowed value exceeds the limit by
      at most floor(price / 10^decimals) + 1 units of 10^-18. */
  lemma WithdrawStaysWithinLimit(w: World, u: World, v: World, x: World, id: nat, key: Pubkey, amount: u64)
    requires Safe(w) && DoRefreshObligation(w, id) == Ok(u)
    requires DoWithdraw(u, id, key, amount) == Ok(v)
    requires DoRefreshObligation(v, id) == Ok(x)
    ensures key in w.reserves && id < |x.obligations|
    ensures var l := w.reserves[key].liquidity;
            x.obligations[id].borrowedValueUpperBound
              <= x.obligations[id].allowedBorrowValue + Quot(PriceLow(l), Unit(l.decimals)) + 1
  {
    hide Safe, DoRefreshObligation, DoWithdraw, Refresh, MaxWithdrawAmount, WithdrawCollateral, FindDeposit, Fresh,
         Unit, Quot, AllSane;
    SafeIsSane(w);
    RefreshStep(w, id);
    WithdrawStep(u, id, key, amount);
    RefreshStep(v, id);
    var o := u.obligations[id];
    var i := FindCollateralInDeposits(o, key).value;
    var max := MaxWithdrawAmount(o, o.deposits[i], w.reserves[key]).value;
    var take: u64 :| 0 < take <= max && WithdrawCollateral(o, take, i).Ok?
      && v.obligations[id] == Touched(WithdrawCollateral(o, take, i).value);
    RefreshIgnoresStaleness(WithdrawCollateral(o, take, i).value, w.reserves, w.slot);
    WithdrawThenRefresh(o, w.reserves, w.slot, i, take);
  }

  // ----- borrowing

  /** What an accepted borrow leaves behind. */
  predicate BorrowBooked(w: World, v: World, id: nat, key: Pubkey, t: BorrowTerms) {
    && id < |w.obligations| == |v.obligations| && key in w.reserves && key in v.reserves && v.slot == w.slot
    && v.reserves == w.reserves[key := v.reserves[key]] && Booked(w.reserves[key], v.reserves[key], t.borrowAmount)
    && v.reserves[key].lastUpdate.slot == w.slot
    && AddLoan(w.obligations[id], key, w.reserves[key].liquidity.cumulativeRate, t.borrowAmount).Ok?
    && v.obligations[id]
         == Touched(AddLoan(w.obligations[id], key, w.reserves[key].liquidity.cumulativeRate, t.borrowAmount).value)
  }

  lemma BorrowStep(w: World, id: nat, key: Pubkey, amount: u64) returns (t: BorrowTerms, remaining: Decimal)
    requires Safe(w) && DoBorrow(w, id, key, amount).Ok?
    ensures BorrowBooked(w, DoBorrow(w, id, key, amount).value, id, key, t)
    ensures RemainingBorrowValue(w.obligations[id]).Ok?
    ensures CalculateBorrow(w.reserves[key], amount, RemainingBorrowValue(w.obligations[id]).value, remaining) == Ok(t)
  {
    hide Safe, CheckBorrow, PriceBorrow, ValueAt, Update, LimiterFits, BorrowLiquidity, AddLoan, PayBorrow,
         ObligationFits, ReserveFits, LimiterOk, CalculateBorrow, Sane, RemainingOutflow, MaxOutflowTokens;
    SafeReserve(w, key);
    var r, o := w.reserves[key], w.obligations[id];
    CheckBorrowFacts(w, o, r, key, amount);
    var room := CheckBorrow(w, o, r, key, amount).value;
    PriceBorrowFacts(w, r, amount, room);
    t := PriceBorrow(w, r, amount, room).value.0;
    BorrowFrame(r.liquidity, t.borrowAmount);
    var tokens := MaxOutflowTokens(r, w.market, w.slot, room).value;
    var capacity: Decimal :| CalculateBorrow(r, amount, room, Min(capacity, tokens)) == Ok(t);
    remaining := Min(capacity, tokens);
  }

  /** Refreshing a reserve again in the same slot at the same prices only renews its timestamp. */
  lemma RepriceStep(w: World, key: Pubkey)
    requires key in w.reserves && w.reserves[key].lastUpdate.slot == w.slot
    requires var l := w.reserves[key].liquidity; DoRefreshReserve(w, key, l.price, l.smoothedPrice).Ok?
    ensures var l := w.reserves[key].liquidity;
            var v := DoRefreshReserve(w, key, l.price, l.smoothedPrice).value;
      && v.reserves == w.reserves[key := w.reserves[key].(lastUpdate := LastUpdate(w.slot, false))]
      && v.obligations == w.obligations && v.slot == w.slot
  {
    hide ReserveFits, CurrentBorrowRate, CompoundInterest;
  }

  /** A borrow of a fixed amount books whole tokens. */
  lemma FixedBorrowIsWhole(r: Reserve, amount: u64, maxValue: Decimal, remaining: Decimal)
    requires amount != U64_MAX && CalculateBorrow(r, amount, maxValue, remaining).Ok?
    ensures CalculateBorrow(r, amount, maxValue, remaining).value.borrowAmount % WAD == 0
  {
    hide CalculateFees, MarketValueUpperBound, Mul, BorrowWeight;
    var t := CalculateBorrow(r, amount, maxValue, remaining).value;
    assert t.borrowAmount == (amount + t.borrowFee) * WAD;
    FloorOfMultiple(amount + t.borrowFee, WAD);
  }

  /** The borrow cannot lower the rate at which the obligation's own collateral counts: only a "maximum"
      borrow from a reserve that owes its holders nothing could. */
  predicate CollateralHolds(w: World, id: nat, key: Pubkey, amount: u64) {
    && key in w.reserves && id < |w.obligations|
    && (|| w.reserves[key].mintSupply == 0 || Net(w.reserves[key].liquidity) > 0 || amount != U64_MAX
        || forall i :: 0 <= i < |w.obligations[id].deposits| ==> w.obligations[id].deposits[i].reserve != key)
  }

  lemma CollateralRateHolds(w: World, id: nat, key: Pubkey, amount: u64, maxValue: Decimal, remaining: Decimal, t: BorrowTerms)
    requires CollateralHolds(w, id, key, amount) && CalculateBorrow(w.reserves[key], amount, maxValue, remaining) == Ok(t)
    ensures RateHolds(w.obligations[id].deposits, key, w.reserves[key], t.borrowAmount)
  {
    hide CalculateBorrow, Net;
    if amount != U64_MAX { FixedBorrowIsWhole(w.reserves[key], amount, maxValue, remaining); }
  }

  /** Refresh, borrow whatever is accepted, refresh the reserve and the obligation again: the borrowed
      value exceeds the limit by at most floor(borrow weight) + 2 units of 10^-18. */
  lemma BorrowStaysWithinLimit(w: World, u: World, v: World, x: World, y: World, id: nat, key: Pubkey, amount: u64)
    requires Safe(w) && DoRefreshObligation(w, id) == Ok(u)
    requires DoBorrow(u, id, key, amount) == Ok(v)
    requires CollateralHolds(u, id, key, amount) && key in w.reserves
    requires var l := w.reserves[key].liquidity; DoRefreshReserve(v, key, l.price, l.smoothedPrice) == Ok(x)
    requires DoRefreshObligation(x, id) == Ok(y)
    ensures id < |y.obligations|
    ensures y.obligations[id].borrowedValueUpperBound
              <= y.obligations[id].allowedBorrowValue + BorrowWeight(w.reserves[key].config) / WAD + 2
  {
    hide Safe, DoRefreshObligation, DoBorrow, DoRefreshReserve, Refresh, Fresh, BorrowLiquidity, AddLoan,
         CalculateBorrow, BorrowWeight, CollateralHolds, RateHolds, RemainingBorrowValue;
    RefreshObligationSafe(w, id);
    RefreshStep(w, id);
    var t, remaining := BorrowStep(u, id, key, amount);
    SamePrices(w.reserves[key], v.reserves[key], t.borrowAmount);
    RepriceStep(v, key);
    RefreshStep(x, id);
    var o := u.obligations[id];
    var p := AddLoan(o, key, w.reserves[key].liquidity.cumulativeRate, t.borrowAmount).value;
    RefreshIgnoresStaleness(p, x.reserves, x.slot);
    assert x.reserves == w.reserves[key := x.reserves[key]];
    CollateralRateHolds(u, id, key, amount, RemainingBorrowValue(o).value, remaining, t);
    BorrowThenRefresh(o, w.reserves, x.reserves, w.slot, key, amount, remaining, t, p);
  }

  lemma SamePrices(r: Reserve, s: Reserve, amount: Decimal)
    requires Booked(r, s, amount)
    ensures s.liquidity.price == r.liquidity.price && s.liquidity.smoothedPrice == r.liquidity.smoothedPrice
  {
  }
}
