/** Instructions that move tokens between a reserve and an obligation - withdraw, borrow, repay,
    liquidate, forgive - keep `Safe`; the vaults always cover what they pay out, interest is never
    negative, and amounts clamped to the rate limiters are never refused by them. */
module PositionSteps {
  import opened Results
  import opened FixedPoint
  import opened RateLimiters
  import opened ReserveConfigs
  import opened Reserves
  import opened Valuation
  import opened Obligations
  import opened BorrowingLimits
  import opened Liquidation
  import opened Lending
  import opened LendingSafety
  import opened ReserveSteps
  import opened ObligationSteps

  /** Errors that no instruction run from a safe state can return. */
  predicate Unreachable(e: Error) { e == TokenTransferFailed || e == NegativeInterestRate }

  /** Outcomes of calculations: a value, or an error of the calculation itself. */
  predicate Calculated<T>(r: Result<T>) {
    r.Err? ==> !Unreachable(r.error) && r.error != OutflowRateLimitExceeded
  }

  lemma RemainingErrors(l: Limiter, now: u64)
    ensures Calculated(RemainingOutflow(l, now))
  {
    hide WindowOf;
  }

  lemma ExchangeErrors(r: Reserve)
    ensures Calculated(ExchangeRate(r))
  {
  }

  lemma OutflowErrors(r: Reserve, market: Limiter, now: u64, depositedValue: Decimal)
    ensures Calculated(MaxOutflowCollateral(r, market, now, depositedValue))
  {
    hide RemainingOutflow, ExchangeRate;
    RemainingErrors(market, now);
    RemainingErrors(r.limiter, now);
    ExchangeErrors(r);
  }

  lemma TokensErrors(r: Reserve, market: Limiter, now: u64, maxValue: Decimal)
    ensures Calculated(MaxOutflowTokens(r, market, now, maxValue))
  {
    hide RemainingOutflow;
    RemainingErrors(market, now);
    RemainingErrors(r.limiter, now);
  }

  lemma MaxWithdrawErrors(o: Obligation, c: Collateral, r: Reserve)
    ensures Calculated(MaxWithdrawAmount(o, c, r))
  {
    hide ExchangeRate;
    ExchangeErrors(r);
  }

  lemma UpdateErrors(l: Limiter, now: u64, qty: Decimal)
    ensures Update(l, now, qty).Err? ==> !Unreachable(Update(l, now, qty).error)
  {
    hide WindowOf;
  }

  lemma ValueErrors(price: Decimal, d: u8, amount: Decimal)
    ensures Calculated(ValueAt(price, d, amount))
  {
  }

  lemma StoreErrors(w: World, key: Pubkey, r: Reserve, v: Ledger)
    ensures StoreReserve(w, key, r, v).Err? ==> StoreReserve(w, key, r, v).error == Panic
  {
    hide ReserveFits;
  }

  // ----- withdraw

  lemma WithdrawInnerSafe(w: World, id: nat, key: Pubkey, amount: u64, limited: bool)
    requires Safe(w) && WithdrawInner(w, id, key, amount, limited).Ok?
    ensures var (u, take) := WithdrawInner(w, id, key, amount, limited).value;
      && Safe(u) && u.reserves == w.reserves && u.market == w.market && u.slot == w.slot
      && key in w.reserves && id < |w.obligations|
      && (limited ==>
            var r := w.reserves[key];
            var outflow := MaxOutflowCollateral(r, w.market, w.slot, w.obligations[id].depositedValue);
            outflow.Ok? && take <= outflow.value)
  {
    hide Safe, MaxOutflowCollateral, MaxWithdrawAmount, ObligationFits, WithdrawCollateral, FindDeposit;
    SafeKeys(w);
    var o := w.obligations[id];
    var i := FindCollateralInDeposits(o, key).value;
    var take := WithdrawInner(w, id, key, amount, limited).value.1;
    SafeObligation(w, id);
    WithdrawnSafe(w, id, o, i, take, key);
  }

  lemma WithdrawInnerErrors(w: World, id: nat, key: Pubkey, amount: u64, limited: bool)
    requires Safe(w)
    ensures Calculated(WithdrawInner(w, id, key, amount, limited))
  {
    hide Safe, MaxOutflowCollateral, MaxWithdrawAmount, ObligationFits, FindDeposit;
    if id < |w.obligations| && key in w.reserves && key in w.ledger {
      var o, r := w.obligations[id], w.reserves[key];
      if FindCollateralInDeposits(o, key).Ok? {
        var i := FindCollateralInDeposits(o, key).value;
        OutflowErrors(r, w.market, w.slot, o.depositedValue);
        MaxWithdrawErrors(o, o.deposits[i], r);
        VaultCovers(w, id, i);
      }
    }
  }

  lemma WithdrawSafe(w: World, id: nat, key: Pubkey, amount: u64)
    requires Safe(w)
    ensures Calculated(DoWithdraw(w, id, key, amount))
    ensures DoWithdraw(w, id, key, amount).Ok? ==> Safe(DoWithdraw(w, id, key, amount).value)
  {
    hide Safe, WithdrawInner;
    WithdrawInnerErrors(w, id, key, amount, false);
    if DoWithdraw(w, id, key, amount).Ok? { WithdrawInnerSafe(w, id, key, amount, false); }
  }

  /** A redemption within what the limiters let out is not refused by them. */
  lemma LimitedRedeem(w: World, key: Pubkey, depositedValue: Decimal, collateral: u64)
    requires Safe(w) && key in w.reserves
    requires var outflow := MaxOutflowCollateral(w.reserves[key], w.market, w.slot, depositedValue);
             outflow.Ok? && collateral <= outflow.value
    ensures RedeemInner(w, key, collateral, true) != Err(OutflowRateLimitExceeded)
  {
    hide Safe, MaxOutflowCollateral, RedeemCollateral, ValueAt, Update, LimiterOk, ReserveFits, Sane, LimiterFits;
    SafeMarket(w);
    SafeReserve(w, key);
    var r := w.reserves[key];
    RedeemOwnErrors(r, collateral);
    if RedeemCollateral(r, collateral).Ok? {
      var (s, amount) := RedeemCollateral(r, collateral).value;
      RedeemFrame(r, collateral);
      assert MarketValueUpperBound(s.liquidity, FromInt(amount)) == MarketValueUpperBound(r.liquidity, FromInt(amount));
      ValueErrors(PriceHigh(r.liquidity), r.liquidity.decimals, FromInt(amount));
      if MarketValueUpperBound(r.liquidity, FromInt(amount)).Ok? {
        ClampedRedeemPassesLimiters(r, w.market, w.slot, depositedValue, collateral);
      }
    }
  }

  lemma RedeemOwnErrors(r: Reserve, collateral: u64)
    ensures Calculated(RedeemCollateral(r, collateral))
  {
    hide ExchangeRate;
    ExchangeErrors(r);
  }

  lemma LimitErrors(w: World, r: Reserve, amount: u64, check: bool)
    ensures LimitRedeem(w, r, amount, check).Err? ==> !Unreachable(LimitRedeem(w, r, amount, check).error)
  {
    hide ValueAt, Update;
    ValueErrors(PriceHigh(r.liquidity), r.liquidity.decimals, FromInt(amount));
    if MarketValueUpperBound(r.liquidity, FromInt(amount)).Ok? {
      UpdateErrors(w.market, w.slot, MarketValueUpperBound(r.liquidity, FromInt(amount)).value);
      UpdateErrors(r.limiter, w.slot, FromInt(amount));
    }
  }

  lemma StaleErrors(update: LastUpdate, now: u64, error: Error)
    ensures NotStale(update, now, error).Err? ==>
      NotStale(update, now, error).error == error || NotStale(update, now, error).error == MathOverflow
  {
  }

  lemma RedeemNeverNegative(w: World, key: Pubkey, collateral: u64, check: bool)
    ensures RedeemInner(w, key, collateral, check).Err? ==> RedeemInner(w, key, collateral, check).error != NegativeInterestRate
  {
    hide RedeemCollateral, LimitRedeem, LimiterFits, ReserveFits, NotStale;
    if key in w.reserves && key in w.ledger {
      StaleErrors(w.reserves[key].lastUpdate, w.slot, ReserveStale);
      RedeemOwnErrors(w.reserves[key], collateral);
      if RedeemCollateral(w.reserves[key], collateral).Ok? {
        var (s, amount) := RedeemCollateral(w.reserves[key], collateral).value;
        LimitErrors(w, s, amount, check);
      }
    }
  }

  lemma RedeemInnerErrors(w: World, key: Pubkey, collateral: u64, check: bool)
    requires Safe(w)
    ensures RedeemInner(w, key, collateral, check).Err? ==> !Unreachable(RedeemInner(w, key, collateral, check).error)
  {
    hide Safe, RedeemInner;
    RedeemInnerSafe(w, key, collateral, check);
    RedeemNeverNegative(w, key, collateral, check);
  }

  /** A withdraw-and-redeem is never refused by the limiters it was clamped for. */
  lemma WithdrawAndRedeemSafe(w: World, id: nat, key: Pubkey, amount: u64)
    requires Safe(w)
    ensures Calculated(DoWithdrawAndRedeem(w, id, key, amount))
    ensures DoWithdrawAndRedeem(w, id, key, amount).Ok? ==> Safe(DoWithdrawAndRedeem(w, id, key, amount).value)
  {
    hide Safe, WithdrawInner, RedeemInner, MaxOutflowCollateral;
    WithdrawInnerErrors(w, id, key, amount, true);
    if WithdrawInner(w, id, key, amount, true).Ok? {
      WithdrawInnerSafe(w, id, key, amount, true);
      var (u, collateral) := WithdrawInner(w, id, key, amount, true).value;
      LimitedRedeem(u, key, w.obligations[id].depositedValue, collateral);
      RedeemInnerErrors(u, key, collateral, true);
      RedeemInnerSafe(u, key, collateral, true);
    }
  }

  // ----- borrow

  lemma CheckBorrowFacts(w: World, o: Obligation, r: Reserve, key: Pubkey, amount: u64)
    ensures Calculated(CheckBorrow(w, o, r, key, amount))
    ensures CheckBorrow(w, o, r, key, amount).Ok? ==>
      && !r.lastUpdate.stale && r.lastUpdate.slot == w.slot && !o.lastUpdate.stale && o.lastUpdate.slot == w.slot
      && o.deposits != [] && RemainingBorrowValue(o) == Ok(CheckBorrow(w, o, r, key, amount).value)
  {
  }

  lemma CalculateBorrowErrors(r: Reserve, amount: u64, maxValue: Decimal, remaining: Decimal)
    ensures Calculated(CalculateBorrow(r, amount, maxValue, remaining))
  {
    hide TenTo, BorrowWeight, PriceHigh;
  }

  lemma PriceBorrowFacts(w: World, r: Reserve, amount: u64, remaining: Decimal)
    requires Safe(w) && ReserveOk(r, w.slot)
    ensures Calculated(PriceBorrow(w, r, amount, remaining))
    ensures PriceBorrow(w, r, amount, remaining).Ok? ==>
      var (t, market, own) := PriceBorrow(w, r, amount, remaining).value;
      && RemainingOutflow(w.market, w.slot).Ok? && market == RemainingOutflow(w.market, w.slot).value.0
      && RemainingOutflow(r.limiter, w.slot).Ok? && own == RemainingOutflow(r.limiter, w.slot).value.0
      && MaxOutflowTokens(r, w.market, w.slot, remaining).Ok?
      && exists capacity: Decimal ::
           CalculateBorrow(r, amount, remaining, Min(capacity, MaxOutflowTokens(r, w.market, w.slot, remaining).value)) == Ok(t)
  {
    hide Safe, RemainingOutflow, MaxOutflowTokens, CalculateBorrow, LimiterOk, Sane, ReserveFits;
    RemainingErrors(w.market, w.slot);
    RemainingErrors(r.limiter, w.slot);
    TokensErrors(r, w.market, w.slot, remaining);
    var capacity: Decimal := match Sub(FromInt(r.config.borrowLimit), r.liquidity.borrowed) case Ok(v) => v case Err(_) => 0;
    if MaxOutflowTokens(r, w.market, w.slot, remaining).Ok? {
      CalculateBorrowErrors(r, amount, remaining, Min(capacity, MaxOutflowTokens(r, w.market, w.slot, remaining).value));
    }
  }

  /** The three transfers of a borrow fit the vault and take exactly the booked whole tokens. */
  lemma PayBorrowCovered(v: Ledger, r: Reserve, t: BorrowTerms)
    requires v.liquidity == r.liquidity.available && BorrowLiquidity(r.liquidity, t.borrowAmount).Ok?
    requires t.hostFee <= t.borrowFee
    requires FloorU64(t.borrowAmount).Ok? ==> FloorU64(t.borrowAmount).value == t.receiveAmount + t.borrowFee
    ensures PayBorrow(v, t) == Ok(v.(liquidity := BorrowLiquidity(r.liquidity, t.borrowAmount).value.available))
  {
    BorrowFrame(r.liquidity, t.borrowAmount);
    hide FloorU64, BorrowLiquidity;
  }

  /** Both limiters after a borrow has been recorded. */
  lemma BorrowLimiters(market: Limiter, rolled: Limiter, now: u64, qty: Decimal)
    requires LimiterOk(market, now) && now < SLOT_LIMIT && RemainingOutflow(market, now).Ok?
    requires rolled == RemainingOutflow(market, now).value.0
    ensures Update(rolled, now, qty) == Update(market, now, qty)
    ensures Update(rolled, now, qty).Ok? ==> LimiterOk(Update(rolled, now, qty).value, now)
  {
    RemainingKeepsOk(market, now, qty);
    if Update(market, now, qty).Ok? { UpdateKeepsOk(market, now, qty); }
  }

  /** The reserve half of a borrow. */
  lemma BorrowedReserveSafe(w: World, key: Pubkey, amount: Decimal, market: Limiter, own: Limiter)
    requires Safe(w) && key in w.reserves && key in w.ledger && BorrowLiquidity(w.reserves[key].liquidity, amount).Ok?
    requires LimiterOk(market, w.slot) && LimiterOk(own, w.slot)
    requires w.reserves[key].lastUpdate.slot == w.slot
    requires var l := BorrowLiquidity(w.reserves[key].liquidity, amount).value;
             ReserveFits(MarkStale(w.reserves[key].(liquidity := l, limiter := own)))
    ensures var l := BorrowLiquidity(w.reserves[key].liquidity, amount).value;
            var s := MarkStale(w.reserves[key].(liquidity := l, limiter := own));
            Safe(w.(market := market, reserves := w.reserves[key := s],
                    ledger := w.ledger[key := w.ledger[key].(liquidity := l.available)]))
  {
    hide Safe, LimiterOk, Sane, BorrowLiquidity, ReserveFits;
    SafeReserve(w, key);
    BorrowFrame(w.reserves[key].liquidity, amount);
    var l := BorrowLiquidity(w.reserves[key].liquidity, amount).value;
    PutReserve(w, key, MarkStale(w.reserves[key].(liquidity := l, limiter := own)),
               w.ledger[key].(liquidity := l.available), market);
  }

  /** The obligation half, in the state the reserve half leaves. */
  lemma BorrowedObligationSafe(w: World, id: nat, key: Pubkey, amount: Decimal, index: Decimal)
    requires Safe(w) && id < |w.obligations| && w.obligations[id].deposits != [] && key in w.reserves
    requires index == w.reserves[key].liquidity.cumulativeRate && AddLoan(w.obligations[id], key, index, amount).Ok?
    requires ObligationFits(Touched(AddLoan(w.obligations[id], key, index, amount).value))
    ensures Safe(w.(obligations := w.obligations[id := Touched(AddLoan(w.obligations[id], key, index, amount).value)]))
  {
    hide Safe, LimiterOk, Sane, ObligationFits, ListsOk, DepositedIn, AddLoan, DepositsKnown, LoansOk;
    SafeObligation(w, id);
    SafeReserve(w, key);
    var o := w.obligations[id];
    AddLoanLists(o, key, index, amount, w.reserves);
    var p := AddLoan(o, key, index, amount).value;
    TouchedOk(o, p, w.reserves, w.slot);
    PutObligationOnly(w, id, Touched(p));
  }

  lemma BorrowSafe(w: World, id: nat, key: Pubkey, amount: u64)
    requires Safe(w) && DoBorrow(w, id, key, amount).Ok?
    ensures Safe(DoBorrow(w, id, key, amount).value)
  {
    hide Safe, CheckBorrow, PriceBorrow, ValueAt, Update, LimiterFits, BorrowLiquidity, AddLoan, PayBorrow,
         ObligationFits, ReserveFits, LimiterOk, CalculateBorrow, Sane, RemainingOutflow, MaxOutflowTokens;
    SafeReserve(w, key);
    SafeMarket(w);
    var r, o := w.reserves[key], w.obligations[id];
    CheckBorrowFacts(w, o, r, key, amount);
    var remaining := CheckBorrow(w, o, r, key, amount).value;
    PriceBorrowFacts(w, r, amount, remaining);
    var (t, market, own) := PriceBorrow(w, r, amount, remaining).value;
    BorrowLimiters(w.market, market, w.slot, MarketValueUpperBound(r.liquidity, t.borrowAmount).value);
    BorrowLimiters(r.limiter, own, w.slot, t.borrowAmount);
    var market' := Update(market, w.slot, MarketValueUpperBound(r.liquidity, t.borrowAmount).value).value;
    var own' := Update(own, w.slot, t.borrowAmount).value;
    TermsAddUp(w, r, amount, remaining);
    PayBorrowCovered(w.ledger[key], r, t);
    BorrowFrame(r.liquidity, t.borrowAmount);
    BorrowedReserveSafe(w, key, t.borrowAmount, market', own');
    var l := BorrowLiquidity(r.liquidity, t.borrowAmount).value;
    var s := MarkStale(r.(liquidity := l, limiter := own'));
    var u := w.(market := market', reserves := w.reserves[key := s],
                ledger := w.ledger[key := w.ledger[key].(liquidity := l.available)]);
    BorrowedObligationSafe(u, id, key, t.borrowAmount, r.liquidity.cumulativeRate);
  }

  lemma TermsAddUp(w: World, r: Reserve, amount: u64, remaining: Decimal)
    requires Safe(w) && ReserveOk(r, w.slot) && PriceBorrow(w, r, amount, remaining).Ok?
    ensures var t := PriceBorrow(w, r, amount, remaining).value.0;
      && t.hostFee <= t.borrowFee
      && (FloorU64(t.borrowAmount).Ok? ==> FloorU64(t.borrowAmount).value == t.receiveAmount + t.borrowFee)
  {
    PriceBorrowFacts(w, r, amount, remaining);
    hide Safe, PriceBorrow, CalculateBorrow, RemainingOutflow, MaxOutflowTokens, FloorU64, LimiterOk, ReserveFits;
    var t := PriceBorrow(w, r, amount, remaining).value.0;
    var tokens := MaxOutflowTokens(r, w.market, w.slot, remaining).value;
    var capacity: Decimal :| CalculateBorrow(r, amount, remaining, Min(capacity, tokens)) == Ok(t);
    BorrowAddsUp(r, amount, remaining, Min(capacity, tokens));
  }

  lemma AddLoanErrors(o: Obligation, key: Pubkey, index: Decimal, amount: Decimal)
    ensures Calculated(AddLoan(o, key, index, amount))
  {
    hide FindLoan;
  }

  /** Limiters accept whatever a "maximum" borrow was clamped to. */
  lemma PricedBorrowAccepted(w: World, r: Reserve, remaining: Decimal)
    requires Safe(w) && ReserveOk(r, w.slot) && PriceBorrow(w, r, U64_MAX, remaining).Ok?
    requires MarketValueUpperBound(r.liquidity, PriceBorrow(w, r, U64_MAX, remaining).value.0.borrowAmount).Ok?
    ensures var (t, market, own) := PriceBorrow(w, r, U64_MAX, remaining).value;
      && Update(w.market, w.slot, MarketValueUpperBound(r.liquidity, t.borrowAmount).value).Ok?
      && Update(r.limiter, w.slot, t.borrowAmount).Ok?
  {
    PriceBorrowFacts(w, r, U64_MAX, remaining);
    SafeMarket(w);
    hide Safe, PriceBorrow, CalculateBorrow, RemainingOutflow, MaxOutflowTokens, LimiterOk, ReserveFits, Sane,
         MarketValueUpperBound, Update;
    var t := PriceBorrow(w, r, U64_MAX, remaining).value.0;
    var tokens := MaxOutflowTokens(r, w.market, w.slot, remaining).value;
    var capacity: Decimal :| CalculateBorrow(r, U64_MAX, remaining, Min(capacity, tokens)) == Ok(t);
    MaxBorrowPassesLimiters(r, w.market, w.slot, remaining, capacity, t);
  }

  /** A borrow never finds the vault short, and a "maximum" borrow is never refused by a limiter. */
  lemma BorrowErrors(w: World, id: nat, key: Pubkey, amount: u64)
    requires Safe(w)
    ensures DoBorrow(w, id, key, amount).Err? ==> !Unreachable(DoBorrow(w, id, key, amount).error)
    ensures amount == U64_MAX ==> Calculated(DoBorrow(w, id, key, amount))
  {
    hide Safe, CheckBorrow, PriceBorrow, ValueAt, Update, LimiterFits, BorrowLiquidity, BookedBorrow, LimiterOk, Sane;
    if LoadReserve(w, key).Ok? && LoadObligation(w, id).Ok? {
      SafeReserve(w, key);
      var r, o := w.reserves[key], w.obligations[id];
      CheckBorrowFacts(w, o, r, key, amount);
      if CheckBorrow(w, o, r, key, amount).Ok? {
        var remaining := CheckBorrow(w, o, r, key, amount).value;
        PriceBorrowFacts(w, r, amount, remaining);
        if PriceBorrow(w, r, amount, remaining).Ok? {
          LimiterAnswers(w, r, amount, remaining);
          var (t, market, own) := PriceBorrow(w, r, amount, remaining).value;
          if MarketValueUpperBound(r.liquidity, t.borrowAmount).Ok? {
            var market' := Update(market, w.slot, MarketValueUpperBound(r.liquidity, t.borrowAmount).value);
            var own' := Update(own, w.slot, t.borrowAmount);
            if market'.Ok? && own'.Ok? { BookingAnswers(w, id, o, key, amount, remaining, market'.value, own'.value); }
          }
        }
      }
    }
  }

  /** What the limiters answer to a borrow that has been priced. */
  lemma LimiterAnswers(w: World, r: Reserve, amount: u64, remaining: Decimal)
    requires Safe(w) && ReserveOk(r, w.slot) && PriceBorrow(w, r, amount, remaining).Ok?
    ensures var (t, market, own) := PriceBorrow(w, r, amount, remaining).value;
      var value := MarketValueUpperBound(r.liquidity, t.borrowAmount);
      && Calculated(value)
      && (value.Ok? ==>
            var a, b := Update(market, w.slot, value.value), Update(own, w.slot, t.borrowAmount);
            && (a.Err? ==> !Unreachable(a.error)) && (b.Err? ==> !Unreachable(b.error))
            && (amount == U64_MAX ==> a.Ok? && b.Ok?))
  {
    SafeMarket(w);
    PriceBorrowFacts(w, r, amount, remaining);
    hide Safe, PriceBorrow, ValueAt, Update, CalculateBorrow, ReserveFits, LimiterOk, Sane, RemainingOutflow,
         MaxOutflowTokens, Unreachable;
    var (t, market, own) := PriceBorrow(w, r, amount, remaining).value;
    var value := MarketValueUpperBound(r.liquidity, t.borrowAmount);
    ValueErrors(PriceHigh(r.liquidity), r.liquidity.decimals, t.borrowAmount);
    if value.Ok? {
      UpdateErrors(market, w.slot, value.value);
      UpdateErrors(own, w.slot, t.borrowAmount);
      BorrowLimiters(w.market, market, w.slot, value.value);
      BorrowLimiters(r.limiter, own, w.slot, t.borrowAmount);
      if amount == U64_MAX { PricedBorrowAccepted(w, r, remaining); }
    }
  }

  /** Booking and paying a borrow that has been priced. */
  lemma BookingAnswers(w: World, id: nat, o: Obligation, key: Pubkey, amount: u64, remaining: Decimal, market: Limiter, own: Limiter)
    requires Safe(w) && id < |w.obligations| && key in w.reserves && key in w.ledger
    requires PriceBorrow(w, w.reserves[key], amount, remaining).Ok?
    ensures var r, t := w.reserves[key], PriceBorrow(w, w.reserves[key], amount, remaining).value.0;
      && Calculated(BorrowLiquidity(r.liquidity, t.borrowAmount))
      && (BorrowLiquidity(r.liquidity, t.borrowAmount).Ok? ==>
            var l := BorrowLiquidity(r.liquidity, t.borrowAmount).value;
            Calculated(BookedBorrow(w, id, key, o, MarkStale(r.(liquidity := l, limiter := own)), market, t)))
  {
    hide Safe, PriceBorrow, BorrowLiquidity, AddLoan, PayBorrow, ReserveFits, ObligationFits, LimiterOk, Sane;
    SafeReserve(w, key);
    var r, t := w.reserves[key], PriceBorrow(w, w.reserves[key], amount, remaining).value.0;
    ReserveSteps.BorrowErrors(r.liquidity, t.borrowAmount);
    TermsAddUp(w, r, amount, remaining);
    if BorrowLiquidity(r.liquidity, t.borrowAmount).Ok? {
      PayBorrowCovered(w.ledger[key], r, t);
      AddLoanErrors(o, key, BorrowLiquidity(r.liquidity, t.borrowAmount).value.cumulativeRate, t.borrowAmount);
    }
  }

  // ----- repay, liquidate, forgive

  /** Settling part of a loan that has been brought up to its reserve's index. */
  lemma SettledSafe(w: World, id: nat, i: nat, loan: Loan, amount: Decimal)
    requires Safe(w) && id < |w.obligations| && i < |w.obligations[id].borrows|
    requires loan.reserve == w.obligations[id].borrows[i].reserve && LoanOk(loan, w.reserves)
    requires var o := w.obligations[id].(borrows := w.obligations[id].borrows[i := loan]);
             SettleLoan(o, amount, i).Ok? && ObligationFits(Touched(SettleLoan(o, amount, i).value))
    ensures var o := w.obligations[id].(borrows := w.obligations[id].borrows[i := loan]);
            Safe(w.(obligations := w.obligations[id := Touched(SettleLoan(o, amount, i).value)]))
  {
    hide Safe, LimiterOk, Sane, ObligationFits, DepositedIn, SettleLoan, DepositsKnown;
    SafeObligation(w, id);
    var o := w.obligations[id].(borrows := w.obligations[id].borrows[i := loan]);
    assert ListsOk(o) && LoansOk(o.borrows, w.reserves);
    hide ListsOk, LoansOk;
    SettleLoanLists(o, amount, i, w.reserves);
    var p := SettleLoan(o, amount, i).value;
    TouchedOk(w.obligations[id], p, w.reserves, w.slot);
    PutObligationOnly(w, id, Touched(p));
  }

  lemma RepaidSafe(w: World, key: Pubkey, repay: u64, settle: Decimal)
    requires Safe(w) && key in w.reserves && key in w.ledger && RepayLiquidity(w.reserves[key].liquidity, repay, settle).Ok?
    requires var l := RepayLiquidity(w.reserves[key].liquidity, repay, settle).value;
             StoreReserve(w, key, MarkStale(w.reserves[key].(liquidity := l)), w.ledger[key].Receive(repay)).Ok?
    ensures var l := RepayLiquidity(w.reserves[key].liquidity, repay, settle).value;
            Safe(StoreReserve(w, key, MarkStale(w.reserves[key].(liquidity := l)), w.ledger[key].Receive(repay)).value)
  {
    hide Safe, LimiterOk, Sane;
    SafeReserve(w, key);
    var l := RepayLiquidity(w.reserves[key].liquidity, repay, settle).value;
    StoreSafe(w, key, MarkStale(w.reserves[key].(liquidity := l)), w.ledger[key].Receive(repay));
  }

  lemma SafeLoan(w: World, id: nat, i: nat)
    requires Safe(w) && id < |w.obligations| && i < |w.obligations[id].borrows|
    ensures LoanOk(w.obligations[id].borrows[i], w.reserves)
  {
    SafeObligation(w, id);
  }

  lemma AccruedOk(w: World, loan: Loan, key: Pubkey)
    requires LoanOk(loan, w.reserves) && loan.reserve == key
    requires AccrueLoan(loan, w.reserves[key].liquidity.cumulativeRate).Ok?
    ensures var a := AccrueLoan(loan, w.reserves[key].liquidity.cumulativeRate).value;
      LoanOk(a, w.reserves) && a.reserve == key
  {
    hide Div, Mul, ToRate;
  }

  lemma RepaySafe(w: World, id: nat, key: Pubkey, amount: u64)
    requires Safe(w) && DoRepay(w, id, key, amount).Ok?
    ensures Safe(DoRepay(w, id, key, amount).value)
  {
    hide Safe, RefreshInterest, AccrueLoan, CalculateRepay, RepayLiquidity, SettleLoan, ObligationFits, ReserveFits, FindLoan;
    RefreshInterestSafe(w, key);
    var u := RefreshInterest(w, key).value;
    var r, o := u.reserves[key], u.obligations[id];
    var i := FindLiquidityInBorrows(o, key).value;
    SafeLoan(u, id, i);
    AccruedOk(u, o.borrows[i], key);
    var loan := AccrueLoan(o.borrows[i], r.liquidity.cumulativeRate).value;
    var t := CalculateRepay(amount, loan.borrowed).value;
    RepaidSafe(u, key, t.repayAmount, t.settleAmount);
    RepaidFrame(r.liquidity, t.repayAmount, t.settleAmount);
    var l := RepayLiquidity(r.liquidity, t.repayAmount, t.settleAmount).value;
    var v := StoreReserve(u, key, MarkStale(r.(liquidity := l)), u.ledger[key].Receive(t.repayAmount)).value;
    SettledSafe(v, id, i, loan, t.settleAmount);
  }

  lemma RepaidFrame(l: Liquidity, repay: u64, settle: Decimal)
    requires RepayLiquidity(l, repay, settle).Ok?
    ensures l.available + repay < U64 && RepayLiquidity(l, repay, settle).value
              == l.(available := l.available + repay, borrowed := l.borrowed - Min(settle, l.borrowed))
  {
  }

  lemma SettleErrors(o: Obligation, amount: Decimal, i: nat)
    requires i < |o.borrows|
    ensures Calculated(SettleLoan(o, amount, i))
  {
  }

  lemma StoredLoanErrors(w: World, id: nat, i: nat)
    requires Safe(w) && id < |w.obligations| && i < |w.obligations[id].borrows|
    ensures var b := w.obligations[id].borrows[i];
      b.reserve in w.reserves && Calculated(AccrueLoan(b, w.reserves[b.reserve].liquidity.cumulativeRate))
  {
    hide Safe, AccrueLoan;
    SafeLoan(w, id, i);
    var b := w.obligations[id].borrows[i];
    AccrueLoanErrors(b, w.reserves[b.reserve].liquidity.cumulativeRate);
  }

  lemma RepayErrors(w: World, id: nat, key: Pubkey, amount: u64)
    requires Safe(w)
    ensures Calculated(DoRepay(w, id, key, amount))
  {
    hide Safe, RefreshInterest, AccrueLoan, FindLoan, BookRepay;
    RefreshErrors(w, key);
    if RefreshInterest(w, key).Ok? {
      RefreshInterestSafe(w, key);
      var u := RefreshInterest(w, key).value;
      if LoadReserve(u, key).Ok? && LoadObligation(u, id).Ok? && FindLiquidityInBorrows(u.obligations[id], key).Ok? {
        var i := FindLiquidityInBorrows(u.obligations[id], key).value;
        var loan := AccrueLoan(u.obligations[id].borrows[i], u.reserves[key].liquidity.cumulativeRate);
        StoredLoanErrors(u, id, i);
        if loan.Ok? { BookRepayErrors(u, id, key, i, loan.value, amount); }
      }
    }
  }

  lemma ArithmeticErrors()
    ensures forall a: Decimal, b: Decimal :: Mul(a, b).Err? ==> Mul(a, b).error == MathOverflow
    ensures forall a: Decimal, b: Decimal :: Div(a, b).Err? ==> Div(a, b).error == MathOverflow
    ensures forall a: Decimal :: FloorU64(a).Err? ==> FloorU64(a).error == MathOverflow
    ensures forall a: Decimal :: CeilU64(a).Err? ==> CeilU64(a).error == MathOverflow
  {
    forall a: Decimal, b: Decimal { OnlyMathOverflow(a, b, 0); }
  }

  lemma CalculateRepayErrors(amount: u64, borrowed: Decimal)
    ensures Calculated(CalculateRepay(amount, borrowed))
  {
    ArithmeticErrors();
    hide CeilU64;
  }

  lemma BookRepayErrors(w: World, id: nat, key: Pubkey, i: nat, loan: Loan, amount: u64)
    requires id < |w.obligations| && i < |w.obligations[id].borrows| && key in w.reserves && key in w.ledger
    ensures Calculated(BookRepay(w, id, key, i, loan, amount))
  {
    hide SettleLoan, CalculateRepay, RepayLiquidity, ObligationFits, ReserveFits;
    CalculateRepayErrors(amount, loan.borrowed);
    if CalculateRepay(amount, loan.borrowed).Ok? {
      var t := CalculateRepay(amount, loan.borrowed).value;
      RepayLiquidityErrors(w.reserves[key].liquidity, t.repayAmount, t.settleAmount);
      SettleErrors(w.obligations[id].(borrows := w.obligations[id].borrows[i := loan]), t.settleAmount, i);
    }
  }

  lemma LiquidationErrors(config: Config, amount: u64, o: Obligation, loan: Loan, c: Collateral)
    ensures Calculated(CalculateLiquidation(config, amount, o, loan, c))
  {
    hide CalculateBonus, FullLiquidation, PartialLiquidation;
    BonusErrors(config, o);
    if CalculateBonus(config, o).Ok? {
      var bonusRate: Decimal := CalculateBonus(config, o).value;
      if bonusRate + WAD < U192 {
        FullErrors(loan, c, bonusRate + WAD);
        PartialErrors(o, loan, c, Requested(amount, loan), bonusRate + WAD);
      }
    }
  }

  lemma BonusErrors(config: Config, o: Obligation)
    ensures Calculated(CalculateBonus(config, o))
  {
  }

  lemma TakeErrors(debt: Decimal, value: Decimal, c: Collateral, bonusRate: Decimal)
    ensures Calculated(TakeAll(debt, value, c, bonusRate)) && Calculated(TakeExactly(debt, c, bonusRate))
  {
  }

  lemma FullErrors(loan: Loan, c: Collateral, bonusRate: Decimal)
    ensures Calculated(FullLiquidation(loan, c, bonusRate))
  {
    hide TakeAll, TakeExactly;
    if Mul(loan.marketValue, bonusRate).Ok? {
      TakeErrors(loan.borrowed, Mul(loan.marketValue, bonusRate).value, c, bonusRate);
    }
  }

  lemma PartialErrors(o: Obligation, loan: Loan, c: Collateral, amount: Decimal, bonusRate: Decimal)
    ensures Calculated(PartialLiquidation(o, loan, c, amount, bonusRate))
  {
    MaxLiquidationErrors(o, loan);
    ArithmeticErrors();
    hide TakeAll, TakeExactly, Mul, Div, CeilU64, FloorU64, MaxLiquidationAmount;
    if MaxLiquidationAmount(o, loan).Ok? {
      var debt: Decimal := Min(MaxLiquidationAmount(o, loan).value, amount);
      if Div(debt, loan.borrowed).Ok? && Mul(loan.marketValue, Div(debt, loan.borrowed).value).Ok? {
        var plain := Mul(loan.marketValue, Div(debt, loan.borrowed).value).value;
        if Mul(plain, bonusRate).Ok? { TakeErrors(debt, Mul(plain, bonusRate).value, c, bonusRate); }
      }
    }
  }

  lemma MaxLiquidationErrors(o: Obligation, loan: Loan)
    ensures Calculated(MaxLiquidationAmount(o, loan))
  {
    ArithmeticErrors();
    hide Mul, Div;
  }

  lemma BookLiquidationSafe(w: World, id: nat, repayKey: Pubkey, withdrawKey: Pubkey, i: nat, j: nat, t: LiquidationTerms)
    requires Safe(w) && repayKey in w.reserves && repayKey in w.ledger && withdrawKey in w.ledger && id < |w.obligations|
    requires i < |w.obligations[id].borrows| && j < |w.obligations[id].deposits|
    requires w.obligations[id].deposits[j].reserve == withdrawKey
    requires BookLiquidation(w, id, repayKey, withdrawKey, i, j, t).Ok?
    ensures Safe(BookLiquidation(w, id, repayKey, withdrawKey, i, j, t).value)
  {
    hide Safe, RepayLiquidity, SettleLoan, WithdrawCollateral, ObligationFits, ReserveFits, ListsOk, LoansOk;
    var r, o := w.reserves[repayKey], w.obligations[id];
    RepaidSafe(w, repayKey, t.repayAmount, t.settleAmount);
    var l := RepayLiquidity(r.liquidity, t.repayAmount, t.settleAmount).value;
    var u := StoreReserve(w, repayKey, MarkStale(r.(liquidity := l)), w.ledger[repayKey].Receive(t.repayAmount)).value;
    SafeObligation(u, id);
    SettleLoanLists(o, t.settleAmount, i, u.reserves);
    WithdrawnSafe(u, id, SettleLoan(o, t.settleAmount, i).value, j, t.withdrawAmount, withdrawKey);
  }

  lemma LiquidateInnerSafe(w: World, id: nat, repayKey: Pubkey, withdrawKey: Pubkey, amount: u64)
    requires Safe(w) && LiquidateInner(w, id, repayKey, withdrawKey, amount).Ok?
    ensures Safe(LiquidateInner(w, id, repayKey, withdrawKey, amount).value.0)
  {
    hide Safe, CalculateLiquidation, BookLiquidation, CheckLiquidation;
    var s, o := w.reserves[withdrawKey], w.obligations[id];
    var (i, j) := CheckLiquidation(o, repayKey, withdrawKey).value;
    var t := CalculateLiquidation(s.config, amount, o, o.borrows[i], o.deposits[j]).value;
    BookLiquidationSafe(w, id, repayKey, withdrawKey, i, j, t);
  }

  lemma BookLiquidationErrors(w: World, id: nat, repayKey: Pubkey, withdrawKey: Pubkey, i: nat, j: nat, t: LiquidationTerms)
    requires Safe(w) && repayKey in w.reserves && repayKey in w.ledger && withdrawKey in w.ledger && id < |w.obligations|
    requires i < |w.obligations[id].borrows| && j < |w.obligations[id].deposits|
    requires w.obligations[id].deposits[j].reserve == withdrawKey
    ensures Calculated(BookLiquidation(w, id, repayKey, withdrawKey, i, j, t))
  {
    hide Safe, SettleLoan, WithdrawCollateral, ObligationFits, ReserveFits, RepayLiquidity;
    var o := w.obligations[id];
    RepayLiquidityErrors(w.reserves[repayKey].liquidity, t.repayAmount, t.settleAmount);
    SettleErrors(o, t.settleAmount, i);
    if SettleLoan(o, t.settleAmount, i).Ok? {
      SeizeErrors(w, id, o, SettleLoan(o, t.settleAmount, i).value, t, i, j);
    }
  }

  lemma CheckLiquidationErrors(o: Obligation, repayKey: Pubkey, withdrawKey: Pubkey)
    ensures Calculated(CheckLiquidation(o, repayKey, withdrawKey))
  {
    hide FindLoan, FindDeposit;
  }

  lemma LiquidateInnerErrors(w: World, id: nat, repayKey: Pubkey, withdrawKey: Pubkey, amount: u64)
    requires Safe(w)
    ensures Calculated(LiquidateInner(w, id, repayKey, withdrawKey, amount))
  {
    hide Safe, CalculateLiquidation, BookLiquidation, CheckLiquidation;
    if LoadObligation(w, id).Ok? && LoadReserve(w, repayKey).Ok? && LoadReserve(w, withdrawKey).Ok? {
      var o, s := w.obligations[id], w.reserves[withdrawKey];
      CheckLiquidationErrors(o, repayKey, withdrawKey);
      if CheckLiquidation(o, repayKey, withdrawKey).Ok? {
        var (i, j) := CheckLiquidation(o, repayKey, withdrawKey).value;
        LiquidationErrors(s.config, amount, o, o.borrows[i], o.deposits[j]);
        var t := CalculateLiquidation(s.config, amount, o, o.borrows[i], o.deposits[j]);
        if t.Ok? { BookLiquidationErrors(w, id, repayKey, withdrawKey, i, j, t.value); }
      }
    }
  }

  lemma RepayLiquidityErrors(l: Liquidity, repay: u64, settle: Decimal)
    ensures Calculated(RepayLiquidity(l, repay, settle))
  {
  }

  /** The seized collateral is in the vault, also when the repaid reserve is the same one. */
  lemma SeizeErrors(w: World, id: nat, o: Obligation, p: Obligation, t: LiquidationTerms, i: nat, j: nat)
    requires Safe(w) && id < |w.obligations| && w.obligations[id] == o && j < |o.deposits| && i < |o.borrows|
    requires o.deposits[j].reserve in w.ledger && SettleLoan(o, t.settleAmount, i) == Ok(p)
    ensures p.deposits == o.deposits && Calculated(WithdrawCollateral(p, t.withdrawAmount, j))
    ensures WithdrawCollateral(p, t.withdrawAmount, j).Ok? ==>
      t.withdrawAmount <= w.ledger[o.deposits[j].reserve].collateral
  {
    hide Safe;
    VaultCovers(w, id, j);
  }

  lemma RedeemSeizedSafe(w: World, key: Pubkey, seized: u64, bonusRate: Decimal)
    requires Safe(w)
    ensures RedeemSeized(w, key, seized, bonusRate).Err? ==> !Unreachable(RedeemSeized(w, key, seized, bonusRate).error)
    ensures RedeemSeized(w, key, seized, bonusRate).Ok? ==> Safe(RedeemSeized(w, key, seized, bonusRate).value)
  {
    ArithmeticErrors();
    hide Safe, RefreshInterest, RedeemInner, ExchangeRate, Mul, Div, CeilU64, FloorU64;
    RefreshErrors(w, key);
    if RefreshInterest(w, key).Ok? {
      RefreshInterestSafe(w, key);
      var v := RefreshInterest(w, key).value;
      var s := v.reserves[key];
      ExchangeErrors(s);
      if ExchangeRate(s).Ok? && LiquidityToCollateral(ExchangeRate(s).value, s.liquidity.available).Ok? {
        var c := Min(seized, LiquidityToCollateral(ExchangeRate(s).value, s.liquidity.available).value);
        RedeemInnerErrors(v, key, c, false);
        RedeemInnerSafe(v, key, c, false);
      }
    }
  }

  lemma LiquidateSafe(w: World, id: nat, repayKey: Pubkey, withdrawKey: Pubkey, amount: u64)
    requires Safe(w)
    ensures DoLiquidate(w, id, repayKey, withdrawKey, amount).Err? ==>
      !Unreachable(DoLiquidate(w, id, repayKey, withdrawKey, amount).error)
    ensures DoLiquidate(w, id, repayKey, withdrawKey, amount).Ok? ==>
      Safe(DoLiquidate(w, id, repayKey, withdrawKey, amount).value)
  {
    hide Safe, LiquidateInner, RedeemSeized;
    LiquidateInnerErrors(w, id, repayKey, withdrawKey, amount);
    if LiquidateInner(w, id, repayKey, withdrawKey, amount).Ok? {
      LiquidateInnerSafe(w, id, repayKey, withdrawKey, amount);
      var (u, seized, bonusRate) := LiquidateInner(w, id, repayKey, withdrawKey, amount).value;
      RedeemSeizedSafe(u, withdrawKey, seized, bonusRate);
    }
  }

  lemma ForgiveSafe(w: World, id: nat, key: Pubkey, amount: u64)
    requires Safe(w)
    ensures Calculated(DoForgive(w, id, key, amount))
    ensures DoForgive(w, id, key, amount).Ok? ==> Safe(DoForgive(w, id, key, amount).value)
  {
    hide Safe, DoForgive;
    DoForgiveErrors(w, id, key, amount);
    if DoForgive(w, id, key, amount).Ok? { ForgivenSafe(w, id, key, amount); }
  }

  lemma DoForgiveErrors(w: World, id: nat, key: Pubkey, amount: u64)
    ensures Calculated(DoForgive(w, id, key, amount))
  {
    hide SettleLoan, FindLoan, ForgivenAmount, ForgiveDebt, ObligationFits, ReserveFits, MarkStale;
    if LoadObligation(w, id).Ok? && LoadReserve(w, key).Ok? && FindLiquidityInBorrows(w.obligations[id], key).Ok? {
      var r, o := w.reserves[key], w.obligations[id];
      var i := FindLiquidityInBorrows(o, key).value;
      ForgiveErrors(r, o.borrows[i], amount);
      if ForgivenAmount(r, o.borrows[i], amount).Ok? {
        var forgiven := ForgivenAmount(r, o.borrows[i], amount).value;
        ForgiveDebtErrors(r.liquidity, forgiven);
        SettleErrors(o, forgiven, i);
      }
    }
  }

  lemma ForgivenSafe(w: World, id: nat, key: Pubkey, amount: u64)
    requires Safe(w) && DoForgive(w, id, key, amount).Ok?
    ensures Safe(DoForgive(w, id, key, amount).value)
  {
    hide Safe, SettleLoan, ObligationFits, ReserveFits, FindLoan, ForgivenAmount, ForgiveDebt;
    var r, o := w.reserves[key], w.obligations[id];
    var i := FindLiquidityInBorrows(o, key).value;
    var forgiven := ForgivenAmount(r, o.borrows[i], amount).value;
    ForgivenReserveSafe(w, key, forgiven);
    var l := ForgiveDebt(r.liquidity, forgiven).value;
    var u := StoreReserve(w, key, MarkStale(r.(liquidity := l)), w.ledger[key]).value;
    SafeLoan(u, id, i);
    assert o.(borrows := o.borrows[i := o.borrows[i]]) == o;
    SettledSafe(u, id, i, o.borrows[i], forgiven);
  }

  lemma ForgivenReserveSafe(w: World, key: Pubkey, forgiven: Decimal)
    requires Safe(w) && key in w.reserves && key in w.ledger && ForgiveDebt(w.reserves[key].liquidity, forgiven).Ok?
    requires var l := ForgiveDebt(w.reserves[key].liquidity, forgiven).value;
             StoreReserve(w, key, MarkStale(w.reserves[key].(liquidity := l)), w.ledger[key]).Ok?
    ensures var l := ForgiveDebt(w.reserves[key].liquidity, forgiven).value;
            Safe(StoreReserve(w, key, MarkStale(w.reserves[key].(liquidity := l)), w.ledger[key]).value)
  {
    hide Safe, LimiterOk, Sane;
    SafeReserve(w, key);
    var l := ForgiveDebt(w.reserves[key].liquidity, forgiven).value;
    StoreSafe(w, key, MarkStale(w.reserves[key].(liquidity := l)), w.ledger[key]);
  }

  lemma ForgiveErrors(r: Reserve, loan: Loan, amount: u64)
    ensures Calculated(ForgivenAmount(r, loan, amount))
  {
  }

  lemma ForgiveDebtErrors(l: Liquidity, amount: Decimal)
    ensures Calculated(ForgiveDebt(l, amount))
  {
  }
}
