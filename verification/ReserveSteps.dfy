/** Instructions that touch one reserve keep `Safe`, and never find its vault short. */
module ReserveSteps {
  import opened Results
  import opened FixedPoint
  import opened RateLimiters
  import opened ReserveConfigs
  import opened RatePower
  import opened Reserves
  import opened Valuation
  import opened Obligations
  import opened Lending
  import opened LendingSafety

  lemma SafeReserve(w: World, key: Pubkey)
    requires Safe(w) && key in w.reserves
    ensures key in w.ledger && ReserveOk(w.reserves[key], w.slot) && Backed(w.reserves[key], w.ledger[key])
  {
  }

  lemma SafeMarket(w: World)
    requires Safe(w)
    ensures LimiterOk(w.market, w.slot) && w.slot < SLOT_LIMIT
  {
  }

  /** Storing a reserve that is in order, against the same market limiter. */
  lemma StoreSafe(w: World, key: Pubkey, s: Reserve, v: Ledger)
    requires Safe(w) && key in w.reserves && key in w.ledger && StoreReserve(w, key, s, v).Ok?
    requires Advances(w.reserves[key], s, w.slot)
    requires ReserveFits(s) ==> ReserveOk(s, w.slot)
    requires Backed(s, v) && v.collateral == w.ledger[key].collateral
    ensures Safe(StoreReserve(w, key, s, v).value)
  {
    hide Safe, ReserveOk, Advances, Backed, LimiterOk;
    SafeMarket(w);
    PutReserve(w, key, s, v, w.market);
    assert w.(market := w.market, reserves := w.reserves[key := s], ledger := w.ledger[key := v])
      == w.(reserves := w.reserves[key := s], ledger := w.ledger[key := v]);
  }

  /** What a reserve step leaves alone: the clock, the obligations, the other reserves. */
  predicate OnlyReserve(w: World, u: World, key: Pubkey) {
    && u.slot == w.slot && u.obligations == w.obligations && key in w.reserves && key in w.ledger
    && u.reserves.Keys == w.reserves.Keys && u.ledger.Keys == w.ledger.Keys
    && (forall k :: k in w.reserves && k != key ==> u.reserves[k] == w.reserves[k])
    && (forall k :: k in w.ledger && k != key ==> u.ledger[k] == w.ledger[k])
  }

  lemma RefreshInterestSafe(w: World, key: Pubkey)
    requires Safe(w) && RefreshInterest(w, key).Ok?
    ensures var u := RefreshInterest(w, key).value;
      && Safe(u) && OnlyReserve(w, u, key) && u.market == w.market && u.ledger == w.ledger
      && AccrueInterest(w.reserves[key], w.slot).Ok?
      && u.reserves[key] == AccrueInterest(w.reserves[key], w.slot).value.(lastUpdate := LastUpdate(w.slot, false))
  {
    hide Safe, AccrueInterest, LimiterOk, Sane;
    SafeReserve(w, key);
    var r := w.reserves[key];
    AccrueGrows(r, w.slot);
    var s := AccrueInterest(r, w.slot).value.(lastUpdate := LastUpdate(w.slot, false));
    StoreSafe(w, key, s, w.ledger[key]);
    assert w.ledger[key := w.ledger[key]] == w.ledger;
  }

  lemma RestaleSafe(w: World, key: Pubkey)
    requires Safe(w) && Restale(w, key).Ok?
    ensures Safe(Restale(w, key).value)
  {
    hide Safe, LimiterOk, Sane;
    SafeReserve(w, key);
    StoreSafe(w, key, MarkStale(w.reserves[key]), w.ledger[key]);
  }

  lemma RefreshReserveSafe(w: World, key: Pubkey, price: Decimal, smoothed: Decimal)
    requires Safe(w) && DoRefreshReserve(w, key, price, smoothed).Ok?
    ensures Safe(DoRefreshReserve(w, key, price, smoothed).value)
  {
    hide Safe, LimiterOk, Sane, RefreshInterest;
    SafeReserve(w, key);
    var r := w.reserves[key];
    var s := r.(liquidity := r.liquidity.(price := price, smoothedPrice := smoothed));
    StoreSafe(w, key, s, w.ledger[key]);
    RefreshInterestSafe(StoreReserve(w, key, s, w.ledger[key]).value, key);
  }

  lemma DepositFrame(r: Reserve, amount: u64)
    requires DepositLiquidity(r, amount).Ok?
    ensures var (s, c) := DepositLiquidity(r, amount).value;
      && s == r.(liquidity := r.liquidity.(available := r.liquidity.available + amount), mintSupply := r.mintSupply + c)
  {
    hide ExchangeRate, LiquidityToCollateral;
  }

  lemma DepositInnerSafe(w: World, key: Pubkey, amount: u64)
    requires Safe(w) && DepositInner(w, key, amount).Ok?
    ensures var u := DepositInner(w, key, amount).value.0; Safe(u) && OnlyReserve(w, u, key)
  {
    hide Safe, LimiterOk, Sane, TotalSupply, Add, FloorU64, DepositLiquidity;
    SafeReserve(w, key);
    DepositFrame(w.reserves[key], amount);
    var (s, c) := DepositLiquidity(w.reserves[key], amount).value;
    StoreSafe(w, key, MarkStale(s), w.ledger[key].Receive(amount).Mint(c));
  }

  lemma DepositSafe(w: World, key: Pubkey, amount: u64)
    requires Safe(w) && DoDeposit(w, key, amount).Ok?
    ensures Safe(DoDeposit(w, key, amount).value)
  {
    hide Safe, RefreshInterest, DepositInner;
    RefreshInterestSafe(w, key);
    DepositInnerSafe(RefreshInterest(w, key).value, key, amount);
  }

  lemma InitReserveSafe(w: World, key: Pubkey, amount: u64, c: Config, d: u8, price: Decimal, smoothed: Decimal)
    requires Safe(w) && DoInitReserve(w, key, amount, c, d, price, smoothed).Ok?
    ensures Safe(DoInitReserve(w, key, amount, c, d, price, smoothed).value)
  {
    hide Safe, LimiterOk, Sane, Validate, DepositLiquidity;
    var limiter := New(LimiterConfig(0, 0), w.slot);
    var empty := Reserve(LastUpdate(w.slot, true), Liquidity(d, 0, 0, WAD, 0, price, smoothed), 0, c, limiter);
    var (r, minted) := DepositLiquidity(empty, amount).value;
    DepositFrame(empty, amount);
    ValidateMeans(c);
    NewIsOk(LimiterConfig(0, 0), w.slot);
    AddReserve(w, key, r, Ledger(amount, 0, minted));
  }

  lemma RedeemFrame(r: Reserve, collateral: u64)
    requires RedeemCollateral(r, collateral).Ok?
    ensures var (s, amount) := RedeemCollateral(r, collateral).value;
      && collateral <= r.mintSupply && amount <= r.liquidity.available
      && s == r.(liquidity := r.liquidity.(available := r.liquidity.available - amount),
                 mintSupply := r.mintSupply - collateral)
  {
    hide ExchangeRate, CollateralToLiquidity;
  }

  lemma LimitRedeemOk(w: World, r: Reserve, amount: u64, check: bool)
    requires Safe(w) && LimiterOk(r.limiter, w.slot) && LimitRedeem(w, r, amount, check).Ok?
    ensures var (market, own) := LimitRedeem(w, r, amount, check).value;
      LimiterOk(market, w.slot) && LimiterOk(own, w.slot)
  {
    hide Safe, LimiterOk, Update, MarketValueUpperBound;
    SafeMarket(w);
    if check {
      UpdateKeepsOk(w.market, w.slot, MarketValueUpperBound(r.liquidity, FromInt(amount)).value);
      UpdateKeepsOk(r.limiter, w.slot, FromInt(amount));
    }
  }

  lemma RedeemInnerSafe(w: World, key: Pubkey, collateral: u64, check: bool)
    requires Safe(w)
    ensures RedeemInner(w, key, collateral, check) != Err(TokenTransferFailed)
    ensures RedeemInner(w, key, collateral, check).Ok? ==>
      var u := RedeemInner(w, key, collateral, check).value.0; Safe(u) && OnlyReserve(w, u, key)
  {
    hide Safe, LimiterOk, Sane, RedeemCollateral, LimitRedeem, LimiterFits;
    if key in w.reserves && key in w.ledger {
      var r := w.reserves[key];
      SafeReserve(w, key);
      RedeemErrors(r, collateral);
      if RedeemCollateral(r, collateral).Ok? {
        RedeemFrame(r, collateral);
        var (s, amount) := RedeemCollateral(r, collateral).value;
        LimitRedeemErrors(w, s, amount, check);
        if RedeemInner(w, key, collateral, check).Ok? {
          LimitRedeemOk(w, s, amount, check);
          var (market, own) := LimitRedeem(w, s, amount, check).value;
          PutReserve(w, key, MarkStale(s.(limiter := own)), w.ledger[key].Burn(collateral).value.Pay(amount).value, market);
        }
      }
    }
  }

  lemma RedeemErrors(r: Reserve, collateral: u64)
    ensures RedeemCollateral(r, collateral) != Err(TokenTransferFailed)
  {
  }

  lemma LimitRedeemErrors(w: World, r: Reserve, amount: u64, check: bool)
    ensures LimitRedeem(w, r, amount, check) != Err(TokenTransferFailed)
  {
    hide WindowOf;
  }

  lemma RedeemSafe(w: World, key: Pubkey, amount: u64)
    requires Safe(w)
    ensures DoRedeem(w, key, amount) != Err(TokenTransferFailed)
    ensures DoRedeem(w, key, amount).Ok? ==> Safe(DoRedeem(w, key, amount).value)
  {
    hide Safe, RedeemInner;
    RedeemInnerSafe(w, key, amount, true);
  }

  lemma RedeemFeesSafe(w: World, key: Pubkey)
    requires Safe(w)
    ensures DoRedeemFees(w, key) != Err(TokenTransferFailed)
    ensures DoRedeemFees(w, key).Ok? ==> Safe(DoRedeemFees(w, key).value)
  {
    hide Safe, LimiterOk, Sane;
    if key in w.reserves && key in w.ledger {
      SafeReserve(w, key);
      var r := w.reserves[key];
      if DoRedeemFees(w, key).Ok? {
        var amount := RedeemableFees(r.liquidity).value;
        var l := RedeemFees(r.liquidity, amount).value;
        StoreSafe(w, key, MarkStale(r.(liquidity := l)), w.ledger[key].Pay(amount).value);
      }
    }
  }

  lemma UpdateConfigSafe(w: World, key: Pubkey, c: Config, limiter: LimiterConfig, signer: Signer)
    requires Safe(w) && DoUpdateConfig(w, key, c, limiter, signer).Ok?
    ensures Safe(DoUpdateConfig(w, key, c, limiter, signer).value)
  {
    hide Safe, LimiterOk, Sane, UpdateConfig;
    SafeReserve(w, key);
    var r := w.reserves[key];
    UpdateKeepsSaneAlone(r.config, c, signer);
    NewIsOk(limiter, w.slot);
    var u := DoUpdateConfig(w, key, c, limiter, signer).value;
    var s := u.reserves[key];
    StoreSafe(w, key, s, w.ledger[key]);
  }

  lemma BorrowFrame(l: Liquidity, amount: Decimal)
    requires BorrowLiquidity(l, amount).Ok?
    ensures FloorU64(amount).Ok? && FloorU64(amount).value <= l.available
    ensures var m := BorrowLiquidity(l, amount).value;
      m == l.(available := l.available - FloorU64(amount).value, borrowed := m.borrowed)
  {
  }

  lemma FlashBorrowSafe(w: World, key: Pubkey, amount: u64)
    requires Safe(w)
    ensures DoFlashBorrow(w, key, amount) != Err(TokenTransferFailed)
    ensures DoFlashBorrow(w, key, amount).Ok? ==> Safe(DoFlashBorrow(w, key, amount).value)
  {
    hide Safe, LimiterOk, Sane, RefreshInterest, BorrowLiquidity, ReserveFits, MarkStale;
    RefreshErrors(w, key);
    if RefreshInterest(w, key).Ok? {
      RefreshInterestSafe(w, key);
      var u := RefreshInterest(w, key).value;
      var r := u.reserves[key];
      BorrowErrors(r.liquidity, FromInt(amount));
      if BorrowLiquidity(r.liquidity, FromInt(amount)).Ok? { FlashBorrowedSafe(u, key, amount); }
    }
  }

  lemma FlashBorrowedSafe(u: World, key: Pubkey, amount: u64)
    requires Safe(u) && key in u.reserves && key in u.ledger && BorrowLiquidity(u.reserves[key].liquidity, FromInt(amount)).Ok?
    ensures u.ledger[key].Pay(amount).Ok?
    ensures var s := MarkStale(u.reserves[key].(liquidity := BorrowLiquidity(u.reserves[key].liquidity, FromInt(amount)).value));
            var v := StoreReserve(u, key, s, u.ledger[key].Pay(amount).value);
            v.Ok? ==> Safe(v.value)
  {
    hide Safe, LimiterOk, Sane, BorrowLiquidity;
    SafeReserve(u, key);
    var r := u.reserves[key];
    BorrowFrame(r.liquidity, FromInt(amount));
    assert FloorU64(FromInt(amount)) == Ok(amount);
    var s := MarkStale(r.(liquidity := BorrowLiquidity(r.liquidity, FromInt(amount)).value));
    hide ReserveFits;
    if StoreReserve(u, key, s, u.ledger[key].Pay(amount).value).Ok? {
      StoreSafe(u, key, s, u.ledger[key].Pay(amount).value);
    }
  }

  lemma {:induction false} PowErrors(base: Rate, exp: u64, ret: Rate)
    ensures PowLoop(base, exp, ret).Err? ==> PowLoop(base, exp, ret).error == MathOverflow
    decreases exp
  {
    if exp > 0 && RateMul(base, base).Ok? {
      var b: Rate, e: u64 := RateMul(base, base).value, exp / 2;
      if e % 2 == 0 {
        PowErrors(b, e, ret);
      } else if RateMul(ret, b).Ok? {
        PowErrors(b, e, RateMul(ret, b).value);
      }
    }
  }

  lemma CompoundErrors(l: Liquidity, rate: Rate, slots: u64, takeRate: Rate)
    ensures CompoundInterest(l, rate, slots, takeRate).Err? ==>
      CompoundInterest(l, rate, slots, takeRate).error == MathOverflow
  {
    hide PowLoop;
    var base := WAD + rate / SLOTS_PER_YEAR;
    if base < U128 { PowErrors(base, slots, if slots % 2 != 0 then base else WAD); }
  }

  lemma AccrueErrors(r: Reserve, now: u64)
    ensures AccrueInterest(r, now).Err? ==> AccrueInterest(r, now).error == MathOverflow
  {
    hide CompoundInterest;
    if CurrentBorrowRate(r).Ok? && r.lastUpdate.slot < now {
      CompoundErrors(r.liquidity, CurrentBorrowRate(r).value, now - r.lastUpdate.slot, Percent(r.config.protocolTakeRate));
    }
  }

  lemma RefreshErrors(w: World, key: Pubkey)
    ensures RefreshInterest(w, key).Err? ==>
      var e := RefreshInterest(w, key).error; e == InvalidAccountInput || e == MathOverflow || e == Panic
  {
    hide AccrueInterest;
    if key in w.reserves { AccrueErrors(w.reserves[key], w.slot); }
  }

  lemma BorrowErrors(l: Liquidity, amount: Decimal)
    ensures BorrowLiquidity(l, amount).Err? ==>
      BorrowLiquidity(l, amount).error == MathOverflow || BorrowLiquidity(l, amount).error == InsufficientLiquidity
  {
  }

  lemma FlashRepaySafe(w: World, key: Pubkey, amount: u64)
    requires Safe(w) && DoFlashRepay(w, key, amount).Ok?
    ensures Safe(DoFlashRepay(w, key, amount).value)
  {
    hide Safe, LimiterOk, Sane, CalculateFlashLoanFees;
    SafeReserve(w, key);
    var r := w.reserves[key];
    var l := RepayLiquidity(r.liquidity, amount, FromInt(amount)).value;
    StoreSafe(w, key, MarkStale(r.(liquidity := l)), w.ledger[key].Receive(amount));
  }
}
