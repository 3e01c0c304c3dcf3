/** The lending program in place (token-lending/program/src/processor.rs).

    The program holds its accounts in packed form.  An instruction unpacks the accounts it names, works
    on them, packs them again and moves tokens, in the order of the code; each handler is tied to the
    step function of module `Lending`, about which the theorems are proved.  `Process` is the runtime
    around the handlers: it takes back everything that a failed instruction did. */
module Processor {
  import opened Results
  import opened FixedPoint
  import opened RateLimiters
  import opened ReserveConfigs
  import opened Reserves
  import opened ReserveAccounts
  import opened Valuation
  import opened Obligations
  import opened ObligationAccounts
  import opened ObligationRefresh
  import opened BorrowingLimits
  import opened Liquidation
  import opened Lending
  import opened LendingSafety
  import opened LendingRuns
  import opened SharePrice
  import opened Untouched

  class LendingProgram {
    var slot: u64
    var market: Limiter
    var reserves: ReserveMap
    var obligations: seq<Obligation>
    var ledger: map<Pubkey, Ledger>

    function State(): World
      reads this
    {
      World(slot, market, reserves, obligations, ledger)
    }

    constructor (slot: u64)
      ensures State() == Genesis(slot)
      ensures 1 <= slot < SLOT_LIMIT ==> Safe(State())
    {
      this.slot := slot;
      market := New(LimiterConfig(1, U64_MAX), 1);
      reserves := map[];
      obligations := [];
      ledger := map[];
      new;
      hide Safe;
      if 1 <= slot < SLOT_LIMIT { GenesisSafe(slot); }
    }

    method PackReserve(key: Pubkey, reserve: ReserveAccount, v: Ledger) returns (r: Result<()>)
      modifies this`reserves, this`ledger
      ensures r == Done(StoreReserve(old(State()), key, old(reserve.State()), v))
      ensures State() == if r.Ok? then StoreReserve(old(State()), key, old(reserve.State()), v).value else old(State())
    {
      if !ReserveFits(reserve.State()) { return Err(Panic); }
      reserves := reserves[key := reserve.State()];
      ledger := ledger[key := v];
      return Ok(());
    }

    method PackObligation(id: nat, obligation: ObligationAccount) returns (r: Result<()>)
      requires id < |obligations|
      modifies this`obligations
      ensures r == Done(StoreObligation(old(State()), id, old(obligation.State())))
      ensures State() == if r.Ok? then StoreObligation(old(State()), id, old(obligation.State())).value else old(State())
    {
      if !ObligationFits(obligation.State()) { return Err(Panic); }
      obligations := obligations[id := obligation.State()];
      return Ok(());
    }

    // ----- reserves

    method RefreshReserveInterest(key: Pubkey) returns (r: Result<()>)
      modifies this
      ensures r == Done(RefreshInterest(old(State()), key))
      ensures r.Ok? ==> State() == RefreshInterest(old(State()), key).value
    {
      hide AccrueInterest, ReserveFits;
      var packed :- LoadReserve(State(), key);
      var reserve := new ReserveAccount.Unpack(packed);
      var _ :- reserve.Accrue(slot);
      reserve.UpdateSlot(slot);
      r := PackReserve(key, reserve, ledger[key]);
    }

    method ProcessRefreshReserve(key: Pubkey, price: Decimal, smoothedPrice: Decimal) returns (r: Result<()>)
      modifies this
      ensures r == Done(DoRefreshReserve(old(State()), key, price, smoothedPrice))
      ensures r.Ok? ==> State() == DoRefreshReserve(old(State()), key, price, smoothedPrice).value
    {
      hide RefreshInterest, ReserveFits;
      var packed :- LoadReserve(State(), key);
      var reserve := new ReserveAccount.Unpack(packed);
      reserve.price := price;
      reserve.smoothedPrice := smoothedPrice;
      var _ :- PackReserve(key, reserve, ledger[key]);
      r := RefreshReserveInterest(key);
    }

    method ProcessInitReserve(key: Pubkey, amount: u64, c: Config, decimals: u8, price: Decimal, smoothedPrice: Decimal)
      returns (r: Result<()>)
      modifies this
      ensures r == Done(DoInitReserve(old(State()), key, amount, c, decimals, price, smoothedPrice))
      ensures r.Ok? ==> State() == DoInitReserve(old(State()), key, amount, c, decimals, price, smoothedPrice).value
    {
      hide Validate, ReserveFits, DepositLiquidity;
      if amount == 0 { return Err(InvalidAmount); }
      var _ :- Validate(c);
      if key in reserves || key in ledger { return Err(InvalidAccountInput); }
      var empty := Reserve(LastUpdate(slot, true), Liquidity(decimals, 0, 0, WAD, 0, price, smoothedPrice), 0, c,
                           New(LimiterConfig(0, 0), slot));
      var reserve := new ReserveAccount.Unpack(empty);
      var collateral :- reserve.DepositTokens(amount);
      r := PackReserve(key, reserve, Ledger(amount, 0, collateral));
    }

    method DepositReserveLiquidity(key: Pubkey, amount: u64) returns (r: Result<u64>)
      modifies this
      ensures var spec := DepositInner(old(State()), key, amount);
        if spec.Ok? then r == Ok(spec.value.1) && State() == spec.value.0 else r == Err(spec.error)
    {
      hide TotalSupply, FloorU64, DepositLiquidity, ReserveFits;
      var packed :- LoadReserve(State(), key);
      var reserve := new ReserveAccount.Unpack(packed);
      var _ :- NotStale(reserve.lastUpdate, slot, ReserveStale);
      var supply :- TotalSupply(reserve.LiquidityState());
      var after :- Add(FromInt(amount), supply);
      var whole :- FloorU64(after);
      if whole > reserve.config.depositLimit { return Err(InvalidAmount); }
      var collateral :- reserve.DepositTokens(amount);
      reserve.MarkStale();
      var _ :- PackReserve(key, reserve, ledger[key].Receive(amount).Mint(collateral));
      return Ok(collateral);
    }

    method ProcessDeposit(key: Pubkey, amount: u64) returns (r: Result<()>)
      modifies this
      ensures r == Done(DoDeposit(old(State()), key, amount))
      ensures r.Ok? ==> State() == DoDeposit(old(State()), key, amount).value
    {
      hide RefreshInterest, DepositInner;
      if amount == 0 { return Err(InvalidAmount); }
      var _ :- RefreshReserveInterest(key);
      var _ :- DepositReserveLiquidity(key, amount);
      return Ok(());
    }

    /** The two limiters record an outflow of `amount` tokens of `reserve`. */
    method RecordOutflow(reserve: ReserveAccount, limiter: RateLimiter, amount: u64) returns (r: Result<()>)
      requires limiter != reserve.limiter && limiter.State() == market
      modifies limiter, reserve.limiter
      ensures r == Done(LimitRedeem(State(), old(reserve.State()), amount, true))
      ensures r.Ok? ==>
        var (m, own) := LimitRedeem(State(), old(reserve.State()), amount, true).value;
        limiter.State() == m && reserve.State() == old(reserve.State()).(limiter := own)
    {
      hide Update, MarketValueUpperBound, Rolled;
      var value :- MarketValueUpperBound(reserve.LiquidityState(), FromInt(amount));
      var _ :- limiter.Record(slot, value);
      var _ :- reserve.limiter.Record(slot, FromInt(amount));
      return Ok(());
    }

    method RedeemReserveCollateral(key: Pubkey, collateral: u64, check: bool) returns (r: Result<u64>)
      modifies this
      ensures var spec := RedeemInner(old(State()), key, collateral, check);
        if spec.Ok? then r == Ok(spec.value.1) && State() == spec.value.0 else r == Err(spec.error)
    {
      hide RedeemCollateral, Update, MarketValueUpperBound, LimiterFits, ReserveFits;
      var packed :- LoadReserve(State(), key);
      var reserve := new ReserveAccount.Unpack(packed);
      var _ :- NotStale(reserve.lastUpdate, slot, ReserveStale);
      var amount :- reserve.RedeemTokens(collateral);
      var limiter := new RateLimiter.Unpack(market);
      if check { var _ :- RecordOutflow(reserve, limiter, amount); }
      if !LimiterFits(limiter.State()) { return Err(Panic); }
      hide LimitRedeem;
      var burnt :- ledger[key].Burn(collateral);
      var paid :- burnt.Pay(amount);
      market := limiter.State();
      reserve.MarkStale();
      var _ :- PackReserve(key, reserve, paid);
      return Ok(amount);
    }

    method ProcessRedeem(key: Pubkey, amount: u64) returns (r: Result<()>)
      modifies this
      ensures r == Done(DoRedeem(old(State()), key, amount))
      ensures r.Ok? ==> State() == DoRedeem(old(State()), key, amount).value
    {
      hide RedeemInner;
      if amount == 0 { return Err(InvalidAmount); }
      var _ :- RedeemReserveCollateral(key, amount, true);
      return Ok(());
    }

    method ProcessSetMarketConfig(limiter: LimiterConfig)
      modifies this`market
      ensures State() == DoSetMarket(old(State()), limiter)
    {
      if limiter != market.config {
        var renewed := new RateLimiter(limiter, slot);
        market := renewed.State();
      }
    }

    method ProcessRedeemFees(key: Pubkey) returns (r: Result<()>)
      modifies this
      ensures r == Done(DoRedeemFees(old(State()), key))
      ensures r.Ok? ==> State() == DoRedeemFees(old(State()), key).value
    {
      hide RedeemableFees, RedeemFees, ReserveFits;
      var packed :- LoadReserve(State(), key);
      var reserve := new ReserveAccount.Unpack(packed);
      var _ :- NotStale(reserve.lastUpdate, slot, ReserveStale);
      var amount :- RedeemableFees(reserve.LiquidityState());
      if amount == 0 { return Err(InsufficientProtocolFeesToRedeem); }
      var _ :- reserve.TakeFees(amount);
      reserve.MarkStale();
      var paid :- ledger[key].Pay(amount);
      r := PackReserve(key, reserve, paid);
    }

    method ProcessFlashBorrow(key: Pubkey, amount: u64) returns (r: Result<()>)
      modifies this
      ensures r == Done(DoFlashBorrow(old(State()), key, amount))
      ensures r.Ok? ==> State() == DoFlashBorrow(old(State()), key, amount).value
    {
      hide RefreshInterest, BorrowLiquidity, ReserveFits;
      var _ :- RefreshReserveInterest(key);
      var packed :- LoadReserve(State(), key);
      var reserve := new ReserveAccount.Unpack(packed);
      if reserve.config.fees.flashLoanFeeWad == U64_MAX { return Err(FlashLoansDisabled); }
      var _ :- reserve.Borrow(FromInt(amount));
      reserve.MarkStale();
      var paid :- ledger[key].Pay(amount);
      r := PackReserve(key, reserve, paid);
    }

    method ProcessFlashRepay(key: Pubkey, amount: u64) returns (r: Result<()>)
      modifies this
      ensures r == Done(DoFlashRepay(old(State()), key, amount))
      ensures r.Ok? ==> State() == DoFlashRepay(old(State()), key, amount).value
    {
      hide CalculateFlashLoanFees, RepayLiquidity, ReserveFits;
      var packed :- LoadReserve(State(), key);
      var reserve := new ReserveAccount.Unpack(packed);
      var _ :- CalculateFlashLoanFees(reserve.config.fees, FromInt(amount));
      var _ :- reserve.Repay(amount, FromInt(amount));
      reserve.MarkStale();
      r := PackReserve(key, reserve, ledger[key].Receive(amount));
    }

    method ProcessUpdateConfig(key: Pubkey, c: Config, limiter: LimiterConfig, signer: Signer) returns (r: Result<()>)
      modifies this
      ensures r == Done(DoUpdateConfig(old(State()), key, c, limiter, signer))
      ensures r.Ok? ==> State() == DoUpdateConfig(old(State()), key, c, limiter, signer).value
    {
      hide UpdateConfig, ReserveFits;
      var packed :- LoadReserve(State(), key);
      var reserve := new ReserveAccount.Unpack(packed);
      var config :- UpdateConfig(reserve.config, c, signer);
      reserve.config := config;
      if (signer == MarketOwner && limiter != reserve.limiter.config)
          || (signer == RiskAuthority && limiter.window > 0 && limiter.maxOutflow == 0) {
        reserve.limiter := new RateLimiter(limiter, slot);
      }
      reserve.MarkStale();
      r := PackReserve(key, reserve, ledger[key]);
    }

    // ----- obligations

    method ProcessInitObligation()
      modifies this`obligations
      ensures Step(old(State()), InitObligation) == Ok(State())
    {
      obligations := obligations + [NewObligation(slot)];
    }

    method ProcessRefreshObligation(id: nat) returns (r: Result<()>)
      modifies this
      ensures r == Done(DoRefreshObligation(old(State()), id))
      ensures r.Ok? ==> State() == DoRefreshObligation(old(State()), id).value
    {
      hide Refresh, ObligationFits;
      var packed :- LoadObligation(State(), id);
      var obligation := new ObligationAccount.Unpack(packed);
      var _ :- obligation.RefreshAll(reserves, slot);
      r := PackObligation(id, obligation);
    }

    method DepositObligationCollateral(id: nat, key: Pubkey, amount: u64) returns (r: Result<()>)
      modifies this
      ensures r == Done(DepositCollateralInner(old(State()), id, key, amount))
      ensures r.Ok? ==> State() == DepositCollateralInner(old(State()), id, key, amount).value
    {
      hide DepositCollateral, ObligationFits;
      var reserve :- LoadReserve(State(), key);
      var _ :- NotStale(reserve.lastUpdate, slot, ReserveStale);
      var packed :- LoadObligation(State(), id);
      var obligation := new ObligationAccount.Unpack(packed);
      var _ :- obligation.Deposit(key, amount);
      obligation.MarkStale();
      var locked :- ledger[key].Lock(amount);
      ledger := ledger[key := locked];
      r := PackObligation(id, obligation);
    }

    method MarkReserveStale(key: Pubkey) returns (r: Result<()>)
      modifies this
      ensures r == Done(Restale(old(State()), key))
      ensures r.Ok? ==> State() == Restale(old(State()), key).value
    {
      hide ReserveFits;
      var packed :- LoadReserve(State(), key);
      var reserve := new ReserveAccount.Unpack(packed);
      reserve.MarkStale();
      r := PackReserve(key, reserve, ledger[key]);
    }

    method ProcessDepositCollateral(id: nat, key: Pubkey, amount: u64) returns (r: Result<()>)
      modifies this
      ensures r == Done(DoDepositCollateral(old(State()), id, key, amount))
      ensures r.Ok? ==> State() == DoDepositCollateral(old(State()), id, key, amount).value
    {
      hide RefreshInterest, DepositCollateralInner, Restale;
      if amount == 0 { return Err(InvalidAmount); }
      var _ :- RefreshReserveInterest(key);
      var _ :- DepositObligationCollateral(id, key, amount);
      r := MarkReserveStale(key);
    }

    method ProcessDepositBoth(id: nat, key: Pubkey, amount: u64) returns (r: Result<()>)
      modifies this
      ensures r == Done(DoDepositBoth(old(State()), id, key, amount))
      ensures r.Ok? ==> State() == DoDepositBoth(old(State()), id, key, amount).value
    {
      hide RefreshInterest, DepositInner, DepositCollateralInner, Restale;
      if amount == 0 { return Err(InvalidAmount); }
      var _ :- RefreshReserveInterest(key);
      var collateral :- DepositReserveLiquidity(key, amount);
      var _ :- RefreshReserveInterest(key);
      var _ :- DepositObligationCollateral(id, key, collateral);
      r := MarkReserveStale(key);
    }

    method WithdrawObligationCollateral(id: nat, key: Pubkey, amount: u64, limited: bool) returns (r: Result<u64>)
      modifies this
      ensures var spec := WithdrawInner(old(State()), id, key, amount, limited);
        if spec.Ok? then r == Ok(spec.value.1) && State() == spec.value.0 else r == Err(spec.error)
    {
      hide MaxOutflowCollateral, MaxWithdrawAmount, WithdrawCollateral, ObligationFits, FindDeposit;
      var reserve :- LoadReserve(State(), key);
      var _ :- NotStale(reserve.lastUpdate, slot, ReserveStale);
      var packed :- LoadObligation(State(), id);
      var _ :- NotStale(packed.lastUpdate, slot, ObligationStale);
      var i :- FindCollateralInDeposits(packed, key);
      if packed.deposits[i].deposited == 0 { return Err(ObligationCollateralEmpty); }
      var outflow := U64_MAX;
      if limited { outflow :- MaxOutflowCollateral(reserve, market, slot, packed.depositedValue); }
      var max :- MaxWithdrawAmount(packed, packed.deposits[i], reserve);
      var take: u64 := Min(amount, Min(max, outflow));
      if take == 0 { return Err(WithdrawTooLarge); }
      var obligation := new ObligationAccount.Unpack(packed);
      var _ :- obligation.Withdraw(take, i);
      obligation.MarkStale();
      var unlocked :- ledger[key].Unlock(take);
      ledger := ledger[key := unlocked];
      var _ :- PackObligation(id, obligation);
      return Ok(take);
    }

    method ProcessWithdraw(id: nat, key: Pubkey, amount: u64) returns (r: Result<()>)
      modifies this
      ensures r == Done(DoWithdraw(old(State()), id, key, amount))
      ensures r.Ok? ==> State() == DoWithdraw(old(State()), id, key, amount).value
    {
      hide WithdrawInner;
      if amount == 0 { return Err(InvalidAmount); }
      var _ :- WithdrawObligationCollateral(id, key, amount, false);
      return Ok(());
    }

    method ProcessWithdrawAndRedeem(id: nat, key: Pubkey, amount: u64) returns (r: Result<()>)
      modifies this
      ensures r == Done(DoWithdrawAndRedeem(old(State()), id, key, amount))
      ensures r.Ok? ==> State() == DoWithdrawAndRedeem(old(State()), id, key, amount).value
    {
      hide WithdrawInner, RedeemInner;
      var collateral :- WithdrawObligationCollateral(id, key, amount, true);
      var _ :- RedeemReserveCollateral(key, collateral, true);
      return Ok(());
    }

    /** The terms of a borrow; asking both limiters what they still let out rolls their windows. */
    method PriceLoan(reserve: ReserveAccount, limiter: RateLimiter, amount: u64, remaining: Decimal)
      returns (r: Result<BorrowTerms>)
      requires limiter != reserve.limiter && limiter.State() == market
      modifies limiter, reserve.limiter
      ensures r == (match PriceBorrow(State(), old(reserve.State()), amount, remaining) case Ok(p) => Ok(p.0) case Err(e) => Err(e))
      ensures r.Ok? ==>
        var (t, m, own) := PriceBorrow(State(), old(reserve.State()), amount, remaining).value;
        limiter.State() == m && reserve.State() == old(reserve.State()).(limiter := own)
    {
      hide Roll, CurrentOutflow, UsdToLiquidityLowerBound, CalculateBorrow;
      var capacity: Decimal := 0;
      var limit := Sub(FromInt(reserve.config.borrowLimit), reserve.borrowed);
      if limit.Ok? { capacity := limit.value; }
      var usd :- limiter.Remaining(slot);
      var fromReserve :- reserve.limiter.Remaining(slot);
      var fromMarket :- UsdToLiquidityLowerBound(reserve.LiquidityState(), Min(usd, remaining));
      TermsIgnoreLimiter(old(reserve.State()), reserve.State(), amount, remaining, Min(capacity, Min(fromMarket, fromReserve)));
      var terms :- CalculateBorrow(reserve.State(), amount, remaining, Min(capacity, Min(fromMarket, fromReserve)));
      if terms.receiveAmount == 0 { return Err(BorrowTooSmall); }
      return Ok(terms);
    }

    method ProcessBorrow(id: nat, key: Pubkey, amount: u64) returns (r: Result<()>)
      modifies this
      ensures r == Done(DoBorrow(old(State()), id, key, amount))
      ensures r.Ok? ==> State() == DoBorrow(old(State()), id, key, amount).value
    {
      hide CheckBorrow, PriceBorrow, MarketValueUpperBound, Update, LimiterFits, BorrowLiquidity, AddLoan, PayBorrow,
           ReserveFits, ObligationFits, Rolled;
      var packed :- LoadReserve(State(), key);
      var packedObligation :- LoadObligation(State(), id);
      var remaining :- CheckBorrow(State(), packedObligation, packed, key, amount);
      var reserve := new ReserveAccount.Unpack(packed);
      var limiter := new RateLimiter.Unpack(market);
      var terms :- PriceLoan(reserve, limiter, amount, remaining);
      var value :- MarketValueUpperBound(reserve.LiquidityState(), terms.borrowAmount);
      var _ :- limiter.Record(slot, value);
      var _ :- reserve.limiter.Record(slot, terms.borrowAmount);
      if !LimiterFits(limiter.State()) { return Err(Panic); }
      var _ :- reserve.Borrow(terms.borrowAmount);
      reserve.MarkStale();
      r := BookBorrow(id, key, packedObligation, reserve, limiter, terms);
    }

    /** The accounts of an accepted borrow are packed and its tokens paid out. */
    method BookBorrow(id: nat, key: Pubkey, packed: Obligation, reserve: ReserveAccount, limiter: RateLimiter, terms: BorrowTerms)
      returns (r: Result<()>)
      requires id < |obligations| && key in ledger
      modifies this
      ensures r == Done(BookedBorrow(old(State()), id, key, packed, old(reserve.State()), old(limiter.State()), terms))
      ensures r.Ok? ==>
        State() == BookedBorrow(old(State()), id, key, packed, old(reserve.State()), old(limiter.State()), terms).value
    {
      hide AddLoan, PayBorrow, ReserveFits, ObligationFits;
      var obligation := new ObligationAccount.Unpack(packed);
      var _ :- obligation.Borrow(key, reserve.cumulativeRate, terms.borrowAmount);
      obligation.MarkStale();
      var paid :- PayBorrow(ledger[key], terms);
      market := limiter.State();
      var _ :- PackReserve(key, reserve, paid);
      r := PackObligation(id, obligation);
    }

    method ProcessRepay(id: nat, key: Pubkey, amount: u64) returns (r: Result<()>)
      modifies this
      ensures r == Done(DoRepay(old(State()), id, key, amount))
      ensures r.Ok? ==> State() == DoRepay(old(State()), id, key, amount).value
    {
      hide RefreshInterest, AccrueLoan, BookRepay, FindLoan;
      if amount == 0 { return Err(InvalidAmount); }
      var _ :- RefreshReserveInterest(key);
      var packed :- LoadReserve(State(), key);
      var packedObligation :- LoadObligation(State(), id);
      var i :- FindLiquidityInBorrows(packedObligation, key);
      if packedObligation.borrows[i].borrowed == 0 { return Err(ObligationLiquidityEmpty); }
      var obligation := new ObligationAccount.Unpack(packedObligation);
      var _ :- obligation.Accrue(i, packed.liquidity.cumulativeRate);
      r := SettleRepayment(id, key, i, obligation, amount);
    }

    method SettleRepayment(id: nat, key: Pubkey, i: nat, obligation: ObligationAccount, amount: u64) returns (r: Result<()>)
      requires id < |obligations| && i < |obligations[id].borrows| && key in reserves && key in ledger
      requires i < |obligation.borrows|
      requires obligation.State() == obligations[id].(borrows := obligations[id].borrows[i := obligation.borrows[i]])
      modifies this, obligation
      ensures r == Done(BookRepay(old(State()), id, key, i, old(obligation.borrows[i]), amount))
      ensures r.Ok? ==> State() == BookRepay(old(State()), id, key, i, old(obligation.borrows[i]), amount).value
    {
      hide CalculateRepay, RepayLiquidity, SettleLoan, ReserveFits, ObligationFits;
      var terms :- CalculateRepay(amount, obligation.borrows[i].borrowed);
      if terms.repayAmount == 0 { return Err(RepayTooSmall); }
      var reserve := new ReserveAccount.Unpack(reserves[key]);
      var _ :- reserve.Repay(terms.repayAmount, terms.settleAmount);
      reserve.MarkStale();
      var _ :- PackReserve(key, reserve, ledger[key].Receive(terms.repayAmount));
      var _ :- obligation.Repay(terms.settleAmount, i);
      obligation.MarkStale();
      r := PackObligation(id, obligation);
    }

    method LiquidateObligation(id: nat, repayKey: Pubkey, withdrawKey: Pubkey, amount: u64) returns (r: Result<(u64, Decimal)>)
      modifies this
      ensures var spec := LiquidateInner(old(State()), id, repayKey, withdrawKey, amount);
        if spec.Ok? then r == Ok((spec.value.1, spec.value.2)) && State() == spec.value.0 else r == Err(spec.error)
    {
      hide CalculateLiquidation, BookLiquidation, CheckLiquidation;
      var repayReserve :- LoadReserve(State(), repayKey);
      var _ :- NotStale(repayReserve.lastUpdate, slot, ReserveStale);
      var withdrawReserve :- LoadReserve(State(), withdrawKey);
      var _ :- NotStale(withdrawReserve.lastUpdate, slot, ReserveStale);
      var o :- LoadObligation(State(), id);
      var _ :- NotStale(o.lastUpdate, slot, ObligationStale);
      var found :- CheckLiquidation(o, repayKey, withdrawKey);
      var i, j := found.0, found.1;
      var terms :- CalculateLiquidation(withdrawReserve.config, amount, o, o.borrows[i], o.deposits[j]);
      if terms.repayAmount == 0 || terms.withdrawAmount == 0 { return Err(LiquidationTooSmall); }
      var _ :- SettleLiquidation(id, repayKey, withdrawKey, i, j, terms);
      return Ok((terms.withdrawAmount, terms.bonusRate));
    }

    method SettleLiquidation(id: nat, repayKey: Pubkey, withdrawKey: Pubkey, i: nat, j: nat, terms: LiquidationTerms)
      returns (r: Result<()>)
      requires repayKey in reserves && repayKey in ledger && withdrawKey in ledger && id < |obligations|
      requires i < |obligations[id].borrows| && j < |obligations[id].deposits|
      modifies this
      ensures r == Done(BookLiquidation(old(State()), id, repayKey, withdrawKey, i, j, terms))
      ensures r.Ok? ==> State() == BookLiquidation(old(State()), id, repayKey, withdrawKey, i, j, terms).value
    {
      hide RepayLiquidity, WithdrawCollateral, ReserveFits, ObligationFits;
      var reserve := new ReserveAccount.Unpack(reserves[repayKey]);
      var _ :- reserve.Repay(terms.repayAmount, terms.settleAmount);
      reserve.MarkStale();
      var _ :- PackReserve(repayKey, reserve, ledger[repayKey].Receive(terms.repayAmount));
      var obligation := new ObligationAccount.Unpack(obligations[id]);
      var _ :- obligation.Repay(terms.settleAmount, i);
      hide SettleLoan;
      var _ :- obligation.Withdraw(terms.withdrawAmount, j);
      obligation.MarkStale();
      var unlocked :- ledger[withdrawKey].Unlock(terms.withdrawAmount);
      ledger := ledger[withdrawKey := unlocked];
      r := PackObligation(id, obligation);
    }

    method ProcessLiquidate(id: nat, repayKey: Pubkey, withdrawKey: Pubkey, amount: u64) returns (r: Result<()>)
      modifies this
      ensures r == Done(DoLiquidate(old(State()), id, repayKey, withdrawKey, amount))
      ensures r.Ok? ==> State() == DoLiquidate(old(State()), id, repayKey, withdrawKey, amount).value
    {
      hide LiquidateInner, RefreshInterest, RedeemInner, ExchangeRate, LiquidityToCollateral, ProtocolLiquidationFee;
      if amount == 0 { return Err(InvalidAmount); }
      var taken :- LiquidateObligation(id, repayKey, withdrawKey, amount);
      var _ :- RefreshReserveInterest(withdrawKey);
      var reserve :- LoadReserve(State(), withdrawKey);
      var rate :- ExchangeRate(reserve);
      var redeemable :- LiquidityToCollateral(rate, reserve.liquidity.available);
      var collateral: u64 := Min(taken.0, redeemable);
      if collateral != 0 {
        var paid :- RedeemReserveCollateral(withdrawKey, collateral, false);
        var _ :- ProtocolLiquidationFee(reserve.config, paid, taken.1);
      }
      return Ok(());
    }

    method ProcessForgive(id: nat, key: Pubkey, amount: u64) returns (r: Result<()>)
      modifies this
      ensures r == Done(DoForgive(old(State()), id, key, amount))
      ensures r.Ok? ==> State() == DoForgive(old(State()), id, key, amount).value
    {
      hide ForgivenAmount, ForgiveDebt, SettleLoan, FindLoan, ReserveFits, ObligationFits;
      var packed :- LoadReserve(State(), key);
      var _ :- NotStale(packed.lastUpdate, slot, ReserveStale);
      var packedObligation :- LoadObligation(State(), id);
      var _ :- NotStale(packedObligation.lastUpdate, slot, ObligationStale);
      if packedObligation.deposits != [] { return Err(InvalidAccountInput); }
      var i :- FindLiquidityInBorrows(packedObligation, key);
      var forgiven :- ForgivenAmount(packed, packedObligation.borrows[i], amount);
      var reserve := new ReserveAccount.Unpack(packed);
      var _ :- reserve.Forgive(forgiven);
      reserve.MarkStale();
      var _ :- PackReserve(key, reserve, ledger[key]);
      var obligation := new ObligationAccount.Unpack(packedObligation);
      var _ :- obligation.Repay(forgiven, i);
      obligation.MarkStale();
      r := PackObligation(id, obligation);
    }

    // ----- the runtime

    method Dispatch(ix: Instruction) returns (r: Result<()>)
      modifies this
      ensures r == Done(Step(old(State()), ix))
      ensures r.Ok? ==> State() == Step(old(State()), ix).value
    {
      hide DoInitReserve, DoRefreshReserve, DoDeposit, DoRedeem, DoRefreshObligation, DoDepositCollateral, DoDepositBoth,
           DoWithdraw, DoWithdrawAndRedeem, DoBorrow, DoRepay, DoLiquidate, DoRedeemFees, DoForgive, DoFlashBorrow,
           DoFlashRepay, DoUpdateConfig, DoSetMarket;
      match ix
      case Tick(next) =>
        if !(slot <= next < SLOT_LIMIT) { return Err(InvalidAccountInput); }
        slot := next;
        r := Ok(());
      case InitReserve(key, amount, c, d, p, sp) => r := ProcessInitReserve(key, amount, c, d, p, sp);
      case InitObligation =>
        ProcessInitObligation();
        r := Ok(());
      case RefreshReserve(key, p, sp) => r := ProcessRefreshReserve(key, p, sp);
      case DepositReserveLiquidity(key, amount) => r := ProcessDeposit(key, amount);
      case RedeemReserveCollateral(key, amount) => r := ProcessRedeem(key, amount);
      case RefreshObligation(id) => r := ProcessRefreshObligation(id);
      case DepositObligationCollateral(id, key, amount) => r := ProcessDepositCollateral(id, key, amount);
      case DepositLiquidityAndCollateral(id, key, amount) => r := ProcessDepositBoth(id, key, amount);
      case WithdrawObligationCollateral(id, key, amount) => r := ProcessWithdraw(id, key, amount);
      case WithdrawAndRedeem(id, key, amount) => r := ProcessWithdrawAndRedeem(id, key, amount);
      case BorrowObligationLiquidity(id, key, amount) => r := ProcessBorrow(id, key, amount);
      case RepayObligationLiquidity(id, key, amount) => r := ProcessRepay(id, key, amount);
      case LiquidateAndRedeem(id, rk, wk, amount) => r := ProcessLiquidate(id, rk, wk, amount);
      case RedeemProtocolFees(key) => r := ProcessRedeemFees(key);
      case ForgiveObligationDebt(id, key, amount) => r := ProcessForgive(id, key, amount);
      case FlashBorrow(key, amount) => r := ProcessFlashBorrow(key, amount);
      case FlashRepay(key, amount, _) => r := ProcessFlashRepay(key, amount);
      case UpdateReserveConfig(key, c, l, signer) => r := ProcessUpdateConfig(key, c, l, signer);
      case SetMarketConfig(limiter) =>
        ProcessSetMarketConfig(limiter);
        r := Ok(());
    }

    /** One instruction as the runtime executes it: a failed one leaves no trace, and from a reachable state
        every one keeps the invariant, the reserves it does not name, and the price of the holders. */
    method Process(ix: Instruction) returns (r: Result<()>)
      modifies this
      ensures r == Done(Step(old(State()), ix))
      ensures State() == Execute(old(State()), ix)
      ensures r.Err? ==> State() == old(State())
      ensures Safe(old(State())) ==> Promised(old(State()), ix, r, State())
    {
      hide Step, Promised, Safe;
      ghost var start := State();
      if Safe(start) { ExecutePromised(start, ix); }
      var before := (slot, market, reserves, obligations, ledger);
      r := Dispatch(ix);
      if r.Err? {
        slot, market, reserves, obligations, ledger := before.0, before.1, before.2, before.3, before.4;
      }
    }
  }

  /** What one instruction, successful or not, leaves of a reachable state. */
  ghost predicate Promised(w: World, ix: Instruction, r: Result<()>, v: World) {
    && Safe(v)
    && (r.Err? ==> r.error != TokenTransferFailed && r.error != NegativeInterestRate)
    && (forall k: Pubkey :: !Names(ix, k) ==> Leaves(w, v, k))
    && (!TakesFromHolders(ix) ==> NobodyLoses(w, v))
  }

  lemma ExecutePromised(w: World, ix: Instruction)
    requires Safe(w)
    ensures Promised(w, ix, Done(Step(w, ix)), Execute(w, ix))
  {
    hide Safe, Step, Leaves, NobodyLoses, Names, TakesFromHolders;
    if Step(w, ix).Ok? {
      StepSafe(w, ix);
      forall k: Pubkey | !Names(ix, k) ensures Leaves(w, Step(w, ix).value, k) { StepLeaves(w, ix, k); }
      if !TakesFromHolders(ix) { StepKeepsPrice(w, ix); }
    } else {
      UnreachableErrors(w, ix);
      SameReserves(w, w);
      forall k: Pubkey ensures Leaves(w, w, k) { LeavesItself(w, k); }
    }
  }

  lemma LeavesItself(w: World, k: Pubkey)
    ensures Leaves(w, w, k)
  {
  }

  lemma TermsIgnoreLimiter(r: Reserve, s: Reserve, amount: u64, maxValue: Decimal, remaining: Decimal)
    requires s == r.(limiter := s.limiter)
    ensures CalculateBorrow(s, amount, maxValue, remaining) == CalculateBorrow(r, amount, maxValue, remaining)
  {
    hide Mul, Div, FloorU64, CeilU64, RoundU64;
  }
}
