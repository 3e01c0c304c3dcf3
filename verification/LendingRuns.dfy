/** Theorems about whole runs of the lending program. */
module LendingRuns {
  import opened Results
  import opened FixedPoint
  import opened RateLimiters
  import opened ReserveConfigs
  import opened Reserves
  import opened Valuation
  import opened Obligations
  import opened ObligationRefresh
  import opened Liquidation
  import opened Lending
  import opened LendingSafety
  import opened ReserveSteps
  import opened ObligationSteps
  import opened PositionSteps

  // ----- safety

  lemma TickSafe(w: World, slot: u64)
    requires Safe(w) && w.slot <= slot < SLOT_LIMIT
    ensures Safe(w.(slot := slot))
  {
    hide LimiterOk, Sane, ReserveFits, TotalDeposited, ListsOk, ObligationFits, DepositsKnown, LoansOk, LoansFresh;
    OkAsTimePasses(w.market, w.slot, slot);
    forall k | k in w.reserves
      ensures ReserveOk(w.reserves[k], slot)
    {
      OkAsTimePasses(w.reserves[k].limiter, w.slot, slot);
    }
  }

  lemma NewObligationSafe(w: World)
    requires Safe(w)
    ensures Safe(w.(obligations := w.obligations + [NewObligation(w.slot)]))
  {
    hide LimiterOk, ReserveOk;
    var os := w.obligations + [NewObligation(w.slot)];
    assert os[..|w.obligations|] == w.obligations;
    assert forall k: Pubkey :: TotalDeposited(os, k) == TotalDeposited(w.obligations, k);
    hide TotalDeposited;
  }

  lemma SetMarketSafe(w: World, limiter: LimiterConfig)
    requires Safe(w)
    ensures Safe(DoSetMarket(w, limiter))
  {
    hide LimiterOk, ReserveOk, ObligationOk, TotalDeposited;
    NewIsOk(limiter, w.slot);
  }

  /** A new market is safe from the first slot on. */
  lemma GenesisSafe(slot: u64)
    requires 1 <= slot < SLOT_LIMIT
    ensures Safe(Genesis(slot))
  {
    NewIsOk(LimiterConfig(1, U64_MAX), 1);
    OkAsTimePasses(New(LimiterConfig(1, U64_MAX), 1), 1, slot);
    hide LimiterOk;
  }

  lemma StepSafe(w: World, ix: Instruction)
    requires Safe(w) && Step(w, ix).Ok?
    ensures Safe(Step(w, ix).value)
  {
    hide Safe, DoInitReserve, DoRefreshReserve, DoDeposit, DoRedeem, DoRefreshObligation, DoDepositCollateral,
         DoDepositBoth, DoWithdraw, DoWithdrawAndRedeem, DoBorrow, DoRepay, DoLiquidate, DoRedeemFees, DoForgive,
         DoFlashBorrow, DoFlashRepay, DoUpdateConfig, DoSetMarket;
    match ix
    case Tick(slot) => TickSafe(w, slot);
    case InitReserve(key, amount, c, d, p, sp) => InitReserveSafe(w, key, amount, c, d, p, sp);
    case InitObligation => NewObligationSafe(w);
    case RefreshReserve(key, p, sp) => RefreshReserveSafe(w, key, p, sp);
    case DepositReserveLiquidity(key, amount) => DepositSafe(w, key, amount);
    case RedeemReserveCollateral(key, amount) => RedeemSafe(w, key, amount);
    case RefreshObligation(id) => RefreshObligationSafe(w, id);
    case DepositObligationCollateral(id, key, amount) => DepositCollateralSafe(w, id, key, amount);
    case DepositLiquidityAndCollateral(id, key, amount) => DepositBothSafe(w, id, key, amount);
    case WithdrawObligationCollateral(id, key, amount) => WithdrawSafe(w, id, key, amount);
    case WithdrawAndRedeem(id, key, amount) => WithdrawAndRedeemSafe(w, id, key, amount);
    case BorrowObligationLiquidity(id, key, amount) => BorrowSafe(w, id, key, amount);
    case RepayObligationLiquidity(id, key, amount) => RepaySafe(w, id, key, amount);
    case LiquidateAndRedeem(id, rk, wk, amount) => LiquidateSafe(w, id, rk, wk, amount);
    case RedeemProtocolFees(key) => RedeemFeesSafe(w, key);
    case ForgiveObligationDebt(id, key, amount) => ForgiveSafe(w, id, key, amount);
    case FlashBorrow(key, amount) => FlashBorrowSafe(w, key, amount);
    case FlashRepay(key, amount, _) => FlashRepaySafe(w, key, amount);
    case UpdateReserveConfig(key, c, l, signer) => UpdateConfigSafe(w, key, c, l, signer);
    case SetMarketConfig(limiter) => SetMarketSafe(w, limiter);
  }

  lemma {:induction false} RunKeepsSafe(w: World, ixs: seq<Instruction>)
    requires Safe(w)
    ensures Safe(Run(w, ixs))
  {
    hide Safe, Step;
    if ixs != [] {
      var v := Run(w, ixs[..|ixs| - 1]);
      RunKeepsSafe(w, ixs[..|ixs| - 1]);
      if Step(v, ixs[|ixs| - 1]).Ok? { StepSafe(v, ixs[|ixs| - 1]); }
    }
  }

  /** In every state any sequence of instructions leads to, successful or not: each liquidity vault
      holds exactly the available liquidity, there are exactly as many collateral tokens as minted,
      and each collateral vault holds exactly what the obligations record. */
  lemma LedgerAlwaysBalances(slot: u64, ixs: seq<Instruction>)
    requires 1 <= slot < SLOT_LIMIT
    ensures var w := Run(Genesis(slot), ixs);
      && w.reserves.Keys == w.ledger.Keys
      && forall k :: k in w.reserves ==>
           && w.ledger[k].liquidity == w.reserves[k].liquidity.available
           && w.ledger[k].collateral + w.ledger[k].held == w.reserves[k].mintSupply
           && w.ledger[k].collateral == TotalDeposited(w.obligations, k)
  {
    GenesisSafe(slot);
    RunKeepsSafe(Genesis(slot), ixs);
    hide Run, Genesis, LimiterOk, ReserveOk, ObligationOk, TotalDeposited;
  }

  /** ... and every obligation has unique reserves in each list, at most ten entries, at most nine of
      them borrows, decimals that fit their packed width, and no index ahead of its reserve's. */
  lemma ObligationsAlwaysWellFormed(slot: u64, ixs: seq<Instruction>, id: nat)
    requires 1 <= slot < SLOT_LIMIT && id < |Run(Genesis(slot), ixs).obligations|
    ensures var w := Run(Genesis(slot), ixs);
      ListsOk(w.obligations[id]) && ObligationFits(w.obligations[id]) && LoansOk(w.obligations[id].borrows, w.reserves)
  {
    GenesisSafe(slot);
    RunKeepsSafe(Genesis(slot), ixs);
    hide Run, Genesis, LimiterOk, ReserveOk, ListsOk, ObligationFits, LoansOk, TotalDeposited;
  }

  // ----- errors that cannot happen

  lemma DepositErrors(w: World, key: Pubkey, amount: u64)
    ensures Calculated(DoDeposit(w, key, amount))
  {
    hide RefreshInterest, DepositInner;
    RefreshErrors(w, key);
    if RefreshInterest(w, key).Ok? { DepositInnerErrors(RefreshInterest(w, key).value, key, amount); }
  }

  lemma DepositInnerErrors(w: World, key: Pubkey, amount: u64)
    ensures Calculated(DepositInner(w, key, amount))
  {
    hide ExchangeRate, ReserveFits, TotalSupply;
    if key in w.reserves { ExchangeErrors(w.reserves[key]); TotalErrors(w.reserves[key].liquidity); }
  }

  lemma TotalErrors(l: Liquidity)
    ensures Calculated(TotalSupply(l))
  {
  }

  lemma InitErrors(w: World, key: Pubkey, amount: u64, c: Config, d: u8, price: Decimal, smoothed: Decimal)
    ensures Calculated(DoInitReserve(w, key, amount, c, d, price, smoothed))
  {
    hide ReserveFits;
  }

  lemma RefreshReserveErrors(w: World, key: Pubkey, price: Decimal, smoothed: Decimal)
    ensures Calculated(DoRefreshReserve(w, key, price, smoothed))
  {
    hide RefreshInterest, ReserveFits;
    forall u: World ensures Calculated(RefreshInterest(u, key)) { RefreshErrors(u, key); }
  }

  lemma DepositCollateralInnerErrors(w: World, id: nat, key: Pubkey, amount: u64)
    ensures Calculated(DepositCollateralInner(w, id, key, amount))
  {
    hide ObligationFits, FindDeposit;
  }

  lemma DepositCollateralErrors(w: World, id: nat, key: Pubkey, amount: u64)
    ensures Calculated(DoDepositCollateral(w, id, key, amount))
  {
    hide RefreshInterest, DepositCollateralInner, ReserveFits;
    RefreshErrors(w, key);
    if RefreshInterest(w, key).Ok? { DepositCollateralInnerErrors(RefreshInterest(w, key).value, id, key, amount); }
  }

  lemma DepositBothErrors(w: World, id: nat, key: Pubkey, amount: u64)
    ensures Calculated(DoDepositBoth(w, id, key, amount))
  {
    hide RefreshInterest, DepositInner, DepositCollateralInner, ReserveFits;
    RefreshErrors(w, key);
    if RefreshInterest(w, key).Ok? {
      DepositInnerErrors(RefreshInterest(w, key).value, key, amount);
      if DepositInner(RefreshInterest(w, key).value, key, amount).Ok? {
        var (u, collateral) := DepositInner(RefreshInterest(w, key).value, key, amount).value;
        RefreshErrors(u, key);
        if RefreshInterest(u, key).Ok? { DepositCollateralInnerErrors(RefreshInterest(u, key).value, id, key, collateral); }
      }
    }
  }

  lemma RedeemFeesErrors(w: World, key: Pubkey)
    requires Safe(w)
    ensures Calculated(DoRedeemFees(w, key))
  {
    hide Safe, ReserveFits, StoreReserve, RedeemFees, RedeemableFees;
    if LoadReserve(w, key).Ok? {
      var r := w.reserves[key];
      FeeErrors(r.liquidity);
      if RedeemableFees(r.liquidity).Ok? && RedeemFees(r.liquidity, RedeemableFees(r.liquidity).value).Ok? {
        var amount := RedeemableFees(r.liquidity).value;
        RedeemFeesSafe(w, key);
        if w.ledger[key].Pay(amount).Ok? {
          StoreErrors(w, key, MarkStale(r.(liquidity := RedeemFees(r.liquidity, amount).value)), w.ledger[key].Pay(amount).value);
        }
      }
    }
  }

  lemma FeeErrors(l: Liquidity)
    ensures Calculated(RedeemableFees(l))
    ensures RedeemableFees(l).Ok? ==> Calculated(RedeemFees(l, RedeemableFees(l).value))
  {
  }

  lemma ConfigErrors(w: World, key: Pubkey, c: Config, l: LimiterConfig, signer: Signer)
    ensures Calculated(DoUpdateConfig(w, key, c, l, signer))
  {
    hide ReserveFits;
  }

  lemma FlashBorrowErrors(w: World, key: Pubkey, amount: u64)
    requires Safe(w)
    ensures Calculated(DoFlashBorrow(w, key, amount))
  {
    hide Safe, RefreshInterest, BorrowLiquidity, ReserveFits, StoreReserve;
    RefreshErrors(w, key);
    if RefreshInterest(w, key).Ok? && LoadReserve(RefreshInterest(w, key).value, key).Ok? {
      var u := RefreshInterest(w, key).value;
      var r := u.reserves[key];
      ReserveSteps.BorrowErrors(r.liquidity, FromInt(amount));
      if BorrowLiquidity(r.liquidity, FromInt(amount)).Ok? {
        FlashBorrowSafe(w, key, amount);
        if u.ledger[key].Pay(amount).Ok? {
          StoreErrors(u, key, MarkStale(r.(liquidity := BorrowLiquidity(r.liquidity, FromInt(amount)).value)),
                      u.ledger[key].Pay(amount).value);
        }
      }
    }
  }

  lemma FlashRepayErrors(w: World, key: Pubkey, amount: u64)
    ensures Calculated(DoFlashRepay(w, key, amount))
  {
    hide ReserveFits;
  }

  lemma RedeemErrorsReachable(w: World, key: Pubkey, amount: u64)
    requires Safe(w)
    ensures DoRedeem(w, key, amount).Err? ==> !Unreachable(DoRedeem(w, key, amount).error)
  {
    hide Safe, RedeemInner;
    RedeemInnerErrors(w, key, amount, true);
  }

  /** No instruction, from any reachable state and with any arguments, ever finds a vault without the
      tokens it must pay out or an interest index that went back; and a withdraw-and-redeem or a
      "maximum" borrow is never refused by a rate limiter. */
  lemma UnreachableErrors(w: World, ix: Instruction)
    requires Safe(w) && Step(w, ix).Err?
    ensures Step(w, ix).error != TokenTransferFailed && Step(w, ix).error != NegativeInterestRate
    ensures ix.WithdrawAndRedeem? || (ix.BorrowObligationLiquidity? && ix.amount == U64_MAX) ==>
      Step(w, ix).error != OutflowRateLimitExceeded
  {
    hide Safe, DoInitReserve, DoRefreshReserve, DoDeposit, DoRedeem, DoRefreshObligation, DoDepositCollateral,
         DoDepositBoth, DoWithdraw, DoWithdrawAndRedeem, DoBorrow, DoRepay, DoLiquidate, DoRedeemFees, DoForgive,
         DoFlashBorrow, DoFlashRepay, DoUpdateConfig, DoSetMarket;
    match ix
    case Tick(slot) =>
    case InitReserve(key, amount, c, d, p, sp) => InitErrors(w, key, amount, c, d, p, sp);
    case InitObligation =>
    case RefreshReserve(key, p, sp) => RefreshReserveErrors(w, key, p, sp);
    case DepositReserveLiquidity(key, amount) => DepositErrors(w, key, amount);
    case RedeemReserveCollateral(key, amount) => RedeemErrorsReachable(w, key, amount);
    case RefreshObligation(id) => RefreshObligationErrors(w, id);
    case DepositObligationCollateral(id, key, amount) => DepositCollateralErrors(w, id, key, amount);
    case DepositLiquidityAndCollateral(id, key, amount) => DepositBothErrors(w, id, key, amount);
    case WithdrawObligationCollateral(id, key, amount) => WithdrawSafe(w, id, key, amount);
    case WithdrawAndRedeem(id, key, amount) => WithdrawAndRedeemSafe(w, id, key, amount);
    case BorrowObligationLiquidity(id, key, amount) => PositionSteps.BorrowErrors(w, id, key, amount);
    case RepayObligationLiquidity(id, key, amount) => RepayErrors(w, id, key, amount);
    case LiquidateAndRedeem(id, rk, wk, amount) => LiquidateSafe(w, id, rk, wk, amount);
    case RedeemProtocolFees(key) => RedeemFeesErrors(w, key);
    case ForgiveObligationDebt(id, key, amount) => ForgiveSafe(w, id, key, amount);
    case FlashBorrow(key, amount) => FlashBorrowErrors(w, key, amount);
    case FlashRepay(key, amount, _) => FlashRepayErrors(w, key, amount);
    case UpdateReserveConfig(key, c, l, signer) => ConfigErrors(w, key, c, l, signer);
    case SetMarketConfig(limiter) =>
  }

  // ----- healthy obligations

  lemma SafeIsSane(w: World)
    requires Safe(w)
    ensures AllSane(w.reserves)
  {
    hide LimiterOk, ObligationOk, TotalDeposited, Sane;
  }

  /** An obligation just refreshed in a reachable state cannot be both borrowed against and
      liquidated: whichever amount and reserves are named, one of the two instructions fails. */
  lemma BorrowableIsNotLiquidatable(w: World, u: World, id: nat, key: Pubkey, amount: u64, rk: Pubkey, wk: Pubkey, repay: u64)
    requires Safe(w) && DoRefreshObligation(w, id) == Ok(u)
    ensures DoBorrow(u, id, key, amount).Err? || DoLiquidate(u, id, rk, wk, repay).Err?
  {
    hide Safe, Refresh, PriceBorrow, Update, BorrowLiquidity, AddLoan, PayBorrow, ObligationFits, ReserveFits,
         CalculateLiquidation, BookLiquidation, RedeemSeized, CheckTier, CheckBorrowLimit, ValueAt;
    SafeIsSane(w);
    RefreshedLimitsOrdered(w.obligations[id], w.reserves, w.slot);
    var o := u.obligations[id];
    assert o == Refresh(w.obligations[id], w.reserves, w.slot).value;
    if DoBorrow(u, id, key, amount).Ok? {
      CheckBorrowFacts(u, o, u.reserves[key], key, amount);
      assert o.allowedBorrowValue > o.borrowedValueUpperBound;
    }
  }
}
