/** An instruction leaves every reserve it does not name, and that reserve's tokens, exactly as they
    were. */
module Untouched {
  import opened FixedPoint
  import opened RateLimiters
  import opened ReserveConfigs
  import opened Reserves
  import opened Valuation
  import opened Obligations
  import opened ObligationRefresh
  import opened BorrowingLimits
  import opened Liquidation
  import opened Lending

  predicate Names(ix: Instruction, k: Pubkey) {
    match ix
    case Tick(_) => false
    case InitObligation => false
    case SetMarketConfig(_) => false
    case RefreshObligation(_) => false
    case LiquidateAndRedeem(_, repayKey, withdrawKey, _) => k == repayKey || k == withdrawKey
    case _ => k == ix.key
  }

  predicate Holds(w: World, k: Pubkey) { k in w.reserves && k in w.ledger }

  /** Reserve `k` and its tokens are the same in both states. */
  predicate Leaves(w: World, v: World, k: Pubkey) {
    Holds(w, k) ==> Holds(v, k) && v.reserves[k] == w.reserves[k] && v.ledger[k] == w.ledger[k]
  }

  lemma RefreshLeaves(w: World, key: Pubkey, k: Pubkey)
    requires RefreshInterest(w, key).Ok? && k != key
    ensures Leaves(w, RefreshInterest(w, key).value, k)
  {
    hide AccrueInterest, ReserveFits;
  }

  lemma DepositLeaves(w: World, key: Pubkey, amount: u64, k: Pubkey)
    requires DepositInner(w, key, amount).Ok? && k != key
    ensures Leaves(w, DepositInner(w, key, amount).value.0, k)
  {
    hide TotalSupply, FloorU64, DepositLiquidity, ReserveFits;
  }

  lemma RedeemLeaves(w: World, key: Pubkey, amount: u64, check: bool, k: Pubkey)
    requires RedeemInner(w, key, amount, check).Ok? && k != key
    ensures Leaves(w, RedeemInner(w, key, amount, check).value.0, k)
  {
    hide RedeemCollateral, LimitRedeem, LimiterFits, ReserveFits;
  }

  lemma LockLeaves(w: World, id: nat, key: Pubkey, amount: u64, k: Pubkey)
    requires DepositCollateralInner(w, id, key, amount).Ok? && k != key
    ensures Leaves(w, DepositCollateralInner(w, id, key, amount).value, k)
  {
    hide DepositCollateral, ObligationFits;
  }

  lemma RestaleLeaves(w: World, key: Pubkey, k: Pubkey)
    requires Restale(w, key).Ok? && k != key
    ensures Leaves(w, Restale(w, key).value, k)
  {
    hide ReserveFits;
  }

  lemma WithdrawLeaves(w: World, id: nat, key: Pubkey, amount: u64, limited: bool, k: Pubkey)
    requires WithdrawInner(w, id, key, amount, limited).Ok? && k != key
    ensures Leaves(w, WithdrawInner(w, id, key, amount, limited).value.0, k)
  {
    hide MaxOutflowCollateral, MaxWithdrawAmount, WithdrawCollateral, ObligationFits, FindDeposit;
  }

  lemma ReserveStepsLeave(w: World, ix: Instruction, k: Pubkey)
    requires ix.InitReserve? || ix.RefreshReserve? || ix.DepositReserveLiquidity? || ix.RedeemReserveCollateral?
          || ix.RedeemProtocolFees? || ix.UpdateReserveConfig?
    requires !Names(ix, k) && Step(w, ix).Ok?
    ensures Leaves(w, Step(w, ix).value, k)
  {
    hide Validate, DepositLiquidity, ReserveFits, RefreshInterest, DepositInner, RedeemInner, RedeemableFees, RedeemFees,
         UpdateConfig;
    match ix
    case RefreshReserve(key, p, sp) =>
      var r := w.reserves[key];
      var u := StoreReserve(w, key, r.(liquidity := r.liquidity.(price := p, smoothedPrice := sp)), w.ledger[key]).value;
      RefreshLeaves(u, key, k);
    case DepositReserveLiquidity(key, amount) =>
      RefreshLeaves(w, key, k);
      DepositLeaves(RefreshInterest(w, key).value, key, amount, k);
    case RedeemReserveCollateral(key, amount) => RedeemLeaves(w, key, amount, true, k);
    case _ =>
  }

  lemma FlashStepsLeave(w: World, key: Pubkey, amount: u64, k: Pubkey)
    requires k != key
    ensures DoFlashBorrow(w, key, amount).Ok? ==> Leaves(w, DoFlashBorrow(w, key, amount).value, k)
    ensures DoFlashRepay(w, key, amount).Ok? ==> Leaves(w, DoFlashRepay(w, key, amount).value, k)
  {
    hide RefreshInterest, BorrowLiquidity, RepayLiquidity, CalculateFlashLoanFees, ReserveFits;
    if RefreshInterest(w, key).Ok? { RefreshLeaves(w, key, k); }
  }

  lemma DepositBothLeaves(w: World, id: nat, key: Pubkey, amount: u64, k: Pubkey)
    requires DoDepositBoth(w, id, key, amount).Ok? && k != key
    ensures Leaves(w, DoDepositBoth(w, id, key, amount).value, k)
  {
    hide RefreshInterest, DepositInner, DepositCollateralInner, Restale;
    RefreshLeaves(w, key, k);
    var t := RefreshInterest(w, key).value;
    DepositLeaves(t, key, amount, k);
    var (u, collateral) := DepositInner(t, key, amount).value;
    RefreshLeaves(u, key, k);
    var v := RefreshInterest(u, key).value;
    LockLeaves(v, id, key, collateral, k);
    RestaleLeaves(DepositCollateralInner(v, id, key, collateral).value, key, k);
  }

  lemma BorrowLeaves(w: World, id: nat, key: Pubkey, amount: u64, k: Pubkey)
    requires DoBorrow(w, id, key, amount).Ok? && k != key
    ensures Leaves(w, DoBorrow(w, id, key, amount).value, k)
  {
    hide CheckBorrow, PriceBorrow, MarketValueUpperBound, Update, LimiterFits, BorrowLiquidity, AddLoan, PayBorrow,
         ObligationFits, ReserveFits;
  }

  lemma RepayLeaves(w: World, id: nat, key: Pubkey, amount: u64, k: Pubkey)
    requires DoRepay(w, id, key, amount).Ok? && k != key
    ensures Leaves(w, DoRepay(w, id, key, amount).value, k)
  {
    hide RefreshInterest, AccrueLoan, FindLoan, CalculateRepay, RepayLiquidity, SettleLoan, ObligationFits, ReserveFits;
    RefreshLeaves(w, key, k);
  }

  lemma LiquidateLeaves(w: World, id: nat, repayKey: Pubkey, withdrawKey: Pubkey, amount: u64, k: Pubkey)
    requires DoLiquidate(w, id, repayKey, withdrawKey, amount).Ok? && k != repayKey && k != withdrawKey
    ensures Leaves(w, DoLiquidate(w, id, repayKey, withdrawKey, amount).value, k)
  {
    hide LiquidateInner, RefreshInterest, RedeemInner, ExchangeRate, LiquidityToCollateral, ProtocolLiquidationFee;
    SeizeLeaves(w, id, repayKey, withdrawKey, amount, k);
    var u := LiquidateInner(w, id, repayKey, withdrawKey, amount).value.0;
    RefreshLeaves(u, withdrawKey, k);
    var v := RefreshInterest(u, withdrawKey).value;
    var x := DoLiquidate(w, id, repayKey, withdrawKey, amount).value;
    forall collateral: u64 | RedeemInner(v, withdrawKey, collateral, false).Ok?
      ensures Leaves(v, RedeemInner(v, withdrawKey, collateral, false).value.0, k)
    {
      RedeemLeaves(v, withdrawKey, collateral, false, k);
    }
  }

  lemma SeizeLeaves(w: World, id: nat, repayKey: Pubkey, withdrawKey: Pubkey, amount: u64, k: Pubkey)
    requires LiquidateInner(w, id, repayKey, withdrawKey, amount).Ok? && k != repayKey && k != withdrawKey
    ensures Leaves(w, LiquidateInner(w, id, repayKey, withdrawKey, amount).value.0, k)
  {
    hide CalculateLiquidation, CheckLiquidation, RepayLiquidity, SettleLoan, WithdrawCollateral, ObligationFits,
         ReserveFits;
  }

  lemma ForgiveLeaves(w: World, id: nat, key: Pubkey, amount: u64, k: Pubkey)
    requires DoForgive(w, id, key, amount).Ok? && k != key
    ensures Leaves(w, DoForgive(w, id, key, amount).value, k)
  {
    hide ForgivenAmount, ForgiveDebt, SettleLoan, FindLoan, ObligationFits, ReserveFits;
  }

  lemma ObligationStepsLeave(w: World, id: nat, key: Pubkey, amount: u64, k: Pubkey)
    requires k != key
    ensures DoDepositCollateral(w, id, key, amount).Ok? ==> Leaves(w, DoDepositCollateral(w, id, key, amount).value, k)
    ensures DoWithdrawAndRedeem(w, id, key, amount).Ok? ==> Leaves(w, DoWithdrawAndRedeem(w, id, key, amount).value, k)
  {
    hide RefreshInterest, DepositCollateralInner, Restale, WithdrawInner, RedeemInner;
    if DoDepositCollateral(w, id, key, amount).Ok? {
      RefreshLeaves(w, key, k);
      var u := RefreshInterest(w, key).value;
      LockLeaves(u, id, key, amount, k);
      RestaleLeaves(DepositCollateralInner(u, id, key, amount).value, key, k);
    }
    if DoWithdrawAndRedeem(w, id, key, amount).Ok? {
      WithdrawLeaves(w, id, key, amount, true, k);
      var (u, collateral) := WithdrawInner(w, id, key, amount, true).value;
      RedeemLeaves(u, key, collateral, true, k);
    }
  }

  lemma StepLeaves(w: World, ix: Instruction, k: Pubkey)
    requires !Names(ix, k) && Step(w, ix).Ok?
    ensures Leaves(w, Step(w, ix).value, k)
  {
    hide DoInitReserve, DoRefreshReserve, DoDeposit, DoRedeem, DoDepositCollateral, DoDepositBoth, DoWithdrawAndRedeem,
         DoBorrow, DoRepay, DoLiquidate, DoRedeemFees, DoForgive, DoFlashBorrow, DoFlashRepay, DoUpdateConfig,
         WithdrawInner, Refresh, ObligationFits;
    match ix
    case DepositObligationCollateral(id, key, amount) => ObligationStepsLeave(w, id, key, amount, k);
    case DepositLiquidityAndCollateral(id, key, amount) => DepositBothLeaves(w, id, key, amount, k);
    case WithdrawObligationCollateral(id, key, amount) => WithdrawLeaves(w, id, key, amount, false, k);
    case WithdrawAndRedeem(id, key, amount) => ObligationStepsLeave(w, id, key, amount, k);
    case BorrowObligationLiquidity(id, key, amount) => BorrowLeaves(w, id, key, amount, k);
    case RepayObligationLiquidity(id, key, amount) => RepayLeaves(w, id, key, amount, k);
    case LiquidateAndRedeem(id, rk, wk, amount) => LiquidateLeaves(w, id, rk, wk, amount, k);
    case ForgiveObligationDebt(id, key, amount) => ForgiveLeaves(w, id, key, amount, k);
    case FlashBorrow(key, amount) => FlashStepsLeave(w, key, amount, k);
    case FlashRepay(key, amount, _) => FlashStepsLeave(w, key, amount, k);
    case Tick(_) =>
    case InitObligation =>
    case SetMarketConfig(_) =>
    case RefreshObligation(_) =>
    case _ => ReserveStepsLeave(w, ix, k);
  }
}
