/** The share price over whole runs of the lending program: depositing, borrowing, repaying, accruing
    interest, redeeming fees and flash loans never cost the holders of a reserve's collateral tokens
    anything; redeeming costs those who stay a bounded rounding error. */
module SharePrice {
  import opened FixedPoint
  import opened RateLimiters
  import opened ReserveConfigs
  import opened Reserves
  import opened Valuation
  import opened Obligations
  import opened BorrowingLimits
  import opened Liquidation
  import opened Lending
  import opened LendingSafety
  import opened ReserveSteps
  import opened LendingRuns

  /** As long as somebody holds tokens of the reserve, their price does not fall from `r` to `s`. */
  predicate HoldersKeep(r: Reserve, s: Reserve) {
    r.mintSupply > 0 && Net(r.liquidity) >= 0 ==>
      s.mintSupply > 0 && Net(s.liquidity) >= 0 && PriceKept(r, s)
  }

  predicate NobodyLoses(w: World, v: World) {
    forall k :: k in w.reserves ==> k in v.reserves && HoldersKeep(w.reserves[k], v.reserves[k])
  }

  lemma HoldersKeepSame(r: Reserve, s: Reserve)
    requires s.mintSupply == r.mintSupply && Net(r.liquidity) <= Net(s.liquidity)
    ensures HoldersKeep(r, s)
  {
    hide Net, PriceKept;
    MoreNetKeepsPrice(r, s);
  }

  lemma HoldersKeepTransitive(r: Reserve, s: Reserve, t: Reserve)
    requires HoldersKeep(r, s) && HoldersKeep(s, t)
    ensures HoldersKeep(r, t)
  {
    hide Net, PriceKept;
    if r.mintSupply > 0 && Net(r.liquidity) >= 0 { PriceKeptTransitive(r, s, t); }
  }

  lemma NobodyLosesTransitive(w: World, u: World, v: World)
    requires NobodyLoses(w, u) && NobodyLoses(u, v)
    ensures NobodyLoses(w, v)
  {
    hide HoldersKeep;
    forall k | k in w.reserves
      ensures k in v.reserves && HoldersKeep(w.reserves[k], v.reserves[k])
    {
      HoldersKeepTransitive(w.reserves[k], u.reserves[k], v.reserves[k]);
    }
  }

  lemma SameReserves(w: World, v: World)
    requires v.reserves == w.reserves
    ensures NobodyLoses(w, v)
  {
    hide HoldersKeep;
    forall k | k in w.reserves
      ensures HoldersKeep(w.reserves[k], v.reserves[k])
    {
      HoldersKeepSame(w.reserves[k], v.reserves[k]);
    }
  }

  lemma OneReserve(w: World, v: World, key: Pubkey, s: Reserve)
    requires key in w.reserves && v.reserves == w.reserves[key := s] && HoldersKeep(w.reserves[key], s)
    ensures NobodyLoses(w, v)
  {
    hide HoldersKeep;
    forall k | k in w.reserves
      ensures HoldersKeep(w.reserves[k], v.reserves[k])
    {
      HoldersKeepSame(w.reserves[k], w.reserves[k]);
    }
  }

  // ----- steps

  lemma RefreshKeeps(w: World, key: Pubkey)
    requires Safe(w) && RefreshInterest(w, key).Ok?
    ensures NobodyLoses(w, RefreshInterest(w, key).value)
  {
    hide Safe, AccrueInterest, HoldersKeep, ReserveFits, Net, Sane, LimiterOk;
    SafeReserve(w, key);
    RefreshInterestSafe(w, key);
    var s := AccrueInterest(w.reserves[key], w.slot).value;
    AccrueGrows(w.reserves[key], w.slot);
    var t := s.(lastUpdate := LastUpdate(w.slot, false));
    HoldersKeepSame(w.reserves[key], t);
    OneReserve(w, RefreshInterest(w, key).value, key, t);
  }

  lemma DepositKeeps(w: World, key: Pubkey, amount: u64)
    requires DepositInner(w, key, amount).Ok?
    ensures NobodyLoses(w, DepositInner(w, key, amount).value.0)
  {
    hide DepositLiquidity, HoldersKeep, ReserveFits, Net, TotalSupply, FloorU64, PriceKept;
    var r := w.reserves[key];
    var (s, c) := DepositLiquidity(r, amount).value;
    DepositHoldersKeep(r, amount);
    HoldersKeepSame(s, MarkStale(s));
    HoldersKeepTransitive(r, s, MarkStale(s));
    OneReserve(w, DepositInner(w, key, amount).value.0, key, MarkStale(s));
  }

  lemma DepositHoldersKeep(r: Reserve, amount: u64)
    requires DepositLiquidity(r, amount).Ok?
    ensures HoldersKeep(r, DepositLiquidity(r, amount).value.0)
  {
    hide DepositLiquidity, PriceKept, Net, ExchangeRate, LiquidityToCollateral;
    DepositEffect(r, amount);
    if r.mintSupply > 0 { DepositKeepsPrice(r, amount); }
  }

  lemma RestaleKeeps(w: World, key: Pubkey)
    requires Restale(w, key).Ok?
    ensures NobodyLoses(w, Restale(w, key).value)
  {
    hide HoldersKeep, ReserveFits, Net;
    HoldersKeepSame(w.reserves[key], MarkStale(w.reserves[key]));
    OneReserve(w, Restale(w, key).value, key, MarkStale(w.reserves[key]));
  }

  lemma RefreshReserveKeeps(w: World, key: Pubkey, price: Decimal, smoothed: Decimal)
    requires Safe(w) && DoRefreshReserve(w, key, price, smoothed).Ok?
    ensures NobodyLoses(w, DoRefreshReserve(w, key, price, smoothed).value)
  {
    var r := w.reserves[key];
    var s := r.(liquidity := r.liquidity.(price := price, smoothedPrice := smoothed));
    assert Net(s.liquidity) == Net(r.liquidity);
    hide Safe, HoldersKeep, ReserveFits, Net, RefreshInterest, Sane, LimiterOk;
    SafeReserve(w, key);
    HoldersKeepSame(r, s);
    var u := StoreReserve(w, key, s, w.ledger[key]).value;
    OneReserve(w, u, key, s);
    StoreSafe(w, key, s, w.ledger[key]);
    RefreshKeeps(u, key);
    NobodyLosesTransitive(w, u, RefreshInterest(u, key).value);
  }

  lemma DoDepositKeeps(w: World, key: Pubkey, amount: u64)
    requires Safe(w) && DoDeposit(w, key, amount).Ok?
    ensures NobodyLoses(w, DoDeposit(w, key, amount).value)
  {
    hide Safe, RefreshInterest, DepositInner, NobodyLoses;
    RefreshKeeps(w, key);
    var u := RefreshInterest(w, key).value;
    DepositKeeps(u, key, amount);
    NobodyLosesTransitive(w, u, DepositInner(u, key, amount).value.0);
  }

  lemma LockKeeps(w: World, id: nat, key: Pubkey, amount: u64)
    requires DepositCollateralInner(w, id, key, amount).Ok?
    ensures NobodyLoses(w, DepositCollateralInner(w, id, key, amount).value)
  {
    hide ObligationFits, NobodyLoses;
    SameReserves(w, DepositCollateralInner(w, id, key, amount).value);
  }

  lemma DepositCollateralKeeps(w: World, id: nat, key: Pubkey, amount: u64)
    requires Safe(w) && DoDepositCollateral(w, id, key, amount).Ok?
    ensures NobodyLoses(w, DoDepositCollateral(w, id, key, amount).value)
  {
    hide Safe, RefreshInterest, DepositCollateralInner, Restale, NobodyLoses;
    var u := RefreshInterest(w, key).value;
    RefreshKeeps(w, key);
    LockKeeps(u, id, key, amount);
    var v := DepositCollateralInner(u, id, key, amount).value;
    RestaleKeeps(v, key);
    NobodyLosesTransitive(w, u, v);
    NobodyLosesTransitive(w, v, Restale(v, key).value);
  }

  lemma DepositBothKeeps(w: World, id: nat, key: Pubkey, amount: u64)
    requires Safe(w) && DoDepositBoth(w, id, key, amount).Ok?
    ensures NobodyLoses(w, DoDepositBoth(w, id, key, amount).value)
  {
    hide Safe, RefreshInterest, DepositInner, DepositCollateralInner, Restale, NobodyLoses, OnlyReserve;
    RefreshInterestSafe(w, key);
    RefreshKeeps(w, key);
    var t := RefreshInterest(w, key).value;
    DepositInnerSafe(t, key, amount);
    DepositKeeps(t, key, amount);
    var (u, collateral) := DepositInner(t, key, amount).value;
    NobodyLosesTransitive(w, t, u);
    RefreshKeeps(u, key);
    var v := RefreshInterest(u, key).value;
    NobodyLosesTransitive(w, u, v);
    LockKeeps(v, id, key, collateral);
    var x := DepositCollateralInner(v, id, key, collateral).value;
    NobodyLosesTransitive(w, v, x);
    RestaleKeeps(x, key);
    NobodyLosesTransitive(w, x, Restale(x, key).value);
  }

  lemma WithdrawKeeps(w: World, id: nat, key: Pubkey, amount: u64, limited: bool)
    requires WithdrawInner(w, id, key, amount, limited).Ok?
    ensures NobodyLoses(w, WithdrawInner(w, id, key, amount, limited).value.0)
  {
    hide ObligationFits, NobodyLoses, MaxOutflowCollateral, MaxWithdrawAmount, WithdrawCollateral, FindDeposit;
    SameReserves(w, WithdrawInner(w, id, key, amount, limited).value.0);
  }

  lemma BorrowKeeps(w: World, id: nat, key: Pubkey, amount: u64)
    requires DoBorrow(w, id, key, amount).Ok?
    ensures NobodyLoses(w, DoBorrow(w, id, key, amount).value)
  {
    hide CheckBorrow, PriceBorrow, ValueAt, Update, LimiterFits, BorrowLiquidity, AddLoan, PayBorrow,
         ObligationFits, ReserveFits, NobodyLoses, Net, HoldersKeep;
    var r := w.reserves[key];
    var s := DoBorrow(w, id, key, amount).value.reserves[key];
    var remaining := CheckBorrow(w, w.obligations[id], r, key, amount).value;
    var t := PriceBorrow(w, r, amount, remaining).value.0;
    BorrowKeepsNet(r.liquidity, t.borrowAmount);
    HoldersKeepSame(r, s);
    OneReserve(w, DoBorrow(w, id, key, amount).value, key, s);
  }

  /** The repaid tokens cover the settled debt, also after rounding. */
  lemma RepaymentKeeps(w: World, key: Pubkey, repay: u64, settle: Decimal)
    requires key in w.reserves && key in w.ledger && RepayLiquidity(w.reserves[key].liquidity, repay, settle).Ok?
    requires settle <= FromInt(repay)
    requires var s := MarkStale(w.reserves[key].(liquidity := RepayLiquidity(w.reserves[key].liquidity, repay, settle).value));
             StoreReserve(w, key, s, w.ledger[key].Receive(repay)).Ok?
    ensures var s := MarkStale(w.reserves[key].(liquidity := RepayLiquidity(w.reserves[key].liquidity, repay, settle).value));
            NobodyLoses(w, StoreReserve(w, key, s, w.ledger[key].Receive(repay)).value)
  {
    hide RepayLiquidity, Net, HoldersKeep, ReserveFits, NobodyLoses;
    var r := w.reserves[key];
    RepayKeepsNet(r.liquidity, repay, settle);
    var s := MarkStale(r.(liquidity := RepayLiquidity(r.liquidity, repay, settle).value));
    HoldersKeepSame(r, s);
    OneReserve(w, StoreReserve(w, key, s, w.ledger[key].Receive(repay)).value, key, s);
  }

  lemma BookRepayKeeps(w: World, id: nat, key: Pubkey, i: nat, loan: Loan, amount: u64)
    requires id < |w.obligations| && i < |w.obligations[id].borrows| && key in w.reserves && key in w.ledger
    requires BookRepay(w, id, key, i, loan, amount).Ok?
    ensures NobodyLoses(w, BookRepay(w, id, key, i, loan, amount).value)
  {
    hide RepayLiquidity, StoreReserve, SettleLoan, ObligationFits, NobodyLoses;
    var t := CalculateRepay(amount, loan.borrowed).value;
    RepaymentKeeps(w, key, t.repayAmount, t.settleAmount);
    var l := RepayLiquidity(w.reserves[key].liquidity, t.repayAmount, t.settleAmount).value;
    var v := StoreReserve(w, key, MarkStale(w.reserves[key].(liquidity := l)), w.ledger[key].Receive(t.repayAmount)).value;
    SameReserves(v, BookRepay(w, id, key, i, loan, amount).value);
    NobodyLosesTransitive(w, v, BookRepay(w, id, key, i, loan, amount).value);
  }

  lemma RepayKeeps(w: World, id: nat, key: Pubkey, amount: u64)
    requires Safe(w) && DoRepay(w, id, key, amount).Ok?
    ensures NobodyLoses(w, DoRepay(w, id, key, amount).value)
  {
    hide Safe, RefreshInterest, AccrueLoan, FindLoan, BookRepay, NobodyLoses;
    RefreshKeeps(w, key);
    var u := RefreshInterest(w, key).value;
    var i := FindLiquidityInBorrows(u.obligations[id], key).value;
    var loan := AccrueLoan(u.obligations[id].borrows[i], u.reserves[key].liquidity.cumulativeRate).value;
    BookRepayKeeps(u, id, key, i, loan, amount);
    NobodyLosesTransitive(w, u, DoRepay(w, id, key, amount).value);
  }

  /** The repayment half of a liquidation. */
  lemma LiquidationRepayKeeps(w: World, id: nat, repayKey: Pubkey, withdrawKey: Pubkey, amount: u64)
    requires LiquidateInner(w, id, repayKey, withdrawKey, amount).Ok?
    ensures NobodyLoses(w, LiquidateInner(w, id, repayKey, withdrawKey, amount).value.0)
  {
    hide CalculateLiquidation, BookLiquidation, CheckLiquidation, NobodyLoses;
    var s, o := w.reserves[withdrawKey], w.obligations[id];
    var (i, j) := CheckLiquidation(o, repayKey, withdrawKey).value;
    var t := CalculateLiquidation(s.config, amount, o, o.borrows[i], o.deposits[j]).value;
    LiquidationRepaysInFull(s.config, amount, o, o.borrows[i], o.deposits[j]);
    BookLiquidationKeeps(w, id, repayKey, withdrawKey, i, j, t);
  }

  lemma BookLiquidationKeeps(w: World, id: nat, repayKey: Pubkey, withdrawKey: Pubkey, i: nat, j: nat, t: LiquidationTerms)
    requires repayKey in w.reserves && repayKey in w.ledger && withdrawKey in w.ledger && id < |w.obligations|
    requires i < |w.obligations[id].borrows| && j < |w.obligations[id].deposits|
    requires BookLiquidation(w, id, repayKey, withdrawKey, i, j, t).Ok? && t.settleAmount <= FromInt(t.repayAmount)
    ensures NobodyLoses(w, BookLiquidation(w, id, repayKey, withdrawKey, i, j, t).value)
  {
    hide RepayLiquidity, StoreReserve, SettleLoan, WithdrawCollateral, ObligationFits, NobodyLoses;
    RepaymentKeeps(w, repayKey, t.repayAmount, t.settleAmount);
    var l := RepayLiquidity(w.reserves[repayKey].liquidity, t.repayAmount, t.settleAmount).value;
    var v := StoreReserve(w, repayKey, MarkStale(w.reserves[repayKey].(liquidity := l)), w.ledger[repayKey].Receive(t.repayAmount)).value;
    SameReserves(v, BookLiquidation(w, id, repayKey, withdrawKey, i, j, t).value);
    NobodyLosesTransitive(w, v, BookLiquidation(w, id, repayKey, withdrawKey, i, j, t).value);
  }

  lemma RedeemFeesKeeps(w: World, key: Pubkey)
    requires DoRedeemFees(w, key).Ok?
    ensures NobodyLoses(w, DoRedeemFees(w, key).value)
  {
    hide RedeemFees, RedeemableFees, ReserveFits, NobodyLoses, Net, HoldersKeep;
    var r := w.reserves[key];
    RedeemFeesKeepsNet(r.liquidity, RedeemableFees(r.liquidity).value);
    var s := MarkStale(r.(liquidity := RedeemFees(r.liquidity, RedeemableFees(r.liquidity).value).value));
    HoldersKeepSame(r, s);
    OneReserve(w, DoRedeemFees(w, key).value, key, s);
  }

  lemma FlashBorrowKeeps(w: World, key: Pubkey, amount: u64)
    requires Safe(w) && DoFlashBorrow(w, key, amount).Ok?
    ensures NobodyLoses(w, DoFlashBorrow(w, key, amount).value)
  {
    hide Safe, RefreshInterest, BorrowLiquidity, ReserveFits, NobodyLoses, Net, HoldersKeep;
    RefreshKeeps(w, key);
    var u := RefreshInterest(w, key).value;
    var r := u.reserves[key];
    BorrowKeepsNet(r.liquidity, FromInt(amount));
    var s := MarkStale(r.(liquidity := BorrowLiquidity(r.liquidity, FromInt(amount)).value));
    HoldersKeepSame(r, s);
    var v := DoFlashBorrow(w, key, amount).value;
    OneReserve(u, v, key, s);
    NobodyLosesTransitive(w, u, v);
  }

  lemma FlashRepayKeeps(w: World, key: Pubkey, amount: u64)
    requires DoFlashRepay(w, key, amount).Ok?
    ensures NobodyLoses(w, DoFlashRepay(w, key, amount).value)
  {
    hide RepayLiquidity, StoreReserve, CalculateFlashLoanFees, NobodyLoses;
    RepaymentKeeps(w, key, amount, FromInt(amount));
  }

  lemma UpdateConfigKeeps(w: World, key: Pubkey, c: Config, limiter: LimiterConfig, signer: Signer)
    requires DoUpdateConfig(w, key, c, limiter, signer).Ok?
    ensures NobodyLoses(w, DoUpdateConfig(w, key, c, limiter, signer).value)
  {
    hide UpdateConfig, ReserveFits, NobodyLoses, Net, HoldersKeep;
    var s := DoUpdateConfig(w, key, c, limiter, signer).value.reserves[key];
    HoldersKeepSame(w.reserves[key], s);
    OneReserve(w, DoUpdateConfig(w, key, c, limiter, signer).value, key, s);
  }

  lemma InitReserveKeeps(w: World, key: Pubkey, amount: u64, c: Config, d: u8, price: Decimal, smoothed: Decimal)
    requires DoInitReserve(w, key, amount, c, d, price, smoothed).Ok?
    ensures NobodyLoses(w, DoInitReserve(w, key, amount, c, d, price, smoothed).value)
  {
    hide Validate, DepositLiquidity, HoldersKeep, ReserveFits;
    forall k | k in w.reserves
      ensures HoldersKeep(w.reserves[k], w.reserves[k])
    {
      HoldersKeepSame(w.reserves[k], w.reserves[k]);
    }
  }

  lemma RefreshObligationKeeps(w: World, id: nat)
    requires DoRefreshObligation(w, id).Ok?
    ensures NobodyLoses(w, DoRefreshObligation(w, id).value)
  {
    hide ObligationRefresh.Refresh, ObligationFits, NobodyLoses;
    SameReserves(w, DoRefreshObligation(w, id).value);
  }

  // ----- runs

  /** The instructions that pay out liquidity for collateral tokens or write debt off. */
  predicate TakesFromHolders(ix: Instruction) {
    ix.RedeemReserveCollateral? || ix.WithdrawAndRedeem? || ix.LiquidateAndRedeem? || ix.ForgiveObligationDebt?
  }

  lemma StepKeepsPrice(w: World, ix: Instruction)
    requires Safe(w) && Step(w, ix).Ok? && !TakesFromHolders(ix)
    ensures NobodyLoses(w, Step(w, ix).value)
  {
    hide Safe, NobodyLoses, DoInitReserve, DoRefreshReserve, DoDeposit, DoRedeem, DoRefreshObligation,
         DoDepositCollateral, DoDepositBoth, DoWithdraw, DoWithdrawAndRedeem, DoBorrow, DoRepay, DoLiquidate,
         DoRedeemFees, DoForgive, DoFlashBorrow, DoFlashRepay, DoUpdateConfig;
    match ix
    case Tick(slot) => SameReserves(w, w.(slot := slot));
    case InitReserve(key, amount, c, d, p, sp) => InitReserveKeeps(w, key, amount, c, d, p, sp);
    case InitObligation => SameReserves(w, Step(w, ix).value);
    case RefreshReserve(key, p, sp) => RefreshReserveKeeps(w, key, p, sp);
    case DepositReserveLiquidity(key, amount) => DoDepositKeeps(w, key, amount);
    case RefreshObligation(id) => RefreshObligationKeeps(w, id);
    case DepositObligationCollateral(id, key, amount) => DepositCollateralKeeps(w, id, key, amount);
    case DepositLiquidityAndCollateral(id, key, amount) => DepositBothKeeps(w, id, key, amount);
    case WithdrawObligationCollateral(id, key, amount) => DoWithdrawKeeps(w, id, key, amount);
    case BorrowObligationLiquidity(id, key, amount) => BorrowKeeps(w, id, key, amount);
    case RepayObligationLiquidity(id, key, amount) => RepayKeeps(w, id, key, amount);
    case RedeemProtocolFees(key) => RedeemFeesKeeps(w, key);
    case FlashBorrow(key, amount) => FlashBorrowKeeps(w, key, amount);
    case FlashRepay(key, amount, _) => FlashRepayKeeps(w, key, amount);
    case UpdateReserveConfig(key, c, l, signer) => UpdateConfigKeeps(w, key, c, l, signer);
    case SetMarketConfig(limiter) => SameReserves(w, DoSetMarket(w, limiter));
    case _ =>
  }

  lemma DoWithdrawKeeps(w: World, id: nat, key: Pubkey, amount: u64)
    requires DoWithdraw(w, id, key, amount).Ok?
    ensures NobodyLoses(w, DoWithdraw(w, id, key, amount).value)
  {
    hide WithdrawInner, NobodyLoses;
    WithdrawKeeps(w, id, key, amount, false);
  }

  /** Over every run of such instructions, failed ones included, the share price of every reserve
      with tokens outstanding never falls: M'·T <= M·T'. */
  lemma {:induction false} RunKeepsPrice(w: World, ixs: seq<Instruction>)
    requires Safe(w) && forall i :: 0 <= i < |ixs| ==> !TakesFromHolders(ixs[i])
    ensures NobodyLoses(w, Run(w, ixs))
  {
    hide Safe, Step, NobodyLoses, TakesFromHolders;
    if ixs == [] {
      SameReserves(w, w);
    } else {
      var front, ix := ixs[..|ixs| - 1], ixs[|ixs| - 1];
      var v := Run(w, front);
      RunKeepsSafe(w, front);
      RunKeepsPrice(w, front);
      if Step(v, ix).Ok? {
        StepKeepsPrice(v, ix);
        NobodyLosesTransitive(w, v, Step(v, ix).value);
      }
    }
  }

  /** Redeeming c tokens at the scaled rate e costs those who stay at most c·T / e. */
  lemma RedeemInnerLoss(w: World, key: Pubkey, collateral: u64, check: bool)
    requires RedeemInner(w, key, collateral, check).Ok? && Net(w.reserves[key].liquidity) > 0
    ensures key in w.reserves && key in RedeemInner(w, key, collateral, check).value.0.reserves
    ensures var r, s := w.reserves[key], RedeemInner(w, key, collateral, check).value.0.reserves[key];
      && ExchangeRate(r).Ok?
      && ExchangeRate(r).value * (s.mintSupply * Net(r.liquidity) - r.mintSupply * Net(s.liquidity))
           <= collateral * Net(r.liquidity)
  {
    var r := w.reserves[key];
    assert ExchangeRate(r).Ok?;
    var s := RedeemCollateral(r, collateral).value.0;
    var t := RedeemInner(w, key, collateral, check).value.0.reserves[key];
    assert s.mintSupply == t.mintSupply && s.liquidity == t.liquidity;
    hide RedeemCollateral, LimitRedeem, LimiterFits, ReserveFits, ExchangeRate, Net;
    RedeemLossBounded(r, collateral);
  }
}
