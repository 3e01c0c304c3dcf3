/** Limits are used only in the slot in which they were computed, and only once.

    A refresh stamps an obligation with the current slot; everything that changes the obligation marks it
    stale.  So whenever its limits decide something, they are those of a refresh in this very slot with
    nothing done to the obligation since. */
module Freshness {
  import opened Results
  import opened FixedPoint
  import opened RateLimiters
  import opened ReserveConfigs
  import opened Reserves
  import opened Valuation
  import opened Obligations
  import opened ObligationRefresh
  import opened BorrowingLimits
  import opened Liquidation
  import opened Lending
  import opened LendingSafety
  import opened LendingRuns

  predicate UpToDate(u: LastUpdate, now: u64) { !u.stale && u.slot == now }

  predicate ReserveUpToDate(w: World, key: Pubkey) { key in w.reserves && UpToDate(w.reserves[key].lastUpdate, w.slot) }

  predicate ObligationUpToDate(w: World, id: nat) {
    id < |w.obligations| && UpToDate(w.obligations[id].lastUpdate, w.slot)
  }

  /** An obligation that no longer counts, whatever the slot. */
  predicate Spent(w: World, id: nat) { id < |w.obligations| && w.obligations[id].lastUpdate.stale }

  lemma GuardMeans(u: LastUpdate, now: u64, error: Error)
    ensures NotStale(u, now, error).Ok? <==> UpToDate(u, now)
  {
  }

  // ----- what an instruction needs

  lemma WithdrawInnerNeeds(w: World, id: nat, key: Pubkey, amount: u64, limited: bool)
    requires WithdrawInner(w, id, key, amount, limited).Ok?
    ensures ObligationUpToDate(w, id) && ReserveUpToDate(w, key)
  {
    hide NotStale, MaxOutflowCollateral, MaxWithdrawAmount, WithdrawCollateral, ObligationFits, FindDeposit, UpToDate;
    GuardMeans(w.reserves[key].lastUpdate, w.slot, ReserveStale);
    GuardMeans(w.obligations[id].lastUpdate, w.slot, ObligationStale);
  }

  lemma WithdrawNeeds(w: World, id: nat, key: Pubkey, amount: u64)
    requires DoWithdraw(w, id, key, amount).Ok? || DoWithdrawAndRedeem(w, id, key, amount).Ok?
    ensures ObligationUpToDate(w, id) && ReserveUpToDate(w, key)
  {
    hide WithdrawInner, RedeemInner, UpToDate;
    if DoWithdraw(w, id, key, amount).Ok? {
      WithdrawInnerNeeds(w, id, key, amount, false);
    } else {
      WithdrawInnerNeeds(w, id, key, amount, true);
    }
  }

  lemma BorrowNeeds(w: World, id: nat, key: Pubkey, amount: u64)
    requires DoBorrow(w, id, key, amount).Ok?
    ensures ObligationUpToDate(w, id) && ReserveUpToDate(w, key)
  {
    hide CheckBorrow, PriceBorrow, MarketValueUpperBound, Update, LimiterFits, BorrowLiquidity, BookedBorrow, UpToDate;
    CheckBorrowNeeds(w, w.obligations[id], w.reserves[key], key, amount);
  }

  lemma CheckBorrowNeeds(w: World, o: Obligation, r: Reserve, key: Pubkey, amount: u64)
    requires CheckBorrow(w, o, r, key, amount).Ok?
    ensures UpToDate(o.lastUpdate, w.slot) && UpToDate(r.lastUpdate, w.slot)
  {
    hide NotStale, CheckBorrowLimit, CheckTier, UpToDate;
    GuardMeans(r.lastUpdate, w.slot, ReserveStale);
    GuardMeans(o.lastUpdate, w.slot, ObligationStale);
  }

  lemma LiquidateNeeds(w: World, id: nat, repayKey: Pubkey, withdrawKey: Pubkey, amount: u64)
    requires DoLiquidate(w, id, repayKey, withdrawKey, amount).Ok?
    ensures ObligationUpToDate(w, id) && ReserveUpToDate(w, repayKey) && ReserveUpToDate(w, withdrawKey)
  {
    hide NotStale, CheckLiquidation, CalculateLiquidation, BookLiquidation, RedeemSeized, UpToDate;
    GuardMeans(w.reserves[repayKey].lastUpdate, w.slot, ReserveStale);
    GuardMeans(w.reserves[withdrawKey].lastUpdate, w.slot, ReserveStale);
    GuardMeans(w.obligations[id].lastUpdate, w.slot, ObligationStale);
  }

  lemma ForgiveNeeds(w: World, id: nat, key: Pubkey, amount: u64)
    requires DoForgive(w, id, key, amount).Ok?
    ensures ObligationUpToDate(w, id) && ReserveUpToDate(w, key)
  {
    hide NotStale, ForgivenAmount, ForgiveDebt, SettleLoan, FindLoan, ReserveFits, ObligationFits, UpToDate;
    GuardMeans(w.reserves[key].lastUpdate, w.slot, ReserveStale);
    GuardMeans(w.obligations[id].lastUpdate, w.slot, ObligationStale);
  }

  lemma RedeemNeeds(w: World, key: Pubkey, amount: u64)
    requires DoRedeem(w, key, amount).Ok? || DoRedeemFees(w, key).Ok?
    ensures ReserveUpToDate(w, key)
  {
    hide NotStale, RedeemCollateral, LimitRedeem, LimiterFits, ReserveFits, RedeemableFees, RedeemFees, UpToDate;
    GuardMeans(w.reserves[key].lastUpdate, w.slot, ReserveStale);
  }

  /** The instructions that an obligation's limits or values decide. */
  predicate UsesLimits(ix: Instruction, id: nat) {
    match ix
    case WithdrawObligationCollateral(i, _, _) => i == id
    case WithdrawAndRedeem(i, _, _) => i == id
    case BorrowObligationLiquidity(i, _, _) => i == id
    case LiquidateAndRedeem(i, _, _, _) => i == id
    case ForgiveObligationDebt(i, _, _) => i == id
    case _ => false
  }

  /** They and the redemptions price what they move at a reserve's rate. */
  predicate UsesRate(ix: Instruction, key: Pubkey) {
    match ix
    case WithdrawObligationCollateral(_, k, _) => k == key
    case WithdrawAndRedeem(_, k, _) => k == key
    case BorrowObligationLiquidity(_, k, _) => k == key
    case LiquidateAndRedeem(_, rk, wk, _) => rk == key || wk == key
    case ForgiveObligationDebt(_, k, _) => k == key
    case RedeemReserveCollateral(k, _) => k == key
    case RedeemProtocolFees(k) => k == key
    case _ => false
  }

  /** None of them succeeds unless obligation and reserve are not stale and of the current slot. */
  lemma StepNeedsUpToDate(w: World, ix: Instruction)
    requires Step(w, ix).Ok?
    ensures forall id: nat :: UsesLimits(ix, id) ==> ObligationUpToDate(w, id)
    ensures forall key: Pubkey :: UsesRate(ix, key) ==> ReserveUpToDate(w, key)
  {
    hide ObligationUpToDate, ReserveUpToDate, DoInitReserve, DoRefreshReserve, DoDeposit, DoRedeem, DoRefreshObligation,
         DoDepositCollateral, DoDepositBoth, DoWithdraw, DoWithdrawAndRedeem, DoBorrow, DoRepay, DoLiquidate, DoRedeemFees,
         DoForgive, DoFlashBorrow, DoFlashRepay, DoUpdateConfig, DoSetMarket;
    match ix
    case WithdrawObligationCollateral(i, k, amount) => WithdrawNeeds(w, i, k, amount);
    case WithdrawAndRedeem(i, k, amount) => WithdrawNeeds(w, i, k, amount);
    case BorrowObligationLiquidity(i, k, amount) => BorrowNeeds(w, i, k, amount);
    case LiquidateAndRedeem(i, rk, wk, amount) => LiquidateNeeds(w, i, rk, wk, amount);
    case ForgiveObligationDebt(i, k, amount) => ForgiveNeeds(w, i, k, amount);
    case RedeemReserveCollateral(k, amount) => RedeemNeeds(w, k, amount);
    case RedeemProtocolFees(k) => RedeemNeeds(w, k, 0);
    case _ =>
  }

  /** A refresh needs every reserve that the obligation names to be up to date. */
  lemma RefreshNeeds(w: World, id: nat)
    requires DoRefreshObligation(w, id).Ok?
    ensures id < |w.obligations|
    ensures forall i :: 0 <= i < |w.obligations[id].deposits| ==> ReserveUpToDate(w, w.obligations[id].deposits[i].reserve)
    ensures forall i :: 0 <= i < |w.obligations[id].borrows| ==> ReserveUpToDate(w, w.obligations[id].borrows[i].reserve)
  {
    hide ValueDeposits, ValueLoans, ObligationFits, KeepDeposits, KeepLoans, Promote;
    var o := w.obligations[id];
    DepositsNeed(o.deposits, w.reserves, w.slot, |o.deposits|);
    LoansNeed(o.borrows, w.reserves, w.slot, |o.borrows|);
  }

  lemma LookupMeans(rs: ReserveMap, key: Pubkey, now: u64)
    ensures Lookup(rs, key, now).Ok? <==> key in rs && UpToDate(rs[key].lastUpdate, now)
  {
  }

  lemma {:induction false} DepositsNeed(ds: seq<Collateral>, rs: ReserveMap, now: u64, n: nat)
    requires n <= |ds| && ValueDeposits(ds, rs, now, n).Ok?
    ensures forall i :: 0 <= i < n ==> ds[i].reserve in rs && UpToDate(rs[ds[i].reserve].lastUpdate, now)
  {
    hide ValueDeposit, Lookup, UpToDate;
    if n > 0 {
      DepositsNeed(ds, rs, now, n - 1);
      LookupMeans(rs, ds[n - 1].reserve, now);
    }
  }

  lemma {:induction false} LoansNeed(bs: seq<Loan>, rs: ReserveMap, now: u64, n: nat)
    requires n <= |bs| && ValueLoans(bs, rs, now, n).Ok?
    ensures forall i :: 0 <= i < n ==> bs[i].reserve in rs && UpToDate(rs[bs[i].reserve].lastUpdate, now)
  {
    hide ValueLoan, Lookup, UpToDate;
    if n > 0 {
      LoansNeed(bs, rs, now, n - 1);
      LookupMeans(rs, bs[n - 1].reserve, now);
    }
  }

  // ----- what an instruction leaves

  /** The instructions that change an obligation, other than its refresh. */
  predicate Changes(ix: Instruction, id: nat) {
    match ix
    case DepositObligationCollateral(i, _, _) => i == id
    case DepositLiquidityAndCollateral(i, _, _) => i == id
    case RepayObligationLiquidity(i, _, _) => i == id
    case _ => UsesLimits(ix, id)
  }

  /** Of the obligations only `id` may differ. */
  predicate OthersSame(w: World, v: World, id: nat) {
    && v.slot == w.slot && |v.obligations| == |w.obligations|
    && forall j :: 0 <= j < |w.obligations| && j != id ==> v.obligations[j] == w.obligations[j]
  }

  /** ... and it has been marked stale. */
  predicate Marks(w: World, v: World, id: nat) { OthersSame(w, v, id) && Spent(v, id) }

  lemma StoreMarks(w: World, v: World, id: nat, o: Obligation)
    requires id < |w.obligations| && StoreObligation(w, id, Touched(o)) == Ok(v)
    ensures Marks(w, v, id)
  {
    hide ObligationFits;
  }

  lemma LockMarks(w: World, v: World, id: nat, key: Pubkey, amount: u64)
    requires DepositCollateralInner(w, id, key, amount) == Ok(v)
    ensures Marks(w, v, id)
  {
    hide DepositCollateral, NotStale, ObligationFits;
  }

  lemma RefreshInterestSame(w: World, v: World, key: Pubkey)
    requires RefreshInterest(w, key) == Ok(v)
    ensures v.obligations == w.obligations && v.slot == w.slot
  {
    hide AccrueInterest, ReserveFits;
  }

  lemma RestaleSame(w: World, v: World, key: Pubkey)
    requires Restale(w, key) == Ok(v)
    ensures v.obligations == w.obligations && v.slot == w.slot
  {
    hide ReserveFits;
  }

  lemma RedeemSame(w: World, key: Pubkey, amount: u64, check: bool)
    requires RedeemInner(w, key, amount, check).Ok?
    ensures var v := RedeemInner(w, key, amount, check).value.0; v.obligations == w.obligations && v.slot == w.slot
  {
    hide RedeemCollateral, LimitRedeem, LimiterFits, ReserveFits, NotStale;
  }

  lemma DepositSame(w: World, key: Pubkey, amount: u64)
    requires DepositInner(w, key, amount).Ok?
    ensures var v := DepositInner(w, key, amount).value.0; v.obligations == w.obligations && v.slot == w.slot
  {
    hide TotalSupply, FloorU64, DepositLiquidity, ReserveFits, NotStale;
  }

  lemma DepositCollateralMarks(w: World, v: World, id: nat, key: Pubkey, amount: u64)
    requires DoDepositCollateral(w, id, key, amount) == Ok(v)
    ensures Marks(w, v, id)
  {
    hide RefreshInterest, DepositCollateralInner, Restale;
    var u := RefreshInterest(w, key).value;
    var x := DepositCollateralInner(u, id, key, amount).value;
    RefreshInterestSame(w, u, key);
    LockMarks(u, x, id, key, amount);
    RestaleSame(x, v, key);
  }

  lemma DepositBothMarks(w: World, v: World, id: nat, key: Pubkey, amount: u64)
    requires DoDepositBoth(w, id, key, amount) == Ok(v)
    ensures Marks(w, v, id)
  {
    hide RefreshInterest, DepositInner, DepositCollateralInner, Restale;
    var t := RefreshInterest(w, key).value;
    RefreshInterestSame(w, t, key);
    DepositSame(t, key, amount);
    var (u, minted) := DepositInner(t, key, amount).value;
    var x := RefreshInterest(u, key).value;
    RefreshInterestSame(u, x, key);
    var y := DepositCollateralInner(x, id, key, minted).value;
    LockMarks(x, y, id, key, minted);
    RestaleSame(y, v, key);
  }

  lemma WithdrawInnerMarks(w: World, id: nat, key: Pubkey, amount: u64, limited: bool)
    requires WithdrawInner(w, id, key, amount, limited).Ok?
    ensures Marks(w, WithdrawInner(w, id, key, amount, limited).value.0, id)
  {
    hide MaxOutflowCollateral, MaxWithdrawAmount, WithdrawCollateral, ObligationFits, FindDeposit, NotStale;
  }

  lemma WithdrawMarks(w: World, id: nat, key: Pubkey, amount: u64)
    ensures DoWithdraw(w, id, key, amount).Ok? ==> Marks(w, DoWithdraw(w, id, key, amount).value, id)
    ensures DoWithdrawAndRedeem(w, id, key, amount).Ok? ==> Marks(w, DoWithdrawAndRedeem(w, id, key, amount).value, id)
  {
    hide WithdrawInner, RedeemInner;
    if DoWithdraw(w, id, key, amount).Ok? { WithdrawInnerMarks(w, id, key, amount, false); }
    if DoWithdrawAndRedeem(w, id, key, amount).Ok? {
      WithdrawInnerMarks(w, id, key, amount, true);
      var (u, collateral) := WithdrawInner(w, id, key, amount, true).value;
      RedeemSame(u, key, collateral, true);
    }
  }

  lemma BorrowMarks(w: World, v: World, id: nat, key: Pubkey, amount: u64)
    requires DoBorrow(w, id, key, amount) == Ok(v)
    ensures Marks(w, v, id)
  {
    hide CheckBorrow, PriceBorrow, MarketValueUpperBound, Update, LimiterFits, BorrowLiquidity, AddLoan, PayBorrow,
         ReserveFits, ObligationFits;
  }

  lemma RepayMarks(w: World, v: World, id: nat, key: Pubkey, amount: u64)
    requires DoRepay(w, id, key, amount) == Ok(v)
    ensures Marks(w, v, id)
  {
    hide RefreshInterest, AccrueLoan, FindLoan, CalculateRepay, RepayLiquidity, SettleLoan, ReserveFits, ObligationFits;
    RefreshInterestSame(w, RefreshInterest(w, key).value, key);
  }

  lemma LiquidateMarks(w: World, v: World, id: nat, repayKey: Pubkey, withdrawKey: Pubkey, amount: u64)
    requires DoLiquidate(w, id, repayKey, withdrawKey, amount) == Ok(v)
    ensures Marks(w, v, id)
  {
    hide LiquidateInner, RedeemSeized;
    var (u, seized, bonusRate) := LiquidateInner(w, id, repayKey, withdrawKey, amount).value;
    SettleMarks(w, id, repayKey, withdrawKey, amount);
    SeizeSame(u, v, withdrawKey, seized, bonusRate);
  }

  lemma SettleMarks(w: World, id: nat, repayKey: Pubkey, withdrawKey: Pubkey, amount: u64)
    requires LiquidateInner(w, id, repayKey, withdrawKey, amount).Ok?
    ensures Marks(w, LiquidateInner(w, id, repayKey, withdrawKey, amount).value.0, id)
  {
    hide NotStale, CheckLiquidation, CalculateLiquidation, RepayLiquidity, SettleLoan, WithdrawCollateral, ReserveFits,
         ObligationFits;
  }

  lemma SeizeSame(w: World, v: World, key: Pubkey, seized: u64, bonusRate: Decimal)
    requires RedeemSeized(w, key, seized, bonusRate) == Ok(v)
    ensures v.obligations == w.obligations && v.slot == w.slot
  {
    hide RefreshInterest, ExchangeRate, LiquidityToCollateral, RedeemInner, ProtocolLiquidationFee;
    var u := RefreshInterest(w, key).value;
    RefreshInterestSame(w, u, key);
    var c := Min(seized, LiquidityToCollateral(ExchangeRate(u.reserves[key]).value, u.reserves[key].liquidity.available).value);
    if c > 0 { RedeemSame(u, key, c, false); }
  }

  lemma ForgiveMarks(w: World, v: World, id: nat, key: Pubkey, amount: u64)
    requires DoForgive(w, id, key, amount) == Ok(v)
    ensures Marks(w, v, id)
  {
    hide NotStale, ForgivenAmount, ForgiveDebt, SettleLoan, FindLoan, ReserveFits, ObligationFits;
  }

  /** Every instruction that changes an obligation marks it stale and leaves all others alone. */
  lemma ChangeMarks(w: World, ix: Instruction, id: nat)
    requires Step(w, ix).Ok? && Changes(ix, id)
    ensures Marks(w, Step(w, ix).value, id)
  {
    hide Marks, DoInitReserve, DoRefreshReserve, DoDeposit, DoRedeem, DoRefreshObligation, DoDepositCollateral, DoDepositBoth,
         DoWithdraw, DoWithdrawAndRedeem, DoBorrow, DoRepay, DoLiquidate, DoRedeemFees, DoForgive, DoFlashBorrow,
         DoFlashRepay, DoUpdateConfig, DoSetMarket;
    match ix
    case DepositObligationCollateral(i, k, amount) => DepositCollateralMarks(w, Step(w, ix).value, i, k, amount);
    case DepositLiquidityAndCollateral(i, k, amount) => DepositBothMarks(w, Step(w, ix).value, i, k, amount);
    case RepayObligationLiquidity(i, k, amount) => RepayMarks(w, Step(w, ix).value, i, k, amount);
    case WithdrawObligationCollateral(i, k, amount) => WithdrawMarks(w, i, k, amount);
    case WithdrawAndRedeem(i, k, amount) => WithdrawMarks(w, i, k, amount);
    case BorrowObligationLiquidity(i, k, amount) => BorrowMarks(w, Step(w, ix).value, i, k, amount);
    case LiquidateAndRedeem(i, rk, wk, amount) => LiquidateMarks(w, Step(w, ix).value, i, rk, wk, amount);
    case ForgiveObligationDebt(i, k, amount) => ForgiveMarks(w, Step(w, ix).value, i, k, amount);
    case _ =>
  }

  // ----- over runs

  /** An instruction that neither changes nor refreshes an obligation leaves it exactly as it was. */
  lemma NoChangeKeeps(w: World, ix: Instruction, id: nat)
    requires id < |w.obligations| && Step(w, ix).Ok? && !Changes(ix, id) && ix != RefreshObligation(id)
    ensures var v := Step(w, ix).value;
      && id < |v.obligations| && v.obligations[id] == w.obligations[id]
      && if ix.Tick? then w.slot <= v.slot else v.slot == w.slot
  {
    if exists j :: Changes(ix, j) {
      var j :| Changes(ix, j);
      OtherChangeKeeps(w, ix, id, j);
    } else {
      hide Changes, UsesLimits;
      QuietKeeps(w, ix, id);
    }
  }

  lemma OtherChangeKeeps(w: World, ix: Instruction, id: nat, j: nat)
    requires id < |w.obligations| && Step(w, ix).Ok? && Changes(ix, j) && j != id
    ensures !ix.Tick?
    ensures var v := Step(w, ix).value; id < |v.obligations| && v.obligations[id] == w.obligations[id] && v.slot == w.slot
  {
    ChangeMarks(w, ix, j);
    hide Step;
  }

  lemma DepositingSame(w: World, v: World, key: Pubkey, amount: u64)
    requires DoDeposit(w, key, amount) == Ok(v)
    ensures v.obligations == w.obligations && v.slot == w.slot
  {
    hide RefreshInterest, DepositInner;
    RefreshInterestSame(w, RefreshInterest(w, key).value, key);
    DepositSame(RefreshInterest(w, key).value, key, amount);
  }

  lemma PricingSame(w: World, v: World, key: Pubkey, price: Decimal, smoothed: Decimal)
    requires DoRefreshReserve(w, key, price, smoothed) == Ok(v)
    ensures v.obligations == w.obligations && v.slot == w.slot
  {
    hide RefreshInterest, ReserveFits;
    var r := w.reserves[key];
    var u := StoreReserve(w, key, r.(liquidity := r.liquidity.(price := price, smoothedPrice := smoothed)), w.ledger[key]).value;
    RefreshInterestSame(u, v, key);
  }

  lemma FlashSame(w: World, key: Pubkey, amount: u64)
    ensures DoFlashBorrow(w, key, amount).Ok? ==>
      var v := DoFlashBorrow(w, key, amount).value; v.obligations == w.obligations && v.slot == w.slot
    ensures DoFlashRepay(w, key, amount).Ok? ==>
      var v := DoFlashRepay(w, key, amount).value; v.obligations == w.obligations && v.slot == w.slot
  {
    hide RefreshInterest, BorrowLiquidity, RepayLiquidity, CalculateFlashLoanFees, ReserveFits;
    if RefreshInterest(w, key).Ok? { RefreshInterestSame(w, RefreshInterest(w, key).value, key); }
  }

  lemma FeesSame(w: World, v: World, key: Pubkey)
    requires DoRedeemFees(w, key) == Ok(v)
    ensures v.obligations == w.obligations && v.slot == w.slot
  {
    hide NotStale, RedeemableFees, RedeemFees, ReserveFits;
  }

  lemma ConfigSame(w: World, v: World, key: Pubkey, c: Config, limiter: LimiterConfig, signer: Signer)
    requires DoUpdateConfig(w, key, c, limiter, signer) == Ok(v)
    ensures v.obligations == w.obligations && v.slot == w.slot
  {
    hide UpdateConfig, ReserveFits;
  }

  lemma InitSame(w: World, v: World, key: Pubkey, amount: u64, c: Config, d: u8, price: Decimal, smoothed: Decimal)
    requires DoInitReserve(w, key, amount, c, d, price, smoothed) == Ok(v)
    ensures v.obligations == w.obligations && v.slot == w.slot
  {
    hide Validate, DepositLiquidity, ReserveFits;
  }

  lemma RefreshSame(w: World, v: World, i: nat, id: nat)
    requires DoRefreshObligation(w, i) == Ok(v) && id < |w.obligations| && i != id
    ensures id < |v.obligations| && v.obligations[id] == w.obligations[id] && v.slot == w.slot
  {
    hide Refresh, ObligationFits;
  }

  predicate Quiet(ix: Instruction) {
    || ix.Tick? || ix.InitReserve? || ix.RefreshReserve? || ix.DepositReserveLiquidity? || ix.RedeemReserveCollateral?
    || ix.RedeemProtocolFees? || ix.FlashBorrow? || ix.FlashRepay? || ix.UpdateReserveConfig? || ix.SetMarketConfig?
  }

  lemma QuietSame(w: World, ix: Instruction)
    requires Step(w, ix).Ok? && Quiet(ix)
    ensures var v := Step(w, ix).value; v.obligations == w.obligations && if ix.Tick? then w.slot <= v.slot else v.slot == w.slot
  {
    hide DoInitReserve, DoRefreshReserve, DoDeposit, RedeemInner, DoRedeemFees, DoFlashBorrow, DoFlashRepay, DoUpdateConfig;
    match ix
    case InitReserve(key, amount, c, d, p, sp) => InitSame(w, Step(w, ix).value, key, amount, c, d, p, sp);
    case RefreshReserve(key, p, sp) => PricingSame(w, Step(w, ix).value, key, p, sp);
    case DepositReserveLiquidity(key, amount) => DepositingSame(w, Step(w, ix).value, key, amount);
    case RedeemReserveCollateral(key, amount) => RedeemSame(w, key, amount, true);
    case RedeemProtocolFees(key) => FeesSame(w, Step(w, ix).value, key);
    case FlashBorrow(key, amount) => FlashSame(w, key, amount);
    case FlashRepay(key, amount, _) => FlashSame(w, key, amount);
    case UpdateReserveConfig(key, c, l, signer) => ConfigSame(w, Step(w, ix).value, key, c, l, signer);
    case _ =>
  }

  lemma QuietKeeps(w: World, ix: Instruction, id: nat)
    requires id < |w.obligations| && Step(w, ix).Ok? && ix != RefreshObligation(id)
    requires forall j :: !Changes(ix, j)
    ensures var v := Step(w, ix).value;
      && id < |v.obligations| && v.obligations[id] == w.obligations[id]
      && if ix.Tick? then w.slot <= v.slot else v.slot == w.slot
  {
    OnlyQuiet(ix);
    if Quiet(ix) {
      hide Changes, Step;
      QuietSame(w, ix);
    } else if ix.RefreshObligation? {
      hide DoRefreshObligation, Changes;
      RefreshSame(w, Step(w, ix).value, ix.id, id);
    }
  }

  lemma OnlyQuiet(ix: Instruction)
    requires forall j :: !Changes(ix, j)
    ensures Quiet(ix) || ix.InitObligation? || ix.RefreshObligation?
  {
    match ix
    case DepositObligationCollateral(i, _, _) => assert Changes(ix, i);
    case DepositLiquidityAndCollateral(i, _, _) => assert Changes(ix, i);
    case RepayObligationLiquidity(i, _, _) => assert Changes(ix, i);
    case WithdrawObligationCollateral(i, _, _) => assert Changes(ix, i);
    case WithdrawAndRedeem(i, _, _) => assert Changes(ix, i);
    case BorrowObligationLiquidity(i, _, _) => assert Changes(ix, i);
    case LiquidateAndRedeem(i, _, _, _) => assert Changes(ix, i);
    case ForgiveObligationDebt(i, _, _) => assert Changes(ix, i);
    case _ =>
  }

  /** Once stale, an obligation stays stale until it is refreshed. */
  lemma {:induction false} SpentStays(w: World, ixs: seq<Instruction>, id: nat)
    requires Spent(w, id) && RefreshObligation(id) !in ixs
    ensures Spent(Run(w, ixs), id)
  {
    if ixs != [] {
      var front, ix := ixs[..|ixs| - 1], ixs[|ixs| - 1];
      hide Step, Changes;
      SpentStays(w, front, id);
      var v := Run(w, front);
      if Step(v, ix).Ok? {
        if Changes(ix, id) { ChangeMarks(v, ix, id); } else { NoChangeKeeps(v, ix, id); }
      }
    }
  }

  /** After a borrow, withdrawal, deposit, repayment, liquidation or write-off, nothing that an obligation's
      limits decide goes through before its next refresh - in this slot or any later one. */
  lemma LimitsAreUsedOnce(w: World, change: Instruction, ixs: seq<Instruction>, use: Instruction, id: nat)
    requires Step(w, change).Ok? && Changes(change, id) && RefreshObligation(id) !in ixs && UsesLimits(use, id)
    ensures Step(Run(Step(w, change).value, ixs), use).Err?
  {
    hide Step, Changes, UsesLimits;
    ChangeMarks(w, change, id);
    var v := Step(w, change).value;
    SpentStays(v, ixs, id);
    if Step(Run(v, ixs), use).Ok? { StepNeedsUpToDate(Run(v, ixs), use); }
  }

  /** A refresh of `id` that succeeded after the first `i` instructions. */
  predicate RefreshedBy(w: World, ixs: seq<Instruction>, id: nat, i: nat) {
    i < |ixs| && ixs[i] == RefreshObligation(id) && DoRefreshObligation(Run(w, ixs[..i]), id).Ok?
  }

  lemma StampWithinSlot(w: World, id: nat)
    requires Safe(w) && id < |w.obligations|
    ensures w.obligations[id].lastUpdate.slot <= w.slot
  {
    hide ReserveOk, LimiterOk, ListsOk, ObligationFits, LoansOk, DepositsKnown, LoansFresh, TotalDeposited;
  }

  /** A step after which an obligation is up to date refreshed it, or found it so and left it so. */
  lemma UpToDateBefore(w: World, ix: Instruction, id: nat)
    requires Safe(w) && Step(w, ix).Ok? && ObligationUpToDate(Step(w, ix).value, id) && ix != RefreshObligation(id)
    ensures ObligationUpToDate(w, id)
    ensures var v := Step(w, ix).value; v.slot == w.slot && v.obligations[id] == w.obligations[id]
  {
    if id < |w.obligations| {
      hide Safe, Changes;
      if Changes(ix, id) { ChangeMarks(w, ix, id); } else {
        StampWithinSlot(w, id);
        NoChangeKeeps(w, ix, id);
      }
    } else {
      NewIsStale(w, ix, id);
    }
  }

  lemma NewIsStale(w: World, ix: Instruction, id: nat)
    requires Step(w, ix).Ok? && id >= |w.obligations| && ix != RefreshObligation(id)
    ensures !ObligationUpToDate(Step(w, ix).value, id)
  {
    if ix.InitObligation? {
    } else if ix.RefreshObligation? {
      hide Refresh, ObligationFits;
    } else {
      if exists j :: Changes(ix, j) {
        var j :| Changes(ix, j);
        ChangeMarks(w, ix, j);
      } else {
        OnlyQuiet(ix);
        QuietSame(w, ix);
      }
      hide Step, Changes;
    }
  }

  lemma RefreshIs(w: World, v: World, id: nat)
    requires DoRefreshObligation(w, id) == Ok(v)
    ensures id < |w.obligations| == |v.obligations| && v.slot == w.slot
    ensures Refresh(w.obligations[id], w.reserves, w.slot) == Ok(v.obligations[id])
  {
    hide Refresh, ObligationFits;
  }

  /** Whenever an obligation is up to date, it is exactly what its last refresh made of it, in this very
      slot. */
  lemma {:induction false} LimitsAreOfThisSlot(w: World, ixs: seq<Instruction>, id: nat) returns (i: nat)
    requires Safe(w) && !ObligationUpToDate(w, id) && ObligationUpToDate(Run(w, ixs), id)
    ensures RefreshedBy(w, ixs, id, i)
    ensures var x, v := Run(w, ixs[..i]), Run(w, ixs);
      && x.slot == v.slot && id < |v.obligations|
      && id < |x.obligations| && Refresh(x.obligations[id], x.reserves, x.slot) == Ok(v.obligations[id])
  {
    hide Safe, Step, Refresh, DoRefreshObligation;
    assert ixs != [];
    var n := |ixs| - 1;
    var u, ix := Run(w, ixs[..n]), ixs[n];
    RunKeepsSafe(w, ixs[..n]);
    if Step(u, ix).Ok? && ix == RefreshObligation(id) {
      i := n;
      RefreshStepIs(u, id);
      RefreshIs(u, Step(u, ix).value, id);
    } else {
      if Step(u, ix).Ok? { UpToDateBefore(u, ix, id); }
      i := LimitsAreOfThisSlot(w, ixs[..n], id);
      assert ixs[..n][..i] == ixs[..i];
    }
  }

  lemma RefreshStepIs(w: World, id: nat)
    ensures Step(w, RefreshObligation(id)) == DoRefreshObligation(w, id)
  {
    hide DoRefreshObligation;
  }
}
