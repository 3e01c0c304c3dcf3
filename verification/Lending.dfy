/** The lending program's instructions (token-lending/program/src/processor.rs) as steps of one state
    machine: a market limiter, reserves, obligations, and a ledger of the tokens the program holds.

    Account ownership, signer and address checks are not part of a step; the market's limiter, the
    reserve and the obligation an instruction names stand for the accounts it was given.  An
    instruction that fails anywhere leaves the whole state unchanged. */
module Lending {
  import opened Results
  import opened FixedPoint
  import opened RateLimiters
  import opened ReserveConfigs
  import opened Reserves
  import opened Valuation
  import opened Obligations
  import opened ObligationRefresh
  import opened BorrowingLimits
  import opened Liquidation

  /** The tokens of one reserve: liquidity in its vault, collateral tokens in its vault, and
      collateral tokens in everybody's hands. */
  datatype Ledger = Ledger(liquidity: nat, collateral: nat, held: nat) {
    function Receive(amount: nat): Ledger { this.(liquidity := liquidity + amount) }

    function Pay(amount: nat): Result<Ledger> {
      if amount <= liquidity then Ok(this.(liquidity := liquidity - amount)) else Err(TokenTransferFailed)
    }

    function Mint(amount: nat): Ledger { this.(held := held + amount) }

    function Burn(amount: nat): Result<Ledger> {
      if amount <= held then Ok(this.(held := held - amount)) else Err(TokenBurnFailed)
    }

    /** A user's collateral tokens move into the vault; the users may not have as many. */
    function Lock(amount: nat): Result<Ledger> {
      if amount <= held then Ok(this.(collateral := collateral + amount, held := held - amount)) else Err(TokenBurnFailed)
    }

    function Unlock(amount: nat): Result<Ledger> {
      if amount <= collateral then Ok(this.(collateral := collateral - amount, held := held + amount))
      else Err(TokenTransferFailed)
    }
  }

  datatype World = World(
    slot: u64, market: Limiter, reserves: ReserveMap, obligations: seq<Obligation>, ledger: map<Pubkey, Ledger>)

  datatype Instruction =
    | Tick(slot: u64)
    | InitReserve(key: Pubkey, amount: u64, config: Config, decimals: u8, price: Decimal, smoothedPrice: Decimal)
    | InitObligation
    | RefreshReserve(key: Pubkey, price: Decimal, smoothedPrice: Decimal)
    | DepositReserveLiquidity(key: Pubkey, amount: u64)
    | RedeemReserveCollateral(key: Pubkey, amount: u64)
    | RefreshObligation(id: nat)
    | DepositObligationCollateral(id: nat, key: Pubkey, amount: u64)
    | DepositLiquidityAndCollateral(id: nat, key: Pubkey, amount: u64)
    | WithdrawObligationCollateral(id: nat, key: Pubkey, amount: u64)
    | WithdrawAndRedeem(id: nat, key: Pubkey, amount: u64)
    | BorrowObligationLiquidity(id: nat, key: Pubkey, amount: u64)
    | RepayObligationLiquidity(id: nat, key: Pubkey, amount: u64)
    | LiquidateAndRedeem(id: nat, repayKey: Pubkey, withdrawKey: Pubkey, amount: u64)
    | RedeemProtocolFees(key: Pubkey)
    | ForgiveObligationDebt(id: nat, key: Pubkey, amount: u64)
    | FlashBorrow(key: Pubkey, amount: u64)
    | FlashRepay(key: Pubkey, amount: u64, borrowIndex: u8)
    | UpdateReserveConfig(key: Pubkey, config: Config, limiter: LimiterConfig, signer: Signer)
    | SetMarketConfig(limiter: LimiterConfig)

  // ----- accounts

  function LimiterFits(l: Limiter): bool { l.prevQty < U128 && l.curQty < U128 }

  /** `pack_decimal` panics on a value above 128 bits. */
  function ReserveFits(r: Reserve): bool {
    && r.liquidity.borrowed < U128 && r.liquidity.cumulativeRate < U128 && r.liquidity.fees < U128
    && r.liquidity.price < U128 && r.liquidity.smoothedPrice < U128 && LimiterFits(r.limiter)
  }

  function ObligationFits(o: Obligation): bool {
    && o.depositedValue < U128 && o.borrowedValue < U128 && o.borrowedValueUpperBound < U128
    && o.allowedBorrowValue < U128 && o.unhealthyBorrowValue < U128 && o.superUnhealthyBorrowValue < U128
    && (forall i :: 0 <= i < |o.deposits| ==> o.deposits[i].marketValue < U128)
    && (forall i :: 0 <= i < |o.borrows| ==>
          o.borrows[i].cumulativeRate < U128 && o.borrows[i].borrowed < U128 && o.borrows[i].marketValue < U128)
  }

  function LoadReserve(w: World, key: Pubkey): (r: Result<Reserve>)
    ensures r.Ok? ==> key in w.reserves && key in w.ledger && w.reserves[key] == r.value
  {
    if key in w.reserves && key in w.ledger then Ok(w.reserves[key]) else Err(InvalidAccountInput)
  }

  function LoadObligation(w: World, id: nat): (o: Result<Obligation>)
    ensures o.Ok? ==> id < |w.obligations| && w.obligations[id] == o.value
  {
    if id < |w.obligations| then Ok(w.obligations[id]) else Err(InvalidAccountInput)
  }

  /** Pack a reserve and settle its ledger. */
  function StoreReserve(w: World, key: Pubkey, r: Reserve, v: Ledger): Result<World> {
    if ReserveFits(r) then Ok(w.(reserves := w.reserves[key := r], ledger := w.ledger[key := v])) else Err(Panic)
  }

  function StoreObligation(w: World, id: nat, o: Obligation): Result<World>
    requires id < |w.obligations|
  {
    if ObligationFits(o) then Ok(w.(obligations := w.obligations[id := o])) else Err(Panic)
  }

  function MarkStale(r: Reserve): Reserve { r.(lastUpdate := r.lastUpdate.MarkStale()) }

  function Touched(o: Obligation): Obligation { o.(lastUpdate := o.lastUpdate.MarkStale()) }

  function NotStale(u: LastUpdate, now: u64, error: Error): Result<()> {
    var stale :- u.IsStale(now);
    Guard(!stale, error)
  }

  // ----- reserves

  /** `_refresh_reserve_interest` */
  function RefreshInterest(w: World, key: Pubkey): Result<World> {
    var r :- LoadReserve(w, key);
    var s :- AccrueInterest(r, w.slot);
    StoreReserve(w, key, s.(lastUpdate := LastUpdate(w.slot, false)), w.ledger[key])
  }

  function DoInitReserve(w: World, key: Pubkey, amount: u64, c: Config, decimals: u8, price: Decimal, smoothed: Decimal): Result<World> {
    var _ :- Guard(amount != 0, InvalidAmount);
    var _ :- Validate(c);
    var _ :- Guard(key !in w.reserves && key !in w.ledger, InvalidAccountInput);
    var empty := Reserve(LastUpdate(w.slot, true), Liquidity(decimals, 0, 0, WAD, 0, price, smoothed), 0, c,
                         New(LimiterConfig(0, 0), w.slot));
    var (r, collateral) :- DepositLiquidity(empty, amount);
    StoreReserve(w, key, r, Ledger(amount, 0, collateral))
  }

  function DoRefreshReserve(w: World, key: Pubkey, price: Decimal, smoothed: Decimal): Result<World> {
    var r :- LoadReserve(w, key);
    var priced :- StoreReserve(w, key, r.(liquidity := r.liquidity.(price := price, smoothedPrice := smoothed)), w.ledger[key]);
    RefreshInterest(priced, key)
  }

  /** `_deposit_reserve_liquidity`; also returns the collateral minted. */
  function DepositInner(w: World, key: Pubkey, amount: u64): Result<(World, u64)> {
    var r :- LoadReserve(w, key);
    var _ :- NotStale(r.lastUpdate, w.slot, ReserveStale);
    var supply :- TotalSupply(r.liquidity);
    var after :- Add(FromInt(amount), supply);
    var whole :- FloorU64(after);
    var _ :- Guard(whole <= r.config.depositLimit, InvalidAmount);
    var (s, collateral) :- DepositLiquidity(r, amount);
    var u :- StoreReserve(w, key, MarkStale(s), w.ledger[key].Receive(amount).Mint(collateral));
    Ok((u, collateral))
  }

  function DoDeposit(w: World, key: Pubkey, amount: u64): Result<World> {
    var _ :- Guard(amount != 0, InvalidAmount);
    var u :- RefreshInterest(w, key);
    var (v, _) :- DepositInner(u, key, amount);
    Ok(v)
  }

  function LimitRedeem(w: World, r: Reserve, amount: u64, check: bool): Result<(Limiter, Limiter)> {
    if !check then Ok((w.market, r.limiter))
    else
      var value :- MarketValueUpperBound(r.liquidity, FromInt(amount));
      var market :- Update(w.market, w.slot, value);
      var own :- Update(r.limiter, w.slot, FromInt(amount));
      Ok((market, own))
  }

  /** `_redeem_reserve_collateral`; also returns the liquidity paid out. */
  function RedeemInner(w: World, key: Pubkey, collateral: u64, check: bool): Result<(World, u64)> {
    var r :- LoadReserve(w, key);
    var _ :- NotStale(r.lastUpdate, w.slot, ReserveStale);
    var (s, amount) :- RedeemCollateral(r, collateral);
    var (market, own) :- LimitRedeem(w, s, amount, check);
    var _ :- Guard(LimiterFits(market), Panic);
    var burnt :- w.ledger[key].Burn(collateral);
    var paid :- burnt.Pay(amount);
    var u :- StoreReserve(w.(market := market), key, MarkStale(s.(limiter := own)), paid);
    Ok((u, amount))
  }

  function DoRedeem(w: World, key: Pubkey, amount: u64): Result<World> {
    var _ :- Guard(amount != 0, InvalidAmount);
    var (v, _) :- RedeemInner(w, key, amount, true);
    Ok(v)
  }

  function DoRedeemFees(w: World, key: Pubkey): Result<World> {
    var r :- LoadReserve(w, key);
    var _ :- NotStale(r.lastUpdate, w.slot, ReserveStale);
    var amount :- RedeemableFees(r.liquidity);
    var _ :- Guard(amount != 0, InsufficientProtocolFeesToRedeem);
    var l :- RedeemFees(r.liquidity, amount);
    var paid :- w.ledger[key].Pay(amount);
    StoreReserve(w, key, MarkStale(r.(liquidity := l)), paid)
  }

  function DoUpdateConfig(w: World, key: Pubkey, c: Config, limiter: LimiterConfig, signer: Signer): Result<World> {
    var r :- LoadReserve(w, key);
    var config :- UpdateConfig(r.config, c, signer);
    var renewed := match signer
      case MarketOwner => limiter != r.limiter.config
      case RiskAuthority => limiter.window > 0 && limiter.maxOutflow == 0
      case _ => false;
    var l := if renewed then New(limiter, w.slot) else r.limiter;
    StoreReserve(w, key, MarkStale(r.(config := config, limiter := l)), w.ledger[key])
  }

  /** `process_set_lending_market_owner_and_config`, of which only the limiter concerns the accounting. */
  function DoSetMarket(w: World, limiter: LimiterConfig): World {
    if limiter != w.market.config then w.(market := New(limiter, w.slot)) else w
  }

  /** The state part of a flash borrow; `FlashLoans` has the checks on the transaction. */
  function DoFlashBorrow(w: World, key: Pubkey, amount: u64): Result<World> {
    var u :- RefreshInterest(w, key);
    var r :- LoadReserve(u, key);
    var _ :- Guard(r.config.fees.flashLoanFeeWad != U64_MAX, FlashLoansDisabled);
    var l :- BorrowLiquidity(r.liquidity, FromInt(amount));
    var paid :- u.ledger[key].Pay(amount);
    StoreReserve(u, key, MarkStale(r.(liquidity := l)), paid)
  }

  function DoFlashRepay(w: World, key: Pubkey, amount: u64): Result<World> {
    var r :- LoadReserve(w, key);
    var _ :- CalculateFlashLoanFees(r.config.fees, FromInt(amount));
    var l :- RepayLiquidity(r.liquidity, amount, FromInt(amount));
    StoreReserve(w, key, MarkStale(r.(liquidity := l)), w.ledger[key].Receive(amount))
  }

  // ----- obligations

  function DoRefreshObligation(w: World, id: nat): Result<World> {
    var o :- LoadObligation(w, id);
    var p :- Refresh(o, w.reserves, w.slot);
    StoreObligation(w, id, p)
  }

  /** `_deposit_obligation_collateral` */
  function DepositCollateralInner(w: World, id: nat, key: Pubkey, amount: u64): Result<World> {
    var r :- LoadReserve(w, key);
    var _ :- NotStale(r.lastUpdate, w.slot, ReserveStale);
    var o :- LoadObligation(w, id);
    var p :- DepositCollateral(o, key, amount);
    var locked :- w.ledger[key].Lock(amount);
    StoreObligation(w.(ledger := w.ledger[key := locked]), id, Touched(p))
  }

  /** `reserve.last_update.mark_stale()` at the end of an instruction. */
  function Restale(w: World, key: Pubkey): Result<World> {
    var r :- LoadReserve(w, key);
    StoreReserve(w, key, MarkStale(r), w.ledger[key])
  }

  function DoDepositCollateral(w: World, id: nat, key: Pubkey, amount: u64): Result<World> {
    var _ :- Guard(amount != 0, InvalidAmount);
    var u :- RefreshInterest(w, key);
    var v :- DepositCollateralInner(u, id, key, amount);
    Restale(v, key)
  }

  function DoDepositBoth(w: World, id: nat, key: Pubkey, amount: u64): Result<World> {
    var _ :- Guard(amount != 0, InvalidAmount);
    var t :- RefreshInterest(w, key);
    var (u, collateral) :- DepositInner(t, key, amount);
    var v :- RefreshInterest(u, key);
    var x :- DepositCollateralInner(v, id, key, collateral);
    Restale(x, key)
  }

  /** `_withdraw_obligation_collateral`; also returns the collateral withdrawn. */
  function WithdrawInner(w: World, id: nat, key: Pubkey, amount: u64, limited: bool): Result<(World, u64)> {
    var r :- LoadReserve(w, key);
    var _ :- NotStale(r.lastUpdate, w.slot, ReserveStale);
    var o :- LoadObligation(w, id);
    var _ :- NotStale(o.lastUpdate, w.slot, ObligationStale);
    var i :- FindCollateralInDeposits(o, key);
    var _ :- Guard(o.deposits[i].deposited != 0, ObligationCollateralEmpty);
    var outflow :- if limited then MaxOutflowCollateral(r, w.market, w.slot, o.depositedValue) else Ok(U64_MAX);
    var max :- MaxWithdrawAmount(o, o.deposits[i], r);
    var take: u64 := Min(amount, Min(max, outflow));
    var _ :- Guard(take != 0, WithdrawTooLarge);
    var p :- WithdrawCollateral(o, take, i);
    var unlocked :- w.ledger[key].Unlock(take);
    var u :- StoreObligation(w.(ledger := w.ledger[key := unlocked]), id, Touched(p));
    Ok((u, take))
  }

  function DoWithdraw(w: World, id: nat, key: Pubkey, amount: u64): Result<World> {
    var _ :- Guard(amount != 0, InvalidAmount);
    var (u, _) :- WithdrawInner(w, id, key, amount, false);
    Ok(u)
  }

  function DoWithdrawAndRedeem(w: World, id: nat, key: Pubkey, amount: u64): Result<World> {
    var (u, collateral) :- WithdrawInner(w, id, key, amount, true);
    var (v, _) :- RedeemInner(u, key, collateral, true);
    Ok(v)
  }

  /** The isolated-tier rules. */
  function CheckTier(o: Obligation, r: Reserve, key: Pubkey): Result<()> {
    match r.config.reserveType
    case Isolated =>
      Guard(|o.borrows| == 0 || (|o.borrows| == 1 && o.borrows[0].reserve == key), IsolatedTierAssetViolation)
    case Regular => Guard(!o.borrowingIsolatedAsset, IsolatedTierAssetViolation)
  }

  /** Everything an obligation and a reserve must satisfy before a borrow is priced; returns the
      remaining borrow value. */
  function CheckBorrow(w: World, o: Obligation, r: Reserve, key: Pubkey, amount: u64): Result<Decimal> {
    var _ :- Guard(amount != 0, InvalidAmount);
    var _ :- NotStale(r.lastUpdate, w.slot, ReserveStale);
    var _ :- CheckBorrowLimit(r, amount);
    var _ :- NotStale(o.lastUpdate, w.slot, ObligationStale);
    var _ :- Guard(o.deposits != [], ObligationDepositsEmpty);
    var _ :- Guard(o.depositedValue != 0, ObligationDepositsZero);
    var _ :- CheckTier(o, r, key);
    var remaining: Decimal := match RemainingBorrowValue(o) case Ok(v) => v case Err(_) => 0;
    var _ :- Guard(remaining != 0, BorrowTooLarge);
    Ok(remaining)
  }

  function CheckBorrowLimit(r: Reserve, amount: u64): Result<()> {
    if amount == U64_MAX then Ok(())
    else
      var after :- Add(FromInt(amount), r.liquidity.borrowed);
      var whole :- FloorU64(after);
      Guard(whole <= r.config.borrowLimit, InvalidAmount)
  }

  /** The borrow's terms, and both limiters as `remaining_outflow` left them. */
  function PriceBorrow(w: World, r: Reserve, amount: u64, remaining: Decimal): Result<(BorrowTerms, Limiter, Limiter)> {
    var capacity: Decimal := match Sub(FromInt(r.config.borrowLimit), r.liquidity.borrowed) case Ok(v) => v case Err(_) => 0;
    var (market, _) :- RemainingOutflow(w.market, w.slot);
    var (own, _) :- RemainingOutflow(r.limiter, w.slot);
    var tokens :- MaxOutflowTokens(r, w.market, w.slot, remaining);
    var terms :- CalculateBorrow(r, amount, remaining, Min(capacity, tokens));
    var _ :- Guard(terms.receiveAmount != 0, BorrowTooSmall);
    Ok((terms, market, own))
  }

  function DoBorrow(w: World, id: nat, key: Pubkey, amount: u64): Result<World> {
    var r :- LoadReserve(w, key);
    var o :- LoadObligation(w, id);
    var remaining :- CheckBorrow(w, o, r, key, amount);
    var (terms, market, own) :- PriceBorrow(w, r, amount, remaining);
    var value :- MarketValueUpperBound(r.liquidity, terms.borrowAmount);
    var market' :- Update(market, w.slot, value);
    var own' :- Update(own, w.slot, terms.borrowAmount);
    var _ :- Guard(LimiterFits(market'), Panic);
    var l :- BorrowLiquidity(r.liquidity, terms.borrowAmount);
    BookedBorrow(w, id, key, o, MarkStale(r.(liquidity := l, limiter := own')), market', terms)
  }

  /** The rest of a borrow, once it is priced and the limiters and the reserve have recorded it. */
  function BookedBorrow(w: World, id: nat, key: Pubkey, o: Obligation, s: Reserve, market: Limiter, t: BorrowTerms): Result<World>
    requires id < |w.obligations| && key in w.ledger
  {
    var p :- AddLoan(o, key, s.liquidity.cumulativeRate, t.borrowAmount);
    var paid :- PayBorrow(w.ledger[key], t);
    var u :- StoreReserve(w.(market := market), key, s, paid);
    StoreObligation(u, id, Touched(p))
  }

  /** Three transfers out of the vault: to the host, to the fee receiver, to the borrower. */
  function PayBorrow(v: Ledger, t: BorrowTerms): Result<Ledger> {
    var _ :- Guard(t.hostFee <= t.borrowFee, MathOverflow);
    var hostPaid :- v.Pay(t.hostFee);
    var ownerPaid :- hostPaid.Pay(t.borrowFee - t.hostFee);
    ownerPaid.Pay(t.receiveAmount)
  }

  function DoRepay(w: World, id: nat, key: Pubkey, amount: u64): Result<World> {
    var _ :- Guard(amount != 0, InvalidAmount);
    var u :- RefreshInterest(w, key);
    var r :- LoadReserve(u, key);
    var o :- LoadObligation(u, id);
    var i :- FindLiquidityInBorrows(o, key);
    var _ :- Guard(o.borrows[i].borrowed != 0, ObligationLiquidityEmpty);
    var loan :- AccrueLoan(o.borrows[i], r.liquidity.cumulativeRate);
    BookRepay(u, id, key, i, loan, amount)
  }

  /** The rest of a repayment, once the loan's interest is accrued. */
  function BookRepay(w: World, id: nat, key: Pubkey, i: nat, loan: Loan, amount: u64): Result<World>
    requires id < |w.obligations| && i < |w.obligations[id].borrows| && key in w.reserves && key in w.ledger
  {
    var r, o := w.reserves[key], w.obligations[id];
    var terms :- CalculateRepay(amount, loan.borrowed);
    var _ :- Guard(terms.repayAmount != 0, RepayTooSmall);
    var l :- RepayLiquidity(r.liquidity, terms.repayAmount, terms.settleAmount);
    var v :- StoreReserve(w, key, MarkStale(r.(liquidity := l)), w.ledger[key].Receive(terms.repayAmount));
    var p :- SettleLoan(o.(borrows := o.borrows[i := loan]), terms.settleAmount, i);
    StoreObligation(v, id, Touched(p))
  }

  /** What makes an obligation liquidatable, and which of its entries are concerned: only its first
      borrow may be repaid. */
  function CheckLiquidation(o: Obligation, repayKey: Pubkey, withdrawKey: Pubkey): (r: Result<(nat, nat)>)
    ensures r.Ok? ==>
      && r.value.0 == 0 < |o.borrows| && o.borrows[0].reserve == repayKey
      && r.value.1 < |o.deposits| && o.deposits[r.value.1].reserve == withdrawKey
      && o.borrowedValue >= o.unhealthyBorrowValue
  {
    var _ :- Guard(o.depositedValue != 0, ObligationDepositsZero);
    var _ :- Guard(o.borrowedValue != 0, ObligationBorrowsZero);
    var _ :- Guard(o.borrowedValue >= o.unhealthyBorrowValue, ObligationHealthy);
    var i :- FindLiquidityInBorrows(o, repayKey);
    var _ :- Guard(o.borrows[i].marketValue != 0, ObligationLiquidityEmpty);
    var _ :- Guard(i == 0, InvalidAccountInput);
    var j :- FindCollateralInDeposits(o, withdrawKey);
    var _ :- Guard(o.deposits[j].marketValue != 0, ObligationCollateralEmpty);
    Ok((i, j))
  }

  /** `_liquidate_obligation`; also returns the collateral seized and the bonus rate. */
  function LiquidateInner(w: World, id: nat, repayKey: Pubkey, withdrawKey: Pubkey, amount: u64): Result<(World, u64, Decimal)> {
    var r :- LoadReserve(w, repayKey);
    var _ :- NotStale(r.lastUpdate, w.slot, ReserveStale);
    var s :- LoadReserve(w, withdrawKey);
    var _ :- NotStale(s.lastUpdate, w.slot, ReserveStale);
    var o :- LoadObligation(w, id);
    var _ :- NotStale(o.lastUpdate, w.slot, ObligationStale);
    var (i, j) :- CheckLiquidation(o, repayKey, withdrawKey);
    var t :- CalculateLiquidation(s.config, amount, o, o.borrows[i], o.deposits[j]);
    var _ :- Guard(t.repayAmount != 0, LiquidationTooSmall);
    var _ :- Guard(t.withdrawAmount != 0, LiquidationTooSmall);
    var v :- BookLiquidation(w, id, repayKey, withdrawKey, i, j, t);
    Ok((v, t.withdrawAmount, t.bonusRate))
  }

  /** The rest of a liquidation, once its terms are known. */
  function BookLiquidation(w: World, id: nat, repayKey: Pubkey, withdrawKey: Pubkey, i: nat, j: nat,
                           t: LiquidationTerms): Result<World>
    requires repayKey in w.reserves && repayKey in w.ledger && withdrawKey in w.ledger && id < |w.obligations|
    requires i < |w.obligations[id].borrows| && j < |w.obligations[id].deposits|
  {
    var r, o := w.reserves[repayKey], w.obligations[id];
    var l :- RepayLiquidity(r.liquidity, t.repayAmount, t.settleAmount);
    var u :- StoreReserve(w, repayKey, MarkStale(r.(liquidity := l)), w.ledger[repayKey].Receive(t.repayAmount));
    var p :- SettleLoan(o, t.settleAmount, i);
    var q :- WithdrawCollateral(p, t.withdrawAmount, j);
    var unlocked :- u.ledger[withdrawKey].Unlock(t.withdrawAmount);
    StoreObligation(u.(ledger := u.ledger[withdrawKey := unlocked]), id, Touched(q))
  }

  function DoLiquidate(w: World, id: nat, repayKey: Pubkey, withdrawKey: Pubkey, amount: u64): Result<World> {
    var _ :- Guard(amount != 0, InvalidAmount);
    var (u, seized, bonusRate) :- LiquidateInner(w, id, repayKey, withdrawKey, amount);
    RedeemSeized(u, withdrawKey, seized, bonusRate)
  }

  /** As much of the seized collateral as the reserve has liquidity for is redeemed at once, outside
      the rate limiters; the protocol takes its fee from what the liquidator receives. */
  function RedeemSeized(w: World, key: Pubkey, seized: u64, bonusRate: Decimal): Result<World> {
    var v :- RefreshInterest(w, key);
    var s :- LoadReserve(v, key);
    var rate :- ExchangeRate(s);
    var redeemable :- LiquidityToCollateral(rate, s.liquidity.available);
    var collateral: u64 := Min(seized, redeemable);
    if collateral == 0 then Ok(v)
    else
      var (x, paid) :- RedeemInner(v, key, collateral, false);
      var _ :- ProtocolLiquidationFee(s.config, paid, bonusRate);
      Ok(x)
  }

  /** As much as asked for, owed, and bearable: the reserve keeps a hundredth of its collateral's
      face value. */
  function ForgivenAmount(r: Reserve, loan: Loan, amount: u64): Result<Decimal> {
    var supply :- TotalSupply(r.liquidity);
    var floor :- Mul(FromInt(r.mintSupply), Percent(1));
    var max :- Sub(supply, floor);
    Ok(Min(FromInt(amount), Min(loan.borrowed, max)))
  }

  function DoForgive(w: World, id: nat, key: Pubkey, amount: u64): Result<World> {
    var r :- LoadReserve(w, key);
    var _ :- NotStale(r.lastUpdate, w.slot, ReserveStale);
    var o :- LoadObligation(w, id);
    var _ :- NotStale(o.lastUpdate, w.slot, ObligationStale);
    var _ :- Guard(o.deposits == [], InvalidAccountInput);
    var i :- FindLiquidityInBorrows(o, key);
    var forgiven :- ForgivenAmount(r, o.borrows[i], amount);
    var l :- ForgiveDebt(r.liquidity, forgiven);
    var u :- StoreReserve(w, key, MarkStale(r.(liquidity := l)), w.ledger[key]);
    var p :- SettleLoan(o, forgiven, i);
    StoreObligation(u, id, Touched(p))
  }

  // ----- runs

  function Step(w: World, ix: Instruction): Result<World> {
    match ix
    case Tick(slot) => if w.slot <= slot < SLOT_LIMIT then Ok(w.(slot := slot)) else Err(InvalidAccountInput)
    case InitReserve(key, amount, c, d, p, sp) => DoInitReserve(w, key, amount, c, d, p, sp)
    case InitObligation => Ok(w.(obligations := w.obligations + [NewObligation(w.slot)]))
    case RefreshReserve(key, p, sp) => DoRefreshReserve(w, key, p, sp)
    case DepositReserveLiquidity(key, amount) => DoDeposit(w, key, amount)
    case RedeemReserveCollateral(key, amount) => DoRedeem(w, key, amount)
    case RefreshObligation(id) => DoRefreshObligation(w, id)
    case DepositObligationCollateral(id, key, amount) => DoDepositCollateral(w, id, key, amount)
    case DepositLiquidityAndCollateral(id, key, amount) => DoDepositBoth(w, id, key, amount)
    case WithdrawObligationCollateral(id, key, amount) => DoWithdraw(w, id, key, amount)
    case WithdrawAndRedeem(id, key, amount) => DoWithdrawAndRedeem(w, id, key, amount)
    case BorrowObligationLiquidity(id, key, amount) => DoBorrow(w, id, key, amount)
    case RepayObligationLiquidity(id, key, amount) => DoRepay(w, id, key, amount)
    case LiquidateAndRedeem(id, rk, wk, amount) => DoLiquidate(w, id, rk, wk, amount)
    case RedeemProtocolFees(key) => DoRedeemFees(w, key)
    case ForgiveObligationDebt(id, key, amount) => DoForgive(w, id, key, amount)
    case FlashBorrow(key, amount) => DoFlashBorrow(w, key, amount)
    case FlashRepay(key, amount, _) => DoFlashRepay(w, key, amount)
    case UpdateReserveConfig(key, c, l, signer) => DoUpdateConfig(w, key, c, l, signer)
    case SetMarketConfig(limiter) => Ok(DoSetMarket(w, limiter))
  }

  /** A failed instruction changes nothing. */
  function Execute(w: World, ix: Instruction): World {
    match Step(w, ix) case Ok(v) => v case Err(_) => w
  }

  function Run(w: World, ixs: seq<Instruction>): World {
    if ixs == [] then w else Execute(Run(w, ixs[..|ixs| - 1]), ixs[|ixs| - 1])
  }

  /** A new market: no reserves, no obligations, the default limiter. */
  function Genesis(slot: u64): World {
    World(slot, New(LimiterConfig(1, U64_MAX), 1), map[], [], map[])
  }
}
