/** The rate limiters over runs of the program: whatever instructions run, what borrows and redemptions take
    out of a reserve - and, in value, out of the market - within any window stays within twice the
    limiter's maximum. */
module OutflowRuns {
  import opened Results
  import opened FixedPoint
  import opened RateLimiters
  import opened ReserveConfigs
  import opened Reserves
  import opened Valuation
  import opened Obligations
  import opened ObligationRefresh
  import opened BorrowingLimits
  import opened Liquidation
  import opened Lending
  import opened LendingSafety
  import opened LendingRuns
  import opened ReserveSteps
  import opened Untouched
  import opened Freshness
  import opened InstructionEffects
  import opened ReserveEffects
  import opened BorrowOutcomes

  // ----- instructions that no limiter sees

  predicate LimitersKept(w: World, v: World) {
    && v.market == w.market && w.slot <= v.slot
    && forall k :: k in w.reserves ==> k in v.reserves && v.reserves[k].limiter == w.reserves[k].limiter
  }

  lemma KeptThrough(w: World, u: World, v: World)
    requires LimitersKept(w, u) && LimitersKept(u, v)
    ensures LimitersKept(w, v)
  {
  }

  lemma PutKeeps(w: World, v: World, key: Pubkey, r: Reserve, l: Ledger)
    requires StoreReserve(w, key, r, l) == Ok(v) && (key in w.reserves ==> r.limiter == w.reserves[key].limiter)
    ensures LimitersKept(w, v)
  {
    hide ReserveFits;
  }

  lemma AccrueKeepsLimiter(r: Reserve, now: u64)
    requires AccrueInterest(r, now).Ok?
    ensures AccrueInterest(r, now).value.limiter == r.limiter
  {
    hide CurrentBorrowRate, CompoundInterest;
  }

  lemma InterestKeeps(w: World, v: World, key: Pubkey)
    requires RefreshInterest(w, key) == Ok(v)
    ensures LimitersKept(w, v)
  {
    hide AccrueInterest, StoreReserve, LimitersKept;
    var s := AccrueInterest(w.reserves[key], w.slot).value;
    AccrueKeepsLimiter(w.reserves[key], w.slot);
    PutKeeps(w, v, key, s.(lastUpdate := LastUpdate(w.slot, false)), w.ledger[key]);
  }

  lemma RestaleKeepsLimiters(w: World, v: World, key: Pubkey)
    requires Restale(w, key) == Ok(v)
    ensures LimitersKept(w, v)
  {
    hide StoreReserve, LimitersKept;
    PutKeeps(w, v, key, MarkStale(w.reserves[key]), w.ledger[key]);
  }

  lemma DepositInnerKeeps(w: World, v: World, key: Pubkey, amount: u64)
    requires DepositInner(w, key, amount).Ok? && DepositInner(w, key, amount).value.0 == v
    ensures LimitersKept(w, v)
  {
    hide TotalSupply, FloorU64, DepositLiquidity, StoreReserve, LimitersKept, NotStale;
    DepositFrame(w.reserves[key], amount);
    var (s, collateral) := DepositLiquidity(w.reserves[key], amount).value;
    PutKeeps(w, v, key, MarkStale(s), w.ledger[key].Receive(amount).Mint(collateral));
  }

  lemma LockKeepsLimiters(w: World, v: World, id: nat, key: Pubkey, amount: u64)
    requires DepositCollateralInner(w, id, key, amount) == Ok(v)
    ensures LimitersKept(w, v)
  {
    hide DepositCollateral, ObligationFits, NotStale;
  }

  lemma DepositingKeeps(w: World, v: World, id: nat, key: Pubkey, amount: u64)
    ensures DoDeposit(w, key, amount) == Ok(v) ==> LimitersKept(w, v)
    ensures DoDepositCollateral(w, id, key, amount) == Ok(v) ==> LimitersKept(w, v)
    ensures DoDepositBoth(w, id, key, amount) == Ok(v) ==> LimitersKept(w, v)
  {
    if DoDeposit(w, key, amount) == Ok(v) { DoDepositKeepsLimiters(w, v, key, amount); }
    if DoDepositCollateral(w, id, key, amount) == Ok(v) { CollateralKeeps(w, v, id, key, amount); }
    if DoDepositBoth(w, id, key, amount) == Ok(v) { BothKeep(w, v, id, key, amount); }
    hide DoDeposit, DoDepositCollateral, DoDepositBoth;
  }

  lemma DoDepositKeepsLimiters(w: World, v: World, key: Pubkey, amount: u64)
    requires DoDeposit(w, key, amount) == Ok(v)
    ensures LimitersKept(w, v)
  {
    hide RefreshInterest, DepositInner, LimitersKept;
    var u := RefreshInterest(w, key).value;
    InterestKeeps(w, u, key);
    DepositInnerKeeps(u, v, key, amount);
    KeptThrough(w, u, v);
  }

  lemma CollateralKeeps(w: World, v: World, id: nat, key: Pubkey, amount: u64)
    requires DoDepositCollateral(w, id, key, amount) == Ok(v)
    ensures LimitersKept(w, v)
  {
    hide RefreshInterest, DepositCollateralInner, Restale, LimitersKept;
    var u := RefreshInterest(w, key).value;
    var x := DepositCollateralInner(u, id, key, amount).value;
    InterestKeeps(w, u, key);
    LockKeepsLimiters(u, x, id, key, amount);
    RestaleKeepsLimiters(x, v, key);
    KeptThrough(w, u, x);
    KeptThrough(w, x, v);
  }

  lemma BothKeep(w: World, v: World, id: nat, key: Pubkey, amount: u64)
    requires DoDepositBoth(w, id, key, amount) == Ok(v)
    ensures LimitersKept(w, v)
  {
    hide RefreshInterest, DepositInner, DepositCollateralInner, Restale, LimitersKept;
    var t := RefreshInterest(w, key).value;
    var (u, minted) := DepositInner(t, key, amount).value;
    var x := RefreshInterest(u, key).value;
    var y := DepositCollateralInner(x, id, key, minted).value;
    InterestKeeps(w, t, key);
    DepositInnerKeeps(t, u, key, amount);
    InterestKeeps(u, x, key);
    LockKeepsLimiters(x, y, id, key, minted);
    RestaleKeepsLimiters(y, v, key);
    KeptThrough(w, t, u);
    KeptThrough(w, u, x);
    KeptThrough(w, x, y);
    KeptThrough(w, y, v);
  }

  lemma RepayKeepsLimiters(w: World, v: World, id: nat, key: Pubkey, amount: u64)
    requires DoRepay(w, id, key, amount) == Ok(v)
    ensures LimitersKept(w, v)
  {
    hide RefreshInterest, AccrueLoan, FindLoan, CalculateRepay, RepayLiquidity, SettleLoan, ReserveFits, ObligationFits;
    InterestKeeps(w, RefreshInterest(w, key).value, key);
  }

  lemma UncheckedKeeps(w: World, v: World, key: Pubkey, collateral: u64, paid: u64)
    requires RedeemInner(w, key, collateral, false) == Ok((v, paid))
    ensures LimitersKept(w, v)
  {
    hide RedeemInner, ExchangeRate, CollateralToLiquidity;
    RedeemEffects(w, v, key, collateral, paid);
  }

  lemma SeizedKeeps(w: World, v: World, key: Pubkey, seized: u64, bonusRate: Decimal)
    requires RedeemSeized(w, key, seized, bonusRate) == Ok(v)
    ensures LimitersKept(w, v)
  {
    hide RefreshInterest, ExchangeRate, LiquidityToCollateral, RedeemInner, ProtocolLiquidationFee, LimitersKept;
    var u := RefreshInterest(w, key).value;
    InterestKeeps(w, u, key);
    var s := u.reserves[key];
    var c := Min(seized, LiquidityToCollateral(ExchangeRate(s).value, s.liquidity.available).value);
    if c > 0 {
      UncheckedKeeps(u, v, key, c, RedeemInner(u, key, c, false).value.1);
      KeptThrough(w, u, v);
    }
  }

  lemma SettleKeeps(w: World, id: nat, repayKey: Pubkey, withdrawKey: Pubkey, amount: u64)
    requires LiquidateInner(w, id, repayKey, withdrawKey, amount).Ok?
    ensures LimitersKept(w, LiquidateInner(w, id, repayKey, withdrawKey, amount).value.0)
  {
    hide NotStale, CheckLiquidation, CalculateLiquidation, RepayLiquidity, SettleLoan, WithdrawCollateral, ReserveFits,
         ObligationFits;
  }

  lemma LiquidateKeeps(w: World, v: World, id: nat, repayKey: Pubkey, withdrawKey: Pubkey, amount: u64)
    requires DoLiquidate(w, id, repayKey, withdrawKey, amount) == Ok(v)
    ensures LimitersKept(w, v)
  {
    hide LiquidateInner, RedeemSeized, LimitersKept;
    var (u, seized, bonusRate) := LiquidateInner(w, id, repayKey, withdrawKey, amount).value;
    SettleKeeps(w, id, repayKey, withdrawKey, amount);
    SeizedKeeps(u, v, withdrawKey, seized, bonusRate);
    KeptThrough(w, u, v);
  }

  lemma ForgiveKeeps(w: World, v: World, id: nat, key: Pubkey, amount: u64)
    requires DoForgive(w, id, key, amount) == Ok(v)
    ensures LimitersKept(w, v)
  {
    hide NotStale, ForgivenAmount, ForgiveDebt, SettleLoan, FindLoan, ReserveFits, ObligationFits;
  }

  lemma FeesKeep(w: World, v: World, key: Pubkey)
    requires DoRedeemFees(w, key) == Ok(v)
    ensures LimitersKept(w, v)
  {
    hide NotStale, RedeemableFees, RedeemFees, ReserveFits;
  }

  lemma FlashKeeps(w: World, key: Pubkey, amount: u64)
    ensures DoFlashBorrow(w, key, amount).Ok? ==> LimitersKept(w, DoFlashBorrow(w, key, amount).value)
    ensures DoFlashRepay(w, key, amount).Ok? ==> LimitersKept(w, DoFlashRepay(w, key, amount).value)
  {
    hide RefreshInterest, BorrowLiquidity, RepayLiquidity, CalculateFlashLoanFees, ReserveFits;
    if RefreshInterest(w, key).Ok? { InterestKeeps(w, RefreshInterest(w, key).value, key); }
  }

  lemma PricingKeeps(w: World, v: World, key: Pubkey, price: Decimal, smoothed: Decimal)
    requires DoRefreshReserve(w, key, price, smoothed) == Ok(v)
    ensures LimitersKept(w, v)
  {
    hide RefreshInterest, StoreReserve, LimitersKept;
    var r := w.reserves[key].(liquidity := w.reserves[key].liquidity.(price := price, smoothedPrice := smoothed));
    var u := StoreReserve(w, key, r, w.ledger[key]).value;
    PutKeeps(w, u, key, r, w.ledger[key]);
    InterestKeeps(u, v, key);
    KeptThrough(w, u, v);
  }

  lemma InitKeeps(w: World, v: World, key: Pubkey, amount: u64, c: Config, d: u8, price: Decimal, smoothed: Decimal)
    requires DoInitReserve(w, key, amount, c, d, price, smoothed) == Ok(v)
    ensures LimitersKept(w, v)
  {
    hide Validate, DepositLiquidity, ReserveFits;
  }

  lemma WithdrawKeepsLimiters(w: World, v: World, id: nat, key: Pubkey, amount: u64)
    requires DoWithdraw(w, id, key, amount) == Ok(v)
    ensures LimitersKept(w, v)
  {
    hide WithdrawInner;
    var take := WithdrawInner(w, id, key, amount, false).value.1;
    hide Withdrawn, MostWithdrawable;
    var i := WithdrawInnerEffects(w, v, id, key, amount, false, take);
    WithdrawnKeeps(w, v, id, key, take);
  }

  lemma WithdrawnKeeps(w: World, v: World, id: nat, key: Pubkey, take: u64)
    requires Withdrawn(w, v, id, key, take)
    ensures LimitersKept(w, v) && v.reserves == w.reserves
  {
  }

  /** The three instructions that let liquidity out through the limiters. */
  predicate Limited(ix: Instruction) {
    ix.RedeemReserveCollateral? || ix.WithdrawAndRedeem? || ix.BorrowObligationLiquidity?
  }

  lemma OthersKeep(w: World, ix: Instruction)
    requires Step(w, ix).Ok? && !Limited(ix) && !ix.UpdateReserveConfig? && !ix.SetMarketConfig?
    ensures LimitersKept(w, Step(w, ix).value)
  {
    hide DoInitReserve, DoRefreshReserve, DoDeposit, DoRedeem, Refresh, ObligationFits, DoDepositCollateral, DoDepositBoth,
         DoWithdraw, DoWithdrawAndRedeem, DoBorrow, DoRepay, DoLiquidate, DoRedeemFees, DoForgive, DoFlashBorrow, DoFlashRepay,
         DoUpdateConfig, DoSetMarket;
    var v := Step(w, ix).value;
    match ix
    case InitReserve(key, amount, c, d, p, sp) => InitKeeps(w, v, key, amount, c, d, p, sp);
    case RefreshReserve(key, p, sp) => PricingKeeps(w, v, key, p, sp);
    case DepositReserveLiquidity(key, amount) => DepositingKeeps(w, v, 0, key, amount);
    case DepositObligationCollateral(id, key, amount) => DepositingKeeps(w, v, id, key, amount);
    case DepositLiquidityAndCollateral(id, key, amount) => DepositingKeeps(w, v, id, key, amount);
    case WithdrawObligationCollateral(id, key, amount) => WithdrawKeepsLimiters(w, v, id, key, amount);
    case RepayObligationLiquidity(id, key, amount) => RepayKeepsLimiters(w, v, id, key, amount);
    case LiquidateAndRedeem(id, rk, wk, amount) => LiquidateKeeps(w, v, id, rk, wk, amount);
    case RedeemProtocolFees(key) => FeesKeep(w, v, key);
    case ForgiveObligationDebt(id, key, amount) => ForgiveKeeps(w, v, id, key, amount);
    case FlashBorrow(key, amount) => FlashKeeps(w, key, amount);
    case FlashRepay(key, amount, _) => FlashKeeps(w, key, amount);
    case _ =>
  }

  // ----- instructions that both limiters see

  /** The debt that an instruction books in a reserve ... */
  function Booking(w: World, v: World, key: Pubkey): Decimal
    requires key in w.reserves && key in v.reserves
  {
    var l, m := w.reserves[key].liquidity, v.reserves[key].liquidity;
    if m.borrowed >= l.borrowed then m.borrowed - l.borrowed else 0
  }

  /** ... and the tokens that it pays out. */
  function Payment(w: World, v: World, key: Pubkey): Decimal
    requires key in w.reserves && key in v.reserves
  {
    var l, m := w.reserves[key].liquidity, v.reserves[key].liquidity;
    if l.available >= m.available then FromInt(l.available - m.available) else 0
  }

  /** What a limited instruction takes out of its reserve. */
  function Outgo(w: World, v: World, ix: Instruction): Decimal
    requires Limited(ix) && ix.key in w.reserves && ix.key in v.reserves
  {
    if ix.BorrowObligationLiquidity? then Booking(w, v, ix.key) else Payment(w, v, ix.key)
  }

  /** The market's limiter has recorded the value of `amount` at the high price, and the reserve's limiter the
      amount. */
  predicate BothRecord(w: World, v: World, key: Pubkey, amount: Decimal) {
    && key in w.reserves && key in v.reserves && v.slot == w.slot
    && MarketValueUpperBound(w.reserves[key].liquidity, amount).Ok?
    && Update(w.market, w.slot, MarketValueUpperBound(w.reserves[key].liquidity, amount).value) == Ok(v.market)
    && Update(w.reserves[key].limiter, w.slot, amount) == Ok(v.reserves[key].limiter)
  }

  lemma RedeemBoth(w: World, v: World, key: Pubkey, amount: u64)
    requires DoRedeem(w, key, amount) == Ok(v)
    ensures key in w.reserves && key in v.reserves && BothRecord(w, v, key, Payment(w, v, key))
  {
    hide DoRedeem, ValueAt, Update, ExchangeRate, CollateralToLiquidity, UpToDate;
    var paid := RedeemInstructionEffects(w, v, key, amount);
    RedeemSlot(w, v, key, amount);
  }

  lemma RedeemSlot(w: World, v: World, key: Pubkey, amount: u64)
    requires DoRedeem(w, key, amount) == Ok(v)
    ensures v.slot == w.slot
  {
    hide RedeemInner;
    RedeemSame(w, key, amount, true);
  }

  lemma WithdrawBoth(w: World, v: World, id: nat, key: Pubkey, amount: u64)
    requires DoWithdrawAndRedeem(w, id, key, amount) == Ok(v)
    ensures key in w.reserves && key in v.reserves && BothRecord(w, v, key, Payment(w, v, key))
  {
    hide DoWithdrawAndRedeem, ValueAt, Update, ExchangeRate, CollateralToLiquidity, UpToDate, Withdrawn, MostWithdrawable, Marks;
    var u, take, i, paid := WithdrawAndRedeemEffects(w, v, id, key, amount);
    WithdrawnKeeps(w, u, id, key, take);
    WithdrawMarks(w, id, key, amount);
    MarksSlot(w, v, id);
  }

  lemma MarksSlot(w: World, v: World, id: nat)
    requires Marks(w, v, id)
    ensures v.slot == w.slot
  {
  }

  lemma BorrowBoth(w: World, v: World, id: nat, key: Pubkey, amount: u64)
    requires Safe(w) && DoBorrow(w, id, key, amount) == Ok(v)
    ensures key in w.reserves && key in v.reserves && BothRecord(w, v, key, Booking(w, v, key))
  {
    hide DoBorrow, Safe, ValueAt, Update, CalculateBorrow, RemainingBorrowValue, MaxOutflowTokens, Capacity, LimitKept, Marks;
    var t, room := BorrowOutcome(w, v, id, key, amount);
    BorrowMarks(w, v, id, key, amount);
    MarksSlot(w, v, id);
  }

  lemma LimitedRecords(w: World, ix: Instruction)
    requires Safe(w) && Step(w, ix).Ok? && Limited(ix)
    ensures ix.key in w.reserves && ix.key in Step(w, ix).value.reserves
    ensures BothRecord(w, Step(w, ix).value, ix.key, Outgo(w, Step(w, ix).value, ix))
  {
    hide Safe, BothRecord, Booking, Payment, DoRedeem, DoWithdrawAndRedeem, DoBorrow;
    var v := Step(w, ix).value;
    match ix
    case RedeemReserveCollateral(key, amount) => RedeemBoth(w, v, key, amount);
    case WithdrawAndRedeem(id, key, amount) => WithdrawBoth(w, v, id, key, amount);
    case BorrowObligationLiquidity(id, key, amount) => BorrowBoth(w, v, id, key, amount);
    case _ =>
  }

  /** A reserve's limiter is changed by limited instructions on that reserve and by updates of its
      configuration only. */
  lemma LimiterStep(w: World, ix: Instruction, key: Pubkey)
    requires Safe(w) && key in w.reserves && Step(w, ix).Ok? && !(ix.UpdateReserveConfig? && ix.key == key)
    ensures var v := Step(w, ix).value;
      && key in v.reserves && w.slot <= v.slot
      && if Limited(ix) && ix.key == key then
           Update(w.reserves[key].limiter, w.slot, Outgo(w, v, ix)) == Ok(v.reserves[key].limiter)
         else v.reserves[key].limiter == w.reserves[key].limiter
  {
    hide Safe, Step, Outgo, Update, ValueAt, Leaves;
    if Limited(ix) {
      LimitedRecords(w, ix);
      if ix.key != key { UnnamedKeeps(w, ix, key); }
    } else if ix.UpdateReserveConfig? {
      UnnamedKeeps(w, ix, key);
      ConfigSlot(w, ix);
    } else if ix.SetMarketConfig? {
      MarketKeepsReserves(w, ix);
    } else {
      OthersKeep(w, ix);
    }
  }

  lemma UnnamedKeeps(w: World, ix: Instruction, key: Pubkey)
    requires Safe(w) && key in w.reserves && Step(w, ix).Ok? && (Limited(ix) || ix.UpdateReserveConfig?) && ix.key != key
    ensures var v := Step(w, ix).value; key in v.reserves && v.reserves[key].limiter == w.reserves[key].limiter
  {
    SafeReserve(w, key);
    StepLeaves(w, ix, key);
    hide Safe, Step;
  }

  lemma ConfigSlot(w: World, ix: Instruction)
    requires Step(w, ix).Ok? && ix.UpdateReserveConfig?
    ensures Step(w, ix).value.slot == w.slot && Step(w, ix).value.market == w.market
  {
    hide UpdateConfig, ReserveFits;
  }

  /** Setting the market's parameters starts its limiter anew, and only if they are others. */
  lemma MarketKeepsReserves(w: World, ix: Instruction)
    requires Step(w, ix).Ok? && ix.SetMarketConfig?
    ensures var v := Step(w, ix).value;
      && v.reserves == w.reserves && v.slot == w.slot && v.market.config == ix.limiter
      && if ix.limiter == w.market.config then v.market == w.market else v.market == New(ix.limiter, w.slot)
  {
  }

  // ----- over runs

  /** What left reserve `key` through its limiter. */
  function ReserveLog(w: World, ixs: seq<Instruction>, key: Pubkey): seq<Flow> {
    if ixs == [] then []
    else
      var u, ix := Run(w, ixs[..|ixs| - 1]), ixs[|ixs| - 1];
      var log := ReserveLog(w, ixs[..|ixs| - 1], key);
      match Step(u, ix)
      case Err(_) => log
      case Ok(v) =>
        if Limited(ix) && ix.key == key && key in u.reserves && key in v.reserves then log + [Flow(u.slot, Outgo(u, v, ix))] else log
  }

  predicate KeepsConfig(ixs: seq<Instruction>, key: Pubkey) {
    forall i :: 0 <= i < |ixs| ==> !(ixs[i].UpdateReserveConfig? && ixs[i].key == key)
  }

  /** The stored limiter is the replay of the log, whose slots are those of the clock. */
  predicate Replayed(l: Limiter, config: LimiterConfig, start: u64, log: seq<Flow>, now: u64) {
    && start <= now < SLOT_LIMIT && Replay(config, start, log) == Ok(l) && Clocked(start, log) && LastSlot(start, log) <= now
  }

  lemma ReplayNext(l: Limiter, m: Limiter, config: LimiterConfig, start: u64, log: seq<Flow>, now: u64, later: u64, qty: Decimal)
    requires Replayed(l, config, start, log, now) && Update(l, now, qty) == Ok(m) && now <= later < SLOT_LIMIT
    ensures Replayed(m, config, start, log + [Flow(now, qty)], later)
  {
    hide Update;
    var next := log + [Flow(now, qty)];
    assert next[..|log|] == log;
  }

  lemma SafeSlot(w: World)
    requires Safe(w)
    ensures w.slot < SLOT_LIMIT
  {
    hide LimiterOk, ReserveOk, ObligationOk, TotalDeposited;
  }

  lemma {:induction false} ReserveReplays(w: World, ixs: seq<Instruction>, key: Pubkey, start: u64)
    requires Safe(w) && key in w.reserves && w.reserves[key].limiter == New(w.reserves[key].limiter.config, start)
    requires start <= w.slot && KeepsConfig(ixs, key)
    ensures var v := Run(w, ixs);
      key in v.reserves && Replayed(v.reserves[key].limiter, w.reserves[key].limiter.config, start, ReserveLog(w, ixs, key), v.slot)
  {
    hide Safe, Step, Outgo, New, Update, Replayed;
    SafeSlot(w);
    if ixs == [] {
      NothingReplayed(w.reserves[key].limiter.config, start, w.slot);
    } else {
      var front, ix := ixs[..|ixs| - 1], ixs[|ixs| - 1];
      ReserveReplays(w, front, key, start);
      RunKeepsSafe(w, front);
      var u := Run(w, front);
      if Step(u, ix).Ok? {
        var v := Step(u, ix).value;
        StepSafe(u, ix);
        SafeSlot(v);
        LimiterStep(u, ix, key);
        var config, log := w.reserves[key].limiter.config, ReserveLog(w, front, key);
        if Limited(ix) && ix.key == key {
          ReplayNext(u.reserves[key].limiter, v.reserves[key].limiter, config, start, log, u.slot, v.slot, Outgo(u, v, ix));
        } else {
          ReplayWaits(u.reserves[key].limiter, config, start, log, u.slot, v.slot);
        }
      }
    }
  }

  lemma NothingReplayed(config: LimiterConfig, start: u64, now: u64)
    requires start <= now < SLOT_LIMIT
    ensures Replayed(New(config, start), config, start, [], now)
  {
  }

  lemma ReplayWaits(l: Limiter, config: LimiterConfig, start: u64, log: seq<Flow>, now: u64, later: u64)
    requires Replayed(l, config, start, log, now) && now <= later < SLOT_LIMIT
    ensures Replayed(l, config, start, log, later)
  {
  }

  /** From the moment a reserve's limiter is set, over any run that does not set it again: within any window
      of slots, borrows and redemptions take at most twice the maximum out of the reserve. */
  lemma ReserveOutflowBounded(w: World, ixs: seq<Instruction>, key: Pubkey, start: u64, s: u64)
    requires Safe(w) && key in w.reserves && w.reserves[key].limiter == New(w.reserves[key].limiter.config, start)
    requires start <= w.slot && KeepsConfig(ixs, key) && w.reserves[key].limiter.config.window > 0
    ensures var c := w.reserves[key].limiter.config;
      Outflow(ReserveLog(w, ixs, key), s, s + c.window + 1) <= 2 * FromInt(c.maxOutflow)
  {
    hide Safe, New, Run, ReserveLog, Replay, Outflow, Clocked;
    ReserveReplays(w, ixs, key, start);
    ClosedWindowAtMostTwice(w.reserves[key].limiter.config, start, ReserveLog(w, ixs, key), s);
  }

  // ----- the market

  /** What left the market through its limiter, in value at the high price. */
  function MarketLog(w: World, ixs: seq<Instruction>): seq<Flow> {
    if ixs == [] then []
    else
      var u, ix := Run(w, ixs[..|ixs| - 1]), ixs[|ixs| - 1];
      var log := MarketLog(w, ixs[..|ixs| - 1]);
      match Step(u, ix)
      case Err(_) => log
      case Ok(v) =>
        if Limited(ix) && ix.key in u.reserves && ix.key in v.reserves then
          match MarketValueUpperBound(u.reserves[ix.key].liquidity, Outgo(u, v, ix))
          case Ok(value) => log + [Flow(u.slot, value)]
          case Err(_) => log
        else log
  }

  lemma MarketStep(w: World, ix: Instruction)
    requires Safe(w) && Step(w, ix).Ok? && !ix.SetMarketConfig?
    ensures w.slot <= Step(w, ix).value.slot
    ensures Limited(ix) ==>
      (var v := Step(w, ix).value;
       && ix.key in w.reserves && ix.key in v.reserves
       && var value := MarketValueUpperBound(w.reserves[ix.key].liquidity, Outgo(w, v, ix));
       value.Ok? && Update(w.market, w.slot, value.value) == Ok(v.market))
    ensures !Limited(ix) ==> Step(w, ix).value.market == w.market
  {
    hide Safe, Step, Outgo, Update, ValueAt;
    if Limited(ix) { LimitedRecords(w, ix); } else if ix.UpdateReserveConfig? { ConfigSlot(w, ix); } else { OthersKeep(w, ix); }
  }

  lemma {:induction false} MarketReplays(w: World, ixs: seq<Instruction>, start: u64)
    requires Safe(w) && w.market == New(w.market.config, start) && start <= w.slot
    requires forall i :: 0 <= i < |ixs| ==> !ixs[i].SetMarketConfig?
    ensures Replayed(Run(w, ixs).market, w.market.config, start, MarketLog(w, ixs), Run(w, ixs).slot)
  {
    hide Safe, Step, Outgo, New, Update, Replayed, ValueAt;
    SafeSlot(w);
    if ixs == [] {
      NothingReplayed(w.market.config, start, w.slot);
    } else {
      var front, ix := ixs[..|ixs| - 1], ixs[|ixs| - 1];
      MarketReplays(w, front, start);
      RunKeepsSafe(w, front);
      var u := Run(w, front);
      if Step(u, ix).Ok? {
        var v := Step(u, ix).value;
        StepSafe(u, ix);
        SafeSlot(v);
        MarketStep(u, ix);
        var config, log := w.market.config, MarketLog(w, front);
        if Limited(ix) {
          var value := MarketValueUpperBound(u.reserves[ix.key].liquidity, Outgo(u, v, ix)).value;
          ReplayNext(u.market, v.market, config, start, log, u.slot, v.slot, value);
        } else {
          ReplayWaits(u.market, config, start, log, u.slot, v.slot);
        }
      }
    }
  }

  /** ... and in value, at most twice the market's maximum out of all reserves together. */
  lemma MarketOutflowBounded(w: World, ixs: seq<Instruction>, start: u64, s: u64)
    requires Safe(w) && w.market == New(w.market.config, start) && start <= w.slot && w.market.config.window > 0
    requires forall i :: 0 <= i < |ixs| ==> !ixs[i].SetMarketConfig?
    ensures Outflow(MarketLog(w, ixs), s, s + w.market.config.window + 1) <= 2 * FromInt(w.market.config.maxOutflow)
  {
    hide Safe, New, Run, MarketLog, Replay, Outflow, Clocked;
    MarketReplays(w, ixs, start);
    ClosedWindowAtMostTwice(w.market.config, start, MarketLog(w, ixs), s);
  }
}
