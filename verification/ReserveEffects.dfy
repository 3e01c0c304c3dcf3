/** What the instructions on a single reserve do, and what depositing and redeeming collateral do to an
    obligation: exact amounts, on the books and in the vaults. */
module ReserveEffects {
  import opened Results
  import opened FloorMath
  import opened FixedPoint
  import opened RateLimiters
  import opened ReserveConfigs
  import opened Reserves
  import opened Valuation
  import opened Obligations
  import opened Lending
  import opened LendingSafety
  import opened Freshness
  import opened ReserveSteps
  import opened ObligationSteps
  import opened InstructionEffects

  // ----- redeem

  /** Both limiters have recorded an outflow of `paid` tokens. */
  predicate Recorded(w: World, u: World, key: Pubkey, paid: u64) {
    && key in w.reserves && key in u.reserves
    && var r := w.reserves[key];
    && MarketValueUpperBound(r.liquidity, FromInt(paid)).Ok?
    && Update(w.market, w.slot, MarketValueUpperBound(r.liquidity, FromInt(paid)).value) == Ok(u.market)
    && Update(r.limiter, w.slot, FromInt(paid)) == Ok(u.reserves[key].limiter)
  }

  lemma RedeemRecords(w: World, u: World, key: Pubkey, collateral: u64, paid: u64)
    requires RedeemInner(w, key, collateral, true) == Ok((u, paid))
    ensures ReserveUpToDate(w, key) && Recorded(w, u, key, paid)
  {
    GuardMeans(w.reserves[key].lastUpdate, w.slot, ReserveStale);
    RedeemFrame(w.reserves[key], collateral);
    hide RedeemCollateral, ValueAt, Update, ReserveFits, LimiterFits, NotStale, UpToDate;
  }

  lemma RedeemMoves(w: World, u: World, key: Pubkey, collateral: u64, paid: u64)
    requires RedeemInner(w, key, collateral, true) == Ok((u, paid))
    ensures Redeemed(w, u, key, collateral, paid) && u.slot == w.slot
    ensures ExchangeRate(w.reserves[key]).Ok? && CollateralToLiquidity(ExchangeRate(w.reserves[key]).value, collateral) == Ok(paid)
  {
    hide RedeemCollateral, LimitRedeem, ExchangeRate, CollateralToLiquidity, ReserveFits, LimiterFits, NotStale;
    RedeemFrame(w.reserves[key], collateral);
    RedeemPays(w.reserves[key], collateral);
    LimitKeepsReserve(w, RedeemCollateral(w.reserves[key], collateral).value.0, paid);
  }

  lemma LimitKeepsReserve(w: World, r: Reserve, amount: u64)
    ensures LimitRedeem(w, r, amount, true).Ok? ==> r.(limiter := LimitRedeem(w, r, amount, true).value.1).liquidity == r.liquidity
  {
    hide ValueAt, Update;
  }

  /** Redeeming burns the collateral, pays its quotient at the current rate, and both limiters record it. */
  lemma RedeemInstructionEffects(w: World, u: World, key: Pubkey, amount: u64) returns (paid: u64)
    requires DoRedeem(w, key, amount) == Ok(u)
    ensures ReserveUpToDate(w, key) && Redeemed(w, u, key, amount, paid) && Recorded(w, u, key, paid)
    ensures ExchangeRate(w.reserves[key]).Ok? && CollateralToLiquidity(ExchangeRate(w.reserves[key]).value, amount) == Ok(paid)
  {
    hide RedeemInner, Redeemed, Recorded, ExchangeRate, CollateralToLiquidity, UpToDate;
    paid := RedeemInner(w, key, amount, true).value.1;
    RedeemRecords(w, u, key, amount, paid);
    RedeemMoves(w, u, key, amount, paid);
  }

  /** A withdraw-and-redeem: the smaller of what is asked for and what limits and limiters leave goes off the
      obligation, is burnt, and is paid out. */
  lemma WithdrawAndRedeemEffects(w: World, u: World, id: nat, key: Pubkey, amount: u64)
    returns (v: World, take: u64, i: nat, paid: u64)
    requires DoWithdrawAndRedeem(w, id, key, amount) == Ok(u)
    ensures ObligationUpToDate(w, id) && ReserveUpToDate(w, key) && Withdrawn(w, v, id, key, take)
    ensures i < |w.obligations[id].deposits| && w.obligations[id].deposits[i].reserve == key
    ensures var most := MostWithdrawable(w, w.obligations[id], w.obligations[id].deposits[i], w.reserves[key], true);
      most.Ok? && take == Min(amount, most.value) > 0
    ensures Redeemed(v, u, key, take, paid) && Recorded(w, u, key, paid)
    ensures ExchangeRate(w.reserves[key]).Ok? && CollateralToLiquidity(ExchangeRate(w.reserves[key]).value, take) == Ok(paid)
  {
    hide WithdrawInner, RedeemInner, Redeemed, MostWithdrawable, DepositedIn, ExchangeRate, CollateralToLiquidity, UpToDate,
         MarketValueUpperBound, Update;
    v, take := WithdrawInner(w, id, key, amount, true).value.0, WithdrawInner(w, id, key, amount, true).value.1;
    i := WithdrawInnerEffects(w, v, id, key, amount, true, take);
    paid := RedeemInner(v, key, take, true).value.1;
    RedeemRecords(v, u, key, take, paid);
    RedeemMoves(v, u, key, take, paid);
  }

  /** Redeeming fees pays out as many whole fees as there are, or as much as is available. */
  lemma RedeemFeesEffects(w: World, u: World, key: Pubkey) returns (paid: u64)
    requires DoRedeemFees(w, key) == Ok(u)
    ensures ReserveUpToDate(w, key) && key in w.ledger && key in u.reserves && paid > 0
    ensures var l := w.reserves[key].liquidity;
      && paid <= l.available && paid * WAD <= l.fees && (paid == l.available || l.fees < paid * WAD + WAD)
      && u.reserves[key].liquidity == l.(available := l.available - paid, fees := l.fees - FromInt(paid))
    ensures paid <= w.ledger[key].liquidity && u.obligations == w.obligations
      && u.ledger == w.ledger[key := w.ledger[key].(liquidity := w.ledger[key].liquidity - paid)]
  {
    RedeemNeeds(w, key, 0);
    hide ReserveFits, NotStale, UpToDate;
    paid := RedeemableFees(w.reserves[key].liquidity).value;
    FeesPaid(w.reserves[key].liquidity, paid);
    hide RedeemableFees, RedeemFees;
  }

  lemma FeesPaid(l: Liquidity, paid: u64)
    requires RedeemableFees(l) == Ok(paid) && RedeemFees(l, paid).Ok?
    ensures paid <= l.available && paid * WAD <= l.fees && (paid == l.available || l.fees < paid * WAD + WAD)
    ensures RedeemFees(l, paid).value == l.(available := l.available - paid, fees := l.fees - FromInt(paid))
  {
  }

  // ----- collateral

  /** `amount` collateral tokens moved from their holder into the vault and onto the obligation. */
  predicate Locked(w: World, u: World, id: nat, key: Pubkey, amount: nat) {
    && OnlyObligation(w, u, id) && id < |w.obligations| && key in w.ledger && amount <= w.ledger[key].held
    && (forall k: Pubkey :: DepositedIn(u.obligations[id].deposits, k)
          == DepositedIn(w.obligations[id].deposits, k) + (if k == key then amount else 0))
    && u.obligations[id].borrows == w.obligations[id].borrows
    && u.ledger == w.ledger[key := w.ledger[key].(collateral := w.ledger[key].collateral + amount,
                                                  held := w.ledger[key].held - amount)]
  }

  lemma LockEffects(w: World, u: World, id: nat, key: Pubkey, amount: u64)
    requires DepositCollateralInner(w, id, key, amount) == Ok(u)
    ensures Locked(w, u, id, key, amount) && u.reserves == w.reserves
  {
    hide DepositCollateral, ObligationFits, DepositedIn, NotStale;
    var o := w.obligations[id];
    DepositKeepsBorrows(o, key, amount);
    forall k: Pubkey
      ensures DepositedIn(u.obligations[id].deposits, k) == DepositedIn(o.deposits, k) + (if k == key then amount else 0)
    {
      DepositCollateralSum(o, key, amount, k);
    }
  }

  lemma DepositKeepsBorrows(o: Obligation, key: Pubkey, amount: u64)
    requires DepositCollateral(o, key, amount).Ok?
    ensures DepositCollateral(o, key, amount).value.borrows == o.borrows
  {
    hide FindDeposit;
  }

  /** Depositing collateral locks exactly its amount, and otherwise only accrues interest. */
  lemma DepositCollateralEffects(w: World, u: World, id: nat, key: Pubkey, amount: u64)
    requires DoDepositCollateral(w, id, key, amount) == Ok(u)
    ensures amount > 0 && Locked(w, u, id, key, amount)
    ensures key in w.reserves && key in u.reserves && AccrueInterest(w.reserves[key], w.slot).Ok?
      && u.reserves[key].liquidity == AccrueInterest(w.reserves[key], w.slot).value.liquidity
      && u.reserves[key].mintSupply == AccrueInterest(w.reserves[key], w.slot).value.mintSupply
  {
    hide RefreshInterest, DepositCollateralInner, Restale, AccrueInterest, Locked;
    InterestOnly(w, key);
    var v := RefreshInterest(w, key).value;
    var x := DepositCollateralInner(v, id, key, amount).value;
    LockEffects(v, x, id, key, amount);
    RestaleOnly(x, u, key);
    LockedThrough(w, v, x, u, id, key, amount);
  }

  lemma RestaleOnly(w: World, u: World, key: Pubkey)
    requires Restale(w, key) == Ok(u)
    ensures key in w.reserves && key in w.ledger && u == w.(reserves := w.reserves[key := MarkStale(w.reserves[key])])
  {
    hide ReserveFits;
    assert w.ledger[key := w.ledger[key]] == w.ledger;
  }

  lemma LockedThrough(w: World, v: World, x: World, u: World, id: nat, key: Pubkey, amount: nat)
    requires v.obligations == w.obligations && v.ledger == w.ledger && Locked(v, x, id, key, amount)
    requires u.obligations == x.obligations && u.ledger == x.ledger
    ensures Locked(w, u, id, key, amount)
  {
    hide DepositedIn;
  }

  /** Depositing liquidity into an obligation: exactly the tokens minted for it are locked. */
  lemma DepositBothEffects(w: World, u: World, id: nat, key: Pubkey, amount: u64) returns (v: World, minted: u64)
    requires DoDepositBoth(w, id, key, amount) == Ok(u)
    ensures DoDeposit(w, key, amount) == Ok(v) && DepositMints(w, key, amount) == Ok(minted) && Locked(v, u, id, key, minted)
  {
    hide RefreshInterest, DepositInner, DepositCollateralInner, Restale, Locked;
    var t := RefreshInterest(w, key).value;
    v, minted := DepositInner(t, key, amount).value.0, DepositInner(t, key, amount).value.1;
    var x := RefreshInterest(v, key).value;
    InterestOnly(v, key);
    var y := DepositCollateralInner(x, id, key, minted).value;
    LockEffects(x, y, id, key, minted);
    RestaleOnly(y, u, key);
    LockedThrough(v, x, y, u, id, key, minted);
  }

  /** The collateral tokens that a deposit mints. */
  function DepositMints(w: World, key: Pubkey, amount: u64): Result<u64> {
    var u :- RefreshInterest(w, key);
    var (_, minted) :- DepositInner(u, key, amount);
    Ok(minted)
  }

  // ----- flash loans

  /** A flash borrow lends exactly its amount, after interest. */
  lemma FlashBorrowEffects(w: World, u: World, key: Pubkey, amount: u64)
    requires DoFlashBorrow(w, key, amount) == Ok(u)
    ensures key in w.reserves && key in w.ledger && key in u.reserves && AccrueInterest(w.reserves[key], w.slot).Ok?
    ensures var r, s := AccrueInterest(w.reserves[key], w.slot).value, u.reserves[key];
      && r.config.fees.flashLoanFeeWad != 0xFFFF_FFFF_FFFF_FFFF && OnlyAmounts(r, s)
      && s.liquidity.available + amount == r.liquidity.available
      && s.liquidity.borrowed == r.liquidity.borrowed + FromInt(amount)
    ensures amount <= w.ledger[key].liquidity && u.obligations == w.obligations && u.market == w.market
      && u.ledger == w.ledger[key := w.ledger[key].(liquidity := w.ledger[key].liquidity - amount)]
  {
    hide RefreshInterest, AccrueInterest, ReserveFits, BorrowLiquidity;
    InterestOnly(w, key);
    var r := AccrueInterest(w.reserves[key], w.slot).value;
    WholeBorrow(r.liquidity, amount);
  }

  lemma WholeBorrow(l: Liquidity, amount: u64)
    requires BorrowLiquidity(l, FromInt(amount)).Ok?
    ensures amount <= l.available && l.borrowed + FromInt(amount) < U192
    ensures BorrowLiquidity(l, FromInt(amount)).value
              == l.(available := l.available - amount, borrowed := l.borrowed + FromInt(amount))
  {
    FloorOfMultiple(amount, WAD);
  }

  /** A flash repay brings exactly its amount back. */
  lemma FlashRepayEffects(w: World, u: World, key: Pubkey, amount: u64)
    requires DoFlashRepay(w, key, amount) == Ok(u)
    ensures key in w.reserves && key in w.ledger && key in u.reserves
    ensures var r, s := w.reserves[key], u.reserves[key];
      && OnlyAmounts(r, s) && (s.liquidity.available, s.liquidity.borrowed) == RepaidInto(r.liquidity, amount, FromInt(amount))
    ensures u.obligations == w.obligations && u.market == w.market
      && u.ledger == w.ledger[key := w.ledger[key].(liquidity := w.ledger[key].liquidity + amount)]
  {
    hide CalculateFlashLoanFees, ReserveFits;
  }

  // ----- set-up

  /** Where nothing is minted, or nothing is owed, a token is worth a token. */
  lemma InitialRate(r: Reserve, amount: u64)
    requires r.mintSupply == 0 || Net(r.liquidity) == 0
    requires DepositLiquidity(r, amount).Ok?
    ensures DepositLiquidity(r, amount).value.1 == amount
  {
    Assoc(amount, WAD, WAD);
    FloorOfMultiple(amount * WAD, WAD);
    FloorOfMultiple(amount, WAD);
    assert LiquidityToCollateral(WAD, amount) == Ok(amount);
    hide LiquidityToCollateral;
  }

  /** A new reserve holds the first deposit, against as many collateral tokens, at index one. */
  lemma InitReserveEffects(w: World, u: World, key: Pubkey, amount: u64, c: Config, d: u8, price: Decimal, smoothed: Decimal)
    requires DoInitReserve(w, key, amount, c, d, price, smoothed) == Ok(u)
    ensures amount > 0 && Validate(c).Ok? && key !in w.reserves && key !in w.ledger && key in u.reserves && key in u.ledger
    ensures u.reserves[key].liquidity == Liquidity(d, amount, 0, 1_000_000_000_000_000_000, 0, price, smoothed)
      && u.reserves[key].mintSupply == amount && u.reserves[key].config == c && u.reserves[key].lastUpdate.stale
    ensures u.ledger == w.ledger[key := Ledger(amount, 0, amount)] && u.obligations == w.obligations
  {
    hide DepositLiquidity, ReserveFits, Validate;
    var empty := Reserve(LastUpdate(w.slot, true), Liquidity(d, 0, 0, WAD, 0, price, smoothed), 0, c,
                         New(LimiterConfig(0, 0), w.slot));
    InitialRate(empty, amount);
    DepositFrame(empty, amount);
  }

  /** A refresh stores the prices it is given and stamps the reserve; everything else is interest. */
  lemma RefreshReserveEffects(w: World, u: World, key: Pubkey, price: Decimal, smoothed: Decimal)
    requires DoRefreshReserve(w, key, price, smoothed) == Ok(u)
    ensures key in w.reserves && key in u.reserves && ReserveUpToDate(u, key)
    ensures var r := w.reserves[key].(liquidity := w.reserves[key].liquidity.(price := price, smoothedPrice := smoothed));
      && AccrueInterest(r, w.slot).Ok?
      && u.reserves[key] == AccrueInterest(r, w.slot).value.(lastUpdate := LastUpdate(w.slot, false))
    ensures u.ledger == w.ledger && u.obligations == w.obligations && u.slot == w.slot && u.market == w.market
  {
    hide RefreshInterest, AccrueInterest, ReserveFits;
    var r := w.reserves[key].(liquidity := w.reserves[key].liquidity.(price := price, smoothedPrice := smoothed));
    var v := StoreReserve(w, key, r, w.ledger[key]).value;
    assert w.ledger[key := w.ledger[key]] == w.ledger;
    InterestOnly(v, key);
  }

  // ----- configuration

  /** Who may change what: the owner everything it asks for; the risk authority the two limits downwards, the
      borrow fee, the interest curve, the borrow weight and the take rate; the program's owner the fees.  The
      curve's upper end is lifted where the new maximum passes it. */
  lemma UpdateIs(old_: Config, c: Config, signer: Signer)
    requires Sane(old_) && UpdateConfig(old_, c, signer).Ok?
    ensures var n := UpdateConfig(old_, c, signer).value;
      match signer
      case MarketOwner => n == c
      case RiskAuthority =>
        && n.depositLimit <= old_.depositLimit && n.depositLimit <= c.depositLimit
        && (n.depositLimit == old_.depositLimit || n.depositLimit == c.depositLimit)
        && n.borrowLimit <= old_.borrowLimit && n.borrowLimit <= c.borrowLimit
        && (n.borrowLimit == old_.borrowLimit || n.borrowLimit == c.borrowLimit)
        && n == old_.(depositLimit := n.depositLimit, borrowLimit := n.borrowLimit,
                      fees := old_.fees.(borrowFeeWad := c.fees.borrowFeeWad),
                      optimalUtilization := c.optimalUtilization, maxUtilization := c.maxUtilization,
                      minBorrowRate := c.minBorrowRate, optimalBorrowRate := c.optimalBorrowRate,
                      maxBorrowRate := c.maxBorrowRate,
                      superMaxBorrowRate := Max(old_.superMaxBorrowRate, c.maxBorrowRate),
                      addedBorrowWeightBps := c.addedBorrowWeightBps, protocolTakeRate := c.protocolTakeRate)
      case ProgramOwner =>
        n == old_.(fees := c.fees, protocolLiquidationFee := c.protocolLiquidationFee,
                   protocolTakeRate := c.protocolTakeRate, feeReceiver := c.feeReceiver)
      case Nobody => false
  {
    ValidateMeans(c);
  }

  /** The limiter after an update: the owner replaces it exactly by other parameters, and the risk authority
      only by one that lets nothing out. */
  lemma ConfigEffects(w: World, u: World, key: Pubkey, c: Config, limiter: LimiterConfig, signer: Signer)
    requires DoUpdateConfig(w, key, c, limiter, signer) == Ok(u)
    ensures key in w.reserves && key in u.reserves && UpdateConfig(w.reserves[key].config, c, signer) == Ok(u.reserves[key].config)
    ensures var r, s := w.reserves[key], u.reserves[key];
      && s.liquidity == r.liquidity && s.mintSupply == r.mintSupply && s.lastUpdate.stale
      && (signer == MarketOwner ==> s.limiter.config == limiter)
      && (s.limiter == r.limiter || (s.limiter == New(s.limiter.config, w.slot) && s.limiter.config != r.limiter.config)
          || (signer == RiskAuthority && s.limiter == New(s.limiter.config, w.slot)))
      && (signer == RiskAuthority && s.limiter != r.limiter ==> s.limiter.config.window > 0 && s.limiter.config.maxOutflow == 0)
      && (signer == ProgramOwner ==> s.limiter == r.limiter)
    ensures u.ledger == w.ledger && u.obligations == w.obligations
  {
    hide UpdateConfig, ReserveFits;
    assert w.ledger[key := w.ledger[key]] == w.ledger;
  }
}
