/** A reserve account being worked on (token-lending/sdk/src/state/reserve.rs): the operations of
    `ReserveLiquidity`, `ReserveCollateral` and `Reserve` that update fields, each tied to the function
    of module `Reserves` that says what it computes.

    An operation that fails may leave its account half updated; the caller then drops it. */
module ReserveAccounts {
  import opened Results
  import opened FixedPoint
  import opened RatePower
  import opened RateLimiters
  import opened ReserveConfigs
  import opened Reserves

  class ReserveAccount {
    const decimals: u8
    var lastUpdate: LastUpdate
    var available: u64
    var borrowed: Decimal
    var cumulativeRate: Decimal
    var fees: Decimal
    var price: Decimal
    var smoothedPrice: Decimal
    var mintSupply: u64
    var config: Config
    var limiter: RateLimiter

    function LiquidityState(): Liquidity
      reads this
    {
      Liquidity(decimals, available, borrowed, cumulativeRate, fees, price, smoothedPrice)
    }

    function State(): Reserve
      reads this, limiter
    {
      Reserve(lastUpdate, LiquidityState(), mintSupply, config, limiter.State())
    }

    constructor Unpack(r: Reserve)
      ensures State() == r && fresh(limiter)
    {
      decimals := r.liquidity.decimals;
      lastUpdate := r.lastUpdate;
      available := r.liquidity.available;
      borrowed := r.liquidity.borrowed;
      cumulativeRate := r.liquidity.cumulativeRate;
      fees := r.liquidity.fees;
      price := r.liquidity.price;
      smoothedPrice := r.liquidity.smoothedPrice;
      mintSupply := r.mintSupply;
      config := r.config;
      limiter := new RateLimiter.Unpack(r.limiter);
    }

    // ----- last_update.rs

    method UpdateSlot(slot: u64)
      modifies this`lastUpdate
      ensures lastUpdate == LastUpdate(slot, false)
    {
      lastUpdate := LastUpdate(slot, false);
    }

    method MarkStale()
      modifies this`lastUpdate
      ensures lastUpdate == old(lastUpdate).MarkStale()
    {
      lastUpdate := lastUpdate.(stale := true);
    }

    // ----- ReserveLiquidity

    method Deposit(amount: u64) returns (r: Result<()>)
      modifies this`available
      ensures r == Done(DepositAvailable(old(LiquidityState()), amount))
      ensures LiquidityState() == if r.Ok? then DepositAvailable(old(LiquidityState()), amount).value else old(LiquidityState())
    {
      if available + amount >= U64 { return Err(MathOverflow); }
      available := available + amount;
      return Ok(());
    }

    method Withdraw(amount: u64) returns (r: Result<()>)
      modifies this`available
      ensures r == Done(WithdrawAvailable(old(LiquidityState()), amount))
      ensures LiquidityState() == if r.Ok? then WithdrawAvailable(old(LiquidityState()), amount).value else old(LiquidityState())
    {
      if amount > available { return Err(InsufficientLiquidity); }
      available := available - amount;
      return Ok(());
    }

    method Borrow(amount: Decimal) returns (r: Result<()>)
      modifies this`available, this`borrowed
      ensures r == Done(BorrowLiquidity(old(LiquidityState()), amount))
      ensures r.Ok? ==> LiquidityState() == BorrowLiquidity(old(LiquidityState()), amount).value
      ensures r.Err? ==> borrowed == old(borrowed)
    {
      var whole :- FloorU64(amount);
      if whole > available { return Err(InsufficientLiquidity); }
      available := available - whole;
      borrowed :- Add(borrowed, amount);
      return Ok(());
    }

    method Repay(repay: u64, settle: Decimal) returns (r: Result<()>)
      modifies this`available, this`borrowed
      ensures r == Done(RepayLiquidity(old(LiquidityState()), repay, settle))
      ensures LiquidityState() == if r.Ok? then RepayLiquidity(old(LiquidityState()), repay, settle).value else old(LiquidityState())
    {
      if available + repay >= U64 { return Err(MathOverflow); }
      available := available + repay;
      var safeSettle := Min(settle, borrowed);
      borrowed := borrowed - safeSettle;
      return Ok(());
    }

    method Forgive(amount: Decimal) returns (r: Result<()>)
      modifies this`borrowed
      ensures r == Done(ForgiveDebt(old(LiquidityState()), amount))
      ensures LiquidityState() == if r.Ok? then ForgiveDebt(old(LiquidityState()), amount).value else old(LiquidityState())
    {
      borrowed :- Sub(borrowed, amount);
      return Ok(());
    }

    method TakeFees(amount: u64) returns (r: Result<()>)
      modifies this`available, this`fees
      ensures r == Done(RedeemFees(old(LiquidityState()), amount))
      ensures r.Ok? ==> LiquidityState() == RedeemFees(old(LiquidityState()), amount).value
      ensures r.Err? ==> fees == old(fees)
    {
      if amount > available { return Err(MathOverflow); }
      available := available - amount;
      fees :- Sub(fees, FromInt(amount));
      return Ok(());
    }

    /** Index first, then the debt and the protocol's share of what it grew by. */
    method Compound(rate: Rate, slots: u64, takeRate: Rate) returns (r: Result<()>)
      modifies this`cumulativeRate, this`borrowed, this`fees
      ensures r == Done(CompoundInterest(old(LiquidityState()), rate, slots, takeRate))
      ensures r.Ok? ==> LiquidityState() == CompoundInterest(old(LiquidityState()), rate, slots, takeRate).value
      ensures r.Err? ==> borrowed == old(borrowed)
    {
      var base :- RateAdd(WAD, rate / SLOTS_PER_YEAR);
      var growth :- TryPow(base, slots);
      cumulativeRate :- Mul(cumulativeRate, growth);
      var grown :- Mul(borrowed, growth);
      var newDebt :- Sub(grown, borrowed);
      var share :- Mul(newDebt, takeRate);
      fees :- Add(share, fees);
      borrowed :- Add(borrowed, newDebt);
      return Ok(());
    }

    // ----- ReserveCollateral

    method Mint(amount: u64) returns (r: Result<()>)
      modifies this`mintSupply
      ensures if old(mintSupply) + amount < U64 then r == Ok(()) && mintSupply == old(mintSupply) + amount
              else r == Err(MathOverflow) && mintSupply == old(mintSupply)
    {
      if mintSupply + amount >= U64 { return Err(MathOverflow); }
      mintSupply := mintSupply + amount;
      return Ok(());
    }

    method Burn(amount: u64) returns (r: Result<()>)
      modifies this`mintSupply
      ensures if amount <= old(mintSupply) then r == Ok(()) && mintSupply == old(mintSupply) - amount
              else r == Err(MathOverflow) && mintSupply == old(mintSupply)
    {
      if amount > mintSupply { return Err(MathOverflow); }
      mintSupply := mintSupply - amount;
      return Ok(());
    }

    // ----- Reserve

    method DepositTokens(amount: u64) returns (r: Result<u64>)
      modifies this`available, this`mintSupply
      ensures var spec := DepositLiquidity(old(State()), amount);
        if spec.Ok? then r == Ok(spec.value.1) && State() == spec.value.0 else r == Err(spec.error)
    {
      hide LiquidityToCollateral;
      var rate :- ExchangeRate(State());
      var collateral :- LiquidityToCollateral(rate, amount);
      hide ExchangeRate;
      var _ :- Deposit(amount);
      var _ :- Mint(collateral);
      return Ok(collateral);
    }

    method RedeemTokens(collateral: u64) returns (r: Result<u64>)
      modifies this`available, this`mintSupply
      ensures var spec := RedeemCollateral(old(State()), collateral);
        if spec.Ok? then r == Ok(spec.value.1) && State() == spec.value.0 else r == Err(spec.error)
    {
      hide CollateralToLiquidity;
      var rate :- ExchangeRate(State());
      var amount :- CollateralToLiquidity(rate, collateral);
      hide ExchangeRate;
      var _ :- Burn(collateral);
      var _ :- Withdraw(amount);
      return Ok(amount);
    }

    method Accrue(now: u64) returns (r: Result<()>)
      modifies this`cumulativeRate, this`borrowed, this`fees
      ensures r == Done(AccrueInterest(old(State()), now))
      ensures r.Ok? ==> State() == AccrueInterest(old(State()), now).value
    {
      hide CurrentBorrowRate, CompoundInterest;
      var slots :- lastUpdate.SlotsElapsed(now);
      if slots > 0 {
        var rate :- CurrentBorrowRate(State());
        var _ :- Compound(rate, slots, Percent(config.protocolTakeRate));
      }
      return Ok(());
    }
  }
}
