/** Vesting of locked tokens (restaking/programs/locker-manager/src/calculator.rs and lib.rs).

    `TotalVested` is the schedule; `None.unwrap()` and a failed checked operation are `Err(Panic)`.  The
    schedule's own comment says that its shift of the start partitions the window exactly; it does not,
    and `FullBeforeEndIff` says when the whole balance vests early.

    A locker may send tokens to whitelisted programs and take them back.  The code's bookkeeping of these
    relayed calls never sees them move anything; `Act` models both the code as written (`Stale`) and what
    the bookkeeping is written for (`Reloaded`). */
module LockerVesting {
  import opened Results
  import opened FloorMath
  import opened FixedPoint

  datatype Locker = Locker(
    startBalance: u64, currentBalance: u64, whitelistOwned: u64, startTs: i64, endTs: i64, periodCount: u64)

  // ----- the schedule

  /** The end less the start is taken in 64 bits and panics when it overflows. */
  function IsValidSchedule(startTs: i64, endTs: i64, periodCount: u64): Result<bool> {
    if endTs <= startTs then Ok(false)
    else if endTs - startTs >= 0x8000_0000_0000_0000 then Err(Panic)
    else Ok(periodCount <= endTs - startTs && periodCount != 0)
  }

  predicate Scheduled(l: Locker) { IsValidSchedule(l.startTs, l.endTs, l.periodCount) == Ok(true) }

  function Checked(n: int): Result<u64> { if 0 <= n < U64 then Ok(n) else Err(Panic) }

  function CheckedDiv(n: u64, d: u64): Result<u64> {
    if d == 0 then Err(Panic)
    else
      FloorAtMostSelf(n, d);
      Ok(Quot(n, d))
  }

  function LinearUnlock(l: Locker, ts: i64): Result<u64> {
    var current, start, end := AsU64(ts), AsU64(l.startTs), AsU64(l.endTs);
    var window :- Checked(end - start);
    if l.periodCount == 0 then Err(Panic)
    else
      var shiftedStart :- Checked(start - Rem(window, l.periodCount));
      var rewardOverflow: u64 := Rem(l.startBalance, l.periodCount);
      var whole :- Checked(l.startBalance - rewardOverflow);
      var rewardPerPeriod :- CheckedDiv(whole, l.periodCount);
      var shiftedWindow :- Checked(end - shiftedStart);
      var periodSecs :- CheckedDiv(shiftedWindow, l.periodCount);
      var elapsed :- Checked(current - shiftedStart);
      var count :- CheckedDiv(elapsed, periodSecs);
      Earn(Min(count, l.periodCount), rewardPerPeriod, rewardOverflow)
  }

  function Earn(period: nat, rewardPerPeriod: u64, rewardOverflow: u64): Result<u64> {
    if period == 0 then Ok(0)
    else
      var earned :- Checked(period * rewardPerPeriod);
      Checked(earned + rewardOverflow)
  }

  function TotalVested(l: Locker, ts: i64): Result<u64> {
    if ts < l.startTs then Ok(0)
    else if ts >= l.endTs then Ok(l.startBalance)
    else LinearUnlock(l, ts)
  }

  // ----- closed form

  /** The part of the window that the periods do not divide; the schedule starts that much earlier. */
  function Shift(l: Locker): (r: nat)
    requires Scheduled(l)
    ensures r < l.periodCount
  {
    Rem(l.endTs - l.startTs, l.periodCount)
  }

  function PeriodSecs(l: Locker): (n: nat)
    requires Scheduled(l)
    ensures n > 0
  {
    FloorAtLeast(l.endTs - l.startTs + Shift(l), l.periodCount, 1);
    Quot(l.endTs - l.startTs + Shift(l), l.periodCount)
  }

  /** Periods that have passed at a time within the window. */
  function PeriodAt(l: Locker, ts: i64): (p: nat)
    requires Scheduled(l) && l.startTs <= ts
    ensures p <= l.periodCount
  {
    Min(Quot(ts - l.startTs + Shift(l), PeriodSecs(l)), l.periodCount)
  }

  /** Each period earns an equal share, and the first one also the rest of the balance. */
  function Earned(balance: u64, periodCount: u64, period: nat): nat
    requires periodCount > 0
  {
    if period == 0 then 0 else period * Quot(balance, periodCount) + Rem(balance, periodCount)
  }

  lemma EarnedBounds(balance: u64, periodCount: u64, period: nat)
    requires periodCount > 0 && period <= periodCount
    ensures Earned(balance, periodCount, period) <= balance
    ensures period * Quot(balance, periodCount) <= balance
    ensures Earned(balance, periodCount, periodCount) == balance
  {
    var share := Quot(balance, periodCount);
    assert balance == share * periodCount + Rem(balance, periodCount);
    hide Quot, Rem;
    MulMono(period, periodCount, share);
  }

  lemma EarnedGrows(balance: u64, periodCount: u64, p: nat, q: nat)
    requires periodCount > 0 && p <= q
    ensures Earned(balance, periodCount, p) <= Earned(balance, periodCount, q)
  {
    hide Quot, Rem;
    MulMono(p, q, Quot(balance, periodCount));
  }

  /** Schedules that can be computed at all: not across the epoch, nor with a shift that would start
      before it. */
  predicate Computable(l: Locker)
    requires Scheduled(l)
  {
    l.endTs < 0 || l.startTs >= Shift(l)
  }

  lemma QuotientOfWhole(balance: u64, periodCount: u64)
    requires periodCount > 0
    ensures Rem(balance, periodCount) <= balance
    ensures CheckedDiv(balance - Rem(balance, periodCount), periodCount) == Ok(Quot(balance, periodCount))
  {
    var n, q := balance - Rem(balance, periodCount), Quot(balance, periodCount);
    assert q * periodCount == n;
    MulMono(0, q, periodCount);
    FloorUnique(n, periodCount, Quot(n, periodCount), q);
  }

  lemma CheckedDivIs(n: u64, d: u64)
    requires d > 0
    ensures CheckedDiv(n, d) == Ok(Quot(n, d))
  {
  }

  /** Within the window the schedule is the closed form if it is computable, and panics otherwise. */
  lemma UnlockIs(l: Locker, ts: i64)
    requires Scheduled(l) && l.startTs <= ts < l.endTs
    ensures LinearUnlock(l, ts) ==
      if Computable(l) then Ok(Earned(l.startBalance, l.periodCount, PeriodAt(l, ts))) else Err(Panic)
  {
    hide LinearUnlock, Earned;
    if Computable(l) { ComputedUnlock(l, ts); } else { CrossesEpoch(l, ts); }
  }

  lemma CrossesEpoch(l: Locker, ts: i64)
    requires Scheduled(l) && l.startTs <= ts < l.endTs && !Computable(l)
    ensures LinearUnlock(l, ts) == Err(Panic)
  {
    hide Quot, CheckedDiv;
  }

  lemma ComputedUnlock(l: Locker, ts: i64)
    requires Scheduled(l) && l.startTs <= ts < l.endTs && Computable(l)
    ensures LinearUnlock(l, ts) == Ok(Earned(l.startBalance, l.periodCount, PeriodAt(l, ts)))
  {
    var window, r, pc := l.endTs - l.startTs, Shift(l), l.periodCount;
    EarnIs(l.startBalance, pc, PeriodAt(l, ts));
    QuotientOfWhole(l.startBalance, pc);
    CheckedDivIs(window + r, pc);
    CheckedDivIs(ts - l.startTs + r, PeriodSecs(l));
    UnlockSteps(l, ts, r, Quot(l.startBalance, pc), Rem(l.startBalance, pc), PeriodSecs(l),
                Quot(ts - l.startTs + r, PeriodSecs(l)));
    hide LinearUnlock, Earn, Earned, CheckedDiv, Quot, Rem;
  }

  /** The checked steps one by one. */
  lemma UnlockSteps(l: Locker, ts: i64, r: nat, share: nat, rest: nat, ps: nat, count: nat)
    requires Scheduled(l) && l.startTs <= ts < l.endTs && Computable(l)
    requires Rem(l.endTs - l.startTs, l.periodCount) == r && Rem(l.startBalance, l.periodCount) == rest
    requires rest <= l.startBalance && CheckedDiv(l.startBalance - rest, l.periodCount) == Ok(share)
    requires l.endTs - l.startTs + r < U64 && CheckedDiv(l.endTs - l.startTs + r, l.periodCount) == Ok(ps)
    requires ps > 0 && CheckedDiv(ts - l.startTs + r, ps) == Ok(count)
    ensures LinearUnlock(l, ts) == Earn(Min(count, l.periodCount), share, rest)
  {
    hide Rem, CheckedDiv, Earn, Quot;
    var start, end := AsU64(l.startTs), AsU64(l.endTs);
    assert Checked(end - start) == Ok(l.endTs - l.startTs);
    assert Checked(start - r) == Ok(start - r);
    assert Checked(end - (start - r)) == Ok(l.endTs - l.startTs + r);
    assert Checked(AsU64(ts) - (start - r)) == Ok(ts - l.startTs + r);
  }

  lemma EarnIs(balance: u64, periodCount: u64, period: nat)
    requires periodCount > 0 && period <= periodCount
    ensures Quot(balance, periodCount) < U64
    ensures Earn(period, Quot(balance, periodCount), Rem(balance, periodCount)) == Ok(Earned(balance, periodCount, period))
  {
    FloorAtMostSelf(balance, periodCount);
    EarnedBounds(balance, periodCount, period);
    var share := Quot(balance, periodCount);
    hide Quot, Rem;
    MulMono(0, period, share);
  }

  // ----- what the schedule promises

  /** The schedule is defined at every time exactly if it is computable. */
  lemma DefinedIff(l: Locker)
    requires Scheduled(l)
    ensures (forall ts: i64 :: TotalVested(l, ts).Ok?) <==> Computable(l)
  {
    hide LinearUnlock, Computable;
    forall ts: i64 | l.startTs <= ts < l.endTs
      ensures TotalVested(l, ts).Ok? <==> Computable(l)
    {
      UnlockIs(l, ts);
    }
    assert TotalVested(l, l.startTs).Ok? <==> Computable(l);
  }

  lemma PeriodGrows(l: Locker, a: i64, b: i64)
    requires Scheduled(l) && l.startTs <= a <= b
    ensures PeriodAt(l, a) <= PeriodAt(l, b)
  {
    hide PeriodSecs, Shift;
    FloorMono(a - l.startTs + Shift(l), b - l.startTs + Shift(l), PeriodSecs(l));
  }

  /** Vesting never goes back, never exceeds the balance, and is complete at the end. */
  lemma VestedMonotone(l: Locker, a: i64, b: i64)
    requires Scheduled(l) && Computable(l) && a <= b
    ensures TotalVested(l, a).Ok? && TotalVested(l, b).Ok?
    ensures TotalVested(l, a).value <= TotalVested(l, b).value <= l.startBalance
    ensures b >= l.endTs ==> TotalVested(l, b).value == l.startBalance
  {
    hide LinearUnlock, PeriodAt, Earned;
    if l.startTs <= a < l.endTs {
      UnlockIs(l, a);
      EarnedBounds(l.startBalance, l.periodCount, PeriodAt(l, a));
    }
    if l.startTs <= b < l.endTs {
      UnlockIs(l, b);
      EarnedBounds(l.startBalance, l.periodCount, PeriodAt(l, b));
      if l.startTs <= a {
        PeriodGrows(l, a, b);
        EarnedGrows(l.startBalance, l.periodCount, PeriodAt(l, a), PeriodAt(l, b));
      }
    }
  }

  lemma SlotsInWindow(l: Locker)
    requires Scheduled(l)
    ensures var n, r, pc := l.endTs - l.startTs, Shift(l), l.periodCount;
      PeriodSecs(l) * pc == n + r - Rem(2 * r, pc)
  {
    var n, r, pc := l.endTs - l.startTs, Shift(l), l.periodCount;
    var q, k := Quot(n, pc), Quot(2 * r, pc);
    assert n == q * pc + r && 2 * r == k * pc + Rem(2 * r, pc);
    Distribute(pc, q, k);
    FloorUnique(n + r, pc, PeriodSecs(l), q + k);
  }

  /** The last second before the end counts as the last period exactly if the shift leaves a rest. */
  lemma LastPeriodIff(l: Locker)
    requires Scheduled(l)
    ensures PeriodAt(l, l.endTs - 1) == l.periodCount <==> Rem(2 * Shift(l), l.periodCount) != 0
  {
    var n, r, pc, ps := l.endTs - l.startTs, Shift(l), l.periodCount, PeriodSecs(l);
    var p := Quot(n - 1 + r, ps);
    SlotsInWindow(l);
    assert p * ps <= n - 1 + r < p * ps + ps;
    hide PeriodSecs, Shift, Rem;
    if p >= pc {
      MulMono(pc, p, ps);
    } else {
      MulMono(p + 1, pc, ps);
      Distribute(ps, p, 1);
    }
  }

  lemma EarnedInFullIff(balance: u64, periodCount: u64, period: nat)
    requires 0 < periodCount <= balance && period <= periodCount
    ensures Earned(balance, periodCount, period) == balance <==> period == periodCount
  {
    var share := Quot(balance, periodCount);
    EarnedBounds(balance, periodCount, period);
    FloorAtLeast(balance, periodCount, 1);
    assert balance == share * periodCount + Rem(balance, periodCount) && share >= 1;
    hide Quot, Rem;
    if period < periodCount {
      MulMono(period + 1, periodCount, share);
      Distribute(share, period, 1);
    }
  }

  lemma SmallBalanceEarned(l: Locker)
    requires Scheduled(l) && l.startBalance < l.periodCount
    ensures Earned(l.startBalance, l.periodCount, PeriodAt(l, l.endTs - 1)) == l.startBalance
  {
    var n, r, pc, ps := l.endTs - l.startTs, Shift(l), l.periodCount, PeriodSecs(l);
    FloorUnique(l.startBalance, pc, Quot(l.startBalance, pc), 0);
    assert ps * pc <= n + r;
    hide Shift, PeriodSecs, Rem, Quot;
    if pc > 1 {
      MulMono(2, pc, ps);
      FloorAtLeast(n - 1 + r, ps, 1);
    }
  }

  /** The whole balance vests before the end exactly if there are more periods than tokens, or if
      twice the shift is not a multiple of the period count. */
  lemma FullBeforeEndIff(l: Locker)
    requires Scheduled(l) && Computable(l)
    ensures (exists ts: i64 :: ts < l.endTs && l.startTs <= ts && TotalVested(l, ts) == Ok(l.startBalance))
      <==> l.startBalance < l.periodCount || Rem(2 * Shift(l), l.periodCount) != 0
  {
    var last := l.endTs - 1;
    UnlockIs(l, last);
    LastPeriodIff(l);
    if l.startBalance < l.periodCount {
      SmallBalanceEarned(l);
    } else {
      EarnedInFullIff(l.startBalance, l.periodCount, PeriodAt(l, last));
    }
    hide LinearUnlock, PeriodAt, Earned, Shift, Rem, Computable;
    assert TotalVested(l, last) == Ok(l.startBalance) <==>
      l.startBalance < l.periodCount || Rem(2 * Shift(l), l.periodCount) != 0;
    forall ts: i64 | ts < l.endTs && l.startTs <= ts && TotalVested(l, ts) == Ok(l.startBalance)
      ensures TotalVested(l, last) == Ok(l.startBalance)
    {
      VestedMonotone(l, ts, last);
    }
  }

  /** Three periods over five seconds: everything has vested after four. */
  lemma FullTooEarly()
    ensures var l := Locker(300, 300, 0, 100, 105, 3);
      Scheduled(l) && Computable(l) && TotalVested(l, 104) == Ok(300) && 104 < l.endTs
  {
    var l := Locker(300, 300, 0, 100, 105, 3);
    FloorUnique(5, 3, Quot(5, 3), 1);
    assert Shift(l) == 2;
    FloorUnique(7, 3, Quot(7, 3), 2);
    FloorUnique(6, 2, Quot(6, 2), 3);
    UnlockIs(l, 104);
    EarnedBounds(300, 3, 3);
    hide LinearUnlock, Earned;
  }

  // ----- a locker's life

  function AvailableForWithdrawal(l: Locker, now: i64): Result<u64> {
    var withdrawn :- Checked(l.startBalance - l.currentBalance);
    var total :- TotalVested(l, now);
    var vested :- Checked(total - withdrawn);
    var balance :- Checked(l.currentBalance - l.whitelistOwned);
    Ok(Min(vested, balance))
  }

  function Create(deposit: u64, startTs: i64, endTs: i64, periodCount: u64): Result<Locker> {
    var _ :- Guard(deposit != 0, InvalidDepositAmount);
    var valid :- IsValidSchedule(startTs, endTs, periodCount);
    var _ :- Guard(valid, InvalidSchedule);
    Ok(Locker(deposit, deposit, 0, startTs, endTs, periodCount))
  }

  function Withdraw(l: Locker, now: i64, released: bool, amount: u64): Result<Locker> {
    var _ :- Guard(released, UnreleasedReward);
    var available :- AvailableForWithdrawal(l, now);
    var _ :- Guard(amount <= available, InsufficientWithdrawalBalance);
    var rest :- Checked(l.currentBalance - amount);
    Ok(l.(currentBalance := rest))
  }

  /** The bookkeeping of a relayed call saw `moved` tokens leave the vault. */
  function SendToWhitelist(l: Locker, amount: u64, moved: int): Result<Locker> {
    var withdrawn :- Checked(moved);
    var _ :- Guard(withdrawn <= amount, WhitelistWithdrawLimit);
    var owned :- Checked(l.whitelistOwned + withdrawn);
    Ok(l.(whitelistOwned := owned))
  }

  /** The bookkeeping of a relayed call saw `moved` tokens enter the vault. */
  function ReturnFromWhitelist(l: Locker, moved: int): Result<Locker> {
    var deposited :- Checked(moved);
    var _ :- Guard(deposited > 0, InsufficientWhitelistDepositAmount);
    var _ :- Guard(deposited <= l.whitelistOwned, WhitelistDepositOverflow);
    Ok(l.(whitelistOwned := l.whitelistOwned - deposited))
  }

  /** Once the reward keeper has released it, exactly what has vested and has neither been withdrawn nor
      sent out may be withdrawn, and it comes off the balance. */
  lemma WithdrawIff(l: Locker, now: i64, released: bool, amount: u64)
    requires Scheduled(l) && Computable(l) && l.whitelistOwned <= l.currentBalance <= l.startBalance
    requires TotalVested(l, now).Ok? && l.startBalance - l.currentBalance <= TotalVested(l, now).value
    ensures Withdraw(l, now, released, amount).Ok? <==>
      && released && l.startBalance - l.currentBalance + amount <= TotalVested(l, now).value
      && amount <= l.currentBalance - l.whitelistOwned
    ensures Withdraw(l, now, released, amount).Ok? ==>
      Withdraw(l, now, released, amount).value == l.(currentBalance := l.currentBalance - amount)
  {
    hide TotalVested, Scheduled, Computable;
  }

  /** What has vested is the share of the periods that have passed, rounded up by less than the period count;
      a period is the window, lengthened by the shift, over the number of periods. */
  lemma VestedInPeriods(l: Locker, ts: i64) returns (p: nat)
    requires Scheduled(l) && Computable(l) && l.startTs <= ts < l.endTs
    ensures TotalVested(l, ts).Ok?
    ensures var v, pc, secs := TotalVested(l, ts).value, l.periodCount, PeriodSecs(l);
      && p <= pc && (p == 0 ==> v == 0) && (p > 0 ==> p * l.startBalance <= v * pc < p * l.startBalance + pc * pc)
      && secs * pc <= l.endTs - l.startTs + Shift(l) < secs * pc + pc
      && (p < pc ==> p * secs <= ts - l.startTs + Shift(l) < p * secs + secs)
      && (p == pc ==> pc * secs <= ts - l.startTs + Shift(l))
  {
    UnlockIs(l, ts);
    p := PeriodAt(l, ts);
    var secs, elapsed := PeriodSecs(l), ts - l.startTs + Shift(l);
    var count := Quot(elapsed, secs);
    assert count * secs <= elapsed < count * secs + secs && p == Min(count, l.periodCount);
    SharesEarned(l.startBalance, l.periodCount, p);
    hide LinearUnlock, Earned, Shift, Quot;
    if count > l.periodCount { MulMono(l.periodCount, count, secs); }
  }

  lemma SharesEarned(balance: u64, periodCount: u64, p: nat)
    requires 0 < p <= periodCount || (p == 0 && periodCount > 0)
    ensures p == 0 ==> Earned(balance, periodCount, p) == 0
    ensures p > 0 ==> p * balance <= Earned(balance, periodCount, p) * periodCount < p * balance + periodCount * periodCount
  {
    var share, rest := Quot(balance, periodCount), Rem(balance, periodCount);
    assert balance == share * periodCount + rest;
    hide Quot, Rem;
    if p > 0 { EarnedShare(balance, periodCount, p, share, rest); }
  }

  lemma EarnedShare(balance: nat, n: nat, p: nat, share: nat, rest: nat)
    requires balance == share * n + rest && rest < n && 0 < p <= n
    ensures p * balance <= (p * share + rest) * n < p * balance + n * n
  {
    Distribute(p, share * n, rest);
    Assoc(p, share, n);
    Distribute(n, p * share, rest);
    MulMono(p, n, rest);
    MulMono(rest + 1, n, n);
    MulMono(0, rest, p);
  }

  /** A relayed call moves `moved` tokens out of a vault, or in if negative. */
  function Relay(tokens: nat, moved: int): Result<nat> {
    if 0 <= tokens - moved < U64 then Ok(tokens - moved) else Err(InvalidAmount)
  }

  class TokenVault {
    var amount: u64

    constructor (amount: u64)
      ensures this.amount == amount
    {
      this.amount := amount;
    }

    method MoveOut(moved: int) returns (r: Result<()>)
      modifies this
      ensures r == Done(Relay(old(amount), moved))
      ensures amount == if r.Ok? then old(amount) - moved else old(amount)
    {
      if !(0 <= amount - moved < U64) { return Err(InvalidAmount); }
      amount := amount - moved;
      return Ok(());
    }
  }

  class LockerAccount {
    const startBalance: u64
    const startTs: i64
    const endTs: i64
    const periodCount: u64
    var currentBalance: u64
    var whitelistOwned: u64

    function State(): Locker
      reads this
    {
      Locker(startBalance, currentBalance, whitelistOwned, startTs, endTs, periodCount)
    }

    constructor Unpack(l: Locker)
      ensures State() == l
    {
      startBalance, startTs, endTs, periodCount := l.startBalance, l.startTs, l.endTs, l.periodCount;
      currentBalance, whitelistOwned := l.currentBalance, l.whitelistOwned;
    }

    method WithdrawVested(now: i64, released: bool, amount: u64) returns (r: Result<()>)
      modifies this`currentBalance
      ensures r == Done(Withdraw(old(State()), now, released, amount))
      ensures State() == if r.Ok? then Withdraw(old(State()), now, released, amount).value else old(State())
    {
      hide AvailableForWithdrawal;
      if !released { return Err(UnreleasedReward); }
      var available :- AvailableForWithdrawal(State(), now);
      if amount > available { return Err(InsufficientWithdrawalBalance); }
      if amount > currentBalance { return Err(Panic); }
      currentBalance := currentBalance - amount;
      return Ok(());
    }

    method RecordSent(amount: u64, before: u64, after: u64) returns (r: Result<()>)
      modifies this`whitelistOwned
      ensures r == Done(SendToWhitelist(old(State()), amount, before - after))
      ensures State() == if r.Ok? then SendToWhitelist(old(State()), amount, before - after).value else old(State())
    {
      if before < after { return Err(Panic); }
      var withdrawn := before - after;
      if withdrawn > amount { return Err(WhitelistWithdrawLimit); }
      if whitelistOwned + withdrawn >= U64 { return Err(Panic); }
      whitelistOwned := whitelistOwned + withdrawn;
      return Ok(());
    }

    method RecordReturned(before: u64, after: u64) returns (r: Result<()>)
      modifies this`whitelistOwned
      ensures r == Done(ReturnFromWhitelist(old(State()), after - before))
      ensures State() == if r.Ok? then ReturnFromWhitelist(old(State()), after - before).value else old(State())
    {
      if after < before { return Err(Panic); }
      var deposited := after - before;
      if deposited <= 0 { return Err(InsufficientWhitelistDepositAmount); }
      if deposited > whitelistOwned { return Err(WhitelistDepositOverflow); }
      whitelistOwned := whitelistOwned - deposited;
      return Ok(());
    }

    /** As written: both readings come from the copy of the vault that the instruction was given, so
        whatever the relayed call takes, the locker records nothing and `amount` limits nothing. */
    method WithdrawToWhitelist(vault: TokenVault, amount: u64, moved: int) returns (r: Result<()>)
      modifies this`whitelistOwned, vault
      ensures r == Done(Relay(old(vault.amount), moved))
      ensures State() == old(State())
      ensures vault.amount == if r.Ok? then old(vault.amount) - moved else old(vault.amount)
    {
      var loaded := vault.amount;
      var before := loaded;
      var _ :- vault.MoveOut(moved);
      var after := loaded;
      r := RecordSent(amount, before, after);
    }

    /** As written: a return is never seen to bring anything, so it fails and the runtime takes it back. */
    method DepositFromWhitelist(vault: TokenVault, moved: int) returns (r: Result<()>)
      modifies this`whitelistOwned, vault
      ensures r == (match Relay(old(vault.amount), -moved)
                    case Ok(_) => Err(InsufficientWhitelistDepositAmount) case Err(e) => Err(e))
      ensures State() == old(State())
    {
      var loaded := vault.amount;
      var before := loaded;
      var _ :- vault.MoveOut(-moved);
      var after := loaded;
      r := RecordReturned(before, after);
    }
  }

  /** A locker with its vault and the clock. */
  datatype Vault = Vault(locker: Locker, tokens: nat, now: i64)

  datatype Action =
    | Wait(ts: i64)
    | WithdrawTokens(released: bool, amount: u64)
    | Send(amount: u64, moved: int)
    | Return(moved: int)

  /** What the bookkeeping sees of the tokens a relayed call moved.  The code compares the vault's balance
      with itself, read twice from one copy that the call does not refresh (`Stale`).  What it is written
      for is a copy loaded again after the call (`Reloaded`). */
  datatype Reading = Stale | Reloaded {
    function Seen(moved: int): int { if Stale? then 0 else moved }
  }

  /** The token program refuses to move more than the vault holds. */
  function Act(v: Vault, a: Action, reading: Reading): Result<Vault> {
    match a
    case Wait(ts) => if v.now <= ts then Ok(v.(now := ts)) else Err(InvalidAccountInput)
    case WithdrawTokens(released, amount) =>
      var l :- Withdraw(v.locker, v.now, released, amount);
      if amount > v.tokens then Err(TokenTransferFailed) else Ok(v.(locker := l, tokens := v.tokens - amount))
    case Send(amount, moved) =>
      var tokens :- Relay(v.tokens, moved);
      var l :- SendToWhitelist(v.locker, amount, reading.Seen(moved));
      Ok(v.(locker := l, tokens := tokens))
    case Return(moved) =>
      var tokens :- Relay(v.tokens, -moved);
      var l :- ReturnFromWhitelist(v.locker, reading.Seen(moved));
      Ok(v.(locker := l, tokens := tokens))
  }

  function Run(v: Vault, actions: seq<Action>, reading: Reading): Vault {
    if actions == [] then v
    else
      var u := Run(v, actions[..|actions| - 1], reading);
      match Act(u, actions[|actions| - 1], reading) case Ok(x) => x case Err(_) => u
  }

  /** No more has been withdrawn than has vested, and no more is out than is left. */
  predicate BooksOk(v: Vault) {
    var l := v.locker;
    && Scheduled(l) && Computable(l) && l.whitelistOwned <= l.currentBalance <= l.startBalance
    && TotalVested(l, v.now).Ok? && l.startBalance - l.currentBalance <= TotalVested(l, v.now).value
  }

  /** ... and the vault holds the difference. */
  predicate VaultOk(v: Vault) {
    BooksOk(v) && v.tokens == v.locker.currentBalance - v.locker.whitelistOwned
  }

  lemma CreatedOk(deposit: u64, startTs: i64, endTs: i64, periodCount: u64, now: i64)
    requires Create(deposit, startTs, endTs, periodCount).Ok?
    ensures var l := Create(deposit, startTs, endTs, periodCount).value;
      Scheduled(l) && (Computable(l) ==> VaultOk(Vault(l, deposit, now)))
  {
    hide LinearUnlock, Computable;
    var l := Create(deposit, startTs, endTs, periodCount).value;
    if Computable(l) { VestedMonotone(l, now, now); }
  }

  /** What may be withdrawn now is defined, within what is left - so within the vault if that is backed -
      and leaves no more withdrawn than vested. */
  lemma AvailableIs(v: Vault)
    requires BooksOk(v)
    ensures AvailableForWithdrawal(v.locker, v.now).Ok?
    ensures var available := AvailableForWithdrawal(v.locker, v.now).value;
      && available <= v.locker.currentBalance - v.locker.whitelistOwned
      && (VaultOk(v) ==> available <= v.tokens)
      && v.locker.startBalance - v.locker.currentBalance + available <= TotalVested(v.locker, v.now).value
  {
    hide TotalVested, Scheduled, Computable;
  }

  lemma SameSchedule(l: Locker, m: Locker)
    requires m == l.(currentBalance := m.currentBalance, whitelistOwned := m.whitelistOwned)
    ensures Scheduled(m) == Scheduled(l)
    ensures Scheduled(l) ==> Computable(m) == Computable(l) && Shift(m) == Shift(l) && PeriodSecs(m) == PeriodSecs(l)
  {
    hide Rem, Quot;
  }

  lemma VestedIgnoresBalances(l: Locker, m: Locker, ts: i64)
    requires m == l.(currentBalance := m.currentBalance, whitelistOwned := m.whitelistOwned)
    requires Scheduled(l)
    ensures TotalVested(m, ts) == TotalVested(l, ts)
    ensures Scheduled(m) && Computable(m) == Computable(l)
  {
    SameSchedule(l, m);
    if l.startTs <= ts < l.endTs {
      UnlockIs(l, ts);
      UnlockIs(m, ts);
      assert PeriodAt(m, ts) == PeriodAt(l, ts) by { hide Shift, PeriodSecs; }
    }
    hide LinearUnlock, PeriodAt, Earned, Computable, Scheduled;
  }

  // ----- the code as written

  /** Whatever the relayed calls do, the books stay in order, nothing panics, and no return succeeds. */
  lemma ActKeepsBooks(v: Vault, a: Action)
    requires BooksOk(v)
    ensures Act(v, a, Stale).Ok? ==> BooksOk(Act(v, a, Stale).value)
    ensures Act(v, a, Stale) != Err(Panic)
    ensures a.Return? ==> Act(v, a, Stale).Err?
  {
    AvailableIs(v);
    hide TotalVested, Scheduled, Computable, AvailableForWithdrawal;
    if Act(v, a, Stale).Ok? {
      var u := Act(v, a, Stale).value;
      if a.Wait? {
        VestedMonotone(v.locker, v.now, u.now);
      } else {
        VestedIgnoresBalances(v.locker, u.locker, v.now);
      }
    }
  }

  /** Over any run: withdrawn <= vested(now) and whitelist_owned <= current_balance. */
  lemma {:induction false} RunKeepsBooks(v: Vault, actions: seq<Action>)
    requires BooksOk(v)
    ensures BooksOk(Run(v, actions, Stale))
  {
    hide BooksOk, Act;
    if actions != [] {
      RunKeepsBooks(v, actions[..|actions| - 1]);
      ActKeepsBooks(Run(v, actions[..|actions| - 1], Stale), actions[|actions| - 1]);
    }
  }

  /** What the successful sends of a run have taken out of the vault. */
  function MovedOut(v: Vault, actions: seq<Action>): int {
    if actions == [] then 0
    else
      var front, a := actions[..|actions| - 1], actions[|actions| - 1];
      MovedOut(v, front) + (if a.Send? && Act(Run(v, front, Stale), a, Stale).Ok? then a.moved else 0)
  }

  /** The vault falls behind the books by exactly what the sends took, and the locker records none of it. */
  lemma {:induction false} RunFallsBehind(v: Vault, actions: seq<Action>)
    ensures var u := Run(v, actions, Stale);
      && u.locker.whitelistOwned == v.locker.whitelistOwned
      && u.tokens - u.locker.currentBalance == v.tokens - v.locker.currentBalance - MovedOut(v, actions)
  {
    hide AvailableForWithdrawal;
    if actions != [] { RunFallsBehind(v, actions[..|actions| - 1]); }
  }

  /** A relayed call keeps the vault backed exactly if it moves nothing ... */
  lemma RelayKeepsOkIff(v: Vault, a: Action)
    requires VaultOk(v) && (a.Send? || a.Return?) && Act(v, a, Stale).Ok?
    ensures VaultOk(Act(v, a, Stale).value) <==> a.moved == 0
  {
    ActKeepsBooks(v, a);
    hide BooksOk;
  }

  /** ... and a run exactly if its sends cancel out. */
  lemma RunKeepsOkIff(v: Vault, actions: seq<Action>)
    requires VaultOk(v)
    ensures VaultOk(Run(v, actions, Stale)) <==> MovedOut(v, actions) == 0
  {
    RunKeepsBooks(v, actions);
    RunFallsBehind(v, actions);
    hide BooksOk, Run;
  }

  /** A withdrawal finds the vault short exactly if it asks for more than the vault holds, but for no more
      than the calculator says is available. */
  lemma ShortIff(v: Vault, amount: u64)
    requires BooksOk(v)
    ensures Act(v, WithdrawTokens(true, amount), Stale) == Err(TokenTransferFailed)
      <==> v.tokens < amount <= AvailableForWithdrawal(v.locker, v.now).value
  {
    AvailableIs(v);
    hide AvailableForWithdrawal, BooksOk;
  }

  /** It happens: a send with limit zero empties the vault of a vested locker, whose beneficiary is then
      told that everything is available. */
  lemma VaultFallsShort()
    ensures var v := Vault(Locker(100, 100, 0, 0, 10, 1), 100, 20);
      var u := Run(v, [Send(0, 100)], Stale);
      && Create(100, 0, 10, 1) == Ok(v.locker) && VaultOk(v)
      && AvailableForWithdrawal(u.locker, u.now) == Ok(100)
      && Act(u, WithdrawTokens(true, 100), Stale) == Err(TokenTransferFailed)
  {
    var v := Vault(Locker(100, 100, 0, 0, 10, 1), 100, 20);
    FloorUnique(10, 1, Quot(10, 1), 10);
    assert Computable(v.locker);
    assert [Send(0, 100)][..0] == [];
    assert Run(v, [], Stale) == v;
    hide LinearUnlock, Computable;
  }

  // ----- what the bookkeeping is written for

  lemma ActKeepsOk(v: Vault, a: Action)
    requires VaultOk(v)
    ensures Act(v, a, Reloaded).Ok? ==> VaultOk(Act(v, a, Reloaded).value)
    ensures Act(v, a, Reloaded) != Err(TokenTransferFailed)
    ensures a.WithdrawTokens? ==> Act(v, a, Reloaded) != Err(Panic)
    ensures a.Send? && a.moved >= 0 ==> Act(v, a, Reloaded) != Err(Panic)
    ensures a.Return? && a.moved >= 0 ==> Act(v, a, Reloaded) != Err(Panic)
  {
    AvailableIs(v);
    hide TotalVested, Scheduled, Computable, AvailableForWithdrawal;
    if Act(v, a, Reloaded).Ok? {
      var u := Act(v, a, Reloaded).value;
      if a.Wait? {
        VestedMonotone(v.locker, v.now, u.now);
      } else {
        VestedIgnoresBalances(v.locker, u.locker, v.now);
      }
    }
  }

  /** With a vault loaded again after each relayed call, any run of withdrawals, sends and returns also
      keeps the vault backed. */
  lemma {:induction false} RunKeepsOk(v: Vault, actions: seq<Action>)
    requires VaultOk(v)
    ensures VaultOk(Run(v, actions, Reloaded))
  {
    hide VaultOk, Act;
    if actions != [] {
      RunKeepsOk(v, actions[..|actions| - 1]);
      ActKeepsOk(Run(v, actions[..|actions| - 1], Reloaded), actions[|actions| - 1]);
    }
  }

  /** A locker whose schedule is not computable pays nothing before its end: every withdrawal within
      the window panics. */
  lemma UncomputableLocksUntilEnd(l: Locker, now: i64, amount: u64)
    requires Scheduled(l) && !Computable(l) && l.startTs <= now < l.endTs
    ensures Withdraw(l, now, true, amount) == Err(Panic)
  {
    UnlockIs(l, now);
    hide LinearUnlock;
  }
}
