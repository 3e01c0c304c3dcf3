/** Supply-to-earn rewards (reearn/programs/reearn_program/src/state/supply_to_earn.rs,
    instructions/supply_to_earn.rs, instructions/claim_ste_reward.rs).

    A supplier's reward accrues for the time its refreshes span within the programme's window.  The
    program is built without overflow checks, so sums of timestamps and of accumulated rewards wrap. */
module SupplyToEarn {
  import opened Results
  import opened FloorMath
  import opened FixedPoint
  import opened Valuation

  const YEAR: u64 := 31536000

  /** The yearly rate in whole per cent. */
  datatype Terms = Terms(apyPercentage: u64, tokenDecimals: u8, startTime: i64, endTime: i64)

  datatype ReserveReward = ReserveReward(accumulated: u64, lastSupply: i64, initialized: bool)

  // ----- the rewardable duration

  function MaxTime(a: i64, b: i64): i64 { if a >= b then a else b }

  function MinTime(a: i64, b: i64): i64 { if a <= b then a else b }

  function RewardableDuration(t: Terms, now: i64, last: i64): i64 {
    if t.startTime <= now <= t.endTime then WrapI64(now - MaxTime(last, t.startTime))
    else if now > t.endTime then
      if last < t.startTime then WrapI64(t.endTime - t.startTime)
      else WrapI64(t.endTime - MinTime(last, t.endTime))
    else 0
  }

  /** Length of the part of [last, now] that lies in the programme's window. */
  function Overlap(t: Terms, last: i64, now: i64): nat {
    var from, to := MaxTime(last, t.startTime), MinTime(now, t.endTime);
    if from <= to then to - from else 0
  }

  /** For a window that does not end before it starts, the duration is the length of the intersection
      exactly as long as that length fits a signed 64-bit number. */
  lemma DurationIsOverlap(t: Terms, now: i64, last: i64)
    requires t.startTime <= t.endTime && last <= now
    ensures RewardableDuration(t, now, last) == Overlap(t, last, now)
      <==> Overlap(t, last, now) < 0x8000_0000_0000_0000
  {
  }

  /** Of programmes with times since the epoch, exactly those whose window ends before it starts can be
      made to count a negative time - which the reward then takes for an enormous one. */
  lemma NeverNegativeIffOrdered(t: Terms)
    requires 0 <= t.startTime && 0 <= t.endTime
    ensures (forall now: i64, last: i64 :: 0 <= last <= now ==> RewardableDuration(t, now, last) >= 0)
      <==> t.startTime <= t.endTime
    ensures t.endTime < t.startTime ==>
      AsU64(RewardableDuration(t, t.endTime + 1, 0)) == U64 - (t.startTime - t.endTime)
  {
    hide WrapI64;
    forall n: i64 ensures WrapI64(n) == n { SmallStays(n); }
    if t.endTime < t.startTime {
      var now: i64 := t.endTime + 1;
      assert RewardableDuration(t, now, 0) == t.endTime - t.startTime;
    }
  }

  lemma SmallStays(n: i64)
    ensures WrapI64(n) == n
  {
  }

  lemma OverlapAdds(t: Terms, a: i64, b: i64, c: i64)
    requires a <= b <= c && t.startTime <= t.endTime
    ensures Overlap(t, a, b) + Overlap(t, b, c) == Overlap(t, a, c)
  {
  }

  predicate InOrder(times: seq<i64>) { forall i, j :: 0 <= i <= j < |times| ==> times[i] <= times[j] }

  function SumOverlaps(t: Terms, times: seq<i64>): nat {
    if |times| < 2 then 0
    else SumOverlaps(t, times[..|times| - 1]) + Overlap(t, times[|times| - 2], times[|times| - 1])
  }

  /** However a span is divided, its pieces count for as long as the whole. */
  lemma {:induction false} PartitionAddsUp(t: Terms, times: seq<i64>)
    requires t.startTime <= t.endTime && InOrder(times) && times != []
    ensures SumOverlaps(t, times) == Overlap(t, times[0], times[|times| - 1])
  {
    if |times| > 1 {
      PartitionAddsUp(t, times[..|times| - 1]);
      OverlapAdds(t, times[0], times[|times| - 2], times[|times| - 1]);
    }
  }

  // ----- the reward

  /** `10u64.pow(..)`, wrapping. */
  function WrappedPow10(k: u8): u64 { TenTo(k) % U64 }

  function CalculateReward(t: Terms, supply: u64, supplyDecimals: u8, now: i64, last: i64): Result<u64> {
    var duration := RewardableDuration(t, now, last);
    var amount :- DivInt(FromInt(supply), WrappedPow10(supplyDecimals));
    var yearly :- MulInt(amount, t.apyPercentage);
    RewardFor(yearly, AsU64(duration), WrappedPow10(t.tokenDecimals))
  }

  /** The reward for `seconds` at a yearly rate, in raw tokens. */
  function RewardFor(yearly: Decimal, seconds: u64, scale: u64): Result<u64> {
    var total :- MulInt(yearly, seconds);
    var perYear :- DivInt(total, YEAR);
    var earned :- DivInt(perYear, 100);
    var raw :- MulInt(earned, scale);
    FloorU64(raw)
  }

  /** What the floors of `RewardFor` come to. */
  function Earned(yearly: nat, seconds: nat, scale: nat): nat { yearly * seconds / YEAR / 100 * scale / WAD }

  lemma RewardForIs(yearly: Decimal, seconds: u64, scale: u64)
    requires RewardFor(yearly, seconds, scale).Ok?
    ensures RewardFor(yearly, seconds, scale).value == Earned(yearly, seconds, scale)
  {
  }

  /** A reward that can be computed for a span can be computed for any shorter one, and is no larger. */
  lemma ShorterIsDefined(yearly: Decimal, a: u64, b: u64, scale: u64)
    requires a <= b && RewardFor(yearly, b, scale).Ok?
    ensures RewardFor(yearly, a, scale).Ok?
    ensures RewardFor(yearly, a, scale).value <= RewardFor(yearly, b, scale).value
  {
    ShorterShares(yearly, a, b, scale);
    RewardForIs(yearly, b, scale);
    hide Earned;
  }

  lemma ShorterShares(yearly: nat, a: nat, b: nat, scale: nat)
    requires a <= b
    ensures yearly * a <= yearly * b && yearly * a / YEAR / 100 * scale <= yearly * b / YEAR / 100 * scale
    ensures Earned(yearly, a, scale) <= Earned(yearly, b, scale)
  {
    MulMono(a, b, yearly);
    FloorMono(yearly * a, yearly * b, YEAR);
    FloorMono(yearly * a / YEAR, yearly * b / YEAR, 100);
    MulMono(yearly * a / YEAR / 100, yearly * b / YEAR / 100, scale);
    FloorMono(yearly * a / YEAR / 100 * scale, yearly * b / YEAR / 100 * scale, WAD);
  }

  lemma EarnedAdds(yearly: nat, a: nat, b: nat, scale: nat)
    ensures Earned(yearly, a, scale) + Earned(yearly, b, scale) <= Earned(yearly, a + b, scale)
    ensures scale <= WAD ==>
      Earned(yearly, a + b, scale) <= Earned(yearly, a, scale) + Earned(yearly, b, scale) + 2
  {
    Distribute(yearly, a, b);
    FloorFloor(yearly * a, YEAR, 100);
    FloorFloor(yearly * b, YEAR, 100);
    FloorFloor(yearly * (a + b), YEAR, 100);
    FloorSum(yearly * a, yearly * b, YEAR * 100);
    var x, y, z := yearly * a / YEAR / 100, yearly * b / YEAR / 100, yearly * (a + b) / YEAR / 100;
    assert x + y <= z <= x + y + 1;
    ScaledAdds(x, y, z, scale);
  }

  lemma ScaledAdds(x: nat, y: nat, z: nat, scale: nat)
    requires x + y <= z <= x + y + 1
    ensures x * scale / WAD + y * scale / WAD <= z * scale / WAD
    ensures scale <= WAD ==> z * scale / WAD <= x * scale / WAD + y * scale / WAD + 2
  {
    Distribute(scale, x, y);
    MulMono(x + y, z, scale);
    MulMono(z, x + y + 1, scale);
    Distribute(scale, x + y, 1);
    FloorSum(x * scale, y * scale, WAD);
    FloorMono(x * scale + y * scale, z * scale, WAD);
    if scale <= WAD { FloorBelow(z * scale, WAD, x * scale / WAD + y * scale / WAD + 3); }
  }

  // ----- the two instructions

  /** `exec` of supply_to_earn.  `deposited` is the outcome of looking the reserve up among the
      obligation's deposits. */
  function Refresh(r: ReserveReward, t: Terms, deposited: Result<u64>, decimals: u8, now: i64): Result<ReserveReward> {
    if !r.initialized then Ok(ReserveReward(0, now, true))
    else if deposited.Err? then Ok(r.(accumulated := 0, lastSupply := now))
    else
      var reward :- CalculateReward(t, deposited.value, decimals, now, r.lastSupply);
      Ok(r.(accumulated := (r.accumulated + reward) % U64, lastSupply := now))
  }

  /** `exec` of claim_ste_reward; also returns what is paid. */
  function Claim(r: ReserveReward, t: Terms, deposited: Result<u64>, decimals: u8, now: i64): Result<(ReserveReward, u64)> {
    var amount :- deposited;
    var reward :- CalculateReward(t, amount, decimals, now, r.lastSupply);
    Ok((r.(accumulated := 0, lastSupply := now), (r.accumulated + reward) % U64))
  }

  class ReserveRewardAccount {
    var accumulated: u64
    var lastSupply: i64
    var initialized: bool

    function State(): ReserveReward
      reads this
    {
      ReserveReward(accumulated, lastSupply, initialized)
    }

    constructor Unpack(r: ReserveReward)
      ensures State() == r
    {
      accumulated, lastSupply, initialized := r.accumulated, r.lastSupply, r.initialized;
    }

    method SupplyToEarn(t: Terms, deposited: Result<u64>, decimals: u8, now: i64) returns (outcome: Result<()>)
      modifies this
      ensures outcome == Done(Refresh(old(State()), t, deposited, decimals, now))
      ensures State() == if outcome.Ok? then Refresh(old(State()), t, deposited, decimals, now).value else old(State())
    {
      hide CalculateReward;
      if !initialized {
        initialized := true;
        accumulated := 0;
        lastSupply := now;
      } else {
        match deposited {
          case Ok(amount) =>
            var reward :- CalculateReward(t, amount, decimals, now, lastSupply);
            accumulated := (accumulated + reward) % U64;
          case Err(_) => accumulated := 0;
        }
        lastSupply := now;
      }
      return Ok(());
    }

    /** A claim without a deposit resets the account and fails, so the runtime takes the reset back. */
    method ClaimReward(t: Terms, deposited: Result<u64>, decimals: u8, now: i64) returns (outcome: Result<u64>)
      modifies this
      ensures outcome == (match Claim(old(State()), t, deposited, decimals, now) case Ok(p) => Ok(p.1) case Err(e) => Err(e))
      ensures outcome.Ok? ==> State() == Claim(old(State()), t, deposited, decimals, now).value.0
    {
      hide CalculateReward;
      match deposited
      case Ok(amount) =>
        var reward :- CalculateReward(t, amount, decimals, now, lastSupply);
        var total := (accumulated + reward) % U64;
        lastSupply := now;
        accumulated := 0;
        return Ok(total);
      case Err(e) =>
        accumulated := 0;
        lastSupply := now;
        return Err(e);
    }
  }

  // ----- how much

  /** Powers of ten that fit 64 bits do not wrap. */
  lemma SmallPow(k: u8)
    requires TenTo(k) < U64
    ensures WrappedPow10(k) == TenTo(k)
  {
  }

  /** reward · (a year's seconds · 100) · 10^d is supply · per cent · seconds · 10^k, to within one raw token
      and a few units. */
  predicate RewardBrackets(reward: nat, supply: nat, apy: nat, seconds: nat, unit: nat, scale: nat) {
    && reward * (365 * 86_400 * 100) * unit <= supply * apy * seconds * scale
    && supply * apy * seconds * scale * WAD
         <= (reward + 1) * WAD * (365 * 86_400 * 100) * unit + unit * scale * (365 * 86_400 * 100 + apy * seconds)
  }

  lemma RewardIsExact(t: Terms, supply: u64, decimals: u8, now: i64, last: i64)
    requires Ordered(t) && last <= now && TenTo(decimals) < U64 && TenTo(t.tokenDecimals) < U64
    requires CalculateReward(t, supply, decimals, now, last).Ok?
    ensures RewardBrackets(CalculateReward(t, supply, decimals, now, last).value, supply, t.apyPercentage,
                           Overlap(t, last, now), TenTo(decimals), TenTo(t.tokenDecimals))
  {
    RewardIs(t, supply, decimals, now, last);
    SmallPow(decimals);
    SmallPow(t.tokenDecimals);
    hide CalculateReward, WrappedPow10, RewardFor, TenTo, RewardBrackets, Overlap, Earned;
    var unit, scale, seconds := TenTo(decimals), TenTo(t.tokenDecimals), Overlap(t, last, now);
    var amount := DivInt(FromInt(supply), unit).value;
    RewardForIs(amount * t.apyPercentage, seconds, scale);
    RewardBracket(supply, amount, t.apyPercentage, seconds, unit, scale);
  }

  lemma RewardBracket(supply: nat, amount: nat, apy: nat, seconds: nat, unit: nat, scale: nat)
    requires unit > 0 && amount * unit <= supply * WAD < amount * unit + unit
    ensures RewardBrackets(Earned(amount * apy, seconds, scale), supply, apy, seconds, unit, scale)
  {
    var total := amount * apy * seconds;
    var earned := total / YEAR / 100;
    var reward := Earned(amount * apy, seconds, scale);
    FloorFloor(total, YEAR, 100);
    assert earned * 3_153_600_000 <= total < earned * 3_153_600_000 + 3_153_600_000;
    assert reward * WAD <= earned * scale < reward * WAD + WAD;
    hide Earned;
    RewardUpper(supply, amount, apy, seconds, unit, scale, earned, reward);
    RewardLower(supply, amount, apy, seconds, unit, scale, earned, reward);
  }

  lemma RewardUpper(supply: nat, amount: nat, apy: nat, seconds: nat, unit: nat, scale: nat, earned: nat, reward: nat)
    requires amount * unit <= supply * WAD && earned * 3_153_600_000 <= amount * apy * seconds && reward * WAD <= earned * scale
    ensures reward * 3_153_600_000 * unit <= supply * apy * seconds * scale
  {
    MulMono(reward * WAD, earned * scale, 3_153_600_000);
    MulMono(earned * 3_153_600_000, amount * apy * seconds, scale);
    Assoc(earned, scale, 3_153_600_000);
    MulMono(reward * WAD * 3_153_600_000, amount * apy * seconds * scale, unit);
    MulMono(amount * unit, supply * WAD, apy * seconds * scale);
    RegroupReward(amount, apy, seconds, scale, unit);
    RegroupReward(supply, apy, seconds, scale, WAD);
    RegroupPaid(reward, unit);
    MulCancel(reward * 3_153_600_000 * unit, supply * apy * seconds * scale, WAD);
  }

  lemma RegroupReward(amount: int, apy: int, seconds: int, scale: int, unit: int)
    ensures (amount * apy * seconds * scale) * unit == (amount * unit) * (apy * seconds * scale)
  {
    assert amount * apy * seconds * scale == amount * (apy * seconds * scale);
    Assoc(amount, apy * seconds * scale, unit);
  }

  lemma RegroupPaid(reward: int, unit: int)
    ensures (reward * WAD * 3_153_600_000) * unit == (reward * 3_153_600_000 * unit) * WAD
  {
  }

  lemma RewardLower(supply: nat, amount: nat, apy: nat, seconds: nat, unit: nat, scale: nat, earned: nat, reward: nat)
    requires supply * WAD < amount * unit + unit && amount * apy * seconds < earned * 3_153_600_000 + 3_153_600_000
    requires earned * scale < reward * WAD + WAD
    ensures supply * apy * seconds * scale * WAD
              <= (reward + 1) * WAD * 3_153_600_000 * unit + unit * scale * (3_153_600_000 + apy * seconds)
  {
    var rate := apy * seconds * scale;
    MulMono(supply * WAD, amount * unit + unit, rate);
    Distribute(rate, amount * unit, unit);
    RegroupReward(supply, apy, seconds, scale, WAD);
    RegroupReward(amount, apy, seconds, scale, unit);
    MulMono(amount * apy * seconds, earned * 3_153_600_000 + 3_153_600_000, scale * unit);
    Assoc(amount * apy * seconds, scale, unit);
    RegroupEarned(earned, scale, unit);
    MulMono(earned * scale, reward * WAD + WAD, 3_153_600_000 * unit);
    RegroupRest(reward, apy, seconds, scale, unit);
  }

  lemma RegroupEarned(earned: int, scale: int, unit: int)
    ensures (earned * 3_153_600_000 + 3_153_600_000) * (scale * unit)
              == (earned * scale) * (3_153_600_000 * unit) + 3_153_600_000 * scale * unit
  {
    Distribute(scale * unit, earned * 3_153_600_000, 3_153_600_000);
    assert (earned * 3_153_600_000) * (scale * unit) == (earned * scale) * (3_153_600_000 * unit);
    Assoc(3_153_600_000, scale, unit);
  }

  lemma RegroupRest(reward: int, apy: int, seconds: int, scale: int, unit: int)
    ensures (reward * WAD + WAD) * (3_153_600_000 * unit) == (reward + 1) * WAD * 3_153_600_000 * unit
    ensures unit * scale * (3_153_600_000 + apy * seconds) == 3_153_600_000 * scale * unit + unit * (apy * seconds * scale)
  {
    Distribute(unit * scale, 3_153_600_000, apy * seconds);
    assert unit * scale * (apy * seconds) == unit * (apy * seconds * scale);
  }

  // ----- any interleaving

  datatype Operation = Operation(claims: bool, now: i64)

  function Operate(r: ReserveReward, t: Terms, supply: u64, decimals: u8, op: Operation): Result<(ReserveReward, u64)> {
    if op.claims then Claim(r, t, Ok(supply), decimals, op.now)
    else
      var s :- Refresh(r, t, Ok(supply), decimals, op.now);
      Ok((s, 0))
  }

  /** Refreshes and claims in turn at a constant supply and rate; also returns everything paid. */
  function Run(r: ReserveReward, t: Terms, supply: u64, decimals: u8, ops: seq<Operation>): Result<(ReserveReward, nat)> {
    if ops == [] then Ok((r, 0))
    else
      var (s, paid) :- Run(r, t, supply, decimals, ops[..|ops| - 1]);
      var (u, amount) :- Operate(s, t, supply, decimals, ops[|ops| - 1]);
      Ok((u, paid + amount))
  }

  predicate FromOnwards(first: i64, ops: seq<Operation>) {
    && (forall i :: 0 <= i < |ops| ==> first <= ops[i].now)
    && forall i, j :: 0 <= i <= j < |ops| ==> ops[i].now <= ops[j].now
  }

  function LastTime(first: i64, ops: seq<Operation>): i64 { if ops == [] then first else ops[|ops| - 1].now }

  /** A window that does not end before it starts, and whose length fits a signed 64-bit number. */
  predicate Ordered(t: Terms) { 0 <= t.endTime - t.startTime < 0x8000_0000_0000_0000 }

  function YearlyReward(t: Terms, supply: u64, decimals: u8): Result<Decimal> {
    var amount :- DivInt(FromInt(supply), WrappedPow10(decimals));
    MulInt(amount, t.apyPercentage)
  }

  lemma RewardIs(t: Terms, supply: u64, decimals: u8, now: i64, last: i64)
    requires Ordered(t) && last <= now
    ensures Overlap(t, last, now) < U64
    ensures CalculateReward(t, supply, decimals, now, last) == (
      var yearly :- YearlyReward(t, supply, decimals);
      RewardFor(yearly, Overlap(t, last, now), WrappedPow10(t.tokenDecimals)))
  {
    DurationIsOverlap(t, now, last);
    hide RewardFor, WrappedPow10, DivInt, MulInt, RewardableDuration;
  }

  /** A reward over a span is the reward over two parts of it, give or take the floors. */
  lemma RewardSplits(t: Terms, supply: u64, decimals: u8, a: i64, b: i64, c: i64)
    requires Ordered(t) && a <= b <= c && CalculateReward(t, supply, decimals, c, a).Ok?
    ensures CalculateReward(t, supply, decimals, b, a).Ok? && CalculateReward(t, supply, decimals, c, b).Ok?
    ensures var x, y, z := CalculateReward(t, supply, decimals, b, a).value, CalculateReward(t, supply, decimals, c, b).value,
                           CalculateReward(t, supply, decimals, c, a).value;
      x + y <= z && (t.tokenDecimals <= 18 ==> z <= x + y + 2)
  {
    RewardIs(t, supply, decimals, b, a);
    RewardIs(t, supply, decimals, c, b);
    RewardIs(t, supply, decimals, c, a);
    OverlapAdds(t, a, b, c);
    var scale := WrappedPow10(t.tokenDecimals);
    if t.tokenDecimals <= 18 { SmallScale(t.tokenDecimals); }
    hide RewardFor, WrappedPow10, CalculateReward, Overlap, Earned, YearlyReward, TenTo;
    var yearly := YearlyReward(t, supply, decimals).value;
    RewardParts(yearly, Overlap(t, a, b), Overlap(t, b, c), Overlap(t, a, c), scale);
  }

  lemma RewardParts(yearly: Decimal, p: nat, q: nat, s: u64, scale: u64)
    requires p + q == s && RewardFor(yearly, s, scale).Ok?
    ensures RewardFor(yearly, p, scale).Ok? && RewardFor(yearly, q, scale).Ok?
    ensures var x, y, z := RewardFor(yearly, p, scale).value, RewardFor(yearly, q, scale).value, RewardFor(yearly, s, scale).value;
      x + y <= z && (scale <= WAD ==> z <= x + y + 2)
  {
    hide RewardFor, Earned;
    ShorterIsDefined(yearly, p, s, scale);
    ShorterIsDefined(yearly, q, s, scale);
    RewardForIs(yearly, p, scale);
    RewardForIs(yearly, q, scale);
    RewardForIs(yearly, s, scale);
    EarnedAdds(yearly, p, q, scale);
  }

  lemma {:induction false} SmallScale(k: u8)
    requires k <= 18
    ensures WrappedPow10(k) <= TenTo(k) <= WAD
  {
    TenToGrows(k, 18);
    assert TenTo(6) == 1_000_000;
    assert TenTo(12) == 1_000_000_000_000;
    assert TenTo(18) == WAD;
  }

  lemma {:induction false} TenToGrows(a: nat, b: nat)
    requires a <= b
    ensures TenTo(a) <= TenTo(b)
    decreases b - a
  {
    if a < b { TenToGrows(a, b - 1); }
  }

  /** One operation moves the reward for its span into what is paid or accumulated. */
  lemma OneOperation(r: ReserveReward, t: Terms, supply: u64, decimals: u8, op: Operation)
    requires r.initialized && CalculateReward(t, supply, decimals, op.now, r.lastSupply).Ok?
    requires r.accumulated + CalculateReward(t, supply, decimals, op.now, r.lastSupply).value < U64
    ensures Operate(r, t, supply, decimals, op).Ok?
    ensures var (s, amount) := Operate(r, t, supply, decimals, op).value;
      && s.initialized && s.lastSupply == op.now
      && amount + s.accumulated == r.accumulated + CalculateReward(t, supply, decimals, op.now, r.lastSupply).value
  {
    hide CalculateReward;
  }

  /** At a constant supply and rate, any interleaving of refreshes and claims from `first` on pays and
      accrues together no more than one claim over the whole span would, and - for reward tokens of at
      most eighteen decimals - falls short of it by at most two raw tokens an operation. */
  lemma {:induction false} InterleavingsPayTheSame(t: Terms, supply: u64, decimals: u8, first: i64, ops: seq<Operation>)
    requires Ordered(t) && FromOnwards(first, ops)
    requires CalculateReward(t, supply, decimals, LastTime(first, ops), first).Ok?
    ensures Run(ReserveReward(0, first, true), t, supply, decimals, ops).Ok?
    ensures var (u, paid) := Run(ReserveReward(0, first, true), t, supply, decimals, ops).value;
      var whole := CalculateReward(t, supply, decimals, LastTime(first, ops), first).value;
      && u.initialized && u.lastSupply == LastTime(first, ops)
      && paid + u.accumulated <= whole
      && (t.tokenDecimals <= 18 ==> whole <= paid + u.accumulated + 2 * |ops|)
  {
    hide CalculateReward;
    var r := ReserveReward(0, first, true);
    if ops == [] {
      InstantEarnsNothing(t, supply, decimals, first);
    } else {
      var front, now := ops[..|ops| - 1], ops[|ops| - 1].now;
      RewardSplits(t, supply, decimals, first, LastTime(first, front), now);
      InterleavingsPayTheSame(t, supply, decimals, first, front);
      OneOperation(Run(r, t, supply, decimals, front).value.0, t, supply, decimals, ops[|ops| - 1]);
      hide Operate;
    }
  }

  lemma InstantEarnsNothing(t: Terms, supply: u64, decimals: u8, now: i64)
    requires Ordered(t) && CalculateReward(t, supply, decimals, now, now).Ok?
    ensures CalculateReward(t, supply, decimals, now, now) == Ok(0)
  {
    RewardIs(t, supply, decimals, now, now);
    var yearly := YearlyReward(t, supply, decimals).value;
    hide RewardFor, CalculateReward, YearlyReward, WrappedPow10, Earned;
    RewardForIs(yearly, 0, WrappedPow10(t.tokenDecimals));
    NoTimeEarnsNothing(yearly, WrappedPow10(t.tokenDecimals));
  }

  lemma NoTimeEarnsNothing(yearly: nat, scale: nat)
    ensures Earned(yearly, 0, scale) == 0
  {
    assert yearly * 0 == 0 && 0 * scale == 0;
  }
}
