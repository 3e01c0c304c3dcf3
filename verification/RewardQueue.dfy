/** The reward queue of a staking pool and the cursors into it
    (restaking/programs/pool-manager/src/lib.rs).

    The queue is a ring buffer of events under counters that only grow.  The class keeps the log of
    every event ever appended beside the ring, and the methods are stated in terms of that log: the
    ring is the log's newest part.  `Run` puts the queue, the rewarders and the stakers together. */
module RewardQueues {
  import opened Results
  import opened FixedPoint

  type Address = nat

  datatype Event = Event(rewarder: Address, ts: i64, locked: bool)

  /** The oldest event a ring of `capacity` slots still holds after `head` appends: one slot is always
      free. */
  function TailOf(head: nat, capacity: nat): (tail: nat)
    ensures tail <= head
  {
    if capacity == 0 || head < capacity then 0 else head - (capacity - 1)
  }

  // ----- slots

  lemma SlotsDiffer(a: nat, b: nat, c: nat)
    requires a < b < a + c
    ensures a % c != b % c
  {
    if a % c == b % c {
      assert b - a == c * (b / c) - c * (a / c);
      FloorMath.Distribute(c, b / c, -(a / c));
      if b / c <= a / c {
        FloorMath.MulMono(b / c, a / c, c);
      } else {
        FloorMath.MulMono(1, b / c - a / c, c);
      }
      assert false;
    }
  }

  lemma SlotsMeet(a: nat, c: nat)
    requires c > 0
    ensures (a + c) % c == a % c
  {
    FloorMath.FloorUnique(a + c, c, (a + c) / c, a / c + 1);
  }

  /** The code's test for a full ring. */
  lemma FullIff(head: nat, tail: nat, capacity: nat)
    requires capacity > 0 && tail <= head <= tail + capacity - 1
    ensures (head + 1) % capacity == tail % capacity <==> head == tail + capacity - 1
  {
    if head < tail + capacity - 1 {
      SlotsDiffer(tail, head + 1, capacity);
    } else {
      SlotsMeet(tail, capacity);
    }
  }

  class RewardQueue {
    var head: u32
    var tail: u32
    const events: array<Event>
    ghost var log: seq<Event>

    ghost predicate Valid()
      reads this, events
    {
      && |log| == head && tail == TailOf(head, events.Length)
      && (events.Length == 0 ==> head == 0)
      && forall k :: tail <= k < head ==> events[k % events.Length] == log[k]
    }

    constructor (capacity: nat)
      ensures Valid() && fresh(events) && events.Length == capacity && log == []
    {
      head, tail := 0, 0;
      events := new Event[capacity](_ => Event(0, 0, false));
      log := [];
    }

    function IndexOf(counter: u32): (i: nat)
      requires events.Length > 0
      ensures i < events.Length
    {
      counter % events.Length
    }

    /** Appends to the log, whatever the ring has to overwrite for it; a queue without slots, or one
        whose counter is exhausted, panics and changes nothing that can still be read. */
    method Append(event: Event) returns (r: Result<u32>)
      requires Valid()
      modifies this, events
      ensures Valid()
      ensures if events.Length > 0 && old(head) + 1 < U32
              then r == Ok(old(head)) && log == old(log) + [event]
              else r == Err(Panic) && log == old(log)
      ensures events.Length > 0 ==> head - tail <= events.Length - 1
    {
      if events.Length == 0 { return Err(Panic); }
      var cursor := head;
      var slot := IndexOf(head);
      forall k | tail <= k < head
        ensures k % events.Length != slot
      {
        SlotsDiffer(k, head, events.Length);
      }
      events[slot] := event;
      if head + 1 >= U32 { return Err(Panic); }
      FullIff(head, tail, events.Length);
      var isFull := IndexOf(head + 1) == IndexOf(tail);
      if isFull { tail := tail + 1; }
      head := head + 1;
      log := log + [event];
      return Ok(cursor);
    }

    /** The k-th event ever appended, for every counter from the tail to the head. */
    method Get(cursor: u32) returns (event: Event)
      requires Valid() && events.Length > 0
      ensures tail <= cursor < head ==> event == log[cursor]
      ensures event in events[..]
    {
      event := events[IndexOf(cursor)];
    }
  }

  /** An event at or after the staker's cursor that the ring still holds and that came after the last
      stake. */
  ghost predicate RewardWaits(log: seq<Event>, capacity: nat, cursor: u32, lastStakeTs: i64) {
    exists k :: cursor <= k < |log| && TailOf(|log|, capacity) <= k && lastStakeTs < log[k].ts
  }

  /** Refuses exactly the stakers with pool tokens for whom a reward is waiting. */
  method NoAvailableRewards(queue: RewardQueue, rewardsCursor: u32, lastStakeTs: i64, poolTokens: u64)
    returns (r: Result<()>)
    requires queue.Valid()
    ensures r.Ok? <==>
      !(poolTokens > 0 && RewardWaits(queue.log, queue.events.Length, rewardsCursor, lastStakeTs))
    ensures r.Err? ==> r.error == RewardsNeedsProcessing
  {
    var cursor := rewardsCursor;
    if cursor < queue.tail { cursor := queue.tail; }
    while cursor < queue.head
      invariant rewardsCursor <= cursor && queue.tail <= cursor
      invariant poolTokens > 0 ==>
        forall k :: rewardsCursor <= k < cursor && queue.tail <= k < queue.head ==> queue.log[k].ts <= lastStakeTs
      decreases queue.head - cursor
    {
      var event := queue.Get(cursor);
      if lastStakeTs < event.ts {
        if poolTokens > 0 { return Err(RewardsNeedsProcessing); }
      }
      cursor := cursor + 1;
    }
    return Ok(());
  }

  // ----- claims

  datatype Rewarder = Rewarder(
    cursor: u32, startTs: i64, expiryTs: i64, total: u64, poolTokenSupply: u64, expired: bool)

  datatype Staker = Staker(rewardsCursor: u32, lastStakeTs: i64)

  function RewardEligible(r: Rewarder, s: Staker): Result<()> {
    var _ :- Guard(!r.expired, RewarderExpired);
    var _ :- Guard(s.rewardsCursor <= r.cursor, CursorAlreadyProcessed);
    Guard(s.lastStakeTs <= r.startTs, NotStakedDuringDrop)
  }

  /** A staker's share of a reward; every step that overflows, a supply of zero, and a share of zero
      panic. */
  function RewardAmount(r: Rewarder, tokens: u64, lockedTokens: u64): Result<u64> {
    var held := tokens + lockedTokens;
    if held >= U64 || held * r.total >= U64 || r.poolTokenSupply == 0 then Err(Panic)
    else
      var amount := FloorMath.Quot(held * r.total, r.poolTokenSupply);
      FloorMath.FloorAtMostSelf(held * r.total, r.poolTokenSupply);
      if amount == 0 then Err(Panic) else Ok(amount)
  }

  /** A share is the holding's part of the reward, floored. */
  lemma ShareBrackets(r: Rewarder, tokens: u64, lockedTokens: u64)
    requires RewardAmount(r, tokens, lockedTokens).Ok?
    ensures var amount, held := RewardAmount(r, tokens, lockedTokens).value, tokens + lockedTokens;
      && r.poolTokenSupply > 0 && amount > 0
      && amount * r.poolTokenSupply <= held * r.total < amount * r.poolTokenSupply + r.poolTokenSupply
  {
  }

  function SumOf(ns: seq<nat>): nat { if ns == [] then 0 else SumOf(ns[..|ns| - 1]) + ns[|ns| - 1] }

  /** `amounts` are the shares of `holdings` in one reward. */
  predicate Shares(r: Rewarder, holdings: seq<(u64, u64)>, amounts: seq<nat>) {
    |amounts| == |holdings|
    && forall i :: 0 <= i < |holdings| ==> RewardAmount(r, holdings[i].0, holdings[i].1) == Ok(amounts[i])
  }

  function Held(holdings: seq<(u64, u64)>): nat {
    if holdings == [] then 0
    else Held(holdings[..|holdings| - 1]) + holdings[|holdings| - 1].0 + holdings[|holdings| - 1].1
  }

  lemma {:induction false} SharesSum(r: Rewarder, holdings: seq<(u64, u64)>, amounts: seq<nat>)
    requires Shares(r, holdings, amounts)
    ensures SumOf(amounts) * r.poolTokenSupply <= Held(holdings) * r.total
  {
    hide RewardAmount;
    if holdings != [] {
      var n := |holdings| - 1;
      SharesSum(r, holdings[..n], amounts[..n]);
      ShareBrackets(r, holdings[n].0, holdings[n].1);
      var held: nat := holdings[n].0 as nat + holdings[n].1 as nat;
      assert Held(holdings) == Held(holdings[..n]) + held && SumOf(amounts) == SumOf(amounts[..n]) + amounts[n];
      hide Held, SumOf;
      SharesAdd(SumOf(amounts[..n]), amounts[n], Held(holdings[..n]), held, r.poolTokenSupply, r.total);
    }
  }

  lemma SharesAdd(sum: nat, amount: nat, holdings: nat, held: nat, supply: nat, total: nat)
    requires sum * supply <= holdings * total && amount * supply <= held * total
    ensures (sum + amount) * supply <= (holdings + held) * total
  {
    FloorMath.Distribute(supply, sum, amount);
    FloorMath.Distribute(total, holdings, held);
  }

  /** However many stakers claim, as long as together they hold no more than the pool tokens in supply they
      are never paid more than was dropped. */
  lemma RewardIsEnough(r: Rewarder, holdings: seq<(u64, u64)>, amounts: seq<nat>)
    requires Shares(r, holdings, amounts) && Held(holdings) <= r.poolTokenSupply
    ensures SumOf(amounts) <= r.total
  {
    if holdings != [] {
      ShareBrackets(r, holdings[0].0, holdings[0].1);
      SharesSum(r, holdings, amounts);
      FloorMath.MulMono(Held(holdings), r.poolTokenSupply, r.total);
      FloorMath.MulCancel(SumOf(amounts), r.total, r.poolTokenSupply);
    }
  }

  /** `claim_reward` and `claim_reward_to_locker`: the staker's cursor moves past the reward. */
  function Claim(r: Rewarder, s: Staker, tokens: u64, lockedTokens: u64): Result<Staker> {
    var _ :- RewardEligible(r, s);
    var _ :- RewardAmount(r, tokens, lockedTokens);
    if r.cursor + 1 >= U32 then Err(Panic) else Ok(s.(rewardsCursor := r.cursor + 1))
  }

  class StakerAccount {
    var rewardsCursor: u32
    var lastStakeTs: i64

    function State(): Staker
      reads this
    {
      Staker(rewardsCursor, lastStakeTs)
    }

    constructor ()
      ensures State() == Staker(0, 0)
    {
      rewardsCursor, lastStakeTs := 0, 0;
    }

    method ClaimReward(r: Rewarder, tokens: u64, lockedTokens: u64) returns (outcome: Result<()>)
      modifies this`rewardsCursor
      ensures outcome == Done(Claim(r, old(State()), tokens, lockedTokens))
      ensures State() == if outcome.Ok? then Claim(r, old(State()), tokens, lockedTokens).value else old(State())
    {
      hide RewardAmount;
      var _ :- RewardEligible(r, State());
      var _ :- RewardAmount(r, tokens, lockedTokens);
      if r.cursor + 1 >= U32 { return Err(Panic); }
      rewardsCursor := r.cursor + 1;
      return Ok(());
    }

    /** `stake` and `start_unstake`, once the tokens have moved. */
    method RecordStake(queue: RewardQueue, poolTokens: u64, now: i64) returns (outcome: Result<()>)
      requires queue.Valid()
      modifies this`lastStakeTs
      ensures outcome.Ok? <==>
        !(poolTokens > 0 && RewardWaits(queue.log, queue.events.Length, rewardsCursor, old(lastStakeTs)))
      ensures lastStakeTs == if outcome.Ok? then now else old(lastStakeTs)
    {
      var _ :- NoAvailableRewards(queue, rewardsCursor, lastStakeTs, poolTokens);
      lastStakeTs := now;
      return Ok(());
    }
  }

  // ----- runs

  datatype Pool = Pool(capacity: nat, now: i64, log: seq<Event>, rewarders: seq<Rewarder>, stakers: seq<Staker>)

  datatype Action =
    | Advance(ts: i64)
    | CreateStaker
    | DropReward(rewarder: Address, locked: bool, total: u64, supply: u64, expiryTs: i64)
    | Stake(staker: nat, poolTokens: u64)
    | ClaimReward(staker: nat, reward: nat, tokens: u64, lockedTokens: u64)
    | ExpireReward(reward: nat)

  function Drop(p: Pool, rewarder: Address, locked: bool, total: u64, supply: u64, expiryTs: i64): Result<Pool> {
    var _ :- Guard(supply <= total, InsufficientReward);
    var _ :- Guard(p.now < expiryTs, InvalidExpiry);
    if p.capacity == 0 || |p.log| + 1 >= U32 then Err(Panic)
    else
      Ok(p.(log := p.log + [Event(rewarder, p.now, locked)],
            rewarders := p.rewarders + [Rewarder(|p.log|, p.now, expiryTs, total, supply, false)]))
  }

  /** `stake` and `start_unstake` end alike: the staker's timestamp moves to now. */
  ghost function DoStake(p: Pool, i: nat, poolTokens: u64): Result<Pool> {
    if i >= |p.stakers| then Err(InvalidAccountInput)
    else if poolTokens > 0 && RewardWaits(p.log, p.capacity, p.stakers[i].rewardsCursor, p.stakers[i].lastStakeTs) then
      Err(RewardsNeedsProcessing)
    else Ok(p.(stakers := p.stakers[i := p.stakers[i].(lastStakeTs := p.now)]))
  }

  function DoClaim(p: Pool, i: nat, j: nat, tokens: u64, lockedTokens: u64): Result<Pool> {
    if i >= |p.stakers| || j >= |p.rewarders| then Err(InvalidAccountInput)
    else
      var s :- Claim(p.rewarders[j], p.stakers[i], tokens, lockedTokens);
      Ok(p.(stakers := p.stakers[i := s]))
  }

  function Expire(p: Pool, j: nat): Result<Pool> {
    if j >= |p.rewarders| then Err(InvalidAccountInput)
    else if p.now < p.rewarders[j].expiryTs then Err(RewarderNotYetExpired)
    else Ok(p.(rewarders := p.rewarders[j := p.rewarders[j].(expired := true)]))
  }

  ghost function Act(p: Pool, a: Action): Result<Pool> {
    match a
    case Advance(ts) => if p.now <= ts then Ok(p.(now := ts)) else Err(InvalidAccountInput)
    case CreateStaker => Ok(p.(stakers := p.stakers + [Staker(0, 0)]))
    case DropReward(rewarder, locked, total, supply, expiryTs) => Drop(p, rewarder, locked, total, supply, expiryTs)
    case Stake(i, poolTokens) => DoStake(p, i, poolTokens)
    case ClaimReward(i, j, tokens, lockedTokens) => DoClaim(p, i, j, tokens, lockedTokens)
    case ExpireReward(j) => Expire(p, j)
  }

  /** A claim that paid: who claimed what. */
  datatype Paid = Paid(staker: nat, reward: nat)

  /** A run of a new pool, with the claims that paid, in order. */
  ghost function Run(capacity: nat, now: i64, actions: seq<Action>): (Pool, seq<Paid>) {
    if actions == [] then (Pool(capacity, now, [], [], []), [])
    else
      var (p, paid) := Run(capacity, now, actions[..|actions| - 1]);
      var a := actions[|actions| - 1];
      match Act(p, a)
      case Err(_) => (p, paid)
      case Ok(q) => (q, if a.ClaimReward? then paid + [Paid(a.staker, a.reward)] else paid)
  }

  /** Reward j is event j of the log, and every claim that paid is behind its staker's cursor. */
  ghost predicate PoolOk(p: Pool, paid: seq<Paid>) {
    && |p.rewarders| == |p.log|
    && (forall j :: 0 <= j < |p.rewarders| ==> p.rewarders[j].cursor == j && p.rewarders[j].startTs == p.log[j].ts)
    && (forall c :: 0 <= c < |paid| ==>
          && paid[c].staker < |p.stakers| && paid[c].reward < |p.rewarders|
          && paid[c].reward < p.stakers[paid[c].staker].rewardsCursor)
    && (forall c, d :: 0 <= c < d < |paid| && paid[c].staker == paid[d].staker ==> paid[c].reward < paid[d].reward)
  }

  lemma ActKeepsOk(p: Pool, paid: seq<Paid>, a: Action)
    requires PoolOk(p, paid) && Act(p, a).Ok?
    ensures PoolOk(Act(p, a).value, if a.ClaimReward? then paid + [Paid(a.staker, a.reward)] else paid)
    ensures Act(p, a).value.capacity == p.capacity
  {
    hide PoolOk, Drop, DoStake, DoClaim, Expire;
    match a
    case Advance(ts) => SameBooks(p, Act(p, a).value, paid);
    case CreateStaker => SameBooks(p, Act(p, a).value, paid);
    case DropReward(rewarder, locked, total, supply, expiryTs) => DropKeepsOk(p, paid, rewarder, locked, total, supply, expiryTs);
    case Stake(i, poolTokens) => StakeKeepsOk(p, paid, i, poolTokens);
    case ClaimReward(i, j, tokens, lockedTokens) => ClaimKeepsOk(p, paid, i, j, tokens, lockedTokens);
    case ExpireReward(j) => ExpireKeepsOk(p, paid, j);
  }

  /** Nothing that the books look at has changed but that cursors may have moved on. */
  lemma SameBooks(p: Pool, q: Pool, paid: seq<Paid>)
    requires PoolOk(p, paid) && q.log == p.log && |p.stakers| <= |q.stakers| && |q.rewarders| == |p.rewarders|
    requires forall j :: 0 <= j < |p.rewarders| ==>
      q.rewarders[j].cursor == p.rewarders[j].cursor && q.rewarders[j].startTs == p.rewarders[j].startTs
    requires forall i :: 0 <= i < |p.stakers| ==> p.stakers[i].rewardsCursor <= q.stakers[i].rewardsCursor
    ensures PoolOk(q, paid)
  {
  }

  lemma StakeKeepsOk(p: Pool, paid: seq<Paid>, i: nat, poolTokens: u64)
    requires PoolOk(p, paid) && DoStake(p, i, poolTokens).Ok?
    ensures PoolOk(DoStake(p, i, poolTokens).value, paid)
    ensures DoStake(p, i, poolTokens).value.capacity == p.capacity
  {
    hide PoolOk, RewardWaits;
    SameBooks(p, DoStake(p, i, poolTokens).value, paid);
  }

  lemma ExpireKeepsOk(p: Pool, paid: seq<Paid>, j: nat)
    requires PoolOk(p, paid) && Expire(p, j).Ok?
    ensures PoolOk(Expire(p, j).value, paid) && Expire(p, j).value.capacity == p.capacity
  {
    hide PoolOk;
    SameBooks(p, Expire(p, j).value, paid);
  }

  lemma DropKeepsOk(p: Pool, paid: seq<Paid>, rewarder: Address, locked: bool, total: u64, supply: u64, expiryTs: i64)
    requires PoolOk(p, paid) && Drop(p, rewarder, locked, total, supply, expiryTs).Ok?
    ensures PoolOk(Drop(p, rewarder, locked, total, supply, expiryTs).value, paid)
    ensures Drop(p, rewarder, locked, total, supply, expiryTs).value.capacity == p.capacity
  {
  }

  lemma ClaimKeepsOk(p: Pool, paid: seq<Paid>, i: nat, j: nat, tokens: u64, lockedTokens: u64)
    requires PoolOk(p, paid) && DoClaim(p, i, j, tokens, lockedTokens).Ok?
    ensures PoolOk(DoClaim(p, i, j, tokens, lockedTokens).value, paid + [Paid(i, j)])
    ensures DoClaim(p, i, j, tokens, lockedTokens).value.capacity == p.capacity
  {
    hide RewardAmount;
    var q := DoClaim(p, i, j, tokens, lockedTokens).value;
    assert p.stakers[i].rewardsCursor <= j && q == p.(stakers := p.stakers[i := q.stakers[i]]);
    assert q.stakers[i].rewardsCursor == j + 1;
    hide DoClaim;
    ClaimBooked(p, q, paid, i, j);
  }

  lemma ClaimBooked(p: Pool, q: Pool, paid: seq<Paid>, i: nat, j: nat)
    requires PoolOk(p, paid) && i < |p.stakers| && j < |p.rewarders| && i < |q.stakers|
    requires q == p.(stakers := p.stakers[i := q.stakers[i]])
    requires p.stakers[i].rewardsCursor <= j && q.stakers[i].rewardsCursor == j + 1
    ensures PoolOk(q, paid + [Paid(i, j)])
  {
  }

  lemma {:induction false} RunKeepsOk(capacity: nat, now: i64, actions: seq<Action>)
    ensures var (p, paid) := Run(capacity, now, actions); PoolOk(p, paid) && p.capacity == capacity
  {
    hide Act, PoolOk;
    if actions == [] {
      assert PoolOk(Pool(capacity, now, [], [], []), []) by { EmptyOk(capacity, now); }
    } else {
      RunKeepsOk(capacity, now, actions[..|actions| - 1]);
      var (p, paid) := Run(capacity, now, actions[..|actions| - 1]);
      if Act(p, actions[|actions| - 1]).Ok? { ActKeepsOk(p, paid, actions[|actions| - 1]); }
    }
  }

  lemma EmptyOk(capacity: nat, now: i64)
    ensures PoolOk(Pool(capacity, now, [], [], []), [])
  {
  }

  /** Over any run, each staker is paid for rewards in strictly increasing order, so for none of them
      twice. */
  lemma NoRewardPaidTwice(capacity: nat, now: i64, actions: seq<Action>, c: nat, d: nat)
    requires c < d < |Run(capacity, now, actions).1|
    ensures var paid := Run(capacity, now, actions).1;
      && paid[c] != paid[d]
      && (paid[c].staker == paid[d].staker ==> paid[c].reward < paid[d].reward)
  {
    RunKeepsOk(capacity, now, actions);
    hide Run;
  }

  /** Claiming a reward forfeits the earlier ones: from then on they are refused. */
  lemma ClaimForfeitsEarlier(capacity: nat, now: i64, actions: seq<Action>, i: nat, j: nat, k: nat,
                             tokens: u64, lockedTokens: u64, tokens': u64, lockedTokens': u64)
    requires var p := Run(capacity, now, actions).0; DoClaim(p, i, j, tokens, lockedTokens).Ok? && k <= j
    ensures var q := DoClaim(Run(capacity, now, actions).0, i, j, tokens, lockedTokens).value;
      !q.rewarders[k].expired ==> DoClaim(q, i, k, tokens', lockedTokens') == Err(CursorAlreadyProcessed)
  {
    RunKeepsOk(capacity, now, actions);
    hide Run, RewardAmount;
  }

  /** Once a stake with pool tokens has gone through, a live reward that its staker has not passed and
      could claim just before was dropped at the very instant of the staker's previous stake. */
  lemma StakeLeavesNoReward(capacity: nat, now: i64, actions: seq<Action>, i: nat, poolTokens: u64, k: nat)
    requires var p := Run(capacity, now, actions).0;
      && DoStake(p, i, poolTokens).Ok? && poolTokens > 0 && TailOf(|p.log|, capacity) <= k < |p.log|
      && k < |p.rewarders| && RewardEligible(p.rewarders[k], p.stakers[i]).Ok?
    ensures var p := Run(capacity, now, actions).0; p.rewarders[k].startTs == p.stakers[i].lastStakeTs
  {
    RunKeepsOk(capacity, now, actions);
    hide Run;
  }
}
