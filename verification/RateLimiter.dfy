/** The sliding-window outflow limiter (token-lending/sdk/src/state/rate_limiter.rs).

    `Limiter` is the limiter's value and the functions over it say what each operation computes;
    the class `RateLimiter` performs the same operations in place.  `Replay` runs a log of accepted
    updates, and the theorems bound the outflow of every such run. */
module RateLimiters {
  import opened Results
  import opened FloorMath
  import opened FixedPoint

  datatype LimiterConfig = LimiterConfig(window: u64, maxOutflow: u64)

  datatype Limiter = Limiter(config: LimiterConfig, prevQty: Decimal, windowStart: u64, curQty: Decimal)

  /** Slots below this bound keep `window_start + window_duration` from wrapping around. */
  const SLOT_LIMIT: nat := 0x8000_0000_0000_0000

  /** The start of the aligned window that holds `slot`. */
  function WindowOf(slot: u64, w: u64): (start: u64)
    requires w > 0
    ensures start <= slot < start + w
  {
    FloorBounds(slot, w);
    slot / w * w
  }

  function New(config: LimiterConfig, slot: u64): Limiter {
    Limiter(config, 0, if config.window != 0 then WindowOf(slot, config.window) else slot, 0)
  }

  /** `_update`; the sum with the window duration wraps like an unchecked u64 addition. */
  function Roll(l: Limiter, slot: u64): Result<Limiter>
    requires l.config.window > 0
  {
    if slot < l.windowStart then Err(InvalidAccountInput)
    else
      var start := WindowOf(slot, l.config.window);
      var next := (l.windowStart + l.config.window) % U64;
      if start < next then Ok(l)
      else if start == next then Ok(l.(prevQty := l.curQty, windowStart := start, curQty := 0))
      else Ok(l.(prevQty := 0, windowStart := start, curQty := 0))
  }

  /** The previous window's outflow, for the share of the window still to come. */
  function WeightedOutflow(prev: Decimal, window: u64, elapsed: u64): Result<Decimal> {
    var left :- Sub(FromInt(window), FromInt(elapsed));
    var weight :- DivInt(left, window);
    Mul(weight, prev)
  }

  function CurrentOutflow(l: Limiter, slot: u64): Result<Decimal>
    requires l.windowStart <= slot
  {
    if l.config.window == 0 then Err(InvalidAccountInput)
    else
      var elapsed: u64 := (slot - l.windowStart + 1) % U64;
      var weighted :- WeightedOutflow(l.prevQty, l.config.window, elapsed);
      Add(weighted, l.curQty)
  }

  function RemainingOutflow(l: Limiter, slot: u64): Result<(Limiter, Decimal)> {
    if l.config.window == 0 then Ok((l, FromInt(U64_MAX)))
    else
      var rolled :- Roll(l, slot);
      var outflow :- CurrentOutflow(rolled, slot);
      Ok((rolled, if outflow > FromInt(l.config.maxOutflow) then 0 else FromInt(l.config.maxOutflow) - outflow))
  }

  function Update(l: Limiter, slot: u64, qty: Decimal): Result<Limiter> {
    if l.config.window == 0 then Ok(l)
    else
      var rolled :- Roll(l, slot);
      var outflow :- CurrentOutflow(rolled, slot);
      var total :- Add(outflow, qty);
      if total > FromInt(l.config.maxOutflow) then Err(OutflowRateLimitExceeded)
      else
        var cur :- Add(rolled.curQty, qty);
        Ok(rolled.(curQty := cur))
  }

  /** The limiter in memory after an attempt that failed past `_update`. */
  function Rolled(l: Limiter, slot: u64): Limiter {
    if l.config.window == 0 || Roll(l, slot).Err? then l else Roll(l, slot).value
  }

  class RateLimiter {
    const config: LimiterConfig
    var prevQty: Decimal
    var windowStart: u64
    var curQty: Decimal

    function State(): Limiter
      reads this
    {
      Limiter(config, prevQty, windowStart, curQty)
    }

    constructor (config: LimiterConfig, slot: u64)
      ensures State() == New(config, slot)
    {
      this.config := config;
      prevQty := 0;
      windowStart := if config.window != 0 then WindowOf(slot, config.window) else slot;
      curQty := 0;
    }

    constructor Unpack(l: Limiter)
      ensures State() == l
    {
      config := l.config;
      prevQty := l.prevQty;
      windowStart := l.windowStart;
      curQty := l.curQty;
    }

    method RollWindow(slot: u64) returns (r: Result<()>)
      requires config.window > 0
      modifies this
      ensures State() == Rolled(old(State()), slot)
      ensures r == (match Roll(old(State()), slot) case Ok(_) => Ok(()) case Err(e) => Err(e))
    {
      if slot < windowStart { return Err(InvalidAccountInput); }
      var start := WindowOf(slot, config.window);
      var next := (windowStart + config.window) % U64;
      if start == next {
        prevQty := curQty;
        windowStart := start;
        curQty := 0;
      } else if start > next {
        prevQty := 0;
        windowStart := start;
        curQty := 0;
      }
      return Ok(());
    }

    method Remaining(slot: u64) returns (r: Result<Decimal>)
      modifies this
      ensures State() == Rolled(old(State()), slot)
      ensures r == (match RemainingOutflow(old(State()), slot) case Ok(p) => Ok(p.1) case Err(e) => Err(e))
    {
      if config.window == 0 { return Ok(FromInt(U64_MAX)); }
      var _ :- RollWindow(slot);
      var outflow :- CurrentOutflow(State(), slot);
      if outflow > FromInt(config.maxOutflow) { return Ok(0); }
      return Ok(FromInt(config.maxOutflow) - outflow);
    }

    method Record(slot: u64, qty: Decimal) returns (r: Result<()>)
      modifies this
      ensures r == (match Update(old(State()), slot, qty) case Ok(_) => Ok(()) case Err(e) => Err(e))
      ensures r.Ok? ==> State() == Update(old(State()), slot, qty).value
      ensures r.Err? ==> State() == Rolled(old(State()), slot)
    {
      if config.window == 0 { return Ok(()); }
      var _ :- RollWindow(slot);
      var outflow :- CurrentOutflow(State(), slot);
      var total :- Add(outflow, qty);
      if total > FromInt(config.maxOutflow) { return Err(OutflowRateLimitExceeded); }
      var cur :- Add(curQty, qty);
      curQty := cur;
      return Ok(());
    }
  }

  // ----- windows

  lemma WindowsApart(a: u64, b: u64, w: u64)
    requires w > 0 && a <= b
    ensures WindowOf(a, w) <= WindowOf(b, w)
    ensures WindowOf(a, w) < WindowOf(b, w) ==> WindowOf(a, w) + w <= WindowOf(b, w)
  {
    FloorMono(a, b, w);
    MulMono(a / w, b / w, w);
    if a / w < b / w { MulMono(a / w + 1, b / w, w); }
  }

  lemma WindowOfStart(slot: u64, w: u64)
    requires w > 0
    ensures WindowOf(WindowOf(slot, w), w) == WindowOf(slot, w)
  {
    FloorOfMultiple(slot / w, w);
  }

  lemma NextWindow(slot: u64, w: u64)
    requires w > 0 && WindowOf(slot, w) + w < U64
    ensures WindowOf(WindowOf(slot, w) + w, w) == WindowOf(slot, w) + w
  {
    FloorOfMultiple(slot / w + 1, w);
    Distribute(w, slot / w, 1);
  }

  /** A window starting at or below a slot under the limit ends within u64. */
  lemma NoWrap(start: u64, w: u64, slot: u64)
    requires w > 0 && start <= slot < SLOT_LIMIT && WindowOf(start, w) == start
    ensures start + w < U64
  {
    if start / w > 0 { MulMono(1, start / w, w); }
  }

  // ----- the limiter's invariant

  /** The share of the window that is still to come, as the code rounds it. */
  function Weight(w: u64, elapsed: nat): (weight: nat)
    requires 0 < elapsed <= w
    ensures weight <= WAD
  {
    FloorAtMost(FromInt(w) - elapsed * WAD, w, WAD);
    (FromInt(w) - elapsed * WAD) / w
  }

  /** How much of the previous window's outflow still counts. */
  function Weighted(prev: Decimal, w: u64, elapsed: nat): nat
    requires 0 < elapsed <= w
  {
    Weight(w, elapsed) * prev / WAD
  }

  function Cap(l: Limiter): Decimal { FromInt(l.config.maxOutflow) }

  /** What holds of every limiter the program stores, at a clock that has reached `now`. */
  predicate LimiterOk(l: Limiter, now: u64) {
    var w := l.config.window;
    w > 0 ==>
      && WindowOf(l.windowStart, w) == l.windowStart <= now
      && l.prevQty <= Cap(l) && l.curQty <= Cap(l)
      && (now < l.windowStart + w ==> Weighted(l.prevQty, w, now - l.windowStart + 1) + l.curQty <= Cap(l))
  }

  lemma WeightBounds(prev: Decimal, w: u64, elapsed: nat)
    requires 0 < elapsed <= w
    ensures Weight(w, elapsed) * prev <= WAD * prev
    ensures Weighted(prev, w, elapsed) <= prev
  {
    hide Weight;
    ScaledAtMost(Weight(w, elapsed), prev);
  }

  lemma LastSlotWeighsNothing(prev: Decimal, w: u64)
    requires w > 0
    ensures Weighted(prev, w, w) == 0
  {
    FloorExact(0, w, 0);
    assert Weight(w, w) == 0;
  }

  lemma LastButOneWeighsNothing(prev: Decimal, w: u64)
    requires w > WAD
    ensures Weighted(prev, w, w - 1) == 0
  {
    FloorExact(WAD, w, 0);
    assert Weight(w, w - 1) == 0;
  }

  lemma WeightDecays(prev: Decimal, w: u64, e0: nat, e1: nat)
    requires 0 < e0 <= e1 <= w
    ensures Weighted(prev, w, e1) <= Weighted(prev, w, e0)
  {
    FloorMono(FromInt(w) - e1 * WAD, FromInt(w) - e0 * WAD, w);
    var a, b := Weight(w, e1), Weight(w, e0);
    assert a <= b;
    hide Weight;
    MulMono(a, b, prev);
    FloorMono(a * prev, b * prev, WAD);
  }

  /** The limiter's three fixed-point steps neither underflow nor overflow. */
  lemma WeightComputed(prev: Decimal, w: u64, elapsed: nat)
    requires 0 < elapsed <= w && prev <= FromInt(U64_MAX)
    ensures Sub(FromInt(w), FromInt(elapsed)).Ok?
    ensures DivInt(Sub(FromInt(w), FromInt(elapsed)).value, w) == Ok(Weight(w, elapsed))
    ensures Mul(Weight(w, elapsed), prev) == Ok(Weighted(prev, w, elapsed))
  {
    assert DivInt(Sub(FromInt(w), FromInt(elapsed)).value, w) == Ok(Weight(w, elapsed));
    hide Weight, DivInt;
    WeightBounds(prev, w, elapsed);
  }

  lemma OkAsTimePasses(l: Limiter, now: u64, later: u64)
    requires LimiterOk(l, now) && now <= later
    ensures LimiterOk(l, later)
  {
    if l.config.window > 0 && later < l.windowStart + l.config.window {
      WeightDecays(l.prevQty, l.config.window, now - l.windowStart + 1, later - l.windowStart + 1);
    }
  }

  lemma NewIsOk(config: LimiterConfig, slot: u64)
    ensures LimiterOk(New(config, slot), slot)
  {
    if config.window > 0 {
      WindowOfStart(slot, config.window);
      WeightBounds(0, config.window, slot - WindowOf(slot, config.window) + 1);
    }
  }

  /** Rolling succeeds and lands on the window of the current slot. */
  lemma RollLands(l: Limiter, now: u64)
    requires l.config.window > 0 && LimiterOk(l, now) && now < SLOT_LIMIT
    ensures Roll(l, now).Ok?
    ensures var r := Roll(l, now).value; r.config == l.config && r.windowStart == WindowOf(now, l.config.window)
    ensures LimiterOk(Roll(l, now).value, now)
    ensures var r := Roll(l, now).value; var w := l.config.window;
            if r.windowStart == l.windowStart then r == l
            else r.curQty == 0 && r.prevQty == (if r.windowStart == l.windowStart + w then l.curQty else 0)
  {
    hide WindowOf, Weighted;
    var w := l.config.window;
    NoWrap(l.windowStart, w, now);
    assert (l.windowStart + w) % U64 == l.windowStart + w;
    WindowsApart(l.windowStart, now, w);
    WindowOfStart(now, w);
    var r := Roll(l, now).value;
    WeightBounds(r.prevQty, w, now - WindowOf(now, w) + 1);
  }

  lemma WeightShare(prev: Decimal, w: u64, elapsed: u64)
    requires 0 < elapsed <= w && prev <= FromInt(U64_MAX)
    ensures WeightedOutflow(prev, w, elapsed) == Ok(Weighted(prev, w, elapsed))
  {
    hide Weight, Weighted, DivInt, Mul;
    WeightComputed(prev, w, elapsed);
  }

  lemma ElapsedFits(elapsed: nat)
    requires elapsed < U64
    ensures elapsed % U64 == elapsed
  {
  }

  lemma WeightedWithinCap(l: Limiter, now: u64)
    requires l.config.window > 0 && LimiterOk(l, now) && now < l.windowStart + l.config.window
    ensures l.windowStart <= now && l.prevQty <= FromInt(U64_MAX)
    ensures Weighted(l.prevQty, l.config.window, now - l.windowStart + 1) + l.curQty <= FromInt(U64_MAX)
  {
    hide WindowOf, Weighted;
  }

  /** On a rolled limiter the outflow is the weighted previous window plus the current one. */
  lemma OutflowIs(l: Limiter, now: u64)
    requires l.config.window > 0 && LimiterOk(l, now) && now < l.windowStart + l.config.window
    ensures var w := l.config.window;
            CurrentOutflow(l, now) == Ok(Weighted(l.prevQty, w, now - l.windowStart + 1) + l.curQty)
  {
    hide LimiterOk, WeightedOutflow, Weight, Weighted;
    WeightedWithinCap(l, now);
    var elapsed: u64 := now - l.windowStart + 1;
    ElapsedFits(elapsed);
    WeightShare(l.prevQty, l.config.window, elapsed);
  }

  /** In every reachable state an update is accepted exactly when it fits the remaining outflow. */
  lemma UpdateIffWithinRemaining(l: Limiter, now: u64, qty: Decimal)
    requires LimiterOk(l, now) && now < SLOT_LIMIT
    ensures RemainingOutflow(l, now).Ok?
    ensures l.config.window > 0 ==>
      (Update(l, now, qty).Ok? <==> qty <= RemainingOutflow(l, now).value.1)
    ensures l.config.window == 0 ==> Update(l, now, qty).Ok?
  {
    if l.config.window > 0 {
      RollLands(l, now);
      OutflowIs(Roll(l, now).value, now);
    }
  }

  lemma UpdateKeepsOk(l: Limiter, now: u64, qty: Decimal)
    requires LimiterOk(l, now) && now < SLOT_LIMIT && Update(l, now, qty).Ok?
    ensures LimiterOk(Update(l, now, qty).value, now)
  {
    if l.config.window > 0 {
      RollLands(l, now);
      OutflowIs(Roll(l, now).value, now);
    }
  }

  /** The weighted outflow is the previous window's times the share of the window to come, to within a unit
      and a speck. */
  lemma WeightedBrackets(prev: Decimal, w: u64, elapsed: nat)
    requires 0 < elapsed <= w
    ensures Weighted(prev, w, elapsed) * w <= prev * (w - elapsed)
    ensures prev * (w - elapsed) * WAD <= (Weighted(prev, w, elapsed) + 1) * WAD * w + prev * w
  {
    var left: nat := w - elapsed;
    var weight, weighted := Weight(w, elapsed), Weighted(prev, w, elapsed);
    LeftOver(w, elapsed);
    FloorBounds(left * WAD, w);
    FloorBounds(weight * prev, WAD);
    assert weight * w <= left * WAD < weight * w + w && weighted * WAD <= weight * prev < weighted * WAD + WAD;
    hide Weight, Weighted;
    WeightedSteps(prev, w, left, weight, weighted);
  }

  lemma LeftOver(w: u64, elapsed: nat)
    requires 0 < elapsed <= w
    ensures Weight(w, elapsed) == (w - elapsed) * WAD / w
  {
    assert FromInt(w) - elapsed * WAD == (w - elapsed) * WAD;
  }

  lemma WeightedSteps(prev: nat, w: nat, left: nat, weight: nat, weighted: nat)
    requires weight * w <= left * WAD < weight * w + w && weighted * WAD <= weight * prev < weighted * WAD + WAD
    ensures weighted * w <= prev * left && prev * left * WAD <= (weighted + 1) * WAD * w + prev * w
  {
    MulMono(weighted * WAD, weight * prev, w);
    Assoc(weight, prev, w);
    MulMono(weight * w, left * WAD, prev);
    Assoc(weighted, WAD, w);
    Assoc(prev, left, WAD);
    Assoc(left, WAD, prev);
    MulCancel(weighted * w, prev * left, WAD);
    MulMono(left * WAD, weight * w + w, prev);
    Distribute(prev, weight * w, w);
    Assoc(weight, w, prev);
    MulMono(weight * prev, weighted * WAD + WAD, w);
    Distribute(WAD, weighted, 1);
  }

  /** prev · (w − e) + (cur + qty) · w: the outflow of the sliding window, w times. */
  function Sliding(r: Limiter, now: u64, qty: nat): int {
    r.prevQty * (r.config.window - (now - r.windowStart + 1)) + (r.curQty + qty) * r.config.window
  }

  /** An update is accepted if the previous window's outflow, weighted by the share of it that the sliding
      window still covers, and the current outflow leave room for it; and refused if they miss by more than a
      unit and a speck. */
  lemma UpdateInterpolates(l: Limiter, now: u64, qty: Decimal)
    requires l.config.window > 0 && LimiterOk(l, now) && now < SLOT_LIMIT
    ensures Roll(l, now).Ok?
    ensures var r := Roll(l, now).value;
      && (Sliding(r, now, qty) <= Cap(l) * l.config.window ==> Update(l, now, qty).Ok?)
      && (Update(l, now, qty).Ok? ==>
            Sliding(r, now, qty) * WAD <= (Cap(l) + 1) * l.config.window * WAD + r.prevQty * l.config.window)
  {
    RollLands(l, now);
    var r, w := Roll(l, now).value, l.config.window;
    OutflowIs(r, now);
    var elapsed := now - r.windowStart + 1;
    WeightedBrackets(r.prevQty, w, elapsed);
    WeightBounds(r.prevQty, w, elapsed);
    UpdateTest(l, r, now, qty, Weighted(r.prevQty, w, elapsed) + r.curQty);
    hide LimiterOk, Weighted, Roll, CurrentOutflow, Update, Sliding;
    SlidingTest(r, now, qty, Weighted(r.prevQty, w, elapsed), Cap(l));
  }

  lemma UpdateTest(l: Limiter, r: Limiter, now: u64, qty: Decimal, outflow: Decimal)
    requires l.config.window > 0 && Roll(l, now) == Ok(r) && r.windowStart <= now && CurrentOutflow(r, now) == Ok(outflow)
    requires r.curQty <= outflow
    ensures Update(l, now, qty).Ok? <==> outflow + qty <= Cap(l)
  {
    hide Roll, CurrentOutflow;
  }

  lemma SlidingTest(r: Limiter, now: u64, qty: nat, weighted: nat, cap: nat)
    requires r.config.window > 0 && 0 < now - r.windowStart + 1 <= r.config.window
    requires var w, left := r.config.window, r.config.window - (now - r.windowStart + 1);
      weighted * w <= r.prevQty * left && r.prevQty * left * WAD <= (weighted + 1) * WAD * w + r.prevQty * w
    ensures Sliding(r, now, qty) <= cap * r.config.window ==> weighted + r.curQty + qty <= cap
    ensures weighted + r.curQty + qty <= cap ==>
      Sliding(r, now, qty) * WAD <= (cap + 1) * r.config.window * WAD + r.prevQty * r.config.window
  {
    var w, left := r.config.window, r.config.window - (now - r.windowStart + 1);
    SlidingSums(r.prevQty * left, r.prevQty * w, w, weighted, r.curQty + qty, cap);
  }

  lemma SlidingSums(share: nat, speck: nat, w: nat, weighted: nat, rest: nat, cap: nat)
    requires w > 0 && weighted * w <= share && share * WAD <= (weighted + 1) * WAD * w + speck
    ensures share + rest * w <= cap * w ==> weighted + rest <= cap
    ensures weighted + rest <= cap ==> (share + rest * w) * WAD <= (cap + 1) * w * WAD + speck
  {
    Distribute(w, weighted, rest);
    if share + rest * w <= cap * w { MulCancel(weighted + rest, cap, w); }
    if weighted + rest <= cap {
      MulMono(weighted + 1 + rest, cap + 1, w * WAD);
      Distribute(w * WAD, weighted + 1, rest);
      Distribute(WAD, share, rest * w);
      RegroupSliding(weighted + 1, rest, w, cap + 1);
    }
  }

  lemma RegroupSliding(a: int, rest: int, w: int, c: int)
    ensures a * WAD * w == a * (w * WAD) && rest * w * WAD == rest * (w * WAD) && c * w * WAD == c * (w * WAD)
  {
  }

  /** `remaining_outflow` moves a stored limiter to the current window and nothing else: it stays in
      order, and a later update in the same slot comes out the same. */
  lemma RemainingKeepsOk(l: Limiter, now: u64, qty: Decimal)
    requires LimiterOk(l, now) && now < SLOT_LIMIT
    ensures RemainingOutflow(l, now).Ok?
    ensures var r := RemainingOutflow(l, now).value.0; LimiterOk(r, now) && Update(r, now, qty) == Update(l, now, qty)
  {
    UpdateIffWithinRemaining(l, now, qty);
    if l.config.window > 0 {
      RollLands(l, now);
      var r := Roll(l, now).value;
      RollLands(r, now);
      assert r == RemainingOutflow(l, now).value.0;
      hide WindowOf, Weighted, Roll, CurrentOutflow;
    }
  }

  // ----- runs

  datatype Flow = Flow(slot: u64, qty: Decimal)

  /** Slots start at `start`, never go back, and stay under the limit. */
  predicate Clocked(start: u64, log: seq<Flow>) {
    && start < SLOT_LIMIT
    && (forall i :: 0 <= i < |log| ==> start <= log[i].slot < SLOT_LIMIT)
    && (forall i, j :: 0 <= i < j < |log| ==> log[i].slot <= log[j].slot)
  }

  function LastSlot(start: u64, log: seq<Flow>): u64 {
    if log == [] then start else log[|log| - 1].slot
  }

  /** The limiter after a log of updates, all of which must be accepted. */
  function Replay(config: LimiterConfig, start: u64, log: seq<Flow>): Result<Limiter> {
    if log == [] then Ok(New(config, start))
    else
      var l :- Replay(config, start, log[..|log| - 1]);
      Update(l, log[|log| - 1].slot, log[|log| - 1].qty)
  }

  predicate Accepted(config: LimiterConfig, start: u64, log: seq<Flow>) {
    config.window > 0 && Clocked(start, log) && Replay(config, start, log).Ok?
  }

  /** Outflow recorded at slots in [lo, hi). */
  function Outflow(log: seq<Flow>, lo: int, hi: int): nat {
    if log == [] then 0
    else
      var f := log[|log| - 1];
      Outflow(log[..|log| - 1], lo, hi) + (if lo <= f.slot < hi then f.qty else 0)
  }

  lemma OutflowSplits(log: seq<Flow>, lo: int, mid: int, hi: int)
    requires lo <= mid <= hi
    ensures Outflow(log, lo, hi) == Outflow(log, lo, mid) + Outflow(log, mid, hi)
  {
  }

  lemma OutflowAbove(log: seq<Flow>, lo: int, hi: int, last: int)
    requires forall i :: 0 <= i < |log| ==> log[i].slot <= last
    requires last < lo
    ensures Outflow(log, lo, hi) == 0
  {
  }

  /** `prev_qty` and `cur_qty` are the exact outflows of two adjacent aligned windows, every aligned
      window stays within the cap, and the last update respected the weighted limit. */
  ghost predicate Tracks(l: Limiter, log: seq<Flow>, last: u64) {
    var w := l.config.window;
    && w > 0 && LimiterOk(l, last)
    && l.windowStart == WindowOf(last, w)
    && l.curQty == Outflow(log, l.windowStart, l.windowStart + w)
    && l.prevQty == Outflow(log, l.windowStart - w, l.windowStart)
    && (forall s: u64 :: Outflow(log, WindowOf(s, w), WindowOf(s, w) + w) <= Cap(l))
  }

  lemma RollTracks(l: Limiter, log: seq<Flow>, last: u64, now: u64)
    requires Tracks(l, log, last) && last <= now < SLOT_LIMIT
    requires forall i :: 0 <= i < |log| ==> log[i].slot <= last
    requires Roll(l, now).Ok?
    ensures var r, w := Roll(l, now).value, l.config.window;
            && r.config == l.config && r.windowStart == WindowOf(now, w)
            && r.curQty == Outflow(log, r.windowStart, r.windowStart + w)
            && r.prevQty == Outflow(log, r.windowStart - w, r.windowStart)
  {
    hide WindowOf, Weighted, Roll;
    var w := l.config.window;
    OkAsTimePasses(l, last, now);
    RollLands(l, now);
    WindowsApart(last, now, w);
    var b := WindowOf(now, w);
    if b != l.windowStart {
      OutflowAbove(log, b, b + w, last);
      if b != l.windowStart + w {
        NextWindow(last, w);
        WindowsApart(l.windowStart + w, b, w);
        WindowOfStart(now, w);
        OutflowAbove(log, b - w, b, last);
      }
    }
  }

  lemma UpdateTracks(l: Limiter, log: seq<Flow>, last: u64, f: Flow)
    requires Tracks(l, log, last) && last <= f.slot < SLOT_LIMIT
    requires forall i :: 0 <= i < |log| ==> log[i].slot <= last
    requires Update(l, f.slot, f.qty).Ok?
    ensures Tracks(Update(l, f.slot, f.qty).value, log + [f], f.slot)
    ensures Update(l, f.slot, f.qty).value.config == l.config
  {
    hide WindowOf, Weighted, Roll, CurrentOutflow;
    var w := l.config.window;
    RollTracks(l, log, last, f.slot);
    OkAsTimePasses(l, last, f.slot);
    UpdateKeepsOk(l, f.slot, f.qty);
    var u := Update(l, f.slot, f.qty).value;
    assert (log + [f])[..|log|] == log;
    forall s: u64
      ensures Outflow(log + [f], WindowOf(s, w), WindowOf(s, w) + w) <= Cap(u)
    {
      var a := WindowOf(s, w);
      if a <= f.slot < a + w { SameWindow(s, f.slot, w); }
    }
  }

  lemma SameWindow(s: u64, slot: u64, w: u64)
    requires w > 0 && WindowOf(s, w) <= slot < WindowOf(s, w) + w
    ensures WindowOf(slot, w) == WindowOf(s, w)
  {
    WindowOfStart(s, w);
    WindowsApart(WindowOf(s, w), slot, w);
  }

  lemma NewTracks(config: LimiterConfig, start: u64)
    requires config.window > 0
    ensures Tracks(New(config, start), [], start)
  {
    hide Weighted;
    NewIsOk(config, start);
    WindowOfStart(start, config.window);
  }

  lemma {:induction false} ReplayTracks(config: LimiterConfig, start: u64, log: seq<Flow>)
    requires Accepted(config, start, log)
    ensures Tracks(Replay(config, start, log).value, log, LastSlot(start, log))
    ensures Replay(config, start, log).value.config == config
  {
    hide Tracks, Update;
    if log == [] {
      NewTracks(config, start);
    } else {
      var front, f := log[..|log| - 1], log[|log| - 1];
      ReplayTracks(config, start, front);
      assert log == front + [f];
      UpdateTracks(Replay(config, start, front).value, front, LastSlot(start, front), f);
    }
  }

  lemma FrontAccepted(config: LimiterConfig, start: u64, log: seq<Flow>)
    requires Accepted(config, start, log) && log != []
    ensures Accepted(config, start, log[..|log| - 1])
  {
  }

  /** Any w + 1 consecutive slots - the closed interval of the design note - let out at most twice
      the cap. */
  lemma ClosedWindowAtMostTwice(config: LimiterConfig, start: u64, log: seq<Flow>, s: u64)
    requires Accepted(config, start, log)
    ensures Outflow(log, s, s + config.window + 1) <= 2 * FromInt(config.maxOutflow)
  {
    hide WindowOf, Replay, Outflow, Weighted;
    var w := config.window;
    ReplayTracks(config, start, log);
    var a := WindowOf(s, w);
    OutflowSplits(log, a, s, s + w + 1);
    OutflowSplits(log, s, s + w + 1, a + 2 * w);
    OutflowSplits(log, a, s, a + 2 * w);
    OutflowSplits(log, a, a + w, a + 2 * w);
    assert Outflow(log, a, a + w) <= FromInt(config.maxOutflow);
    if a + w < U64 {
      NextWindow(s, w);
      var b: u64 := a + w;
      assert Outflow(log, WindowOf(b, w), WindowOf(b, w) + w) <= FromInt(config.maxOutflow);
    } else {
      OutflowAbove(log, a + w, a + 2 * w, SLOT_LIMIT);
    }
  }

  /** Inside one aligned window the outflow is at most the cap. */
  lemma InsideOneWindow(config: LimiterConfig, start: u64, log: seq<Flow>, s: u64, lo: int, hi: int)
    requires Accepted(config, start, log)
    requires WindowOf(s, config.window) <= lo <= hi <= WindowOf(s, config.window) + config.window
    ensures Outflow(log, lo, hi) <= FromInt(config.maxOutflow)
  {
    hide WindowOf, Replay;
    var a := WindowOf(s, config.window);
    ReplayTracks(config, start, log);
    OutflowSplits(log, a, lo, a + config.window);
    OutflowSplits(log, lo, hi, a + config.window);
  }

  /** With a full previous window the weighted part is not zero before the window's last slot. */
  lemma FullWindowWeighs(l: Limiter, elapsed: nat)
    requires 0 < elapsed < l.config.window <= WAD && l.config.maxOutflow > 0 && l.prevQty == Cap(l)
    ensures Weighted(l.prevQty, l.config.window, elapsed) > 0
  {
    var w, m := l.config.window, l.config.maxOutflow;
    FloorAtLeast(FromInt(w) - elapsed * WAD, w, 1);
    var weight := Weight(w, elapsed);
    assert weight >= 1;
    hide Weight;
    Assoc(weight, m, WAD);
    MulMono(1, weight, m);
    FloorOfMultiple(weight * m, WAD);
  }

  /** The case of `OpenWindowBelowTwice` where the last update falls in the window after that of s. */
  lemma BelowTwiceAcrossBoundary(config: LimiterConfig, start: u64, log: seq<Flow>, s: u64)
    requires Accepted(config, start, log) && log != []
    requires 0 < config.maxOutflow && config.window <= WAD
    requires WindowOf(s, config.window) + config.window <= LastSlot(start, log) < s + config.window
    ensures Outflow(log, s, s + config.window) < 2 * FromInt(config.maxOutflow)
  {
    hide WindowOf, Weighted, Replay, Outflow;
    var w, last := config.window, LastSlot(start, log);
    var a: u64, b: u64 := WindowOf(s, w), WindowOf(s, w) + w;
    NextWindow(s, w);
    SameWindow(b, last, w);
    ReplayTracks(config, start, log);
    var l := Replay(config, start, log).value;
    OutflowSplits(log, s, b, s + w);
    OutflowSplits(log, a, s, b);
    OutflowSplits(log, b, s + w, b + w);
    OutflowAbove(log, s + w, b + w, last);
    if l.prevQty == Cap(l) { FullWindowWeighs(l, last - b + 1); }
  }

  /** Any w consecutive slots let out strictly less than twice the cap, as long as the window is at
      most 10^18 slots. */
  lemma {:induction false} OpenWindowBelowTwice(config: LimiterConfig, start: u64, log: seq<Flow>, s: u64)
    requires Accepted(config, start, log)
    requires 0 < config.maxOutflow && config.window <= WAD
    ensures Outflow(log, s, s + config.window) < 2 * FromInt(config.maxOutflow)
    decreases |log|
  {
    hide WindowOf, Replay;
    if log != [] {
      var w, last := config.window, LastSlot(start, log);
      var a := WindowOf(s, w);
      if !(s <= last < s + w) {
        FrontAccepted(config, start, log);
        OpenWindowBelowTwice(config, start, log[..|log| - 1], s);
      } else if last < a + w {
        OutflowSplits(log, s, a + w, s + w);
        OutflowAbove(log, a + w, s + w, last);
        InsideOneWindow(config, start, log, s, s, a + w);
      } else {
        BelowTwiceAcrossBoundary(config, start, log, s);
      }
    }
  }

  /** Two bursts of the full cap, at the end of one window and `gap` slots later. */
  function TwoBursts(config: LimiterConfig, gap: nat): seq<Flow>
    requires 0 < config.window && config.window - 1 + gap < SLOT_LIMIT
  {
    var w := config.window;
    [Flow(w - 1, FromInt(config.maxOutflow)), Flow(w - 1 + gap, FromInt(config.maxOutflow))]
  }

  lemma FirstBurst(config: LimiterConfig)
    requires 0 < config.window <= SLOT_LIMIT
    ensures var u := Update(New(config, 0), config.window - 1, FromInt(config.maxOutflow));
            u == Ok(Limiter(config, 0, 0, FromInt(config.maxOutflow))) && LimiterOk(u.value, config.window - 1)
  {
    hide Weighted, Roll, CurrentOutflow;
    var w, cap := config.window, FromInt(config.maxOutflow);
    var l := New(config, 0);
    NewIsOk(config, 0);
    FloorExact(0, w, 0);
    FloorExact(w - 1, w, 0);
    OkAsTimePasses(l, 0, w - 1);
    LastSlotWeighsNothing(0, w);
    RollLands(l, w - 1);
    OutflowIs(l, w - 1);
    UpdateKeepsOk(l, w - 1, cap);
  }

  lemma SecondBurst(l: Limiter, now: u64)
    requires l.config.window > 0 && l.windowStart == 0 && l.curQty == Cap(l) && LimiterOk(l, now)
    requires l.config.window <= now < 2 * l.config.window && now < SLOT_LIMIT
    requires Weighted(Cap(l), l.config.window, now - l.config.window + 1) == 0
    ensures Update(l, now, Cap(l)).Ok?
  {
    hide Weighted, Roll, CurrentOutflow;
    var w := l.config.window;
    FloorExact(now, w, 1);
    RollLands(l, now);
    OutflowIs(Roll(l, now).value, now);
  }

  lemma BurstsAccepted(config: LimiterConfig, gap: nat)
    requires 0 < config.window && config.window - 1 + gap < SLOT_LIMIT && 0 < gap <= config.window
    requires gap == config.window || (gap == config.window - 1 && config.window > WAD)
    ensures Accepted(config, 0, TwoBursts(config, gap))
  {
    hide Weighted, WindowOf, Roll, Update;
    var w := config.window;
    var log := TwoBursts(config, gap);
    assert log[..1] == [log[0]] && [log[0]][..0] == [];
    FirstBurst(config);
    var l := Limiter(config, 0, 0, FromInt(config.maxOutflow));
    assert Replay(config, 0, [log[0]]) == Ok(l);
    OkAsTimePasses(l, w - 1, log[1].slot);
    if gap == w {
      LastSlotWeighsNothing(l.curQty, w);
    } else {
      LastButOneWeighsNothing(l.curQty, w);
    }
    SecondBurst(l, log[1].slot);
  }

  /** The design note's "less than 2x" over the closed interval fails for every configuration:
      two bursts a window apart let out exactly twice the cap. */
  lemma ClosedWindowReachesTwice(config: LimiterConfig)
    requires 0 < config.window && 2 * config.window <= SLOT_LIMIT
    ensures Accepted(config, 0, TwoBursts(config, config.window))
    ensures var s := config.window - 1;
            Outflow(TwoBursts(config, config.window), s, s + config.window + 1) == 2 * FromInt(config.maxOutflow)
  {
    BurstsAccepted(config, config.window);
    BurstsSum(config, config.window, config.window - 1, 2 * config.window);
  }

  lemma BurstsSum(config: LimiterConfig, gap: nat, lo: int, hi: int)
    requires 0 < config.window && config.window - 1 + gap < SLOT_LIMIT
    requires lo <= config.window - 1 && config.window - 1 + gap < hi
    ensures Outflow(TwoBursts(config, gap), lo, hi) == 2 * FromInt(config.maxOutflow)
  {
    var log := TwoBursts(config, gap);
    assert log[..1] == [log[0]] && [log[0]][..0] == [];
    assert Outflow([log[0]], lo, hi) == FromInt(config.maxOutflow);
  }

  predicate BelowTwice(config: LimiterConfig, log: seq<Flow>, s: u64) {
    Outflow(log, s, s + config.window) < 2 * FromInt(config.maxOutflow)
  }

  /** No run lets out twice the cap within one window length, exactly for windows of at most 10^18
      slots (and a cap that is not zero). */
  lemma BelowTwiceIffWindowAtMostWad(config: LimiterConfig)
    requires 0 < config.window && 2 * config.window <= SLOT_LIMIT && config.maxOutflow > 0
    ensures (forall start: u64, log: seq<Flow>, s: u64 ::
               Accepted(config, start, log) ==> BelowTwice(config, log, s))
            <==> config.window <= WAD
  {
    hide Accepted;
    if config.window <= WAD {
      forall start: u64, log: seq<Flow>, s: u64 | Accepted(config, start, log)
        ensures BelowTwice(config, log, s)
      {
        OpenWindowBelowTwice(config, start, log, s);
      }
    } else {
      var w := config.window;
      BurstsAccepted(config, w - 1);
      BurstsSum(config, w - 1, w - 1, 2 * w - 1);
      assert !BelowTwice(config, TwoBursts(config, w - 1), w - 1);
    }
  }
}
