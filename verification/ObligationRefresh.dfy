/** Refreshing an obligation (token-lending/program/src/processor.rs, process_refresh_obligation):
    two loops that revalue every deposit and borrow against fresh reserves, sum the limits, move the
    heaviest borrow to the front and drop what has become empty. */
module ObligationRefresh {
  import opened Results
  import opened FloorMath
  import opened FixedPoint
  import opened ReserveConfigs
  import opened Reserves
  import opened Valuation
  import opened Obligations

  type ReserveMap = map<Pubkey, Reserve>

  const GLOBAL_UNHEALTHY_BORROW_VALUE: Decimal := FromInt(70_000_000)
  const GLOBAL_ALLOWED_BORROW_VALUE: Decimal := FromInt(65_000_000)

  datatype DepositTotals = DepositTotals(
    deposited: Decimal, allowed: Decimal, unhealthy: Decimal, superUnhealthy: Decimal)

  /** The borrow that weighs most so far, ties broken by address. */
  datatype Top = NoTop | Top(weight: u64, key: Pubkey, index: nat)

  datatype BorrowTotals = BorrowTotals(borrowed: Decimal, upperBound: Decimal, isolated: bool, top: Top)

  function Lookup(rs: ReserveMap, key: Pubkey, now: u64): (r: Result<Reserve>)
    ensures r.Ok? ==> key in rs && rs[key] == r.value
  {
    if key !in rs then Err(InvalidAccountInput)
    else
      var stale :- rs[key].lastUpdate.IsStale(now);
      if stale then Err(ReserveStale) else Ok(rs[key])
  }

  /** One turn of the deposit loop. */
  function ValueDeposit(c: Collateral, r: Reserve, t: DepositTotals): Result<(Collateral, DepositTotals)> {
    var rate :- ExchangeRate(r);
    var liquidity :- DecimalToLiquidity(rate, FromInt(c.deposited));
    var value :- MarketValue(r.liquidity, liquidity);
    var low :- MarketValueLowerBound(r.liquidity, liquidity);
    var deposited :- Add(t.deposited, value);
    var allow :- Mul(low, Percent(r.config.loanToValue));
    var allowed :- Add(t.allowed, allow);
    var limit :- Mul(value, Percent(r.config.liquidationThreshold));
    var unhealthy :- Add(t.unhealthy, limit);
    var superLimit :- Mul(value, Percent(r.config.maxLiquidationThreshold));
    var superUnhealthy :- Add(t.superUnhealthy, superLimit);
    Ok((c.(marketValue := value), DepositTotals(deposited, allowed, unhealthy, superUnhealthy)))
  }

  /** The deposit loop after `n` turns. */
  function ValueDeposits(ds: seq<Collateral>, rs: ReserveMap, now: u64, n: nat): Result<(seq<Collateral>, DepositTotals)>
    requires n <= |ds|
  {
    if n == 0 then Ok(([], DepositTotals(0, 0, 0, 0)))
    else
      var (front, t) :- ValueDeposits(ds, rs, now, n - 1);
      var r :- Lookup(rs, ds[n - 1].reserve, now);
      var (c, t') :- ValueDeposit(ds[n - 1], r, t);
      Ok((front + [c], t'))
  }

  predicate Heavier(w: u64, k: Pubkey, v: u64, j: Pubkey) { w > v || (w == v && k > j) }

  function NextTop(top: Top, loan: Loan, weight: u64, index: nat): Top {
    if loan.borrowed == 0 then top
    else if top.NoTop? || Heavier(weight, loan.reserve, top.weight, top.key) then Top(weight, loan.reserve, index)
    else top
  }

  /** One turn of the borrow loop. */
  function ValueLoan(loan: Loan, r: Reserve, index: nat, t: BorrowTotals): Result<(Loan, BorrowTotals)> {
    var accrued :- AccrueLoan(loan, r.liquidity.cumulativeRate);
    var value :- MarketValue(r.liquidity, accrued.borrowed);
    var high :- MarketValueUpperBound(r.liquidity, accrued.borrowed);
    var weighted :- Mul(value, BorrowWeight(r.config));
    var borrowed :- Add(t.borrowed, weighted);
    var weightedHigh :- Mul(high, BorrowWeight(r.config));
    var upperBound :- Add(t.upperBound, weightedHigh);
    Ok((accrued.(marketValue := value),
        BorrowTotals(borrowed, upperBound, t.isolated || r.config.reserveType == Isolated,
                     NextTop(t.top, accrued, r.config.addedBorrowWeightBps, index))))
  }

  function ValueLoans(bs: seq<Loan>, rs: ReserveMap, now: u64, n: nat): Result<(seq<Loan>, BorrowTotals)>
    requires n <= |bs|
  {
    if n == 0 then Ok(([], BorrowTotals(0, 0, false, NoTop)))
    else
      var (front, t) :- ValueLoans(bs, rs, now, n - 1);
      var r :- Lookup(rs, bs[n - 1].reserve, now);
      var (loan, t') :- ValueLoan(bs[n - 1], r, n - 1, t);
      Ok((front + [loan], t'))
  }

  function Promote(bs: seq<Loan>, top: Top): seq<Loan>
    requires top.Top? ==> top.index < |bs|
  {
    if top.NoTop? then bs else bs[0 := bs[top.index]][top.index := bs[0]]
  }

  function KeepLoans(bs: seq<Loan>): seq<Loan> {
    if bs == [] then []
    else KeepLoans(bs[..|bs| - 1]) + (if bs[|bs| - 1].borrowed > 0 then [bs[|bs| - 1]] else [])
  }

  function KeepDeposits(ds: seq<Collateral>): seq<Collateral> {
    if ds == [] then []
    else KeepDeposits(ds[..|ds| - 1]) + (if ds[|ds| - 1].deposited > 0 then [ds[|ds| - 1]] else [])
  }

  function Refresh(o: Obligation, rs: ReserveMap, now: u64): Result<Obligation> {
    var (ds, dt) :- ValueDeposits(o.deposits, rs, now, |o.deposits|);
    var (bs, bt) :- ValueLoans(o.borrows, rs, now, |o.borrows|);
    ValuedLoans(o.borrows, rs, now, |o.borrows|);
    Ok(o.(lastUpdate := LastUpdate(now, false),
          deposits := KeepDeposits(ds),
          borrows := KeepLoans(Promote(bs, bt.top)),
          depositedValue := dt.deposited,
          borrowedValue := bt.borrowed,
          borrowedValueUpperBound := bt.upperBound,
          allowedBorrowValue := Min(dt.allowed, GLOBAL_ALLOWED_BORROW_VALUE),
          unhealthyBorrowValue := Min(dt.unhealthy, GLOBAL_UNHEALTHY_BORROW_VALUE),
          superUnhealthyBorrowValue := Min(dt.superUnhealthy, GLOBAL_UNHEALTHY_BORROW_VALUE),
          borrowingIsolatedAsset := bt.isolated))
  }

  // ----- the loops

  lemma {:induction false} DepositErrorStays(ds: seq<Collateral>, rs: ReserveMap, now: u64, i: nat, n: nat)
    requires i <= n <= |ds| && ValueDeposits(ds, rs, now, i).Err?
    ensures ValueDeposits(ds, rs, now, n) == ValueDeposits(ds, rs, now, i)
    decreases n - i
  {
    hide Lookup, ValueDeposit;
    if i < n { DepositErrorStays(ds, rs, now, i + 1, n); }
  }

  lemma {:induction false} LoanErrorStays(bs: seq<Loan>, rs: ReserveMap, now: u64, i: nat, n: nat)
    requires i <= n <= |bs| && ValueLoans(bs, rs, now, i).Err?
    ensures ValueLoans(bs, rs, now, n) == ValueLoans(bs, rs, now, i)
    decreases n - i
  {
    hide Lookup, ValueLoan;
    if i < n { LoanErrorStays(bs, rs, now, i + 1, n); }
  }

  lemma PutNext<T>(done: seq<T>, rest: seq<T>, x: T)
    requires rest != []
    ensures (done + rest)[|done|] == rest[0]
    ensures (done + rest)[|done| := x] == (done + [x]) + rest[1..]
  {
  }

  lemma DepositStart(ds: seq<Collateral>, rs: ReserveMap, now: u64)
    ensures ValueDeposits(ds, rs, now, 0) == Ok(([], DepositTotals(0, 0, 0, 0)))
  {
  }

  /** Turn `i` of the loop, from what the turns before it left. */
  lemma DepositTurn(ds: seq<Collateral>, rs: ReserveMap, now: u64, i: nat, done: seq<Collateral>, t: DepositTotals)
    requires i < |ds| && ValueDeposits(ds, rs, now, i) == Ok((done, t))
    ensures var r := Lookup(rs, ds[i].reserve, now);
      if r.Err? then ValueDeposits(ds, rs, now, |ds|) == Err(r.error)
      else
        var step := ValueDeposit(ds[i], r.value, t);
        if step.Err? then ValueDeposits(ds, rs, now, |ds|) == Err(step.error)
        else ValueDeposits(ds, rs, now, i + 1) == Ok((done + [step.value.0], step.value.1))
  {
    hide Lookup, ValueDeposit;
    var next := ValueDeposits(ds, rs, now, i + 1);
    if next.Err? { DepositErrorStays(ds, rs, now, i + 1, |ds|); }
  }

  /** The first loop: each deposit revalued in place, with four running sums. */
  method RevalueDeposits(ds: seq<Collateral>, rs: ReserveMap, now: u64)
    returns (r: Result<(seq<Collateral>, DepositTotals)>)
    ensures r == ValueDeposits(ds, rs, now, |ds|)
  {
    hide ValueDeposits, Lookup, ValueDeposit;
    DepositStart(ds, rs, now);
    var deposits := ds;
    var t := DepositTotals(0, 0, 0, 0);
    ghost var done: seq<Collateral> := [];
    var i := 0;
    while i < |ds|
      invariant 0 <= i <= |ds| && |done| == i && deposits == done + ds[i..]
      invariant ValueDeposits(ds, rs, now, i) == Ok((done, t))
    {
      DepositTurn(ds, rs, now, i, done, t);
      PutNext(done, ds[i..], ds[i]);
      var reserve := Lookup(rs, deposits[i].reserve, now);
      if reserve.Err? {
        return Err(reserve.error);
      }
      var step := ValueDeposit(deposits[i], reserve.value, t);
      if step.Err? {
        return Err(step.error);
      }
      PutNext(done, ds[i..], step.value.0);
      deposits, t := deposits[i := step.value.0], step.value.1;
      done := done + [step.value.0];
      i := i + 1;
    }
    assert deposits == done;
    return Ok((deposits, t));
  }

  lemma LoanStart(bs: seq<Loan>, rs: ReserveMap, now: u64)
    ensures ValueLoans(bs, rs, now, 0) == Ok(([], BorrowTotals(0, 0, false, NoTop)))
  {
  }

  /** Turn `i` of the loop, from what the turns before it left. */
  lemma LoanTurn(bs: seq<Loan>, rs: ReserveMap, now: u64, i: nat, done: seq<Loan>, t: BorrowTotals)
    requires i < |bs| && ValueLoans(bs, rs, now, i) == Ok((done, t))
    ensures var r := Lookup(rs, bs[i].reserve, now);
      if r.Err? then ValueLoans(bs, rs, now, |bs|) == Err(r.error)
      else
        var step := ValueLoan(bs[i], r.value, i, t);
        if step.Err? then ValueLoans(bs, rs, now, |bs|) == Err(step.error)
        else ValueLoans(bs, rs, now, i + 1) == Ok((done + [step.value.0], step.value.1))
  {
    hide Lookup, ValueLoan;
    var next := ValueLoans(bs, rs, now, i + 1);
    if next.Err? { LoanErrorStays(bs, rs, now, i + 1, |bs|); }
  }

  /** The second loop: each borrow accrued and revalued in place, tracking the heaviest. */
  method RevalueLoans(bs: seq<Loan>, rs: ReserveMap, now: u64) returns (r: Result<(seq<Loan>, BorrowTotals)>)
    ensures r == ValueLoans(bs, rs, now, |bs|)
  {
    hide ValueLoans, Lookup, ValueLoan;
    LoanStart(bs, rs, now);
    var borrows := bs;
    var t := BorrowTotals(0, 0, false, NoTop);
    ghost var done: seq<Loan> := [];
    var i := 0;
    while i < |bs|
      invariant 0 <= i <= |bs| && |done| == i && borrows == done + bs[i..]
      invariant ValueLoans(bs, rs, now, i) == Ok((done, t))
    {
      LoanTurn(bs, rs, now, i, done, t);
      PutNext(done, bs[i..], bs[i]);
      var reserve := Lookup(rs, borrows[i].reserve, now);
      if reserve.Err? {
        return Err(reserve.error);
      }
      var step := ValueLoan(borrows[i], reserve.value, i, t);
      if step.Err? {
        return Err(step.error);
      }
      PutNext(done, bs[i..], step.value.0);
      borrows, t := borrows[i := step.value.0], step.value.1;
      done := done + [step.value.0];
      i := i + 1;
    }
    assert borrows == done;
    return Ok((borrows, t));
  }

  /** `retain(|liquidity| liquidity.borrowed_amount_wads > 0)` */
  method RetainLoans(bs: seq<Loan>) returns (kept: seq<Loan>)
    ensures kept == KeepLoans(bs)
  {
    kept := [];
    var i := 0;
    while i < |bs|
      invariant 0 <= i <= |bs|
      invariant kept == KeepLoans(bs[..i])
    {
      assert bs[..i + 1][..i] == bs[..i];
      if bs[i].borrowed > 0 { kept := kept + [bs[i]]; }
      i := i + 1;
    }
    assert bs[..i] == bs;
  }

  method RetainDeposits(ds: seq<Collateral>) returns (kept: seq<Collateral>)
    ensures kept == KeepDeposits(ds)
  {
    kept := [];
    var i := 0;
    while i < |ds|
      invariant 0 <= i <= |ds|
      invariant kept == KeepDeposits(ds[..i])
    {
      assert ds[..i + 1][..i] == ds[..i];
      if ds[i].deposited > 0 { kept := kept + [ds[i]]; }
      i := i + 1;
    }
    assert ds[..i] == ds;
  }

  // ----- what the loops establish

  function WeightOf(rs: ReserveMap, key: Pubkey): u64 {
    if key in rs then rs[key].config.addedBorrowWeightBps else 0
  }

  /** `top` names a nonzero borrow among `bs` that no other nonzero borrow outweighs. */
  predicate IsTop(top: Top, bs: seq<Loan>, rs: ReserveMap) {
    match top
    case NoTop => forall j :: 0 <= j < |bs| ==> bs[j].borrowed == 0
    case Top(weight, key, index) =>
      && index < |bs| && bs[index].borrowed > 0 && bs[index].reserve == key && weight == WeightOf(rs, key)
      && forall j :: 0 <= j < |bs| && bs[j].borrowed > 0 ==>
           !Heavier(WeightOf(rs, bs[j].reserve), bs[j].reserve, weight, key)
  }

  /** After `n` turns: the borrows are the old ones accrued to their reserves' indices, in order, and
      the heaviest of them is known. */
  lemma {:induction false} ValuedLoans(bs: seq<Loan>, rs: ReserveMap, now: u64, n: nat)
    requires n <= |bs|
    ensures ValueLoans(bs, rs, now, n).Ok? ==>
      var (vs, t) := ValueLoans(bs, rs, now, n).value;
      && |vs| == n && IsTop(t.top, vs, rs)
      && forall i :: 0 <= i < n ==>
           && vs[i].reserve == bs[i].reserve && bs[i].reserve in rs
           && AccrueLoan(bs[i], rs[bs[i].reserve].liquidity.cumulativeRate).Ok?
           && vs[i] == AccrueLoan(bs[i], rs[bs[i].reserve].liquidity.cumulativeRate).value.(marketValue := vs[i].marketValue)
  {
    hide ValueLoan, IsTop, AccrueLoan;
    if n > 0 && ValueLoans(bs, rs, now, n).Ok? {
      ValuedLoans(bs, rs, now, n - 1);
      var (front, t) := ValueLoans(bs, rs, now, n - 1).value;
      ValuedLoan(bs[n - 1], rs[bs[n - 1].reserve], n - 1, t);
      NextIsTop(front, ValueLoan(bs[n - 1], rs[bs[n - 1].reserve], n - 1, t).value.0, t.top, rs);
    } else {
      NothingIsTop(rs);
    }
  }

  /** One turn of the loop. */
  lemma ValuedLoan(loan: Loan, r: Reserve, index: nat, t: BorrowTotals)
    requires ValueLoan(loan, r, index, t).Ok?
    ensures AccrueLoan(loan, r.liquidity.cumulativeRate).Ok?
    ensures var (v, u) := ValueLoan(loan, r, index, t).value;
      && v == AccrueLoan(loan, r.liquidity.cumulativeRate).value.(marketValue := v.marketValue)
      && v.reserve == loan.reserve && u.top == NextTop(t.top, v, r.config.addedBorrowWeightBps, index)
  {
    hide MarketValue, MarketValueUpperBound, Mul, BorrowWeight, Div;
  }

  lemma NextIsTop(front: seq<Loan>, v: Loan, top: Top, rs: ReserveMap)
    requires IsTop(top, front, rs) && v.reserve in rs
    ensures IsTop(NextTop(top, v, rs[v.reserve].config.addedBorrowWeightBps, |front|), front + [v], rs)
  {
  }

  lemma NothingIsTop(rs: ReserveMap)
    ensures IsTop(NoTop, [], rs)
  {
  }

  lemma {:induction false} ValuedDeposits(ds: seq<Collateral>, rs: ReserveMap, now: u64, n: nat)
    requires n <= |ds|
    ensures ValueDeposits(ds, rs, now, n).Ok? ==>
      var (vs, t) := ValueDeposits(ds, rs, now, n).value;
      && |vs| == n
      && forall i :: 0 <= i < n ==> ds[i].reserve in rs && vs[i] == ds[i].(marketValue := vs[i].marketValue)
  {
    hide MarketValue, MarketValueLowerBound, Mul, ExchangeRate, DecimalToLiquidity;
    if n > 0 && ValueDeposits(ds, rs, now, n).Ok? {
      ValuedDeposits(ds, rs, now, n - 1);
    }
  }

  /** Each deposit adds to the four sums in order. */
  lemma ValueDepositOrdered(c: Collateral, r: Reserve, t: DepositTotals)
    requires Sane(r.config) && ValueDeposit(c, r, t).Ok?
    ensures var u := ValueDeposit(c, r, t).value.1;
      u.allowed - t.allowed <= u.unhealthy - t.unhealthy
        <= u.superUnhealthy - t.superUnhealthy <= u.deposited - t.deposited
  {
    var l := r.liquidity;
    var liquidity := DecimalToLiquidity(ExchangeRate(r).value, FromInt(c.deposited)).value;
    var value, low := MarketValue(l, liquidity).value, MarketValueLowerBound(l, liquidity).value;
    assert MarketValue(l, liquidity) == ValueAt(l.price, l.decimals, liquidity);
    assert MarketValueLowerBound(l, liquidity) == ValueAt(PriceLow(l), l.decimals, liquidity);
    ValueAtIsWorth(l.price, l.decimals, liquidity);
    ValueAtIsWorth(PriceLow(l), l.decimals, liquidity);
    WorthMono(PriceLow(l), l.price, l.decimals, liquidity, liquidity);
    hide ValueAt, Worth, MarketValue, MarketValueLowerBound, ExchangeRate, DecimalToLiquidity;
    ShareOrdered(low, value, Percent(r.config.loanToValue), Percent(r.config.liquidationThreshold));
    ShareOrdered(value, value, Percent(r.config.liquidationThreshold), Percent(r.config.maxLiquidationThreshold));
    ScaledAtMost(Percent(r.config.maxLiquidationThreshold), value);
  }

  lemma ShareOrdered(a: nat, b: nat, x: nat, y: nat)
    requires a <= b && x <= y
    ensures a * x / WAD <= b * y / WAD
  {
    MulMono(a, b, x);
    MulMono(x, y, b);
    FloorMono(a * x, b * y, WAD);
  }

  predicate AllSane(rs: ReserveMap) { forall k :: k in rs ==> Sane(rs[k].config) }

  lemma {:induction false} DepositTotalsOrdered(ds: seq<Collateral>, rs: ReserveMap, now: u64, n: nat)
    requires n <= |ds| && AllSane(rs)
    ensures ValueDeposits(ds, rs, now, n).Ok? ==>
      var t := ValueDeposits(ds, rs, now, n).value.1;
      t.allowed <= t.unhealthy <= t.superUnhealthy <= t.deposited
  {
    hide ValueDeposit, Sane;
    if n > 0 && ValueDeposits(ds, rs, now, n).Ok? {
      DepositTotalsOrdered(ds, rs, now, n - 1);
      ValueDepositOrdered(ds[n - 1], rs[ds[n - 1].reserve], ValueDeposits(ds, rs, now, n - 1).value.1);
    }
  }

  lemma ValueLoanOrdered(loan: Loan, r: Reserve, index: nat, t: BorrowTotals)
    requires ValueLoan(loan, r, index, t).Ok?
    ensures var u := ValueLoan(loan, r, index, t).value.1;
      && u.borrowed - t.borrowed <= u.upperBound - t.upperBound
      && u.upperBound == t.upperBound
           + WeightedWorth(r, AccrueLoan(loan, r.liquidity.cumulativeRate).value.borrowed)
  {
    var l := r.liquidity;
    var debt := AccrueLoan(loan, l.cumulativeRate).value.borrowed;
    var value, high := MarketValue(l, debt).value, MarketValueUpperBound(l, debt).value;
    ValueAtIsWorth(l.price, l.decimals, debt);
    ValueAtIsWorth(PriceHigh(l), l.decimals, debt);
    WorthMono(l.price, PriceHigh(l), l.decimals, debt, debt);
    hide ValueAt, Worth, AccrueLoan, BorrowWeight, NextTop;
    ShareOrdered(value, high, BorrowWeight(r.config), BorrowWeight(r.config));
  }

  lemma {:induction false} LoanTotalsOrdered(bs: seq<Loan>, rs: ReserveMap, now: u64, n: nat)
    requires n <= |bs|
    ensures ValueLoans(bs, rs, now, n).Ok? ==>
      var t := ValueLoans(bs, rs, now, n).value.1; t.borrowed <= t.upperBound
  {
    hide ValueLoan, WeightedWorth;
    if n > 0 && ValueLoans(bs, rs, now, n).Ok? {
      LoanTotalsOrdered(bs, rs, now, n - 1);
      ValueLoanOrdered(bs[n - 1], rs[bs[n - 1].reserve], n - 1, ValueLoans(bs, rs, now, n - 1).value.1);
    }
  }

  /** The four limits of a refreshed obligation are ordered, so one that may still borrow cannot be
      liquidated. */
  lemma RefreshedLimitsOrdered(o: Obligation, rs: ReserveMap, now: u64)
    requires AllSane(rs) && Refresh(o, rs, now).Ok?
    ensures var f := Refresh(o, rs, now).value;
      && f.allowedBorrowValue <= f.unhealthyBorrowValue <= f.superUnhealthyBorrowValue <= f.depositedValue
      && f.borrowedValue <= f.borrowedValueUpperBound
      && !(f.allowedBorrowValue > f.borrowedValueUpperBound && f.borrowedValue >= f.unhealthyBorrowValue)
  {
    hide AllSane, ValueDeposits, ValueLoans, KeepLoans, KeepDeposits, Promote;
    DepositTotalsOrdered(o.deposits, rs, now, |o.deposits|);
    LoanTotalsOrdered(o.borrows, rs, now, |o.borrows|);
  }

  // ----- the lists after a refresh

  lemma {:induction false} KeptCount(bs: seq<Loan>, x: Loan)
    ensures multiset(KeepLoans(bs))[x] == if x.borrowed > 0 then multiset(bs)[x] else 0
  {
    if bs == [] {
      assert KeepLoans(bs) == [];
    } else {
      hide KeepLoans;
      var front, last := bs[..|bs| - 1], bs[|bs| - 1];
      KeptCount(front, x);
      KeptLast(bs);
      CountConcat(front, [last], x);
      CountConcat(KeepLoans(front), if last.borrowed > 0 then [last] else [], x);
    }
  }

  lemma KeptLast(bs: seq<Loan>)
    requires bs != []
    ensures var front, last := bs[..|bs| - 1], bs[|bs| - 1];
      bs == front + [last] && KeepLoans(bs) == KeepLoans(front) + (if last.borrowed > 0 then [last] else [])
  {
  }

  lemma CountConcat(a: seq<Loan>, b: seq<Loan>, x: Loan)
    ensures multiset(a + b)[x] == multiset(a)[x] + multiset(b)[x]
  {
  }

  lemma {:induction false} KeptLoans(bs: seq<Loan>)
    ensures |KeepLoans(bs)| <= |bs|
    ensures forall i :: 0 <= i < |KeepLoans(bs)| ==> KeepLoans(bs)[i] in bs && KeepLoans(bs)[i].borrowed > 0
    ensures bs != [] && bs[0].borrowed > 0 ==> KeepLoans(bs) != [] && KeepLoans(bs)[0] == bs[0]
  {
    if bs != [] { KeptLoans(bs[..|bs| - 1]); }
  }

  lemma Promoted(bs: seq<Loan>, top: Top)
    requires top.Top? ==> top.index < |bs|
    ensures multiset(Promote(bs, top)) == multiset(bs)
    ensures forall x :: x in Promote(bs, top) ==> x in bs
    ensures top.Top? ==> Promote(bs, top)[0] == bs[top.index]
  {
    assert forall x :: x in Promote(bs, top) ==> x in multiset(Promote(bs, top));
  }

  predicate HeaviestFirst(bs: seq<Loan>, rs: ReserveMap) {
    forall i :: 0 <= i < |bs| ==>
      !Heavier(WeightOf(rs, bs[i].reserve), bs[i].reserve, WeightOf(rs, bs[0].reserve), bs[0].reserve)
  }

  lemma HeaviestPromoted(bs: seq<Loan>, top: Top, rs: ReserveMap)
    requires IsTop(top, bs, rs)
    ensures HeaviestFirst(KeepLoans(Promote(bs, top)), rs)
  {
    hide KeepLoans, WeightOf, Heavier, Promote;
    Promoted(bs, top);
    KeptLoans(Promote(bs, top));
  }

  /** A refresh permutes the accrued borrows, drops the empty ones, and puts first one that no other
      outweighs by (borrow weight, address). */
  lemma RefreshedBorrows(o: Obligation, rs: ReserveMap, now: u64)
    requires Refresh(o, rs, now).Ok?
    ensures var bs := Refresh(o, rs, now).value.borrows;
            var accrued := ValueLoans(o.borrows, rs, now, |o.borrows|).value.0;
      && (forall x: Loan :: multiset(bs)[x] == if x.borrowed > 0 then multiset(accrued)[x] else 0)
      && HeaviestFirst(bs, rs)
  {
    ValuedLoans(o.borrows, rs, now, |o.borrows|);
    var (accrued, t) := ValueLoans(o.borrows, rs, now, |o.borrows|).value;
    var bs := Refresh(o, rs, now).value.borrows;
    assert bs == KeepLoans(Promote(accrued, t.top));
    hide ValueLoans, Refresh, KeepLoans, Promote, HeaviestFirst;
    HeaviestPromoted(accrued, t.top, rs);
    Promoted(accrued, t.top);
    forall x: Loan
      ensures multiset(bs)[x] == if x.borrowed > 0 then multiset(accrued)[x] else 0
    {
      KeptCount(Promote(accrued, t.top), x);
    }
  }
}
