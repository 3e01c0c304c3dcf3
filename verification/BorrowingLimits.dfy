/** Withdrawals and borrows stay within the borrowing limit
    (obligation.rs max_withdraw_amount, reserve.rs calculate_borrow, processor.rs).

    `Fresh` ties an obligation's stored limits to exact sums over its lists.  A refresh establishes
    it, and from there an accepted withdrawal or borrow followed by another refresh overshoots the
    limit by at most a few units of 10^-18, however the nested floors fall. */
module BorrowingLimits {
  import opened Results
  import opened FloorMath
  import opened FixedPoint
  import opened RateLimiters
  import opened ReserveConfigs
  import opened Reserves
  import opened Valuation
  import opened Obligations
  import opened ObligationRefresh

  // ----- exact sums

  /** Liquidity behind `deposited` collateral tokens at a rate. */
  function Backing(rate: nat, deposited: nat): nat
    requires rate > 0
  {
    Quot(deposited * WAD * WAD, rate)
  }

  /** What `deposited` collateral tokens add to the borrowing limit. */
  function Allowance(r: Reserve, rate: nat, deposited: nat): nat
    requires rate > 0
  {
    Worth(PriceLow(r.liquidity), r.liquidity.decimals, Backing(rate, deposited)) * Percent(r.config.loanToValue) / WAD
  }

  predicate HasRate(r: Reserve) { ExchangeRate(r).Ok? && ExchangeRate(r).value > 0 }

  function AllowanceOf(c: Collateral, rs: ReserveMap): nat {
    if c.reserve in rs && HasRate(rs[c.reserve])
    then Allowance(rs[c.reserve], ExchangeRate(rs[c.reserve]).value, c.deposited)
    else 0
  }

  function SumAllowances(ds: seq<Collateral>, rs: ReserveMap): nat {
    if ds == [] then 0 else SumAllowances(ds[..|ds| - 1], rs) + AllowanceOf(ds[|ds| - 1], rs)
  }

  function DebtOf(loan: Loan, rs: ReserveMap): nat {
    if loan.reserve in rs then WeightedWorth(rs[loan.reserve], loan.borrowed) else 0
  }

  function SumDebts(bs: seq<Loan>, rs: ReserveMap): nat {
    if bs == [] then 0 else SumDebts(bs[..|bs| - 1], rs) + DebtOf(bs[|bs| - 1], rs)
  }

  predicate AtIndex(bs: seq<Loan>, rs: ReserveMap) {
    forall i :: 0 <= i < |bs| ==>
      bs[i].reserve in rs && bs[i].cumulativeRate == rs[bs[i].reserve].liquidity.cumulativeRate
  }

  predicate Rated(ds: seq<Collateral>, rs: ReserveMap) {
    forall i :: 0 <= i < |ds| ==> ds[i].reserve in rs && HasRate(rs[ds[i].reserve])
  }

  /** The stored limits are the exact sums over the stored lists, at the reserves' current indices. */
  predicate Fresh(o: Obligation, rs: ReserveMap) {
    && o.allowedBorrowValue == Min(SumAllowances(o.deposits, rs), GLOBAL_ALLOWED_BORROW_VALUE)
    && o.borrowedValueUpperBound == SumDebts(o.borrows, rs)
    && AtIndex(o.borrows, rs) && Rated(o.deposits, rs)
  }

  lemma NothingIsWorthNothing(r: Reserve, rate: nat)
    ensures rate > 0 ==> Allowance(r, rate, 0) == 0
    ensures WeightedWorth(r, 0) == 0
  {
    if rate > 0 { FloorUnique(0, rate, Backing(rate, 0), 0); }
    FloorUnique(0, Unit(r.liquidity.decimals), Worth(PriceLow(r.liquidity), r.liquidity.decimals, 0), 0);
    FloorUnique(0, Unit(r.liquidity.decimals), Worth(PriceHigh(r.liquidity), r.liquidity.decimals, 0), 0);
  }

  lemma {:induction false} SumAllowancesPut(ds: seq<Collateral>, rs: ReserveMap, i: nat, c: Collateral)
    requires i < |ds|
    ensures SumAllowances(ds[i := c], rs) == SumAllowances(ds, rs) - AllowanceOf(ds[i], rs) + AllowanceOf(c, rs)
  {
    hide AllowanceOf;
    var n := |ds| - 1;
    if i < n {
      SumAllowancesPut(ds[..n], rs, i, c);
      assert ds[i := c][..n] == ds[..n][i := c];
    } else {
      assert ds[i := c][..n] == ds[..n];
    }
  }

  lemma {:induction false} SumAllowancesRemove(ds: seq<Collateral>, rs: ReserveMap, i: nat)
    requires i < |ds|
    ensures SumAllowances(ds[..i] + ds[i + 1..], rs) == SumAllowances(ds, rs) - AllowanceOf(ds[i], rs)
  {
    hide AllowanceOf;
    var n := |ds| - 1;
    var rest := ds[..i] + ds[i + 1..];
    if i < n {
      SumAllowancesRemove(ds[..n], rs, i);
      assert rest[..|rest| - 1] == ds[..n][..i] + ds[..n][i + 1..];
      assert rest[|rest| - 1] == ds[n];
    } else {
      assert rest == ds[..n];
    }
  }

  lemma {:induction false} SumAllowancesSame(ds: seq<Collateral>, es: seq<Collateral>, rs: ReserveMap)
    requires |ds| == |es|
    requires forall i :: 0 <= i < |ds| ==> ds[i].reserve == es[i].reserve && ds[i].deposited == es[i].deposited
    ensures SumAllowances(ds, rs) == SumAllowances(es, rs)
  {
    hide Allowance, HasRate;
    if ds != [] { SumAllowancesSame(ds[..|ds| - 1], es[..|es| - 1], rs); }
  }

  lemma EmptyAllowsNothing(c: Collateral, rs: ReserveMap)
    requires c.deposited == 0
    ensures AllowanceOf(c, rs) == 0
  {
    hide Allowance, ExchangeRate;
    if c.reserve in rs && HasRate(rs[c.reserve]) {
      NothingIsWorthNothing(rs[c.reserve], ExchangeRate(rs[c.reserve]).value);
    }
  }

  lemma {:induction false} SumAllowancesKept(ds: seq<Collateral>, rs: ReserveMap)
    ensures SumAllowances(KeepDeposits(ds), rs) == SumAllowances(ds, rs)
  {
    hide AllowanceOf;
    if ds != [] {
      var n := |ds| - 1;
      SumAllowancesKept(ds[..n], rs);
      var front := KeepDeposits(ds[..n]);
      if ds[n].deposited > 0 {
        assert (front + [ds[n]])[..|front|] == front;
      } else {
        assert front + [] == front;
        EmptyAllowsNothing(ds[n], rs);
      }
    }
  }

  lemma {:induction false} KeptDeposits(ds: seq<Collateral>)
    ensures forall i :: 0 <= i < |KeepDeposits(ds)| ==> KeepDeposits(ds)[i] in ds
  {
    if ds != [] { KeptDeposits(ds[..|ds| - 1]); }
  }

  lemma {:induction false} SumDebtsPut(bs: seq<Loan>, rs: ReserveMap, i: nat, loan: Loan)
    requires i < |bs|
    ensures SumDebts(bs[i := loan], rs) == SumDebts(bs, rs) - DebtOf(bs[i], rs) + DebtOf(loan, rs)
  {
    hide DebtOf;
    var n := |bs| - 1;
    if i < n {
      SumDebtsPut(bs[..n], rs, i, loan);
      assert bs[i := loan][..n] == bs[..n][i := loan];
    } else {
      assert bs[i := loan][..n] == bs[..n];
    }
  }

  lemma {:induction false} SumDebtsKept(bs: seq<Loan>, rs: ReserveMap)
    ensures SumDebts(KeepLoans(bs), rs) == SumDebts(bs, rs)
  {
    hide WeightedWorth;
    if bs != [] {
      var n := |bs| - 1;
      SumDebtsKept(bs[..n], rs);
      var front := KeepLoans(bs[..n]);
      if bs[n].borrowed > 0 {
        assert (front + [bs[n]])[..|front|] == front;
      } else {
        assert front + [] == front;
        if bs[n].reserve in rs { NothingIsWorthNothing(rs[bs[n].reserve], 0); }
      }
    }
  }

  lemma {:induction false} SumDebtsSame(bs: seq<Loan>, cs: seq<Loan>, rs: ReserveMap, ss: ReserveMap)
    requires |bs| == |cs|
    requires forall i :: 0 <= i < |bs| ==>
      && bs[i].reserve == cs[i].reserve && bs[i].borrowed == cs[i].borrowed
      && (bs[i].reserve in rs <==> bs[i].reserve in ss)
      && (bs[i].reserve in rs ==> SameTerms(rs[bs[i].reserve], ss[bs[i].reserve]))
    ensures SumDebts(bs, rs) == SumDebts(cs, ss)
  {
    if bs != [] { SumDebtsSame(bs[..|bs| - 1], cs[..|cs| - 1], rs, ss); }
  }

  /** Reserves that value debt and collateral alike. */
  predicate SameTerms(r: Reserve, s: Reserve) {
    && r.config == s.config && r.liquidity.price == s.liquidity.price
    && r.liquidity.smoothedPrice == s.liquidity.smoothedPrice
    && r.liquidity.decimals == s.liquidity.decimals
    && r.liquidity.cumulativeRate == s.liquidity.cumulativeRate
  }

  lemma PromoteKeepsDebts(bs: seq<Loan>, rs: ReserveMap, top: Top)
    requires top.Top? ==> top.index < |bs|
    ensures SumDebts(Promote(bs, top), rs) == SumDebts(bs, rs)
  {
    hide DebtOf;
    if top.Top? {
      SumDebtsPut(bs, rs, 0, bs[top.index]);
      SumDebtsPut(bs[0 := bs[top.index]], rs, top.index, bs[0]);
    }
  }

  // ----- a refresh establishes Fresh

  lemma ValueDepositAdds(c: Collateral, rs: ReserveMap, t: DepositTotals)
    requires c.reserve in rs && ValueDeposit(c, rs[c.reserve], t).Ok?
    ensures HasRate(rs[c.reserve])
    ensures ValueDeposit(c, rs[c.reserve], t).value.1.allowed == t.allowed + AllowanceOf(c, rs)
  {
    var r := rs[c.reserve];
    var rate := ExchangeRate(r).value;
    var l := r.liquidity;
    var liquidity := DecimalToLiquidity(rate, FromInt(c.deposited)).value;
    FloorUnique(c.deposited * WAD * WAD, rate, liquidity, Backing(rate, c.deposited));
    ValueAtIsWorth(PriceLow(l), l.decimals, liquidity);
    hide ValueAt, Worth, Backing, ExchangeRate, DecimalToLiquidity, MarketValue;
  }

  lemma {:induction false} DepositsSum(ds: seq<Collateral>, rs: ReserveMap, now: u64, n: nat)
    requires n <= |ds| && ValueDeposits(ds, rs, now, n).Ok?
    ensures ValueDeposits(ds, rs, now, n).value.1.allowed == SumAllowances(ds[..n], rs)
  {
    hide ValueDeposit, AllowanceOf;
    if n > 0 {
      DepositsSum(ds, rs, now, n - 1);
      var t := ValueDeposits(ds, rs, now, n - 1).value.1;
      ValueDepositAdds(ds[n - 1], rs, t);
      assert ds[..n][..n - 1] == ds[..n - 1];
      hide ValueDeposits;
    }
  }

  lemma {:induction false} DepositsRated(ds: seq<Collateral>, rs: ReserveMap, now: u64, n: nat)
    requires n <= |ds| && ValueDeposits(ds, rs, now, n).Ok?
    ensures forall i :: 0 <= i < n ==> ds[i].reserve in rs && HasRate(rs[ds[i].reserve])
  {
    hide ValueDeposit, AllowanceOf, HasRate;
    if n > 0 {
      DepositsRated(ds, rs, now, n - 1);
      ValueDepositAdds(ds[n - 1], rs, ValueDeposits(ds, rs, now, n - 1).value.1);
    }
  }

  lemma {:induction false} LoansSum(bs: seq<Loan>, rs: ReserveMap, now: u64, n: nat)
    requires n <= |bs| && ValueLoans(bs, rs, now, n).Ok?
    ensures var (vs, t) := ValueLoans(bs, rs, now, n).value; t.upperBound == SumDebts(vs, rs)
  {
    if n > 0 {
      LoansSum(bs, rs, now, n - 1);
      var (front, t) := ValueLoans(bs, rs, now, n - 1).value;
      var (vs, u) := ValueLoans(bs, rs, now, n).value;
      var r := rs[bs[n - 1].reserve];
      ValueLoanOrdered(bs[n - 1], r, n - 1, t);
      assert vs[..n - 1] == front by { ValuedLoans(bs, rs, now, n - 1); }
      assert vs[n - 1].borrowed == AccrueLoan(bs[n - 1], r.liquidity.cumulativeRate).value.borrowed
        && vs[n - 1].reserve == bs[n - 1].reserve by { ValuedLoans(bs, rs, now, n); }
      assert |vs| == n by { ValuedLoans(bs, rs, now, n); }
      hide ValueLoan, WeightedWorth, AccrueLoan;
    }
  }

  lemma RefreshIsFresh(o: Obligation, rs: ReserveMap, now: u64)
    requires Refresh(o, rs, now).Ok?
    ensures Fresh(Refresh(o, rs, now).value, rs)
    ensures Refresh(o, rs, now).value.allowedBorrowValue
              == Min(SumAllowances(o.deposits, rs), GLOBAL_ALLOWED_BORROW_VALUE)
    ensures Refresh(o, rs, now).value.borrowedValueUpperBound
              == SumDebts(ValueLoans(o.borrows, rs, now, |o.borrows|).value.0, rs)
  {
    RefreshedAllowance(o.deposits, rs, now);
    RefreshedDebts(o.borrows, rs, now);
    hide ValueDeposits, ValueLoans, SumAllowances, SumDebts, KeepDeposits, KeepLoans, Promote;
  }

  lemma RefreshedAllowance(ds: seq<Collateral>, rs: ReserveMap, now: u64)
    requires ValueDeposits(ds, rs, now, |ds|).Ok?
    ensures var (vs, t) := ValueDeposits(ds, rs, now, |ds|).value;
      && t.allowed == SumAllowances(ds, rs) == SumAllowances(KeepDeposits(vs), rs)
      && Rated(KeepDeposits(vs), rs)
  {
    hide ValueDeposits, KeepDeposits, SumAllowances, HasRate;
    assert ds[..|ds|] == ds;
    DepositsSum(ds, rs, now, |ds|);
    DepositsRated(ds, rs, now, |ds|);
    ValuedDeposits(ds, rs, now, |ds|);
    var vs := ValueDeposits(ds, rs, now, |ds|).value.0;
    SumAllowancesSame(vs, ds, rs);
    SumAllowancesKept(vs, rs);
    KeptDeposits(vs);
  }

  lemma RefreshedDebts(bs: seq<Loan>, rs: ReserveMap, now: u64)
    requires ValueLoans(bs, rs, now, |bs|).Ok?
    ensures var (vs, t) := ValueLoans(bs, rs, now, |bs|).value;
      && (t.top.Top? ==> t.top.index < |vs|)
      && t.upperBound == SumDebts(vs, rs) == SumDebts(KeepLoans(Promote(vs, t.top)), rs)
      && AtIndex(KeepLoans(Promote(vs, t.top)), rs)
  {
    hide ValueLoans, KeepLoans, Promote, SumDebts;
    LoansSum(bs, rs, now, |bs|);
    ValuedLoans(bs, rs, now, |bs|);
    var (vs, t) := ValueLoans(bs, rs, now, |bs|).value;
    PromoteKeepsDebts(vs, rs, t.top);
    Promoted(vs, t.top);
    KeptLoans(Promote(vs, t.top));
    SumDebtsKept(Promote(vs, t.top), rs);
    AccruedAtIndex(bs, vs, rs);
  }

  lemma AccruedAtIndex(bs: seq<Loan>, vs: seq<Loan>, rs: ReserveMap)
    requires |vs| == |bs|
    requires forall i :: 0 <= i < |bs| ==>
      && vs[i].reserve == bs[i].reserve && bs[i].reserve in rs
      && AccrueLoan(bs[i], rs[bs[i].reserve].liquidity.cumulativeRate).Ok?
      && vs[i] == AccrueLoan(bs[i], rs[bs[i].reserve].liquidity.cumulativeRate).value.(marketValue := vs[i].marketValue)
    ensures AtIndex(vs, rs)
  {
    hide Div, ToRate, Mul;
  }

  /** At the reserves' current indices nothing accrues. */
  lemma AtIndexDebts(bs: seq<Loan>, rs: ReserveMap, now: u64)
    requires AtIndex(bs, rs) && ValueLoans(bs, rs, now, |bs|).Ok?
    ensures SumDebts(ValueLoans(bs, rs, now, |bs|).value.0, rs) == SumDebts(bs, rs)
  {
    hide ValueLoans, SumDebts;
    ValuedLoans(bs, rs, now, |bs|);
    SumDebtsSame(ValueLoans(bs, rs, now, |bs|).value.0, bs, rs, rs);
  }

  // ----- withdrawing

  /** Taking `w` tokens out of `a` reduces the liquidity behind them by at most `liquidity` plus one,
      when `w` was floored from `liquidity` at the same rate. */
  lemma BackingDrop(rate: nat, a: nat, w: nat, collateral: nat, liquidity: nat)
    requires rate > 0 && w <= a && w * WAD <= collateral && collateral * WAD <= liquidity * rate
    ensures Backing(rate, a) <= Backing(rate, a - w) + liquidity + 1
  {
    MulMono(w * WAD, collateral, WAD);
    var b := Backing(rate, a - w);
    assert (a - w) * WAD * WAD < b * rate + rate;
    var total := Backing(rate, a);
    assert total * rate <= a * WAD * WAD;
    hide Backing;
    Distribute(rate, b, liquidity);
    Distribute(rate, b + liquidity, 1);
    Distribute(rate, b + liquidity + 1, 1);
    MulCancelStrict(total, b + liquidity + 2, rate);
  }

  lemma WorthDrop(p: nat, d: u8, more: nat, less: nat, liquidity: nat, value: nat)
    requires more <= less + liquidity + 1 && liquidity * p <= value * Unit(d)
    ensures Worth(p, d, more) <= Worth(p, d, less) + value + Quot(p, Unit(d)) + 1
  {
    var n, q, v, u := Unit(d), Quot(p, Unit(d)), Worth(p, d, less), Worth(p, d, more);
    assert p * less < v * n + n && p < q * n + n && u * n <= p * more;
    hide Worth, Unit, Quot;
    MulMono(more, less + liquidity + 1, p);
    Distribute(p, less, liquidity);
    Distribute(p, less + liquidity, 1);
    Distribute(n, v, value);
    Distribute(n, v + value, q);
    Distribute(n, v + value + q, 2);
    MulCancelStrict(u, v + value + q + 2, n);
  }

  lemma ShareDrop(more: nat, less: nat, value: nat, q: nat, share: nat, room: nat)
    requires more <= less + value + q + 1 && share < WAD && value * share <= room * WAD
    ensures more * share / WAD <= less * share / WAD + room + q + 1
  {
    var c := less * share / WAD;
    MulMono(more, less + value + (q + 1), share);
    Distribute(share, less, value);
    Distribute(share, less + value, q + 1);
    MulMono(share, WAD, q + 1);
    FloorBelow(more * share, WAD, c + room + q + 2);
  }

  /** The room that `max_withdraw_amount` converts - to a value, to liquidity, to collateral - bounds
      the allowance the withdrawal gives up. */
  lemma AllowanceDrop(r: Reserve, rate: nat, a: nat, w: nat, room: nat, value: nat, liquidity: nat, collateral: nat)
    requires rate > 0 && w <= a && r.config.loanToValue < 100
    requires value * Percent(r.config.loanToValue) <= room * WAD
    requires liquidity * PriceLow(r.liquidity) <= value * TenTo(r.liquidity.decimals) * WAD
    requires collateral * WAD <= liquidity * rate && w * WAD <= collateral
    ensures Allowance(r, rate, a) <= Allowance(r, rate, a - w) + room
              + Quot(PriceLow(r.liquidity), Unit(r.liquidity.decimals)) + 1
  {
    var p, d, t := PriceLow(r.liquidity), r.liquidity.decimals, Percent(r.config.loanToValue);
    BackingDrop(rate, a, w, collateral, liquidity);
    Assoc(value, TenTo(d), WAD);
    assert Unit(d) == WAD * TenTo(d);
    assert t < WAD;
    hide Backing, Worth, Quot, Unit, TenTo, PriceLow, Percent;
    WorthDrop(p, d, Backing(rate, a), Backing(rate, a - w), liquidity, value);
    ShareDrop(Worth(p, d, Backing(rate, a)), Worth(p, d, Backing(rate, a - w)), value, Quot(p, Unit(d)), t, room);
  }

  /** A withdrawal `w` that `max_withdraw_amount` allows reduces the allowance of its deposit by at
      most the room under the limit, plus floor(price / 10^decimals) + 1 units of 10^-18. */
  lemma WithdrawAllowance(o: Obligation, c: Collateral, rs: ReserveMap, w: u64)
    requires c.reserve in rs && HasRate(rs[c.reserve]) && Sane(rs[c.reserve].config)
    requires o.borrows != [] && MaxWithdrawAmount(o, c, rs[c.reserve]).Ok?
    requires 0 < w <= MaxWithdrawAmount(o, c, rs[c.reserve]).value
    ensures w <= c.deposited && o.allowedBorrowValue > o.borrowedValueUpperBound
    ensures var r := rs[c.reserve];
            AllowanceOf(c, rs) <= AllowanceOf(c.(deposited := c.deposited - w), rs)
              + (o.allowedBorrowValue - o.borrowedValueUpperBound)
              + Quot(PriceLow(r.liquidity), Unit(r.liquidity.decimals)) + 1
  {
    var r := rs[c.reserve];
    var rate, t := ExchangeRate(r).value, Percent(r.config.loanToValue);
    if r.config.loanToValue == 0 {
      assert AllowanceOf(c, rs) == 0 by {
        hide Worth;
        FloorExact(Worth(PriceLow(r.liquidity), r.liquidity.decimals, Backing(rate, c.deposited)) * 0, WAD, 0);
      }
    } else {
      var room: Decimal := o.allowedBorrowValue - o.borrowedValueUpperBound;
      var value := Div(room, t).value;
      var scaled := MulInt(value, TenTo(r.liquidity.decimals)).value;
      var liquidity := Div(scaled, PriceLow(r.liquidity)).value;
      var collateral := Mul(liquidity, rate).value;
      assert collateral * WAD <= liquidity * rate;
      assert w * WAD <= collateral;
      hide MaxWithdrawAmount, Allowance, TenTo, Sane, ExchangeRate;
      AllowanceDrop(r, rate, c.deposited, w, room, value, liquidity, collateral);
    }
  }

  lemma WithdrawnSum(o: Obligation, w: u64, i: nat, rs: ReserveMap)
    requires i < |o.deposits| && WithdrawCollateral(o, w, i).Ok?
    ensures w <= o.deposits[i].deposited
    ensures SumAllowances(WithdrawCollateral(o, w, i).value.deposits, rs)
              == SumAllowances(o.deposits, rs) - AllowanceOf(o.deposits[i], rs)
                 + AllowanceOf(o.deposits[i].(deposited := o.deposits[i].deposited - w), rs)
  {
    hide AllowanceOf, SumAllowances;
    var c := o.deposits[i];
    if w == c.deposited {
      SumAllowancesRemove(o.deposits, rs, i);
      EmptyAllowsNothing(c.(deposited := 0), rs);
    } else {
      SumAllowancesPut(o.deposits, rs, i, c.(deposited := c.deposited - w));
    }
  }

  /** A withdrawal that `max_withdraw_amount` allows, followed by a refresh against the same
      reserves, leaves the borrowed value within the limit up to floor(price / 10^decimals) + 1 units of
      10^-18. */
  lemma WithdrawThenRefresh(o: Obligation, rs: ReserveMap, now: u64, i: nat, w: u64)
    requires AllSane(rs) && Fresh(o, rs) && i < |o.deposits|
    requires var max := MaxWithdrawAmount(o, o.deposits[i], rs[o.deposits[i].reserve]); max.Ok? && 0 < w <= max.value
    requires WithdrawCollateral(o, w, i).Ok? && Refresh(WithdrawCollateral(o, w, i).value, rs, now).Ok?
    ensures var f := Refresh(WithdrawCollateral(o, w, i).value, rs, now).value;
            var l := rs[o.deposits[i].reserve].liquidity;
            f.borrowedValueUpperBound <= f.allowedBorrowValue + Quot(PriceLow(l), Unit(l.decimals)) + 1
  {
    hide Refresh, ValueLoans, AllowanceOf, Unit, MaxWithdrawAmount, Sane, HasRate, WithdrawCollateral, SumDebts;
    var p := WithdrawCollateral(o, w, i).value;
    RefreshIsFresh(p, rs, now);
    RefreshedAreValued(p, rs, now);
    WithdrawnBorrows(o, w, i);
    AtIndexDebts(o.borrows, rs, now);
    WithdrawnSum(o, w, i, rs);
    hide SumAllowances, AllSane, AtIndex;
    if o.borrows == [] {
      NoDebts(rs);
    } else {
      assert Sane(rs[o.deposits[i].reserve].config) by { SaneAt(rs, o.deposits[i].reserve); }
      WithdrawAllowance(o, o.deposits[i], rs, w);
    }
  }

  lemma WithdrawnBorrows(o: Obligation, w: u64, i: nat)
    requires i < |o.deposits| && WithdrawCollateral(o, w, i).Ok?
    ensures WithdrawCollateral(o, w, i).value.borrows == o.borrows
  {
  }

  lemma NoDebts(rs: ReserveMap)
    ensures SumDebts([], rs) == 0
  {
  }

  lemma SaneAt(rs: ReserveMap, key: Pubkey)
    requires AllSane(rs) && key in rs
    ensures Sane(rs[key].config)
  {
  }

  // ----- borrowing

  /** Weighted values of two debts add up, to within the weight and two units. */
  lemma WeightedWorthSum(r: Reserve, a: nat, b: nat)
    ensures WeightedWorth(r, a + b)
              <= WeightedWorth(r, a) + WeightedWorth(r, b) + BorrowWeight(r.config) / WAD + 2
  {
    var p, d, w := PriceHigh(r.liquidity), r.liquidity.decimals, BorrowWeight(r.config);
    WorthSum(p, d, a, b);
    hide Worth, BorrowWeight;
    ShareOfSum(Worth(p, d, a + b), Worth(p, d, a), Worth(p, d, b), w);
  }

  lemma ShareOfSum(sum: nat, a: nat, b: nat, w: nat)
    requires sum <= a + b + 1
    ensures sum * w / WAD <= a * w / WAD + b * w / WAD + w / WAD + 2
  {
    MulMono(sum, a + b + 1, w);
    Distribute(w, a, b);
    Distribute(w, a + b, 1);
    FloorBelow(sum * w, WAD, a * w / WAD + b * w / WAD + w / WAD + 3);
  }

  /** The debts after `find_or_add_liquidity_to_borrows(..)?.borrow(amount)`. */
  lemma AddedDebt(o: Obligation, key: Pubkey, amount: Decimal, rs: ReserveMap)
    requires key in rs && AddLoan(o, key, rs[key].liquidity.cumulativeRate, amount).Ok?
    ensures var p := AddLoan(o, key, rs[key].liquidity.cumulativeRate, amount).value;
      SumDebts(p.borrows, rs) <= SumDebts(o.borrows, rs) + WeightedWorth(rs[key], amount)
                                 + BorrowWeight(rs[key].config) / WAD + 2
  {
    hide WeightedWorth, BorrowWeight;
    var i := FindLoan(o.borrows, key);
    var p := AddLoan(o, key, rs[key].liquidity.cumulativeRate, amount).value;
    if i < |o.borrows| {
      var b := o.borrows[i];
      SumDebtsPut(o.borrows, rs, i, p.borrows[i]);
      WeightedWorthSum(rs[key], b.borrowed, amount);
    } else {
      assert p.borrows[..|o.borrows|] == o.borrows;
    }
  }

  lemma AddedAtIndex(o: Obligation, key: Pubkey, amount: Decimal, rs: ReserveMap)
    requires key in rs && AddLoan(o, key, rs[key].liquidity.cumulativeRate, amount).Ok? && AtIndex(o.borrows, rs)
    ensures AtIndex(AddLoan(o, key, rs[key].liquidity.cumulativeRate, amount).value.borrows, rs)
  {
  }

  /** More liquidity behind the same collateral does not lower what a deposit allows. */
  lemma AllowanceGrows(r: Reserve, s: Reserve, deposited: nat)
    requires SameTerms(r, s) && r.mintSupply == s.mintSupply && HasRate(r) && HasRate(s)
    requires r.mintSupply == 0 || 0 < Net(r.liquidity) <= Net(s.liquidity) || Net(r.liquidity) == Net(s.liquidity)
    ensures Allowance(r, ExchangeRate(r).value, deposited) <= Allowance(s, ExchangeRate(s).value, deposited)
  {
    var e, f, m, t, u := ExchangeRate(r).value, ExchangeRate(s).value, r.mintSupply, Net(r.liquidity), Net(s.liquidity);
    if m > 0 && t != u {
      ExchangeRateBrackets(r);
      ExchangeRateBrackets(s);
      assert f * u <= FromInt(m) * WAD < e * t + t;
    } else {
      assert e == f;
    }
    hide ExchangeRate, Net, HasRate, Worth;
    if m > 0 && t != u {
      MulMono(t, u, f);
      Distribute(t, e, 1);
      MulCancelStrict(f, e + 1, t);
    }
    var a, b := Backing(e, deposited), Backing(f, deposited);
    assert a * e <= deposited * WAD * WAD < b * f + f;
    hide Backing;
    MulMono(f, e, a);
    Distribute(f, b, 1);
    MulCancelStrict(a, b + 1, f);
    var p, d := PriceLow(r.liquidity), r.liquidity.decimals;
    WorthMono(p, p, d, a, b);
    ShareOrdered(Worth(p, d, a), Worth(p, d, b), Percent(r.config.loanToValue), Percent(r.config.loanToValue));
  }

  lemma {:induction false} SumAllowancesGrow(ds: seq<Collateral>, rs: ReserveMap, ss: ReserveMap)
    requires Rated(ds, rs) && Rated(ds, ss)
    requires forall i :: 0 <= i < |ds| ==> AllowanceOf(ds[i], rs) <= AllowanceOf(ds[i], ss)
    ensures SumAllowances(ds, rs) <= SumAllowances(ds, ss)
  {
    hide AllowanceOf, HasRate;
    if ds != [] { SumAllowancesGrow(ds[..|ds| - 1], rs, ss); }
  }

  /** The reserve after a borrow of `amount` books it. */
  predicate Booked(r: Reserve, s: Reserve, amount: Decimal) {
    && BorrowLiquidity(r.liquidity, amount) == Ok(s.liquidity)
    && s.mintSupply == r.mintSupply && s.config == r.config
  }

  /** Booking a borrow does not shrink the rate at which the deposits count.  Only a reserve that owes its
      holders nothing falls back to the initial rate, and only a debt of part of a token ends that. */
  predicate RateHolds(ds: seq<Collateral>, key: Pubkey, r: Reserve, amount: Decimal) {
    || r.mintSupply == 0 || Net(r.liquidity) > 0 || amount % WAD == 0
    || forall i :: 0 <= i < |ds| ==> ds[i].reserve != key
  }

  lemma WholeBorrowKeepsNet(l: Liquidity, amount: Decimal)
    requires BorrowLiquidity(l, amount).Ok? && amount % WAD == 0
    ensures Net(BorrowLiquidity(l, amount).value) == Net(l)
  {
  }

  /** The borrowing limit does not shrink when a borrow is booked, even against the reserve that
      also holds the collateral. */
  lemma BookedAllowances(ds: seq<Collateral>, rs: ReserveMap, ss: ReserveMap, key: Pubkey, amount: Decimal)
    requires key in rs && key in ss && ss == rs[key := ss[key]] && Booked(rs[key], ss[key], amount)
    requires Rated(ds, rs) && Rated(ds, ss) && RateHolds(ds, key, rs[key], amount)
    ensures SumAllowances(ds, rs) <= SumAllowances(ds, ss)
  {
    BorrowKeepsNet(rs[key].liquidity, amount);
    if amount % WAD == 0 { WholeBorrowKeepsNet(rs[key].liquidity, amount); }
    assert SameTerms(rs[key], ss[key]);
    hide Net, HasRate, Allowance, SameTerms, BorrowLiquidity, ExchangeRate;
    forall i | 0 <= i < |ds|
      ensures AllowanceOf(ds[i], rs) <= AllowanceOf(ds[i], ss)
    {
      if ds[i].reserve == key { AllowanceGrows(rs[key], ss[key], ds[i].deposited); }
    }
    SumAllowancesGrow(ds, rs, ss);
  }

  lemma BookedDebts(bs: seq<Loan>, rs: ReserveMap, ss: ReserveMap, key: Pubkey, amount: Decimal)
    requires key in rs && key in ss && ss == rs[key := ss[key]] && Booked(rs[key], ss[key], amount)
    ensures SumDebts(bs, ss) == SumDebts(bs, rs)
    ensures AtIndex(bs, rs) ==> AtIndex(bs, ss)
  {
    hide FloorU64;
    SumDebtsSame(bs, bs, rs, ss);
  }

  /** An accepted borrow - fixed or "as much as possible" - followed by a refresh against the reserves
      that booked it leaves the borrowed value within the limit up to the borrow weight plus two
      units of 10^-18. */
  lemma BorrowThenRefresh(o: Obligation, rs: ReserveMap, ss: ReserveMap, now: u64, key: Pubkey,
                          amount: u64, remaining: Decimal, t: BorrowTerms, p: Obligation)
    requires Fresh(o, rs) && RemainingBorrowValue(o).Ok? && key in rs && key in ss && ss == rs[key := ss[key]]
    requires RateHolds(o.deposits, key, rs[key], t.borrowAmount)
    requires CalculateBorrow(rs[key], amount, RemainingBorrowValue(o).value, remaining) == Ok(t)
    requires Booked(rs[key], ss[key], t.borrowAmount)
    requires AddLoan(o, key, rs[key].liquidity.cumulativeRate, t.borrowAmount) == Ok(p)
    requires Refresh(p, ss, now).Ok?
    ensures var f := Refresh(p, ss, now).value;
            f.borrowedValueUpperBound <= f.allowedBorrowValue + BorrowWeight(rs[key].config) / WAD + 2
  {
    hide CalculateBorrow, Booked, BorrowWeight, WeightedWorth, RateHolds, HasRate, SumAllowances, SumDebts, Refresh;
    var f := Refresh(p, ss, now).value;
    BorrowWithinValue(rs[key], amount, RemainingBorrowValue(o).value, remaining);
    AddedDebt(o, key, t.borrowAmount, rs);
    AddedAtIndex(o, key, t.borrowAmount, rs);
    BookedDebts(p.borrows, rs, ss, key, t.borrowAmount);
    RefreshIsFresh(p, ss, now);
    RefreshedAreValued(p, ss, now);
    AtIndexDebts(p.borrows, ss, now);
    BookedAllowances(o.deposits, rs, ss, key, t.borrowAmount);
  }

  lemma RefreshedAreValued(o: Obligation, rs: ReserveMap, now: u64)
    requires Refresh(o, rs, now).Ok?
    ensures ValueLoans(o.borrows, rs, now, |o.borrows|).Ok?
    ensures Rated(o.deposits, rs)
  {
    hide ValueLoans, HasRate;
    DepositsRated(o.deposits, rs, now, |o.deposits|);
  }

  // ----- a borrow that shrinks its own collateral

  /** Everything in the vault is owed to the protocol. */
  function OwedReserve(): Reserve {
    var c := Config(80, 90, 50, 5, 5, 55, 55, 0, 8, 100, 100, Fees(0, 0, 0), U64_MAX, U64_MAX, 0, 0, 0, 0, Regular);
    Reserve(LastUpdate(0, false), Liquidity(0, 5, 0, WAD, FromInt(5), WAD, WAD), 1000, c, New(LimiterConfig(0, 0), 0))
  }

  /** ... and after a borrow of one token and a half. */
  function LentReserve(): Reserve {
    var l := Liquidity(0, 4, WAD + HALF_WAD, WAD, FromInt(5), WAD, WAD);
    OwedReserve().(liquidity := l)
  }

  /** A thousand collateral tokens of that reserve, at the initial rate, allow five hundred. */
  function OwedObligation(key: Pubkey): Obligation {
    Obligation(LastUpdate(0, false), [Collateral(key, 1000, FromInt(1000))], [], FromInt(1000), 0, 0, FromInt(500),
               FromInt(550), FromInt(550), false)
  }

  lemma InitialRates()
    ensures ExchangeRate(OwedReserve()) == Ok(WAD) && ExchangeRate(LentReserve()) == Ok(2000 * WAD)
  {
    FloorExact(FromInt(1000) * WAD, HALF_WAD, 2000 * WAD);
  }

  lemma OwedIsFresh(key: Pubkey)
    ensures Fresh(OwedObligation(key), map[key := OwedReserve()])
  {
    InitialRates();
    var rs, ds := map[key := OwedReserve()], OwedObligation(key).deposits;
    FloorUnique(1000 * WAD * WAD, WAD, Backing(WAD, 1000), 1000 * WAD);
    FloorUnique(WAD * (1000 * WAD), Unit(0), Worth(WAD, 0, 1000 * WAD), 1000 * WAD);
    FloorOfMultiple(FromInt(500), WAD);
    assert ds[..0] == [];
    assert Allowance(OwedReserve(), WAD, 1000) == FromInt(500);
    hide Allowance, ExchangeRate;
    assert SumAllowances(ds, rs) == FromInt(500);
  }

  lemma LentDeposit(key: Pubkey)
    ensures var c := Collateral(key, 1000, FromInt(1000));
      ValueDeposit(c, LentReserve(), DepositTotals(0, 0, 0, 0)).Ok?
      && ValueDeposit(c, LentReserve(), DepositTotals(0, 0, 0, 0)).value.1.allowed == HALF_WAD / 2
  {
    InitialRates();
    var l := LentReserve().liquidity;
    FloorExact(FromInt(1000) * WAD, 2000 * WAD, HALF_WAD);
    FloorOfMultiple(HALF_WAD, WAD);
    assert MarketValue(l, HALF_WAD) == Ok(HALF_WAD) == MarketValueLowerBound(l, HALF_WAD);
    hide ExchangeRate, ValueAt;
  }

  lemma LentLoan(key: Pubkey)
    ensures var loan := Loan(key, WAD, WAD + HALF_WAD, 0);
      ValueLoan(loan, LentReserve(), 0, BorrowTotals(0, 0, false, NoTop)).Ok?
      && ValueLoan(loan, LentReserve(), 0, BorrowTotals(0, 0, false, NoTop)).value.1.upperBound == WAD + HALF_WAD
  {
    var l := LentReserve().liquidity;
    FloorOfMultiple(WAD + HALF_WAD, WAD);
    assert MarketValue(l, WAD + HALF_WAD) == Ok(WAD + HALF_WAD) == MarketValueUpperBound(l, WAD + HALF_WAD);
    hide ValueAt;
  }

  lemma OwedBorrow(key: Pubkey)
    ensures var r, o, amount := OwedReserve(), OwedObligation(key), WAD + HALF_WAD;
      && RemainingBorrowValue(o) == Ok(FromInt(500))
      && CalculateBorrow(r, U64_MAX, FromInt(500), amount) == Ok(BorrowTerms(amount, 1, 0, 0))
      && Booked(r, LentReserve(), amount)
      && AddLoan(o, key, WAD, amount) == Ok(o.(borrows := [Loan(key, WAD, amount, 0)]))
  {
    FloorOfMultiple(FromInt(500), WAD);
    assert MaxBorrow(OwedReserve(), FromInt(500)) == Ok(FromInt(500));
    assert [] + [Loan(key, WAD, WAD + HALF_WAD, 0)] == [Loan(key, WAD, WAD + HALF_WAD, 0)];
    hide MaxBorrow;
  }

  lemma LentRefresh(o: Obligation, rs: ReserveMap)
    requires |o.deposits| == |o.borrows| == 1
    requires Lookup(rs, o.deposits[0].reserve, 0).Ok? && Lookup(rs, o.borrows[0].reserve, 0).Ok?
    requires ValueDeposit(o.deposits[0], rs[o.deposits[0].reserve], DepositTotals(0, 0, 0, 0)).Ok?
    requires ValueLoan(o.borrows[0], rs[o.borrows[0].reserve], 0, BorrowTotals(0, 0, false, NoTop)).Ok?
    ensures Refresh(o, rs, 0).Ok?
    ensures Refresh(o, rs, 0).value.allowedBorrowValue <=
      ValueDeposit(o.deposits[0], rs[o.deposits[0].reserve], DepositTotals(0, 0, 0, 0)).value.1.allowed
    ensures Refresh(o, rs, 0).value.borrowedValueUpperBound ==
      ValueLoan(o.borrows[0], rs[o.borrows[0].reserve], 0, BorrowTotals(0, 0, false, NoTop)).value.1.upperBound
  {
    hide ValueDeposit, ValueLoan, Lookup, KeepLoans, KeepDeposits, Promote;
    assert ValueDeposits(o.deposits, rs, 0, 0) == Ok(([], DepositTotals(0, 0, 0, 0)));
    assert ValueLoans(o.borrows, rs, 0, 0) == Ok(([], BorrowTotals(0, 0, false, NoTop)));
    assert ValueDeposits(o.deposits, rs, 0, 1).Ok? && ValueLoans(o.borrows, rs, 0, 1).Ok?;
  }

  /** The case that `RateHolds` leaves out: the borrow ends the initial rate, the collateral in the same
      reserve shrinks from a thousand tokens' worth to half a token's, and the debt is over the limit. */
  lemma BorrowCanShrinkItsLimit(key: Pubkey)
    ensures var r, s, o, amount := OwedReserve(), LentReserve(), OwedObligation(key), WAD + HALF_WAD;
      && Validate(r.config).Ok? && Fresh(o, map[key := r]) && !RateHolds(o.deposits, key, r, amount)
      && RemainingBorrowValue(o).Ok?
      && CalculateBorrow(r, U64_MAX, RemainingBorrowValue(o).value, amount) == Ok(BorrowTerms(amount, 1, 0, 0))
      && Booked(r, s, amount) && AddLoan(o, key, WAD, amount).Ok?
      && var f := Refresh(AddLoan(o, key, WAD, amount).value, map[key := s], 0);
      f.Ok? && f.value.borrowedValueUpperBound > f.value.allowedBorrowValue + BorrowWeight(r.config) / WAD + 2
  {
    OwedIsFresh(key);
    OwedBorrow(key);
    LentDeposit(key);
    LentLoan(key);
    assert OwedObligation(key).deposits[0].reserve == key && WAD + HALF_WAD == 1 * WAD + HALF_WAD;
    var p := OwedObligation(key).(borrows := [Loan(key, WAD, WAD + HALF_WAD, 0)]);
    assert Lookup(map[key := LentReserve()], key, 0).Ok?;
    assert BorrowWeight(OwedReserve().config) == WAD;
    hide Fresh, CalculateBorrow, Booked, Refresh, ValueDeposit, ValueLoan, AddLoan, BorrowWeight, Lookup;
    LentRefresh(p, map[key := LentReserve()]);
  }

  // ----- the clamps through the rate limiters

  /** The tokens that both limiters still let out, as `process_borrow_obligation_liquidity` clamps them. */
  function MaxOutflowTokens(r: Reserve, market: Limiter, now: u64, maxValue: Decimal): Result<Decimal> {
    var (_, usd) :- RemainingOutflow(market, now);
    var (_, fromReserve) :- RemainingOutflow(r.limiter, now);
    var fromMarket :- UsdToLiquidityLowerBound(r.liquidity, Min(usd, maxValue));
    Ok(Min(fromMarket, fromReserve))
  }

  /** A "maximum" borrow, clamped through both limiters' remaining outflow and the price conversion,
      is accepted by both in the same slot. */
  lemma MaxBorrowPassesLimiters(r: Reserve, market: Limiter, now: u64, maxValue: Decimal, capacity: Decimal, t: BorrowTerms)
    requires LimiterOk(market, now) && LimiterOk(r.limiter, now) && now < SLOT_LIMIT
    requires MaxOutflowTokens(r, market, now, maxValue).Ok?
    requires CalculateBorrow(r, U64_MAX, maxValue, Min(capacity, MaxOutflowTokens(r, market, now, maxValue).value)) == Ok(t)
    requires MarketValueUpperBound(r.liquidity, t.borrowAmount).Ok?
    ensures Update(market, now, MarketValueUpperBound(r.liquidity, t.borrowAmount).value).Ok?
    ensures Update(r.limiter, now, t.borrowAmount).Ok?
  {
    hide LimiterOk, RemainingOutflow, UsdToLiquidityLowerBound, CalculateBorrow, Update, MarketValueUpperBound;
    BorrowWithinValue(r, U64_MAX, maxValue, Min(capacity, MaxOutflowTokens(r, market, now, maxValue).value));
    AmountPassesLimiters(r, market, now, Min(RemainingOutflow(market, now).value.1, maxValue), t.borrowAmount);
  }

  lemma AmountPassesLimiters(r: Reserve, market: Limiter, now: u64, usd: Decimal, amount: Decimal)
    requires LimiterOk(market, now) && LimiterOk(r.limiter, now) && now < SLOT_LIMIT
    requires RemainingOutflow(market, now).Ok? && usd <= RemainingOutflow(market, now).value.1
    requires RemainingOutflow(r.limiter, now).Ok? && amount <= RemainingOutflow(r.limiter, now).value.1
    requires UsdToLiquidityLowerBound(r.liquidity, usd).Ok? && amount <= UsdToLiquidityLowerBound(r.liquidity, usd).value
    requires MarketValueUpperBound(r.liquidity, amount).Ok?
    ensures Update(market, now, MarketValueUpperBound(r.liquidity, amount).value).Ok?
    ensures Update(r.limiter, now, amount).Ok?
  {
    ValueAtIsWorth(PriceHigh(r.liquidity), r.liquidity.decimals, amount);
    hide LimiterOk, RemainingOutflow, UsdToLiquidityLowerBound, Update, ValueAt, Worth;
    UsdRoundTrip(r.liquidity, usd, amount);
    UpdateIffWithinRemaining(market, now, MarketValueUpperBound(r.liquidity, amount).value);
    UpdateIffWithinRemaining(r.limiter, now, amount);
  }

  /** Collateral floored from an amount of liquidity redeems for at most that amount. */
  lemma CollateralRoundTrip(rate: Rate, liquidity: Decimal, collateral: u64)
    requires DecimalToCollateral(rate, liquidity).Ok? && FloorU64(DecimalToCollateral(rate, liquidity).value).Ok?
    requires collateral <= FloorU64(DecimalToCollateral(rate, liquidity).value).value
    requires CollateralToLiquidity(rate, collateral).Ok?
    ensures FromInt(CollateralToLiquidity(rate, collateral).value) <= liquidity
  {
    var c := DecimalToCollateral(rate, liquidity).value;
    RedeemedBrackets(rate, collateral);
    var l := CollateralToLiquidity(rate, collateral).value;
    assert collateral * WAD <= c && c * WAD <= liquidity * rate;
    hide Mul, FloorU64, CollateralToLiquidity;
    MulMono(l * rate, collateral * WAD, WAD);
    Assoc(l, rate, WAD);
    MulCancel(l * WAD, liquidity, rate);
  }

  /** A withdrawal clamped for the limiters and then redeemed at the same rate is accepted by both. */
  lemma ClampedRedeemPassesLimiters(r: Reserve, market: Limiter, now: u64, depositedValue: Decimal, collateral: u64)
    requires LimiterOk(market, now) && LimiterOk(r.limiter, now) && now < SLOT_LIMIT
    requires MaxOutflowCollateral(r, market, now, depositedValue).Ok?
    requires collateral <= MaxOutflowCollateral(r, market, now, depositedValue).value
    requires RedeemCollateral(r, collateral).Ok?
    requires MarketValueUpperBound(r.liquidity, FromInt(RedeemCollateral(r, collateral).value.1)).Ok?
    ensures var l := FromInt(RedeemCollateral(r, collateral).value.1);
      && Update(market, now, MarketValueUpperBound(r.liquidity, l).value).Ok?
      && Update(r.limiter, now, l).Ok?
  {
    var rate := ExchangeRate(r).value;
    var usd := Min(RemainingOutflow(market, now).value.1, MulInt(depositedValue, 2).value);
    var fromMarket := UsdToLiquidityLowerBound(r.liquidity, usd).value;
    var liquidity: Decimal := Min(fromMarket, RemainingOutflow(r.limiter, now).value.1);
    var l := RedeemCollateral(r, collateral).value.1;
    assert CollateralToLiquidity(rate, collateral) == Ok(l);
    hide LimiterOk, RemainingOutflow, UsdToLiquidityLowerBound, ExchangeRate, RedeemCollateral, CollateralToLiquidity,
         MarketValueUpperBound, DecimalToCollateral, FloorU64, Update;
    CollateralRoundTrip(rate, liquidity, collateral);
    AmountPassesLimiters(r, market, now, usd, FromInt(l));
  }

  /** The collateral that the limiters still let out (`_withdraw_obligation_collateral`). */
  function MaxOutflowCollateral(r: Reserve, market: Limiter, now: u64, depositedValue: Decimal): Result<u64> {
    var (_, usd) :- RemainingOutflow(market, now);
    var ceiling :- MulInt(depositedValue, 2);
    var fromMarket :- UsdToLiquidityLowerBound(r.liquidity, Min(usd, ceiling));
    var (_, fromReserve) :- RemainingOutflow(r.limiter, now);
    var rate :- ExchangeRate(r);
    var collateral :- DecimalToCollateral(rate, Min(fromMarket, fromReserve));
    FloorU64(collateral)
  }
}
