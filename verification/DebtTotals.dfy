/** The debts of a reserve's borrowers against the reserve's own total.

    The total is floored at every accrual, a borrower's debt only when it is refreshed.  So the debts stay
    within the total over one accrual, can outgrow it over two, and outgrow it over n accruals by no more
    than n units grown with the index. */
module DebtTotals {
  import opened Results
  import opened FloorMath
  import opened FixedPoint
  import opened RatePower
  import opened RateLimiters
  import opened ReserveConfigs
  import opened Reserves
  import opened Obligations

  function Debts(loans: seq<Loan>): nat {
    if loans == [] then 0 else Debts(loans[..|loans| - 1]) + loans[|loans| - 1].borrowed
  }

  /** Interest accrued at each of a list of slots, as `_refresh_reserve_interest` does. */
  function AccrueAt(r: Reserve, slots: seq<u64>): Result<Reserve> {
    if slots == [] then Ok(r)
    else
      var before :- AccrueAt(r, slots[..|slots| - 1]);
      var s :- AccrueInterest(before, slots[|slots| - 1]);
      Ok(s.(lastUpdate := LastUpdate(slots[|slots| - 1], false)))
  }

  /** All loans of one reserve, last refreshed at an index. */
  predicate AllAt(loans: seq<Loan>, index: Decimal) {
    forall i :: 0 <= i < |loans| ==> loans[i].cumulativeRate == index
  }

  /** The same loans, refreshed once at an index. */
  predicate RefreshedAt(loans: seq<Loan>, index: Decimal, after: seq<Loan>) {
    |after| == |loans| && forall i :: 0 <= i < |loans| ==> AccrueLoan(loans[i], index) == Ok(after[i])
  }

  // ----- one accrual

  /** A loan at the reserve's index grows by no more than the reserve's own factor. */
  lemma GrowsWithReserve(loan: Loan, l: Liquidity, growth: Rate, index: Decimal)
    requires loan.cumulativeRate == l.cumulativeRate > 0 && growth >= WAD
    requires Mul(l.cumulativeRate, growth) == Ok(index) && AccrueLoan(loan, index).Ok?
    ensures AccrueLoan(loan, index).value.borrowed * WAD <= loan.borrowed * growth
  {
    if index == loan.cumulativeRate {
      MulMono(WAD, growth, loan.borrowed);
    } else {
      var ratio := Div(index, loan.cumulativeRate).value;
      var a := AccrueLoan(loan, index).value;
      assert index * WAD <= l.cumulativeRate * growth && ratio * loan.cumulativeRate <= index * WAD;
      assert a.borrowed * WAD <= loan.borrowed * ratio;
      hide Mul, Div, AccrueLoan;
      MulCancel(ratio, growth, l.cumulativeRate);
      MulMono(ratio, growth, loan.borrowed);
    }
  }

  lemma {:induction false} DebtsGrowWithReserve(loans: seq<Loan>, l: Liquidity, growth: Rate, index: Decimal, after: seq<Loan>)
    requires AllAt(loans, l.cumulativeRate) && l.cumulativeRate > 0 && growth >= WAD
    requires Mul(l.cumulativeRate, growth) == Ok(index) && RefreshedAt(loans, index, after)
    ensures Debts(after) * WAD <= Debts(loans) * growth
  {
    hide Mul, AccrueLoan;
    if loans != [] {
      var n := |loans| - 1;
      DebtsGrowWithReserve(loans[..n], l, growth, index, after[..n]);
      GrowsWithReserve(loans[n], l, growth, index);
      Distribute(WAD, Debts(after[..n]), after[n].borrowed);
      Distribute(growth, Debts(loans[..n]), loans[n].borrowed);
    }
  }

  lemma FloorKeepsOrder(debts: nat, total: nat, growth: nat, grown: nat, after: nat)
    requires debts <= total && after * WAD <= debts * growth && total * growth < grown * WAD + WAD
    ensures after <= grown
  {
    MulMono(debts, total, growth);
    MulCancelStrict(after, grown + 1, WAD);
  }

  /** What one compounding does to the index and the total. */
  lemma CompoundIs(l: Liquidity, growth: Rate, takeRate: Rate)
    requires growth >= WAD && CompoundBy(l, growth, takeRate).Ok?
    ensures var m := CompoundBy(l, growth, takeRate).value;
      Mul(l.cumulativeRate, growth) == Ok(m.cumulativeRate) && Mul(l.borrowed, growth) == Ok(m.borrowed)
  {
    MulGrows(l.borrowed, growth);
    hide Mul;
  }

  lemma CompoundKeepsDebtsWithin(l: Liquidity, growth: Rate, takeRate: Rate, loans: seq<Loan>, after: seq<Loan>)
    requires l.cumulativeRate > 0 && growth >= WAD && CompoundBy(l, growth, takeRate).Ok?
    requires AllAt(loans, l.cumulativeRate) && Debts(loans) <= l.borrowed
    requires RefreshedAt(loans, CompoundBy(l, growth, takeRate).value.cumulativeRate, after)
    ensures Debts(after) <= CompoundBy(l, growth, takeRate).value.borrowed
  {
    var m := CompoundBy(l, growth, takeRate).value;
    CompoundIs(l, growth, takeRate);
    hide CompoundBy, Debts, RefreshedAt, AllAt;
    DebtsGrowWithReserve(loans, l, growth, m.cumulativeRate, after);
    assert l.borrowed * growth < m.borrowed * WAD + WAD;
    hide Mul;
    FloorKeepsOrder(Debts(loans), l.borrowed, growth, m.borrowed, Debts(after));
  }

  lemma {:induction false} NothingAccrued(loans: seq<Loan>, index: Decimal, after: seq<Loan>)
    requires AllAt(loans, index) && RefreshedAt(loans, index, after)
    ensures Debts(after) == Debts(loans)
  {
    if loans != [] { NothingAccrued(loans[..|loans| - 1], index, after[..|after| - 1]); }
  }

  /** An accrual either does nothing or compounds by a factor of at least one. */
  lemma AccrualCompounds(r: Reserve, now: u64) returns (growth: Rate)
    requires AccrueInterest(r, now).Ok?
    ensures var m := AccrueInterest(r, now).value.liquidity;
      growth >= WAD && (m == r.liquidity || CompoundBy(r.liquidity, growth, Percent(r.config.protocolTakeRate)) == Ok(m))
    ensures AccrueInterest(r, now).value.config == r.config
  {
    growth := WAD;
    if r.lastUpdate.SlotsElapsed(now).value != 0 {
      var rate := CurrentBorrowRate(r).value;
      growth := Growth(rate, now - r.lastUpdate.slot).value;
      GrowthAtLeastOne(rate, now - r.lastUpdate.slot);
    }
    hide CurrentBorrowRate, Growth, CompoundBy;
  }

  /** One accrual keeps the debts of a reserve's borrowers within its total. */
  lemma OneAccrualKeepsDebtsWithin(r: Reserve, now: u64, loans: seq<Loan>, after: seq<Loan>)
    requires r.liquidity.cumulativeRate > 0 && AccrueInterest(r, now).Ok?
    requires AllAt(loans, r.liquidity.cumulativeRate) && Debts(loans) <= r.liquidity.borrowed
    requires RefreshedAt(loans, AccrueInterest(r, now).value.liquidity.cumulativeRate, after)
    ensures Debts(after) <= AccrueInterest(r, now).value.liquidity.borrowed
  {
    hide AccrueInterest, CompoundBy, Debts, RefreshedAt, AllAt;
    var growth := AccrualCompounds(r, now);
    if AccrueInterest(r, now).value.liquidity == r.liquidity {
      NothingAccrued(loans, r.liquidity.cumulativeRate, after);
    } else {
      CompoundKeepsDebtsWithin(r.liquidity, growth, Percent(r.config.protocolTakeRate), loans, after);
    }
  }

  // ----- two accruals

  /** A valid configuration whose rate at full utilization is one half per slot. */
  function SteepConfig(): Config {
    Config(80, 90, 50, 5, 5, 55, 55, 0, 8, 100, 3_153_600_000, Fees(0, 0, 0), U64_MAX, U64_MAX, 0, 0, 0, 0, Regular)
  }

  /** Everything lent out, and that is one unit of 10^-18. */
  function SpentReserve(slot: u64, index: Decimal): Reserve {
    Reserve(LastUpdate(slot, false), Liquidity(0, 0, 1, index, 0, WAD, WAD), 1, SteepConfig(), New(LimiterConfig(0, 0), 0))
  }

  lemma SteepRate(slot: u64, index: Decimal)
    ensures CurrentBorrowRate(SpentReserve(slot, index)) == Ok(3_153_600_000 * PERCENT_SCALER)
  {
    var r := SpentReserve(slot, index);
    FloorExact(WAD, 1, WAD);
    assert UtilizationRate(r.liquidity) == Ok(WAD);
    BorrowRateDefined(r.config, WAD);
    var top := WAD - Percent(90);
    FloorExact(top * WAD, top, WAD);
    FloorOfMultiple(3_153_600_000 * PERCENT_SCALER - Percent(100), WAD);
    hide BorrowRateAt, UtilizationRate;
  }

  lemma SteepGrowth()
    ensures Growth(3_153_600_000 * PERCENT_SCALER, 1) == Ok(WAD + HALF_WAD)
  {
    assert PowSpec(WAD + HALF_WAD, 1) == Ok(WAD + HALF_WAD);
  }

  lemma SteepCompound(slot: u64, index: Decimal)
    requires WAD <= index <= 10 * WAD
    ensures CompoundBy(SpentReserve(slot, index).liquidity, WAD + HALF_WAD, 0)
              == Ok(SpentReserve(slot, index * (WAD + HALF_WAD) / WAD).liquidity)
  {
  }

  lemma SteepSlot(slot: u64, index: Decimal)
    requires slot < 10 && WAD <= index <= 10 * WAD
    ensures AccrueInterest(SpentReserve(slot, index), slot + 1).Ok?
    ensures AccrueInterest(SpentReserve(slot, index), slot + 1).value.(lastUpdate := LastUpdate(slot + 1, false))
              == SpentReserve(slot + 1, index * (WAD + HALF_WAD) / WAD)
  {
    SteepRate(slot, index);
    SteepGrowth();
    SteepCompound(slot, index);
    hide CurrentBorrowRate, Growth, CompoundBy;
  }

  lemma OneMore(r: Reserve, slots: seq<u64>, now: u64)
    requires AccrueAt(r, slots).Ok? && AccrueInterest(AccrueAt(r, slots).value, now).Ok?
    ensures AccrueAt(r, slots + [now])
              == Ok(AccrueInterest(AccrueAt(r, slots).value, now).value.(lastUpdate := LastUpdate(now, false)))
  {
    hide AccrueInterest;
    assert (slots + [now])[..|slots|] == slots;
  }

  lemma SteepIndex()
    ensures WAD * (WAD + HALF_WAD) / WAD == WAD + HALF_WAD
    ensures (WAD + HALF_WAD) * (WAD + HALF_WAD) / WAD == 2_250_000_000_000_000_000
  {
    FloorExact(WAD * (WAD + HALF_WAD), WAD, WAD + HALF_WAD);
    FloorExact((WAD + HALF_WAD) * (WAD + HALF_WAD), WAD, 2_250_000_000_000_000_000);
  }

  lemma TwoMore(r: Reserve, s: Reserve, t: Reserve, a: u64, b: u64)
    requires AccrueInterest(r, a).Ok? && AccrueInterest(r, a).value.(lastUpdate := LastUpdate(a, false)) == s
    requires AccrueInterest(s, b).Ok? && AccrueInterest(s, b).value.(lastUpdate := LastUpdate(b, false)) == t
    ensures AccrueAt(r, [a, b]) == Ok(t)
  {
    hide AccrueInterest;
    assert AccrueAt(r, []) == Ok(r);
    OneMore(r, [], a);
    assert [] + [a] == [a];
    hide AccrueAt;
    OneMore(r, [a], b);
    assert [a] + [b] == [a, b];
  }

  lemma SteepSlots()
    ensures AccrueAt(SpentReserve(0, WAD), [1, 2]) == Ok(SpentReserve(2, 2_250_000_000_000_000_000))
  {
    hide AccrueInterest, AccrueAt, SpentReserve;
    SteepSlot(0, WAD);
    SteepSlot(1, WAD + HALF_WAD);
    SteepIndex();
    TwoMore(SpentReserve(0, WAD), SpentReserve(1, WAD + HALF_WAD), SpentReserve(2, 2_250_000_000_000_000_000), 1, 2);
  }

  /** One unit of debt over two slots at one half each: the reserve floors it to one twice, the borrower,
      refreshed once, owes two. */
  lemma DebtCanOutgrowReserve(key: Pubkey)
    ensures Validate(SteepConfig()).Ok?
    ensures var r, loans, after := SpentReserve(0, WAD), [Loan(key, WAD, 1, 0)], [Loan(key, 2_250_000_000_000_000_000, 2, 0)];
      && AccrueAt(r, [1, 2]).Ok? && Debts(loans) == r.liquidity.borrowed
      && var s := AccrueAt(r, [1, 2]).value;
      RefreshedAt(loans, s.liquidity.cumulativeRate, after) && Debts(after) == 2 && s.liquidity.borrowed == 1
  {
    SteepSlots();
    hide AccrueAt;
    var loans, after := [Loan(key, WAD, 1, 0)], [Loan(key, 2_250_000_000_000_000_000, 2, 0)];
    assert loans[..0] == [] && after[..0] == [];
    FloorExact(2_250_000_000_000_000_000 * WAD, WAD, 2_250_000_000_000_000_000);
  }

  /** Debts within the total, a valid configuration, and loans refreshed once after the accruals. */
  predicate Refreshed(r: Reserve, slots: seq<u64>, loans: seq<Loan>, after: seq<Loan>) {
    && Validate(r.config).Ok? && r.liquidity.cumulativeRate > 0
    && AllAt(loans, r.liquidity.cumulativeRate) && Debts(loans) <= r.liquidity.borrowed
    && AccrueAt(r, slots).Ok? && RefreshedAt(loans, AccrueAt(r, slots).value.liquidity.cumulativeRate, after)
  }

  /** With at most `n` accruals between two refreshes the debts stay within the total. */
  ghost predicate StaysWithin(n: nat) {
    forall r: Reserve, slots: seq<u64>, loans: seq<Loan>, after: seq<Loan> ::
      Refreshed(r, slots, loans, after) && |slots| <= n ==> Debts(after) <= AccrueAt(r, slots).value.liquidity.borrowed
  }

  lemma AtMostOneKeepsWithin(r: Reserve, slots: seq<u64>, loans: seq<Loan>, after: seq<Loan>)
    requires Refreshed(r, slots, loans, after) && |slots| <= 1
    ensures Debts(after) <= AccrueAt(r, slots).value.liquidity.borrowed
  {
    hide AccrueInterest, Debts, RefreshedAt, AllAt, Validate;
    if slots == [] {
      NothingAccrued(loans, r.liquidity.cumulativeRate, after);
    } else {
      assert AccrueAt(r, slots[..0]) == Ok(r);
      OneAccrualKeepsDebtsWithin(r, slots[0], loans, after);
    }
  }

  /** The debts of a reserve's borrowers stay within its total exactly if there is at most one accrual
      between two refreshes. */
  lemma StaysWithinIff(n: nat)
    ensures StaysWithin(n) <==> n <= 1
  {
    hide AccrueAt, Debts, RefreshedAt, AllAt, Validate;
    if n <= 1 {
      forall r: Reserve, slots: seq<u64>, loans: seq<Loan>, after: seq<Loan> | Refreshed(r, slots, loans, after) && |slots| <= n
        ensures Debts(after) <= AccrueAt(r, slots).value.liquidity.borrowed
      {
        AtMostOneKeepsWithin(r, slots, loans, after);
      }
    } else {
      var r, loans, after := SpentReserve(0, WAD), [Loan(0, WAD, 1, 0)], [Loan(0, 2_250_000_000_000_000_000, 2, 0)];
      DebtCanOutgrowReserve(0);
      assert Refreshed(r, [1, 2], loans, after) by { CaseRefreshed(r, [1, 2], loans, after); }
    }
  }

  lemma CaseRefreshed(r: Reserve, slots: seq<u64>, loans: seq<Loan>, after: seq<Loan>)
    requires Validate(r.config).Ok? && r.liquidity.cumulativeRate > 0
    requires |loans| == 1 && loans[0].cumulativeRate == r.liquidity.cumulativeRate && Debts(loans) <= r.liquidity.borrowed
    requires AccrueAt(r, slots).Ok? && RefreshedAt(loans, AccrueAt(r, slots).value.liquidity.cumulativeRate, after)
    ensures Refreshed(r, slots, loans, after)
  {
    hide AccrueAt, RefreshedAt, Debts, Validate;
  }

  // ----- any number of accruals

  /** One more floor costs the total at most one unit grown with the index. */
  lemma LagStep(b0: nat, i0: nat, n: nat, b: nat, i: nat, growth: nat, c: nat, j: nat)
    requires n < b0 && (b0 - n) * i <= b * i0 && i0 <= j
    requires j * WAD <= i * growth && b * growth < c * WAD + WAD
    ensures (b0 - (n + 1)) * j <= c * i0
  {
    var k := b0 - n;
    MulMono(j * WAD, i * growth, k);
    Assoc(k, j, WAD);
    Assoc(k, i, growth);
    MulMono(k * i, b * i0, growth);
    Assoc(b, i0, growth);
    MulMono(b * growth, c * WAD + WAD, i0);
    RegroupLag(c, i0);
    MulCancel(k * j, (c + 1) * i0, WAD);
    Distribute(j, k, -1);
    Distribute(i0, c, 1);
  }

  lemma RegroupLag(c: int, i0: int)
    ensures (c * WAD + WAD) * i0 == ((c + 1) * i0) * WAD
  {
  }

  lemma BelowZero(b0: int, index: nat, total: nat)
    requires b0 <= 0
    ensures b0 * index <= 0 <= total
  {
    MulMono(0, -b0, index);
  }

  lemma CompoundLags(l: Liquidity, growth: Rate, takeRate: Rate, b0: nat, i0: nat, n: nat)
    requires growth >= WAD && CompoundBy(l, growth, takeRate).Ok? && 0 < i0 <= l.cumulativeRate
    requires (b0 - n) * l.cumulativeRate <= l.borrowed * i0
    ensures var m := CompoundBy(l, growth, takeRate).value;
      l.cumulativeRate <= m.cumulativeRate && (b0 - (n + 1)) * m.cumulativeRate <= m.borrowed * i0
  {
    var m := CompoundBy(l, growth, takeRate).value;
    CompoundIs(l, growth, takeRate);
    MulGrows(l.cumulativeRate, growth);
    MulMono(0, m.borrowed, i0);
    hide CompoundBy, Mul;
    if n < b0 {
      LagStep(b0, i0, n, l.borrowed, l.cumulativeRate, growth, m.borrowed, m.cumulativeRate);
    } else {
      BelowZero(b0 - (n + 1), m.cumulativeRate, m.borrowed * i0);
    }
  }

  /** Over n accruals the total loses at most n units, grown with the index: (B − n)·I' <= B'·I. */
  lemma {:induction false} TotalLags(r: Reserve, slots: seq<u64>)
    requires r.liquidity.cumulativeRate > 0 && AccrueAt(r, slots).Ok?
    ensures var l, m := r.liquidity, AccrueAt(r, slots).value.liquidity;
      l.cumulativeRate <= m.cumulativeRate && (l.borrowed - |slots|) * m.cumulativeRate <= m.borrowed * l.cumulativeRate
  {
    hide AccrueInterest, CompoundBy;
    var l := r.liquidity;
    if slots != [] {
      var n := |slots| - 1;
      TotalLags(r, slots[..n]);
      var before := AccrueAt(r, slots[..n]).value;
      var growth := AccrualCompounds(before, slots[n]);
      var b, m := before.liquidity, AccrueInterest(before, slots[n]).value.liquidity;
      assert AccrueAt(r, slots).value.liquidity == m;
      hide AccrueAt;
      if m == b {
        Distribute(b.cumulativeRate, l.borrowed - n, -1);
      } else {
        CompoundLags(b, growth, Percent(before.config.protocolTakeRate), l.borrowed, l.cumulativeRate, n);
      }
    }
  }

  /** The loans after each went through its own schedule of refreshes, none beyond `index`. */
  predicate RefreshedThrough(loans: seq<Loan>, schedules: seq<seq<Decimal>>, index: Decimal, after: seq<Loan>) {
    && |loans| == |schedules| == |after|
    && forall i :: 0 <= i < |loans| ==> AccrueAll(loans[i], schedules[i]) == Ok(after[i]) && after[i].cumulativeRate <= index
  }

  lemma LoanGrowsWithIndex(loan: Loan, schedule: seq<Decimal>, index: Decimal)
    requires loan.cumulativeRate > 0 && AccrueAll(loan, schedule).Ok? && AccrueAll(loan, schedule).value.cumulativeRate <= index
    ensures AccrueAll(loan, schedule).value.borrowed * loan.cumulativeRate <= loan.borrowed * index
  {
    AccrueAllBrackets(loan, schedule);
    MulMono(AccrueAll(loan, schedule).value.cumulativeRate, index, loan.borrowed);
    hide AccrueAll;
  }

  lemma {:induction false} DebtsGrowWithIndex(loans: seq<Loan>, schedules: seq<seq<Decimal>>, from: Decimal, index: Decimal, after: seq<Loan>)
    requires from > 0 && AllAt(loans, from) && RefreshedThrough(loans, schedules, index, after)
    ensures Debts(after) * from <= Debts(loans) * index
  {
    hide AccrueAll;
    if loans != [] {
      var n := |loans| - 1;
      DebtsGrowWithIndex(loans[..n], schedules[..n], from, index, after[..n]);
      LoanGrowsWithIndex(loans[n], schedules[n], index);
      Distribute(from, Debts(after[..n]), after[n].borrowed);
      Distribute(index, Debts(loans[..n]), loans[n].borrowed);
    }
  }

  lemma OutgrowArithmetic(d0: int, d1: int, b0: int, b1: int, n: int, i0: nat, i1: nat)
    requires d1 * i0 <= d0 * i1 && (b0 - n) * i1 <= b1 * i0
    ensures (d1 - b1) * i0 <= (d0 - b0 + n) * i1
    ensures d0 <= b0 ==> (d1 - b1) * i0 <= n * i1
  {
    Distribute(i0, d1 - b1, b1);
    Distribute(i1, d0 - b0 + n, b0 - n);
    if d0 <= b0 {
      MulMono(0, b0 - d0, i1);
      Distribute(i1, d0 - b0, n);
    }
  }

  /** However often the reserve accrues and each borrower is refreshed, the debts outgrow the total by at
      most one unit an accrual, grown with the index: (D' − B')·I <= (D − B + n)·I'. */
  lemma DebtsOutgrowByAtMost(r: Reserve, slots: seq<u64>, loans: seq<Loan>, schedules: seq<seq<Decimal>>, after: seq<Loan>)
    requires r.liquidity.cumulativeRate > 0 && AccrueAt(r, slots).Ok? && AllAt(loans, r.liquidity.cumulativeRate)
    requires RefreshedThrough(loans, schedules, AccrueAt(r, slots).value.liquidity.cumulativeRate, after)
    ensures var l, m := r.liquidity, AccrueAt(r, slots).value.liquidity;
      && (Debts(after) - m.borrowed) * l.cumulativeRate <= (Debts(loans) - l.borrowed + |slots|) * m.cumulativeRate
      && (Debts(loans) <= l.borrowed ==> (Debts(after) - m.borrowed) * l.cumulativeRate <= |slots| * m.cumulativeRate)
  {
    hide AccrueAt, Debts, RefreshedThrough, AllAt;
    var l, m := r.liquidity, AccrueAt(r, slots).value.liquidity;
    TotalLags(r, slots);
    DebtsGrowWithIndex(loans, schedules, l.cumulativeRate, m.cumulativeRate, after);
    OutgrowArithmetic(Debts(loans), Debts(after), l.borrowed, m.borrowed, |slots|, l.cumulativeRate, m.cumulativeRate);
  }
}
