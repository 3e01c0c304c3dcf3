/** The isolated tier: whoever borrows from an isolated reserve borrows from nothing else. */
module Tiers {
  import opened Results
  import opened FixedPoint
  import opened RateLimiters
  import opened ReserveConfigs
  import opened Reserves
  import opened Valuation
  import opened Obligations
  import opened ObligationRefresh
  import opened BorrowingLimits
  import opened RefreshTotals
  import opened Lending
  import opened LendingSafety
  import ObligationSteps
  import opened LimitRuns

  predicate IsolatedLoan(b: Loan, rs: ReserveMap) { b.reserve in rs && rs[b.reserve].config.reserveType == Isolated }

  /** A borrow from an isolated reserve is the only one. */
  predicate TiersKept(bs: seq<Loan>, rs: ReserveMap) {
    (exists i :: 0 <= i < |bs| && IsolatedLoan(bs[i], rs)) ==> |bs| == 1
  }

  lemma RefreshedFlag(o: Obligation, rs: ReserveMap, now: u64)
    requires Refresh(o, rs, now).Ok? && !Refresh(o, rs, now).value.borrowingIsolatedAsset
    ensures forall b :: b in Refresh(o, rs, now).value.borrows ==> !IsolatedLoan(b, rs)
  {
    hide Refresh, ValueLoans, HeaviestFirst, AccrueLoan;
    RefreshedTotals(o, rs, now);
    RefreshedBorrows(o, rs, now);
    ValuedLoans(o.borrows, rs, now, |o.borrows|);
    NoneAmong(o.borrows, ValueLoans(o.borrows, rs, now, |o.borrows|).value.0, Refresh(o, rs, now).value.borrows, rs);
  }

  lemma NoneAmong(os: seq<Loan>, vs: seq<Loan>, bs: seq<Loan>, rs: ReserveMap)
    requires !AnyIsolated(os, rs) && |vs| == |os| && forall i :: 0 <= i < |os| ==> vs[i].reserve == os[i].reserve
    requires forall x: Loan :: multiset(bs)[x] == if x.borrowed > 0 then multiset(vs)[x] else 0
    ensures forall b :: b in bs ==> !IsolatedLoan(b, rs)
  {
    forall b | b in bs
      ensures !IsolatedLoan(b, rs)
    {
      assert b in multiset(bs);
      assert b in multiset(vs);
      var i :| 0 <= i < |vs| && vs[i] == b;
      assert !IsolatedLoan(os[i], rs);
    }
  }

  lemma AddedTiers(o: Obligation, rs: ReserveMap, key: Pubkey, index: Decimal, amount: Decimal)
    requires key in rs && AddLoan(o, key, index, amount).Ok? && CheckTier(o, rs[key], key).Ok?
    requires !o.borrowingIsolatedAsset ==> forall b :: b in o.borrows ==> !IsolatedLoan(b, rs)
    ensures TiersKept(AddLoan(o, key, index, amount).value.borrows, rs)
  {
    hide FindLoan;
    var p := AddLoan(o, key, index, amount).value;
    if rs[key].config.reserveType == Regular {
      forall i | 0 <= i < |p.borrows|
        ensures !IsolatedLoan(p.borrows[i], rs)
      {
        if i < |o.borrows| { assert !IsolatedLoan(o.borrows[i], rs); }
      }
    }
  }

  /** A borrow that the program accepts for a freshly refreshed obligation keeps the tiers apart. */
  lemma BorrowKeepsTiers(w: World, u: World, v: World, id: nat, key: Pubkey, amount: u64)
    requires Safe(w) && DoRefreshObligation(w, id) == Ok(u) && DoBorrow(u, id, key, amount) == Ok(v)
    ensures id < |v.obligations| && TiersKept(v.obligations[id].borrows, v.reserves)
  {
    hide Safe, Refresh, DoBorrow, DoRefreshObligation, TiersKept, AddLoan, Fresh, CheckTier, CalculateBorrow, BorrowLiquidity,
         RemainingBorrowValue;
    PositionFresh(w, u, id);
    BorrowTier(u, v, id, key, amount);
    var t, remaining := BorrowStep(u, id, key, amount);
    var o := u.obligations[id];
    if !o.borrowingIsolatedAsset { RefreshedFlag(w.obligations[id], w.reserves, w.slot); }
    AddedTiers(o, u.reserves, key, u.reserves[key].liquidity.cumulativeRate, t.borrowAmount);
    SameTiers(AddLoan(o, key, u.reserves[key].liquidity.cumulativeRate, t.borrowAmount).value.borrows, u.reserves, v.reserves, key, t.borrowAmount);
  }

  /** What the stored flag says of the borrows it is stored with. */
  lemma FlagIs(o: Obligation, rs: ReserveMap, now: u64)
    requires Refresh(o, rs, now).Ok? && forall b :: b in o.borrows ==> b.borrowed > 0
    ensures var f := Refresh(o, rs, now).value; f.borrowingIsolatedAsset <==> AnyIsolated(f.borrows, rs)
  {
    hide Refresh;
    if Refresh(o, rs, now).value.borrowingIsolatedAsset {
      IsolatedStays(o, rs, now);
    } else {
      RefreshedFlag(o, rs, now);
      NoneIsolated(Refresh(o, rs, now).value.borrows, rs);
    }
  }

  lemma NoneIsolated(bs: seq<Loan>, rs: ReserveMap)
    requires forall b :: b in bs ==> !IsolatedLoan(b, rs)
    ensures !AnyIsolated(bs, rs)
  {
    forall i | 0 <= i < |bs|
      ensures !IsolatedLoan(bs[i], rs)
    {
    }
  }

  lemma IsolatedStays(o: Obligation, rs: ReserveMap, now: u64)
    requires Refresh(o, rs, now).Ok? && forall b :: b in o.borrows ==> b.borrowed > 0
    requires Refresh(o, rs, now).value.borrowingIsolatedAsset
    ensures AnyIsolated(Refresh(o, rs, now).value.borrows, rs)
  {
    hide Refresh, ValueLoans, HeaviestFirst, AccrueLoan;
    RefreshedTotals(o, rs, now);
    RefreshedBorrows(o, rs, now);
    ValuedLoans(o.borrows, rs, now, |o.borrows|);
    KeptPositives(ValueLoans(o.borrows, rs, now, |o.borrows|).value.0, Refresh(o, rs, now).value.borrows);
    StillThere(o.borrows, ValueLoans(o.borrows, rs, now, |o.borrows|).value.0, Refresh(o, rs, now).value.borrows, rs);
  }

  lemma KeptPositives(vs: seq<Loan>, bs: seq<Loan>)
    requires forall x: Loan :: multiset(bs)[x] == if x.borrowed > 0 then multiset(vs)[x] else 0
    ensures forall x: Loan :: x in vs && x.borrowed > 0 ==> x in bs
  {
    forall x: Loan | x in vs && x.borrowed > 0
      ensures x in bs
    {
      assert x in multiset(vs);
      assert x in multiset(bs);
    }
  }

  lemma StillThere(os: seq<Loan>, vs: seq<Loan>, bs: seq<Loan>, rs: ReserveMap)
    requires AnyIsolated(os, rs) && |vs| == |os| && forall b :: b in os ==> b.borrowed > 0
    requires forall i :: 0 <= i < |os| ==>
      && os[i].reserve in rs && AccrueLoan(os[i], rs[os[i].reserve].liquidity.cumulativeRate).Ok?
      && vs[i] == AccrueLoan(os[i], rs[os[i].reserve].liquidity.cumulativeRate).value.(marketValue := vs[i].marketValue)
    requires forall x: Loan :: x in vs && x.borrowed > 0 ==> x in bs
    ensures AnyIsolated(bs, rs)
  {
    hide AccrueLoan;
    var i :| 0 <= i < |os| && IsolatedLoan(os[i], rs);
    assert os[i] in os;
    DebtStays(os[i], rs[os[i].reserve].liquidity.cumulativeRate);
    assert vs[i] in vs;
    OneIsolated(os[i], vs[i], bs, rs);
  }

  lemma OneIsolated(b: Loan, c: Loan, bs: seq<Loan>, rs: ReserveMap)
    requires c.reserve == b.reserve && IsolatedLoan(b, rs) && c in bs
    ensures AnyIsolated(bs, rs)
  {
    var j :| 0 <= j < |bs| && bs[j] == c;
    assert bs[j].reserve == b.reserve;
  }

  lemma DebtStays(loan: Loan, index: Decimal)
    requires AccrueLoan(loan, index).Ok? && loan.borrowed > 0
    ensures AccrueLoan(loan, index).value.borrowed > 0 && AccrueLoan(loan, index).value.reserve == loan.reserve
  {
    if loan.cumulativeRate > 0 { AccrueLoanBrackets(loan, index); }
  }

  /** The check accepts exactly the borrows that leave the tiers apart: of an obligation in which nothing is
      fully repaid, a refresh and then the check. */
  lemma TierCheckIsExact(w: World, u: World, id: nat, key: Pubkey, index: Decimal, amount: Decimal)
    requires DoRefreshObligation(w, id) == Ok(u) && id < |w.obligations| == |u.obligations| && key in u.reserves
    requires forall b :: b in w.obligations[id].borrows ==> b.borrowed > 0
    requires AddLoan(u.obligations[id], key, index, amount).Ok?
    ensures CheckTier(u.obligations[id], u.reserves[key], key).Ok? <==>
      TiersKept(AddLoan(u.obligations[id], key, index, amount).value.borrows, u.reserves)
  {
    hide Refresh, AddLoan, CheckTier, TiersKept, AnyIsolated, DoRefreshObligation;
    RefreshedHere(w, u, id);
    FlagIs(w.obligations[id], w.reserves, w.slot);
    CheckedTiers(u.obligations[id], u.reserves, key, index, amount);
  }

  lemma RefreshedHere(w: World, u: World, id: nat)
    requires DoRefreshObligation(w, id) == Ok(u)
    ensures id < |w.obligations| == |u.obligations| && u.reserves == w.reserves
    ensures Refresh(w.obligations[id], w.reserves, w.slot) == Ok(u.obligations[id])
  {
    hide Refresh, ObligationFits;
  }

  lemma CheckedTiers(o: Obligation, rs: ReserveMap, key: Pubkey, index: Decimal, amount: Decimal)
    requires key in rs && AddLoan(o, key, index, amount).Ok? && (o.borrowingIsolatedAsset <==> AnyIsolated(o.borrows, rs))
    ensures CheckTier(o, rs[key], key).Ok? <==> TiersKept(AddLoan(o, key, index, amount).value.borrows, rs)
  {
    var bs := AddLoan(o, key, index, amount).value.borrows;
    if CheckTier(o, rs[key], key).Ok? {
      AddedTiers(o, rs, key, index, amount);
    } else {
      AddedAmong(o, key, index, amount);
      hide AddLoan, AnyIsolated;
      if rs[key].config.reserveType == Isolated {
        var b: Loan :| b in bs && b.reserve == key;
        OneIsolated(b, b, bs, rs);
      } else {
        IsolatedAmong(o.borrows, bs, rs);
        NotOnlyRegular(o.borrows, rs, key);
      }
      MixedTiers(bs, rs);
    }
  }

  lemma AddedAmong(o: Obligation, key: Pubkey, index: Decimal, amount: Decimal)
    requires AddLoan(o, key, index, amount).Ok?
    ensures var bs := AddLoan(o, key, index, amount).value.borrows;
      && (exists b: Loan :: b in bs && b.reserve == key) && |bs| >= |o.borrows|
      && (|bs| == 1 ==> o.borrows == [] || (|o.borrows| == 1 && o.borrows[0].reserve == key))
      && (forall j :: 0 <= j < |o.borrows| ==> bs[j].reserve == o.borrows[j].reserve)
  {
    hide FindLoan;
    var i := FindLoan(o.borrows, key);
    var bs := AddLoan(o, key, index, amount).value.borrows;
    assert bs[i] in bs && bs[i].reserve == key;
  }

  lemma IsolatedAmong(os: seq<Loan>, bs: seq<Loan>, rs: ReserveMap)
    requires AnyIsolated(os, rs) && |bs| >= |os| && forall j :: 0 <= j < |os| ==> bs[j].reserve == os[j].reserve
    ensures AnyIsolated(bs, rs)
  {
    var j :| 0 <= j < |os| && IsolatedLoan(os[j], rs);
    OneIsolated(os[j], bs[j], bs, rs);
  }

  lemma NotOnlyRegular(os: seq<Loan>, rs: ReserveMap, key: Pubkey)
    requires AnyIsolated(os, rs) && key in rs && rs[key].config.reserveType == Regular
    ensures os != [] && !(|os| == 1 && os[0].reserve == key)
  {
  }

  lemma MixedTiers(bs: seq<Loan>, rs: ReserveMap)
    requires AnyIsolated(bs, rs) && |bs| != 1
    ensures !TiersKept(bs, rs)
  {
    var j :| 0 <= j < |bs| && bs[j].reserve in rs && rs[bs[j].reserve].config.reserveType == Isolated;
    assert IsolatedLoan(bs[j], rs);
  }

  lemma PositionFresh(w: World, u: World, id: nat)
    requires Safe(w) && DoRefreshObligation(w, id) == Ok(u)
    ensures id < |w.obligations| == |u.obligations| && u.reserves == w.reserves && Safe(u)
    ensures Refresh(w.obligations[id], w.reserves, w.slot) == Ok(u.obligations[id])
  {
    hide Safe, DoRefreshObligation, Refresh, Fresh;
    RefreshStep(w, id);
    ObligationSteps.RefreshObligationSafe(w, id);
  }

  lemma BorrowTier(w: World, v: World, id: nat, key: Pubkey, amount: u64)
    requires DoBorrow(w, id, key, amount) == Ok(v)
    ensures id < |w.obligations| && key in w.reserves && CheckTier(w.obligations[id], w.reserves[key], key).Ok?
  {
    hide PriceBorrow, MarketValueUpperBound, Update, LimiterFits, BorrowLiquidity, BookedBorrow, NotStale, CheckBorrowLimit, CheckTier;
  }

  lemma SameTiers(bs: seq<Loan>, rs: ReserveMap, ss: ReserveMap, key: Pubkey, amount: Decimal)
    requires key in rs && key in ss && ss == rs[key := ss[key]] && Booked(rs[key], ss[key], amount) && TiersKept(bs, rs)
    ensures TiersKept(bs, ss)
  {
    hide BorrowLiquidity;
    forall i | 0 <= i < |bs| && IsolatedLoan(bs[i], ss)
      ensures IsolatedLoan(bs[i], rs)
    {
    }
  }
}
