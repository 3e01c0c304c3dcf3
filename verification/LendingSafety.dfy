/** What every run of the lending program keeps.

    `Safe` says that the token ledger backs the books exactly, that every stored configuration,
    limiter and interest index is in order, and that every obligation's lists are well formed.  It
    holds of a new market and of every state any sequence of instructions leads to. */
module LendingSafety {
  import opened FixedPoint
  import opened RateLimiters
  import opened ReserveConfigs
  import opened Reserves
  import opened Obligations
  import opened ObligationRefresh
  import opened Lending

  // ----- deposits in one reserve

  function DepositedIn(ds: seq<Collateral>, key: Pubkey): nat {
    if ds == [] then 0
    else DepositedIn(ds[..|ds| - 1], key) + (if ds[|ds| - 1].reserve == key then ds[|ds| - 1].deposited else 0)
  }

  function TotalDeposited(os: seq<Obligation>, key: Pubkey): nat {
    if os == [] then 0 else TotalDeposited(os[..|os| - 1], key) + DepositedIn(os[|os| - 1].deposits, key)
  }

  lemma {:induction false} DepositedPut(ds: seq<Collateral>, i: nat, c: Collateral, key: Pubkey)
    requires i < |ds| && c.reserve == ds[i].reserve
    ensures DepositedIn(ds[i := c], key)
              == DepositedIn(ds, key) + (if c.reserve == key then c.deposited - ds[i].deposited else 0)
  {
    var n := |ds| - 1;
    if i < n {
      DepositedPut(ds[..n], i, c, key);
      assert ds[i := c][..n] == ds[..n][i := c];
    } else {
      assert ds[i := c][..n] == ds[..n];
    }
  }

  lemma {:induction false} DepositedRemove(ds: seq<Collateral>, i: nat, key: Pubkey)
    requires i < |ds|
    ensures DepositedIn(ds[..i] + ds[i + 1..], key)
              == DepositedIn(ds, key) - (if ds[i].reserve == key then ds[i].deposited else 0)
  {
    var n := |ds| - 1;
    var rest := ds[..i] + ds[i + 1..];
    if i < n {
      DepositedRemove(ds[..n], i, key);
      assert rest[..|rest| - 1] == ds[..n][..i] + ds[..n][i + 1..];
      assert rest[|rest| - 1] == ds[n];
    } else {
      assert rest == ds[..n];
    }
  }

  lemma {:induction false} DepositedAtLeast(ds: seq<Collateral>, i: nat)
    requires i < |ds|
    ensures ds[i].deposited <= DepositedIn(ds, ds[i].reserve)
  {
    if i < |ds| - 1 { DepositedAtLeast(ds[..|ds| - 1], i); }
  }

  lemma {:induction false} DepositedElsewhere(ds: seq<Collateral>, key: Pubkey)
    requires forall i :: 0 <= i < |ds| ==> ds[i].reserve != key
    ensures DepositedIn(ds, key) == 0
  {
    if ds != [] { DepositedElsewhere(ds[..|ds| - 1], key); }
  }

  lemma {:induction false} DepositedKept(ds: seq<Collateral>, key: Pubkey)
    ensures DepositedIn(KeepDeposits(ds), key) == DepositedIn(ds, key)
  {
    if ds != [] {
      var n := |ds| - 1;
      DepositedKept(ds[..n], key);
      var front := KeepDeposits(ds[..n]);
      if ds[n].deposited > 0 {
        assert (front + [ds[n]])[..|front|] == front;
      } else {
        assert front + [] == front;
      }
    }
  }

  lemma {:induction false} DepositedSame(ds: seq<Collateral>, es: seq<Collateral>, key: Pubkey)
    requires |ds| == |es|
    requires forall i :: 0 <= i < |ds| ==> ds[i].reserve == es[i].reserve && ds[i].deposited == es[i].deposited
    ensures DepositedIn(ds, key) == DepositedIn(es, key)
  {
    if ds != [] { DepositedSame(ds[..|ds| - 1], es[..|es| - 1], key); }
  }

  lemma {:induction false} TotalPut(os: seq<Obligation>, id: nat, o: Obligation, key: Pubkey)
    requires id < |os|
    ensures TotalDeposited(os[id := o], key)
              == TotalDeposited(os, key) - DepositedIn(os[id].deposits, key) + DepositedIn(o.deposits, key)
    ensures DepositedIn(os[id].deposits, key) <= TotalDeposited(os, key)
  {
    hide DepositedIn;
    var n := |os| - 1;
    if id < n {
      TotalPut(os[..n], id, o, key);
      assert os[id := o][..n] == os[..n][id := o];
    } else {
      assert os[id := o][..n] == os[..n];
    }
  }

  lemma {:induction false} TotalElsewhere(os: seq<Obligation>, rs: ReserveMap, key: Pubkey)
    requires key !in rs
    requires forall i, j :: 0 <= i < |os| && 0 <= j < |os[i].deposits| ==> os[i].deposits[j].reserve in rs
    ensures TotalDeposited(os, key) == 0
  {
    if os != [] {
      TotalElsewhere(os[..|os| - 1], rs, key);
      DepositedElsewhere(os[|os| - 1].deposits, key);
    }
  }

  // ----- the invariant

  predicate DistinctDeposits(ds: seq<Collateral>) {
    forall i, j :: 0 <= i < j < |ds| ==> ds[i].reserve != ds[j].reserve
  }

  predicate DistinctLoans(bs: seq<Loan>) {
    forall i, j :: 0 <= i < j < |bs| ==> bs[i].reserve != bs[j].reserve
  }

  /** Unique reserves in each list, at most ten entries, at most nine of them borrows. */
  predicate ListsOk(o: Obligation) {
    && DistinctDeposits(o.deposits) && DistinctLoans(o.borrows)
    && |o.deposits| + |o.borrows| <= MAX_OBLIGATION_RESERVES
    && |o.borrows| < MAX_OBLIGATION_RESERVES
  }

  predicate DepositsKnown(ds: seq<Collateral>, rs: ReserveMap) {
    forall i :: 0 <= i < |ds| ==> ds[i].reserve in rs
  }

  /** A stored index is at least one and never ahead of its reserve's. */
  predicate LoanOk(loan: Loan, rs: ReserveMap) {
    loan.reserve in rs && WAD <= loan.cumulativeRate <= rs[loan.reserve].liquidity.cumulativeRate
  }

  predicate LoansOk(bs: seq<Loan>, rs: ReserveMap) {
    forall i :: 0 <= i < |bs| ==> LoanOk(bs[i], rs)
  }

  predicate LoanFresh(loan: Loan, rs: ReserveMap, now: u64) {
    && loan.reserve in rs && rs[loan.reserve].lastUpdate.slot == now
    && loan.cumulativeRate == rs[loan.reserve].liquidity.cumulativeRate
  }

  predicate LoansFresh(bs: seq<Loan>, rs: ReserveMap, now: u64) {
    forall i :: 0 <= i < |bs| ==> LoanFresh(bs[i], rs, now)
  }

  predicate ObligationOk(o: Obligation, rs: ReserveMap, now: u64) {
    && ListsOk(o) && ObligationFits(o)
    && DepositsKnown(o.deposits, rs) && LoansOk(o.borrows, rs)
    && o.lastUpdate.slot <= now
    && (!o.lastUpdate.stale && o.lastUpdate.slot == now ==> LoansFresh(o.borrows, rs, now))
  }

  /** The vault holds exactly the available liquidity, and there are exactly as many collateral
      tokens as the reserve has minted. */
  predicate Backed(r: Reserve, v: Ledger) {
    v.liquidity == r.liquidity.available && v.collateral + v.held == r.mintSupply
  }

  predicate ReserveOk(r: Reserve, now: u64) {
    && Sane(r.config) && LimiterOk(r.limiter, now) && ReserveFits(r)
    && WAD <= r.liquidity.cumulativeRate && r.lastUpdate.slot <= now
  }

  predicate Safe(w: World) {
    && w.slot < SLOT_LIMIT && LimiterOk(w.market, w.slot)
    && w.reserves.Keys == w.ledger.Keys
    && (forall k :: k in w.reserves ==> ReserveOk(w.reserves[k], w.slot) && Backed(w.reserves[k], w.ledger[k]))
    && (forall k :: k in w.ledger ==> w.ledger[k].collateral == TotalDeposited(w.obligations, k))
    && (forall i :: 0 <= i < |w.obligations| ==> ObligationOk(w.obligations[i], w.reserves, w.slot))
  }

  // ----- replacing one account

  /** A reserve may be replaced by one whose index has not gone back, and has not moved if the
      reserve was already up to date. */
  predicate Advances(r: Reserve, s: Reserve, now: u64) {
    && r.liquidity.cumulativeRate <= s.liquidity.cumulativeRate
    && (r.lastUpdate.slot == now ==>
          s.lastUpdate.slot == now && s.liquidity.cumulativeRate == r.liquidity.cumulativeRate)
  }

  lemma ObligationSurvives(o: Obligation, rs: ReserveMap, now: u64, key: Pubkey, s: Reserve)
    requires ObligationOk(o, rs, now) && key in rs && Advances(rs[key], s, now)
    ensures ObligationOk(o, rs[key := s], now)
  {
    hide ListsOk, ObligationFits;
  }

  lemma PutReserve(w: World, key: Pubkey, s: Reserve, v: Ledger, market: Limiter)
    requires Safe(w) && key in w.reserves && Advances(w.reserves[key], s, w.slot)
    requires ReserveOk(s, w.slot) && Backed(s, v) && v.collateral == w.ledger[key].collateral
    requires LimiterOk(market, w.slot)
    ensures Safe(w.(market := market, reserves := w.reserves[key := s], ledger := w.ledger[key := v]))
  {
    hide ReserveOk, ObligationOk, Advances, LimiterOk, TotalDeposited;
    forall i | 0 <= i < |w.obligations|
      ensures ObligationOk(w.obligations[i], w.reserves[key := s], w.slot)
    {
      ObligationSurvives(w.obligations[i], w.reserves, w.slot, key, s);
    }
  }

  lemma AddReserve(w: World, key: Pubkey, s: Reserve, v: Ledger)
    requires Safe(w) && key !in w.reserves && ReserveOk(s, w.slot) && Backed(s, v) && v.collateral == 0
    ensures Safe(w.(reserves := w.reserves[key := s], ledger := w.ledger[key := v]))
  {
    hide ReserveOk, LimiterOk, ListsOk, ObligationFits;
    TotalElsewhere(w.obligations, w.reserves, key);
    hide TotalDeposited;
  }

  /** An obligation may be replaced if its deposits change only in `key`, and there by as much as the
      collateral vault. */
  lemma PutObligation(w: World, id: nat, o: Obligation, key: Pubkey, v: Ledger)
    requires Safe(w) && id < |w.obligations| && key in w.ledger && ObligationOk(o, w.reserves, w.slot)
    requires v.liquidity == w.ledger[key].liquidity
    requires v.collateral + v.held == w.ledger[key].collateral + w.ledger[key].held
    requires forall k: Pubkey :: DepositedIn(o.deposits, k) == DepositedIn(w.obligations[id].deposits, k)
               + (if k == key then v.collateral - w.ledger[key].collateral else 0)
    ensures Safe(w.(obligations := w.obligations[id := o], ledger := w.ledger[key := v]))
  {
    hide ReserveOk, ObligationOk, LimiterOk, DepositedIn, TotalDeposited;
    forall k | k in w.ledger
      ensures w.ledger[key := v][k].collateral == TotalDeposited(w.obligations[id := o], k)
    {
      TotalPut(w.obligations, id, o, k);
    }
  }

  lemma PutObligationOnly(w: World, id: nat, o: Obligation)
    requires Safe(w) && id < |w.obligations| && ObligationOk(o, w.reserves, w.slot)
    requires forall k: Pubkey :: DepositedIn(o.deposits, k) == DepositedIn(w.obligations[id].deposits, k)
    ensures Safe(w.(obligations := w.obligations[id := o]))
  {
    hide ReserveOk, ObligationOk, LimiterOk, DepositedIn, TotalDeposited;
    forall k | k in w.ledger
      ensures w.ledger[k].collateral == TotalDeposited(w.obligations[id := o], k)
    {
      TotalPut(w.obligations, id, o, k);
    }
  }
}
