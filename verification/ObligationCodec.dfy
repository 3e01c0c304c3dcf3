/** Obligation accounts as 1300 bytes (token-lending/sdk/src/state/obligation.rs, state/mod.rs).

    A header of fixed pieces, then 1096 bytes shared by the deposits (88 bytes each) and the borrows
    (112 bytes each).  Padding keeps whatever the buffer held.  Packing panics on a value above 128
    bits and on lists that do not fit; unpacking rejects unknown versions and booleans, and panics on
    counts that do not fit. */
module ObligationCodec {
  import opened Results
  import opened FixedPoint
  import opened Reserves
  import opened Obligations
  import opened Lending
  import opened LendingSafety
  import opened Bytes

  const PROGRAM_VERSION: u8 := 1
  const HEADER: seq<nat> := [1, 8, 1, 32, 32, 16, 16, 16, 16, 16, 1, 16, 31, 1, 1]
  const HEADER_LEN: nat := 204
  const FLAT_LEN: nat := 1096
  const OBLIGATION_LEN: nat := 1300
  const DEPOSIT: seq<nat> := [32, 8, 16, 32]
  const DEPOSIT_LEN: nat := 88
  const LOAN: seq<nat> := [32, 16, 16, 16, 32]
  const LOAN_LEN: nat := 112

  datatype Account = Account(version: u8, market: Pubkey, owner: Pubkey, obligation: Obligation)

  lemma Sums()
    ensures Sum(HEADER) == HEADER_LEN && Sum(DEPOSIT) == DEPOSIT_LEN && Sum(LOAN) == LOAN_LEN
  {
    hide Sum;
    HeaderSum();
    SumOfFour(32, 8, 16, 32);
    SumOfFour(32, 16, 16, 16);
    SumJoin([32, 16, 16, 16], [32]);
    assert LOAN == [32, 16, 16, 16] + [32];
    SumOfOne(32);
  }

  lemma HeaderSum()
    ensures Sum(HEADER) == HEADER_LEN
  {
    hide Sum;
    var a, b, c, d := [1, 8, 1, 32], [32, 16, 16, 16], [16, 16, 1, 16], [31, 1, 1, 0];
    SumOfFour(1, 8, 1, 32);
    SumOfFour(32, 16, 16, 16);
    SumOfFour(16, 16, 1, 16);
    SumOfFour(31, 1, 1, 0);
    SumJoin(HEADER, [0]);
    SumOfOne(0);
    SumJoin(c, d);
    SumJoin(b, c + d);
    SumJoin(a, b + (c + d));
    assert HEADER + [0] == a + (b + (c + d));
  }

  // ----- fields

  function U64At(s: seq<u8>): u64
    requires |s| == 8
  {
    Widths();
    FromLittleEndian(s)
  }

  function DecimalAt(s: seq<u8>): Decimal
    requires |s| == 16
  {
    Widths();
    FromLittleEndian(s)
  }

  function PubkeyAt(s: seq<u8>): Pubkey
    requires |s| == 32
  {
    Widths();
    FromBigEndian(s)
  }

  function PackBool(b: bool): seq<u8> { [if b then 1 else 0] }

  function UnpackBool(s: seq<u8>): Result<bool>
    requires |s| == 1
  {
    if s[0] == 0 then Ok(false) else if s[0] == 1 then Ok(true) else Err(InvalidAccountData)
  }

  lemma FieldsRead(n: u64, d: Decimal, k: Pubkey)
    ensures U64At(LittleEndian(n, 8)) == n
    ensures d < U128 ==> DecimalAt(LittleEndian(d, 16)) == d
    ensures PubkeyAt(BigEndian(k, 32)) == k
  {
    Widths();
    LittleEndianInverse(n, 8);
    if d < U128 { LittleEndianInverse(d, 16); }
    BigEndianInverse(k, 32);
  }

  lemma FieldsWrite(n: seq<u8>, d: seq<u8>, k: seq<u8>)
    requires |n| == 8 && |d| == 16 && |k| == 32
    ensures LittleEndian(U64At(n), 8) == n && LittleEndian(DecimalAt(d), 16) == d && BigEndian(PubkeyAt(k), 32) == k
    ensures DecimalAt(d) < U128
  {
    Widths();
    FromLittleEndianInverse(n);
    FromLittleEndianInverse(d);
    FromBigEndianInverse(k);
  }

  // ----- one deposit, one borrow

  function DepositPieces(c: Collateral, padding: seq<u8>): seq<seq<u8>> {
    [BigEndian(c.reserve, 32), LittleEndian(c.deposited, 8), LittleEndian(c.marketValue, 16), padding]
  }

  function DepositFrom(pieces: seq<seq<u8>>): Collateral
    requires HasLengths(pieces, DEPOSIT)
  {
    Collateral(PubkeyAt(pieces[0]), U64At(pieces[1]), DecimalAt(pieces[2]))
  }

  function LoanPieces(b: Loan, padding: seq<u8>): seq<seq<u8>> {
    [BigEndian(b.reserve, 32), LittleEndian(b.cumulativeRate, 16), LittleEndian(b.borrowed, 16),
     LittleEndian(b.marketValue, 16), padding]
  }

  function LoanFrom(pieces: seq<seq<u8>>): Loan
    requires HasLengths(pieces, LOAN)
  {
    Loan(PubkeyAt(pieces[0]), DecimalAt(pieces[1]), DecimalAt(pieces[2]), DecimalAt(pieces[3]))
  }

  predicate DepositFits(c: Collateral) { c.marketValue < U128 }

  predicate LoanFits(b: Loan) { b.cumulativeRate < U128 && b.borrowed < U128 && b.marketValue < U128 }

  lemma DepositSize(c: Collateral, padding: seq<u8>)
    requires |padding| == 32
    ensures |Flatten(DepositPieces(c, padding))| == DEPOSIT_LEN && HasLengths(DepositPieces(c, padding), DEPOSIT)
  {
    hide Sum, Flatten, LittleEndian, BigEndian;
    Sums();
    FlattenLength(DepositPieces(c, padding), DEPOSIT);
  }

  lemma LoanSize(b: Loan, padding: seq<u8>)
    requires |padding| == 32
    ensures |Flatten(LoanPieces(b, padding))| == LOAN_LEN && HasLengths(LoanPieces(b, padding), LOAN)
  {
    hide Sum, Flatten, LittleEndian, BigEndian;
    Sums();
    FlattenLength(LoanPieces(b, padding), LOAN);
  }

  /** The 88 bytes of a deposit, over the ones they replace. */
  function DepositBytes(c: Collateral, old_: seq<u8>): (s: seq<u8>)
    requires |old_| == DEPOSIT_LEN
    ensures |s| == DEPOSIT_LEN
  {
    Sums();
    DepositSize(c, Split(old_, DEPOSIT)[3]);
    Flatten(DepositPieces(c, Split(old_, DEPOSIT)[3]))
  }

  function ReadDeposit(s: seq<u8>): Collateral
    requires |s| == DEPOSIT_LEN
  {
    Sums();
    DepositFrom(Split(s, DEPOSIT))
  }

  function LoanBytes(b: Loan, old_: seq<u8>): (s: seq<u8>)
    requires |old_| == LOAN_LEN
    ensures |s| == LOAN_LEN
  {
    Sums();
    LoanSize(b, Split(old_, LOAN)[4]);
    Flatten(LoanPieces(b, Split(old_, LOAN)[4]))
  }

  function ReadLoan(s: seq<u8>): Loan
    requires |s| == LOAN_LEN
  {
    Sums();
    LoanFrom(Split(s, LOAN))
  }

  lemma DepositRoundTrip(c: Collateral, old_: seq<u8>)
    requires |old_| == DEPOSIT_LEN && DepositFits(c)
    ensures ReadDeposit(DepositBytes(c, old_)) == c
  {
    hide Sum, Split, Flatten, LittleEndian, BigEndian, U64At, DecimalAt, PubkeyAt;
    Sums();
    var pieces := DepositPieces(c, Split(old_, DEPOSIT)[3]);
    DepositSize(c, Split(old_, DEPOSIT)[3]);
    SplitFlatten(pieces, DEPOSIT);
    FieldsRead(c.deposited, c.marketValue, c.reserve);
  }

  lemma DepositRewrite(s: seq<u8>)
    requires |s| == DEPOSIT_LEN
    ensures DepositBytes(ReadDeposit(s), s) == s && DepositFits(ReadDeposit(s))
  {
    hide Sum, Split, Flatten, LittleEndian, BigEndian, U64At, DecimalAt, PubkeyAt;
    Sums();
    var pieces := Split(s, DEPOSIT);
    DepositPiecesBack(pieces);
    FlattenSplit(s, DEPOSIT);
  }

  lemma DepositPiecesBack(pieces: seq<seq<u8>>)
    requires HasLengths(pieces, DEPOSIT)
    ensures DepositPieces(DepositFrom(pieces), pieces[3]) == pieces && DepositFits(DepositFrom(pieces))
  {
    hide LittleEndian, BigEndian, U64At, DecimalAt, PubkeyAt;
    FieldsWrite(pieces[1], pieces[2], pieces[0]);
  }

  lemma LoanRoundTrip(b: Loan, old_: seq<u8>)
    requires |old_| == LOAN_LEN && LoanFits(b)
    ensures ReadLoan(LoanBytes(b, old_)) == b
  {
    hide Sum, Split, Flatten, LittleEndian, BigEndian, U64At, DecimalAt, PubkeyAt;
    Sums();
    var pieces := LoanPieces(b, Split(old_, LOAN)[4]);
    LoanSize(b, Split(old_, LOAN)[4]);
    SplitFlatten(pieces, LOAN);
    FieldsRead(0, b.cumulativeRate, b.reserve);
    FieldsRead(0, b.borrowed, b.reserve);
    FieldsRead(0, b.marketValue, b.reserve);
  }

  lemma LoanRewrite(s: seq<u8>)
    requires |s| == LOAN_LEN
    ensures LoanBytes(ReadLoan(s), s) == s && LoanFits(ReadLoan(s))
  {
    hide Sum, Split, Flatten, LittleEndian, BigEndian, U64At, DecimalAt, PubkeyAt;
    Sums();
    var pieces := Split(s, LOAN);
    LoanPiecesBack(pieces);
    FlattenSplit(s, LOAN);
  }

  lemma LoanPiecesBack(pieces: seq<seq<u8>>)
    requires HasLengths(pieces, LOAN)
    ensures LoanPieces(LoanFrom(pieces), pieces[4]) == pieces && LoanFits(LoanFrom(pieces))
  {
    hide LittleEndian, BigEndian, U64At, DecimalAt, PubkeyAt;
    var n := LittleEndian(0, 8);
    FieldsWrite(n, pieces[1], pieces[0]);
    FieldsWrite(n, pieces[2], pieces[0]);
    FieldsWrite(n, pieces[3], pieces[0]);
  }

  // ----- the lists

  predicate ListsFit(deposits: nat, borrows: nat) { DEPOSIT_LEN * deposits + LOAN_LEN * borrows <= FLAT_LEN }

  /** The shared bytes once the deposits are written one after the other. */
  function PutDeposits(flat: seq<u8>, ds: seq<Collateral>): (f: seq<u8>)
    requires |flat| == FLAT_LEN && DEPOSIT_LEN * |ds| <= FLAT_LEN
    ensures |f| == FLAT_LEN
  {
    if ds == [] then flat
    else
      var f := PutDeposits(flat, ds[..|ds| - 1]);
      var at := DEPOSIT_LEN * (|ds| - 1);
      Splice(f, at, DepositBytes(ds[|ds| - 1], f[at..at + DEPOSIT_LEN]))
  }

  function GetDeposits(flat: seq<u8>, n: nat): (ds: seq<Collateral>)
    requires |flat| == FLAT_LEN && DEPOSIT_LEN * n <= FLAT_LEN
    ensures |ds| == n
  {
    if n == 0 then []
    else GetDeposits(flat, n - 1) + [ReadDeposit(flat[DEPOSIT_LEN * (n - 1)..DEPOSIT_LEN * n])]
  }

  function PutLoans(flat: seq<u8>, start: nat, bs: seq<Loan>): (f: seq<u8>)
    requires |flat| == FLAT_LEN && start + LOAN_LEN * |bs| <= FLAT_LEN
    ensures |f| == FLAT_LEN
  {
    if bs == [] then flat
    else
      var f := PutLoans(flat, start, bs[..|bs| - 1]);
      var at := start + LOAN_LEN * (|bs| - 1);
      Splice(f, at, LoanBytes(bs[|bs| - 1], f[at..at + LOAN_LEN]))
  }

  function GetLoans(flat: seq<u8>, start: nat, n: nat): (bs: seq<Loan>)
    requires |flat| == FLAT_LEN && start + LOAN_LEN * n <= FLAT_LEN
    ensures |bs| == n
  {
    if n == 0 then []
    else GetLoans(flat, start, n - 1) + [ReadLoan(flat[start + LOAN_LEN * (n - 1)..start + LOAN_LEN * n])]
  }

  lemma {:induction false} DepositsReadPrefix(f: seq<u8>, g: seq<u8>, n: nat)
    requires |f| == |g| == FLAT_LEN && DEPOSIT_LEN * n <= FLAT_LEN && f[..DEPOSIT_LEN * n] == g[..DEPOSIT_LEN * n]
    ensures GetDeposits(f, n) == GetDeposits(g, n)
  {
    hide ReadDeposit;
    if n > 0 {
      var k, m := DEPOSIT_LEN * (n - 1), DEPOSIT_LEN * n;
      PrefixOfPrefix(f, g, k, m);
      DepositsReadPrefix(f, g, n - 1);
      assert f[k..m] == g[k..m] by { assert f[..m][k..m] == f[k..m] && g[..m][k..m] == g[k..m]; }
    }
  }

  lemma PrefixOfPrefix(f: seq<u8>, g: seq<u8>, k: nat, m: nat)
    requires k <= m <= |f| && m <= |g| && f[..m] == g[..m]
    ensures f[..k] == g[..k]
  {
    assert f[..m][..k] == f[..k] && g[..m][..k] == g[..k];
  }

  lemma DepositAppended(f: seq<u8>, n: nat, bytes: seq<u8>)
    requires |f| == FLAT_LEN && DEPOSIT_LEN * (n + 1) <= FLAT_LEN && |bytes| == DEPOSIT_LEN
    ensures GetDeposits(Splice(f, DEPOSIT_LEN * n, bytes), n + 1) == GetDeposits(f, n) + [ReadDeposit(bytes)]
  {
    hide ReadDeposit;
    var at := DEPOSIT_LEN * n;
    var g := Splice(f, at, bytes);
    assert g[..at] == f[..at];
    SpliceRead(f, at, bytes, 0, at);
    DepositsReadPrefix(f, g, n);
    assert DEPOSIT_LEN * (n + 1) == at + DEPOSIT_LEN;
    hide Splice;
    assert GetDeposits(g, n + 1) == GetDeposits(g, n) + [ReadDeposit(g[at..DEPOSIT_LEN * (n + 1)])];
  }

  lemma {:induction false} DepositsRoundTrip(flat: seq<u8>, ds: seq<Collateral>)
    requires |flat| == FLAT_LEN && DEPOSIT_LEN * |ds| <= FLAT_LEN && forall i :: 0 <= i < |ds| ==> DepositFits(ds[i])
    ensures GetDeposits(PutDeposits(flat, ds), |ds|) == ds
  {
    hide DepositBytes, ReadDeposit, Splice, DepositFits, GetDeposits;
    if ds == [] {
      NoDeposits(flat);
    } else {
      var n := |ds| - 1;
      DepositsRoundTrip(flat, ds[..n]);
      var f := PutDeposits(flat, ds[..n]);
      var bytes := DepositBytes(ds[n], f[DEPOSIT_LEN * n..DEPOSIT_LEN * n + DEPOSIT_LEN]);
      DepositRoundTrip(ds[n], f[DEPOSIT_LEN * n..DEPOSIT_LEN * n + DEPOSIT_LEN]);
      DepositAppended(f, n, bytes);
      assert ds == ds[..n] + [ds[n]];
    }
  }

  lemma NoDeposits(flat: seq<u8>)
    requires |flat| == FLAT_LEN
    ensures GetDeposits(flat, 0) == [] && PutDeposits(flat, []) == flat
  {
  }

  lemma {:induction false} LoansKeepPrefix(flat: seq<u8>, start: nat, bs: seq<Loan>)
    requires |flat| == FLAT_LEN && start + LOAN_LEN * |bs| <= FLAT_LEN
    ensures PutLoans(flat, start, bs)[..start] == flat[..start]
  {
    hide LoanBytes, Splice;
    if bs != [] {
      var n := |bs| - 1;
      LoansKeepPrefix(flat, start, bs[..n]);
      var f := PutLoans(flat, start, bs[..n]);
      var at := start + LOAN_LEN * n;
      SpliceRead(f, at, LoanBytes(bs[n], f[at..at + LOAN_LEN]), 0, start);
    }
  }

  lemma {:induction false} LoansReadPrefix(f: seq<u8>, g: seq<u8>, start: nat, n: nat)
    requires |f| == |g| == FLAT_LEN && start + LOAN_LEN * n <= FLAT_LEN
    requires f[..start + LOAN_LEN * n] == g[..start + LOAN_LEN * n]
    ensures GetLoans(f, start, n) == GetLoans(g, start, n)
  {
    hide ReadLoan;
    if n > 0 {
      var k, m := start + LOAN_LEN * (n - 1), start + LOAN_LEN * n;
      PrefixOfPrefix(f, g, k, m);
      LoansReadPrefix(f, g, start, n - 1);
      assert f[k..m] == g[k..m] by { assert f[..m][k..m] == f[k..m] && g[..m][k..m] == g[k..m]; }
    }
  }

  lemma LoanAppended(f: seq<u8>, start: nat, n: nat, bytes: seq<u8>)
    requires |f| == FLAT_LEN && start + LOAN_LEN * (n + 1) <= FLAT_LEN && |bytes| == LOAN_LEN
    ensures GetLoans(Splice(f, start + LOAN_LEN * n, bytes), start, n + 1) == GetLoans(f, start, n) + [ReadLoan(bytes)]
  {
    hide ReadLoan;
    var at := start + LOAN_LEN * n;
    var g := Splice(f, at, bytes);
    assert g[..at] == f[..at];
    SpliceRead(f, at, bytes, 0, at);
    LoansReadPrefix(f, g, start, n);
    assert start + LOAN_LEN * (n + 1) == at + LOAN_LEN;
    hide Splice;
    assert GetLoans(g, start, n + 1) == GetLoans(g, start, n) + [ReadLoan(g[at..start + LOAN_LEN * (n + 1)])];
  }

  lemma {:induction false} LoansRoundTrip(flat: seq<u8>, start: nat, bs: seq<Loan>)
    requires |flat| == FLAT_LEN && start + LOAN_LEN * |bs| <= FLAT_LEN && forall i :: 0 <= i < |bs| ==> LoanFits(bs[i])
    ensures GetLoans(PutLoans(flat, start, bs), start, |bs|) == bs
  {
    hide LoanBytes, ReadLoan, Splice, LoanFits, GetLoans;
    if bs == [] {
      NoLoans(flat, start);
    } else {
      var n := |bs| - 1;
      LoansRoundTrip(flat, start, bs[..n]);
      var f := PutLoans(flat, start, bs[..n]);
      var at := start + LOAN_LEN * n;
      var bytes := LoanBytes(bs[n], f[at..at + LOAN_LEN]);
      LoanRoundTrip(bs[n], f[at..at + LOAN_LEN]);
      LoanAppended(f, start, n, bytes);
      assert bs == bs[..n] + [bs[n]];
    }
  }

  lemma NoLoans(flat: seq<u8>, start: nat)
    requires |flat| == FLAT_LEN && start <= FLAT_LEN
    ensures GetLoans(flat, start, 0) == [] && PutLoans(flat, start, []) == flat
  {
  }

  /** Writing back what was read changes nothing. */
  lemma {:induction false} DepositsRewrite(flat: seq<u8>, n: nat)
    requires |flat| == FLAT_LEN && DEPOSIT_LEN * n <= FLAT_LEN
    ensures PutDeposits(flat, GetDeposits(flat, n)) == flat
    ensures forall i :: 0 <= i < n ==> DepositFits(GetDeposits(flat, n)[i])
  {
    hide DepositBytes, ReadDeposit, DepositFits, GetDeposits, PutDeposits, Splice;
    if n > 0 {
      var at := DEPOSIT_LEN * (n - 1);
      var bytes := flat[at..at + DEPOSIT_LEN];
      var front, c := GetDeposits(flat, n - 1), ReadDeposit(bytes);
      DepositsRewrite(flat, n - 1);
      DepositRewrite(bytes);
      DepositsSplit(flat, n);
      DepositAdded(flat, front, c);
      SpliceSame(flat, at, bytes);
    } else {
      NoDeposits(flat);
    }
  }

  lemma DepositsSplit(flat: seq<u8>, n: nat)
    requires |flat| == FLAT_LEN && 0 < n && DEPOSIT_LEN * n <= FLAT_LEN
    ensures var at := DEPOSIT_LEN * (n - 1);
      GetDeposits(flat, n) == GetDeposits(flat, n - 1) + [ReadDeposit(flat[at..at + DEPOSIT_LEN])]
  {
    hide ReadDeposit;
  }

  lemma DepositAdded(flat: seq<u8>, ds: seq<Collateral>, c: Collateral)
    requires |flat| == FLAT_LEN && DEPOSIT_LEN * (|ds| + 1) <= FLAT_LEN
    ensures var f, at := PutDeposits(flat, ds), DEPOSIT_LEN * |ds|;
      PutDeposits(flat, ds + [c]) == Splice(f, at, DepositBytes(c, f[at..at + DEPOSIT_LEN]))
  {
    hide DepositBytes, Splice;
    assert (ds + [c])[..|ds|] == ds;
  }

  lemma {:induction false} LoansRewrite(flat: seq<u8>, start: nat, n: nat)
    requires |flat| == FLAT_LEN && start + LOAN_LEN * n <= FLAT_LEN
    ensures PutLoans(flat, start, GetLoans(flat, start, n)) == flat
    ensures forall i :: 0 <= i < n ==> LoanFits(GetLoans(flat, start, n)[i])
  {
    hide LoanBytes, ReadLoan, LoanFits, GetLoans, PutLoans, Splice;
    if n > 0 {
      var at := start + LOAN_LEN * (n - 1);
      var bytes := flat[at..at + LOAN_LEN];
      var front, b := GetLoans(flat, start, n - 1), ReadLoan(bytes);
      LoansRewrite(flat, start, n - 1);
      LoanRewrite(bytes);
      LoansSplit(flat, start, n);
      LoanAdded(flat, start, front, b);
      SpliceSame(flat, at, bytes);
    } else {
      NoLoans(flat, start);
    }
  }

  lemma LoansSplit(flat: seq<u8>, start: nat, n: nat)
    requires |flat| == FLAT_LEN && 0 < n && start + LOAN_LEN * n <= FLAT_LEN
    ensures var at := start + LOAN_LEN * (n - 1);
      GetLoans(flat, start, n) == GetLoans(flat, start, n - 1) + [ReadLoan(flat[at..at + LOAN_LEN])]
  {
    hide ReadLoan;
  }

  lemma LoanAdded(flat: seq<u8>, start: nat, bs: seq<Loan>, b: Loan)
    requires |flat| == FLAT_LEN && start + LOAN_LEN * (|bs| + 1) <= FLAT_LEN
    ensures var f, at := PutLoans(flat, start, bs), start + LOAN_LEN * |bs|;
      PutLoans(flat, start, bs + [b]) == Splice(f, at, LoanBytes(b, f[at..at + LOAN_LEN]))
  {
    hide LoanBytes, Splice;
    assert (bs + [b])[..|bs|] == bs;
  }

  // ----- the whole account

  function HeaderPieces(a: Account, padding: seq<u8>): seq<seq<u8>> {
    var o := a.obligation;
    [LittleEndian(a.version, 1), LittleEndian(o.lastUpdate.slot, 8), PackBool(o.lastUpdate.stale),
     BigEndian(a.market, 32), BigEndian(a.owner, 32),
     LittleEndian(o.depositedValue, 16), LittleEndian(o.borrowedValue, 16), LittleEndian(o.allowedBorrowValue, 16),
     LittleEndian(o.unhealthyBorrowValue, 16), LittleEndian(o.borrowedValueUpperBound, 16),
     PackBool(o.borrowingIsolatedAsset), LittleEndian(o.superUnhealthyBorrowValue, 16), padding,
     LittleEndian(|o.deposits|, 1), LittleEndian(|o.borrows|, 1)]
  }

  /** The account that a header and its two lists describe. */
  function AccountFrom(h: seq<seq<u8>>, stale: bool, isolated: bool, ds: seq<Collateral>, bs: seq<Loan>): Account
    requires HasLengths(h, HEADER)
  {
    Account(h[0][0], PubkeyAt(h[3]), PubkeyAt(h[4]),
            Obligation(LastUpdate(U64At(h[1]), stale), ds, bs, DecimalAt(h[5]), DecimalAt(h[6]), DecimalAt(h[9]),
                       DecimalAt(h[7]), DecimalAt(h[8]), DecimalAt(h[11]), isolated))
  }

  /** An account packs if its decimals fit 128 bits and its lists fit the shared bytes. */
  predicate Packable(o: Obligation) { ObligationFits(o) && ListsFit(|o.deposits|, |o.borrows|) }

  function PackLists(o: Obligation, flat: seq<u8>): (f: seq<u8>)
    requires |flat| == FLAT_LEN && ListsFit(|o.deposits|, |o.borrows|)
    ensures |f| == FLAT_LEN
  {
    PutLoans(PutDeposits(flat, o.deposits), DEPOSIT_LEN * |o.deposits|, o.borrows)
  }

  lemma HeaderSize(a: Account, padding: seq<u8>)
    requires |padding| == 31
    ensures HasLengths(HeaderPieces(a, padding), HEADER) && |Flatten(HeaderPieces(a, padding))| == HEADER_LEN
  {
    hide Sum, Flatten, LittleEndian, BigEndian;
    Sums();
    FlattenLength(HeaderPieces(a, padding), HEADER);
  }

  /** The bytes of an account, over the ones they replace. */
  function Pack(a: Account, buf: seq<u8>): (s: seq<u8>)
    requires |buf| == OBLIGATION_LEN && ListsFit(|a.obligation.deposits|, |a.obligation.borrows|)
    ensures |s| == OBLIGATION_LEN
  {
    Sums();
    HeaderSize(a, Split(buf[..HEADER_LEN], HEADER)[12]);
    Flatten(HeaderPieces(a, Split(buf[..HEADER_LEN], HEADER)[12])) + PackLists(a.obligation, buf[HEADER_LEN..])
  }

  function Unpack(buf: seq<u8>): Result<Account>
    requires |buf| == OBLIGATION_LEN
  {
    HeaderSum();
    UnpackFrom(Split(buf[..HEADER_LEN], HEADER), buf[HEADER_LEN..])
  }

  function UnpackFrom(h: seq<seq<u8>>, flat: seq<u8>): Result<Account>
    requires HasLengths(h, HEADER) && |flat| == FLAT_LEN
  {
    if h[0][0] > PROGRAM_VERSION then Err(InvalidAccountData)
    else if !ListsFit(h[13][0], h[14][0]) then Err(Panic)
    else
      var stale :- UnpackBool(h[2]);
      var isolated :- UnpackBool(h[10]);
      Ok(AccountFrom(h, stale, isolated, GetDeposits(flat, h[13][0]),
                     GetLoans(flat, DEPOSIT_LEN * h[13][0], h[14][0])))
  }

  lemma OneByte(n: u8)
    ensures LittleEndian(n, 1) == [n]
  {
    assert LittleEndian(n / 256, 0) == [];
  }

  lemma ListsRoundTrip(o: Obligation, flat: seq<u8>)
    requires |flat| == FLAT_LEN && Packable(o)
    ensures GetDeposits(PackLists(o, flat), |o.deposits|) == o.deposits
    ensures GetLoans(PackLists(o, flat), DEPOSIT_LEN * |o.deposits|, |o.borrows|) == o.borrows
  {
    hide PutDeposits, PutLoans, GetDeposits, GetLoans;
    var f := PutDeposits(flat, o.deposits);
    var start := DEPOSIT_LEN * |o.deposits|;
    DepositsRoundTrip(flat, o.deposits);
    LoansKeepPrefix(f, start, o.borrows);
    DepositsReadPrefix(f, PutLoans(f, start, o.borrows), |o.deposits|);
    LoansRoundTrip(f, start, o.borrows);
  }

  lemma HeaderReadBack(a: Account, padding: seq<u8>, ds: seq<Collateral>, bs: seq<Loan>)
    requires |padding| == 31 && Packable(a.obligation)
    ensures HasLengths(HeaderPieces(a, padding), HEADER)
    ensures var h, o := HeaderPieces(a, padding), a.obligation;
      && h[0] == [a.version] && h[13] == [|o.deposits|] && h[14] == [|o.borrows|]
      && UnpackBool(h[2]) == Ok(o.lastUpdate.stale) && UnpackBool(h[10]) == Ok(o.borrowingIsolatedAsset)
      && AccountFrom(h, o.lastUpdate.stale, o.borrowingIsolatedAsset, o.deposits, o.borrows) == a
  {
    hide Sum, Flatten, LittleEndian, BigEndian, U64At, DecimalAt, PubkeyAt;
    HeaderSize(a, padding);
    var o := a.obligation;
    OneByte(a.version);
    OneByte(|o.deposits|);
    OneByte(|o.borrows|);
    FieldsRead(o.lastUpdate.slot, o.depositedValue, a.market);
    FieldsRead(0, o.borrowedValue, a.owner);
    FieldsRead(0, o.allowedBorrowValue, 0);
    FieldsRead(0, o.unhealthyBorrowValue, 0);
    FieldsRead(0, o.borrowedValueUpperBound, 0);
    FieldsRead(0, o.superUnhealthyBorrowValue, 0);
  }

  /** Unpacking undoes packing, whatever the buffer held before. */
  lemma UnpackPack(a: Account, buf: seq<u8>)
    requires |buf| == OBLIGATION_LEN && Packable(a.obligation) && a.version <= PROGRAM_VERSION
    ensures Unpack(Pack(a, buf)) == Ok(a)
  {
    hide Sum, Flatten, Split, HeaderPieces, AccountFrom, PackLists, GetDeposits, GetLoans, UnpackBool;
    Sums();
    var padding := Split(buf[..HEADER_LEN], HEADER)[12];
    var h, flat := HeaderPieces(a, padding), PackLists(a.obligation, buf[HEADER_LEN..]);
    HeaderSize(a, padding);
    SplitFlatten(h, HEADER);
    var s := Pack(a, buf);
    assert s[..HEADER_LEN] == Flatten(h) && s[HEADER_LEN..] == flat;
    HeaderReadBack(a, padding, a.obligation.deposits, a.obligation.borrows);
    ListsRoundTrip(a.obligation, buf[HEADER_LEN..]);
  }

  lemma ListsRewrite(flat: seq<u8>, d: nat, b: nat)
    requires |flat| == FLAT_LEN && ListsFit(d, b)
    ensures var ds, bs := GetDeposits(flat, d), GetLoans(flat, DEPOSIT_LEN * d, b);
      && PutLoans(PutDeposits(flat, ds), DEPOSIT_LEN * d, bs) == flat
      && (forall i :: 0 <= i < d ==> DepositFits(ds[i])) && (forall i :: 0 <= i < b ==> LoanFits(bs[i]))
  {
    hide PutDeposits, PutLoans, GetDeposits, GetLoans;
    DepositsRewrite(flat, d);
    LoansRewrite(flat, DEPOSIT_LEN * d, b);
  }

  lemma HeaderWriteBack(h: seq<seq<u8>>, stale: bool, isolated: bool, ds: seq<Collateral>, bs: seq<Loan>)
    requires HasLengths(h, HEADER) && UnpackBool(h[2]) == Ok(stale) && UnpackBool(h[10]) == Ok(isolated)
    requires |ds| == h[13][0] && |bs| == h[14][0]
    ensures var a := AccountFrom(h, stale, isolated, ds, bs);
      && HeaderPieces(a, h[12]) == h
      && a.obligation.depositedValue < U128 && a.obligation.borrowedValue < U128
      && a.obligation.borrowedValueUpperBound < U128 && a.obligation.allowedBorrowValue < U128
      && a.obligation.unhealthyBorrowValue < U128 && a.obligation.superUnhealthyBorrowValue < U128
  {
    hide Sum, Flatten, LittleEndian, BigEndian, U64At, DecimalAt, PubkeyAt;
    OneByte(h[0][0]);
    OneByte(|ds|);
    OneByte(|bs|);
    FieldsWrite(h[1], h[5], h[3]);
    FieldsWrite(h[1], h[6], h[4]);
    FieldsWrite(h[1], h[7], h[3]);
    FieldsWrite(h[1], h[8], h[3]);
    FieldsWrite(h[1], h[9], h[3]);
    FieldsWrite(h[1], h[11], h[3]);
    assert h[0] == [h[0][0]] && h[13] == [h[13][0]] && h[14] == [h[14][0]];
    assert h[2] == PackBool(stale) && h[10] == PackBool(isolated);
  }

  /** Packing undoes unpacking: an account read from a buffer packs back into the same bytes. */
  lemma PackUnpack(buf: seq<u8>)
    requires |buf| == OBLIGATION_LEN && Unpack(buf).Ok?
    ensures var a := Unpack(buf).value; Packable(a.obligation) && a.version <= PROGRAM_VERSION && Pack(a, buf) == buf
  {
    hide Sum, Flatten, Split, HeaderPieces, GetDeposits, GetLoans, PutLoans, PutDeposits, UnpackBool,
         U64At, DecimalAt, PubkeyAt;
    Sums();
    var h, flat := Split(buf[..HEADER_LEN], HEADER), buf[HEADER_LEN..];
    var d, b := h[13][0], h[14][0];
    var ds, bs := GetDeposits(flat, d), GetLoans(flat, DEPOSIT_LEN * d, b);
    ListsRewrite(flat, d, b);
    HeaderWriteBack(h, UnpackBool(h[2]).value, UnpackBool(h[10]).value, ds, bs);
    FlattenSplit(buf[..HEADER_LEN], HEADER);
    assert buf[..HEADER_LEN] + flat == buf;
  }

  /** The shared bytes hold any mix of at most ten entries as long as a borrow is not all ten of them. */
  lemma FitsIffNineBorrows(deposits: nat, borrows: nat)
    requires deposits + borrows <= MAX_OBLIGATION_RESERVES
    ensures ListsFit(deposits, borrows) <==> borrows < MAX_OBLIGATION_RESERVES
  {
  }

  /** Every obligation of a reachable state survives being packed and unpacked. */
  lemma ReachableRoundTrip(w: World, id: nat, a: Account, buf: seq<u8>)
    requires Safe(w) && id < |w.obligations| && a.obligation == w.obligations[id]
    requires |buf| == OBLIGATION_LEN && a.version <= PROGRAM_VERSION
    ensures Packable(a.obligation) && Unpack(Pack(a, buf)) == Ok(a)
  {
    var o := w.obligations[id];
    assert ListsOk(o) && ObligationFits(o) by { hide ReserveOk, TotalDeposited, LoansOk, LoansFresh; }
    hide Safe, ObligationFits, Pack, Unpack;
    FitsIffNineBorrows(|o.deposits|, |o.borrows|);
    UnpackPack(a, buf);
  }
}
