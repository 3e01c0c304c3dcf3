/** Packing and unpacking an obligation in place (token-lending/sdk/src/state/obligation.rs): each field
    is written into its piece of the buffer, then each list entry at its offset, and read back the same
    way.  The methods are tied to `ObligationCodec.Pack` and `Unpack`. */
module ObligationBuffers {
  import opened Results
  import opened FixedPoint
  import opened Obligations
  import opened Bytes
  import opened ObligationCodec

  /** `copy_from_slice` */
  method CopyInto(dst: array<u8>, at: nat, bytes: seq<u8>)
    requires at + |bytes| <= dst.Length
    modifies dst
    ensures dst[..] == Splice(old(dst[..]), at, bytes)
  {
    var i := 0;
    while i < |bytes|
      invariant 0 <= i <= |bytes|
      invariant forall k :: 0 <= k < at || at + i <= k < dst.Length ==> dst[k] == old(dst[k])
      invariant forall k :: at <= k < at + i ==> dst[k] == bytes[k - at]
    {
      dst[at + i] := bytes[i];
      i := i + 1;
    }
  }

  /** Assign piece `k` of the part of a buffer that starts at `base` and is cut as `lens` says. */
  method Fill(dst: array<u8>, base: nat, lens: seq<nat>, ghost pieces: seq<seq<u8>>, k: nat, bytes: seq<u8>)
    requires HasLengths(pieces, lens) && k < |lens| && |bytes| == lens[k]
    requires base + Sum(lens) <= dst.Length && dst[base..base + Sum(lens)] == Flatten(pieces)
    modifies dst
    ensures dst[base..base + Sum(lens)] == Flatten(pieces[k := bytes])
    ensures dst[..base] == old(dst[..base]) && dst[base + Sum(lens)..] == old(dst[base + Sum(lens)..])
  {
    hide Sum, Flatten;
    SplicePiece(pieces, lens, k, bytes);
    FlattenLength(pieces, lens);
    ghost var before := dst[..];
    CopyInto(dst, base + Sum(lens[..k]), bytes);
    SpliceWithin(before, base, Sum(lens), Sum(lens[..k]), bytes);
  }

  lemma SpliceWithin(buf: seq<u8>, base: nat, len: nat, at: nat, bytes: seq<u8>)
    requires base + len <= |buf| && at + |bytes| <= len
    ensures var r := Splice(buf, base + at, bytes);
      && r[..base] == buf[..base] && r[base + len..] == buf[base + len..]
      && r[base..base + len] == Splice(buf[base..base + len], at, bytes)
  {
    var r, sub := Splice(buf, base + at, bytes), buf[base..base + len];
    assert r[..base] == buf[..base];
    assert r[base + len..] == buf[base + len..];
    assert r[base..base + at] == sub[..at];
    assert r[base + at..base + at + |bytes|] == bytes;
    assert r[base + at + |bytes|..base + len] == sub[at + |bytes|..];
    assert r[base..base + len] == r[base..base + at] + r[base + at..base + at + |bytes|] + r[base + at + |bytes|..base + len];
  }

  lemma SliceOfRest(buf: seq<u8>, from: nat, at: nat, n: nat)
    requires from + at + n <= |buf|
    ensures buf[from + at..from + at + n] == buf[from..][at..at + n]
  {
  }

  function PackDecimal(d: Decimal): Result<seq<u8>> {
    if d < U128 then Ok(LittleEndian(d, 16)) else Err(Panic)
  }

  method PackDeposit(dst: array<u8>, at: nat, c: Collateral) returns (r: Result<()>)
    requires at + DEPOSIT_LEN <= dst.Length
    modifies dst
    ensures r.Ok? <==> DepositFits(c)
    ensures r.Err? ==> r.error == Panic
    ensures r.Ok? ==> dst[..] == Splice(old(dst[..]), at, DepositBytes(c, old(dst[at..at + DEPOSIT_LEN])))
  {
    hide Sum, Flatten, Split, LittleEndian, BigEndian;
    Sums();
    ghost var before := dst[..];
    ghost var p := Split(dst[at..at + DEPOSIT_LEN], DEPOSIT);
    FlattenSplit(dst[at..at + DEPOSIT_LEN], DEPOSIT);
    DepositSize(c, p[3]);
    Fill(dst, at, DEPOSIT, p, 0, BigEndian(c.reserve, 32));
    ghost var p0 := p[0 := BigEndian(c.reserve, 32)];
    Fill(dst, at, DEPOSIT, p0, 1, LittleEndian(c.deposited, 8));
    ghost var p1 := p0[1 := LittleEndian(c.deposited, 8)];
    var value :- PackDecimal(c.marketValue);
    Fill(dst, at, DEPOSIT, p1, 2, value);
    assert p1[2 := value] == DepositPieces(c, p[3]);
    RegionIsSplice(before, dst[..], at, DepositBytes(c, before[at..at + DEPOSIT_LEN]));
    return Ok(());
  }

  lemma RegionIsSplice(before: seq<u8>, after: seq<u8>, at: nat, bytes: seq<u8>)
    requires |before| == |after| && at + |bytes| <= |before|
    requires after[..at] == before[..at] && after[at + |bytes|..] == before[at + |bytes|..]
    requires after[at..at + |bytes|] == bytes
    ensures after == Splice(before, at, bytes)
  {
    assert after == after[..at] + after[at..at + |bytes|] + after[at + |bytes|..];
  }

  method PackLoan(dst: array<u8>, at: nat, b: Loan) returns (r: Result<()>)
    requires at + LOAN_LEN <= dst.Length
    modifies dst
    ensures r.Ok? <==> LoanFits(b)
    ensures r.Err? ==> r.error == Panic
    ensures r.Ok? ==> dst[..] == Splice(old(dst[..]), at, LoanBytes(b, old(dst[at..at + LOAN_LEN])))
  {
    hide Sum, Flatten, Split, LittleEndian, BigEndian;
    Sums();
    ghost var before := dst[..];
    ghost var p := Split(dst[at..at + LOAN_LEN], LOAN);
    FlattenSplit(dst[at..at + LOAN_LEN], LOAN);
    LoanSize(b, p[4]);
    Fill(dst, at, LOAN, p, 0, BigEndian(b.reserve, 32));
    ghost var p0 := p[0 := BigEndian(b.reserve, 32)];
    var rate :- PackDecimal(b.cumulativeRate);
    Fill(dst, at, LOAN, p0, 1, rate);
    ghost var p1 := p0[1 := rate];
    var borrowed :- PackDecimal(b.borrowed);
    Fill(dst, at, LOAN, p1, 2, borrowed);
    ghost var p2 := p1[2 := borrowed];
    var value :- PackDecimal(b.marketValue);
    Fill(dst, at, LOAN, p2, 3, value);
    assert p2[3 := value] == LoanPieces(b, p[4]);
    RegionIsSplice(before, dst[..], at, LoanBytes(b, before[at..at + LOAN_LEN]));
    return Ok(());
  }

  /** Writing past the header writes at the same place of what follows it. */
  lemma SpliceInFlat(buf: seq<u8>, at: nat, bytes: seq<u8>)
    requires |buf| == OBLIGATION_LEN && at + |bytes| <= FLAT_LEN
    ensures Splice(buf, HEADER_LEN + at, bytes)[HEADER_LEN..] == Splice(buf[HEADER_LEN..], at, bytes)
    ensures Splice(buf, HEADER_LEN + at, bytes)[..HEADER_LEN] == buf[..HEADER_LEN]
  {
  }

  lemma DepositTurn(flat: seq<u8>, ds: seq<Collateral>, i: nat)
    requires |flat| == FLAT_LEN && i < |ds| && DEPOSIT_LEN * (i + 1) <= FLAT_LEN
    ensures var f := PutDeposits(flat, ds[..i]);
      PutDeposits(flat, ds[..i + 1])
        == Splice(f, DEPOSIT_LEN * i, DepositBytes(ds[i], f[DEPOSIT_LEN * i..DEPOSIT_LEN * i + DEPOSIT_LEN]))
  {
    hide DepositBytes, Splice;
    assert ds[..i + 1][..i] == ds[..i];
  }

  lemma LoanTurn(flat: seq<u8>, start: nat, bs: seq<Loan>, i: nat)
    requires |flat| == FLAT_LEN && i < |bs| && start + LOAN_LEN * (i + 1) <= FLAT_LEN
    ensures var f, at := PutLoans(flat, start, bs[..i]), start + LOAN_LEN * i;
      PutLoans(flat, start, bs[..i + 1]) == Splice(f, at, LoanBytes(bs[i], f[at..at + LOAN_LEN]))
  {
    hide LoanBytes, Splice;
    assert bs[..i + 1][..i] == bs[..i];
  }

  /** The deposits, one after the other; an entry past the end of the buffer panics. */
  method PackDeposits(dst: array<u8>, ds: seq<Collateral>) returns (r: Result<nat>)
    requires dst.Length == OBLIGATION_LEN
    modifies dst
    ensures r.Ok? <==> DEPOSIT_LEN * |ds| <= FLAT_LEN && forall i :: 0 <= i < |ds| ==> DepositFits(ds[i])
    ensures r.Err? ==> r.error == Panic
    ensures r.Ok? ==>
      && r.value == DEPOSIT_LEN * |ds| && dst[..HEADER_LEN] == old(dst[..HEADER_LEN])
      && dst[HEADER_LEN..] == PutDeposits(old(dst[HEADER_LEN..]), ds)
  {
    hide DepositBytes, Splice, DepositFits, PutDeposits;
    ghost var flat := dst[HEADER_LEN..];
    NothingPut(flat);
    var offset := 0;
    var i := 0;
    while i < |ds|
      invariant 0 <= i <= |ds| && offset == DEPOSIT_LEN * i <= FLAT_LEN
      invariant forall k :: 0 <= k < i ==> DepositFits(ds[k])
      invariant dst[..HEADER_LEN] == old(dst[..HEADER_LEN])
      invariant dst[HEADER_LEN..] == PutDeposits(flat, ds[..i])
    {
      if offset + DEPOSIT_LEN > FLAT_LEN { return Err(Panic); }
      ghost var before := dst[..];
      var at := HEADER_LEN + offset;
      var _ :- PackDeposit(dst, at, ds[i]);
      SliceOfRest(before, HEADER_LEN, offset, DEPOSIT_LEN);
      SpliceInFlat(before, offset, DepositBytes(ds[i], before[at..at + DEPOSIT_LEN]));
      DepositTurn(flat, ds, i);
      offset := offset + DEPOSIT_LEN;
      i := i + 1;
    }
    assert ds[..i] == ds;
    return Ok(offset);
  }

  lemma NothingPut(flat: seq<u8>)
    requires |flat| == FLAT_LEN
    ensures PutDeposits(flat, []) == flat
    ensures forall start: nat :: start <= FLAT_LEN ==> PutLoans(flat, start, []) == flat
  {
  }

  method PackLoans(dst: array<u8>, start: nat, bs: seq<Loan>) returns (r: Result<()>)
    requires dst.Length == OBLIGATION_LEN && start <= FLAT_LEN
    modifies dst
    ensures r.Ok? <==> start + LOAN_LEN * |bs| <= FLAT_LEN && forall i :: 0 <= i < |bs| ==> LoanFits(bs[i])
    ensures r.Err? ==> r.error == Panic
    ensures r.Ok? ==>
      && dst[..HEADER_LEN] == old(dst[..HEADER_LEN])
      && dst[HEADER_LEN..] == PutLoans(old(dst[HEADER_LEN..]), start, bs)
  {
    hide LoanBytes, Splice, LoanFits, PutLoans;
    ghost var flat := dst[HEADER_LEN..];
    NothingPut(flat);
    var offset := start;
    var i := 0;
    while i < |bs|
      invariant 0 <= i <= |bs| && offset == start + LOAN_LEN * i <= FLAT_LEN
      invariant forall k :: 0 <= k < i ==> LoanFits(bs[k])
      invariant dst[..HEADER_LEN] == old(dst[..HEADER_LEN])
      invariant dst[HEADER_LEN..] == PutLoans(flat, start, bs[..i])
    {
      if offset + LOAN_LEN > FLAT_LEN { return Err(Panic); }
      ghost var before := dst[..];
      var at := HEADER_LEN + offset;
      var _ :- PackLoan(dst, at, bs[i]);
      SliceOfRest(before, HEADER_LEN, offset, LOAN_LEN);
      SpliceInFlat(before, offset, LoanBytes(bs[i], before[at..at + LOAN_LEN]));
      LoanTurn(flat, start, bs, i);
      offset := offset + LOAN_LEN;
      i := i + 1;
    }
    assert bs[..i] == bs;
    return Ok(());
  }

  predicate LimitsFit(o: Obligation) {
    && o.depositedValue < U128 && o.borrowedValue < U128 && o.borrowedValueUpperBound < U128
    && o.allowedBorrowValue < U128 && o.unhealthyBorrowValue < U128 && o.superUnhealthyBorrowValue < U128
  }

  predicate HeaderFits(o: Obligation) { LimitsFit(o) && |o.deposits| < 256 && |o.borrows| < 256 }

  /** Where the header stands: its pieces are `pieces`, and the rest of the buffer is untouched. */
  ghost predicate HeaderIs(buf: seq<u8>, pieces: seq<seq<u8>>, rest: seq<u8>) {
    && |buf| == OBLIGATION_LEN && HasLengths(pieces, HEADER)
    && buf[..HEADER_LEN] == Flatten(pieces) && buf[HEADER_LEN..] == rest
  }

  method FillHeader(dst: array<u8>, ghost pieces: seq<seq<u8>>, ghost rest: seq<u8>, k: nat, bytes: seq<u8>)
    returns (ghost filled: seq<seq<u8>>)
    requires HeaderIs(dst[..], pieces, rest) && k < |HEADER| && |bytes| == HEADER[k]
    modifies dst
    ensures HeaderIs(dst[..], filled, rest) && filled == pieces[k := bytes]
  {
    hide Sum, Flatten;
    HeaderSum();
    assert dst[0..HEADER_LEN] == dst[..HEADER_LEN];
    Fill(dst, 0, HEADER, pieces, k, bytes);
    filled := pieces[k := bytes];
  }

  /** The values, then the thresholds with the tier flag. */
  method PackValues(dst: array<u8>, o: Obligation, ghost pieces: seq<seq<u8>>, ghost rest: seq<u8>)
    returns (r: Result<()>, ghost filled: seq<seq<u8>>)
    requires HeaderIs(dst[..], pieces, rest)
    modifies dst
    ensures r.Ok? <==> o.depositedValue < U128 && o.borrowedValue < U128 && o.borrowedValueUpperBound < U128
    ensures r.Err? ==> r.error == Panic
    ensures r.Ok? ==>
      && HeaderIs(dst[..], filled, rest)
      && |pieces| == 15
      && filled == pieces[5 := LittleEndian(o.depositedValue, 16)][6 := LittleEndian(o.borrowedValue, 16)]
           [9 := LittleEndian(o.borrowedValueUpperBound, 16)]
  {
    hide Flatten, LittleEndian;
    assert |pieces| == 15;
    hide HeaderIs;
    filled := pieces;
    var depositedValue :- PackDecimal(o.depositedValue);
    filled := FillHeader(dst, filled, rest, 5, depositedValue);
    var borrowedValue :- PackDecimal(o.borrowedValue);
    filled := FillHeader(dst, filled, rest, 6, borrowedValue);
    var upperBound :- PackDecimal(o.borrowedValueUpperBound);
    filled := FillHeader(dst, filled, rest, 9, upperBound);
    return Ok(()), filled;
  }

  method PackThresholds(dst: array<u8>, o: Obligation, ghost pieces: seq<seq<u8>>, ghost rest: seq<u8>)
    returns (r: Result<()>, ghost filled: seq<seq<u8>>)
    requires HeaderIs(dst[..], pieces, rest)
    modifies dst
    ensures r.Ok? <==>
      o.allowedBorrowValue < U128 && o.unhealthyBorrowValue < U128 && o.superUnhealthyBorrowValue < U128
    ensures r.Err? ==> r.error == Panic
    ensures r.Ok? ==>
      && HeaderIs(dst[..], filled, rest)
      && |pieces| == 15
      && filled == pieces[7 := LittleEndian(o.allowedBorrowValue, 16)][8 := LittleEndian(o.unhealthyBorrowValue, 16)]
           [10 := PackBool(o.borrowingIsolatedAsset)][11 := LittleEndian(o.superUnhealthyBorrowValue, 16)]
  {
    hide Flatten, LittleEndian;
    assert |pieces| == 15;
    hide HeaderIs, PackBool;
    filled := pieces;
    var allowed :- PackDecimal(o.allowedBorrowValue);
    filled := FillHeader(dst, filled, rest, 7, allowed);
    var unhealthy :- PackDecimal(o.unhealthyBorrowValue);
    filled := FillHeader(dst, filled, rest, 8, unhealthy);
    filled := FillHeader(dst, filled, rest, 10, PackBool(o.borrowingIsolatedAsset));
    var superUnhealthy :- PackDecimal(o.superUnhealthyBorrowValue);
    filled := FillHeader(dst, filled, rest, 11, superUnhealthy);
    return Ok(()), filled;
  }

  /** The six limits and the tier flag. */
  method PackLimits(dst: array<u8>, o: Obligation, ghost pieces: seq<seq<u8>>, ghost rest: seq<u8>)
    returns (r: Result<()>, ghost filled: seq<seq<u8>>)
    requires HeaderIs(dst[..], pieces, rest)
    modifies dst
    ensures r.Ok? <==> LimitsFit(o)
    ensures r.Err? ==> r.error == Panic
    ensures r.Ok? ==>
      && HeaderIs(dst[..], filled, rest)
      && |pieces| == 15
      && filled == pieces[5 := LittleEndian(o.depositedValue, 16)][6 := LittleEndian(o.borrowedValue, 16)]
           [9 := LittleEndian(o.borrowedValueUpperBound, 16)][7 := LittleEndian(o.allowedBorrowValue, 16)]
           [8 := LittleEndian(o.unhealthyBorrowValue, 16)][10 := PackBool(o.borrowingIsolatedAsset)]
           [11 := LittleEndian(o.superUnhealthyBorrowValue, 16)]
  {
    hide HeaderIs, LittleEndian, PackBool;
    r, filled := PackValues(dst, o, pieces, rest);
    if r.Err? { return r, filled; }
    r, filled := PackThresholds(dst, o, filled, rest);
  }

  method PackHeader(dst: array<u8>, a: Account) returns (r: Result<()>)
    requires dst.Length == OBLIGATION_LEN
    modifies dst
    ensures Sum(HEADER) == HEADER_LEN
    ensures r.Ok? <==> HeaderFits(a.obligation)
    ensures r.Err? ==> r.error == Panic
    ensures r.Ok? ==>
      HeaderIs(dst[..], HeaderPieces(a, Split(old(dst[..HEADER_LEN]), HEADER)[12]), old(dst[HEADER_LEN..]))
  {
    hide Sum, Flatten, Split, LittleEndian, BigEndian, HeaderIs;
    var o := a.obligation;
    ghost var p, rest := StartHeader(dst[..]);
    p := FillHeader(dst, p, rest, 0, LittleEndian(a.version, 1));
    p := FillHeader(dst, p, rest, 1, LittleEndian(o.lastUpdate.slot, 8));
    p := FillHeader(dst, p, rest, 2, PackBool(o.lastUpdate.stale));
    p := FillHeader(dst, p, rest, 3, BigEndian(a.market, 32));
    p := FillHeader(dst, p, rest, 4, BigEndian(a.owner, 32));
    var limits: Result<()>;
    limits, p := PackLimits(dst, o, p, rest);
    if limits.Err? { return limits; }
    if |o.deposits| > 255 { return Err(Panic); }
    p := FillHeader(dst, p, rest, 13, LittleEndian(|o.deposits|, 1));
    if |o.borrows| > 255 { return Err(Panic); }
    p := FillHeader(dst, p, rest, 14, LittleEndian(|o.borrows|, 1));
    assert p == HeaderPieces(a, p[12]);
    return Ok(());
  }

  lemma StartHeader(buf: seq<u8>) returns (pieces: seq<seq<u8>>, rest: seq<u8>)
    requires |buf| == OBLIGATION_LEN
    ensures Sum(HEADER) == HEADER_LEN && pieces == Split(buf[..HEADER_LEN], HEADER) && rest == buf[HEADER_LEN..]
    ensures HeaderIs(buf, pieces, rest)
  {
    HeaderSum();
    pieces, rest := Split(buf[..HEADER_LEN], HEADER), buf[HEADER_LEN..];
    FlattenSplit(buf[..HEADER_LEN], HEADER);
  }

  /** `pack_into_slice`: succeeds exactly on accounts that pack, and then leaves their bytes; the
      padding is as it was. */
  method PackIntoSlice(dst: array<u8>, a: Account) returns (r: Result<()>)
    requires dst.Length == OBLIGATION_LEN
    modifies dst
    ensures r.Ok? <==> Packable(a.obligation)
    ensures r.Err? ==> r.error == Panic
    ensures r.Ok? ==> dst[..] == Pack(a, old(dst[..]))
  {
    hide Sum, Flatten, Split, HeaderPieces, PutDeposits, PutLoans;
    var o := a.obligation;
    PackableMeans(o);
    ghost var before := dst[..];
    assert before[..HEADER_LEN] == dst[..HEADER_LEN] && before[HEADER_LEN..] == dst[HEADER_LEN..];
    var _ :- PackHeader(dst, a);
    ghost var header := dst[..HEADER_LEN];
    assert header == Flatten(HeaderPieces(a, Split(before[..HEADER_LEN], HEADER)[12]));
    hide HeaderIs, Packable, ListsFit;
    var offset :- PackDeposits(dst, o.deposits);
    var _ :- PackLoans(dst, offset, o.borrows);
    assert dst[..] == dst[..HEADER_LEN] + dst[HEADER_LEN..];
    return Ok(());
  }

  lemma PackableMeans(o: Obligation)
    ensures Packable(o) <==>
      && HeaderFits(o) && (forall i :: 0 <= i < |o.deposits| ==> DepositFits(o.deposits[i]))
      && (forall i :: 0 <= i < |o.borrows| ==> LoanFits(o.borrows[i]))
      && DEPOSIT_LEN * |o.deposits| + LOAN_LEN * |o.borrows| <= FLAT_LEN
  {
  }

  /** `unpack_from_slice`: the version, then `deposits_len` and `borrows_len` entries pushed one by one. */
  method UnpackFromSlice(src: array<u8>) returns (r: Result<Account>)
    requires src.Length == OBLIGATION_LEN
    ensures r == Unpack(src[..])
  {
    hide Sum, Split, ReadDeposit, ReadLoan, GetDeposits, GetLoans, AccountFrom, UnpackBool, ListsFit;
    HeaderSum();
    var h := Split(src[..HEADER_LEN], HEADER);
    assert src[..HEADER_LEN] == src[..][..HEADER_LEN] && src[HEADER_LEN..] == src[..][HEADER_LEN..];
    if h[0][0] > PROGRAM_VERSION { return Err(InvalidAccountData); }
    var lists := UnpackLists(src, h[13][0], h[14][0]);
    if lists.Err? { return Err(lists.error); }
    var stale :- UnpackBool(h[2]);
    var isolated :- UnpackBool(h[10]);
    return Ok(AccountFrom(h, stale, isolated, lists.value.0, lists.value.1));
  }

  method UnpackLists(src: array<u8>, depositsLen: u8, borrowsLen: u8) returns (r: Result<(seq<Collateral>, seq<Loan>)>)
    requires src.Length == OBLIGATION_LEN
    ensures if ListsFit(depositsLen, borrowsLen)
            then r == Ok((GetDeposits(src[HEADER_LEN..], depositsLen),
                          GetLoans(src[HEADER_LEN..], DEPOSIT_LEN * depositsLen, borrowsLen)))
            else r == Err(Panic)
  {
    hide ReadDeposit, ReadLoan;
    var flat := src[HEADER_LEN..];
    var deposits: seq<Collateral>, borrows: seq<Loan> := [], [];
    var offset := 0;
    while |deposits| < depositsLen
      invariant |deposits| <= depositsLen && offset == DEPOSIT_LEN * |deposits| <= FLAT_LEN
      invariant deposits == GetDeposits(flat, |deposits|)
    {
      if offset + DEPOSIT_LEN > FLAT_LEN { return Err(Panic); }
      deposits := deposits + [ReadDeposit(flat[offset..offset + DEPOSIT_LEN])];
      offset := offset + DEPOSIT_LEN;
    }
    while |borrows| < borrowsLen
      invariant |borrows| <= borrowsLen && offset == DEPOSIT_LEN * depositsLen + LOAN_LEN * |borrows| <= FLAT_LEN
      invariant borrows == GetLoans(flat, DEPOSIT_LEN * depositsLen, |borrows|)
    {
      if offset + LOAN_LEN > FLAT_LEN { return Err(Panic); }
      borrows := borrows + [ReadLoan(flat[offset..offset + LOAN_LEN])];
      offset := offset + LOAN_LEN;
    }
    return Ok((deposits, borrows));
  }
}
