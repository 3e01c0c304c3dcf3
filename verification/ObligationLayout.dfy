/** Where everything lies in an obligation's 1300 bytes (token-lending/sdk/src/state/obligation.rs).

    Stated of reading; since reading undoes writing, it says as much of writing. */
module ObligationLayout {
  import opened Results
  import opened FixedPoint
  import opened Reserves
  import opened Obligations
  import opened Bytes
  import opened ObligationCodec

  lemma {:induction false} PieceAt(buf: seq<u8>, lens: seq<nat>, k: nat)
    requires |buf| == Sum(lens) && k < |lens|
    ensures Sum(lens[..k]) + lens[k] <= |buf|
    ensures Split(buf, lens)[k] == buf[Sum(lens[..k])..Sum(lens[..k]) + lens[k]]
  {
    if k > 0 {
      PieceAt(buf[lens[0]..], lens[1..], k - 1);
      assert lens[..k][1..] == lens[1..][..k - 1];
    }
  }

  lemma SumNext(lens: seq<nat>, k: nat, at: nat)
    requires k < |lens| && Sum(lens[..k]) == at
    ensures Sum(lens[..k + 1]) == at + lens[k]
  {
    assert lens[..k + 1] == lens[..k] + [lens[k]];
    hide Sum;
    SumJoin(lens[..k], [lens[k]]);
    SumOfOne(lens[k]);
  }

  lemma EarlyOffsets()
    ensures Sum(HEADER[..0]) == 0 && Sum(HEADER[..1]) == 1 && Sum(HEADER[..2]) == 9 && Sum(HEADER[..3]) == 10
    ensures Sum(HEADER[..4]) == 42 && Sum(HEADER[..5]) == 74 && Sum(HEADER[..6]) == 90 && Sum(HEADER[..7]) == 106
  {
    assert HEADER[..0] == [];
    assert Sum(HEADER[..0]) == 0;
    hide Sum;
    SumNext(HEADER, 0, 0);
    SumNext(HEADER, 1, 1);
    SumNext(HEADER, 2, 9);
    SumNext(HEADER, 3, 10);
    SumNext(HEADER, 4, 42);
    SumNext(HEADER, 5, 74);
    SumNext(HEADER, 6, 90);
  }

  lemma LateOffsets()
    ensures Sum(HEADER[..8]) == 122 && Sum(HEADER[..9]) == 138 && Sum(HEADER[..10]) == 154 && Sum(HEADER[..11]) == 155
    ensures Sum(HEADER[..13]) == 202 && Sum(HEADER[..14]) == 203
  {
    hide Sum;
    EarlyOffsets();
    SumNext(HEADER, 7, 106);
    SumNext(HEADER, 8, 122);
    SumNext(HEADER, 9, 138);
    SumNext(HEADER, 10, 154);
    SumNext(HEADER, 11, 155);
    SumNext(HEADER, 12, 171);
    SumNext(HEADER, 13, 202);
  }

  /** The k-th piece of the header, in the whole buffer. */
  lemma HeaderPiece(buf: seq<u8>, k: nat, at: nat)
    requires |buf| == OBLIGATION_LEN && k < |HEADER| && Sum(HEADER[..k]) == at
    ensures Sum(HEADER) == HEADER_LEN && at + HEADER[k] <= HEADER_LEN
    ensures Split(buf[..HEADER_LEN], HEADER)[k] == buf[at..at + HEADER[k]]
  {
    hide Sum, Split;
    HeaderSum();
    PieceAt(buf[..HEADER_LEN], HEADER, k);
    assert buf[..HEADER_LEN][at..at + HEADER[k]] == buf[at..at + HEADER[k]];
  }

  lemma HeaderStart(buf: seq<u8>)
    requires |buf| == OBLIGATION_LEN
    ensures Sum(HEADER) == HEADER_LEN
    ensures var h := Split(buf[..HEADER_LEN], HEADER);
      h[0] == buf[0..1] && h[1] == buf[1..9] && h[2] == buf[9..10] && h[3] == buf[10..42] && h[4] == buf[42..74]
  {
    hide Sum, Split;
    HeaderSum();
    EarlyOffsets();
    HeaderPiece(buf, 0, 0);
    HeaderPiece(buf, 1, 1);
    HeaderPiece(buf, 2, 9);
    HeaderPiece(buf, 3, 10);
    HeaderPiece(buf, 4, 42);
  }

  lemma HeaderValues(buf: seq<u8>)
    requires |buf| == OBLIGATION_LEN
    ensures Sum(HEADER) == HEADER_LEN
    ensures var h := Split(buf[..HEADER_LEN], HEADER);
      && h[5] == buf[74..90] && h[6] == buf[90..106] && h[7] == buf[106..122] && h[8] == buf[122..138]
      && h[9] == buf[138..154] && h[10] == buf[154..155] && h[11] == buf[155..171]
  {
    hide Sum, Split;
    HeaderSum();
    EarlyOffsets();
    LateOffsets();
    HeaderPiece(buf, 5, 74);
    HeaderPiece(buf, 6, 90);
    HeaderPiece(buf, 7, 106);
    HeaderPiece(buf, 8, 122);
    HeaderPiece(buf, 9, 138);
    HeaderPiece(buf, 10, 154);
    HeaderPiece(buf, 11, 155);
  }

  lemma HeaderCounts(buf: seq<u8>)
    requires |buf| == OBLIGATION_LEN
    ensures Sum(HEADER) == HEADER_LEN
    ensures var h := Split(buf[..HEADER_LEN], HEADER); h[13] == buf[202..203] && h[14] == buf[203..204]
  {
    hide Sum, Split;
    HeaderSum();
    LateOffsets();
    HeaderPiece(buf, 13, 202);
    HeaderPiece(buf, 14, 203);
  }

  lemma StartLayout(buf: seq<u8>, a: Account)
    requires |buf| == OBLIGATION_LEN && Unpack(buf) == Ok(a)
    ensures a.version == buf[0] && a.obligation.lastUpdate.slot == FromLittleEndian(buf[1..9])
    ensures buf[9] == (if a.obligation.lastUpdate.stale then 1 else 0)
    ensures a.market == FromBigEndian(buf[10..42]) && a.owner == FromBigEndian(buf[42..74])
  {
    hide Sum, Split, FromLittleEndian, FromBigEndian, GetDeposits, GetLoans, DecimalAt;
    HeaderStart(buf);
  }

  lemma ValuesLayout(buf: seq<u8>, a: Account)
    requires |buf| == OBLIGATION_LEN && Unpack(buf) == Ok(a)
    ensures a.obligation.depositedValue == FromLittleEndian(buf[74..90])
    ensures a.obligation.borrowedValue == FromLittleEndian(buf[90..106])
    ensures a.obligation.allowedBorrowValue == FromLittleEndian(buf[106..122])
    ensures a.obligation.unhealthyBorrowValue == FromLittleEndian(buf[122..138])
    ensures a.obligation.borrowedValueUpperBound == FromLittleEndian(buf[138..154])
    ensures buf[154] == (if a.obligation.borrowingIsolatedAsset then 1 else 0)
    ensures a.obligation.superUnhealthyBorrowValue == FromLittleEndian(buf[155..171])
  {
    hide Sum, Split, FromLittleEndian, FromBigEndian, GetDeposits, GetLoans, U64At, PubkeyAt;
    HeaderValues(buf);
  }

  lemma CountsLayout(buf: seq<u8>, a: Account)
    requires |buf| == OBLIGATION_LEN && Unpack(buf) == Ok(a)
    ensures |a.obligation.deposits| == buf[202] && |a.obligation.borrows| == buf[203]
  {
    hide Sum, Split, GetDeposits, GetLoans, U64At, DecimalAt, PubkeyAt, UnpackBool;
    HeaderCounts(buf);
  }

  /** The fixed fields of an account, byte by byte. */
  lemma HeaderLayout(buf: seq<u8>, a: Account)
    requires |buf| == OBLIGATION_LEN && Unpack(buf) == Ok(a)
    ensures a.version == buf[0] && a.obligation.lastUpdate.slot == FromLittleEndian(buf[1..9])
    ensures buf[9] == (if a.obligation.lastUpdate.stale then 1 else 0)
    ensures a.market == FromBigEndian(buf[10..42]) && a.owner == FromBigEndian(buf[42..74])
    ensures a.obligation.depositedValue == FromLittleEndian(buf[74..90])
    ensures a.obligation.borrowedValue == FromLittleEndian(buf[90..106])
    ensures a.obligation.allowedBorrowValue == FromLittleEndian(buf[106..122])
    ensures a.obligation.unhealthyBorrowValue == FromLittleEndian(buf[122..138])
    ensures a.obligation.borrowedValueUpperBound == FromLittleEndian(buf[138..154])
    ensures buf[154] == (if a.obligation.borrowingIsolatedAsset then 1 else 0)
    ensures a.obligation.superUnhealthyBorrowValue == FromLittleEndian(buf[155..171])
    ensures |a.obligation.deposits| == buf[202] && |a.obligation.borrows| == buf[203]
  {
    hide Unpack, FromLittleEndian, FromBigEndian;
    StartLayout(buf, a);
    ValuesLayout(buf, a);
    CountsLayout(buf, a);
  }

  // ----- the entries

  lemma {:induction false} DepositRead(flat: seq<u8>, n: nat, i: nat)
    requires |flat| == FLAT_LEN && DEPOSIT_LEN * n <= FLAT_LEN && i < n
    ensures DEPOSIT_LEN * i + DEPOSIT_LEN <= FLAT_LEN
    ensures GetDeposits(flat, n)[i] == ReadDeposit(flat[DEPOSIT_LEN * i..DEPOSIT_LEN * i + DEPOSIT_LEN])
  {
    hide ReadDeposit;
    if i < n - 1 { DepositRead(flat, n - 1, i); }
  }

  lemma {:induction false} LoanRead(flat: seq<u8>, start: nat, n: nat, i: nat)
    requires |flat| == FLAT_LEN && start + LOAN_LEN * n <= FLAT_LEN && i < n
    ensures start + LOAN_LEN * i + LOAN_LEN <= FLAT_LEN
    ensures GetLoans(flat, start, n)[i] == ReadLoan(flat[start + LOAN_LEN * i..start + LOAN_LEN * i + LOAN_LEN])
  {
    hide ReadLoan;
    if i < n - 1 { LoanRead(flat, start, n - 1, i); }
  }

  lemma EntryOffsets()
    ensures Sum(DEPOSIT[..0]) == 0 && Sum(DEPOSIT[..1]) == 32 && Sum(DEPOSIT[..2]) == 40
    ensures Sum(LOAN[..0]) == 0 && Sum(LOAN[..1]) == 32 && Sum(LOAN[..2]) == 48 && Sum(LOAN[..3]) == 64
  {
    assert DEPOSIT[..0] == [] && LOAN[..0] == [];
    assert Sum(DEPOSIT[..0]) == 0 && Sum(LOAN[..0]) == 0;
    hide Sum;
    SumNext(DEPOSIT, 0, 0);
    SumNext(DEPOSIT, 1, 32);
    SumNext(LOAN, 0, 0);
    SumNext(LOAN, 1, 32);
    SumNext(LOAN, 2, 48);
  }

  lemma DepositFields(s: seq<u8>)
    requires |s| == DEPOSIT_LEN
    ensures ReadDeposit(s).reserve == FromBigEndian(s[0..32])
    ensures ReadDeposit(s).deposited == FromLittleEndian(s[32..40])
    ensures ReadDeposit(s).marketValue == FromLittleEndian(s[40..56])
  {
    hide Sum, Split, FromLittleEndian, FromBigEndian;
    Sums();
    EntryOffsets();
    PieceAt(s, DEPOSIT, 0);
    PieceAt(s, DEPOSIT, 1);
    PieceAt(s, DEPOSIT, 2);
  }

  lemma LoanFields(s: seq<u8>)
    requires |s| == LOAN_LEN
    ensures ReadLoan(s).reserve == FromBigEndian(s[0..32])
    ensures ReadLoan(s).cumulativeRate == FromLittleEndian(s[32..48])
    ensures ReadLoan(s).borrowed == FromLittleEndian(s[48..64])
    ensures ReadLoan(s).marketValue == FromLittleEndian(s[64..80])
  {
    hide Sum, Split, FromLittleEndian, FromBigEndian;
    Sums();
    EntryOffsets();
    PieceAt(s, LOAN, 0);
    PieceAt(s, LOAN, 1);
    PieceAt(s, LOAN, 2);
    PieceAt(s, LOAN, 3);
  }

  lemma ListsRead(buf: seq<u8>, a: Account)
    requires |buf| == OBLIGATION_LEN && Unpack(buf) == Ok(a)
    ensures ListsFit(|a.obligation.deposits|, |a.obligation.borrows|)
    ensures a.obligation.deposits == GetDeposits(buf[HEADER_LEN..], |a.obligation.deposits|)
    ensures a.obligation.borrows
              == GetLoans(buf[HEADER_LEN..], DEPOSIT_LEN * |a.obligation.deposits|, |a.obligation.borrows|)
  {
    hide Sum, Split, GetDeposits, GetLoans, U64At, DecimalAt, PubkeyAt, UnpackBool;
    HeaderSum();
  }

  lemma SliceOfSlice(buf: seq<u8>, at: nat, n: nat, from: nat, to: nat)
    requires from <= to <= n && at + n <= |buf|
    ensures buf[at..at + n][from..to] == buf[at + from..at + to]
  {
    var s, t := buf[at..at + n][from..to], buf[at + from..at + to];
    forall k | 0 <= k < |t|
      ensures s[k] == t[k]
    {
    }
  }

  /** The i-th deposit lies 88·i bytes behind the header. */
  lemma DepositLayout(buf: seq<u8>, a: Account, i: nat)
    requires |buf| == OBLIGATION_LEN && Unpack(buf) == Ok(a) && i < |a.obligation.deposits|
    ensures var at, c := 204 + 88 * i, a.obligation.deposits[i];
      && at + 88 <= |buf|
      && c.reserve == FromBigEndian(buf[at..at + 32])
      && c.deposited == FromLittleEndian(buf[at + 32..at + 40])
      && c.marketValue == FromLittleEndian(buf[at + 40..at + 56])
  {
    hide Unpack, ReadDeposit, GetDeposits, GetLoans, FromLittleEndian, FromBigEndian;
    ListsRead(buf, a);
    var at := 204 + 88 * i;
    assert buf[HEADER_LEN..] == buf[HEADER_LEN..HEADER_LEN + FLAT_LEN];
    DepositRead(buf[HEADER_LEN..], |a.obligation.deposits|, i);
    var s := buf[at..at + 88];
    SliceOfSlice(buf, HEADER_LEN, FLAT_LEN, DEPOSIT_LEN * i, DEPOSIT_LEN * i + DEPOSIT_LEN);
    DepositFields(s);
    SliceOfSlice(buf, at, 88, 0, 32);
    SliceOfSlice(buf, at, 88, 32, 40);
    SliceOfSlice(buf, at, 88, 40, 56);
  }

  /** The i-th borrow lies 112·i bytes behind the last deposit. */
  lemma LoanLayout(buf: seq<u8>, a: Account, i: nat)
    requires |buf| == OBLIGATION_LEN && Unpack(buf) == Ok(a) && i < |a.obligation.borrows|
    ensures var at, b := 204 + 88 * |a.obligation.deposits| + 112 * i, a.obligation.borrows[i];
      && at + 112 <= |buf|
      && b.reserve == FromBigEndian(buf[at..at + 32])
      && b.cumulativeRate == FromLittleEndian(buf[at + 32..at + 48])
      && b.borrowed == FromLittleEndian(buf[at + 48..at + 64])
      && b.marketValue == FromLittleEndian(buf[at + 64..at + 80])
  {
    hide Unpack, ReadLoan, GetDeposits, GetLoans, FromLittleEndian, FromBigEndian;
    ListsRead(buf, a);
    var d := DEPOSIT_LEN * |a.obligation.deposits|;
    var at := 204 + d + 112 * i;
    assert buf[HEADER_LEN..] == buf[HEADER_LEN..HEADER_LEN + FLAT_LEN];
    LoanRead(buf[HEADER_LEN..], d, |a.obligation.borrows|, i);
    var s := buf[at..at + 112];
    SliceOfSlice(buf, HEADER_LEN, FLAT_LEN, d + LOAN_LEN * i, d + LOAN_LEN * i + LOAN_LEN);
    LoanFields(s);
    SliceOfSlice(buf, at, 112, 0, 32);
    SliceOfSlice(buf, at, 112, 32, 48);
    SliceOfSlice(buf, at, 112, 48, 64);
    SliceOfSlice(buf, at, 112, 64, 80);
  }
}
