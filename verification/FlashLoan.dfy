/** Flash loans (token-lending/program/src/processor.rs, `_flash_borrow_reserve_liquidity` and
    `_flash_repay_reserve_liquidity`): what the two instructions check about the transaction they are
    part of, and what that means for every transaction that succeeds. */
module FlashLoans {
  import opened Results
  import opened FixedPoint
  import opened Reserves
  import opened Valuation
  import opened Obligations
  import opened Lending
  import opened LendingSafety
  import opened Untouched
  import opened LendingRuns

  /** A top-level instruction of a transaction: one of another program, which may call this program any
      number of times; one of this program; or one of this program that does not decode. */
  datatype TxInstruction = Foreign(calls: seq<Instruction>) | Own(ix: Instruction) | Garbled

  type Transaction = seq<TxInstruction>

  predicate IsFlash(t: TxInstruction) { t.Own? && (t.ix.FlashBorrow? || t.ix.FlashRepay?) }

  // ----- the checks

  /** The rest of the scan, from instruction `i` on. */
  function Scan(tx: Transaction, current: nat, key: Pubkey, amount: u64, i: nat, found: bool): Result<()>
    decreases |tx| - i
  {
    if i >= |tx| then Guard(found, NoFlashRepayFound)
    else
      match tx[i]
      case Foreign(_) => Scan(tx, current, key, amount, i + 1, found)
      case Garbled => Err(InstructionUnpackError)
      case Own(ix) =>
        match ix
        case FlashRepay(k, a, borrowIndex) =>
          if found then Err(MultipleFlashBorrows)
          else if k != key || a != amount || borrowIndex != current then Err(InvalidFlashRepay)
          else Scan(tx, current, key, amount, i + 1, true)
        case FlashBorrow(_, _) => Err(MultipleFlashBorrows)
        case _ => Scan(tx, current, key, amount, i + 1, found)
  }

  /** The scan of the instructions after a flash borrow, with its index and its flag. */
  method FindRepay(tx: Transaction, current: nat, key: Pubkey, amount: u64) returns (r: Result<()>)
    ensures r == Scan(tx, current, key, amount, current + 1, false)
  {
    var i := current;
    var found := false;
    while true
      invariant current <= i && (i <= current || i <= |tx|)
      invariant Scan(tx, current, key, amount, current + 1, false) == Scan(tx, current, key, amount, i + 1, found)
      decreases |tx| - i
    {
      i := i + 1;
      if i >= |tx| { break; }
      match tx[i]
      case Foreign(_) =>
      case Garbled => return Err(InstructionUnpackError);
      case Own(ix) =>
        match ix
        case FlashRepay(k, a, borrowIndex) =>
          if found { return Err(MultipleFlashBorrows); }
          if k != key { return Err(InvalidFlashRepay); }
          if a != amount { return Err(InvalidFlashRepay); }
          if borrowIndex != current { return Err(InvalidFlashRepay); }
          found := true;
        case FlashBorrow(_, _) => return Err(MultipleFlashBorrows);
        case _ =>
    }
    if !found { return Err(NoFlashRepayFound); }
    return Ok(());
  }

  /** Instruction `j` is the one flash instruction from `i` on, and repays the borrow at `current`. */
  predicate OnlyRepay(tx: Transaction, current: nat, key: Pubkey, amount: u64, i: nat, j: nat) {
    && i <= j < |tx| && current < 256 && tx[j] == Own(FlashRepay(key, amount, current))
    && forall k :: i <= k < |tx| && k != j ==> !IsFlash(tx[k])
  }

  ghost predicate RepayFollows(tx: Transaction, current: nat, key: Pubkey, amount: u64, i: nat) {
    exists j :: OnlyRepay(tx, current, key, amount, i, j)
  }

  predicate NoneGarbled(tx: Transaction, i: nat) { forall k :: i <= k < |tx| ==> !tx[k].Garbled? }

  predicate NoFlash(tx: Transaction, i: nat) { forall k :: i <= k < |tx| ==> !IsFlash(tx[k]) }

  lemma {:induction false} ScanFound(tx: Transaction, current: nat, key: Pubkey, amount: u64, i: nat)
    ensures Scan(tx, current, key, amount, i, true).Ok? <==> NoFlash(tx, i) && NoneGarbled(tx, i)
    decreases |tx| - i
  {
    if i < |tx| {
      ScanFound(tx, current, key, amount, i + 1);
      assert NoFlash(tx, i) <==> !IsFlash(tx[i]) && NoFlash(tx, i + 1);
      assert NoneGarbled(tx, i) <==> !tx[i].Garbled? && NoneGarbled(tx, i + 1);
    }
  }

  /** The scan accepts exactly the transactions in which one flash instruction follows, and it repays
      this borrow: same reserve, same amount, naming its index. */
  lemma {:induction false} ScanIff(tx: Transaction, current: nat, key: Pubkey, amount: u64, i: nat)
    ensures Scan(tx, current, key, amount, i, false).Ok?
      <==> RepayFollows(tx, current, key, amount, i) && NoneGarbled(tx, i)
    decreases |tx| - i
  {
    hide RepayFollows;
    if i < |tx| {
      ScanIff(tx, current, key, amount, i + 1);
      ScanFound(tx, current, key, amount, i + 1);
      assert NoneGarbled(tx, i) <==> !tx[i].Garbled? && NoneGarbled(tx, i + 1);
      RepayNowOrLater(tx, current, key, amount, i);
    } else {
      assert !RepayFollows(tx, current, key, amount, i) by { NoRepayAtEnd(tx, current, key, amount, i); }
    }
  }

  lemma NoRepayAtEnd(tx: Transaction, current: nat, key: Pubkey, amount: u64, i: nat)
    requires i >= |tx|
    ensures !RepayFollows(tx, current, key, amount, i)
  {
  }

  lemma RepayNowOrLater(tx: Transaction, current: nat, key: Pubkey, amount: u64, i: nat)
    requires i < |tx|
    ensures RepayFollows(tx, current, key, amount, i) <==>
      if current < 256 && tx[i] == Own(FlashRepay(key, amount, current)) then NoFlash(tx, i + 1)
      else !IsFlash(tx[i]) && RepayFollows(tx, current, key, amount, i + 1)
  {
    if current < 256 && tx[i] == Own(FlashRepay(key, amount, current)) {
      assert NoFlash(tx, i + 1) ==> OnlyRepay(tx, current, key, amount, i, i);
      forall j | OnlyRepay(tx, current, key, amount, i, j)
        ensures NoFlash(tx, i + 1)
      {
        assert IsFlash(tx[i]);
      }
    } else {
      forall j | OnlyRepay(tx, current, key, amount, i, j)
        ensures !IsFlash(tx[i]) && OnlyRepay(tx, current, key, amount, i + 1, j)
      {
        RepayLater(tx, current, key, amount, i, j);
      }
      var next := i + 1;
      if RepayFollows(tx, current, key, amount, next) && !IsFlash(tx[i]) {
        var j :| OnlyRepay(tx, current, key, amount, next, j);
        RepayLater(tx, current, key, amount, i, j);
      }
    }
  }

  lemma RepayLater(tx: Transaction, current: nat, key: Pubkey, amount: u64, i: nat, j: nat)
    requires i < |tx| && !(current < 256 && tx[i] == Own(FlashRepay(key, amount, current)))
    ensures OnlyRepay(tx, current, key, amount, i, j) <==> !IsFlash(tx[i]) && OnlyRepay(tx, current, key, amount, i + 1, j)
  {
  }

  /** What a flash repay at `current` checks about the borrow it names. */
  function CheckRepay(tx: Transaction, current: nat, key: Pubkey, amount: u64, borrowIndex: u8): Result<()> {
    if borrowIndex > current || borrowIndex >= |tx| then Err(InvalidFlashRepay)
    else
      match tx[borrowIndex]
      case Foreign(_) => Err(InvalidFlashRepay)
      case Garbled => Err(InstructionUnpackError)
      case Own(ix) => Guard(ix == FlashBorrow(key, amount), InvalidFlashRepay)
  }

  // ----- transactions

  /** A call from another program: flash instructions refuse to be called that way, and the clock does
      not move within a transaction. */
  function Call(w: World, ix: Instruction): Result<World> {
    match ix
    case FlashBorrow(_, _) => Err(FlashBorrowCpi)
    case FlashRepay(_, _, _) => Err(FlashRepayCpi)
    case Tick(_) => Err(InvalidAccountInput)
    case _ => Step(w, ix)
  }

  function Calls(w: World, ixs: seq<Instruction>): Result<World> {
    if ixs == [] then Ok(w)
    else
      var v :- Calls(w, ixs[..|ixs| - 1]);
      Call(v, ixs[|ixs| - 1])
  }

  /** Instruction `i` of the transaction, run in the state the ones before it left. */
  function Perform(w: World, tx: Transaction, i: nat): Result<World>
    requires i < |tx|
  {
    match tx[i]
    case Foreign(calls) => Calls(w, calls)
    case Garbled => Err(InstructionUnpackError)
    case Own(ix) =>
      match ix
      case FlashBorrow(key, amount) =>
        var _ :- Scan(tx, i, key, amount, i + 1, false);
        DoFlashBorrow(w, key, amount)
      case FlashRepay(key, amount, borrowIndex) =>
        var _ :- CheckRepay(tx, i, key, amount, borrowIndex);
        DoFlashRepay(w, key, amount)
      case Tick(_) => Err(InvalidAccountInput)
      case _ => Step(w, ix)
  }

  /** The first `n` instructions; the transaction succeeds if all of them do. */
  function PerformFirst(w: World, tx: Transaction, n: nat): Result<World>
    requires n <= |tx|
  {
    if n == 0 then Ok(w)
    else
      var v :- PerformFirst(w, tx, n - 1);
      Perform(v, tx, n - 1)
  }

  predicate Succeeds(w: World, tx: Transaction) { PerformFirst(w, tx, |tx|).Ok? }

  lemma {:induction false} EarlierSucceeds(w: World, tx: Transaction, i: nat, n: nat)
    requires i <= n <= |tx| && PerformFirst(w, tx, n).Ok?
    ensures PerformFirst(w, tx, i).Ok?
    ensures i < n ==> Perform(PerformFirst(w, tx, i).value, tx, i).Ok?
    decreases n - i
  {
    hide Perform;
    if i < n { EarlierSucceeds(w, tx, i, n - 1); }
  }

  lemma EachSucceeds(w: World, tx: Transaction, i: nat)
    requires Succeeds(w, tx) && i < |tx|
    ensures PerformFirst(w, tx, i).Ok? && Perform(PerformFirst(w, tx, i).value, tx, i).Ok?
  {
    hide PerformFirst, Perform;
    EarlierSucceeds(w, tx, i, |tx|);
  }

  lemma BorrowChecked(w: World, tx: Transaction, i: nat)
    requires Succeeds(w, tx) && i < |tx| && tx[i].Own? && tx[i].ix.FlashBorrow?
    ensures RepayFollows(tx, i, tx[i].ix.key, tx[i].ix.amount, i + 1)
  {
    hide Succeeds, PerformFirst, DoFlashBorrow, RepayFollows;
    EachSucceeds(w, tx, i);
    hide Step, Calls, CheckRepay, DoFlashRepay;
    assert Scan(tx, i, tx[i].ix.key, tx[i].ix.amount, i + 1, false).Ok?;
    hide Perform, Scan;
    ScanIff(tx, i, tx[i].ix.key, tx[i].ix.amount, i + 1);
  }

  lemma RepayChecked(w: World, tx: Transaction, j: nat)
    requires Succeeds(w, tx) && j < |tx| && tx[j].Own? && tx[j].ix.FlashRepay?
    ensures var i := tx[j].ix.borrowIndex; i < j && tx[i] == Own(FlashBorrow(tx[j].ix.key, tx[j].ix.amount))
  {
    hide Succeeds, PerformFirst, DoFlashRepay;
    EachSucceeds(w, tx, j);
    hide Step, Calls, Scan, DoFlashBorrow;
    assert CheckRepay(tx, j, tx[j].ix.key, tx[j].ix.amount, tx[j].ix.borrowIndex).Ok?;
  }

  /** In a transaction that succeeds, two flash borrows are the same one, and so are two repays. */
  lemma FlashAtMostOnce(w: World, tx: Transaction, i: nat, j: nat)
    requires Succeeds(w, tx) && i < |tx| && j < |tx| && tx[i].Own? && tx[j].Own?
    ensures tx[i].ix.FlashBorrow? && tx[j].ix.FlashBorrow? ==> i == j
    ensures tx[i].ix.FlashRepay? && tx[j].ix.FlashRepay? ==> i == j
  {
    hide Succeeds, RepayFollows, OnlyRepay;
    if tx[i].ix.FlashBorrow? && tx[j].ix.FlashBorrow? {
      BorrowChecked(w, tx, i);
      BorrowChecked(w, tx, j);
      NoBorrowAfter(tx, i, j);
      NoBorrowAfter(tx, j, i);
    }
    if tx[i].ix.FlashRepay? && tx[j].ix.FlashRepay? {
      RepayChecked(w, tx, i);
      RepayChecked(w, tx, j);
      var a, b := tx[i].ix.borrowIndex, tx[j].ix.borrowIndex;
      BorrowChecked(w, tx, a);
      BorrowChecked(w, tx, b);
      NoBorrowAfter(tx, a, b);
      NoBorrowAfter(tx, b, a);
      OneRepayAfter(tx, a, i, j);
    }
  }

  lemma NoBorrowAfter(tx: Transaction, i: nat, j: nat)
    requires i < |tx| && j < |tx| && tx[i].Own? && tx[i].ix.FlashBorrow? && tx[j].Own? && tx[j].ix.FlashBorrow?
    requires RepayFollows(tx, i, tx[i].ix.key, tx[i].ix.amount, i + 1)
    ensures j <= i
  {
    assert IsFlash(tx[j]);
  }

  lemma OneRepayAfter(tx: Transaction, i: nat, j: nat, k: nat)
    requires i < j < |tx| && i < k < |tx| && tx[i].Own? && tx[i].ix.FlashBorrow?
    requires IsFlash(tx[j]) && IsFlash(tx[k])
    requires RepayFollows(tx, i, tx[i].ix.key, tx[i].ix.amount, i + 1)
    ensures j == k && tx[j].ix == FlashRepay(tx[i].ix.key, tx[i].ix.amount, i)
  {
  }

  /** In every transaction whose instructions all succeed: a flash borrow is followed by exactly one
      flash repay, which names its index, its reserve and its amount; a flash repay has such a borrow
      before it; and there is at most one of each. */
  lemma FlashDiscipline(w: World, tx: Transaction)
    requires Succeeds(w, tx)
    ensures forall i :: 0 <= i < |tx| && tx[i].Own? && tx[i].ix.FlashBorrow? ==>
              RepayFollows(tx, i, tx[i].ix.key, tx[i].ix.amount, i + 1)
    ensures forall j :: 0 <= j < |tx| && tx[j].Own? && tx[j].ix.FlashRepay? ==>
              tx[j].ix.borrowIndex < j && tx[tx[j].ix.borrowIndex] == Own(FlashBorrow(tx[j].ix.key, tx[j].ix.amount))
    ensures forall i, j :: 0 <= i < |tx| && 0 <= j < |tx| && IsFlash(tx[i]) && IsFlash(tx[j]) ==>
              i == j || tx[i].ix.FlashBorrow? != tx[j].ix.FlashBorrow?
  {
    hide Succeeds, RepayFollows;
    forall i | 0 <= i < |tx| && tx[i].Own? && tx[i].ix.FlashBorrow?
      ensures RepayFollows(tx, i, tx[i].ix.key, tx[i].ix.amount, i + 1)
    {
      BorrowChecked(w, tx, i);
    }
    forall j | 0 <= j < |tx| && tx[j].Own? && tx[j].ix.FlashRepay?
      ensures tx[j].ix.borrowIndex < j && tx[tx[j].ix.borrowIndex] == Own(FlashBorrow(tx[j].ix.key, tx[j].ix.amount))
    {
      RepayChecked(w, tx, j);
    }
    forall i, j | 0 <= i < |tx| && 0 <= j < |tx| && IsFlash(tx[i]) && IsFlash(tx[j])
      ensures i == j || tx[i].ix.FlashBorrow? != tx[j].ix.FlashBorrow?
    {
      FlashAtMostOnce(w, tx, i, j);
    }
  }

  // ----- what the pair does to the reserve

  /** A flash borrow and its repay, with the reserve untouched in between: apart from the interest the
      borrow accrues first, available liquidity, debt and tokens are back where they were. */
  lemma FlashPairRestores(w: World, u: World, v: World, x: World, key: Pubkey, amount: u64)
    requires DoFlashBorrow(w, key, amount) == Ok(u) && Leaves(u, v, key) && DoFlashRepay(v, key, amount) == Ok(x)
    ensures Holds(w, key) && Holds(x, key) && AccrueInterest(w.reserves[key], w.slot).Ok?
    ensures x.reserves[key].liquidity == AccrueInterest(w.reserves[key], w.slot).value.liquidity
    ensures x.reserves[key].mintSupply == AccrueInterest(w.reserves[key], w.slot).value.mintSupply
    ensures x.ledger[key] == w.ledger[key]
  {
    hide AccrueInterest, ReserveFits, CalculateFlashLoanFees;
    var r := AccrueInterest(w.reserves[key], w.slot).value;
    assert u.reserves[key].liquidity == BorrowLiquidity(r.liquidity, FromInt(amount)).value;
    assert FloorU64(FromInt(amount)) == Ok(amount);
    BorrowThenRepay(r.liquidity, amount);
    hide BorrowLiquidity, RepayLiquidity;
  }

  lemma BorrowThenRepay(l: Liquidity, amount: u64)
    requires BorrowLiquidity(l, FromInt(amount)).Ok?
    ensures RepayLiquidity(BorrowLiquidity(l, FromInt(amount)).value, amount, FromInt(amount)) == Ok(l)
  {
    assert FloorU64(FromInt(amount)) == Ok(amount);
  }

  predicate Mentions(t: TxInstruction, key: Pubkey) {
    match t
    case Foreign(calls) => exists k :: 0 <= k < |calls| && Names(calls[k], key)
    case Own(ix) => Names(ix, key)
    case Garbled => false
  }

  lemma {:induction false} CallsLeave(w: World, ixs: seq<Instruction>, key: Pubkey)
    requires Calls(w, ixs).Ok? && forall k :: 0 <= k < |ixs| ==> !Names(ixs[k], key)
    ensures Leaves(w, Calls(w, ixs).value, key)
  {
    hide Step, Names;
    if ixs != [] {
      CallsLeave(w, ixs[..|ixs| - 1], key);
      StepLeaves(Calls(w, ixs[..|ixs| - 1]).value, ixs[|ixs| - 1], key);
    }
  }

  lemma PerformLeaves(w: World, tx: Transaction, i: nat, key: Pubkey)
    requires i < |tx| && Perform(w, tx, i).Ok? && !Mentions(tx[i], key)
    ensures Leaves(w, Perform(w, tx, i).value, key)
  {
    hide Calls, Scan, CheckRepay, Leaves, Names, DoInitReserve, DoRefreshReserve, DoDeposit, DoRedeem,
         DoRefreshObligation, DoDepositCollateral, DoDepositBoth, DoWithdraw, DoWithdrawAndRedeem, DoBorrow, DoRepay,
         DoLiquidate, DoRedeemFees, DoForgive, DoFlashBorrow, DoFlashRepay, DoUpdateConfig;
    match tx[i]
    case Foreign(calls) => CallsLeave(w, calls, key);
    case Own(ix) => StepLeaves(w, ix, key);
    case Garbled =>
  }

  lemma {:induction false} MiddleLeaves(w: World, tx: Transaction, i: nat, n: nat, key: Pubkey)
    requires i <= n <= |tx| && PerformFirst(w, tx, n).Ok? && PerformFirst(w, tx, i).Ok?
    requires forall k :: i <= k < n ==> !Mentions(tx[k], key)
    ensures Leaves(PerformFirst(w, tx, i).value, PerformFirst(w, tx, n).value, key)
    decreases n - i
  {
    hide Perform, Mentions;
    if i < n {
      MiddleLeaves(w, tx, i, n - 1, key);
      PerformLeaves(PerformFirst(w, tx, n - 1).value, tx, n - 1, key);
    }
  }

  lemma BorrowIsPerformed(w: World, tx: Transaction, i: nat)
    requires i < |tx| && tx[i].Own? && tx[i].ix.FlashBorrow? && Perform(w, tx, i).Ok?
    ensures DoFlashBorrow(w, tx[i].ix.key, tx[i].ix.amount) == Perform(w, tx, i)
  {
    hide Step, Calls, CheckRepay, DoFlashBorrow, DoFlashRepay;
  }

  lemma RepayIsPerformed(w: World, tx: Transaction, i: nat)
    requires i < |tx| && tx[i].Own? && tx[i].ix.FlashRepay? && Perform(w, tx, i).Ok?
    ensures DoFlashRepay(w, tx[i].ix.key, tx[i].ix.amount) == Perform(w, tx, i)
  {
    hide Step, Calls, Scan, DoFlashBorrow, DoFlashRepay;
  }

  /** In every transaction that succeeds, the reserve of a flash borrow is back where it was after the
      repay, if nothing between the two names it. */
  lemma FlashLoanRestoresReserve(w: World, tx: Transaction, i: nat, j: nat)
    requires Succeeds(w, tx) && i < |tx| && tx[i].Own? && tx[i].ix.FlashBorrow?
    requires OnlyRepay(tx, i, tx[i].ix.key, tx[i].ix.amount, i + 1, j)
    requires forall k :: i < k < j ==> !Mentions(tx[k], tx[i].ix.key)
    ensures PerformFirst(w, tx, i).Ok? && PerformFirst(w, tx, j + 1).Ok?
    ensures var key, before, after := tx[i].ix.key, PerformFirst(w, tx, i).value, PerformFirst(w, tx, j + 1).value;
      && Holds(before, key) && Holds(after, key) && AccrueInterest(before.reserves[key], before.slot).Ok?
      && after.reserves[key].liquidity == AccrueInterest(before.reserves[key], before.slot).value.liquidity
      && after.ledger[key] == before.ledger[key]
  {
    var key, amount := tx[i].ix.key, tx[i].ix.amount;
    EarlierSucceeds(w, tx, i, |tx|);
    EarlierSucceeds(w, tx, i + 1, |tx|);
    EarlierSucceeds(w, tx, j, |tx|);
    EarlierSucceeds(w, tx, j + 1, |tx|);
    var before := PerformFirst(w, tx, i).value;
    var lent, back := PerformFirst(w, tx, i + 1).value, PerformFirst(w, tx, j).value;
    assert Perform(before, tx, i) == Ok(lent);
    assert Perform(back, tx, j) == PerformFirst(w, tx, j + 1);
    hide Perform, PerformFirst, AccrueInterest, DoFlashBorrow, DoFlashRepay, Mentions, Leaves;
    BorrowIsPerformed(before, tx, i);
    MiddleLeaves(w, tx, i + 1, j, key);
    RepayIsPerformed(back, tx, j);
    FlashPairRestores(before, lent, back, PerformFirst(w, tx, j + 1).value, key, amount);
  }

  // ----- safety

  lemma {:induction false} CallsSafe(w: World, ixs: seq<Instruction>)
    requires Safe(w) && Calls(w, ixs).Ok?
    ensures Safe(Calls(w, ixs).value)
  {
    hide Safe, Step;
    if ixs != [] {
      CallsSafe(w, ixs[..|ixs| - 1]);
      StepSafe(Calls(w, ixs[..|ixs| - 1]).value, ixs[|ixs| - 1]);
    }
  }

  lemma PerformSafe(w: World, tx: Transaction, i: nat)
    requires Safe(w) && i < |tx| && Perform(w, tx, i).Ok?
    ensures Safe(Perform(w, tx, i).value)
  {
    hide Safe, Calls, Scan, CheckRepay, DoInitReserve, DoRefreshReserve, DoDeposit, DoRedeem,
         DoRefreshObligation, DoDepositCollateral, DoDepositBoth, DoWithdraw, DoWithdrawAndRedeem, DoBorrow, DoRepay,
         DoLiquidate, DoRedeemFees, DoForgive, DoFlashBorrow, DoFlashRepay, DoUpdateConfig;
    match tx[i]
    case Foreign(calls) => CallsSafe(w, calls);
    case Own(ix) => StepSafe(w, ix);
    case Garbled =>
  }

  /** Transactions keep the lending program's invariant. */
  lemma {:induction false} TransactionSafe(w: World, tx: Transaction, n: nat)
    requires Safe(w) && n <= |tx| && PerformFirst(w, tx, n).Ok?
    ensures Safe(PerformFirst(w, tx, n).value)
  {
    hide Safe, Perform;
    if n > 0 {
      TransactionSafe(w, tx, n - 1);
      PerformSafe(PerformFirst(w, tx, n - 1).value, tx, n - 1);
    }
  }
}
