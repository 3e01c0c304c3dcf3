/** Outcomes of the fallible operations of the on-chain programs.

    The Rust code returns `Result<T, ProgramError>`, and a panic (an `unwrap` on `None`, an
    out-of-bounds index, a checked overflow) aborts the transaction.  Both are `Err` here, so an
    operation is total and a failed one can be compared with a successful one.
  */
module Results {
  datatype Error =
    | MathOverflow
    | InvalidAmount
    | InvalidConfig
    | InvalidAccountInput
    | InvalidSigner
    | ReserveStale
    | ObligationStale
    | ObligationHealthy
    | ObligationDepositsEmpty
    | ObligationDepositsZero
    | ObligationBorrowsEmpty
    | ObligationBorrowsZero
    | ObligationReserveLimit
    | ObligationCollateralEmpty
    | ObligationLiquidityEmpty
    | InvalidObligationCollateral
    | InvalidObligationLiquidity
    | NegativeInterestRate
    | InsufficientLiquidity
    | InsufficientProtocolFeesToRedeem
    | BorrowTooSmall
    | BorrowTooLarge
    | RepayTooSmall
    | LiquidationTooSmall
    | WithdrawTooLarge
    | IsolatedTierAssetViolation
    | OutflowRateLimitExceeded
    | FlashLoansDisabled
    | FlashBorrowCpi
    | FlashRepayCpi
    | InstructionUnpackError
    | MultipleFlashBorrows
    | InvalidFlashRepay
    | NoFlashRepayFound
    | TokenTransferFailed
    | TokenBurnFailed
    | InvalidAccountData
    | RewarderExpired
    | CursorAlreadyProcessed
    | NotStakedDuringDrop
    | RewardsNeedsProcessing
    | RewarderNotYetExpired
    | InsufficientReward
    | InvalidExpiry
    | InvalidDepositAmount
    | InvalidSchedule
    | InsufficientWithdrawalBalance
    | UnreleasedReward
    | WhitelistWithdrawLimit
    | InsufficientWhitelistDepositAmount
    | WhitelistDepositOverflow
    | Panic

  datatype Result<+T> = Ok(value: T) | Err(error: Error) {
    predicate IsFailure() { Err? }

    function PropagateFailure<U>(): Result<U>
      requires Err?
    {
      Err(error)
    }

    function Extract(): T
      requires Ok?
    {
      value
    }
  }

  /** `ok_or` / an early `return Err(..)` guard. */
  function Guard(condition: bool, error: Error): Result<()> {
    if condition then Ok(()) else Err(error)
  }

  /** The outcome without its value. */
  function Done<T>(r: Result<T>): Result<()> {
    match r case Ok(_) => Ok(()) case Err(e) => Err(e)
  }
}
