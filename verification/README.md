# A verified model of the lending, restaking and reward programs

This project models the accounting of three on-chain programs in Dafny and proves what they promise.

**The lending program** (`token-lending/`) keeps reserves, obligations and rate limiters. Its numbers are
fixed-point, scaled by 10^18, and every multiplication and division floors.

- `FloorMath`, `FixedPoint`, `RatePower`: the arithmetic. A decimal is its scaled 192-bit value, a rate its
  scaled 128-bit value; overflow is an error.
- `RateLimiters`: the sliding-window limiter, and theorems about every log of accepted updates.
- `ReserveConfigs`, `Reserves`, `Valuation`, `Liquidation`: validation and the interest curve, the exchange
  rate and interest, market values, fees, borrow and repay calculators, liquidation.
- `InterestBounds`, `BorrowFees`, `Seizure`, `WithdrawLimits`: how large each of these is in exact terms - rate,
  growth and the protocol's share; fees; settled debt, seized collateral and bonus; the withdrawable maximum -
  with both bounds and the floors between them spelled out.
- `DebtTotals`: the debts of a reserve's borrowers against the reserve's own total.
- `Obligations`, `ObligationRefresh`, `RefreshTotals`, `BorrowingLimits`: deposits and borrows, the refresh
  loops, what a refresh leaves, and how the limits hold up under nested floors.
- `Lending`: the instructions as steps of one state machine over a clock, a market limiter, reserves,
  obligations and a ledger of the tokens the program holds. A failed instruction changes nothing.
- `LendingSafety`, `ReserveSteps`, `ObligationSteps`, `PositionSteps`, `LendingRuns`: the invariant of every
  run and the errors that cannot happen. `SharePrice`, `LimitRuns`, `Untouched`: the share price, the
  borrowing limit and the frame across instructions.
- `InstructionEffects`, `ReserveEffects`, `BorrowOutcomes`: one account of what each instruction does to debts,
  deposits, totals, limiters and tokens together.
- `Freshness`, `Tiers`, `OutflowRuns`: over whole runs, limits are used once and only in the slot of their
  refresh; isolated borrows stay alone; what leaves through the limiters stays within twice their maximum.
- `ReserveAccounts`, `ObligationAccounts`, `Processor`: the same operations in place. An instruction unpacks
  accounts into objects, updates their fields, packs them and moves tokens in the code's order; every method
  is proved equal to the step function that the theorems are about.
- `FlashLoans`: transactions, the scan after a flash borrow, and what every successful transaction satisfies.
- `Bytes`, `ObligationCodec`, `ObligationBuffers`, `ObligationLayout`: the 1300-byte form of an obligation, with
  packing and unpacking in place, and where every field lies.

**The staking programs** (`restaking/`): `RewardQueues` is the ring buffer of reward events with the cursors
of the stakers; `LockerVesting` is the vesting schedule and the life of a locker.

**The reward program** (`reearn/`): `SupplyToEarn` is the accrual and claiming of supply rewards.

Prices stay symbolic: any two prices, current and smoothed. In the descriptions below T is a reserve's total
supply scaled by 10^18, M its collateral tokens outstanding, and primes mark the state afterwards.

Where a slack is given in units of 10^-18, a price is the unscaled price of one whole token.

Seven statements that one might expect are false of the code; each has a concrete case and the exact condition
under which it holds, or the bound that does hold:

- Redeeming can lower the share price (`Reserves.RedeemCanLowerPrice`, `RedeemKeepsPriceIff`).
- The limiter's comment promises less than twice the maximum; twice is reached
  (`RateLimiters.ClosedWindowReachesTwice`, `BelowTwiceIffWindowAtMostWad`).
- The debts of a reserve's borrowers can exceed its borrowed total, which is why repayments settle at most that
  total (`DebtTotals.DebtCanOutgrowReserve`). They stay within it exactly if there is at most one accrual between
  two refreshes (`StaysWithinIff`), and otherwise exceed it by at most one unit an accrual, grown with the index
  (`DebtsOutgrowByAtMost`).
- The shift in the vesting schedule does not divide the window evenly, so everything can vest early
  (`LockerVesting.FullTooEarly`, `FullBeforeEndIff`).
- The vault of a locker need not hold what the locker's books say. The bookkeeping of a call to a whitelisted
  program compares the vault's balance with itself, so a send moves tokens that are never recorded, the limit on
  it is never met, and every return fails (`LockerVesting.VaultFallsShort`). The vault stays backed exactly if the
  sends of a run cancel out (`RelayKeepsOkIff`, `RunKeepsOkIff`). What survives as written are the books
  themselves (`RunKeepsBooks`). `ActKeepsOk` and `RunKeepsOk` are about the bookkeeping as it was meant, with the
  vault loaded again after the call.
- An accepted borrow can end over the limit by more than rounding: a borrow of part of a token from a reserve that
  owes its holders nothing ends the initial exchange rate of the borrower's own collateral there
  (`BorrowingLimits.BorrowCanShrinkItsLimit`). In every other case the excess is at most floor(borrow weight) + 2 units
  of 10^-18 (`BorrowThenRefresh`).
- The program owner's configuration update can break the bonus sum that validation checks
  (`ReserveConfigs.ProgramOwnerBreaksBonusSum`, `UpdateKeepsSane`).

Where comments and code disagree the model follows the code: the initial exchange rate is 1:1 although a
comment says 5:1, and the two statements about the limiter and the vesting shift above.

A "panics on overflow" in the staking programs assumes that they are built with overflow checks, which their
crates ask for in `restaking/programs/*/Cargo.toml`. Cargo takes profiles from the workspace root only, and
`restaking/Cargo.toml` has none; built without the checks, those sums wrap around instead.

## Model

| member | source | states |
|---|---|---|
| `FixedPoint.Mul` | `token-lending/sdk/src/math/decimal.rs:212-222` | A product of two decimals is the exact product over 10^18, floored |
| `FixedPoint.Div` | `token-lending/sdk/src/math/decimal.rs:184-194` | A quotient is bracketed by q·b <= a·10^18 < (q+1)·b; dividing by zero fails |
| `FixedPoint.DivInt` | `token-lending/sdk/src/math/decimal.rs:168-176` | Division by an integer floors; dividing by zero fails |
| `FixedPoint.RateMul` | `token-lending/sdk/src/math/rate.rs:169-179` | Rate products floor, within 128 bits |
| `FixedPoint.RateDiv` | `token-lending/sdk/src/math/rate.rs:147-157` | Rate quotients floor, within 128 bits |
| `FixedPoint.FloorU64` | `token-lending/sdk/src/math/decimal.rs:102-108` | The whole part: f·10^18 <= a < (f+1)·10^18 |
| `FixedPoint.CeilU64` | `token-lending/sdk/src/math/decimal.rs:90-99` | The smallest whole number not below the value |
| `FixedPoint.RoundU64` | `token-lending/sdk/src/math/decimal.rs:80-87` | The nearest whole number, halves rounded up |
| `FixedPoint.OnlyMathOverflow` | `token-lending/sdk/src/math/decimal.rs:80-222` | Every operation on decimals - sums, products, quotients, conversions - fails with MathOverflow and nothing else |
| `FixedPoint.FailsIff` | `token-lending/sdk/src/math/decimal.rs:80-222` | A product fails exactly if the unscaled product leaves 192 bits, a quotient exactly if the scaled dividend does or the divisor is zero, a conversion exactly if its result leaves 64 bits |
| `RatePower.TryPow` | `token-lending/sdk/src/math/rate.rs:76-94` | The square-and-multiply loop computes its recursive specification, including the step at which it overflows |
| `RatePower.PowAtMostExact` | `token-lending/sdk/src/math/rate.rs:76-94` | Whenever the truncated power succeeds it is at most the exact one: r·W^e <= W·b^e |
| `RatePower.PowAtLeastLinear` | `token-lending/sdk/src/math/rate.rs:76-94` | For a base 1 + x the truncated power is at least 1 + e·x exactly, in spite of a floor at every step |
| `RateLimiters.RateLimiter.constructor` | `token-lending/sdk/src/state/rate_limiter.rs:42-54` | A new limiter starts at the aligned window of its slot with nothing recorded |
| `RateLimiters.RateLimiter.RollWindow` | `token-lending/sdk/src/state/rate_limiter.rs:57-88` | Rolling keeps, shifts or clears the two window totals, and fails on a slot before the window |
| `RateLimiters.RateLimiter.Remaining` | `token-lending/sdk/src/state/rate_limiter.rs:106-123` | Remaining outflow: maximum less the weighted outflow, at least zero; unlimited when the window is zero; the window is rolled |
| `RateLimiters.RateLimiter.Record` | `token-lending/sdk/src/state/rate_limiter.rs:125-141` | An outflow is recorded or refused, and the exact state left behind in either case |
| `RateLimiters.UpdateIffWithinRemaining` | `token-lending/sdk/src/state/rate_limiter.rs:106-142` | In every reachable state with a nonzero window, an update is accepted exactly when it is at most the remaining outflow |
| `RateLimiters.WeightedBrackets` | `token-lending/sdk/src/state/rate_limiter.rs:90-104` | The weighted outflow is the previous window's times (window − elapsed) / window, to within one unit and a 10^-18 part of it |
| `RateLimiters.UpdateInterpolates` | `token-lending/sdk/src/state/rate_limiter.rs:125-142` | With e the slots of the current window, an update with prev·(w − e) + (cur + qty)·w <= cap·w is accepted, and an accepted one exceeds that by at most w·(1 + prev / 10^18) |
| `RateLimiters.UpdateKeepsOk` | `token-lending/sdk/src/state/rate_limiter.rs:125-142` | Every accepted update keeps the limiter in a reachable state: each window total, and the weighted sum, within the maximum |
| `RateLimiters.RemainingKeepsOk` | `token-lending/sdk/src/state/rate_limiter.rs:106-123` | Asking for the remaining outflow changes no later answer |
| `RateLimiters.ReplayTracks` | `token-lending/sdk/src/state/rate_limiter.rs:57-88` | Along any log of accepted updates the two counters are the exact sums over two adjacent aligned windows |
| `RateLimiters.ClosedWindowAtMostTwice` | `token-lending/sdk/src/state/rate_limiter.rs:13-142` | Over any run of accepted updates the outflow of every slot interval [s, s + window] is at most twice the maximum |
| `RateLimiters.ClosedWindowReachesTwice` | `token-lending/sdk/src/state/rate_limiter.rs:13-16` | ... and twice is reached, so the stated "less than 2x" does not hold of closed intervals |
| `RateLimiters.OpenWindowBelowTwice` | `token-lending/sdk/src/state/rate_limiter.rs:13-16` | For windows of at most 10^18 slots, any `window` consecutive slots let out strictly less than twice the maximum |
| `RateLimiters.BelowTwiceIffWindowAtMostWad` | `token-lending/sdk/src/state/rate_limiter.rs:13-16` | The strict bound holds of every run if and only if the window is at most 10^18 slots |
| `ReserveConfigs.ValidateMeans` | `token-lending/sdk/src/state/reserve.rs:906-990` | A configuration passes validation exactly if every bound, and the cap on the bonus sum, holds |
| `ReserveConfigs.UpdateKeepsSane` | `token-lending/program/src/processor.rs:2230-2370` | No authority can store a configuration out of bounds; the bonus sum survives exactly if the path is not the program owner's or the old bonus fits beside the new fee |
| `ReserveConfigs.UpdateKeepsSaneAlone` | `token-lending/program/src/processor.rs:2230-2370` | Every other bound survives every update, also when the bonus sum has been lost |
| `ReserveConfigs.ProgramOwnerBreaksBonusSum` | `token-lending/program/src/processor.rs:2230-2370` | A concrete pair of configurations for which the program owner's path breaks the bonus sum |
| `ReserveConfigs.BorrowRateDefined` | `token-lending/sdk/src/state/reserve.rs:183-234` | For every valid configuration and utilization up to one the borrow rate is defined: no division by zero, no overflow |
| `ReserveConfigs.BorrowRateWithin` | `token-lending/sdk/src/state/reserve.rs:183-234` | The rate stays within its piece's end points, so between the minimum and the super-maximum rate |
| `ReserveConfigs.BorrowRateMonotone` | `token-lending/sdk/src/state/reserve.rs:183-234` | The rate never falls as utilization grows, across all three pieces and both kinks |
| `InterestBounds.UtilizationBrackets` | `token-lending/sdk/src/state/reserve.rs:698-707` | Utilization is the borrowed part of borrowed plus available, floored: u·(B + A) <= B·10^18 < (u + 1)·(B + A); and zero without debt or net supply |
| `InterestBounds.BorrowRateInterpolates` | `token-lending/sdk/src/state/reserve.rs:183-234` | Within each of its three pieces the rate lies on the line between the piece's two end points, to within one unit and a 10^-18 part of the rise |
| `Reserves.TotalSupply` | `token-lending/sdk/src/state/reserve.rs:619-623` | Total supply is available plus borrowed less protocol fees, or an error |
| `Reserves.ExchangeRateBrackets` | `token-lending/sdk/src/state/reserve.rs:796-809` | The stored rate e brackets the exact one: e·T <= M·10^36 < (e+1)·T |
| `Reserves.DepositKeepsPrice` | `token-lending/sdk/src/state/reserve.rs:159-168` | A deposit never lowers the share price of the tokens outstanding: M'·T <= M·T' |
| `Reserves.DepositEffect` | `token-lending/sdk/src/state/reserve.rs:159-168` | A deposit adds exactly its amount to the supply and mints what the exchange rate says |
| `Reserves.RedeemLossBounded` | `token-lending/sdk/src/state/reserve.rs:171-180` | Redeeming c tokens at rate e costs the others at most c·T/e: e·(M'·T − M·T') <= c·T |
| `Reserves.RedeemPaysQuotient` | `token-lending/sdk/src/state/reserve.rs:825-836` | A redemption pays floor(c·10^18 / e) |
| `Reserves.RedeemKeepsPriceIff` | `token-lending/sdk/src/state/reserve.rs:171-180` | Redeeming keeps the share price exactly if floor(c·10^18/e) = floor(c·T/(M·10^18)) |
| `Reserves.RedeemCanLowerPrice` | `token-lending/sdk/src/state/reserve.rs:171-180` | A concrete reserve in which redeeming lowers the share price |
| `Reserves.BorrowKeepsNet` | `token-lending/sdk/src/state/reserve.rs:648-662` | A borrow books at least the tokens it takes, and less than one token more |
| `Reserves.RepayKeepsNet` | `token-lending/sdk/src/state/reserve.rs:665-674` | A repayment that covers what it settles never lowers the supply, also when the reserve's own total is smaller than the settled debt |
| `Reserves.RedeemFeesKeepsNet` | `token-lending/sdk/src/state/reserve.rs:685-696` | Redeeming protocol fees leaves the holders' supply unchanged |
| `Reserves.RedeemableFeesCanBeRedeemed` | `token-lending/sdk/src/state/reserve.rs:510-518` | The fees on offer can always be redeemed |
| `Reserves.GrowthAtLeastOne` | `token-lending/sdk/src/state/reserve.rs:710-720` | Compounded growth over n slots is at least 1 + n·(rate per slot) |
| `Reserves.CompoundGrows` | `token-lending/sdk/src/state/reserve.rs:710-735` | New debt never underflows; index, debt and fees never shrink; the protocol takes no more than the new debt - how much exactly is `InterestBounds.AccrueIs` |
| `Reserves.AccrueGrows` | `token-lending/sdk/src/state/reserve.rs:243-252` | Accruing interest never lowers the index, the debt or the holders' supply, and does nothing within the same slot |
| `Reserves.AccrueKeepsPrice` | `token-lending/sdk/src/state/reserve.rs:243-252` | Accruing interest never lowers the share price |
| `InterestBounds.AccrueIs` | `token-lending/sdk/src/state/reserve.rs:710-735` | Accruing n slots: index and debt each grow by at most (1 + rate per slot)^n and at least 1 + n·(rate per slot), up to one unit; the fees take the floor of the protocol's share of the new debt, and the holders the rest |
| `Reserves.UtilizationAtMostOne` | `token-lending/sdk/src/state/reserve.rs:698-707` | Utilization, once defined, is at most one |
| `Reserves.CurrentBorrowRateDefined` | `token-lending/sdk/src/state/reserve.rs:183-234` | With a valid configuration the current borrow rate is defined whenever utilization is, and within its bounds |
| `Reserves.DepositThenRedeem` | `token-lending/sdk/src/state/reserve.rs:159-180` | Depositing L and redeeming the minted tokens returns l with l·e' < L·(e'+1), so l <= L whenever L <= e' |
| `ReserveAccounts.ReserveAccount.UpdateSlot` | `token-lending/sdk/src/state/last_update.rs:32-35` | Sets the slot and clears staleness |
| `ReserveAccounts.ReserveAccount.MarkStale` | `token-lending/sdk/src/state/last_update.rs:38-40` | Sets staleness and keeps the slot |
| `ReserveAccounts.ReserveAccount.Deposit` | `token-lending/sdk/src/state/reserve.rs:626-632` | Adds to the available amount or overflows without a change |
| `ReserveAccounts.ReserveAccount.Withdraw` | `token-lending/sdk/src/state/reserve.rs:635-645` | Takes from the available amount, or fails without a change |
| `ReserveAccounts.ReserveAccount.Borrow` | `token-lending/sdk/src/state/reserve.rs:648-662` | Takes the whole tokens and books the exact debt |
| `ReserveAccounts.ReserveAccount.Repay` | `token-lending/sdk/src/state/reserve.rs:665-674` | Adds the repayment and settles at most the reserve's own total |
| `ReserveAccounts.ReserveAccount.Forgive` | `token-lending/sdk/src/state/reserve.rs:678-682` | Subtracts forgiven debt, or fails without a change |
| `ReserveAccounts.ReserveAccount.TakeFees` | `token-lending/sdk/src/state/reserve.rs:685-696` | Takes fees from the available and the accumulated amount alike |
| `ReserveAccounts.ReserveAccount.Compound` | `token-lending/sdk/src/state/reserve.rs:710-735` | Index, fees and debt grow in the code's order to the specified values |
| `ReserveAccounts.ReserveAccount.Mint` | `token-lending/sdk/src/state/reserve.rs:778-784` | Adds to the collateral supply or overflows |
| `ReserveAccounts.ReserveAccount.Burn` | `token-lending/sdk/src/state/reserve.rs:787-793` | Takes from the collateral supply or fails |
| `ReserveAccounts.ReserveAccount.DepositTokens` | `token-lending/sdk/src/state/reserve.rs:159-168` | A deposit in place equals its specification |
| `ReserveAccounts.ReserveAccount.RedeemTokens` | `token-lending/sdk/src/state/reserve.rs:171-180` | A redemption in place equals its specification |
| `ReserveAccounts.ReserveAccount.Accrue` | `token-lending/sdk/src/state/reserve.rs:243-252` | Interest accrual in place equals its specification |
| `Valuation.ValueAtIsWorth` | `token-lending/sdk/src/state/reserve.rs:108-156` | A market value is the exact value floored once, although the code floors twice |
| `Valuation.ConservativeValues` | `token-lending/sdk/src/state/reserve.rs:121-156` | The upper bound of a value is the larger, and the lower bound the smaller, of the values at the current and the smoothed price |
| `Valuation.UsdRoundTrip` | `token-lending/sdk/src/state/reserve.rs:90-135` | Converting a value to tokens and back never gains |
| `Valuation.HostFeeWithinFee` | `token-lending/sdk/src/state/reserve.rs:1041-1125` | The host's fee never exceeds the total fee; with a host each part is at least one token - how large they are is `BorrowFees` |
| `BorrowFees.FixedBorrowFee` | `token-lending/sdk/src/state/reserve.rs:1041-1125` | On a fixed borrow the fee is the whole number nearest to the received amount times the fee rate - or to the minimum of one token, two with a host - and the host's part nearest to its percentage of that, at least one |
| `BorrowFees.MaximumBorrowFee` | `token-lending/sdk/src/state/reserve.rs:1041-1125` | On a maximum borrow fee·(1 + rate) is the borrowed amount times the rate, to within half a token and the floors of the rate, unless the minimum applies; the host's part as above |
| `BorrowFees.FlashLoanFee` | `token-lending/sdk/src/state/reserve.rs:1050-1125` | Owner and host fee of a flash loan add up to the whole number nearest to amount · rate, or to the minimum |
| `Valuation.BorrowAddsUp` | `token-lending/sdk/src/state/reserve.rs:255-314` | Receive + owner fee + host fee is the whole part of the booked debt; a fixed borrow receives what it asked for |
| `Valuation.MaxBorrowWithinValue` | `token-lending/sdk/src/state/reserve.rs:255-285` | Any amount up to the largest borrow is worth at most the value allowed |
| `Valuation.MaxBorrowIsTight` | `token-lending/sdk/src/state/reserve.rs:255-285` | ... and one unit more would exceed it, up to the floors |
| `Valuation.BorrowWithinValue` | `token-lending/sdk/src/state/reserve.rs:255-314` | An accepted borrow on either branch is worth at most the remaining borrow value |
| `BorrowOutcomes.UsdToLiquidityBrackets` | `token-lending/sdk/src/state/reserve.rs:90-105` | A value is worth so many tokens at the high price: t·p <= v·10^decimals·10^18 < (t + 1)·p |
| `BorrowOutcomes.BorrowWeightIs` | `token-lending/sdk/src/state/reserve.rs:77-82` | Ten thousand basis points more are one more weight |
| `BorrowOutcomes.LargestBorrow` | `token-lending/sdk/src/state/reserve.rs:255-285` | A maximum borrow is the smallest of what the value allows, what is left of the limits, and what is available |
| `Valuation.CalculateRepay` | `token-lending/sdk/src/state/reserve.rs:317-334` | A repayment settles at most the debt, costs at least what it settles and at most what was offered |
| `Obligations.FindCollateralInDeposits` | `token-lending/sdk/src/state/obligation.rs:192-204` | A found index holds the reserve asked for; an empty list and a missing reserve are different errors |
| `Obligations.FindLiquidityInBorrows` | `token-lending/sdk/src/state/obligation.rs:233-245` | A found index holds the reserve asked for; an empty list and a missing reserve are different errors |
| `Obligations.AccrueLoanBrackets` | `token-lending/sdk/src/state/obligation.rs:388-408` | One refresh of a borrow never shrinks the debt and lets it grow by at most the growth of the index |
| `InterestBounds.AccrueLoanAtLeast` | `token-lending/sdk/src/state/obligation.rs:388-408` | ... and brings the debt up to the index, less than one unit and a 10^-18 part of the debt behind it |
| `Obligations.AccrueAllBrackets` | `token-lending/sdk/src/state/obligation.rs:388-408` | However a borrow is refreshed, debt_n·index_0 <= debt_0·index_n and the debt never decreases |
| `DebtTotals.OneAccrualKeepsDebtsWithin` | `token-lending/sdk/src/state/reserve.rs:710-735` | If the debts of a reserve's borrowers are within its borrowed total, they still are after one accrual and a refresh of each |
| `DebtTotals.DebtCanOutgrowReserve` | `token-lending/sdk/src/state/reserve.rs:243-252` | Two accruals under a valid configuration after which one refreshed borrower owes more than the reserve's total |
| `DebtTotals.StaysWithinIff` | `token-lending/sdk/src/state/reserve.rs:243-252` | The debts stay within the total if and only if there is at most one accrual between two refreshes |
| `DebtTotals.TotalLags` | `token-lending/sdk/src/state/reserve.rs:710-735` | Over n accruals the total lags behind its index by at most n units: (B − n)·I' <= B'·I |
| `DebtTotals.DebtsOutgrowByAtMost` | `token-lending/sdk/src/state/obligation.rs:388-408` | Over any n accruals and any schedules of refreshes the debts outgrow the total by at most one unit an accrual, grown with the index: (D' − B')·I <= (D − B + n)·I' |
| `ObligationAccounts.ObligationAccount.Deposit` | `token-lending/sdk/src/state/obligation.rs:207-231` | Finds or adds the deposit and increases it; fails without a change at ten entries or on overflow |
| `ObligationAccounts.ObligationAccount.Borrow` | `token-lending/sdk/src/state/obligation.rs:263-287` | Finds or adds the borrow and increases it; fails without a change at ten entries or on overflow |
| `ObligationAccounts.ObligationAccount.Withdraw` | `token-lending/sdk/src/state/obligation.rs:99-107` | Reduces a deposit, or removes it when nothing is left |
| `ObligationAccounts.ObligationAccount.Repay` | `token-lending/sdk/src/state/obligation.rs:88-96` | Reduces a borrow, or removes it when nothing is left |
| `ObligationAccounts.ObligationAccount.Accrue` | `token-lending/sdk/src/state/obligation.rs:388-408` | Brings one borrow to the reserve's index; a lower index is an error |
| `ObligationAccounts.ObligationAccount.RefreshAll` | `token-lending/program/src/processor.rs:937-1112` | The whole refresh in place equals its specification, and a failed one changes nothing |
| `ObligationRefresh.RevalueDeposits` | `token-lending/program/src/processor.rs:958-1006` | The deposit loop, with its four running sums, computes its specification or fails at the same entry |
| `ObligationRefresh.RevalueLoans` | `token-lending/program/src/processor.rs:1008-1076` | The borrow loop, with its sums and the heaviest borrow so far, computes its specification or fails at the same entry |
| `ObligationRefresh.RetainLoans` | `token-lending/program/src/processor.rs:1101-1107` | Keeps exactly the nonzero borrows, in order |
| `ObligationRefresh.RetainDeposits` | `token-lending/program/src/processor.rs:1101-1107` | Keeps exactly the nonzero deposits, in order |
| `ObligationRefresh.RefreshedLimitsOrdered` | `token-lending/program/src/processor.rs:953-1092` | After a refresh allowed <= unhealthy <= super-unhealthy <= deposited value and borrowed <= upper bound, so nothing is both borrowable and liquidatable |
| `ObligationRefresh.RefreshedBorrows` | `token-lending/program/src/processor.rs:1040-1107` | The new borrows are exactly the nonzero accrued old ones, and none outweighs the first by (weight, address) |
| `RefreshTotals.RefreshedTotals` | `token-lending/program/src/processor.rs:953-1094` | Every stored total is the exact sum over the lists of each entry's value times its percentage or weight, capped at 65 and 70 million |
| `RefreshTotals.RefreshedValues` | `token-lending/program/src/processor.rs:958-1107` | Every entry that a refresh keeps carries its current value: a deposit that of the liquidity behind it, a borrow that of its debt at the reserve's index, both at the current price |
| `WithdrawLimits.MaxWithdrawIs` | `token-lending/sdk/src/state/obligation.rs:110-168` | What may be withdrawn: everything without borrows or at loan-to-value zero with room left, nothing without room, and otherwise as much as the room pays for, or so much that one token more would not fit |
| `BorrowingLimits.RefreshIsFresh` | `token-lending/program/src/processor.rs:953-1107` | A refresh leaves limits that are the exact sums over the lists it keeps, at the reserves' current indices |
| `BorrowingLimits.WithdrawThenRefresh` | `token-lending/sdk/src/state/obligation.rs:110-168` | A withdrawal that the maximum allows, then a refresh: the borrowed value exceeds the limit by at most floor(price / 10^decimals) + 1 units of 10^-18, for the lower price of one token |
| `BorrowingLimits.BorrowThenRefresh` | `token-lending/sdk/src/state/reserve.rs:255-314` | An accepted borrow, then a refresh against the reserves that booked it: the borrowed value exceeds the limit by at most floor(borrow weight) + 2 units of 10^-18 |
| `BorrowingLimits.BorrowCanShrinkItsLimit` | `token-lending/sdk/src/state/reserve.rs:796-809` | The one case left out: a borrow of part of a token from a reserve that owes its holders nothing ends the initial exchange rate, and collateral in that reserve no longer covers the debt |
| `BorrowingLimits.MaxBorrowPassesLimiters` | `token-lending/program/src/processor.rs:1655-1707` | A borrow clamped through both limiters' remaining outflow and the price is accepted by both in the same slot |
| `BorrowingLimits.ClampedRedeemPassesLimiters` | `token-lending/program/src/processor.rs:1440-1476` | A withdrawal clamped through limiters, price and exchange rate, then redeemed, is accepted by both in the same slot |
| `BorrowOutcomes.OutflowTokensAre` | `token-lending/program/src/processor.rs:1655-1683` | The clamp of a borrow is the smaller of the reserve's remaining outflow and the tokens that the market's remaining outflow, or the remaining borrow value, buys at the higher price |
| `BorrowOutcomes.OutflowCollateralIs` | `token-lending/program/src/processor.rs:1440-1476` | The clamp of a withdrawal is the collateral worth that many tokens at the current rate, with twice the deposited value as the ceiling, and no fewer |
| `LimitRuns.WithdrawStaysWithinLimit` | `token-lending/program/src/processor.rs:1350-1497` | Refresh, withdraw, refresh as instructions: the borrowed value exceeds the limit by at most floor(price / 10^decimals) + 1 units of 10^-18 |
| `LimitRuns.BorrowStaysWithinLimit` | `token-lending/program/src/processor.rs:1500-1777` | Refresh, borrow, refresh reserve and obligation as instructions: the borrowed value exceeds the limit by at most floor(borrow weight) + 2 units of 10^-18 |
| `Freshness.StepNeedsUpToDate` | `token-lending/sdk/src/state/last_update.rs:43-46` | No borrow, withdrawal, liquidation or write-off succeeds unless the obligation, and every reserve it prices with, is not stale and of the current slot; redemptions need it of the reserve |
| `Freshness.RefreshNeeds` | `token-lending/program/src/processor.rs:976-1031` | A refresh of an obligation succeeds only if every reserve it names is up to date |
| `Freshness.ChangeMarks` | `token-lending/sdk/src/state/last_update.rs:38-40` | Every deposit, withdrawal, borrow, repayment, liquidation and write-off leaves its obligation stale and all other obligations as they were |
| `Freshness.NoChangeKeeps` | `token-lending/program/src/processor.rs:44-194` | Every other instruction leaves an obligation exactly as it was, except its own refresh |
| `Freshness.LimitsAreUsedOnce` | `token-lending/program/src/processor.rs:1413-1648` | Over any run: once an instruction has changed an obligation, no borrow, withdrawal, liquidation or write-off of it succeeds before its next refresh, in whatever slot |
| `Freshness.LimitsAreOfThisSlot` | `token-lending/program/src/processor.rs:937-1112` | Over any run: an obligation that has become up to date is exactly what a successful refresh within the run, in the very same slot, made of it |
| `Tiers.BorrowKeepsTiers` | `token-lending/program/src/processor.rs:1615-1641` | A refresh followed by an accepted borrow leaves an obligation in which a borrow from an isolated reserve is the only one |
| `Tiers.TierCheckIsExact` | `token-lending/program/src/processor.rs:1615-1641` | For a refreshed obligation without fully repaid entries the tier check accepts exactly the borrows that keep the tiers apart |
| `Liquidation.BonusRateBounded` | `token-lending/sdk/src/state/reserve.rs:337-383` | The bonus rate of any liquidation is between 1 and 1.25, whatever the configuration, and only unhealthy obligations have one |
| `Liquidation.BonusGraded` | `token-lending/sdk/src/state/reserve.rs:337-383` | For a valid configuration the bonus lies between the minimum and the maximum bonus, each with the protocol fee, before the cap |
| `Seizure.BonusInterpolates` | `token-lending/sdk/src/state/reserve.rs:337-383` | The bonus is the minimum at the unhealthy limit, lies on the line to the maximum at the super-unhealthy limit and stays there; a ratio that overflows counts as beyond; with the protocol fee on top it is cut at a quarter |
| `Liquidation.LiquidationWithinPosition` | `token-lending/sdk/src/state/reserve.rs:386-486` | A liquidation of a nonempty deposit settles at most the debt and seizes at most the deposit |
| `Liquidation.LiquidationRepaysInFull` | `token-lending/sdk/src/state/reserve.rs:386-486` | The liquidator pays what is settled rounded up to whole tokens |
| `Liquidation.PartialLiquidationCapped` | `token-lending/sdk/src/state/obligation.rs:177-189` | A partial liquidation settles value of at most a fifth of the borrowed value, and at most 500000 |
| `Seizure.CapIs` | `token-lending/sdk/src/state/obligation.rs:177-189` | The cap of a partial liquidation is the part of the debt that the smallest of a fifth of the borrowed value, the debt and 500000 is worth, to within two floors |
| `Seizure.LiquidationTermsAre` | `token-lending/sdk/src/state/reserve.rs:386-486` | What is settled and seized, whatever the branch: the smaller of request and cap, or a dust debt whole; collateral worth that with the bonus, or all of it against as much of the debt as it is worth; each to within its floors |
| `Liquidation.SeizedAtMostBonus` | `token-lending/sdk/src/state/reserve.rs:386-486` | With collateral to spare, the seized share of its value is at most the bonus rate times the repaid debt's value, except for the one token taken when the share of a dust debt floors to none |
| `Seizure.SeizedAtLeastBonus` | `token-lending/sdk/src/state/reserve.rs:386-486` | ... and on every branch at least the bonus rate times the repaid debt's value, less one token of the collateral, a 10^-18 part of it and the stated three floors |
| `Seizure.AllTakenAtMostBonus` | `token-lending/sdk/src/state/reserve.rs:386-486` | When all of the collateral goes, its value is at most the bonus rate times the value of the settled debt plus one unit and a 10^-18 part of what was to be settled |
| `Liquidation.ProtocolFeeFits` | `token-lending/sdk/src/state/reserve.rs:492-507` | The protocol's fee fits the redeemed amount exactly if there is at least one token |
| `Seizure.ProtocolFeeIs` | `token-lending/sdk/src/state/reserve.rs:492-507` | The fee is its per-mille rate of the redeemed amount over the bonus rate, rounded up, at least one token, to within two floors |
| `Processor.LendingProgram.RefreshReserveInterest` | `token-lending/program/src/processor.rs:561-577` | Accrues and timestamps the stored reserve |
| `Processor.LendingProgram.ProcessRefreshReserve` | `token-lending/program/src/processor.rs:488-577` | Stores the new prices, then accrues |
| `Processor.LendingProgram.ProcessInitReserve` | `token-lending/program/src/processor.rs:300-486` | Creates a reserve from a valid configuration with a first deposit |
| `Processor.LendingProgram.DepositReserveLiquidity` | `token-lending/program/src/processor.rs:624-723` | Deposit under the deposit limit: reserve, vault and minted tokens together |
| `Processor.LendingProgram.ProcessDeposit` | `token-lending/program/src/processor.rs:579-621` | A deposit instruction |
| `Processor.LendingProgram.RecordOutflow` | `token-lending/program/src/processor.rs:842-863` | Both limiters record a redemption, market first |
| `Processor.LendingProgram.RedeemReserveCollateral` | `token-lending/program/src/processor.rs:774-888` | Redeem: limiters, reserve, burnt and paid tokens together |
| `Processor.LendingProgram.ProcessRedeem` | `token-lending/program/src/processor.rs:726-771` | A redeem instruction |
| `Processor.LendingProgram.ProcessInitObligation` | `token-lending/program/src/processor.rs:891-935` | A new obligation is empty and stale |
| `Processor.LendingProgram.ProcessRefreshObligation` | `token-lending/program/src/processor.rs:937-1112` | A refresh instruction on the stored obligation |
| `Processor.LendingProgram.DepositObligationCollateral` | `token-lending/program/src/processor.rs:1159-1238` | Collateral moves into the vault and onto the obligation |
| `Processor.LendingProgram.ProcessDepositCollateral` | `token-lending/program/src/processor.rs:1115-1156` | A collateral deposit instruction |
| `Processor.LendingProgram.ProcessDepositBoth` | `token-lending/program/src/processor.rs:1241-1306` | Deposit and lock in one instruction, refreshing the reserve in between |
| `Processor.LendingProgram.WithdrawObligationCollateral` | `token-lending/program/src/processor.rs:1350-1497` | Withdraws the smallest of the request, the limit and the clamped outflow |
| `Processor.LendingProgram.ProcessWithdraw` | `token-lending/program/src/processor.rs:1309-1347` | A withdraw instruction |
| `Processor.LendingProgram.ProcessWithdrawAndRedeem` | `token-lending/program/src/processor.rs:2173-2227` | Withdraw, then redeem what was withdrawn |
| `Processor.LendingProgram.PriceLoan` | `token-lending/program/src/processor.rs:1650-1683` | The terms of a borrow, and both limiters rolled |
| `Processor.LendingProgram.ProcessBorrow` | `token-lending/program/src/processor.rs:1500-1777` | A borrow: checks, terms, limiters, reserve, obligation and three transfers |
| `Processor.LendingProgram.BookBorrow` | `token-lending/program/src/processor.rs:1709-1777` | The accounts of a borrow packed and its tokens paid |
| `Processor.LendingProgram.ProcessRepay` | `token-lending/program/src/processor.rs:1780-1883` | A repayment: interest on one borrow, then reserve, vault and obligation |
| `Processor.LendingProgram.SettleRepayment` | `token-lending/program/src/processor.rs:1855-1883` | The settlement part of a repayment |
| `Processor.LendingProgram.LiquidateObligation` | `token-lending/program/src/processor.rs:1886-2079` | Repays the first borrow of an unhealthy obligation and seizes collateral |
| `Processor.LendingProgram.SettleLiquidation` | `token-lending/program/src/processor.rs:2050-2079` | The settlement part of a liquidation |
| `Processor.LendingProgram.ProcessLiquidate` | `token-lending/program/src/processor.rs:2082-2170` | Liquidate, then redeem as much as the reserve can pay, less the protocol fee |
| `Processor.LendingProgram.ProcessUpdateConfig` | `token-lending/program/src/processor.rs:2230-2370` | Stores the configuration and limiter that the signer may set |
| `Processor.LendingProgram.ProcessSetMarketConfig` | `token-lending/program/src/processor.rs:230-268` | Replaces the market's limiter exactly if its parameters change |
| `Processor.LendingProgram.ProcessRedeemFees` | `token-lending/program/src/processor.rs:2373-2450` | Pays the redeemable protocol fees out of the vault |
| `Processor.LendingProgram.ProcessFlashBorrow` | `token-lending/program/src/processor.rs:2484-2628` | The state part of a flash borrow |
| `Processor.LendingProgram.ProcessFlashRepay` | `token-lending/program/src/processor.rs:2666-2806` | The state part of a flash repay |
| `Processor.LendingProgram.ProcessForgive` | `token-lending/program/src/processor.rs:2808-2896` | Writes off debt of an obligation without deposits, keeping a hundredth of the collateral's face value |
| `Processor.LendingProgram.Process` | `token-lending/program/src/processor.rs:44-194` | Any instruction performs its specified step and a failed one leaves no trace; from a reachable state each keeps the invariant, every reserve it does not name and - unless it redeems, liquidates or forgives - every share price, and never finds a vault short |
| `Lending.CheckLiquidation` | `token-lending/program/src/processor.rs:1979-2013` | Only an unhealthy obligation is liquidated, and only its first borrow |
| `LendingRuns.StepSafe` | `token-lending/program/src/processor.rs:44-194` | Every successful instruction keeps the invariant: books and tokens agree, configurations, limiters and indices are in order, lists are well formed |
| `LendingRuns.RunKeepsSafe` | `token-lending/program/src/processor.rs:44-194` | ... and so does every run, failed instructions included |
| `LendingRuns.GenesisSafe` | `token-lending/program/src/processor.rs:196-228` | A new market satisfies the invariant |
| `LendingRuns.LedgerAlwaysBalances` | `token-lending/program/src/processor.rs:624-888` | In every reachable state each liquidity vault holds exactly the available amount, collateral tokens equal the recorded supply, and each collateral vault holds exactly the obligations' deposits |
| `LendingRuns.ObligationsAlwaysWellFormed` | `token-lending/sdk/src/state/obligation.rs:207-287` | Every reachable obligation has unique reserves in each list, at most ten entries, at most nine borrows, and no index ahead of its reserve's |
| `LendingRuns.UnreachableErrors` | `token-lending/program/src/processor.rs:1440-1707` | No reachable instruction finds a vault short or an interest index that went back, and neither a maximum borrow nor a withdraw-and-redeem is refused by a limiter |
| `LendingRuns.BorrowableIsNotLiquidatable` | `token-lending/program/src/processor.rs:1500-1648` | A freshly refreshed obligation cannot be both borrowed against and liquidated |
| `SharePrice.StepKeepsPrice` | `token-lending/program/src/processor.rs:44-194` | No instruction but redemption, liquidation and debt forgiveness lowers any reserve's share price |
| `SharePrice.RunKeepsPrice` | `token-lending/program/src/processor.rs:44-194` | ... over whole runs: M'·T <= M·T' for every reserve with tokens outstanding |
| `SharePrice.LiquidationRepayKeeps` | `token-lending/program/src/processor.rs:1886-2079` | The repayment half of a liquidation does not lower the share price |
| `SharePrice.RedeemInnerLoss` | `token-lending/program/src/processor.rs:774-888` | A redeem instruction costs the holders who stay at most c·T/e |
| `Untouched.StepLeaves` | `token-lending/program/src/processor.rs:44-194` | An instruction leaves every reserve it does not name, and its tokens, exactly as they were |
| `OutflowRuns.OthersKeep` | `token-lending/program/src/processor.rs:44-194` | No instruction but redemptions, borrows and changes of configuration touches an existing limiter |
| `OutflowRuns.LimitedRecords` | `token-lending/program/src/processor.rs:842-863` | Whatever a redemption, a withdraw-and-redeem or a borrow takes out of a reserve is recorded by both limiters, the market's by its value at the high price |
| `OutflowRuns.LimiterStep` | `token-lending/program/src/processor.rs:44-194` | ... and a reserve's limiter records nothing else |
| `OutflowRuns.ReserveOutflowBounded` | `token-lending/program/src/processor.rs:44-194` | Over any run of instructions that does not set it again, a reserve's limiter lets at most twice its maximum out of the reserve within any closed window of slots |
| `OutflowRuns.MarketOutflowBounded` | `token-lending/program/src/processor.rs:44-194` | ... and the market's limiter at most twice its maximum in value out of all reserves together |
| `InstructionEffects.DepositEffects` | `token-lending/program/src/processor.rs:579-723` | A deposit, after interest, brings exactly its amount into the vault and the available liquidity, mints and circulates floor(amount · refreshed rate) collateral tokens, leaves everything else alone and stays within the deposit limit |
| `ReserveEffects.InitialRate` | `token-lending/sdk/src/state/reserve.rs:796-809` | Where nothing is minted or nothing is owed to holders, a deposit mints one token a token |
| `ReserveEffects.InitReserveEffects` | `token-lending/program/src/processor.rs:300-486` | A new reserve holds the first deposit against as many collateral tokens, at index one, with a valid configuration, and is stale |
| `ReserveEffects.RefreshReserveEffects` | `token-lending/program/src/processor.rs:488-577` | A refresh stores the two prices and the slot; everything else in the reserve is accrued interest, and nothing else moves |
| `ReserveEffects.RedeemInstructionEffects` | `token-lending/program/src/processor.rs:726-888` | Redeeming burns the collateral, pays its quotient at the current rate out of available liquidity and vault, and both limiters record the payment |
| `ReserveEffects.DepositCollateralEffects` | `token-lending/program/src/processor.rs:1115-1238` | Depositing collateral moves exactly its amount from circulation into the vault and onto the one deposit; the reserve only accrues |
| `ReserveEffects.DepositBothEffects` | `token-lending/program/src/processor.rs:1241-1306` | Depositing liquidity into an obligation is a deposit of which exactly the minted tokens are then locked |
| `ReserveEffects.WithdrawAndRedeemEffects` | `token-lending/program/src/processor.rs:2173-2227` | The smaller of the request and what limits and limiters leave goes off the obligation, is burnt and is paid out at the current rate, and both limiters record the payment |
| `ReserveEffects.RedeemFeesEffects` | `token-lending/program/src/processor.rs:2373-2450` | Redeeming fees pays as many whole tokens of fees as there are, or all that is available, off fees, available liquidity and vault alike |
| `ReserveEffects.FlashBorrowEffects` | `token-lending/program/src/processor.rs:2484-2628` | A flash borrow books exactly its amount as debt and takes it out of available liquidity and vault, after interest, and needs flash loans to be enabled |
| `ReserveEffects.FlashRepayEffects` | `token-lending/program/src/processor.rs:2666-2806` | A flash repay brings exactly its amount back into available liquidity and vault and settles it as far as the total goes |
| `ReserveEffects.UpdateIs` | `token-lending/program/src/processor.rs:2230-2370` | Who may change what: the owner everything; the risk authority the two limits downwards only, the borrow fee, the curve, the weight and the take rate; the program's owner the fees |
| `ReserveEffects.ConfigEffects` | `token-lending/program/src/processor.rs:2230-2370` | The owner sets the limiter's parameters, the risk authority can only replace it by one that lets nothing out, the program's owner not at all; a replaced limiter is a new one; balances stay |
| `InstructionEffects.BorrowEffects` | `token-lending/program/src/processor.rs:1500-1777` | A borrow adds one amount to the debt in that reserve and to the reserve's total, touches no other debt or deposit, and takes the whole part of it, at least what was asked, out of the vault |
| `BorrowOutcomes.BorrowOutcome` | `token-lending/program/src/processor.rs:1500-1777` | The terms of an accepted borrow: priced with the remaining value, capacity and outflow; recorded by both limiters; booked as debt, while the received amount and the fee leave; a maximum borrow keeps the borrow limit, a fixed one keeps it up to its fee |
| `InstructionEffects.RepayEffects` | `token-lending/program/src/processor.rs:1780-1883` | A repayment settles the smaller of the offer and the accrued debt, all of it if asked, and brings in that much rounded up; the reserve, after its own interest, gains exactly those tokens and loses the settled part or its whole total; index, fees, mint supply, every other debt and every other obligation stay |
| `InstructionEffects.WithdrawEffects` | `token-lending/program/src/processor.rs:1309-1497` | A withdrawal needs obligation and reserve to be up to date and takes exactly the smaller of the request and the maximum, more than nothing, off the one deposit and out of the vault; every other deposit, debt, obligation and reserve stays |
| `InstructionEffects.LiquidationEffects` | `token-lending/program/src/processor.rs:1886-2170` | A whole liquidation of an up-to-date obligation: what may be settled is settled, unless all of the collateral goes, and repaid in full; the seizure is worth the bonus from above and below; debt, deposit, the reserve's total (by at most that total), both vaults and the collateral supply move by exactly those terms; as much as the reserve has liquidity for is redeemed at its quotient |
| `InstructionEffects.ForgiveEffects` | `token-lending/program/src/processor.rs:2808-2896` | Forgiving needs an up-to-date obligation without deposits, takes one amount off its debt and the reserve's total, moves no tokens and leaves the reserve at least a hundredth of its collateral; the amount is what was asked, unless that is all of the debt or leaves exactly that hundredth |
| `FlashLoans.FindRepay` | `token-lending/program/src/processor.rs:2552-2617` | The scan after a flash borrow, with its index and flag, computes its specification and terminates |
| `FlashLoans.ScanIff` | `token-lending/program/src/processor.rs:2552-2617` | The scan accepts exactly the transactions in which one flash instruction follows and it repays this borrow |
| `FlashLoans.FlashDiscipline` | `token-lending/program/src/processor.rs:2543-2766` | In every successful transaction a flash borrow is followed by exactly one repay naming its index, reserve and amount; no repay exists without it; there is at most one of each |
| `FlashLoans.FlashPairRestores` | `token-lending/program/src/processor.rs:2619-2772` | A flash borrow and its repay restore available liquidity, debt and tokens, apart from interest accrued first |
| `FlashLoans.FlashLoanRestoresReserve` | `token-lending/program/src/processor.rs:2543-2772` | ... in every successful transaction in which nothing between the two names the reserve |
| `FlashLoans.TransactionSafe` | `token-lending/program/src/processor.rs:44-194` | Transactions keep the invariant of the lending program |
| `Bytes.SplitFlatten` | `token-lending/sdk/src/state/obligation.rs:416-451` | Cutting a buffer into fixed pieces undoes joining them |
| `Bytes.SplicePiece` | `token-lending/sdk/src/state/obligation.rs:416-451` | Writing one piece in place replaces that piece and nothing else |
| `ObligationCodec.FieldsRead` | `token-lending/sdk/src/state/mod.rs:39-63` | Integers, decimals below 2^128 and addresses are read back as written |
| `ObligationCodec.DepositRoundTrip` | `token-lending/sdk/src/state/obligation.rs:476-486` | A deposit entry is read back as written |
| `ObligationCodec.LoanRoundTrip` | `token-lending/sdk/src/state/obligation.rs:489-511` | A borrow entry is read back as written |
| `ObligationCodec.UnpackPack` | `token-lending/sdk/src/state/obligation.rs:415-616` | Unpacking undoes packing whenever all decimals fit 128 bits and the lists fit the shared bytes |
| `ObligationCodec.PackUnpack` | `token-lending/sdk/src/state/obligation.rs:415-616` | An account read from a buffer packs back into the very same bytes |
| `ObligationLayout.HeaderLayout` | `token-lending/sdk/src/state/obligation.rs:418-470` | Which bytes of an account hold which field, little-endian numbers and addresses at fixed offsets |
| `ObligationLayout.DepositLayout` | `token-lending/sdk/src/state/obligation.rs:473-486` | The i-th deposit lies at 204 + 88·i: address, amount, value |
| `ObligationLayout.LoanLayout` | `token-lending/sdk/src/state/obligation.rs:488-511` | With d deposits the i-th borrow lies at 204 + 88·d + 112·i: address, index, debt, value |
| `ObligationCodec.FitsIffNineBorrows` | `token-lending/sdk/src/state/obligation.rs:411-451` | With at most ten entries, the lists fit the shared 1096 bytes exactly if at most nine are borrows |
| `ObligationCodec.ReachableRoundTrip` | `token-lending/sdk/src/state/obligation.rs:415-616` | Every obligation of a reachable state survives packing and unpacking |
| `ObligationBuffers.PackDeposits` | `token-lending/sdk/src/state/obligation.rs:473-486` | The deposit loop writes entry after entry and panics past the end or on a wide decimal |
| `ObligationBuffers.PackLoans` | `token-lending/sdk/src/state/obligation.rs:488-511` | The borrow loop writes entry after entry and panics past the end or on a wide decimal |
| `ObligationBuffers.PackHeader` | `token-lending/sdk/src/state/obligation.rs:453-469` | The header fields land in their pieces; the padding is kept |
| `ObligationBuffers.PackIntoSlice` | `token-lending/sdk/src/state/obligation.rs:418-512` | Packing in place succeeds exactly on accounts that pack, and leaves exactly their bytes |
| `ObligationBuffers.UnpackLists` | `token-lending/sdk/src/state/obligation.rs:556-594` | The reading loops push as many entries as counted, or panic |
| `ObligationBuffers.UnpackFromSlice` | `token-lending/sdk/src/state/obligation.rs:515-616` | Reading in place equals its specification, with the version, count and boolean errors |
| `RewardQueues.RewardQueue.constructor` | `restaking/programs/pool-manager/src/lib.rs:60-65` | A new queue has the given capacity and an empty log |
| `RewardQueues.RewardQueue.Append` | `restaking/programs/pool-manager/src/lib.rs:1230-1245` | Appends to the unbounded log, whatever the ring overwrites; head − tail stays at most capacity − 1; no slots or an exhausted counter panic |
| `RewardQueues.RewardQueue.Get` | `restaking/programs/pool-manager/src/lib.rs:1255-1257` | From tail to head, the k-th event ever appended |
| `RewardQueues.NoAvailableRewards` | `restaking/programs/pool-manager/src/lib.rs:1430-1455` | Refuses exactly the stakers with pool tokens for whom a live event at or after their cursor is later than their last stake |
| `RewardQueues.FullIff` | `restaking/programs/pool-manager/src/lib.rs:1238-1241` | The test on two slots tells exactly whether the ring is full |
| `RewardQueues.StakerAccount.ClaimReward` | `restaking/programs/pool-manager/src/lib.rs:427-460` | An eligible claim moves the cursor past its reward; anything else leaves it |
| `RewardQueues.ShareBrackets` | `restaking/programs/pool-manager/src/lib.rs:427-437` | A claim pays the staker's part of the reward by pool tokens, floored, and never nothing |
| `RewardQueues.RewardIsEnough` | `restaking/programs/pool-manager/src/lib.rs:427-437` | However many stakers claim, holding together no more than the supply at the drop, they are paid no more than was dropped |
| `RewardQueues.StakerAccount.RecordStake` | `restaking/programs/pool-manager/src/lib.rs:130-185` | A stake goes through exactly if no reward waits, and then moves the timestamp |
| `RewardQueues.NoRewardPaidTwice` | `restaking/programs/pool-manager/src/lib.rs:1413-1426` | Over any run each staker is paid for strictly later and later rewards, so never twice for one |
| `RewardQueues.ClaimForfeitsEarlier` | `restaking/programs/pool-manager/src/lib.rs:1413-1426` | After a claim, that reward and all earlier ones are refused |
| `RewardQueues.StakeLeavesNoReward` | `restaking/programs/pool-manager/src/lib.rs:1430-1455` | After a stake with pool tokens, a live reward that was still claimable had been dropped at the very instant of the previous stake |
| `LockerVesting.UnlockIs` | `restaking/programs/locker-manager/src/calculator.rs:45-84` | Within the window the schedule is period·share plus the rest of the balance, or panics, depending on one condition on the schedule |
| `LockerVesting.DefinedIff` | `restaking/programs/locker-manager/src/calculator.rs:35-84` | The schedule is defined at all times if and only if the window ends before the epoch or starts no earlier than (end − start) mod periods |
| `LockerVesting.VestedInPeriods` | `restaking/programs/locker-manager/src/calculator.rs:45-84` | Within the window the vested amount is the share of the whole periods that have passed, rounded up by less than the period count; a period is the window lengthened by the shift over their number, floored |
| `LockerVesting.VestedMonotone` | `restaking/programs/locker-manager/src/calculator.rs:35-84` | Vesting never goes back, never exceeds the balance, and is complete at the end |
| `LockerVesting.FullBeforeEndIff` | `restaking/programs/locker-manager/src/calculator.rs:55-76` | Everything vests before the end if and only if there are more periods than tokens or twice the shift is not a multiple of the periods |
| `LockerVesting.FullTooEarly` | `restaking/programs/locker-manager/src/calculator.rs:55-76` | A concrete schedule that is complete one second early |
| `LockerVesting.UncomputableLocksUntilEnd` | `restaking/programs/locker-manager/src/calculator.rs:5-61` | When the schedule cannot be computed, every withdrawal within the window panics |
| `LockerVesting.CreatedOk` | `restaking/programs/locker-manager/src/lib.rs:58-93` | A new locker has a valid schedule and satisfies the invariant |
| `LockerVesting.AvailableIs` | `restaking/programs/locker-manager/src/calculator.rs:5-31` | What may be withdrawn is defined, within what is left - within the vault if that is backed - and leaves no more withdrawn than vested |
| `LockerVesting.WithdrawIff` | `restaking/programs/locker-manager/src/lib.rs:95-121` | With the books in order, a withdrawal passes if and only if the locker is released and the amount has vested, is not withdrawn and is not sent out; it comes off the balance |
| `LockerVesting.ActKeepsBooks` | `restaking/programs/locker-manager/src/lib.rs:95-176` | As written: whatever a relayed call moves, no action puts the books out of order or panics, and no return succeeds |
| `LockerVesting.RunKeepsBooks` | `restaking/programs/locker-manager/src/lib.rs:95-176` | As written, over any run: withdrawn <= vested(now) and whitelist_owned <= current_balance |
| `LockerVesting.RunFallsBehind` | `restaking/programs/locker-manager/src/lib.rs:125-148` | As written: the vault falls behind the books by exactly what the sends took, and whitelist_owned never changes |
| `LockerVesting.RelayKeepsOkIff` | `restaking/programs/locker-manager/src/lib.rs:125-176` | As written: a successful relayed call keeps the vault backed if and only if it moves nothing |
| `LockerVesting.RunKeepsOkIff` | `restaking/programs/locker-manager/src/lib.rs:95-176` | As written: a run keeps the vault backed if and only if its sends cancel out |
| `LockerVesting.ShortIff` | `restaking/programs/locker-manager/src/lib.rs:95-121` | A withdrawal finds the vault short if and only if it asks for more than the vault holds and no more than the calculator says is available |
| `LockerVesting.VaultFallsShort` | `restaking/programs/locker-manager/src/lib.rs:125-148` | A new locker, a send with limit zero, and a withdrawal of what is available that finds the vault empty |
| `LockerVesting.ActKeepsOk` | `restaking/programs/locker-manager/src/lib.rs:125-176` | What the bookkeeping is written for, with the vault loaded again after the call: withdrawals, sends and returns keep the vault backed and never find it short |
| `LockerVesting.RunKeepsOk` | `restaking/programs/locker-manager/src/lib.rs:125-176` | ... over any run, under that reading: withdrawn <= vested(now), whitelist_owned <= current_balance, and the vault holds the difference |
| `LockerVesting.LockerAccount.WithdrawVested` | `restaking/programs/locker-manager/src/lib.rs:95-121` | A withdrawal in place equals its specification |
| `LockerVesting.LockerAccount.WithdrawToWhitelist` | `restaking/programs/locker-manager/src/lib.rs:125-148` | As written: it fails only if the relayed call does, the locker is unchanged and the limit unused, whatever was moved |
| `LockerVesting.LockerAccount.DepositFromWhitelist` | `restaking/programs/locker-manager/src/lib.rs:151-176` | As written: it always fails, and the locker is unchanged |
| `LockerVesting.LockerAccount.RecordSent` | `restaking/programs/locker-manager/src/lib.rs:137-145` | The bookkeeping of a send for any two readings of the vault, of which the code only ever supplies equal ones |
| `LockerVesting.LockerAccount.RecordReturned` | `restaking/programs/locker-manager/src/lib.rs:163-173` | The bookkeeping of a return for any two readings of the vault, of which the code only ever supplies equal ones |
| `SupplyToEarn.DurationIsOverlap` | `reearn/programs/reearn_program/src/state/supply_to_earn.rs:49-70` | For a window that is not reversed the duration is the length of [last, now] ∩ [start, end], exactly as long as that fits 63 bits |
| `SupplyToEarn.NeverNegativeIffOrdered` | `reearn/programs/reearn_program/src/state/supply_to_earn.rs:49-70` | The duration is never negative if and only if the window is not reversed; a reversed one counts as almost 2^64 seconds |
| `SupplyToEarn.PartitionAddsUp` | `reearn/programs/reearn_program/src/state/supply_to_earn.rs:49-70` | However a span is divided, its pieces count for as long as the whole |
| `SupplyToEarn.RewardIsExact` | `reearn/programs/reearn_program/src/state/supply_to_earn.rs:34-46` | The reward is supply · yearly percentage · overlap seconds / (365 · 86400 · 100), rescaled between the two tokens' decimals, to within one raw token and the floors of its decimals |
| `SupplyToEarn.RewardSplits` | `reearn/programs/reearn_program/src/state/supply_to_earn.rs:34-46` | A reward over a span is at least the rewards over two parts of it, and at most two raw tokens more |
| `SupplyToEarn.InterleavingsPayTheSame` | `reearn/programs/reearn_program/src/instructions/supply_to_earn.rs:104-127` | At constant supply and rate any interleaving of refreshes and claims pays and accrues at most one claim over the whole span, and falls short by at most two raw tokens an operation |
| `SupplyToEarn.ReserveRewardAccount.SupplyToEarn` | `reearn/programs/reearn_program/src/instructions/supply_to_earn.rs:80-130` | The refresh in place: initialise, accrue, or reset when the deposit is gone |
| `SupplyToEarn.ReserveRewardAccount.ClaimReward` | `reearn/programs/reearn_program/src/instructions/claim_ste_reward.rs:109-154` | The claim in place: pays and clears what has accrued, or fails without a deposit |

## Left out

- RateLimiters.ClosedWindowAtMostTwice: slots at or above 2^63, where `window_start + window_duration` would
  wrap around 64 bits, are outside this theorem and outside the reachable states of the lending program.
- LendingRuns.LedgerAlwaysBalances: covers what the program's own instructions move; tokens that anybody sends
  into a vault or burns from a wallet directly are not modelled.
- LimitRuns.BorrowStaysWithinLimit: leaves out "maximum" borrows from a reserve with M > 0 and T = 0 in which the
  obligation also has a deposit; there the bound can fail (`BorrowingLimits.BorrowCanShrinkItsLimit`).
- SharePrice.RunKeepsPrice: leaves out redemptions, liquidations and debt forgiveness; the first two have a
  bound for one step, the last lowers the price by design.
- Liquidation.LiquidationWithinPosition: asks for a nonempty deposit, because clearing dust seizes at least one
  token.
- Tiers.BorrowKeepsTiers: for a refresh with the borrow right after it; a configuration update in between can
  change the tier of a reserve that is already borrowed from.
- OutflowRuns.ReserveOutflowBounded: from the moment the limiter is set; setting it again starts a new bound.
- InterestBounds.BorrowRateInterpolates: for configurations whose values passed validation.
- SupplyToEarn.InterleavingsPayTheSame: supply, rate and window are constant over the run, and the window's
  length fits 63 bits.
- LockerVesting.ActKeepsOk: about the bookkeeping as it was meant; for the code as written see `ActKeepsBooks`.
- DebtTotals.DebtsOutgrowByAtMost: about accruals and refreshes; borrows and repayments in between move the debts
  and the total together and are not part of this bound.
- FlashLoans.FlashDiscipline: the account lists of flash instructions are taken to be complete, so the reserve
  each one names is known.
- Account ownership, signers, program-derived addresses, rent and the whitelisted liquidator: guards outside
  the accounting.
- The host fee account of a borrow: the fee leaves the vault whether or not a host is present.
- Balances of users: what they hold is counted only in sum, and only as collateral tokens.
- Oracles: the two prices are inputs of a refresh.
- Market administration other than the market's limiter (owner, risk authority, whitelisted liquidator, metadata):
  plain assignments.
- The byte form of reserves, markets and instructions, other than the fields an unpacked configuration is
  normalised to: long straight copies.
- Staking, unstaking and reward token flows beyond the queue and the cursors; the locker's whitelist.
- The floating-point yearly rate: the model starts from the whole percentage.
- Borrow-to-earn rewards and the reward program's settings: plain assignments.
- Command line, clients, scripts and deployment.
