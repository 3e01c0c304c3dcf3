/** Fixed-point numbers scaled by 10^18 (token-lending/sdk/src/math).

    A `Decimal` is its scaled 192-bit value, a `Rate` its scaled 128-bit value.  Multiplication and
    division floor; a result (or an intermediate product) that does not fit, and a zero divisor, is
    `MathOverflow`.  Contracts bracket each floored result so that callers only multiply.
  */
module FixedPoint {
  import opened Results
  import opened FloorMath

  const WAD: nat := 1_000_000_000_000_000_000
  const HALF_WAD: nat := 500_000_000_000_000_000
  const PERCENT_SCALER: nat := 10_000_000_000_000_000

  const U32: nat := 0x1_0000_0000
  const U64: nat := 0x1_0000_0000_0000_0000
  const U128: nat := 0x1_0000_0000_0000_0000_0000_0000_0000_0000
  const U192: nat := 0x1_0000_0000_0000_0000_0000_0000_0000_0000_0000_0000_0000_0000
  const U64_MAX: u64 := 0xFFFF_FFFF_FFFF_FFFF

  type u8 = x: nat | x < 256
  type u32 = x: nat | x < 0x1_0000_0000
  type u64 = x: nat | x < 0x1_0000_0000_0000_0000
  type i64 = x: int | -0x8000_0000_0000_0000 <= x < 0x8000_0000_0000_0000
  type Rate = x: nat | x < 0x1_0000_0000_0000_0000_0000_0000_0000_0000
  type Decimal = x: nat | x < 0x1_0000_0000_0000_0000_0000_0000_0000_0000_0000_0000_0000_0000

  function Min(a: nat, b: nat): nat { if a <= b then a else b }

  function Max(a: nat, b: nat): nat { if a <= b then b else a }

  /** `as u64` on a signed number. */
  function AsU64(n: i64): u64 { if n >= 0 then n else n + U64 }

  /** Signed arithmetic without overflow checks. */
  function WrapI64(n: int): i64 { (n + 0x8000_0000_0000_0000) % U64 - 0x8000_0000_0000_0000 }

  function FromInt(n: u64): Decimal { n * WAD }

  function Percent(p: u8): Rate { p * PERCENT_SCALER }

  function Add(a: Decimal, b: Decimal): Result<Decimal> {
    if a + b < U192 then Ok(a + b) else Err(MathOverflow)
  }

  function Sub(a: Decimal, b: Decimal): Result<Decimal> {
    if b <= a then Ok(a - b) else Err(MathOverflow)
  }

  function Mul(a: Decimal, b: Decimal): (r: Result<Decimal>)
    ensures r.Ok? ==> r.value * WAD <= a * b < r.value * WAD + WAD
  {
    if a * b < U192 then Ok(a * b / WAD) else Err(MathOverflow)
  }

  function MulInt(a: Decimal, n: u64): Result<Decimal> {
    if a * n < U192 then Ok(a * n) else Err(MathOverflow)
  }

  function Div(a: Decimal, b: Decimal): (r: Result<Decimal>)
    ensures r.Ok? ==> b > 0 && r.value * b <= a * WAD < r.value * b + b
  {
    if a * WAD >= U192 || b == 0 then Err(MathOverflow)
    else
      FloorBounds(a * WAD, b);
      FloorAtMostSelf(a * WAD, b);
      Ok(a * WAD / b)
  }

  function DivInt(a: Decimal, n: u64): (r: Result<Decimal>)
    ensures r.Ok? ==> n > 0 && r.value * n <= a < r.value * n + n
  {
    if n == 0 then Err(MathOverflow)
    else
      FloorBounds(a, n);
      FloorAtMostSelf(a, n);
      Ok(a / n)
  }

  function ToRate(a: Decimal): Result<Rate> {
    if a < U128 then Ok(a) else Err(MathOverflow)
  }

  function RateMul(a: Rate, b: Rate): (r: Result<Rate>)
    ensures r.Ok? ==> r.value * WAD <= a * b < r.value * WAD + WAD
  {
    if a * b < U128 then Ok(a * b / WAD) else Err(MathOverflow)
  }

  function RateDiv(a: Rate, b: Rate): (r: Result<Rate>)
    ensures r.Ok? ==> b > 0 && r.value * b <= a * WAD < r.value * b + b
  {
    if a * WAD >= U128 || b == 0 then Err(MathOverflow)
    else
      FloorBounds(a * WAD, b);
      FloorAtMostSelf(a * WAD, b);
      Ok(a * WAD / b)
  }

  function RateAdd(a: Rate, b: Rate): Result<Rate> {
    if a + b < U128 then Ok(a + b) else Err(MathOverflow)
  }

  function RateSub(a: Rate, b: Rate): Result<Rate> {
    if b <= a then Ok(a - b) else Err(MathOverflow)
  }

  function FloorU64(a: Decimal): (r: Result<u64>)
    ensures r.Ok? ==> r.value * WAD <= a < r.value * WAD + WAD
  {
    if a / WAD < U64 then Ok(a / WAD) else Err(MathOverflow)
  }

  function CeilU64(a: Decimal): (r: Result<u64>)
    ensures r.Ok? ==> a <= r.value * WAD < a + WAD
  {
    if WAD - 1 + a < U192 && (WAD - 1 + a) / WAD < U64 then Ok((WAD - 1 + a) / WAD) else Err(MathOverflow)
  }

  function RoundU64(a: Decimal): (r: Result<u64>)
    ensures r.Ok? ==> r.value * WAD <= a + HALF_WAD < r.value * WAD + WAD
  {
    if HALF_WAD + a < U192 && (HALF_WAD + a) / WAD < U64 then Ok((HALF_WAD + a) / WAD) else Err(MathOverflow)
  }

  /** The product with a fraction. */
  function Scaled(a: nat, b: nat): (r: nat)
    ensures r * WAD <= a * b < r * WAD + WAD
  {
    a * b / WAD
  }

  /** Arithmetic fails in one way only. */
  lemma OnlyMathOverflow(a: Decimal, b: Decimal, n: u64)
    ensures Add(a, b).Err? ==> Add(a, b).error == MathOverflow
    ensures Sub(a, b).Err? ==> Sub(a, b).error == MathOverflow
    ensures Mul(a, b).Err? ==> Mul(a, b).error == MathOverflow
    ensures MulInt(a, n).Err? ==> MulInt(a, n).error == MathOverflow
    ensures Div(a, b).Err? ==> Div(a, b).error == MathOverflow
    ensures DivInt(a, n).Err? ==> DivInt(a, n).error == MathOverflow
    ensures FloorU64(a).Err? ==> FloorU64(a).error == MathOverflow
    ensures CeilU64(a).Err? ==> CeilU64(a).error == MathOverflow
    ensures RoundU64(a).Err? ==> RoundU64(a).error == MathOverflow
  {
  }

  /** A product or a quotient fails on what the code computes on the way, also where the result itself would
      fit; a conversion fails exactly if its result does not fit 64 bits. */
  lemma FailsIff(a: Decimal, b: Decimal)
    ensures Mul(a, b).Err? <==> a * b >= U192
    ensures Div(a, b).Err? <==> a * WAD >= U192 || b == 0
    ensures FloorU64(a).Err? <==> a >= U64 * WAD
    ensures CeilU64(a).Err? <==> a > FromInt(U64_MAX)
    ensures RoundU64(a).Err? <==> a + HALF_WAD >= U64 * WAD
  {
  }

  /** A factor of at most one does not enlarge a value. */
  lemma ScaledAtMost(factor: nat, value: nat)
    requires factor <= WAD
    ensures factor * value <= WAD * value
    ensures factor * value / WAD <= value
  {
    MulMono(factor, WAD, value);
    FloorAtMost(factor * value, WAD, value);
  }
}
