/** `Rate::try_pow` (token-lending/sdk/src/math/rate.rs): square-and-multiply in which every product
    is floored to 18 decimals, bracketed between the exact power and the linear bound. */
module RatePower {
  import opened Results
  import opened FloorMath
  import opened FixedPoint

  /** What the loop computes from (`base`, `exp`, `ret`). */
  function PowLoop(base: Rate, exp: u64, ret: Rate): Result<Rate>
    decreases exp
  {
    if exp == 0 then Ok(ret)
    else
      var e: u64 := exp / 2;
      var b :- RateMul(base, base);
      if e % 2 != 0 then
        var t :- RateMul(ret, b);
        PowLoop(b, e, t)
      else
        PowLoop(b, e, ret)
  }

  function PowSpec(base: Rate, exp: u64): Result<Rate> {
    PowLoop(base, exp, if exp % 2 != 0 then base else WAD)
  }

  method TryPow(self: Rate, exponent: u64) returns (r: Result<Rate>)
    ensures r == PowSpec(self, exponent)
  {
    var base: Rate, exp: u64 := self, exponent;
    var ret: Rate := if exp % 2 != 0 then base else WAD;
    while exp > 0
      invariant PowLoop(base, exp, ret) == PowSpec(self, exponent)
      decreases exp
    {
      exp := exp / 2;
      var squared := RateMul(base, base);
      if squared.Err? { return Err(squared.error); }
      base := squared.value;
      if exp % 2 != 0 {
        var product := RateMul(ret, base);
        if product.Err? { return Err(product.error); }
        ret := product.value;
      }
    }
    return Ok(ret);
  }

  /** Exact powers of unscaled naturals. */
  ghost function Pow(b: nat, e: nat): nat {
    if e == 0 then 1 else b * Pow(b, e - 1)
  }

  lemma {:induction false} PowDouble(b: nat, m: nat)
    ensures Pow(b, 2 * m) == Pow(b * b, m)
  {
    if m > 0 {
      PowDouble(b, m - 1);
      var p := Pow(b, 2 * m - 2);
      assert Pow(b, 2 * m) == b * Pow(b, 2 * m - 1) == b * (b * p);
      Assoc(b, b, p);
    }
  }

  lemma {:induction false} PowOfProduct(a: nat, b: nat, m: nat)
    ensures Pow(a * b, m) == Pow(a, m) * Pow(b, m)
  {
    if m > 0 {
      PowOfProduct(a, b, m - 1);
      Shuffle(a, b, Pow(a, m - 1), Pow(b, m - 1));
    }
  }

  lemma {:induction false} PowMono(a: nat, b: nat, m: nat)
    requires a <= b
    ensures Pow(a, m) <= Pow(b, m)
  {
    if m > 0 {
      PowMono(a, b, m - 1);
      MulMono(a, b, Pow(a, m - 1));
      MulMono(Pow(a, m - 1), Pow(b, m - 1), b);
    }
  }

  /** One squaring step scales up to the exact square: if b·w <= a² then b^m·w^m <= a^(2m). */
  lemma SquareStep(a: nat, b: nat, w: nat, m: nat)
    requires b * w <= a * a
    ensures Pow(b, m) * Pow(w, m) <= Pow(a, 2 * m)
  {
    PowOfProduct(b, w, m);
    PowMono(b * w, a * a, m);
    PowDouble(a, m);
  }

  lemma PowTwoMore(b: nat, m: nat)
    ensures Pow(b, 2 * m + 2) == b * b * Pow(b, 2 * m)
  {
    var p := Pow(b, 2 * m);
    assert Pow(b, 2 * m + 2) == b * Pow(b, 2 * m + 1) == b * (b * p);
    Assoc(b, b, p);
  }

  /** One step of the upper bracket when the current bit of the exponent is 0. */
  lemma UpperStepEven(r: nat, t: nat, base: nat, b: nat, w: nat, m: nat)
    requires b * w <= base * base && r * Pow(w, m) <= t * Pow(b, m)
    ensures r * Pow(w, 2 * m) <= t * Pow(base, 2 * m)
  {
    var wm, bm := Pow(w, m), Pow(b, m);
    SquareStep(base, b, w, m);
    PowDouble(w, m);
    PowOfProduct(w, w, m);
    MulMono(r * wm, t * bm, wm);
    MulMono(bm * wm, Pow(base, 2 * m), t);
    Assoc(r, wm, wm);
    Assoc(t, bm, wm);
  }

  /** ... and when it is 1, so that `t` is the floored product of `ret` and `b`. */
  lemma UpperStepOdd(r: nat, ret: nat, t: nat, base: nat, b: nat, w: nat, m: nat)
    requires b * w <= base * base && r * Pow(w, m) <= t * Pow(b, m) && t * w <= ret * b
    ensures r * Pow(w, 2 * m + 2) <= ret * Pow(base, 2 * m + 2)
  {
    hide Pow;
    var w2m, a2m := Pow(w, 2 * m), Pow(base, 2 * m);
    UpperStepEven(r, t, base, b, w, m);
    PowTwoMore(w, m);
    PowTwoMore(base, m);
    MulMono(r * w2m, t * a2m, w * w);
    MulMono(t * w, ret * b, w);
    MulMono(b * w, base * base, ret);
    Assoc(t, w, w);
    Assoc(ret, b, w);
    MulMono(t * (w * w), ret * (base * base), a2m);
    Assoc(r, w2m, w * w);
    Assoc(t, a2m, w * w);
    Assoc(ret, base * base, a2m);
  }

  lemma {:induction false} LoopAtMostExact(base: Rate, exp: u64, ret: Rate)
    requires PowLoop(base, exp, ret).Ok?
    ensures PowLoop(base, exp, ret).value * Pow(WAD, exp - exp % 2) <= ret * Pow(base, exp - exp % 2)
    decreases exp
  {
    if exp > 0 {
      var e: u64 := exp / 2;
      var b := RateMul(base, base).value;
      var t := if e % 2 != 0 then RateMul(ret, b).value else ret;
      LoopAtMostExact(b, e, t);
      var r := PowLoop(base, exp, ret).value;
      if e % 2 != 0 {
        UpperStepOdd(r, ret, t, base, b, WAD, e - 1);
      } else {
        UpperStepEven(r, ret, base, b, WAD, e);
      }
    }
  }

  /** Multiplying 1 + i by 1 + j and flooring gives at least 1 + i + j. */
  lemma ProductGain(a: nat, b: nat, p: nat, w: nat)
    requires a >= w > 0 && b >= w && a * b < p * w + w
    ensures p >= a + b - w
  {
    var i, j := a - w, b - w;
    assert a * b == (w + i + j) * w + i * j;
    MulCancelStrict(w + i + j, p + 1, w);
  }

  lemma {:induction false} LoopAtLeastLinear(base: Rate, exp: u64, ret: Rate)
    requires base >= WAD && ret >= WAD && PowLoop(base, exp, ret).Ok?
    ensures PowLoop(base, exp, ret).value >= ret + (exp - exp % 2) * (base - WAD)
    decreases exp
  {
    if exp > 0 {
      var e: u64 := exp / 2;
      var b := RateMul(base, base).value;
      var i, j := base - WAD, b - WAD;
      ProductGain(base, base, b, WAD);
      MulMono(2 * i, j, e);
      Assoc(2, e, i);
      if e % 2 != 0 {
        var t := RateMul(ret, b).value;
        ProductGain(ret, b, t, WAD);
        LoopAtLeastLinear(b, e, t);
        Distribute(j, e - 1, 1);
      } else {
        LoopAtLeastLinear(b, e, ret);
      }
    }
  }

  /** The computed power never exceeds the exact one: r <= base^exp, with both scaled by 10^18. */
  lemma PowAtMostExact(base: Rate, exp: u64)
    requires PowSpec(base, exp).Ok?
    ensures PowSpec(base, exp).value * Pow(WAD, exp) <= WAD * Pow(base, exp)
  {
    LoopAtMostExact(base, exp, if exp % 2 != 0 then base else WAD);
    if exp % 2 != 0 {
      var r, p, q := PowSpec(base, exp).value, Pow(WAD, exp - 1), Pow(base, exp - 1);
      MulMono(r * p, base * q, WAD);
      Assoc(r, WAD, p);
      Assoc(WAD, r, p);
      Assoc(WAD, base, q);
    }
  }

  /** For a base 1 + i the computed power is at least 1 + exp·i, in spite of a floor at every step. */
  lemma PowAtLeastLinear(base: Rate, exp: u64)
    requires base >= WAD && PowSpec(base, exp).Ok?
    ensures PowSpec(base, exp).value >= WAD + exp * (base - WAD)
  {
    LoopAtLeastLinear(base, exp, if exp % 2 != 0 then base else WAD);
    if exp % 2 != 0 {
      Distribute(base - WAD, exp - 1, 1);
    }
  }
}
