/** Facts about flooring division that the accounting proofs use, stated without `/` on the
    right-hand side where possible so that later proofs only multiply. */
module FloorMath {
  lemma FloorBounds(n: nat, d: nat)
    requires d > 0
    ensures (n / d) * d <= n < (n / d) * d + d
  {
  }

  /** The quotient, known by its bracket. */
  function Quot(n: nat, d: nat): (q: nat)
    requires d > 0
    ensures q * d <= n < q * d + d
  {
    n / d
  }

  /** The remainder. */
  function Rem(n: nat, d: nat): (r: nat)
    requires d > 0
    ensures r < d
  {
    n - Quot(n, d) * d
  }

  lemma Assoc(a: int, b: int, c: int)
    ensures (a * b) * c == a * (b * c) == (a * c) * b
  {
  }

  lemma Shuffle(a: int, b: int, c: int, d: int)
    ensures (a * b) * (c * d) == (a * c) * (b * d)
  {
  }

  lemma Distribute(a: int, b: int, c: int)
    ensures a * (b + c) == a * b + a * c && (b + c) * a == b * a + c * a
  {
  }

  lemma MulMono(a: nat, b: nat, c: nat)
    requires a <= b
    ensures a * c <= b * c && c * a <= c * b
  {
    assert b * c == a * c + (b - a) * c;
  }

  lemma MulCancel(a: nat, b: nat, c: nat)
    requires c > 0 && a * c <= b * c
    ensures a <= b
  {
    if b < a { MulMono(b + 1, a, c); }
  }

  lemma MulCancelStrict(a: nat, b: nat, c: nat)
    requires a * c < b * c
    ensures a < b
  {
    if b <= a { MulMono(b, a, c); }
  }

  lemma FloorAtMost(n: nat, d: nat, q: nat)
    requires d > 0 && n <= q * d
    ensures n / d <= q
  {
    FloorBounds(n, d);
    MulCancel(n / d, q, d);
  }

  lemma FloorAtMostSelf(n: nat, d: nat)
    requires d > 0
    ensures n / d <= n
  {
    MulMono(1, d, n);
    FloorAtMost(n, d, n);
  }

  lemma FloorBelow(n: nat, d: nat, q: nat)
    requires d > 0 && n < q * d
    ensures n / d < q
  {
    FloorBounds(n, d);
    MulCancelStrict(n / d, q, d);
  }

  lemma FloorAtLeast(n: nat, d: nat, q: nat)
    requires d > 0 && q * d <= n
    ensures q <= n / d
  {
    FloorBounds(n, d);
    MulCancelStrict(q, n / d + 1, d);
  }

  lemma FloorExact(n: nat, d: nat, q: nat)
    requires d > 0 && q * d <= n < q * d + d
    ensures n / d == q
  {
    FloorAtLeast(n, d, q);
    FloorBelow(n, d, q + 1);
  }

  lemma FloorUnique(n: nat, d: nat, p: nat, q: nat)
    requires p * d <= n < p * d + d && q * d <= n < q * d + d
    ensures p == q
  {
    MulCancelStrict(p, q + 1, d);
    MulCancelStrict(q, p + 1, d);
  }

  lemma FloorMono(a: nat, b: nat, d: nat)
    requires d > 0 && a <= b
    ensures a / d <= b / d
  {
    FloorBounds(a, d);
    FloorAtLeast(b, d, a / d);
  }

  /** Two floors in a row are one floor by the product. */
  lemma FloorFloor(n: nat, a: nat, b: nat)
    requires a > 0 && b > 0
    ensures a * b > 0 && n / a / b == n / (a * b)
  {
    var q := n / a / b;
    FloorBounds(n, a);
    FloorBounds(n / a, b);
    MulMono(q * b, n / a, a);
    MulMono(n / a + 1, q * b + b, a);
    assert q * (a * b) == (q * b) * a && (q * b + b) * a == q * (a * b) + a * b;
    FloorExact(n, a * b, q);
  }

  lemma FloorOfMultiple(q: nat, d: nat)
    requires d > 0
    ensures q * d / d == q
  {
    FloorExact(q * d, d, q);
  }

  /** Flooring two parts separately loses at most one unit of the sum. */
  lemma FloorSum(a: nat, b: nat, d: nat)
    requires d > 0
    ensures a / d + b / d <= (a + b) / d <= a / d + b / d + 1
  {
    FloorBounds(a, d);
    FloorBounds(b, d);
    SumBracket(a, b, d, a / d, b / d);
    FloorAtLeast(a + b, d, a / d + b / d);
    FloorBelow(a + b, d, a / d + b / d + 2);
  }

  lemma SumBracket(a: nat, b: nat, d: nat, p: nat, q: nat)
    requires p * d <= a < p * d + d && q * d <= b < q * d + d
    ensures (p + q) * d <= a + b < (p + q + 2) * d
  {
    Distribute(d, p, q);
    Distribute(d, p + q, 2);
  }
}
