/** The nonlinear facts the proofs use, each on its own. */
module Arithmetic {
  lemma ProductNonNegative(a: real, b: real)
    requires a >= 0.0 && b >= 0.0
    ensures a * b >= 0.0
  {
  }

  lemma Distribute(k: real, u: real, v: real)
    ensures k * (u + v) == k * u + k * v
    ensures (u + v) * k == u * k + v * k
  {
  }

  lemma ProductMonotone(x: real, y: real, k: real)
    requires x <= y && k >= 0.0
    ensures x * k <= y * k
  {
    ProductNonNegative(y - x, k);
    Distribute(k, y - x, x);
  }

  /** A product kept behind a name, so that proofs about it stay linear. */
  function Times(q: real, n: real): real { q * n }

  /** A fraction of a quantity lies between nothing and all of it. */
  lemma Fraction(q: real, n: real)
    requires 0.0 <= q <= 1.0 && n >= 0.0
    ensures 0.0 <= Times(q, n) <= n
  {
    ProductNonNegative(q, n);
    ProductMonotone(q, 1.0, n);
  }

  lemma TimesMonotone(p: real, q: real, n: real)
    requires p <= q && n >= 0.0
    ensures Times(p, n) <= Times(q, n)
  {
    ProductMonotone(p, q, n);
  }

  lemma TimesAdd(p: real, q: real, n: real)
    ensures Times(p + q, n) == Times(p, n) + Times(q, n)
  {
    Distribute(n, p, q);
  }

  lemma TimesNonNegative(p: real, n: real)
    requires p >= 0.0 && n >= 0.0
    ensures Times(p, n) >= 0.0
  {
    ProductNonNegative(p, n);
  }

  lemma TimesComplement(q: real, n: real)
    ensures Times(1.0 - q, n) == n - Times(q, n)
  {
    Distribute(n, 1.0 - q, q);
  }

  lemma Cancel(x: real, k: real)
    requires k != 0.0
    ensures x * k / k == x && k / k == 1.0
  {
  }

  lemma QuotientMonotone(x: real, y: real, k: real)
    requires x <= y && k > 0.0
    ensures x / k <= y / k
  {
    assert y / k == x / k + (y - x) / k;
  }

  lemma RatioAtLeast(n: real, d: real, c: real)
    requires d > 0.0
    ensures n / d >= c <==> n >= c * d
  {
    QuotientTimes(n, d);
    FactorAtLeast(n, n / d, d, c);
  }

  lemma FactorAtLeast(n: real, q: real, d: real, c: real)
    requires d > 0.0 && n == q * d
    ensures q >= c <==> n >= c * d
  {
    if q >= c { ProductMonotone(c, q, d); } else { Strictly(q, c, d); }
  }

  lemma QuotientTimes(n: real, d: real)
    requires d != 0.0
    ensures n / d * d == n
  {
  }

  lemma Strictly(x: real, y: real, k: real)
    requires x < y && k > 0.0
    ensures x * k < y * k
  {
    Distribute(k, y - x, x);
    assert (y - x) * k > 0.0;
  }

  lemma NegateQuotient(u: real, k: real)
    requires k != 0.0
    ensures (-u) / k == -(u / k)
  {
  }

  lemma OneMoreTimes(n: int, d: int)
    ensures (n + 1) * d == n * d + d
  {
  }

  lemma TimesOrder(x: int, y: int, d: nat)
    requires x <= y
    ensures x * d <= y * d
  {
    assert (y - x) * d >= 0;
  }

  lemma DivisionParts(a: nat, d: nat)
    requires d >= 1
    ensures a == a / d * d + a % d && 0 <= a % d < d
  {
  }

  lemma DivisionUnique(a: nat, d: nat, q: nat, r: nat)
    requires d >= 1 && r < d && a == q * d + r
    ensures a / d == q && a % d == r
  {
    DivisionParts(a, d);
    OneMoreTimes(q, d);
    OneMoreTimes(a / d, d);
    if a / d > q { TimesOrder(q + 1, a / d, d); }
    if a / d < q { TimesOrder(a / d + 1, q, d); }
  }

  /** Rounded up, n ticks hold so many groups of d, the last one perhaps incomplete. */
  lemma CeilDivision(n: nat, d: nat, w: nat)
    requires d >= 1 && n * d <= w + d - 1
    ensures n <= CeilDiv(w, d)
  {
    var q := (w + d - 1) / d;
    DivisionParts(w + d - 1, d);
    OneMoreTimes(q, d);
    if n > q { TimesOrder(q + 1, n, d); }
  }

  /** w / d rounded up. */
  function CeilDiv(w: nat, d: nat): nat
    requires d >= 1
  {
    (w + d - 1) / d
  }

  lemma CeilStep(x: nat, d: nat)
    requires d >= 1
    ensures CeilDiv(x + 1, d) == CeilDiv(x, d) + (if x % d == 0 then 1 else 0)
    ensures CeilDiv(0, d) == 0
  {
    var q, r := x / d, x % d;
    DivisionParts(x, d);
    OneMoreTimes(q, d);
    DivisionUnique(d - 1, d, 0, d - 1);
    if r == 0 {
      DivisionUnique(x + d - 1, d, q, d - 1);
      DivisionUnique(x + d, d, q + 1, 0);
    } else {
      DivisionUnique(x + d - 1, d, q + 1, r - 1);
      DivisionUnique(x + d, d, q + 1, r);
    }
  }

  lemma QuotientAdd(u: real, v: real, k: real)
    requires k != 0.0
    ensures (u + v) / k == u / k + v / k
  {
  }
}
