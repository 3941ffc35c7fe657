// Powers of two and ten that several models share, and the arithmetic about
// them that the solver does not find alone: how they grow, and what divides
// by them.

module Powers {
  function Pow2(n: nat): (p: nat)
    ensures p > 0
  {
    if n == 0 then 1 else 2 * Pow2(n - 1)
  }

  function Pow10(n: nat): (p: nat)
    ensures p > 0
  {
    if n == 0 then 1 else 10 * Pow10(n - 1)
  }

  lemma Twice(a: int, p: int)
    ensures a * (2 * p) == 2 * (a * p)
  {
  }

  lemma {:induction false} PowAdd(a: nat, b: nat)
    ensures Pow2(a + b) == Pow2(a) * Pow2(b)
    decreases b
  {
    if b > 0 {
      PowAdd(a, b - 1);
      Twice(Pow2(a), Pow2(b - 1));
    }
  }

  lemma {:induction false} PowMono(a: nat, b: nat)
    requires a <= b
    ensures Pow2(a) <= Pow2(b)
    decreases b
  {
    if a < b { PowMono(a, b - 1); }
  }

  lemma MulAtLeast(n: int, d: int)
    requires d > 0
    ensures n >= 1 ==> n * d >= d
    ensures n <= -1 ==> n * d <= -d
  {
  }

  lemma DivideShifted(x: int, d: nat, a: int, r: int)
    requires d > 0 && x == a * d + r && 0 <= r < d
    ensures x / d == a && x % d == r
  {
    var q, m := x / d, x % d;
    assert x == q * d + m;
    assert (q - a) * d == q * d - a * d;
    MulAtLeast(q - a, d);
  }

  /** Division brackets its quotient. */
  lemma QuotientIn(x: int, d: nat, low: int, high: int)
    requires d > 0 && low * d <= x < high * d
    ensures low <= x / d < high
  {
    var q, m := x / d, x % d;
    assert x == q * d + m;
    assert (q - low) * d == q * d - low * d;
    MulAtLeast(q - low, d);
    assert (q - high) * d == q * d - high * d;
    if q >= high { Nonnegative(q - high, d); }
  }

  /** Division of naturals. */
  function Quotient(x: nat, d: nat): (q: nat)
    requires d > 0
    ensures q == x / d
  {
    Nonnegative(x, d);
    QuotientIn(x, d, 0, x + 1);
    x / d
  }

  lemma Nonnegative(a: int, b: int)
    requires a >= 0 && b >= 0
    ensures a * b >= 0
  {
  }
}
