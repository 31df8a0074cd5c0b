/** Facts about products and quotients that the solver does not find by itself. */
module Arithmetic {

  lemma {:induction false} Multiples(a: nat, b: nat, m: nat)
    requires a <= b
    ensures a * m <= b * m
    decreases b - a
  {
    if a < b {
      Multiples(a + 1, b, m);
      assert (a + 1) * m == a * m + m;
    }
  }

  /** Division finds the one quotient and remainder. */
  lemma Quotient(q: nat, r: nat, m: nat)
    requires r < m
    ensures (q * m + r) / m == q && (q * m + r) % m == r
  {
    var x := q * m + r;
    var d := x / m;
    assert x == d * m + x % m;
    assert (d + 1) * m == d * m + m && (q + 1) * m == q * m + m;
    if d < q {
      Multiples(d + 1, q, m);
    } else if d > q {
      Multiples(q + 1, d, m);
    }
  }

  /** Moving by whole multiples moves the quotient and keeps the remainder. */
  lemma QuotientShift(q: nat, r: nat, m: nat)
    requires m > 0
    ensures (q * m + r) / m == q + r / m && (q * m + r) % m == r % m
  {
    var d, e := r / m, r % m;
    assert r == d * m + e;
    assert q * m + r == (q + d) * m + e;
    Quotient(q + d, e, m);
  }

  predicate IsPower2(n: nat) {
    n == 1 || (n > 0 && n % 2 == 0 && IsPower2(n / 2))
  }

  function Abs(x: int): (r: int)
    ensures r >= 0
  {
    if x < 0 then -x else x
  }

  function Max(a: int, b: int): int {
    if a < b then b else a
  }

  function Pow2(k: nat): (p: nat)
    ensures p > 0
  {
    if k == 0 then 1 else 2 * Pow2(k - 1)
  }

  lemma Pow2Values()
    ensures Pow2(0) == 1 && Pow2(1) == 2 && Pow2(2) == 4 && Pow2(3) == 8 && Pow2(4) == 16
    ensures Pow2(5) == 32 && Pow2(6) == 64 && Pow2(7) == 128 && Pow2(8) == 256 && Pow2(9) == 512 && Pow2(10) == 1024
  {
    assert Pow2(3) == 8;
    assert Pow2(6) == 64;
    assert Pow2(9) == 512;
  }

  lemma {:induction false} Pow2Sum(a: nat, b: nat)
    ensures Pow2(a + b) == Pow2(a) * Pow2(b)
  {
    if a > 0 {
      Pow2Sum(a - 1, b);
    }
  }
}
