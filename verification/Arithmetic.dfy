/** Multiples and remainders of a positive divisor. */
module Arithmetic {
  lemma Multiples(x: int, d: nat)
    requires d > 0
    ensures x >= 1 ==> x * d >= d
    ensures x >= 2 ==> x * d >= 2 * d
    ensures x <= -1 ==> x * d <= 0 - d
    ensures x == 0 ==> x * d == 0
  {
  }

  /** Quotient and remainder are unique. */
  lemma Quotient(n: nat, q: nat, r: nat, d: nat)
    requires n == q * d + r && r < d
    ensures n / d == q && n % d == r
  {
    var p := n / d;
    assert n == p * d + n % d;
    assert (p - q) * d == p * d - q * d;
    Multiples(p - q, d);
  }
}
