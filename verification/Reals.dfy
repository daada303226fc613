/** Order and sign over the reals. */
module Reals {

  function MaxReal(a: real, b: real): real
  {
    if a < b then b else a
  }

  function MinReal(a: real, b: real): real
  {
    if b < a then b else a
  }

  lemma PositiveProduct(a: real, b: real, p: real)
    requires a > 0.0 && b > 0.0 && p == a * b
    ensures p > 0.0
  {
  }

  lemma NonNegativeProduct(a: real, b: real)
    requires a >= 0.0 && b >= 0.0
    ensures a * b >= 0.0
  {
  }

  function Multiple(n: int, c: real): real
  {
    n as real * c
  }

  /** A length in whole steps of `c`, rounded down. */
  lemma WholeSteps(x: real, c: real, n: int)
    requires c > 0.0
    ensures (x / c).Floor == n <==> Multiple(n, c) <= x < Multiple(n + 1, c)
  {
    var q := x / c;
    Quotient(x, c, q);
    InOrder(n as real, q, c, Multiple(n, c), x);
    InOrder((n + 1) as real, q, c, Multiple(n + 1, c), x);
    hide Multiple;
    assert q.Floor == n <==> n as real <= q && !((n + 1) as real <= q);
  }

  lemma Quotient(x: real, c: real, q: real)
    requires c != 0.0 && q == x / c
    ensures x == q * c
  {
  }

  /** Multiples of a positive number are in the order of the factors. */
  lemma InOrder(a: real, b: real, c: real, ac: real, bc: real)
    requires c > 0.0 && ac == a * c && bc == b * c
    ensures a <= b <==> ac <= bc
  {
    if a <= b {
      NonNegativeProduct(b - a, c);
    } else {
      PositiveProduct(a - b, c, (a - b) * c);
    }
  }

  /** The first natural number not below `v`. */
  function Ceiling(v: real): nat
  {
    if v <= 0.0 then 0 else if v.Floor as real == v then v.Floor else v.Floor + 1
  }
}
