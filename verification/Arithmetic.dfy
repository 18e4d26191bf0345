/** Products, quotients and powers of two, for indices, tables and slots. */
module Arithmetic {

  function Pow2(n: nat): (r: nat)
    ensures r > 0
  {
    if n == 0 then 1 else 2 * Pow2(n - 1)
  }

  lemma Times(a: int, b: int)
    ensures a * b + b == (a + 1) * b
  {}

  lemma Distribute(a: int, b: int, c: int)
    ensures (a + b) * c == a * c + b * c
  {}

  lemma Mono(a: nat, b: nat, c: nat)
    requires a <= b
    ensures a * c <= b * c
  {}

  /** Quotient and remainder are unique. */
  lemma Division(n: nat, q: nat, r: nat, d: nat)
    requires r < d && n == q * d + r
    ensures n / d == q && n % d == r
  {
    var q', r' := n / d, n % d;
    assert q' * d + r' == q * d + r;
    if q' > q {
      Distribute(q, q' - q, d);
      Times(q' - q - 1, d);
    } else if q > q' {
      Distribute(q', q - q', d);
      Times(q - q' - 1, d);
    }
  }

  lemma Doubled(x: nat, y: nat)
    ensures 2 * (x * y) == (2 * x) * y
  {}

  /** The last binary digit of a quotient. */
  lemma Halves(n: nat, d: nat)
    requires d > 0
    ensures n / d == 2 * (n / (2 * d)) + n / d % 2
  {
    var q, r := n / d, n % d;
    assert n == q * d + r && q == 2 * (q / 2) + q % 2;
    Distribute(2 * (q / 2), q % 2, d);
    Doubled(q / 2, d);
    HalfDivides(n, d, q / 2, q % 2, r);
  }

  lemma HalfDivides(n: nat, d: nat, h: nat, b: nat, r: nat)
    requires d > 0 && b < 2 && r < d && n == 2 * h * d + b * d + r
    ensures n / (2 * d) == h
  {
    assert b == 0 ==> b * d == 0;
    assert b == 1 ==> b * d == d;
    assert 2 * h * d == h * (2 * d);
    Division(n, h, b * d + r, 2 * d);
  }
}
