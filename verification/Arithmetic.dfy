/** Facts about products and quotients. */
module Arithmetic {
  function Min(a: int, b: int): int
  {
    if a < b then a else b
  }

  lemma Scale(m: nat, a: int, b: int)
    requires a <= b
    ensures m * a <= m * b
  {
  }

  lemma Cancel(a: int, b: int, d: nat)
    requires a * d < b * d
    ensures a < b
  {
    if a >= b { Scale(d, b, a); }
  }

  lemma OneMore(m: int, l: int)
    ensures m * (l + 1) == m * l + m
  {
  }

  lemma Quotient(x: nat, q: nat, d: nat)
    requires d >= 1 && q * d <= x < (q + 1) * d
    ensures x / d == q
  {
    var p := x / d;
    assert x == p * d + x % d && (p + 1) * d == p * d + d;
    Cancel(p, q + 1, d);
    Cancel(q, p + 1, d);
  }

  lemma DivideBy(x: int, q: nat, d: nat)
    requires d >= 1 && q * d <= x
    ensures q <= x / d
  {
    assert x == (x / d) * d + x % d && (x / d + 1) * d == (x / d) * d + d;
    Cancel(q, x / d + 1, d);
  }
}
