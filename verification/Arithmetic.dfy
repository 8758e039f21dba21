/** Powers of two and division with remainder. */
module Arithmetic {
  function PowTwo(n: nat): (p: nat)
    ensures p > 0
  {
    if n == 0 then 1 else 2 * PowTwo(n - 1)
  }

  lemma {:induction false} PowersMultiply(m: nat, n: nat)
    ensures PowTwo(m + n) == PowTwo(m) * PowTwo(n)
  {
    if m > 0 { PowersMultiply(m - 1, n); }
  }

  lemma Distribute(m: int, q: int, d: int)
    ensures m * (q + d) == m * q + m * d
  {
  }

  lemma Associate(k: int, r: int, h: int)
    ensures (k * r) * h == k * (r * h)
  {
  }

  lemma AtLeastOne(m: nat, k: int)
    ensures k >= 1 ==> m * k >= m
    ensures k <= -1 ==> m * k <= -(m as int)
  {
    if k >= 1 { assert m * (k - 1) >= 0; }
    if k <= -1 { assert m * (-k - 1) >= 0; }
  }

  lemma Remainder(u: int, m: nat, q: int, r: int)
    requires m > 0 && 0 <= r < m && u == m * q + r
    ensures u % m == r
  {
    var k := u / m - q;
    assert u == m * (u / m) + u % m;
    assert m * k == r - u % m by { Distribute(m, q, k); }
    AtLeastOne(m, k);
  }

  lemma Quotient(n: int, k: nat, q: int, r: int)
    requires k > 0 && 0 <= r < k && n == k * q + r
    ensures n / k == q
  {
    Remainder(n, k, q, r);
    assert k * (n / k) == k * q;
    var e := n / k - q;
    assert k * e == 0 by { Distribute(k, q, e); }
    AtLeastOne(k, e);
  }

  lemma MulMono(k: nat, r: int, q: int)
    ensures r <= q ==> k * r <= k * q
  {
    Distribute(k, r, q - r);
    if r <= q { assert k * (q - r) >= 0; }
  }

  /** Dividing twice is dividing by the product. */
  lemma DivDiv(n: nat, a: nat, b: nat)
    requires a > 0 && b > 0
    ensures a * b > 0 && n / (a * b) == (n / a) / b
  {
    var q := n / a;
    var p := q / b;
    var r := n % a + a * (q % b);
    assert n == a * q + n % a && q == b * p + q % b;
    Distribute(a, b * p, q % b);
    Associate(a, b, p);
    assert n == (a * b) * p + r;
    MulMono(a, q % b, b - 1);
    Distribute(a, b, -1);
    AtLeastOne(a, b);
    Quotient(n, a * b, p, r);
  }
}
