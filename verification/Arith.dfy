/** Integer arithmetic shared by the models. */
module Arith {
  function Min(a: int, b: int): int { if a <= b then a else b }
  function Max(a: int, b: int): int { if a > b then a else b }

  lemma ModAdd(a: int, b: int, m: int)
    requires 0 < m
    ensures (a % m + b) % m == (a + b) % m
  {
    var q := a / m;
    assert a % m + b == (a + b) + (-q) * m;
    ModMultiple(a + b, -q, m);
  }

  lemma ModMultiple(a: int, q: int, m: int)
    requires 0 < m
    ensures (a + q * m) % m == a % m
  {
    var x, y := a + q * m, a % m;
    assert x == m * (a / m + q) + y;
    DivModUnique(x, m, a / m + q, y);
  }

  lemma DivModUnique(x: int, m: int, q: int, r: int)
    requires 0 < m && 0 <= r < m && x == m * q + r
    ensures x / m == q && x % m == r
  {
    var d := x / m - q;
    assert m * d == r - x % m;
    TimesAtLeast(m, d);
  }

  lemma TimesAtLeast(m: int, d: int)
    requires 0 < m
    ensures d > 0 ==> m * d >= m
    ensures d < 0 ==> m * d <= -m
  {
  }

  lemma Divided(p: nat, q: nat, l: nat)
    requires l < p
    ensures (q * p + l) / p == q && (q * p + l) % p == l
  {
    DivModUnique(q * p + l, p, q, l);
  }
}
