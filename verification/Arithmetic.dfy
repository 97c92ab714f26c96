/** Products and quotients the solver does not find by itself. */
module Arithmetic {
  lemma MulAssociates(a: nat, b: nat, c: nat)
    ensures a * (b * c) == a * b * c
  {
  }

  lemma MulOrder(a: nat, b: nat, m: nat)
    requires a <= b
    ensures a * m <= b * m
  {
  }

  /** Different multiples of m are at least m apart. */
  lemma MulGap(a: nat, b: nat, m: nat)
    ensures a < b ==> a * m + m <= b * m
  {
    assert a * m + m == (a + 1) * m;
    if a < b {
      MulOrder(a + 1, b, m);
    }
  }

  lemma Decompose(x: nat, m: nat)
    requires 0 < m
    ensures x == (x / m) * m + x % m && 0 <= x % m < m && 0 <= x / m
  {
  }

  /** Quotient and remainder are determined by what they are for. */
  lemma ModUnique(x: nat, m: nat, q: nat, r: nat)
    requires 0 < m && x == q * m + r && r < m
    ensures x / m == q && x % m == r
  {
    Decompose(x, m);
    MulGap(x / m, q, m);
    MulGap(q, x / m, m);
  }

  /** a mod 2m from the halves. */
  lemma DoubleMod(a: nat, m: nat)
    requires 0 < m
    ensures a % (2 * m) == a % 2 + 2 * ((a / 2) % m)
  {
    var q, r := a / 2 / m, (a / 2) % m;
    Decompose(a / 2, m);
    assert q * (2 * m) == 2 * (q * m);
    ModUnique(a, 2 * m, q, 2 * r + a % 2);
  }

  lemma DivTwice(x: nat, a: nat, b: nat)
    requires 0 < a && 0 < b
    ensures x / a / b == x / (a * b)
  {
    var q, r := x / a / b, (x / a) % b;
    Decompose(x, a);
    Decompose(x / a, b);
    MulAssociates(q, b, a);
    MulGap(r, b, a);
    assert (q * b + r) * a == q * b * a + r * a;
    assert q * b * a == q * (a * b) by {
      MulAssociates(q, a, b);
      assert b * a == a * b;
    }
    assert r * a + x % a < a * b;
    ModUnique(x, a * b, q, r * a + x % a);
  }
}
