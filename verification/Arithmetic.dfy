/** Division facts with variable divisors, each proved on its own. */
module Arithmetic {
  lemma MulAtLeast(x: int, d: int)
    requires x >= 1 && d > 0
    ensures x * d >= d
  {
    assert (x - 1) * d >= 0;
    assert (x - 1) * d == x * d - d;
  }

  lemma Cancel(x: int, d: int, e: int)
    requires d > 0 && x * d == e && -d < e < d
    ensures x == 0
  {
    assert (-x) * d == -(x * d);
    if x >= 1 { MulAtLeast(x, d); } else if x <= -1 { MulAtLeast(-x, d); }
  }

  lemma Split(a: int, b: int, c: int)
    ensures (a + b) * c == a * c + b * c && (a - b) * c == a * c - b * c
  {}

  lemma Assoc(a: int, b: int, c: int)
    ensures a * (b * c) == (a * b) * c && a * b == b * a
  {}

  lemma Divides(n: nat, d: nat)
    requires d > 0
    ensures n == (n / d) * d + n % d && 0 <= n % d < d && n / d >= 0
  {}

  /** Quotient and remainder are determined by the division equation. */
  lemma DivUnique(n: nat, d: nat, q: nat, r: nat)
    requires d > 0 && n == q * d + r && r < d
    ensures n / d == q && n % d == r
  {
    Divides(n, d);
    Split(q, n / d, d);
    Cancel(q - n / d, d, n % d - r);
  }

  lemma Below(q: nat, r: nat, d: nat, m: nat)
    requires r < d && q < m
    ensures q * d + r < m * d
  {
    Split(q, 1, d);
    Split(m, q + 1, d);
    if m > q + 1 { MulAtLeast(m - (q + 1), d); }
  }

  lemma TwoLevels(s: nat, t: nat, r: nat, x: nat, y: nat)
    requires r < x && t < y
    ensures (s * y + t) * x + r == s * (x * y) + (t * x + r) && t * x + r < x * y
  {
    Split(s * y, t, x);
    Assoc(s, y, x);
    Assoc(x, y, 1);
    Below(t, r, x, y);
  }

  /** Dividing twice, and dividing or reducing what is left of a larger modulus. */
  lemma DivDiv(n: nat, x: nat, y: nat)
    requires x > 0 && y > 0 && x * y > 0
    ensures n / x / y == n / (x * y)
    ensures (n % (x * y)) / x == (n / x) % y
    ensures (n % (x * y)) % x == n % x
  {
    var q, r := n / x, n % x;
    var s, t := q / y, q % y;
    Divides(n, x);
    Divides(q, y);
    TwoLevels(s, t, r, x, y);
    DivUnique(n, x * y, s, t * x + r);
    DivUnique(t * x + r, x, t, r);
  }

  lemma QuotientBelow(n: nat, x: nat, y: nat)
    requires x > 0 && n < x * y
    ensures n / x < y
  {
    Divides(n, x);
    if n / x >= y {
      Split(n / x, y, x);
      Assoc(x, y, 1);
      if n / x > y { MulAtLeast(n / x - y, x); }
    }
  }

  /** Scaling and adding commutes with reducing first. */
  lemma ModShift(n: nat, m: nat, f: nat, v: nat)
    requires m > 0
    ensures ((n % m) * f + v) % m == (n * f + v) % m
  {
    var q, r := n / m, n % m;
    Divides(n, m);
    Split(q * m, r, f);
    Assoc(q, m, f);
    Assoc(f, m, 1);
    Assoc(q, f, m);
    Assoc(r, f, 1);
    var e := r * f + v;
    assert n * f == (q * f) * m + r * f;
    Divides(e, m);
    Split(q * f, e / m, m);
    DivUnique(n * f + v, m, q * f + e / m, e % m);
  }
}
