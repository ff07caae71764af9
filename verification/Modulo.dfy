/** The few facts about division by a symbolic divisor that ring indices and counters need. */
module Modulo {

  lemma AtLeastOneRound(d: int, m: int)
    requires d >= 1 && m >= 0
    ensures d * m >= m
  {
    assert (d - 1) * m >= 0;
    assert d * m == (d - 1) * m + m;
  }

  lemma AtMostMinusOneRound(d: int, m: int)
    requires d <= -1 && m >= 0
    ensures d * m <= -m
  {
    AtLeastOneRound(-d, m);
    assert (-d) * m == -(d * m);
  }

  /** A quotient and a remainder in range are the quotient and the remainder. */
  lemma DivModUnique(n: nat, q: int, r: nat, m: nat)
    requires r < m && n == q * m + r
    ensures n / m == q && n % m == r
  {
    var d := n / m - q;
    assert n == (n / m) * m + n % m;
    assert d * m == (n / m) * m - q * m;
    if d >= 1 {
      AtLeastOneRound(d, m);
    } else if d <= -1 {
      AtMostMinusOneRound(d, m);
    }
  }

  lemma ModNext(n: nat, m: nat)
    requires m > 0
    ensures (n % m + 1) % m == (n + 1) % m
  {
    var q, r := n / m, n % m + 1;
    assert n == q * m + n % m;
    if r == m {
      assert (q + 1) * m == q * m + m;
      DivModUnique(n + 1, q + 1, 0, m);
      DivModUnique(m, 1, 0, m);
    } else {
      DivModUnique(n + 1, q, r, m);
      DivModUnique(r, 0, r, m);
    }
  }

  /** Two numbers less than one round apart have different remainders. */
  lemma RemaindersDiffer(a: nat, b: nat, m: nat)
    requires a < b < a + m
    ensures a % m != b % m
  {
    var q := a / m;
    assert a == q * m + a % m;
    if a % m + (b - a) < m {
      DivModUnique(b, q, a % m + (b - a), m);
    } else {
      assert (q + 1) * m == q * m + m;
      DivModUnique(b, q + 1, a % m + (b - a) - m, m);
    }
  }
}
