/** Multiplication, division and remainder facts, each kept apart from the code that needs it. */
module Arith {

  lemma MulNonNegative(x: int, y: int)
    requires x >= 0 && y >= 0
    ensures x * y >= 0
  {
  }

  lemma MulAtLeast(m: int, d: int)
    requires m > 0 && d >= 1
    ensures m * d >= m
    ensures m * -d == -(m * d)
  {
    MulNonNegative(m, d - 1);
    assert m * (d - 1) == m * d - m;
  }

  lemma MulSmall(m: int, d: int)
    requires m > 0 && -m < m * d < m
    ensures d == 0
  {
    if d >= 1 {
      MulAtLeast(m, d);
    } else if d <= -1 {
      MulAtLeast(m, -d);
    }
  }

  /** Quotient and remainder are determined by x == m * q + r with 0 <= r < m. */
  lemma DivModUnique(x: int, m: int, q: int, r: int)
    requires 0 <= r < m && x == m * q + r
    ensures x / m == q && x % m == r
  {
    var q', r' := x / m, x % m;
    assert x == m * q' + r' && 0 <= r' < m;
    var d := q - q';
    assert m * d == m * q - m * q' by {
      Distribute(m, q, q');
    }
    assert m * d == r' - r;
    MulSmall(m, d);
  }

  lemma Distribute(m: int, a: int, b: int)
    ensures m * (a - b) == m * a - m * b
    ensures m * (a + b) == m * a + m * b
  {
  }

  lemma Reassociate(a: int, b: int, c: int)
    ensures a * (b * c) == (a * b) * c
    ensures a * b == b * a
  {
  }

  /** Dividing by p and then by k is dividing by k * p. */
  lemma DivDiv(x: nat, p: nat, k: nat)
    requires p > 0 && k > 0
    ensures k * p > 0
    ensures x / (k * p) == (x / p) / k
  {
    var q, r := x / p, x % p;
    var q2, r2 := q / k, q % k;
    MulNonNegative(k - 1, p);
    assert (k - 1) * p == k * p - p;
    assert x == p * q + r;
    assert q == k * q2 + r2;
    assert p * q == (k * p) * q2 + p * r2 by {
      Distribute(p, k * q2, r2);
      Reassociate(p, k, q2);
      Reassociate(k, p, q2);
    }
    var low := p * r2 + r;
    assert 0 <= low < k * p by {
      MulNonNegative(p, r2);
      MulNonNegative(p, k - 1 - r2);
      assert p * (k - 1 - r2) == k * p - p - p * r2 by {
        Distribute(p, k - 1, r2);
        Distribute(p, k, 1);
        Reassociate(p, k, 1);
      }
    }
    DivModUnique(x, k * p, q2, low);
  }

  /** Reducing before a multiplication does not change the remainder. */
  lemma ModMul(x: int, k: int, m: int)
    requires m > 0
    ensures ((x % m) * k) % m == (x * k) % m
  {
    var q, r := x / m, x % m;
    var q2, r2 := (r * k) / m, (r * k) % m;
    assert x == m * q + r;
    assert x * k == m * (q * k) + r * k by {
      Distribute(k, m * q, r);
      Reassociate(m, q, k);
      Reassociate(k, m * q, 1);
      Reassociate(k, r, 1);
    }
    Distribute(m, q * k, q2);
    DivModUnique(x * k, m, q * k + q2, r2);
  }
}
