/** Facts about products and quotients. */
module Arith {

  /** A quotient and remainder are determined by their defining equation. */
  lemma DivUnique(n: nat, d: nat, q: nat, r: nat)
    requires r < d && n == q * d + r
    ensures n / d == q && n % d == r
  {
    var k := n / d - q;
    assert n == (n / d) * d + n % d;
    assert k * d == (n / d) * d - q * d;
    if k >= 1 {
      MulAtLeast(k, d);
    } else if k <= -1 {
      MulAtLeast(-k, d);
    }
  }

  lemma MulAtLeast(k: int, d: nat)
    requires k >= 1
    ensures k * d >= d
  {
    assert k * d == d + (k - 1) * d;
  }

  lemma Grows(m: nat, n: nat, d: nat)
    requires m <= n
    ensures m * d <= n * d
  {
    assert n * d == m * d + (n - m) * d;
  }

  lemma NextRemainder(n: nat, d: nat)
    requires d > 0
    ensures (n % d + 1) % d == (n + 1) % d
  {
    var q, r := n / d, n % d;
    assert n == q * d + r;
    if r + 1 < d {
      DivUnique(n + 1, d, q, r + 1);
      DivUnique(r + 1, d, 0, r + 1);
    } else {
      assert n + 1 == (q + 1) * d;
      DivUnique(n + 1, d, q + 1, 0);
      DivUnique(r + 1, d, 1, 0);
    }
  }

  /** Going round from s, every x is reached. */
  lemma GoAround(s: nat, x: nat, d: nat) returns (j: nat)
    requires s < d && x < d
    ensures 0 < j <= d && (s + j) % d == x
  {
    if s < x {
      j := x - s;
      DivUnique(x, d, 0, x);
    } else {
      j := x + d - s;
      DivUnique(x + d, d, 1, x);
    }
  }
}
