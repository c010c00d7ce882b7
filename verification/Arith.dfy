/** The few nonlinear facts the chunkers need. */
module Arith {
  lemma MulLe(a: nat, b: nat, c: nat)
    requires a <= b
    ensures a * c <= b * c
  {
  }

  /** A factor below p / c: q * c <= p < a * c forces q < a. */
  lemma FactorBelow(q: nat, a: nat, c: nat, p: nat)
    requires q * c <= p < a * c
    ensures q < a
  {
    if q >= a {
      MulLe(a, q, c);
    }
  }

  lemma DivMod(n: nat, d: nat)
    requires d > 0
    ensures n == (n / d) * d + n % d && 0 <= n % d < d
  {
  }

  function CeilDiv(n: nat, d: nat): nat
    requires d > 0
  {
    (n + d - 1) / d
  }

  lemma CeilDivBounds(n: nat, d: nat)
    requires d > 0
    ensures n <= CeilDiv(n, d) * d
    ensures CeilDiv(n, d) <= n
    ensures n > 0 ==> CeilDiv(n, d) >= 1 && CeilDiv(n, d) * d - d < n
    ensures n == 0 ==> CeilDiv(n, d) == 0
  {
    DivMod(n + d - 1, d);
    MulLe(1, d, n);
    assert n + d - 1 < (n + 1) * d by { assert (n + 1) * d == d * n + d; }
    FactorBelow(CeilDiv(n, d), n + 1, d, n + d - 1);
  }

  /** Splitting n into k near-equal parts: each is q or q + 1, and none exceeds the cap. */
  lemma NearEqualParts(n: nat, k: nat, cap: nat)
    requires 1 <= k <= n && n <= k * cap
    ensures 1 <= n / k <= cap
    ensures n % k > 0 ==> n / k + 1 <= cap
  {
    DivMod(n, k);
    assert (cap + 1) * k == k * cap + k;
    FactorBelow(n / k, cap + 1, k, n);
    if n % k > 0 {
      assert cap * k == k * cap;
      FactorBelow(n / k, cap, k, n - 1);
    }
  }

  lemma ShareBelow(q: nat, a: nat, b: nat, c: nat)
    requires q * c <= a * b && b < c && a > 0
    ensures q < a
  {
    assert a * c == a * b + a * (c - b);
    MulLe(1, c - b, a);
    assert (c - b) * a == a * (c - b);
    FactorBelow(q, a, c, a * b);
  }

  lemma ShareAtMost(q: nat, a: nat, b: nat, c: nat)
    requires q * c <= a * b && a <= c && c > 0
    ensures q <= b
  {
    MulLe(a, c, b);
    assert (b + 1) * c == c * b + c;
    FactorBelow(q, b + 1, c, a * b);
  }

  /** floor(a * b / c) is strictly below a when b < c, and exact when a == c. */
  lemma ProportionalShare(a: nat, b: nat, c: nat)
    requires b < c && a <= c
    ensures a > 0 ==> a * b / c < a
    ensures a * b / c <= b
    ensures a == c ==> a * b / c == b
  {
    var q := a * b / c;
    DivMod(a * b, c);
    if a > 0 {
      ShareBelow(q, a, b, c);
    }
    ShareAtMost(q, a, b, c);
    if a == c {
      ExactShare(b, c);
    }
  }

  lemma ExactShare(b: nat, c: nat)
    requires c > 0
    ensures c * b / c == b
  {
    DivMod(c * b, c);
    var q := c * b / c;
    assert (q + 1) * c == q * c + c;
    assert b * c == c * b;
    FactorBelow(b, q + 1, c, b * c);
    assert (b + 1) * c == b * c + c;
    FactorBelow(q, b + 1, c, q * c);
  }

  /** size added count times: a product that stays linear step by step. */
  function Copies(size: nat, count: nat): nat {
    if count == 0 then 0 else size + Copies(size, count - 1)
  }

  lemma {:induction false} CopiesIsProduct(size: nat, count: nat)
    ensures Copies(size, count) == count * size
  {
    if count > 0 {
      CopiesIsProduct(size, count - 1);
    }
  }
}
