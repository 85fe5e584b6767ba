/** Facts about products and remainders that the solver does not find by itself. */
module Arithmetic {

  function Min(a: nat, b: nat): nat {
    if a <= b then a else b
  }

  lemma MulFacts(d: int, m: nat)
    requires m > 0
    ensures d >= 1 ==> d * m >= m
    ensures d <= -1 ==> d * m <= -(m as int)
    ensures d == 0 ==> d * m == 0
  {
  }

  lemma ModUnique(a: nat, m: nat, q: nat, r: nat)
    requires a == q * m + r && r < m
    ensures a % m == r && a / m == q
  {
    var d := a / m - q;
    assert d * m == (a / m) * m - q * m;
    MulFacts(d, m);
  }

  lemma AtLeast(n: nat, m: nat, k: nat)
    requires m > 0 && k * m <= n
    ensures k <= n / m
  {
    var d := k - n / m;
    assert n == n / m * m + n % m;
    assert d * m == k * m - n / m * m;
    MulFacts(d, m);
  }
}
