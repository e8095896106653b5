/** Division facts that the layouts share. */
module Arithmetic {

  lemma DivModUnique(a: int, b: int, q: int, r: int)
    requires 0 <= r < b && a == q * b + r
    ensures a / b == q && a % b == r
  {
    var d := a / b - q;
    assert d * b == r - a % b;
    assert d == 0 by {
      assert d >= 1 ==> d * b >= b;
      assert d <= -1 ==> d * b <= -b;
    }
  }

  lemma QuotientBelow(a: nat, b: nat, n: nat)
    requires b > 0 && a < n * b
    ensures a / b < n
  {
    var q := a / b;
    assert q * b <= a;
    assert n <= q ==> n * b <= q * b;
  }
}
