/** Minimum, and what division by a positive number yields. */
module Arithmetic {
  function Min(a: nat, b: nat): nat { if a <= b then a else b }

  lemma DivUnique(n: nat, c: nat, q: nat)
    requires c >= 1 && q * c <= n < q * c + c
    ensures n / c == q
  {
    var k := n / c;
    assert n == k * c + n % c;
    MulMonotone(k + 1, q, c);
    MulMonotone(q + 1, k, c);
  }

  lemma MulMonotone(a: int, b: int, c: nat)
    ensures a <= b ==> a * c <= b * c
  {
  }

  lemma DivStep(n: nat, c: nat)
    requires c >= 1 && n >= c
    ensures n / c == (n - c) / c + 1
    ensures n / c * c == (n - c) / c * c + c
  {
    var q := (n - c) / c;
    assert n - c == q * c + (n - c) % c;
    assert (q + 1) * c == q * c + c;
    DivUnique(n, c, q + 1);
  }
}
