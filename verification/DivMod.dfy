/** Division with a remainder, for any divisor. */
module DivMod {
  lemma MulGrows(a: nat, b: nat, d: nat)
    ensures a < b ==> (a + 1) * d <= b * d
    ensures a <= b ==> a * d <= b * d
  {
    if a < b {
      assert b * d == (a + 1) * d + (b - a - 1) * d;
    }
  }

  lemma DivUnique(n: nat, d: nat, q: nat, m: nat)
    requires d > 0 && m < d && n == q * d + m
    ensures n / d == q && n % d == m
  {
    var q', m' := n / d, n % d;
    assert n == q' * d + m';
    MulGrows(q, q', d);
    MulGrows(q', q, d);
  }
}
