/** Quotients and remainders by a variable divisor. */
module Arithmetic {

  lemma {:induction false} MulStep(bs: nat, a: nat, b: nat)
    requires a < b
    ensures bs * a + bs <= bs * b
    decreases b
  {
    if a + 1 < b {
      MulStep(bs, a, b - 1);
      assert bs * b == bs * (b - 1) + bs;
    } else {
      assert bs * (a + 1) == bs * a + bs;
    }
  }

  lemma DivModUnique(n: nat, q: nat, r: nat, bs: nat)
    requires r < bs && n == bs * q + r
    ensures n / bs == q && n % bs == r
  {
    var q', r' := n / bs, n % bs;
    assert n == bs * q' + r' && r' < bs;
    if q < q' { MulStep(bs, q, q'); } else if q' < q { MulStep(bs, q', q); }
  }
}
