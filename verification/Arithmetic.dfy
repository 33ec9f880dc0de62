/** Word size, minimum, rounding division and cancellation, as the retrieval and the timed loops need them. */
module Arithmetic {

  const USIZE_MAX: nat := 0xFFFF_FFFF_FFFF_FFFF

  function Min(a: nat, b: nat): nat {
    if a <= b then a else b
  }

  function CeilDiv(a: nat, b: nat): nat
    requires b > 0
  {
    (a + b - 1) / b
  }

  lemma {:induction false} ProductBelow(x: nat, y: nat, c: nat)
    requires x * c < y * c
    ensures x < y
  {
    if x > 0 && y > 0 {
      assert x * c == (x - 1) * c + c && y * c == (y - 1) * c + c;
      ProductBelow(x - 1, y - 1, c);
    }
  }

  lemma QuotientAtLeast(a: nat, b: nat, q: nat)
    requires b > 0 && q * b <= a
    ensures a / b >= q
  {
    var d := a / b;
    assert a < d * b + b && (d + 1) * b == d * b + b;
    ProductBelow(q, d + 1, b);
  }
}
