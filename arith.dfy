/** Integer facts shared by the bucket arithmetic and the pagination arithmetic. */
module Arith {

  /** Multiplying by a non-negative factor keeps the order. */
  lemma MulMonotone(x: int, y: int, k: int)
    requires x <= y && k >= 0
    ensures x * k <= y * k
  {
    assert y * k - x * k == (y - x) * k;
  }
}
