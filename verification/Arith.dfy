/** The few non-linear facts about integers that the other modules need, one product at a time. */
module Arith {

  lemma Distribute(a: int, b: int, p: int)
    ensures (a + b) * p == a * p + b * p
    ensures (a - b) * p == a * p - b * p
  {
  }

  lemma Associate(a: int, b: int, p: int)
    ensures a * (b * p) == (a * b) * p == (a * p) * b
  {
  }

  lemma Monotone(a: int, b: int, p: int)
    requires a <= b && 0 <= p
    ensures a * p <= b * p
  {
    var d := b - a;
    Distribute(a, d, p);
    assert 0 <= d * p;
  }

  lemma StrictMonotone(a: int, b: int, p: int)
    requires a < b && 0 < p
    ensures a * p < b * p
  {
    Monotone(a + 1, b, p);
    Distribute(a, 1, p);
  }

  /** Appending one digit to a positional numeral. */
  lemma AppendDigit(v: int, p: int, w: int, d: int)
    ensures 10 * (v * p + w) + d == v * (10 * p) + (10 * w + d)
  {
    Associate(v, 10, p);
  }
}
