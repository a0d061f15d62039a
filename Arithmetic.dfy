/** Facts about multiplication, division and remainder that the indexer's
    row-major and column-major mappings rest on. */
module Arithmetic {

  lemma MulMonotone(a: nat, b: nat, w: nat)
    requires a <= b
    ensures a * w <= b * w
  {
    var k := b - a;
    assert b * w == a * w + k * w;
  }

  lemma MulCommutes(a: nat, b: nat)
    ensures a * b == b * a
  {
  }

  /** Writing a number as quotient and remainder is unique:
      q * w + m with m < w has quotient q and remainder m. */
  lemma DivModUnique(q: nat, m: nat, w: nat)
    requires m < w
    ensures (q * w + m) / w == q
    ensures (q * w + m) % w == m
  {
    var n := q * w + m;
    var q', m' := n / w, n % w;
    assert n == q' * w + m';
    if q' < q {
      MulMonotone(q' + 1, q, w);
      assert false;
    } else if q < q' {
      MulMonotone(q + 1, q', w);
      assert false;
    }
  }

  /** The quotient of an index below w * h by w is below h. */
  lemma QuotientBound(i: nat, w: nat, h: nat)
    requires 0 < w && i < h * w
    ensures i / w < h && i % w < w
  {
    var q := i / w;
    assert i == q * w + i % w;
    if h <= q {
      MulMonotone(h, q, w);
      assert false;
    }
  }

  /** Row-major positions in a grid w wide are ordered as their linear numbers. */
  lemma LinearOrder(w: nat, q1: nat, m1: nat, q2: nat, m2: nat)
    requires m1 < w && m2 < w
    requires q1 < q2 || (q1 == q2 && m1 < m2)
    ensures q1 * w + m1 < q2 * w + m2
  {
    if q1 < q2 {
      MulMonotone(q1 + 1, q2, w);
    }
  }

  /** A cell of a grid w wide and h high has a linear number below w * h. */
  lemma LinearBound(w: nat, h: nat, q: nat, m: nat)
    requires m < w && q < h
    ensures q * w + m < w * h
  {
    MulMonotone(q + 1, h, w);
  }
}
