/** Exact integer division facts used by the fee and pro-rata rules. */
module Arithmetic {
  import opened Domain

  /** Quotient rounded up. */
  function CeilDiv(n: nat, d: pos): nat {
    (n + d - 1) / d
  }

  /** Two multiples of d that are less than d apart are in order. */
  lemma {:induction false} MultiplesOrdered(x: int, y: int, d: pos)
    requires x * d < y * d + d
    ensures x <= y
  {
    if y < x {
      assert x * d == (y + 1) * d + (x - y - 1) * d;
      MulMonotone(0, x - y - 1, d);
      assert false;
    }
  }

  lemma {:induction false} CeilDivBounds(n: nat, d: pos)
    ensures CeilDiv(n, d) * d - d < n <= CeilDiv(n, d) * d
  {
    var m := n + d - 1;
    assert m == m / d * d + m % d;
  }

  /** Only the ceiling lies within one divisor above n. */
  lemma {:induction false} CeilDivUnique(n: nat, d: pos, q: nat)
    requires q * d - d < n <= q * d
    ensures q == CeilDiv(n, d)
  {
    CeilDivBounds(n, d);
    MultiplesOrdered(q, CeilDiv(n, d), d);
    MultiplesOrdered(CeilDiv(n, d), q, d);
  }

  lemma {:induction false} CeilDivMonotone(n: nat, m: nat, d: pos)
    requires n <= m
    ensures CeilDiv(n, d) <= CeilDiv(m, d)
  {
    CeilDivBounds(n, d);
    CeilDivBounds(m, d);
    MultiplesOrdered(CeilDiv(n, d), CeilDiv(m, d), d);
  }

  /** Whole multiples pass through a ceiling. */
  lemma {:induction false} CeilDivShift(k: nat, n: nat, d: pos)
    ensures CeilDiv(k * d + n, d) == k + CeilDiv(n, d)
  {
    var q := CeilDiv(n, d);
    CeilDivBounds(n, d);
    assert (k + q) * d == k * d + q * d;
    CeilDivUnique(k * d + n, d, k + q);
  }
}
