/** What multiplication by a positive number does to the order of the integers. */
module Arithmetic {

  lemma NoLess(q: nat, e: nat)
    ensures q * e >= 0
  {}

  lemma Smaller(q: int, k: int, m: int)
    requires q > 0 && q * k < q * m + q
    ensures k <= m
  {
    if k > m {
      assert q * k == q * (m + 1) + q * (k - m - 1);
      NoLess(q, k - m - 1);
      assert false;
    }
  }

  /** The quotient is the largest number of portions of `q` that `stock` has in it. */
  lemma Quotient(stock: int, q: int, k: nat)
    requires q > 0 && q * k <= stock
    ensures k <= stock / q
    ensures stock < q * k + q ==> k == stock / q
  {
    var m := stock / q;
    assert q * m <= stock < q * m + q;
    Smaller(q, k, m);
    if stock < q * k + q { Smaller(q, m, k); }
  }

  /** There is only one way to write a number as so many times `n` and a remainder. */
  lemma Remainder(q: int, r: nat, n: nat)
    requires r < n
    ensures (q * n + r) % n == r
  {
    var x := q * n + r;
    var q', r' := x / n, x % n;
    assert x == n * q' + r';
    if q > q' {
      assert n * (q - q' - 1) + n == r' - r;
      NoLess(n, q - q' - 1);
      assert false;
    } else if q < q' {
      assert n * (q' - q - 1) + n == r - r';
      NoLess(n, q' - q - 1);
      assert false;
    } else {
      assert n * q' == q * n;
    }
  }

  lemma NextRemainder(x: nat, n: nat)
    requires n > 0
    ensures (x + 1) % n == if x % n + 1 == n then 0 else x % n + 1
  {
    var q, r := x / n, x % n;
    assert x == n * q + r;
    assert n * q == q * n;
    if r + 1 == n {
      assert x + 1 == (q + 1) * n + 0;
      Remainder(q + 1, 0, n);
    } else {
      Remainder(q, r + 1, n);
    }
  }
}
