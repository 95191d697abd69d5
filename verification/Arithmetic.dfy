/** Minimum, and division and remainder by a variable block size, kept apart from every other proof. */
module Arithmetic {

  function Min(a: nat, b: nat): nat {
    if a < b then a else b
  }

  lemma QuotientRemainder(x: int, d: int, q: int, r: int)
    requires 0 < d && 0 <= r < d && x == q * d + r
    ensures x / d == q && x % d == r
  {
    var k := x / d - q;
    assert 0 < k ==> d <= k * d by { if 0 < k { Product(1, k, d); } }
    assert k < 0 ==> k * d <= -d by { if k < 0 { Product(k, -1, d); } }
    assert k * d == r - x % d by { assert x == (x / d) * d + x % d; }
  }

  lemma Product(a: int, b: int, d: int)
    requires a <= b && 0 <= d
    ensures a * d <= b * d
  {
  }

  /** Cell `j` of block `i` lies inside a table of `n` blocks. */
  lemma InsideTable(i: int, j: int, n: int, d: int)
    requires 0 <= i < n && 0 <= j < d
    ensures 0 <= i * d + j < n * d
  {
    Product(0, i, d);
    Product(i + 1, n, d);
    assert (i + 1) * d == i * d + d;
  }

  /** Reducing the block number and the cell number separately reduces the flat position. */
  lemma SplitPosition(x: int, n: int, d: int)
    requires 0 <= x && 0 < n && 0 < d
    ensures 0 < n * d
    ensures 0 <= (x / d) % n < n && 0 <= x % d < d
    ensures ((x / d) % n) * d + x % d == x % (n * d)
  {
    Product(1, n, d);
    var q, r := x / d, x % d;
    var p, t := q / n, q % n;
    InsideTable(t, r, n, d);
    assert q == p * n + t;
    assert x == q * d + r;
    assert q * d == (p * n) * d + t * d;
    assert (p * n) * d == p * (n * d);
    QuotientRemainder(x, n * d, p, t * d + r);
  }

  lemma PositionOf(i: int, j: int, d: int)
    requires 0 <= i && 0 <= j < d
    ensures (i * d + j) / d == i && (i * d + j) % d == j
  {
    QuotientRemainder(i * d + j, d, i, j);
  }

  /** Two cells with the same flat position are the same cell. */
  lemma SamePosition(i: int, j: int, i': int, j': int, d: int)
    requires 0 <= i && 0 <= i' && 0 <= j < d && 0 <= j' < d
    requires i * d + j == i' * d + j'
    ensures i == i' && j == j'
  {
    PositionOf(i, j, d);
    PositionOf(i', j', d);
  }
}
