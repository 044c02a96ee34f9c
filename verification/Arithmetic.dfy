/** Integer arithmetic that the solver needs spelled out. */
module Arithmetic {
  lemma NonNegativeProduct(x: int, y: int)
    requires x >= 0 && y >= 0
    ensures x * y >= 0
  {
  }

  lemma ProductBounds(x: int, y: int, m: int, n: int)
    requires 0 <= x <= m && 0 <= y <= n
    ensures 0 <= x * y <= m * n
  {
    NonNegativeProduct(x, y);
    NonNegativeProduct(m - x, y);
    NonNegativeProduct(m, n - y);
    assert m * n == x * y + (m - x) * y + m * (n - y);
  }

  lemma SignedProductBounds(x: int, y: int, m: int, n: int)
    requires -m <= x <= m && -n <= y <= n
    ensures -(m * n) <= x * y <= m * n
  {
    ProductBounds(if x < 0 then -x else x, if y < 0 then -y else y, m, n);
  }

  /** q and r are the quotient and remainder of x by y > 0. */
  lemma UniqueQuotient(x: int, y: int, q: int, r: int)
    requires y > 0 && x == q * y + r && 0 <= r < y
    ensures x / y == q && x % y == r
  {
    var q', r' := x / y, x % y;
    assert x == q' * y + r' by { assert x == y * q' + r'; }
    assert (q - q') * y == r' - r;
    if q > q' { NonNegativeProduct(q - q' - 1, y); }
    if q < q' { NonNegativeProduct(q' - q - 1, y); }
  }

  lemma QuotientBounds(m: int, y: int, q: int, r: int)
    requires y > 0 && m >= 0 && m == q * y + r && 0 <= r < y
    ensures 0 <= q <= m && (y == 1 ==> q == m) && (y > 1 && m > 0 ==> q < m)
  {
    if q < 0 { NonNegativeProduct(-1 - q, y); }
    NonNegativeProduct(q, y - 1);
    if y > 1 { NonNegativeProduct(q, y - 2); }
  }

  lemma DivMod(m: int, y: int)
    requires y != 0
    ensures m == (m / y) * y + m % y && 0 <= m % y && (y > 0 ==> m % y < y) && (y < 0 ==> m % y < -y)
  {
    assert m == y * (m / y) + m % y;
  }

  lemma DivideTwice(x: int, d: int)
    requires d > 0
    ensures (x / d) / 2 == x / (2 * d)
  {
    var q, r := x / d, x % d;
    DivMod(x, d);
    var h, s := q / 2, q % 2;
    assert q * d == h * (2 * d) + s * d by { assert q == 2 * h + s; }
    assert 0 <= s * d + r < 2 * d by { assert s == 0 || s == 1; }
    UniqueQuotient(x, 2 * d, h, s * d + r);
  }

  /** Floor division of a negative number, through its complement. */
  lemma DivideComplement(x: int, d: int)
    requires d > 0
    ensures (-1 - x) / d == -1 - x / d
  {
    var q, r := x / d, x % d;
    DivMod(x, d);
    assert -1 - x == (-1 - q) * d + (d - 1 - r);
    UniqueQuotient(-1 - x, d, -1 - q, d - 1 - r);
  }
}
