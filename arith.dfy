/** Integer facts used by the index computations into row-major RGBA buffers. */
module Arith {

  function Min(a: int, b: int): (m: int)
    ensures m <= a && m <= b && (m == a || m == b)
  {
    if a <= b then a else b
  }

  function Max(a: int, b: int): (m: int)
    ensures m >= a && m >= b && (m == a || m == b)
  {
    if a >= b then a else b
  }

  /** Division with a positive divisor is unique: `q*d + r` with `0 <= r < d` divides back to `q` remainder `r`. */
  lemma DivModUnique(n: int, d: int, q: int, r: int)
    requires d > 0 && 0 <= r < d && n == q * d + r
    ensures n / d == q && n % d == r
  {
    var q', r' := n / d, n % d;
    assert n == q' * d + r';
    if q' > q {
      assert (q + 1) * d == q * d + d;
      MulMonotone(q + 1, q', d);
    } else if q' < q {
      assert (q' + 1) * d == q' * d + d;
      MulMonotone(q' + 1, q, d);
    }
  }

  lemma MulMonotone(a: int, b: int, c: int)
    requires a <= b && c >= 0
    ensures a * c <= b * c
  {
    assert b * c - a * c == (b - a) * c;
  }

  /** A row-major position `(row, col)` in a `cols × rows` block is a valid offset into it. */
  lemma RowMajorBound(row: int, col: int, cols: int, rows: int)
    requires 0 <= row < rows && 0 <= col < cols
    ensures 0 <= row * cols + col < cols * rows
  {
    MulMonotone(row, rows - 1, cols);
    assert (rows - 1) * cols == cols * rows - cols;
    assert 0 <= row * cols;
  }
}
