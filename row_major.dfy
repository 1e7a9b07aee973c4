/**
 * Row-major flattening of a two-dimensional index: element (col, row) of a
 * grid whose rows are `stride` elements wide sits at `row * stride + col`.
 * The image channel arrays use it with stride `width`, the vote accumulator
 * with stride `rDim`.
 */
module RowMajor {

  function Flat(col: int, row: int, stride: int): int
  {
    row * stride + col
  }

  lemma MulMonotone(a: int, b: int, c: int)
    requires 0 <= a <= b && c >= 0
    ensures a * c <= b * c
  {
    assert b * c - a * c == (b - a) * c;
  }

  /** A cell inside a `rows` x `stride` grid flattens to an index below `rows * stride`. */
  lemma FlatBounds(col: int, row: int, stride: int, rows: int)
    requires 0 <= col < stride && 0 <= row < rows
    ensures 0 <= Flat(col, row, stride) < rows * stride
  {
    MulMonotone(0, row, stride);
    MulMonotone(row + 1, rows, stride);
    assert (row + 1) * stride == row * stride + stride;
  }

  /** Every cell of the grid at once, for use under quantifiers. */
  lemma FlatBoundsAll(stride: int, rows: int)
    ensures forall col, row :: 0 <= col < stride && 0 <= row < rows ==> 0 <= Flat(col, row, stride) < rows * stride
  {
    forall col, row | 0 <= col < stride && 0 <= row < rows
      ensures 0 <= Flat(col, row, stride) < rows * stride
    {
      FlatBounds(col, row, stride, rows);
    }
  }

  /** Flattening preserves the row-by-row, then column-by-column, order. */
  lemma FlatOrder(c1: int, r1: int, c2: int, r2: int, stride: int)
    requires 0 <= c1 < stride && 0 <= c2 && 0 <= r1
    requires r1 < r2 || (r1 == r2 && c1 < c2)
    ensures Flat(c1, r1, stride) < Flat(c2, r2, stride)
  {
    if r1 < r2 {
      assert Flat(c1, r1, stride) < (r1 + 1) * stride;
      MulMonotone(r1 + 1, r2, stride);
    }
  }

  /** Integer division and remainder by the stride recover the cell of a flat index. */
  lemma FlatSplit(k: int, stride: int)
    requires 0 <= k && stride > 0
    ensures Flat(k % stride, k / stride, stride) == k
    ensures 0 <= k % stride < stride && 0 <= k / stride
  {
  }

  /** ... and the cell is the only one with that flat index. */
  lemma {:induction false} FlatUnsplit(col: int, row: int, stride: int)
    requires 0 <= col < stride && 0 <= row
    ensures Flat(col, row, stride) % stride == col
    ensures Flat(col, row, stride) / stride == row
  {
    var k := Flat(col, row, stride);
    var q, r := k / stride, k % stride;
    assert k == q * stride + r;
    var d := row - q;
    assert d * stride == r - col;
    if d > 0 {
      MulMonotone(1, d, stride);
    } else if d < 0 {
      MulMonotone(1, -d, stride);
    }
  }

  /** The element of cell (col, row) in a flat row-major sequence. */
  function At<T>(s: seq<T>, stride: nat, rows: nat, col: int, row: int): T
    requires stride * rows <= |s|
    requires 0 <= col < stride && 0 <= row < rows
  {
    FlatBounds(col, row, stride, rows);
    s[Flat(col, row, stride)]
  }

  /** Every index of a flat rows x stride sequence is the element of exactly one cell. */
  lemma AtCoversAll<T>(s: seq<T>, stride: nat, rows: nat, k: int)
    requires stride * rows <= |s| && 0 <= k < stride * rows
    ensures 0 <= k % stride < stride && 0 <= k / stride < rows
    ensures s[k] == At(s, stride, rows, k % stride, k / stride)
  {
    FlatSplit(k, stride);
    if k / stride >= rows {
      MulMonotone(rows, k / stride, stride);
    }
  }
}
