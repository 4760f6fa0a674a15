/**
 * Index arithmetic shared by the flat containers of the split-step sketches:
 * the row-major numbering `i*width + j` of a grid and the transposition of a
 * row-major sequence of cells.
 */
module Indexing {

  /** The row-major number `i*width + j` of row i, column j. */
  function RowMajor(i: int, j: int, width: int): int { i * width + j }

  lemma MulLe(a: int, b: int, c: int)
    requires a <= b && 0 <= c
    ensures a * c <= b * c
  {
    assert b * c - a * c == (b - a) * c;
  }

  /**
   * A cell of an earlier row comes before every cell of a later row: the
   * order in which the nested row-major loops visit the grid.
   */
  lemma RowBefore(p: int, q: int, i: int, j: int, w: int)
    requires p < i && 0 <= q < w && 0 <= j
    ensures RowMajor(p, q, w) < RowMajor(i, j, w)
  {
    MulLe(p + 1, i, w);
    assert (p + 1) * w == p * w + w;
  }

  /** Distinct cells of a grid of width w have distinct row-major numbers. */
  lemma RowMajorInjective(w: int, i: int, j: int, p: int, q: int)
    requires 0 <= j < w && 0 <= q < w
    requires RowMajor(i, j, w) == RowMajor(p, q, w)
    ensures i == p && j == q
  {
    if i < p {
      RowBefore(i, j, p, q, w);
    } else if p < i {
      RowBefore(p, q, i, j, w);
    }
  }

  /** A row-major number lies inside the grid. */
  lemma RowMajorInRange(i: int, j: int, h: int, w: int)
    requires 0 <= i < h && 0 <= j < w
    ensures 0 <= RowMajor(i, j, w) < h * w
  {
    RowBefore(i, j, h, 0, w);
    MulLe(0, i, w);
  }

  /** Division is the unique quotient and remainder. */
  lemma DivModUnique(x: int, d: int, q: int, r: int)
    requires 0 < d && 0 <= r < d && x == q * d + r
    ensures x / d == q && x % d == r
  {
    RowMajorInjective(d, x / d, x % d, q, r);
  }

  /** Every cell number of an h-by-w grid is the number of one (row, column) pair. */
  lemma RowMajorDecode(k: int, h: nat, w: nat)
    requires 0 <= k < h * w
    ensures 0 < w && 0 <= k / w < h && 0 <= k % w < w && k == RowMajor(k / w, k % w, w)
  {
    if k / w >= h {
      MulLe(h, k / w, w);
      assert false;
    }
  }

  lemma Decode(k: int, h: nat, w: nat) returns (p: int, q: int)
    requires 0 <= k < h * w
    ensures 0 <= p < h && 0 <= q < w && k == RowMajor(p, q, w)
  {
    RowMajorDecode(k, h, w);
    p, q := k / w, k % w;
  }

  /** Row i, column j of the row-major h-by-w grid `c`. */
  function Get<T>(c: seq<T>, h: nat, w: nat, i: int, j: int): T
    requires |c| == h * w && 0 <= i < h && 0 <= j < w
  {
    RowMajorInRange(i, j, h, w);
    c[RowMajor(i, j, w)]
  }

  /** Row p of the row-major h-by-w grid `c`. */
  function RowOf<T>(c: seq<T>, h: nat, w: nat, p: int): (r: seq<T>)
    requires |c| == h * w && 0 <= p < h
    ensures |r| == w
    ensures forall q :: 0 <= q < w ==> r[q] == Get(c, h, w, p, q)
  {
    seq(w, q requires 0 <= q < w => Get(c, h, w, p, q))
  }

  /** Two grids of the same shape agree when they agree cell by cell. */
  lemma GridExtensional<T>(a: seq<T>, b: seq<T>, h: nat, w: nat)
    requires |a| == h * w && |b| == h * w
    requires forall p, q :: 0 <= p < h && 0 <= q < w ==> Get(a, h, w, p, q) == Get(b, h, w, p, q)
    ensures a == b
  {
    forall k | 0 <= k < |a|
      ensures a[k] == b[k]
    {
      var p, q := Decode(k, h, w);
      assert Get(a, h, w, p, q) == Get(b, h, w, p, q);
    }
  }

  /** The cell of an h-by-w grid that holds entry k of its transpose. */
  function TransposeSource(k: int, h: nat, w: nat): (r: nat)
    requires 0 <= k < w * h
    ensures r < h * w
  {
    RowMajorDecode(k, w, h);
    RowMajorInRange(k % h, k / h, h, w);
    RowMajor(k % h, k / h, w)
  }

  /**
   * The transpose of the row-major h-by-w grid `c`: a w-by-h grid whose cell
   * (i, j) is the cell (j, i) of `c`.
   */
  function Transposed<T>(c: seq<T>, h: nat, w: nat): (r: seq<T>)
    requires |c| == h * w
    ensures |r| == w * h
  {
    seq(w * h, k requires 0 <= k < w * h => c[TransposeSource(k, h, w)])
  }

  lemma {:induction false} TransposedAt<T>(c: seq<T>, h: nat, w: nat, i: int, j: int)
    requires |c| == h * w && 0 <= i < w && 0 <= j < h
    ensures Get(Transposed(c, h, w), w, h, i, j) == Get(c, h, w, j, i)
  {
    RowMajorInRange(i, j, w, h);
    DivModUnique(RowMajor(i, j, h), h, i, j);
  }

  /** Transposing twice gives back the grid. */
  lemma TransposedTwice<T>(c: seq<T>, h: nat, w: nat)
    requires |c| == h * w
    ensures Transposed(Transposed(c, h, w), w, h) == c
  {
    var t := Transposed(c, h, w);
    forall p, q | 0 <= p < h && 0 <= q < w
      ensures Get(Transposed(t, w, h), h, w, p, q) == Get(c, h, w, p, q)
    {
      TransposedAt(t, w, h, p, q);
      TransposedAt(c, h, w, q, p);
    }
    GridExtensional(Transposed(t, w, h), c, h, w);
  }
}
