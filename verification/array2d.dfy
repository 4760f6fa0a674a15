/**
 * The flat two-dimensional containers of the 2D split-step sketch
 * (array.js): `RealArray2D` and `ComplexArray2D` store a grid row by row in a
 * typed array, `ComplexArray2D` with the real and imaginary parts of each
 * cell side by side, and `RowArray` is a view of one row of a complex grid
 * that reads and writes through to it.
 *
 * Typed-array elements are modelled as exact reals (no Float32 rounding).
 * A typed array answers `undefined` for an index outside it and ignores a
 * write there; `At` returns `None` in that case and `Put` leaves the data as
 * it was.
 */
module Arrays2D {
  import opened Wrappers
  import opened Numeric
  import opened Indexing

  /** The complex cells of interleaved storage: cell k is (s[2k], s[2k+1]). */
  function CellsOf(s: seq<real>): (r: seq<Complex>)
    ensures |r| == |s| / 2
  {
    seq(|s| / 2, k requires 0 <= k < |s| / 2 => Complex(s[2 * k], s[2 * k + 1]))
  }

  /** Writing both parts of cell k changes cell k of the complex view and nothing else. */
  lemma CellsOfUpdate(s: seq<real>, k: int, z: Complex)
    requires 0 <= k < |s| / 2
    ensures CellsOf(s[2 * k := z.re][2 * k + 1 := z.im]) == CellsOf(s)[k := z]
  {
    var t := s[2 * k := z.re][2 * k + 1 := z.im];
    forall c | 0 <= c < |s| / 2
      ensures CellsOf(t)[c] == CellsOf(s)[k := z][c]
    {
      if c != k {
        assert t[2 * c] == s[2 * c] && t[2 * c + 1] == s[2 * c + 1];
      }
    }
  }

  /** `RealArray2D`: an n-by-m grid of numbers in a `Float32Array` of n*m elements. */
  class RealArray2D {
    var data: array<real>
    var width: nat
    var height: nat

    ghost predicate Valid()
      reads this
    {
      data.Length == height * width
    }

    /** `new RealArray2D(n, m)`: n rows of m zeros. */
    constructor(n: nat, m: nat)
      ensures Valid() && fresh(data) && height == n && width == m
      ensures forall k :: 0 <= k < data.Length ==> data[k] == 0.0
    {
      width := m;
      height := n;
      data := new real[n * m](_ => 0.0);
    }

    /** `at(i, j)`: element `i*width + j` of the data, `undefined` outside it. */
    function At(i: int, j: int): (r: Option<real>)
      reads this, data
      requires Valid()
      ensures r.Some? <==> 0 <= RowMajor(i, j, width) < height * width
      ensures 0 <= i < height && 0 <= j < width ==> r == Some(Get(data[..], height, width, i, j))
    {
      var k := RowMajor(i, j, width);
      var r := if 0 <= k < data.Length then Some(data[k]) else None;
      if 0 <= i < height && 0 <= j < width then RowMajorInRange(i, j, height, width); r else r
    }

    /** `put(i, j, val)`: sets element `i*width + j`. */
    method Put(i: int, j: int, val: real)
      requires Valid()
      modifies data
      ensures Valid()
      ensures var k := RowMajor(i, j, width);
        data[..] == if 0 <= k < data.Length then old(data[..])[k := val] else old(data[..])
      ensures 0 <= i < height && 0 <= j < width ==> At(i, j) == Some(val)
      ensures 0 <= i < height && 0 <= j < width ==>
        forall p, q :: 0 <= p < height && 0 <= q < width && (p != i || q != j) ==> At(p, q) == old(At(p, q))
    {
      var k := RowMajor(i, j, width);
      if 0 <= k < data.Length {
        data[k] := val;
      }
      if 0 <= i < height && 0 <= j < width {
        forall p, q | 0 <= p < height && 0 <= q < width && (p != i || q != j)
          ensures At(p, q) == old(At(p, q))
        {
          if RowMajor(p, q, width) == k {
            RowMajorInjective(width, p, q, i, j);
          }
        }
      }
    }
  }

  /** `ComplexArray2D`: an n-by-m grid of complex values in a `Float32Array` of 2*n*m elements. */
  class ComplexArray2D {
    var data: array<real>
    var width: nat
    var height: nat

    ghost predicate Valid()
      reads this
    {
      data.Length == 2 * (height * width)
    }

    /** The grid's cells in row-major order. */
    function Cells(): (r: seq<Complex>)
      reads this, data
      requires Valid()
      ensures |r| == height * width
    {
      CellsOf(data[..])
    }

    /** `new ComplexArray2D(n, m)`: n rows of m zeros. */
    constructor(n: nat, m: nat)
      ensures Valid() && fresh(data) && height == n && width == m
      ensures forall k :: 0 <= k < |Cells()| ==> Cells()[k] == Complex(0.0, 0.0)
    {
      width := m;
      height := n;
      data := new real[2 * (n * m)](_ => 0.0);
    }

    /**
     * `createFromBuffer(buffer, n, m)`: an n-by-m grid over the caller's
     * storage, which it shares.
     */
    static method CreateFromBuffer(buffer: array<real>, n: nat, m: nat) returns (arr: ComplexArray2D)
      requires buffer.Length == 2 * (n * m)
      ensures fresh(arr) && arr.Valid() && arr.data == buffer && arr.height == n && arr.width == m
    {
      arr := new ComplexArray2D(0, 0);
      arr.data := buffer;
      arr.height := n;
      arr.width := m;
    }

    /** `at(i, j)`: the cell whose parts sit at `2*(i*width + j)` and the next slot. */
    function At(i: int, j: int): (r: Option<Complex>)
      reads this, data
      requires Valid()
      ensures r.Some? <==> 0 <= RowMajor(i, j, width) < height * width
      ensures r.Some? ==> r.value == Cells()[RowMajor(i, j, width)]
      ensures 0 <= i < height && 0 <= j < width ==> r == Some(Get(Cells(), height, width, i, j))
    {
      var index := 2 * RowMajor(i, j, width);
      var r := if 0 <= index < data.Length then Some(Complex(data[index], data[index + 1])) else None;
      if 0 <= i < height && 0 <= j < width then RowMajorInRange(i, j, height, width); r else r
    }

    /** `put(i, j, val)`: stores the real part at `2*(i*width + j)` and the imaginary part next to it. */
    method Put(i: int, j: int, val: Complex)
      requires Valid()
      modifies data
      ensures Valid()
      ensures var k := RowMajor(i, j, width);
        Cells() == if 0 <= k < height * width then old(Cells())[k := val] else old(Cells())
      ensures 0 <= i < height && 0 <= j < width ==> At(i, j) == Some(val)
      ensures 0 <= i < height && 0 <= j < width ==>
        forall p, q :: 0 <= p < height && 0 <= q < width && (p != i || q != j) ==> At(p, q) == old(At(p, q))
    {
      var index := 2 * RowMajor(i, j, width);
      if 0 <= index < data.Length {
        data[index] := val.re;
        data[index + 1] := val.im;
        CellsOfUpdate(old(data[..]), RowMajor(i, j, width), val);
      }
      if 0 <= i < height && 0 <= j < width {
        forall p, q | 0 <= p < height && 0 <= q < width && (p != i || q != j)
          ensures At(p, q) == old(At(p, q))
        {
          if RowMajor(p, q, width) == RowMajor(i, j, width) {
            RowMajorInjective(width, p, q, i, j);
          }
        }
      }
    }

    /** `getRow(i)`: a view of row i, not a copy. */
    method GetRow(i: int) returns (row: RowArray)
      ensures fresh(row) && row.parent == this && row.index == i
    {
      row := new RowArray(this, i);
    }

    /**
     * `subSlice(rowStart, rowStop, columnStart, columnStop)`: a new grid holding
     * the given window, which lies inside this grid.
     */
    method SubSlice(rowStart: int, rowStop: int, columnStart: int, columnStop: int) returns (arr: ComplexArray2D)
      requires Valid()
      requires 0 <= rowStart <= rowStop <= height && 0 <= columnStart <= columnStop <= width
      ensures fresh(arr) && fresh(arr.data) && arr.Valid()
      ensures arr.height == rowStop - rowStart && arr.width == columnStop - columnStart
      ensures forall i, j :: rowStart <= i < rowStop && columnStart <= j < columnStop ==>
        arr.At(i - rowStart, j - columnStart) == At(i, j)
    {
      var m := columnStop - columnStart;
      var n := rowStop - rowStart;
      arr := new ComplexArray2D(n, m);
      var i := rowStart;
      while i < rowStop
        invariant rowStart <= i <= rowStop
        invariant fresh(arr) && fresh(arr.data) && arr.Valid() && arr.height == n && arr.width == m
        invariant forall p, q :: rowStart <= p < i && columnStart <= q < columnStop ==>
          arr.At(p - rowStart, q - columnStart) == At(p, q)
      {
        CopyRowInto(arr, i, rowStart, columnStart, columnStop);
        i := i + 1;
      }
    }

    /** The inner loop of `subSlice`: row i of the window goes to row i-rowStart of `arr`, which no other row sees. */
    method CopyRowInto(arr: ComplexArray2D, i: int, rowStart: int, columnStart: int, columnStop: int)
      requires Valid() && arr.Valid() && arr.data != data
      requires 0 <= rowStart <= i < height && 0 <= columnStart <= columnStop <= width
      requires i - rowStart < arr.height && arr.width == columnStop - columnStart
      modifies arr.data
      ensures arr.Valid()
      ensures forall q :: columnStart <= q < columnStop ==> arr.At(i - rowStart, q - columnStart) == At(i, q)
      ensures forall p, q :: 0 <= p < arr.height && 0 <= q < arr.width && p != i - rowStart ==>
        arr.At(p, q) == old(arr.At(p, q))
    {
      var j := columnStart;
      while j < columnStop
        invariant columnStart <= j <= columnStop
        invariant arr.Valid()
        invariant forall q :: columnStart <= q < j ==> arr.At(i - rowStart, q - columnStart) == At(i, q)
        invariant forall p, q :: 0 <= p < arr.height && 0 <= q < arr.width && p != i - rowStart ==>
          arr.At(p, q) == old(arr.At(p, q))
      {
        arr.Put(i - rowStart, j - columnStart, At(i, j).value);
        j := j + 1;
      }
    }

    /** The pairs already exchanged when the square loops reach row i, column j. */
    static predicate Swapped(p: int, q: int, i: int, j: int)
    {
      p < i || q < i || (p == i && i < q < j) || (q == i && i < p < j)
    }

    /**
     * `transposeInPlace()`: afterwards cell (i, j) holds what cell (j, i) held
     * and the width and height are exchanged.  A square grid swaps each pair
     * above the diagonal with its mirror; any other grid is copied out to a
     * temporary grid and read back with the indices exchanged.
     */
    method TransposeInPlace()
      requires Valid()
      modifies this, data
      ensures Valid() && data == old(data)
      ensures width == old(height) && height == old(width)
      ensures Cells() == Transposed(old(Cells()), old(height), old(width))
    {
      if width == height {
        SwapAcrossDiagonal();
      } else {
        TransposeThroughCopy();
      }
    }

    /** The square branch of transposeInPlace: swaps (i, j) with (j, i) for every j > i. */
    method SwapAcrossDiagonal()
      requires Valid() && width == height
      modifies data
      ensures Valid() && width == old(width) && height == old(height)
      ensures Cells() == Transposed(old(Cells()), height, width)
    {
      var size := width;
      var i := 0;
      while i < size
        invariant 0 <= i <= size || size == 0
        invariant Valid() && data == old(data) && width == size && height == size
        invariant forall p, q :: 0 <= p < size && 0 <= q < size ==>
          At(p, q) == if p < i || q < i then old(At(q, p)) else old(At(p, q))
      {
        var j := i + 1;
        while j < size
          invariant i + 1 <= j <= size
          invariant Valid() && data == old(data) && width == size && height == size
          invariant forall p, q :: 0 <= p < size && 0 <= q < size ==>
            At(p, q) == if Swapped(p, q, i, j) then old(At(q, p)) else old(At(p, q))
        {
          var tmp := At(j, i);
          Put(j, i, At(i, j).value);
          Put(i, j, tmp.value);
          j := j + 1;
        }
        i := i + 1;
      }
      forall p, q | 0 <= p < size && 0 <= q < size
        ensures Get(Cells(), size, size, p, q) == Get(old(Cells()), size, size, q, p)
      {
        assert At(p, q) == old(At(q, p));
      }
      TransposedFromCells(Cells(), old(Cells()), size, size);
    }

    /**
     * The other branch of transposeInPlace: copies the grid to a temporary one,
     * exchanges width and height, and reads the copy back with the indices exchanged.
     */
    method TransposeThroughCopy()
      requires Valid()
      modifies this, data
      ensures Valid() && data == old(data)
      ensures width == old(height) && height == old(width)
      ensures Cells() == Transposed(old(Cells()), old(height), old(width))
    {
      var w, h := width, height;
      var tmp := Copy();
      width := h;
      height := w;
      ReadTransposed(tmp);
    }

    /** The copy loops of transposeInPlace: a new grid of the same shape and cells. */
    method Copy() returns (tmp: ComplexArray2D)
      requires Valid()
      ensures fresh(tmp) && fresh(tmp.data) && tmp.Valid()
      ensures tmp.height == height && tmp.width == width && tmp.Cells() == Cells()
    {
      var w, h := width, height;
      tmp := new ComplexArray2D(h, w);
      var i := 0;
      while i < h
        invariant 0 <= i <= h
        invariant fresh(tmp) && fresh(tmp.data) && tmp.Valid() && tmp.height == h && tmp.width == w
        invariant forall p, q :: 0 <= p < i && 0 <= q < w ==> tmp.At(p, q) == At(p, q)
      {
        var j := 0;
        while j < w
          invariant 0 <= j <= w
          invariant fresh(tmp) && fresh(tmp.data) && tmp.Valid() && tmp.height == h && tmp.width == w
          invariant forall p, q :: 0 <= p < i && 0 <= q < w ==> tmp.At(p, q) == At(p, q)
          invariant forall q :: 0 <= q < j ==> tmp.At(i, q) == At(i, q)
        {
          tmp.Put(i, j, At(i, j).value);
          j := j + 1;
        }
        i := i + 1;
      }
      forall p, q | 0 <= p < h && 0 <= q < w
        ensures Get(tmp.Cells(), h, w, p, q) == Get(Cells(), h, w, p, q)
      {
        assert tmp.At(p, q) == At(p, q);
      }
      GridExtensional(tmp.Cells(), Cells(), h, w);
    }

    /**
     * The read-back loops of transposeInPlace, after width and height are
     * exchanged: cell (i, j) gets cell (j, i) of the copy.
     */
    method ReadTransposed(tmp: ComplexArray2D)
      requires Valid() && tmp.Valid() && tmp.data != data
      requires tmp.height == width && tmp.width == height
      modifies data
      ensures Valid()
      ensures Cells() == Transposed(tmp.Cells(), tmp.height, tmp.width)
    {
      var h, w := tmp.height, tmp.width;
      var i := 0;
      while i < height
        invariant 0 <= i <= height
        invariant Valid() && tmp.Valid()
        invariant forall p, q :: 0 <= p < i && 0 <= q < h ==> At(p, q) == tmp.At(q, p)
      {
        var j := 0;
        while j < width
          invariant 0 <= j <= width
          invariant Valid() && tmp.Valid()
          invariant forall p, q :: 0 <= p < i && 0 <= q < h ==> At(p, q) == tmp.At(q, p)
          invariant forall q :: 0 <= q < j ==> At(i, q) == tmp.At(q, i)
        {
          Put(i, j, tmp.At(j, i).value);
          j := j + 1;
        }
        i := i + 1;
      }
      forall p, q | 0 <= p < w && 0 <= q < h
        ensures Get(Cells(), w, h, p, q) == Get(tmp.Cells(), h, w, q, p)
      {
        assert At(p, q) == tmp.At(q, p);
      }
      TransposedFromCells(Cells(), tmp.Cells(), h, w);
    }
  }

  /** A w-by-h grid whose cell (p, q) is cell (q, p) of an h-by-w grid is its transpose. */
  lemma TransposedFromCells<T>(c: seq<T>, c0: seq<T>, h: nat, w: nat)
    requires |c| == w * h && |c0| == h * w
    requires forall p, q :: 0 <= p < w && 0 <= q < h ==> Get(c, w, h, p, q) == Get(c0, h, w, q, p)
    ensures c == Transposed(c0, h, w)
  {
    forall p, q | 0 <= p < w && 0 <= q < h
      ensures Get(c, w, h, p, q) == Get(Transposed(c0, h, w), w, h, p, q)
    {
      TransposedAt(c0, h, w, p, q);
    }
    GridExtensional(c, Transposed(c0, h, w), w, h);
  }

  /** Every cell outside row `row` of the h-by-w grid is the same in `before` and `after`. */
  ghost predicate SameOutsideRow(before: seq<Complex>, after: seq<Complex>, h: nat, w: nat, row: int)
    requires |before| == h * w && |after| == h * w
  {
    forall p, q :: 0 <= p < h && p != row && 0 <= q < w ==> Get(after, h, w, p, q) == Get(before, h, w, p, q)
  }

  /** Agreeing outside a row is transitive. */
  lemma SameOutsideRowTrans(a: seq<Complex>, b: seq<Complex>, c: seq<Complex>, h: nat, w: nat, row: int)
    requires |a| == h * w && |b| == h * w && |c| == h * w
    requires SameOutsideRow(a, b, h, w, row) && SameOutsideRow(b, c, h, w, row)
    ensures SameOutsideRow(a, c, h, w, row)
  {
  }

  /**
   * `RowArray`: row `index` of a complex grid.  Reads and writes go to the
   * grid's cell `(index, j)`, whose row-major number is `index*width + j`.
   */
  class RowArray {
    const parent: ComplexArray2D
    const index: int

    constructor(array2D: ComplexArray2D, i: int)
      ensures parent == array2D && index == i
    {
      parent := array2D;
      index := i;
    }

    /** The row lies inside its grid. */
    ghost predicate Valid()
      reads parent
    {
      parent.Valid() && 0 <= index < parent.height
    }

    /** `length`: the width of the grid. */
    function Length(): (r: nat)
      reads parent
    {
      parent.width
    }

    /** The cells of the row: cell (index, j) of the grid for each column j. */
    function Row(): (r: seq<Complex>)
      reads parent, parent.data
      requires Valid()
      ensures |r| == Length()
    {
      RowOf(parent.Cells(), parent.height, parent.width, index)
    }

    /** `at(j)`: the grid's `at(index, j)`, which is cell j of the row when j is inside it. */
    function At(j: int): (r: Option<Complex>)
      reads parent, parent.data
      requires parent.Valid()
      ensures r == parent.At(index, j)
      ensures Valid() && 0 <= j < Length() ==> r == Some(Row()[j])
    {
      parent.At(index, j)
    }

    /**
     * `put(j, val)`: the grid's `put(index, j, val)`.  For j inside the row it
     * changes cell j of the row and no cell of any other row.
     */
    method Put(j: int, val: Complex)
      requires parent.Valid()
      modifies parent.data
      ensures parent.Valid()
      ensures var k := RowMajor(index, j, parent.width);
        parent.Cells() == if 0 <= k < parent.height * parent.width then old(parent.Cells())[k := val] else old(parent.Cells())
      ensures Valid() && 0 <= j < Length() ==> Row() == old(Row())[j := val]
      ensures Valid() && 0 <= j < Length() ==>
        SameOutsideRow(old(parent.Cells()), parent.Cells(), parent.height, parent.width, index)
    {
      parent.Put(index, j, val);
      if Valid() && 0 <= j < Length() {
        forall q | 0 <= q < Length()
          ensures Row()[q] == old(Row())[j := val][q]
        {
          assert Some(Row()[q]) == parent.At(index, q);
          assert Some(old(Row())[q]) == old(parent.At(index, q));
        }
        forall p, q | 0 <= p < parent.height && p != index && 0 <= q < parent.width
          ensures Get(parent.Cells(), parent.height, parent.width, p, q) == Get(old(parent.Cells()), parent.height, parent.width, p, q)
        {
          assert Some(Get(parent.Cells(), parent.height, parent.width, p, q)) == parent.At(p, q);
          assert Some(Get(old(parent.Cells()), parent.height, parent.width, p, q)) == old(parent.At(p, q));
        }
      }
    }
  }
}
