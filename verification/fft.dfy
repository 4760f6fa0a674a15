/**
 * The radix-2 FFT of the 2D split-step sketch (qm2d-split-step/fft.js): the
 * in-place bit-reversal sort and butterfly passes on one row of a complex
 * grid, and the 2D transform that runs them on every row, transposes, and
 * does it again.
 */
module FFT {
  import opened Numeric
  import opened Indexing
  import opened Arrays2D
  import opened BitReversal
  import opened Butterfly

  /**
   * `reverseBitSort2(arr)`: for each i, computes rev with `rev += d*((i&u)/u);
   * u <<= 1; d >>= 1` and, when rev <= i, exchanges entries i and rev.  For a
   * power-of-two length this moves every entry to its bit-reversed index and
   * touches no other row of the grid.
   */
  method ReverseBitSort2(arr: RowArray)
    requires arr.Valid() && IsPowerOfTwo(arr.Length())
    modifies arr.parent.data
    ensures arr.Valid()
    ensures arr.Row() == BitReversed(old(arr.Row()))
    ensures SameOutsideRow(old(arr.parent.Cells()), arr.parent.Cells(), arr.parent.height, arr.parent.width, arr.index)
  {
    var n := arr.Length();
    ghost var s0 := arr.Row();
    ghost var cells0 := arr.parent.Cells();
    for i := 0 to n
      invariant arr.Valid()
      invariant arr.Row() == SwapPass(s0, i)
      invariant SameOutsideRow(cells0, arr.parent.Cells(), arr.parent.height, arr.parent.width, arr.index)
    {
      ghost var c1 := arr.parent.Cells();
      SwapTurn(arr, i);
      SameOutsideRowTrans(cells0, c1, arr.parent.Cells(), arr.parent.height, arr.parent.width, arr.index);
    }
    SwapPassIsBitReversal(s0);
  }

  /** One turn of the outer loop of reverseBitSort2: compute rev and, when rev <= i, exchange entries i and rev. */
  method SwapTurn(arr: RowArray, i: nat)
    requires arr.Valid() && IsPowerOfTwo(arr.Length()) && i < arr.Length()
    modifies arr.parent.data
    ensures arr.Valid()
    ensures arr.Row() == SwapStep(old(arr.Row()), i)
    ensures SameOutsideRow(old(arr.parent.Cells()), arr.parent.Cells(), arr.parent.height, arr.parent.width, arr.index)
  {
    var n := arr.Length();
    var rev := ReversedIndex(i, n);
    BitReverseIndexIsMirror(i, n);
    if rev <= i {
      var atI, atRev := ReadPair(arr, i, rev);
      PutPair(arr, i, atRev, rev, atI);
    }
  }

  /** The while loop of reverseBitSort2 that computes rev for index i. */
  method ReversedIndex(i: nat, n: nat) returns (rev: nat)
    ensures rev == BitReverseIndex(i, n)
  {
    var u: nat, d: nat := 1, n / 2;
    rev := 0;
    ghost var target := BitReverseIndex(i, n);
    while u < n
      invariant u >= 1
      invariant RevFrom(i, n, u, d, rev) == target
      decreases n - u
    {
      RevFromStep(i, n, u, d, rev);
      AndPow2Bit(i, u);
      rev := rev + d * (AndPow2(i, u) / u);
      u := u * 2;
      d := d / 2;
    }
  }

  /**
   * `radix2InPlaceFFT(arr, isInverse)`: the bit-reversal sort, then for
   * blockSize = 2, 4, ..., n the butterflies of every block.  The row ends as
   * the transform `Radix2` of what it held; no other row changes.
   */
  method Radix2InPlaceFFT(m: MathLib, arr: RowArray, isInverse: bool)
    requires arr.Valid() && IsPowerOfTwo(arr.Length())
    modifies arr.parent.data
    ensures arr.Valid()
    ensures arr.Row() == Radix2(m, isInverse, old(arr.Row()))
    ensures SameOutsideRow(old(arr.parent.Cells()), arr.parent.Cells(), arr.parent.height, arr.parent.width, arr.index)
  {
    ReverseBitSort2(arr);
    ButterflyPasses(m, arr, isInverse);
  }

  /** The outer loop of radix2InPlaceFFT: blockSize = 2, 4, ..., n. */
  method ButterflyPasses(m: MathLib, arr: RowArray, isInverse: bool)
    requires arr.Valid() && IsPowerOfTwo(arr.Length())
    modifies arr.parent.data
    ensures arr.Valid()
    ensures arr.Row() == Stages(m, isInverse, old(arr.Row()), 2)
    ensures SameOutsideRow(old(arr.parent.Cells()), arr.parent.Cells(), arr.parent.height, arr.parent.width, arr.index)
  {
    var n := arr.Length();
    var blockSize: int := 2;
    while blockSize <= n
      invariant arr.Valid() && IsPowerOfTwo(blockSize) && 2 <= blockSize
      invariant Stages(m, isInverse, arr.Row(), blockSize) == Stages(m, isInverse, old(arr.Row()), 2)
      invariant SameOutsideRow(old(arr.parent.Cells()), arr.parent.Cells(), arr.parent.height, arr.parent.width, arr.index)
      decreases n - blockSize
    {
      ghost var before := arr.Row();
      ButterflyPass(m, arr, isInverse, blockSize);
      StagesStep(m, isInverse, before, arr.Row(), blockSize);
      blockSize := blockSize * 2;
    }
  }

  /** The two inner loops of radix2InPlaceFFT for one block size: the pass `Stage`. */
  method ButterflyPass(m: MathLib, arr: RowArray, isInverse: bool, blockSize: nat)
    requires arr.Valid() && IsPowerOfTwo(arr.Length())
    requires IsPowerOfTwo(blockSize) && 2 <= blockSize <= arr.Length()
    modifies arr.parent.data
    ensures arr.Valid()
    ensures arr.Row() == Stage(m, isInverse, old(arr.Row()), blockSize)
    ensures SameOutsideRow(old(arr.parent.Cells()), arr.parent.Cells(), arr.parent.height, arr.parent.width, arr.index)
  {
    var n := arr.Length();
    ghost var s0 := arr.Row();
    ghost var cells0 := arr.parent.Cells();
    ghost var pass := Stage(m, isInverse, s0, blockSize);
    SplicedEnds(pass, s0);
    var j := 0;
    while j < n
      invariant arr.Valid() && 0 <= j <= n && j % blockSize == 0
      invariant arr.Row() == Spliced(pass, s0, j)
      invariant SameOutsideRow(cells0, arr.parent.Cells(), arr.parent.height, arr.parent.width, arr.index)
      decreases n - j
    {
      ghost var c1 := arr.parent.Cells();
      BlockButterflies(m, isInverse, s0, blockSize, j);
      ButterflyBlock(m, arr, isInverse, blockSize, j, s0, pass);
      SameOutsideRowTrans(cells0, c1, arr.parent.Cells(), arr.parent.height, arr.parent.width, arr.index);
      DivModUnique(j + blockSize, blockSize, j / blockSize + 1, 0);
      j := j + blockSize;
    }
  }

  /**
   * The innermost loop of radix2InPlaceFFT: the butterflies of the block
   * that starts at j.  Given the values `pass` of the whole pass at the two
   * ends of each butterfly, it writes them at j .. j+blockSize-1.
   */
  method ButterflyBlock(m: MathLib, arr: RowArray, isInverse: bool, blockSize: nat, j: nat,
                        ghost s0: seq<Complex>, ghost pass: seq<Complex>)
    requires arr.Valid() && |s0| == arr.Length() && |pass| == arr.Length()
    requires 2 <= blockSize && blockSize % 2 == 0 && j + blockSize <= arr.Length()
    requires forall i :: 0 <= i < blockSize / 2 ==> ButterflyOf(m, isInverse, blockSize, j, s0, pass, i)
    requires arr.Row() == Spliced(pass, s0, j)
    modifies arr.parent.data
    ensures arr.Valid()
    ensures arr.Row() == Spliced(pass, s0, j + blockSize)
    ensures SameOutsideRow(old(arr.parent.Cells()), arr.parent.Cells(), arr.parent.height, arr.parent.width, arr.index)
  {
    var h := blockSize / 2;
    ghost var cells0 := arr.parent.Cells();
    PartlyDoneEnds(pass, s0, j, h);
    for i := 0 to h
      invariant arr.Valid()
      invariant arr.Row() == PartlyDone(pass, s0, j, h, i)
      invariant SameOutsideRow(cells0, arr.parent.Cells(), arr.parent.height, arr.parent.width, arr.index)
    {
      ghost var c1 := arr.parent.Cells();
      ButterflyAt(m, arr, isInverse, blockSize, j, i, s0, pass);
      SameOutsideRowTrans(cells0, c1, arr.parent.Cells(), arr.parent.height, arr.parent.width, arr.index);
    }
  }

  /** One turn of the innermost loop: the butterfly at j+i and j+i+blockSize/2. */
  method ButterflyAt(m: MathLib, arr: RowArray, isInverse: bool, blockSize: nat, j: nat, i: nat,
                     ghost s0: seq<Complex>, ghost pass: seq<Complex>)
    requires arr.Valid() && |s0| == arr.Length() && |pass| == arr.Length()
    requires 2 <= blockSize && blockSize % 2 == 0 && j + blockSize <= arr.Length() && i < blockSize / 2
    requires ButterflyOf(m, isInverse, blockSize, j, s0, pass, i)
    requires arr.Row() == PartlyDone(pass, s0, j, blockSize / 2, i)
    modifies arr.parent.data
    ensures arr.Valid()
    ensures arr.Row() == PartlyDone(pass, s0, j, blockSize / 2, i + 1)
    ensures SameOutsideRow(old(arr.parent.Cells()), arr.parent.Cells(), arr.parent.height, arr.parent.width, arr.index)
  {
    var n := arr.Length();
    var h := blockSize / 2;
    var even, odd := ReadPair(arr, j + i, j + i + h);
    ButterflyValues(m, isInverse, blockSize, j, s0, pass, i, even, odd);
    PutPair(arr, j + i, Top(m, isInverse, n, blockSize, i, even, odd), j + h + i, Bottom(m, isInverse, n, blockSize, i, even, odd));
    PartlyDoneStep(pass, s0, j, h, i);
  }

  /** The two reads of one butterfly. */
  method ReadPair(arr: RowArray, k1: int, k2: int) returns (v1: Complex, v2: Complex)
    requires arr.Valid() && 0 <= k1 < arr.Length() && 0 <= k2 < arr.Length()
    ensures v1 == arr.Row()[k1] && v2 == arr.Row()[k2]
  {
    v1 := arr.At(k1).value;
    v2 := arr.At(k2).value;
  }

  /** The two writes of one butterfly. */
  method PutPair(arr: RowArray, k1: int, v1: Complex, k2: int, v2: Complex)
    requires arr.Valid() && 0 <= k1 < arr.Length() && 0 <= k2 < arr.Length()
    modifies arr.parent.data
    ensures arr.Valid()
    ensures arr.Row() == old(arr.Row())[k1 := v1][k2 := v2]
    ensures SameOutsideRow(old(arr.parent.Cells()), arr.parent.Cells(), arr.parent.height, arr.parent.width, arr.index)
  {
    ghost var c1 := arr.parent.Cells();
    arr.Put(k1, v1);
    ghost var c2 := arr.parent.Cells();
    arr.Put(k2, v2);
    SameOutsideRowTrans(c1, c2, arr.parent.Cells(), arr.parent.height, arr.parent.width, arr.index);
  }

  /* ---------------- the 2D transform ---------------- */

  /** The grid whose row p is the transform of row p of `c`. */
  function EachRow(m: MathLib, isInverse: bool, c: seq<Complex>, h: nat, w: nat): (r: seq<Complex>)
    requires |c| == h * w && IsPowerOfTwo(w)
    ensures |r| == h * w
  {
    seq(h * w, k requires 0 <= k < h * w =>
      RowMajorDecode(k, h, w);
      Radix2(m, isInverse, RowOf(c, h, w, k / w))[k % w])
  }

  lemma EachRowAt(m: MathLib, isInverse: bool, c: seq<Complex>, h: nat, w: nat, p: int, q: int)
    requires |c| == h * w && IsPowerOfTwo(w) && 0 <= p < h && 0 <= q < w
    ensures Get(EachRow(m, isInverse, c, h, w), h, w, p, q) == Radix2(m, isInverse, RowOf(c, h, w, p))[q]
  {
    RowMajorInRange(p, q, h, w);
    DivModUnique(RowMajor(p, q, w), w, p, q);
  }

  /**
   * What radix2InPlaceFFT2D computes on an h-by-w grid: transform every row,
   * transpose, transform every row of the w-by-h transpose, transpose back.
   */
  function Transform2D(m: MathLib, isInverse: bool, c: seq<Complex>, h: nat, w: nat): (r: seq<Complex>)
    requires |c| == h * w && IsPowerOfTwo(w) && IsPowerOfTwo(h)
    ensures |r| == h * w
  {
    var once := Transposed(EachRow(m, isInverse, c, h, w), h, w);
    Transposed(EachRow(m, isInverse, once, w, h), w, h)
  }

  /** The loop `for (i = 0; i < arr.height; i++) radix2InPlaceFFT(arr.getRow(i), isInverse)`. */
  method TransformRows(m: MathLib, arr: ComplexArray2D, isInverse: bool)
    requires arr.Valid() && IsPowerOfTwo(arr.width)
    modifies arr.data
    ensures arr.Valid()
    ensures arr.Cells() == EachRow(m, isInverse, old(arr.Cells()), arr.height, arr.width)
  {
    var h, w := arr.height, arr.width;
    ghost var c0 := arr.Cells();
    for i := 0 to arr.height
      invariant arr.Valid()
      invariant forall p, q :: 0 <= p < h && 0 <= q < w ==>
        Get(arr.Cells(), h, w, p, q) == if p < i then Get(EachRow(m, isInverse, c0, h, w), h, w, p, q) else Get(c0, h, w, p, q)
    {
      var row := arr.GetRow(i);
      assert row.Row() == RowOf(c0, h, w, i);
      Radix2InPlaceFFT(m, row, isInverse);
      forall p, q | 0 <= p < h && 0 <= q < w
        ensures Get(arr.Cells(), h, w, p, q) ==
          if p < i + 1 then Get(EachRow(m, isInverse, c0, h, w), h, w, p, q) else Get(c0, h, w, p, q)
      {
        EachRowAt(m, isInverse, c0, h, w, p, q);
        if p == i {
          assert Get(arr.Cells(), h, w, p, q) == row.Row()[q];
        }
      }
    }
    GridExtensional(arr.Cells(), EachRow(m, isInverse, c0, h, w), h, w);
  }

  /**
   * `radix2InPlaceFFT2D(arr, isInverse)` without workers: two rounds of
   * "transform every row, then transposeInPlace".  The grid keeps its
   * dimensions and ends as `Transform2D` of what it held.
   */
  method Radix2InPlaceFFT2D(m: MathLib, arr: ComplexArray2D, isInverse: bool)
    requires arr.Valid() && IsPowerOfTwo(arr.width) && IsPowerOfTwo(arr.height)
    modifies arr, arr.data
    ensures arr.Valid() && arr.data == old(arr.data)
    ensures arr.height == old(arr.height) && arr.width == old(arr.width)
    ensures arr.Cells() == Transform2D(m, isInverse, old(arr.Cells()), old(arr.height), old(arr.width))
  {
    ghost var h, w, c0 := arr.height, arr.width, arr.Cells();
    ghost var once := Transposed(EachRow(m, isInverse, c0, h, w), h, w);
    for iter := 0 to 2
      invariant arr.Valid() && arr.data == old(arr.data)
      invariant iter == 0 ==> arr.height == h && arr.width == w && arr.Cells() == c0
      invariant iter == 1 ==> arr.height == w && arr.width == h && arr.Cells() == once
      invariant iter == 2 ==> arr.height == h && arr.width == w && arr.Cells() == Transform2D(m, isInverse, c0, h, w)
    {
      TransformRows(m, arr, isInverse);
      arr.TransposeInPlace();
    }
  }
}
