/**
 * The container and FFT of the 1D time-dependent sketch
 * (qm1d-time-dependent/main.js): `ComplexArray`, which keeps n complex
 * numbers as 2n interleaved doubles, its own copies of `reverseBitSort2`
 * (with a halving `d` that is a fraction on the last turn) and
 * `radix2InPlaceFFT`, and the position and momentum grids `X` and `P`.
 *
 * Doubles are modelled as exact reals.
 */
module QM1D {
  import opened Wrappers
  import opened Numeric
  import opened Indexing
  import opened Arrays2D
  import opened BitReversal
  import opened Butterfly

  /** `ComplexArray`: complex number i is (`_data[2*i]`, `_data[2*i + 1]`). */
  class ComplexArray {
    const data: array<real>

    ghost predicate Valid()
      reads this
    {
      data.Length % 2 == 0
    }

    /** `new ComplexArray(n)`: a zeroed `Float64Array` of 2n elements, so n zeros. */
    constructor(n: nat)
      ensures Valid() && fresh(data) && Length() == n
      ensures forall i :: 0 <= i < n ==> Elements()[i] == Complex(0.0, 0.0)
    {
      data := new real[2 * n](_ => 0.0);
    }

    /** `length`: half the number of doubles. */
    function Length(): nat
      reads this
    {
      data.Length / 2
    }

    /** The complex numbers the array holds. */
    function Elements(): (r: seq<Complex>)
      reads this, data
      ensures |r| == Length()
    {
      CellsOf(data[..])
    }

    /**
     * `at(i)`: the number at i.  Outside [0, length) both reads fall outside
     * the typed array and the result has undefined parts, modelled as None.
     */
    function At(i: int): (r: Option<Complex>)
      reads this, data
      requires Valid()
      ensures r.Some? <==> 0 <= i < Length()
      ensures r.Some? ==> r.value == Elements()[i]
    {
      if 0 <= i < Length() then Some(Complex(data[2 * i], data[2 * i + 1])) else None
    }

    /**
     * `put(i, val)`: stores the real part at 2i and the imaginary part at
     * 2i+1.  Outside [0, length) both writes fall outside the typed array and
     * are ignored.
     */
    method Put(i: int, val: Complex)
      requires Valid()
      modifies data
      ensures Valid()
      ensures Elements() == if 0 <= i < Length() then old(Elements())[i := val] else old(Elements())
      ensures 0 <= i < Length() ==> At(i) == Some(val)
    {
      if 0 <= i < Length() {
        data[2 * i] := val.re;
        data[2 * i + 1] := val.im;
        CellsOfUpdate(old(data[..]), i, val);
      }
    }
  }

  /* ---------------- reverseBitSort2 with a halving d ---------------- */

  /**
   * The inner while loop of this copy of reverseBitSort2 from the state
   * (u, d, rev): `rev += d*((i&u)/u); u *= 2; d /= 2` while u < n, with d
   * and rev plain numbers.  The increment `d*((i&u)/u)` is d when bit u of i
   * is set and 0 otherwise (`HalvingIncrement`).
   */
  function RevFromHalving(i: nat, n: nat, u: nat, d: real, rev: real): real
    requires u >= 1
    decreases n - u
  {
    if u < n then RevFromHalving(i, n, 2 * u, d / 2.0, rev + (if (i / u) % 2 == 1 then d else 0.0))
    else rev
  }

  lemma DivSelf(r: real)
    requires r != 0.0
    ensures r / r == 1.0
  {
  }

  /** `d*((i&u)/u)` for a one-bit mask u: d when the bit is set in i, 0 otherwise. */
  lemma HalvingIncrement(i: nat, u: nat, d: real)
    requires u >= 1
    ensures d * ((AndPow2(i, u) as real) / (u as real)) == if (i / u) % 2 == 1 then d else 0.0
  {
    if (i / u) % 2 == 1 {
      DivSelf(u as real);
    }
  }

  /** The value of d when u = 2^t: 2^(L-1-t), and 1/2 once u has reached n = 2^L. */
  function HalvingDAt(L: nat, t: nat): real
  {
    if t < L then Pow2(L - 1 - t) as real else 0.5
  }

  /** From one turn to the next, d halves. */
  lemma HalvingDAtHalves(L: nat, t: nat)
    requires t < L
    ensures HalvingDAt(L, t) / 2.0 == HalvingDAt(L, t + 1)
  {
    if t + 1 < L {
      var q := Pow2(L - 1 - (t + 1));
      assert Pow2(L - 1 - t) == 2 * q;
      assert HalvingDAt(L, t) == 2.0 * (q as real);
    }
  }

  lemma {:induction false} RevFromHalvingIsValueBE(i: nat, L: nat, t: nat, acc: real)
    requires t <= L
    ensures RevFromHalving(i, Pow2(L), Pow2(t), HalvingDAt(L, t), acc) == acc + ValueBE(Bits(i, L)[t..]) as real
    decreases L - t
  {
    var b := Bits(i, L);
    if t < L {
      Pow2Mono(t, L);
      HalvingDAtHalves(L, t);
      BitsAt(i, L, t);
      var top := if b[t] then Pow2(L - 1 - t) else 0;
      RevFromHalvingIsValueBE(i, L, t + 1, acc + top as real);
      assert b[t..][1..] == b[t + 1..];
      assert ValueBE(b[t..]) == top + ValueBE(b[t + 1..]);
    } else {
      assert b[t..] == [];
    }
  }

  /**
   * For a power-of-two n the halving loop computes the same rev as the
   * shifting loop of the 2D sketch: i with its log2(n) low bits reversed.
   */
  lemma HalvingAgreesWithShifting(i: nat, n: nat)
    requires IsPowerOfTwo(n)
    ensures RevFromHalving(i, n, 1, n as real / 2.0, 0.0) == BitReverseIndex(i, n) as real
  {
    var L := Log2(n);
    if L > 0 {
      assert Pow2(L) == 2 * Pow2(L - 1);
    }
    assert n as real / 2.0 == HalvingDAt(L, 0);
    RevFromHalvingIsValueBE(i, L, 0, 0.0);
    assert Bits(i, L)[0..] == Bits(i, L);
    RevFromIsValueBE(i, L, 0, 0);
    assert n / 2 == DAt(L, 0);
  }

  /** The while loop of reverseBitSort2 that computes rev for index i, with d = n/2, n/4, ... */
  method ReversedIndexHalving(i: nat, n: nat) returns (rev: real)
    ensures rev == RevFromHalving(i, n, 1, n as real / 2.0, 0.0)
  {
    var u: nat, d: real := 1, n as real / 2.0;
    rev := 0.0;
    ghost var target := RevFromHalving(i, n, 1, n as real / 2.0, 0.0);
    while u < n
      invariant u >= 1
      invariant RevFromHalving(i, n, u, d, rev) == target
      decreases n - u
    {
      HalvingIncrement(i, u, d);
      rev := rev + d * ((AndPow2(i, u) as real) / (u as real));
      u := u * 2;
      d := d / 2.0;
    }
  }

  /**
   * `reverseBitSort2(arr)`: exchanges entries i and rev whenever rev <= i.
   * For a power-of-two length this moves every entry to its bit-reversed
   * index, exactly as the 2D sketch's copy does.
   */
  method ReverseBitSort2(arr: ComplexArray)
    requires arr.Valid() && IsPowerOfTwo(arr.Length())
    modifies arr.data
    ensures arr.Elements() == BitReversed(old(arr.Elements()))
  {
    var n := arr.Length();
    ghost var s0 := arr.Elements();
    for i := 0 to n
      invariant arr.Valid()
      invariant arr.Elements() == SwapPass(s0, i)
    {
      SwapTurn(arr, i);
    }
    SwapPassIsBitReversal(s0);
  }

  /** One turn of the outer loop of reverseBitSort2: compute rev and, when rev <= i, exchange entries i and rev. */
  method SwapTurn(arr: ComplexArray, i: nat)
    requires arr.Valid() && IsPowerOfTwo(arr.Length()) && i < arr.Length()
    modifies arr.data
    ensures arr.Valid()
    ensures arr.Elements() == SwapStep(old(arr.Elements()), i)
  {
    var n := arr.Length();
    var rev := ReversedIndexHalving(i, n);
    HalvingAgreesWithShifting(i, n);
    BitReverseIndexIsMirror(i, n);
    if rev <= i as real {
      // rev holds a whole number; the typed array is indexed by its value
      var k := rev.Floor;
      var atI, atK := ReadPair(arr, i, k);
      PutPair(arr, i, atK, k, atI);
    }
  }

  /** The two reads of one exchange or butterfly. */
  method ReadPair(arr: ComplexArray, k1: int, k2: int) returns (v1: Complex, v2: Complex)
    requires arr.Valid() && 0 <= k1 < arr.Length() && 0 <= k2 < arr.Length()
    ensures v1 == arr.Elements()[k1] && v2 == arr.Elements()[k2]
  {
    v1 := arr.At(k1).value;
    v2 := arr.At(k2).value;
  }

  /** The two writes of one exchange or butterfly. */
  method PutPair(arr: ComplexArray, k1: int, v1: Complex, k2: int, v2: Complex)
    requires arr.Valid() && 0 <= k1 < arr.Length() && 0 <= k2 < arr.Length()
    modifies arr.data
    ensures arr.Valid()
    ensures arr.Elements() == old(arr.Elements())[k1 := v1][k2 := v2]
  {
    arr.Put(k1, v1);
    arr.Put(k2, v2);
  }

  /* ---------------- radix2InPlaceFFT ---------------- */

  /**
   * `radix2InPlaceFFT(arr, isInverse)`: the bit-reversal sort, then the
   * butterfly passes for blockSize = 2, 4, ..., n.  The array ends as the
   * transform `Radix2` of what it held, as in the 2D sketch.
   */
  method Radix2InPlaceFFT(m: MathLib, arr: ComplexArray, isInverse: bool)
    requires arr.Valid() && IsPowerOfTwo(arr.Length())
    modifies arr.data
    ensures arr.Elements() == Radix2(m, isInverse, old(arr.Elements()))
  {
    ReverseBitSort2(arr);
    ButterflyPasses(m, arr, isInverse);
  }

  /** The outer loop of radix2InPlaceFFT: blockSize = 2, 4, ..., n. */
  method ButterflyPasses(m: MathLib, arr: ComplexArray, isInverse: bool)
    requires arr.Valid() && IsPowerOfTwo(arr.Length())
    modifies arr.data
    ensures arr.Elements() == Stages(m, isInverse, old(arr.Elements()), 2)
  {
    var n := arr.Length();
    var blockSize: int := 2;
    while blockSize <= n
      invariant IsPowerOfTwo(blockSize) && 2 <= blockSize
      invariant Stages(m, isInverse, arr.Elements(), blockSize) == Stages(m, isInverse, old(arr.Elements()), 2)
      decreases n - blockSize
    {
      ghost var before := arr.Elements();
      ButterflyPass(m, arr, isInverse, blockSize);
      StagesStep(m, isInverse, before, arr.Elements(), blockSize);
      blockSize := blockSize * 2;
    }
  }

  /** The two inner loops of radix2InPlaceFFT for one block size: the pass `Stage`. */
  method ButterflyPass(m: MathLib, arr: ComplexArray, isInverse: bool, blockSize: nat)
    requires arr.Valid() && IsPowerOfTwo(arr.Length())
    requires IsPowerOfTwo(blockSize) && 2 <= blockSize <= arr.Length()
    modifies arr.data
    ensures arr.Valid()
    ensures arr.Elements() == Stage(m, isInverse, old(arr.Elements()), blockSize)
  {
    var n := arr.Length();
    ghost var s0 := arr.Elements();
    ghost var pass := Stage(m, isInverse, s0, blockSize);
    SplicedEnds(pass, s0);
    var j := 0;
    while j < n
      invariant arr.Valid() && 0 <= j <= n && j % blockSize == 0
      invariant arr.Elements() == Spliced(pass, s0, j)
      decreases n - j
    {
      BlockButterflies(m, isInverse, s0, blockSize, j);
      ButterflyBlock(m, arr, isInverse, blockSize, j, s0, pass);
      DivModUnique(j + blockSize, blockSize, j / blockSize + 1, 0);
      j := j + blockSize;
    }
  }

  /** The innermost loop of radix2InPlaceFFT: the butterflies of the block that starts at j. */
  method ButterflyBlock(m: MathLib, arr: ComplexArray, isInverse: bool, blockSize: nat, j: nat,
                        ghost s0: seq<Complex>, ghost pass: seq<Complex>)
    requires arr.Valid() && |s0| == arr.Length() && |pass| == arr.Length()
    requires 2 <= blockSize && blockSize % 2 == 0 && j + blockSize <= arr.Length()
    requires forall i :: 0 <= i < blockSize / 2 ==> ButterflyOf(m, isInverse, blockSize, j, s0, pass, i)
    requires arr.Elements() == Spliced(pass, s0, j)
    modifies arr.data
    ensures arr.Valid()
    ensures arr.Elements() == Spliced(pass, s0, j + blockSize)
  {
    var h := blockSize / 2;
    PartlyDoneEnds(pass, s0, j, h);
    for i := 0 to h
      invariant arr.Valid()
      invariant arr.Elements() == PartlyDone(pass, s0, j, h, i)
    {
      ButterflyAt(m, arr, isInverse, blockSize, j, i, s0, pass);
    }
  }

  /** One turn of the innermost loop: the butterfly at j+i and j+i+blockSize/2. */
  method ButterflyAt(m: MathLib, arr: ComplexArray, isInverse: bool, blockSize: nat, j: nat, i: nat,
                     ghost s0: seq<Complex>, ghost pass: seq<Complex>)
    requires arr.Valid() && |s0| == arr.Length() && |pass| == arr.Length()
    requires 2 <= blockSize && blockSize % 2 == 0 && j + blockSize <= arr.Length() && i < blockSize / 2
    requires ButterflyOf(m, isInverse, blockSize, j, s0, pass, i)
    requires arr.Elements() == PartlyDone(pass, s0, j, blockSize / 2, i)
    modifies arr.data
    ensures arr.Valid()
    ensures arr.Elements() == PartlyDone(pass, s0, j, blockSize / 2, i + 1)
  {
    var n := arr.Length();
    var h := blockSize / 2;
    var even, odd := ReadPair(arr, j + i, j + i + h);
    ButterflyValues(m, isInverse, blockSize, j, s0, pass, i, even, odd);
    PutPair(arr, j + i, Top(m, isInverse, n, blockSize, i, even, odd), j + h + i, Bottom(m, isInverse, n, blockSize, i, even, odd));
    PartlyDoneStep(pass, s0, j, h, i);
  }

  /* ---------------- the grids X and P ---------------- */

  /** `X`: a `Float64Array` of n positions with x[i] = i. */
  method PositionGrid(n: nat) returns (x: array<real>)
    ensures fresh(x) && x.Length == n
    ensures forall i :: 0 <= i < n ==> x[i] == i as real
  {
    x := new real[n](_ => 0.0);
    for i := 0 to n
      invariant forall k :: 0 <= k < i ==> x[k] == k as real
    {
      x[i] := i as real;
    }
  }

  /** The signed frequency index of P: i below n/2, i - n from n/2 on. */
  function ShiftedIndex(i: int, n: int): int
  {
    if (i as real) < (n as real) / 2.0 then i else -n + i
  }

  /**
   * The shifted index of every i in [0, n) lies in [-n/2, n/2) and is
   * congruent to i modulo n: it is the alias of frequency i nearest zero.
   */
  lemma ShiftedIndexRange(i: int, n: int)
    requires 0 <= i < n
    ensures -(n as real) / 2.0 <= ShiftedIndex(i, n) as real < (n as real) / 2.0
    ensures ShiftedIndex(i, n) % n == i
  {
    if (i as real) >= (n as real) / 2.0 {
      DivModUnique(-n + i, n, -1, i);
    } else {
      DivModUnique(i, n, 0, i);
    }
  }

  /** No two indices of [0, n) get the same shifted index. */
  lemma ShiftedIndexInjective(i: int, k: int, n: int)
    requires 0 <= i < n && 0 <= k < n && ShiftedIndex(i, n) == ShiftedIndex(k, n)
    ensures i == k
  {
    ShiftedIndexRange(i, n);
    ShiftedIndexRange(k, n);
  }

  /**
   * Entry i of P: 2*PI*((i < n/2) ? i : -n + i)/n.  Every momentum of the grid
   * lies in [-PI, PI): the shift picks the alias of frequency i nearest zero.
   */
  function Momentum(m: MathLib, i: int, n: int): (r: real)
    requires n > 0
    ensures 0 <= i < n && m.pi > 0.0 ==> -m.pi <= r < m.pi
  {
    MomentumInRange(m.pi, i, n);
    2.0 * m.pi * (ShiftedIndex(i, n) as real) / (n as real)
  }

  lemma MomentumInRange(pi: real, i: int, n: int)
    requires n > 0
    ensures 0 <= i < n && pi > 0.0 ==> -pi <= 2.0 * pi * (ShiftedIndex(i, n) as real) / (n as real) < pi
  {
    if 0 <= i < n && pi > 0.0 {
      var k := ShiftedIndex(i, n) as real;
      ShiftedIndexRange(i, n);
      assert -(n as real) / 2.0 <= k < (n as real) / 2.0;
      HalfRangeScaled(pi, k, n as real);
      assert -pi <= 2.0 * pi * k / (n as real) < pi;
    }
  }

  /** A value in [-n/2, n/2), scaled by 2*PI/n, lies in [-PI, PI). */
  lemma HalfRangeScaled(pi: real, s: real, n: real)
    requires n > 0.0 && pi > 0.0 && -n / 2.0 <= s < n / 2.0
    ensures -pi <= 2.0 * pi * s / n < pi
  {
    var q := s / n;
    assert s == q * n;
    assert -0.5 <= q < 0.5;
    assert 2.0 * pi * s / n == 2.0 * pi * q;
  }

  /** `P`: a `Float64Array` of n momenta, entry i being the momentum of the shifted index of i. */
  method MomentumGrid(m: MathLib, n: nat) returns (p: array<real>)
    ensures fresh(p) && p.Length == n
    ensures forall i :: 0 <= i < n ==> p[i] == Momentum(m, i, n)
  {
    p := new real[n](_ => 0.0);
    for i := 0 to n
      invariant forall k :: 0 <= k < i ==> p[k] == Momentum(m, k, n)
    {
      p[i] := Momentum(m, i, n);
    }
  }
}
