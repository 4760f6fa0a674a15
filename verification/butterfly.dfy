/**
 * What one pass of the Cooley-Tukey butterfly loop of `radix2InPlaceFFT`
 * does to the whole array, and the transform as a whole: the bit-reversal
 * permutation followed by one pass per block size 2, 4, ..., n.
 *
 * The twiddle factor and the final 1/n scaling are computed with the host's
 * exp, cos, sin and pi, which are uninterpreted (`MathLib`).
 */
module Butterfly {
  import opened Numeric
  import opened Indexing
  import opened BitReversal

  /** `exp` of the complex-number helpers: e^re (cos im + i sin im). */
  function CExp(m: MathLib, z: Complex): Complex
  {
    Complex(m.exp(z.re) * m.cos(z.im), m.exp(z.re) * m.sin(z.im))
  }

  /** e = exp(imag(sgn*2*PI*i/blockSize)), with sgn = 1 for the inverse transform and -1 otherwise. */
  function Twiddle(m: MathLib, isInverse: bool, i: nat, blockSize: nat): Complex
    requires blockSize > 0
  {
    var sgn := if isInverse then 1.0 else -1.0;
    CExp(m, ImagC(sgn * 2.0 * m.pi * (i as real) / (blockSize as real)))
  }

  /** s = real(1/n) in the last pass of the inverse transform, real(1) otherwise. */
  function Scale(isInverse: bool, blockSize: nat, n: nat): Complex
    requires n > 0
  {
    RealC(if isInverse && blockSize == n then 1.0 / (n as real) else 1.0)
  }

  /** The value written at j+i: s*(even + odd*e). */
  function Top(m: MathLib, isInverse: bool, n: nat, blockSize: nat, i: nat, even: Complex, odd: Complex): Complex
    requires n > 0 && blockSize > 0
  {
    ComplexMul(Scale(isInverse, blockSize, n), ComplexAdd(even, ComplexMul(odd, Twiddle(m, isInverse, i, blockSize))))
  }

  /** The value written at j+i+blockSize/2: s*(even - odd*e). */
  function Bottom(m: MathLib, isInverse: bool, n: nat, blockSize: nat, i: nat, even: Complex, odd: Complex): Complex
    requires n > 0 && blockSize > 0
  {
    ComplexMul(Scale(isInverse, blockSize, n), ComplexSub(even, ComplexMul(odd, Twiddle(m, isInverse, i, blockSize))))
  }

  lemma Pow2Divides(a: nat, c: nat)
    requires a <= c
    ensures Pow2(c) % Pow2(a) == 0
  {
    Pow2Add(a, c - a);
    assert a + (c - a) == c;
    MultipleMod(Pow2(a), Pow2(c - a));
  }

  lemma MultipleMod(x: int, y: int)
    requires x > 0
    ensures (x * y) % x == 0
  {
    DivModUnique(x * y, x, y, 0);
  }

  /** A power of two divides every power of two at least as large. */
  lemma BlocksDivide(b: int, n: int)
    requires IsPowerOfTwo(b) && IsPowerOfTwo(n) && b <= n
    ensures n % b == 0
  {
    var lb, ln := Log2(b), Log2(n);
    if ln < lb {
      Pow2Mono(ln, lb);
    }
    Pow2Divides(lb, ln);
  }

  /** The multiple of b at or below k: the start of k's block. */
  lemma BlockStart(k: int, b: int)
    requires 0 < b && 0 <= k
    ensures 0 <= k - k % b <= k && (k - k % b) % b == 0 && k - k % b == (k / b) * b
  {
    var q, r := k / b, k % b;
    assert k == q * b + r;
    MulLe(0, q, b);
    DivModUnique(k - r, b, q, 0);
  }

  /** The block of a multiple of b that divides n ends inside [0, n]. */
  lemma BlockEnd(j: int, b: int, n: int)
    requires 0 < b && n % b == 0 && 0 <= j < n && j % b == 0
    ensures j + b <= n
  {
    var c, d := j / b, n / b;
    assert j == c * b && n == d * b;
    if d <= c {
      MulLe(d, c, b);
    }
    MulLe(c + 1, d, b);
  }

  /**
   * Every index a butterfly writes lies in [0, n): for n and blockSize powers
   * of two, j a multiple of blockSize below n and i < blockSize/2, both j+i
   * and j+i+blockSize/2 are array indices.
   */
  lemma ButterflyIndicesInRange(n: int, b: int, j: int, i: int)
    requires IsPowerOfTwo(n) && IsPowerOfTwo(b) && 2 <= b <= n
    requires 0 <= j < n && j % b == 0 && 0 <= i < b / 2
    ensures 0 <= j + i < j + i + b / 2 < n
    ensures j + b <= n && b / 2 * 2 == b
  {
    BlocksDivide(b, n);
    BlockEnd(j, b, n);
  }

  /** Entry k of the array after the pass with the given block size. */
  function StageEntry(m: MathLib, isInverse: bool, s: seq<Complex>, b: nat, k: int): Complex
    requires IsPowerOfTwo(|s|) && IsPowerOfTwo(b) && 2 <= b <= |s| && 0 <= k < |s|
  {
    var n, h, r := |s|, b / 2, k % b;
    BlocksDivide(b, n);
    BlockStart(k, b);
    BlockEnd(k - r, b, n);
    if r < h then Top(m, isInverse, n, b, r, s[k], s[k + h])
    else Bottom(m, isInverse, n, b, r - h, s[k - h], s[k])
  }

  /** The array after the pass of the butterfly loop with the given block size. */
  function Stage(m: MathLib, isInverse: bool, s: seq<Complex>, b: nat): (r: seq<Complex>)
    requires IsPowerOfTwo(|s|) && IsPowerOfTwo(b) && 2 <= b <= |s|
    ensures |r| == |s|
  {
    seq(|s|, k requires 0 <= k < |s| => StageEntry(m, isInverse, s, b, k))
  }

  /** The passes for block sizes b, 2b, ... up to the length. */
  function Stages(m: MathLib, isInverse: bool, s: seq<Complex>, b: nat): (r: seq<Complex>)
    requires IsPowerOfTwo(|s|) && IsPowerOfTwo(b) && 2 <= b
    ensures |r| == |s|
    decreases |s| - b
  {
    if b <= |s| then Stages(m, isInverse, Stage(m, isInverse, s, b), 2 * b) else s
  }

  /** One turn of the block-size loop: after the pass for b, the passes from 2b on remain. */
  lemma StagesStep(m: MathLib, isInverse: bool, s: seq<Complex>, t: seq<Complex>, b: nat)
    requires IsPowerOfTwo(|s|) && IsPowerOfTwo(b) && 2 <= b <= |s|
    requires t == Stage(m, isInverse, s, b)
    ensures IsPowerOfTwo(|t|) && IsPowerOfTwo(2 * b)
    ensures Stages(m, isInverse, t, 2 * b) == Stages(m, isInverse, s, b)
  {
  }

  /** The transform radix2InPlaceFFT computes: bit-reversal, then the passes for 2, 4, ..., n. */
  function Radix2(m: MathLib, isInverse: bool, s: seq<Complex>): (r: seq<Complex>)
    requires IsPowerOfTwo(|s|)
    ensures |r| == |s|
  {
    Stages(m, isInverse, BitReversed(s), 2)
  }

  /**
   * The pass writes, at j+i and j+i+blockSize/2, the two butterfly values of
   * the pair it reads there: each pair of the pass is read and written by
   * exactly one turn of the loop.
   */
  lemma StageAt(m: MathLib, isInverse: bool, s: seq<Complex>, b: nat, j: int, i: int)
    requires IsPowerOfTwo(|s|) && IsPowerOfTwo(b) && 2 <= b <= |s|
    requires 0 <= j < |s| && j % b == 0 && 0 <= i < b / 2
    ensures 0 <= j + i < j + i + b / 2 < |s|
    ensures Stage(m, isInverse, s, b)[j + i] == Top(m, isInverse, |s|, b, i, s[j + i], s[j + i + b / 2])
    ensures Stage(m, isInverse, s, b)[j + i + b / 2] == Bottom(m, isInverse, |s|, b, i, s[j + i], s[j + i + b / 2])
  {
    ButterflyIndicesInRange(|s|, b, j, i);
    PairResidues(b, j, i);
    StageTopEntry(m, isInverse, s, b, j + i, j + i + b / 2, i);
    StageBottomEntry(m, isInverse, s, b, j + i, j + i + b / 2, i);
  }

  /** The two indices of a butterfly sit at i and i+b/2 within their block. */
  lemma PairResidues(b: int, j: int, i: int)
    requires 2 <= b && b / 2 * 2 == b && 0 <= j && j % b == 0 && 0 <= i < b / 2
    ensures (j + i) % b == i && (j + i + b / 2) % b == i + b / 2
  {
    BlockStart(j, b);
    var q := j / b;
    assert j + i == q * b + i && j + i + b / 2 == q * b + (i + b / 2);
    DivModUnique(j + i, b, q, i);
    DivModUnique(j + i + b / 2, b, q, i + b / 2);
  }

  /** The entry at k0, in the first half of its block at offset i, holds the top value of its pair. */
  lemma StageTopEntry(m: MathLib, isInverse: bool, s: seq<Complex>, b: nat, k0: int, k1: int, i: int)
    requires IsPowerOfTwo(|s|) && IsPowerOfTwo(b) && 2 <= b <= |s|
    requires 0 <= k0 && k1 == k0 + b / 2 && k1 < |s| && k0 % b == i && i < b / 2
    ensures Stage(m, isInverse, s, b)[k0] == Top(m, isInverse, |s|, b, i, s[k0], s[k1])
  {
    assert Stage(m, isInverse, s, b)[k0] == StageEntry(m, isInverse, s, b, k0);
  }

  /** The entry at k1 = k0 + b/2, in the second half of its block, holds the bottom value of its pair. */
  lemma StageBottomEntry(m: MathLib, isInverse: bool, s: seq<Complex>, b: nat, k0: int, k1: int, i: int)
    requires IsPowerOfTwo(|s|) && IsPowerOfTwo(b) && 2 <= b <= |s|
    requires 0 <= k0 && k1 == k0 + b / 2 && k1 < |s| && k1 % b == i + b / 2 && 0 <= i
    ensures Stage(m, isInverse, s, b)[k1] == Bottom(m, isInverse, |s|, b, i, s[k0], s[k1])
  {
    assert Stage(m, isInverse, s, b)[k1] == StageEntry(m, isInverse, s, b, k1);
  }


  /**
   * `pass` holds, at j+i and j+i+blockSize/2, the two butterfly values of the
   * pair `s0` holds there.
   */
  ghost predicate ButterflyOf(m: MathLib, isInverse: bool, blockSize: nat, j: int, s0: seq<Complex>, pass: seq<Complex>, i: int)
  {
    var h := blockSize / 2;
    0 < blockSize && 0 <= j && 0 <= i && j + i + h < |s0| && |s0| == |pass| &&
    pass[j + i] == Top(m, isInverse, |s0|, blockSize, i, s0[j + i], s0[j + i + h]) &&
    pass[j + i + h] == Bottom(m, isInverse, |s0|, blockSize, i, s0[j + i], s0[j + i + h])
  }

  /** The values a butterfly computes from the pair it reads are the ones the pass holds. */
  lemma ButterflyValues(m: MathLib, isInverse: bool, blockSize: nat, j: int, s0: seq<Complex>, pass: seq<Complex>,
                        i: int, even: Complex, odd: Complex)
    requires ButterflyOf(m, isInverse, blockSize, j, s0, pass, i)
    requires even == s0[j + i] && odd == s0[j + i + blockSize / 2]
    ensures Top(m, isInverse, |s0|, blockSize, i, even, odd) == pass[j + i]
    ensures Bottom(m, isInverse, |s0|, blockSize, i, even, odd) == pass[j + i + blockSize / 2]
  {
  }

  /** The pass holds the butterfly values of every pair of the block that starts at j. */
  lemma BlockButterflies(m: MathLib, isInverse: bool, s: seq<Complex>, b: nat, j: int)
    requires IsPowerOfTwo(|s|) && IsPowerOfTwo(b) && 2 <= b <= |s|
    requires 0 <= j < |s| && j % b == 0
    ensures j + b <= |s| && b % 2 == 0
    ensures forall i :: 0 <= i < b / 2 ==> ButterflyOf(m, isInverse, b, j, s, Stage(m, isInverse, s, b), i)
  {
    ButterflyIndicesInRange(|s|, b, j, 0);
    forall i | 0 <= i < b / 2
      ensures ButterflyOf(m, isInverse, b, j, s, Stage(m, isInverse, s, b), i)
    {
      StageAt(m, isInverse, s, b, j, i);
    }
  }

  /** The row after the blocks before j: `pass` below j, `s0` from j on. */
  function Spliced(pass: seq<Complex>, s0: seq<Complex>, j: int): (r: seq<Complex>)
    requires |pass| == |s0|
    ensures |r| == |s0|
  {
    seq(|s0|, k requires 0 <= k < |s0| => if k < j then pass[k] else s0[k])
  }

  /**
   * The row inside the block at j after its first i butterflies: `pass` below
   * j + i and on [j + h, j + h + i), `s0` elsewhere.
   */
  function PartlyDone(pass: seq<Complex>, s0: seq<Complex>, j: int, h: int, i: int): (r: seq<Complex>)
    requires |pass| == |s0|
    ensures |r| == |s0|
  {
    seq(|s0|, k requires 0 <= k < |s0| => if k < j + i || j + h <= k < j + h + i then pass[k] else s0[k])
  }

  lemma SplicedEnds(pass: seq<Complex>, s0: seq<Complex>)
    requires |pass| == |s0|
    ensures Spliced(pass, s0, 0) == s0 && Spliced(pass, s0, |s0|) == pass
  {
  }

  lemma PartlyDoneEnds(pass: seq<Complex>, s0: seq<Complex>, j: int, h: int)
    requires |pass| == |s0| && 0 <= h
    ensures PartlyDone(pass, s0, j, h, 0) == Spliced(pass, s0, j)
    ensures PartlyDone(pass, s0, j, h, h) == Spliced(pass, s0, j + 2 * h)
  {
  }

  /** One butterfly writes the two entries it reads. */
  lemma PartlyDoneStep(pass: seq<Complex>, s0: seq<Complex>, j: int, h: int, i: int)
    requires |pass| == |s0| && 0 <= j && 0 <= i < h && j + h + i < |s0|
    ensures PartlyDone(pass, s0, j, h, i + 1)
      == PartlyDone(pass, s0, j, h, i)[j + i := pass[j + i]][j + h + i := pass[j + h + i]]
  {
  }

  /** A one-point array has no passes: the transform leaves it alone. */
  lemma Radix2OfOne(m: MathLib, isInverse: bool, s: seq<Complex>)
    requires |s| == 1
    ensures Radix2(m, isInverse, s) == s
  {
    BitReverseIndexIsMirror(0, 1);
    assert BitReversed(s)[0] == s[0];
  }
}
