/**
 * The index arithmetic of `reverseBitSort2`, the first half of the radix-2
 * FFT in both split-step sketches: the `rev` its inner while loop computes
 * for an index i, and the swap pass over the array.
 *
 * For a length n = 2^L, `rev` is i with its L low bits read in the opposite
 * order; the swap pass then moves every element to its bit-reversed place,
 * which is a permutation that undoes itself.
 */
module BitReversal {
  import opened Indexing

  function Pow2(k: nat): (r: nat)
    ensures r >= 1
  {
    if k == 0 then 1 else 2 * Pow2(k - 1)
  }

  /** n is one of 1, 2, 4, 8, ... */
  predicate IsPowerOfTwo(n: int)
  {
    n == 1 || (n >= 2 && n % 2 == 0 && IsPowerOfTwo(n / 2))
  }

  function Log2(n: int): (k: nat)
    requires IsPowerOfTwo(n)
    ensures Pow2(k) == n
  {
    if n == 1 then 0 else 1 + Log2(n / 2)
  }

  lemma {:induction false} Pow2IsPowerOfTwo(k: nat)
    ensures IsPowerOfTwo(Pow2(k))
  {
    if k > 0 {
      Pow2IsPowerOfTwo(k - 1);
      assert Pow2(k) / 2 == Pow2(k - 1);
    }
  }

  lemma {:induction false} Pow2Mono(a: nat, b: nat)
    requires a <= b
    ensures Pow2(a) <= Pow2(b)
    ensures a < b ==> 2 * Pow2(a) <= Pow2(b)
  {
    if a < b {
      Pow2Mono(a, b - 1);
    }
  }

  /** 2^(a+b) = 2^a * 2^b */
  lemma {:induction false} Pow2Add(a: nat, b: nat)
    ensures Pow2(a + b) == Pow2(a) * Pow2(b)
  {
    if b > 0 {
      Pow2Add(a, b - 1);
      assert Pow2(a + b) == 2 * Pow2(a + b - 1);
    }
  }

  /**
   * `i & u` for a one-bit mask u = 2^t and a non-negative 32-bit i: u when
   * bit t of i is set, 0 otherwise.
   */
  function AndPow2(i: nat, u: nat): nat
    requires u >= 1
  {
    if (i / u) % 2 == 1 then u else 0
  }

  /**
   * The inner while loop of reverseBitSort2 from the state (u, d, rev):
   * `rev += d*((i&u)/u); u <<= 1; d >>= 1` while u < n.
   */
  function RevFrom(i: nat, n: nat, u: nat, d: nat, rev: nat): nat
    requires u >= 1
    decreases n - u
  {
    if u < n then RevFrom(i, n, 2 * u, d / 2, rev + d * (AndPow2(i, u) / u)) else rev
  }

  /** `(i&u)/u` is 1 when bit u of i is set and 0 otherwise. */
  lemma AndPow2Bit(i: nat, u: nat)
    requires u >= 1
    ensures AndPow2(i, u) / u == if (i / u) % 2 == 1 then 1 else 0
  {
  }

  /** One turn of the loop. */
  lemma RevFromStep(i: nat, n: nat, u: nat, d: nat, rev: nat)
    requires 1 <= u < n
    ensures RevFrom(i, n, u, d, rev) == RevFrom(i, n, 2 * u, d / 2, rev + d * (AndPow2(i, u) / u))
  {
  }

  /** The `rev` reverseBitSort2 computes for index i: the loop from u = 1, d = n >> 1, rev = 0. */
  function BitReverseIndex(i: nat, n: nat): nat
  {
    RevFrom(i, n, 1, n / 2, 0)
  }

  /* ---------------- bit strings ---------------- */

  /** The L low bits of i, least significant first. */
  function Bits(i: nat, L: nat): (b: seq<bool>)
    ensures |b| == L
  {
    if L == 0 then [] else [i % 2 == 1] + Bits(i / 2, L - 1)
  }

  /** The number a bit string denotes, least significant bit first. */
  function Value(b: seq<bool>): nat
  {
    if b == [] then 0 else (if b[0] then 1 else 0) + 2 * Value(b[1..])
  }

  /** The number a bit string denotes when read most significant bit first. */
  function ValueBE(b: seq<bool>): nat
  {
    if b == [] then 0 else (if b[0] then Pow2(|b| - 1) else 0) + ValueBE(b[1..])
  }

  /** The bit string backwards. */
  function Mirror(b: seq<bool>): (r: seq<bool>)
    ensures |r| == |b|
  {
    seq(|b|, k requires 0 <= k < |b| => b[|b| - 1 - k])
  }

  lemma {:induction false} ValueBound(b: seq<bool>)
    ensures Value(b) < Pow2(|b|)
  {
    if b != [] {
      ValueBound(b[1..]);
    }
  }

  /** Bits gives back the number it was taken from. */
  lemma {:induction false} ValueOfBits(i: nat, L: nat)
    requires i < Pow2(L)
    ensures Value(Bits(i, L)) == i
  {
    if L > 0 {
      ValueOfBits(i / 2, L - 1);
      assert Bits(i, L)[1..] == Bits(i / 2, L - 1);
    }
  }

  /** Value gives back the bit string it read. */
  lemma {:induction false} BitsOfValue(b: seq<bool>)
    ensures Bits(Value(b), |b|) == b
  {
    if b != [] {
      BitsOfValue(b[1..]);
      assert Value(b) / 2 == Value(b[1..]);
      assert b == [b[0]] + b[1..];
    }
  }

  lemma {:induction false} ValueSnoc(b: seq<bool>, x: bool)
    ensures Value(b + [x]) == Value(b) + (if x then Pow2(|b|) else 0)
  {
    if b != [] {
      ValueSnoc(b[1..], x);
      assert (b + [x])[1..] == b[1..] + [x];
    }
  }

  /** Reading most significant bit first is reading the mirrored string least significant bit first. */
  lemma {:induction false} ValueBEIsMirrored(b: seq<bool>)
    ensures ValueBE(b) == Value(Mirror(b))
  {
    if b != [] {
      ValueBEIsMirrored(b[1..]);
      assert Mirror(b) == Mirror(b[1..]) + [b[0]];
      ValueSnoc(Mirror(b[1..]), b[0]);
    }
  }

  lemma MirrorMirror(b: seq<bool>)
    ensures Mirror(Mirror(b)) == b
  {
  }

  /** (i / 2) / p == i / (2p) */
  lemma DivHalf(i: nat, p: nat)
    requires p >= 1
    ensures (i / 2) / p == i / (2 * p)
  {
    var q, r1, r0 := (i / 2) / p, (i / 2) % p, i % 2;
    assert i == 2 * (q * p + r1) + r0;
    assert 2 * (q * p) == q * (2 * p);
    DivModUnique(i, 2 * p, q, 2 * r1 + r0);
  }

  /** Bit t of the string is bit t of the number. */
  lemma {:induction false} BitsAt(i: nat, L: nat, t: nat)
    requires t < L
    ensures Bits(i, L)[t] == ((i / Pow2(t)) % 2 == 1)
  {
    if t > 0 {
      BitsAt(i / 2, L - 1, t - 1);
      DivHalf(i, Pow2(t - 1));
    }
  }

  /* ---------------- the loop computes the reversed bits ---------------- */

  /** The value of d in the loop of reverseBitSort2 when u = 2^t. */
  function DAt(L: nat, t: nat): nat
  {
    if t < L then Pow2(L - 1 - t) else 0
  }

  lemma {:induction false} RevFromIsValueBE(i: nat, L: nat, t: nat, acc: nat)
    requires t <= L
    ensures RevFrom(i, Pow2(L), Pow2(t), DAt(L, t), acc) == acc + ValueBE(Bits(i, L)[t..])
    decreases L - t
  {
    if t < L {
      var w := if Bits(i, L)[t] then Pow2(L - 1 - t) else 0;
      RevFromBitStep(i, L, t, acc);
      RevFromIsValueBE(i, L, t + 1, acc + w);
      ValueBEStep(Bits(i, L), t);
    }
  }

  /** One turn of the loop at bit t: the weight of bit t is added when it is set, the unit doubles and the weight halves. */
  lemma RevFromBitStep(i: nat, L: nat, t: nat, acc: nat)
    requires t < L
    ensures RevFrom(i, Pow2(L), Pow2(t), DAt(L, t), acc)
         == RevFrom(i, Pow2(L), Pow2(t + 1), DAt(L, t + 1), acc + if Bits(i, L)[t] then Pow2(L - 1 - t) else 0)
  {
    Pow2Mono(t, L);
    assert DAt(L, t) / 2 == DAt(L, t + 1);
    RevFromStep(i, Pow2(L), Pow2(t), DAt(L, t), acc);
    BitTerm(i, L, t);
  }

  /** The amount one turn adds is the weight of bit t when that bit is set. */
  lemma BitTerm(i: nat, L: nat, t: nat)
    requires t < L
    ensures DAt(L, t) * (AndPow2(i, Pow2(t)) / Pow2(t)) == if Bits(i, L)[t] then Pow2(L - 1 - t) else 0
  {
    BitsAt(i, L, t);
    AndPow2Bit(i, Pow2(t));
  }

  /** The big-endian value of a suffix is its first bit's weight plus the value of the rest. */
  lemma ValueBEStep(b: seq<bool>, t: nat)
    requires t < |b|
    ensures ValueBE(b[t..]) == (if b[t] then Pow2(|b| - 1 - t) else 0) + ValueBE(b[t + 1..])
  {
    assert b[t..][1..] == b[t + 1..];
  }

  /**
   * For n = 2^L the loop of reverseBitSort2 computes i with its L low bits in
   * the opposite order, which lies in [0, n).
   */
  lemma BitReverseIndexIsMirror(i: nat, n: nat)
    requires IsPowerOfTwo(n)
    ensures BitReverseIndex(i, n) == Value(Mirror(Bits(i, Log2(n))))
    ensures BitReverseIndex(i, n) < n
  {
    var L := Log2(n);
    assert n / 2 == DAt(L, 0);
    RevFromIsValueBE(i, L, 0, 0);
    assert Bits(i, L)[0..] == Bits(i, L);
    ValueBEIsMirrored(Bits(i, L));
    ValueBound(Mirror(Bits(i, L)));
  }

  /** Reversing the bits twice gives back the index. */
  lemma BitReverseInvolution(i: nat, n: nat)
    requires IsPowerOfTwo(n) && i < n
    ensures BitReverseIndex(BitReverseIndex(i, n), n) == i
  {
    var L := Log2(n);
    var b := Bits(i, L);
    BitReverseIndexIsMirror(i, n);
    var r := BitReverseIndex(i, n);
    BitsOfValue(Mirror(b));
    BitReverseIndexIsMirror(r, n);
    MirrorMirror(b);
    ValueOfBits(i, L);
  }

  /* ---------------- the swap pass ---------------- */

  /** One turn of the outer loop: `if (rev <= i)` put `at(rev)` at i and the old `at(i)` at rev. */
  function SwapStep<T>(s: seq<T>, i: nat): (r: seq<T>)
    requires i < |s| && IsPowerOfTwo(|s|)
    ensures |r| == |s|
  {
    var rev := BitReverseIndex(i, |s|);
    BitReverseIndexIsMirror(i, |s|);
    if rev <= i then s[i := s[rev]][rev := s[i]] else s
  }

  /** The array after the outer loop has run for i = 0 .. k-1. */
  function SwapPass<T>(s: seq<T>, k: nat): (r: seq<T>)
    requires k <= |s| && IsPowerOfTwo(|s|)
    ensures |r| == |s|
  {
    if k == 0 then s else SwapStep(SwapPass(s, k - 1), k - 1)
  }

  /** The bit-reversal permutation: element i is the element at the reversed index. */
  function BitReversed<T>(s: seq<T>): (r: seq<T>)
    requires IsPowerOfTwo(|s|)
    ensures |r| == |s|
  {
    seq(|s|, i requires 0 <= i < |s| => BitReverseIndexIsMirror(i, |s|); s[BitReverseIndex(i, |s|)])
  }

  /**
   * After the turns 0 .. k-1, exactly the pairs {x, rev(x)} with both members
   * below k have been exchanged; every other element is where it was.
   */
  lemma SwapStepAt<T>(t: seq<T>, i: nat, x: nat)
    requires i < |t| && IsPowerOfTwo(|t|) && x < |t|
    ensures BitReverseIndex(i, |t|) < |t|
    ensures SwapStep(t, i)[x] ==
      var rev := BitReverseIndex(i, |t|);
      if rev <= i && x == rev then t[i]
      else if rev <= i && x == i then t[rev]
      else t[x]
  {
    BitReverseIndexIsMirror(i, |t|);
  }

  lemma {:induction false} SwapPassAt<T>(s: seq<T>, k: nat, x: nat)
    requires k <= |s| && IsPowerOfTwo(|s|) && x < |s|
    ensures BitReverseIndex(x, |s|) < |s|
    ensures SwapPass(s, k)[x] ==
      if x < k && BitReverseIndex(x, |s|) < k then s[BitReverseIndex(x, |s|)] else s[x]
  {
    var n := |s|;
    BitReverseIndexIsMirror(x, n);
    if k > 0 {
      var i := k - 1;
      var prev := SwapPass(s, i);
      assert SwapPass(s, k) == SwapStep(prev, i);
      var rev := BitReverseIndex(i, n);
      BitReverseIndexIsMirror(i, n);
      BitReverseInvolution(i, n);
      SwapStepAt(prev, i, x);
      SwapPassAt(s, i, x);
      if rev > i {
        // this turn leaves the array alone; x = i waits for the turn at rev
        if BitReverseIndex(x, n) == i {
          BitReverseInvolution(x, n);
        }
      } else if x == rev {
        SwapPassAt(s, i, i);
      } else if x == i {
        SwapPassAt(s, i, rev);
      } else if BitReverseIndex(x, n) == i {
        BitReverseInvolution(x, n);
      }
    }
  }

  /** The whole pass of reverseBitSort2 puts each element at its bit-reversed index. */
  lemma SwapPassIsBitReversal<T>(s: seq<T>)
    requires IsPowerOfTwo(|s|)
    ensures SwapPass(s, |s|) == BitReversed(s)
  {
    forall x | 0 <= x < |s|
      ensures SwapPass(s, |s|)[x] == BitReversed(s)[x]
    {
      SwapPassAt(s, |s|, x);
    }
  }

  lemma SwapKeepsElements<T>(s: seq<T>, i: nat, j: nat)
    requires i < |s| && j < |s|
    ensures multiset(s[i := s[j]][j := s[i]]) == multiset(s)
  {
    if i != j {
      var t := s[i := s[j]];
      assert multiset(t) == multiset(s) - multiset{s[i]} + multiset{s[j]};
      assert t[j] == s[j];
    }
  }

  /** Every turn of the loop exchanges two elements, so the pass keeps the multiset of elements. */
  lemma {:induction false} SwapPassKeepsElements<T>(s: seq<T>, k: nat)
    requires k <= |s| && IsPowerOfTwo(|s|)
    ensures multiset(SwapPass(s, k)) == multiset(s)
  {
    if k > 0 {
      SwapPassKeepsElements(s, k - 1);
      SwapStepKeepsElements(SwapPass(s, k - 1), k - 1);
    }
  }

  /** One turn of the loop exchanges two elements or none. */
  lemma SwapStepKeepsElements<T>(s: seq<T>, i: nat)
    requires i < |s| && IsPowerOfTwo(|s|)
    ensures multiset(SwapStep(s, i)) == multiset(s)
  {
    var rev := BitReverseIndex(i, |s|);
    BitReverseIndexIsMirror(i, |s|);
    if rev <= i {
      SwapKeepsElements(s, i, rev);
    }
  }

  /** The bit-reversal permutation is a permutation. */
  lemma BitReversedKeepsElements<T>(s: seq<T>)
    requires IsPowerOfTwo(|s|)
    ensures multiset(BitReversed(s)) == multiset(s)
  {
    SwapPassIsBitReversal(s);
    SwapPassKeepsElements(s, |s|);
  }

  /** Applying reverseBitSort2 twice gives back the array. */
  lemma BitReversedTwice<T>(s: seq<T>)
    requires IsPowerOfTwo(|s|)
    ensures BitReversed(BitReversed(s)) == s
  {
    forall x | 0 <= x < |s|
      ensures BitReversed(BitReversed(s))[x] == s[x]
    {
      BitReverseIndexIsMirror(x, |s|);
      BitReverseInvolution(x, |s|);
    }
  }
}
