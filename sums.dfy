/**
 * Reference definitions of the sums the SIMD routines compute, and the facts
 * that connect the lane-chunked evaluation order to the plain sequential one.
 *
 * `DotTo(a, b, n)` is the left-to-right sum of `a[k] * b[k]` for `k < n`; a
 * squared norm is the dot product of a vector with itself. The lane view
 * `LaneSums(a, b, n)` holds, in lane `k`, the sum over the indices `j < n`
 * with `j % 4 == k`: exactly what the lane accumulator holds after the chunk
 * loop has consumed `[0, n)` in steps of four.
 */
module Sums {
  import opened Lanes

  /** The sequential dot product of the first `n` elements of `a` and `b`. */
  function DotTo(a: seq<real>, b: seq<real>, n: nat): real
    requires n <= |a| && n <= |b|
  {
    if n == 0 then 0.0 else DotTo(a, b, n - 1) + a[n - 1] * b[n - 1]
  }

  /** The squared Euclidean norm of `v`: never negative. */
  function NormSq(v: seq<real>): (r: real)
    ensures r >= 0.0
  {
    NormSqNonNegative(v, |v|);
    DotTo(v, v, |v|)
  }

  /**
   * The end of the lane-aligned prefix, `len - len % 4`: a multiple of four
   * that leaves between zero and three elements for the scalar remainder.
   */
  function SimdLen(len: nat): (s: nat)
    ensures s % 4 == 0 && s <= len < s + 4
  {
    len - len % 4
  }

  /**
   * A chunk that starts on a lane boundary below the aligned end `s` ends on
   * the next boundary, within `s`.
   */
  lemma ChunkStep(i: nat, s: nat)
    requires i % 4 == 0 && s % 4 == 0 && i < s
    ensures (i + 4) % 4 == 0 && i + 4 <= s
  {
  }

  /** Lane `k` of the accumulator after the chunks of `[0, n)`. */
  function LaneTo(a: seq<real>, b: seq<real>, k: nat, n: nat): real
    requires k < 4 && n % 4 == 0 && n <= |a| && n <= |b|
  {
    if n == 0 then 0.0 else a[n - 4 + k] * b[n - 4 + k] + LaneTo(a, b, k, n - 4)
  }

  /** The whole lane register after the chunks of `[0, n)`. */
  function LaneSums(a: seq<real>, b: seq<real>, n: nat): F32x4
    requires n % 4 == 0 && n <= |a| && n <= |b|
  {
    F32x4(LaneTo(a, b, 0, n), LaneTo(a, b, 1, n), LaneTo(a, b, 2, n), LaneTo(a, b, 3, n))
  }

  /** One more chunk is one lane-wise multiply-add into the accumulator. */
  lemma LaneSumsStep(a: seq<real>, b: seq<real>, n: nat)
    requires n % 4 == 0 && n + 4 <= |a| && n + 4 <= |b|
    ensures LaneSums(a, b, n + 4) == Load(a, n).MulAdd(Load(b, n), LaneSums(a, b, n))
  {
  }

  /**
   * Chunk coverage: the lanes together visit every index of `[0, n)` exactly
   * once, so their horizontal sum is the sequential dot product.
   */
  lemma {:induction false} ChunkCoverage(a: seq<real>, b: seq<real>, n: nat)
    requires n % 4 == 0 && n <= |a| && n <= |b|
    ensures LaneSums(a, b, n).ReduceAdd() == DotTo(a, b, n)
  {
    if n > 0 {
      ChunkCoverage(a, b, n - 4);
      calc {
        DotTo(a, b, n);
        DotTo(a, b, n - 1) + a[n - 1] * b[n - 1];
        DotTo(a, b, n - 2) + a[n - 2] * b[n - 2] + a[n - 1] * b[n - 1];
        DotTo(a, b, n - 3) + a[n - 3] * b[n - 3] + a[n - 2] * b[n - 2] + a[n - 1] * b[n - 1];
        DotTo(a, b, n - 4) + a[n - 4] * b[n - 4] + a[n - 3] * b[n - 3]
          + a[n - 2] * b[n - 2] + a[n - 1] * b[n - 1];
      }
    }
  }

  /** Every lane of a squared-norm accumulator is non-negative. */
  lemma {:induction false} NormLaneNonNegative(v: seq<real>, k: nat, n: nat)
    requires k < 4 && n % 4 == 0 && n <= |v|
    ensures LaneTo(v, v, k, n) >= 0.0
  {
    if n > 0 {
      NormLaneNonNegative(v, k, n - 4);
    }
  }

  /** A sum of squares is non-negative. */
  lemma {:induction false} NormSqNonNegative(v: seq<real>, n: nat)
    requires n <= |v|
    ensures DotTo(v, v, n) >= 0.0
  {
    if n > 0 {
      NormSqNonNegative(v, n - 1);
    }
  }

  /** A vector whose first `n` elements are zero has a zero prefix sum of squares. */
  lemma {:induction false} ZeroPrefixNormSq(v: seq<real>, n: nat)
    requires n <= |v|
    requires forall i :: 0 <= i < n ==> v[i] == 0.0
    ensures DotTo(v, v, n) == 0.0
  {
    if n > 0 {
      ZeroPrefixNormSq(v, n - 1);
    }
  }

  /** The zero vector has squared norm zero. */
  lemma ZeroVectorNormSq(v: seq<real>)
    requires forall i :: 0 <= i < |v| ==> v[i] == 0.0
    ensures NormSq(v) == 0.0
  {
    ZeroPrefixNormSq(v, |v|);
  }

  /** The element-wise negation of `v`. */
  function Neg(v: seq<real>): seq<real>
  {
    seq(|v|, i requires 0 <= i < |v| => -v[i])
  }

  /**
   * Negating one operand negates the dot product, and negating both leaves it
   * unchanged.
   */
  lemma {:induction false} DotNeg(v: seq<real>, n: nat)
    requires n <= |v|
    ensures DotTo(v, Neg(v), n) == -DotTo(v, v, n)
    ensures DotTo(Neg(v), Neg(v), n) == DotTo(v, v, n)
  {
    if n > 0 {
      DotNeg(v, n - 1);
    }
  }
}
