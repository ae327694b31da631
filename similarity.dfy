/**
 * The specification side of the similarity routines: what a single score is,
 * how a flat buffer is cut into vectors, and what the row-major matrix of
 * scores holds. The imperative routines in module SimdMath are proved equal
 * to these definitions.
 *
 * The square root is the platform's `f32::sqrt`, whose code is not part of
 * this model; it enters every definition as a parameter `sqrt`, and only the
 * properties a routine needs are assumed of it, as a precondition.
 */
module Similarity {
  import opened Sums

  /**
   * What the similarity routines rely on from a square root: on non-negative
   * arguments it is non-negative and vanishes exactly at zero.
   */
  ghost predicate IsSqrt(sqrt: real -> real)
  {
    forall x :: x >= 0.0 ==> sqrt(x) >= 0.0 && (sqrt(x) == 0.0 <==> x == 0.0)
  }

  /**
   * The exact square root: a square root in the sense of IsSqrt whose square
   * gives back its argument. Used to state what a score means.
   */
  ghost predicate IsExactSqrt(sqrt: real -> real)
  {
    IsSqrt(sqrt) && forall x :: x >= 0.0 ==> sqrt(x) * sqrt(x) == x
  }

  /** `x.max(-1.0).min(1.0)`: the nearest point of [-1, 1] to `x`. */
  function Clamp(x: real): (r: real)
    ensures -1.0 <= r <= 1.0
    ensures -1.0 <= x <= 1.0 ==> r == x
    ensures x < -1.0 ==> r == -1.0
    ensures x > 1.0 ==> r == 1.0
  {
    var lo := if x >= -1.0 then x else -1.0;
    if lo <= 1.0 then lo else 1.0
  }

  /**
   * The score of a pair from its dot product and its two norms: 0.0 when
   * either norm is zero, otherwise the clamped quotient of the dot product by
   * the product of the norms.
   */
  function Score(dot: real, normA: real, normB: real): (r: real)
    ensures -1.0 <= r <= 1.0
    ensures normA == 0.0 || normB == 0.0 ==> r == 0.0
  {
    if normA == 0.0 || normB == 0.0 then 0.0 else Clamp(dot / (normA * normB))
  }

  /**
   * Away from zero norms the product of the norms is non-zero and the score
   * is the clamped quotient.
   */
  lemma ScoreNonZero(dot: real, normA: real, normB: real)
    requires normA != 0.0 && normB != 0.0
    ensures normA * normB != 0.0
    ensures Score(dot, normA, normB) == Clamp(dot / (normA * normB))
  {
  }

  /**
   * The cosine similarity of two vectors as the pair routine defines it:
   * 0.0 when the lengths differ or the vectors are empty, otherwise the
   * score of their dot product and norms.
   */
  function Cosine(sqrt: real -> real, a: seq<real>, b: seq<real>): (r: real)
    ensures -1.0 <= r <= 1.0
  {
    if |a| != |b| || |a| == 0 then 0.0
    else Score(DotTo(a, b, |a|), sqrt(NormSq(a)), sqrt(NormSq(b)))
  }

  /** A zero vector on either side scores 0.0. */
  lemma CosineZeroVector(sqrt: real -> real, a: seq<real>, b: seq<real>)
    requires IsSqrt(sqrt)
    requires forall i :: 0 <= i < |a| ==> a[i] == 0.0
    ensures Cosine(sqrt, a, b) == 0.0 && Cosine(sqrt, b, a) == 0.0
  {
    ZeroVectorNormSq(a);
  }

  /** Orthogonal vectors of equal length score 0.0, whatever their norms. */
  lemma CosineOrthogonal(sqrt: real -> real, a: seq<real>, b: seq<real>)
    requires |a| == |b| && DotTo(a, b, |a|) == 0.0
    ensures Cosine(sqrt, a, b) == 0.0
  {
    if |a| != 0 {
      var normA, normB := sqrt(NormSq(a)), sqrt(NormSq(b));
      if normA != 0.0 && normB != 0.0 {
        ScoreNonZero(0.0, normA, normB);
        assert 0.0 / (normA * normB) == 0.0;
      }
    }
  }

  /**
   * A dot product equal to (minus) the product of two equal non-zero norms
   * scores 1.0 (-1.0).
   */
  lemma ScoreUnit(n: real, s: real)
    requires n != 0.0 && s * s == n
    ensures Score(n, s, s) == 1.0 && Score(-n, s, s) == -1.0
  {
    DivSelf(n);
  }

  /** A non-zero number divided by itself is 1.0, and its negation -1.0. */
  lemma DivSelf(x: real)
    requires x != 0.0
    ensures x / x == 1.0 && -x / x == -1.0
  {
  }

  /** Under an exact square root a vector of non-zero norm scores 1.0 against itself. */
  lemma CosineSelf(sqrt: real -> real, v: seq<real>)
    requires IsExactSqrt(sqrt)
    requires NormSq(v) != 0.0
    ensures Cosine(sqrt, v, v) == 1.0
  {
    var s := sqrt(NormSq(v));
    ScoreUnit(NormSq(v), s);
  }

  /** Under an exact square root a vector of non-zero norm scores -1.0 against its negation. */
  lemma CosineOpposite(sqrt: real -> real, v: seq<real>)
    requires IsExactSqrt(sqrt)
    requires NormSq(v) != 0.0
    ensures Cosine(sqrt, v, Neg(v)) == -1.0
  {
    DotNeg(v, |v|);
    assert NormSq(Neg(v)) == NormSq(v);
    var s := sqrt(NormSq(v));
    ScoreUnit(NormSq(v), s);
  }

  /**
   * Vector `i` of a flat buffer of `dim`-element vectors lies within the
   * buffer: `i * dim + dim <= len` whenever `i < len / dim`.
   */
  lemma SliceInBounds(len: nat, dim: nat, i: nat)
    requires dim > 0 && i < len / dim
    ensures i * dim + dim <= len
  {
    var q := len / dim;
    assert q * dim <= len;
    assert (i + 1) * dim <= q * dim by {
      MulMonotone(i + 1, q, dim);
    }
  }

  /** Multiplying by a natural number preserves `<=` between naturals. */
  lemma MulMonotone(x: nat, y: nat, k: nat)
    requires x <= y
    ensures x * k <= y * k
  {
  }

  /** Vector `i` of the flat buffer `s`: the elements `[i * dim, (i + 1) * dim)`. */
  function Slice(s: seq<real>, dim: nat, i: nat): (v: seq<real>)
    requires dim > 0 && i < |s| / dim
    ensures |v| == dim
  {
    SliceInBounds(|s|, dim, i);
    s[i * dim .. i * dim + dim]
  }

  /**
   * A buffer holding a single vector, scored against that same vector as the
   * query, gives the one-entry sequence BatchSimilarity is specified to
   * return, and under an exact square root that sequence is `[1.0]` when the
   * vector is not zero.
   */
  lemma BatchOfOne(sqrt: real -> real, v: seq<real>)
    requires IsExactSqrt(sqrt)
    requires 0 < |v| && NormSq(v) != 0.0
    ensures seq(|v| / |v|, i requires 0 <= i < |v| / |v| => Cosine(sqrt, Slice(v, |v|, i), v)) == [1.0]
  {
    assert Slice(v, |v|, 0) == v;
    CosineSelf(sqrt, v);
  }

  /** Row `i` of the score matrix: vector `i` of `va` against every vector of `vb`. */
  function Row(sqrt: real -> real, va: seq<real>, vb: seq<real>, dim: nat, i: nat): (r: seq<real>)
    requires dim > 0 && i < |va| / dim
  {
    seq(|vb| / dim, j requires 0 <= j < |vb| / dim =>
      Cosine(sqrt, Slice(va, dim, i), Slice(vb, dim, j)))
  }

  /** The first `n` rows of the score matrix, concatenated. */
  function Rows(sqrt: real -> real, va: seq<real>, vb: seq<real>, dim: nat, n: nat): seq<real>
    requires dim > 0 && n <= |va| / dim
  {
    if n == 0 then [] else Rows(sqrt, va, vb, dim, n - 1) + Row(sqrt, va, vb, dim, n - 1)
  }

  /** `n` rows hold `n * (|vb| / dim)` scores. */
  lemma {:induction false} RowsLength(sqrt: real -> real, va: seq<real>, vb: seq<real>, dim: nat, n: nat)
    requires dim > 0 && n <= |va| / dim
    ensures |Rows(sqrt, va, vb, dim, n)| == n * (|vb| / dim)
  {
    if n > 0 {
      RowsLength(sqrt, va, vb, dim, n - 1);
      assert n * (|vb| / dim) == (n - 1) * (|vb| / dim) + |vb| / dim;
    }
  }

  /** Every score in the first `n` rows lies in [-1, 1]. */
  lemma {:induction false} RowsBounded(sqrt: real -> real, va: seq<real>, vb: seq<real>, dim: nat, n: nat)
    requires dim > 0 && n <= |va| / dim
    ensures forall k :: 0 <= k < |Rows(sqrt, va, vb, dim, n)| ==> -1.0 <= Rows(sqrt, va, vb, dim, n)[k] <= 1.0
  {
    if n > 0 {
      RowsBounded(sqrt, va, vb, dim, n - 1);
    }
  }

  /**
   * Row-major layout: the score of vector `i` of `va` against vector `j` of
   * `vb` sits at position `i * (|vb| / dim) + j`.
   */
  lemma {:induction false} RowMajor(sqrt: real -> real, va: seq<real>, vb: seq<real>, dim: nat, n: nat, i: nat, j: nat)
    requires dim > 0 && n <= |va| / dim
    requires i < n && j < |vb| / dim
    ensures i * (|vb| / dim) + j < |Rows(sqrt, va, vb, dim, n)|
      && Rows(sqrt, va, vb, dim, n)[i * (|vb| / dim) + j]
         == Cosine(sqrt, Slice(va, dim, i), Slice(vb, dim, j))
  {
    var numB := |vb| / dim;
    var prefix := Rows(sqrt, va, vb, dim, n - 1);
    RowsLength(sqrt, va, vb, dim, n - 1);
    assert |prefix| == (n - 1) * numB;
    if i == n - 1 {
      assert Rows(sqrt, va, vb, dim, n)[i * numB + j] == Row(sqrt, va, vb, dim, n - 1)[j];
    } else {
      RowMajor(sqrt, va, vb, dim, n - 1, i, j);
      assert Rows(sqrt, va, vb, dim, n)[i * numB + j] == prefix[i * numB + j];
    }
  }
}
