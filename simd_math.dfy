/**
 * The similarity routines of the `SIMDMath` binding object. The object has no
 * fields, so its methods are free methods here.
 *
 * Every reduction walks `[0, SimdLen(len))` in chunks of four, folding each
 * chunk into a four-lane accumulator with a lane-wise multiply-add, then sums
 * the lanes and adds the remaining zero to three elements one at a time. Each
 * is proved equal to the sequential sum it stands for, so the chunking
 * changes nothing in exact arithmetic.
 */
module SimdMath {
  import opened Lanes
  import opened Sums
  import opened Similarity

  /** The dot product of `a` with the first `|a|` elements of `b`. */
  method DotProductSimdOnly(a: seq<real>, b: seq<real>) returns (dot: real)
    requires |a| <= |b|
    ensures dot == DotTo(a, b, |a|)
  {
    var len := |a|;
    var simdLen := SimdLen(len);
    var dotLanes := Zero;
    var i := 0;
    while i < simdLen
      invariant i % 4 == 0 && i <= simdLen
      invariant dotLanes == LaneSums(a, b, i)
    {
      ChunkStep(i, simdLen);
      LaneSumsStep(a, b, i);
      dotLanes := Load(a, i).MulAdd(Load(b, i), dotLanes);
      i := i + 4;
    }
    ChunkCoverage(a, b, simdLen);
    dot := dotLanes.ReduceAdd();
    for k := simdLen to len
      invariant dot == DotTo(a, b, k)
    {
      dot := dot + a[k] * b[k];
    }
  }

  /** The squared norm of `v`. */
  method ComputeNormSquaredSimd(v: seq<real>) returns (normSq: real)
    ensures normSq == NormSq(v)
  {
    var len := |v|;
    var simdLen := SimdLen(len);
    var normLanes := Zero;
    var i := 0;
    while i < simdLen
      invariant i % 4 == 0 && i <= simdLen
      invariant normLanes == LaneSums(v, v, i)
    {
      ChunkStep(i, simdLen);
      LaneSumsStep(v, v, i);
      var chunk := Load(v, i);
      normLanes := chunk.MulAdd(chunk, normLanes);
      i := i + 4;
    }
    ChunkCoverage(v, v, simdLen);
    normSq := normLanes.ReduceAdd();
    for k := simdLen to len
      invariant normSq == DotTo(v, v, k)
    {
      normSq := normSq + v[k] * v[k];
    }
  }

  /**
   * The dot product of `a` with the first `|a|` elements of `b` and the
   * squared norm of `a`, in one pass: the same pair as separate calls of
   * DotProductSimdOnly and ComputeNormSquaredSimd.
   */
  method DotProductAndNormSimd(a: seq<real>, b: seq<real>) returns (dot: real, normASq: real)
    requires |a| <= |b|
    ensures dot == DotTo(a, b, |a|)
    ensures normASq == NormSq(a)
  {
    var len := |a|;
    var simdLen := SimdLen(len);
    var dotLanes, normALanes := Zero, Zero;
    var i := 0;
    while i < simdLen
      invariant i % 4 == 0 && i <= simdLen
      invariant dotLanes == LaneSums(a, b, i)
      invariant normALanes == LaneSums(a, a, i)
    {
      ChunkStep(i, simdLen);
      LaneSumsStep(a, b, i);
      LaneSumsStep(a, a, i);
      var aChunk, bChunk := Load(a, i), Load(b, i);
      dotLanes := aChunk.MulAdd(bChunk, dotLanes);
      normALanes := aChunk.MulAdd(aChunk, normALanes);
      i := i + 4;
    }
    ChunkCoverage(a, b, simdLen);
    ChunkCoverage(a, a, simdLen);
    dot := dotLanes.ReduceAdd();
    normASq := normALanes.ReduceAdd();
    for k := simdLen to len
      invariant dot == DotTo(a, b, k)
      invariant normASq == DotTo(a, a, k)
    {
      dot := dot + a[k] * b[k];
      normASq := normASq + a[k] * a[k];
    }
  }

  /**
   * The cosine similarity of `a` and `b`, with all three sums accumulated in
   * one pass. The result is the reference score Cosine: 0.0 for a length
   * mismatch, an empty input or a zero norm, and a value in [-1, 1] always.
   */
  method CosineSimilarity(sqrt: real -> real, a: seq<real>, b: seq<real>) returns (r: real)
    ensures r == Cosine(sqrt, a, b)
    ensures -1.0 <= r <= 1.0
    ensures |a| != |b| || |a| == 0 ==> r == 0.0
  {
    if |a| != |b| || |a| == 0 {
      return 0.0;
    }
    var len := |a|;
    var simdLen := SimdLen(len);
    var dotLanes, normALanes, normBLanes := Zero, Zero, Zero;
    var i := 0;
    while i < simdLen
      invariant i % 4 == 0 && i <= simdLen
      invariant dotLanes == LaneSums(a, b, i)
      invariant normALanes == LaneSums(a, a, i)
      invariant normBLanes == LaneSums(b, b, i)
    {
      ChunkStep(i, simdLen);
      LaneSumsStep(a, b, i);
      LaneSumsStep(a, a, i);
      LaneSumsStep(b, b, i);
      var aChunk, bChunk := Load(a, i), Load(b, i);
      dotLanes := aChunk.MulAdd(bChunk, dotLanes);
      normALanes := aChunk.MulAdd(aChunk, normALanes);
      normBLanes := bChunk.MulAdd(bChunk, normBLanes);
      i := i + 4;
    }
    ChunkCoverage(a, b, simdLen);
    ChunkCoverage(a, a, simdLen);
    ChunkCoverage(b, b, simdLen);
    var dot := dotLanes.ReduceAdd();
    var normASq := normALanes.ReduceAdd();
    var normBSq := normBLanes.ReduceAdd();
    for k := simdLen to len
      invariant dot == DotTo(a, b, k)
      invariant normASq == DotTo(a, a, k)
      invariant normBSq == DotTo(b, b, k)
    {
      dot := dot + a[k] * b[k];
      normASq := normASq + a[k] * a[k];
      normBSq := normBSq + b[k] * b[k];
    }
    var normA := sqrt(normASq);
    var normB := sqrt(normBSq);
    assert Cosine(sqrt, a, b) == Score(dot, normA, normB);
    if normA == 0.0 || normB == 0.0 {
      return 0.0;
    }
    ScoreNonZero(dot, normA, normB);
    var magnitude := normA * normB;
    r := Clamp(dot / magnitude);
  }

  /**
   * Scores every `dim`-element vector of the flat buffer `vectors` against
   * `query`, in order. An invalid shape gives the empty sequence; otherwise
   * entry `i` is the pair score of vector `i` and the query, so a zero-norm
   * query gives one 0.0 per vector.
   */
  method BatchSimilarity(sqrt: real -> real, vectors: seq<real>, query: seq<real>, dim: nat)
    returns (results: seq<real>)
    requires IsSqrt(sqrt)
    ensures dim == 0 || |vectors| % dim != 0 || |query| != dim ==> results == []
    ensures dim > 0 && |vectors| % dim == 0 && |query| == dim ==>
      |results| == |vectors| / dim
      && (forall i :: 0 <= i < |results| ==>
            results[i] == Cosine(sqrt, Slice(vectors, dim, i), query))
      && (NormSq(query) == 0.0 ==> forall i :: 0 <= i < |results| ==> results[i] == 0.0)
    ensures forall i :: 0 <= i < |results| ==> -1.0 <= results[i] <= 1.0
  {
    if dim == 0 { return []; }
    if |vectors| % dim != 0 { return []; }
    if |query| != dim { return []; }

    var numVectors := |vectors| / dim;
    results := [];

    var queryNormSq := ComputeNormSquaredSimd(query);
    if queryNormSq == 0.0 {
      results := seq(numVectors, _ => 0.0);
      forall i | 0 <= i < numVectors
        ensures results[i] == Cosine(sqrt, Slice(vectors, dim, i), query)
      {
        assert sqrt(NormSq(query)) == 0.0;
      }
      return;
    }
    var queryNorm := sqrt(queryNormSq);

    for i := 0 to numVectors
      invariant |results| == i
      invariant forall k :: 0 <= k < i ==> results[k] == Cosine(sqrt, Slice(vectors, dim, k), query)
    {
      SliceInBounds(|vectors|, dim, i);
      var start := i * dim;
      var vectorSlice := vectors[start..start + dim];
      assert vectorSlice == Slice(vectors, dim, i);
      var dot, vectorNormSq := DotProductAndNormSimd(vectorSlice, query);
      if vectorNormSq == 0.0 {
        BatchEntry(sqrt, vectorSlice, query, dot, vectorNormSq, sqrt(vectorNormSq), queryNormSq, queryNorm);
        results := results + [0.0];
      } else {
        var vectorNorm := sqrt(vectorNormSq);
        BatchEntry(sqrt, vectorSlice, query, dot, vectorNormSq, vectorNorm, queryNormSq, queryNorm);
        var similarity := dot / (vectorNorm * queryNorm);
        results := results + [Clamp(similarity)];
      }
    }
  }

  /**
   * One entry of the batch loop is the pair score: with the sums of vector
   * `v` and a non-zero-norm query `q` in hand, and their roots `vNorm` and
   * `qNorm`, the loop's branch on the squared norm of `v` computes
   * `Cosine(sqrt, v, q)`.
   */
  lemma BatchEntry(sqrt: real -> real, v: seq<real>, q: seq<real>, dot: real,
                   vSq: real, vNorm: real, qSq: real, qNorm: real)
    requires IsSqrt(sqrt)
    requires |v| == |q| && 0 < |q|
    requires dot == DotTo(v, q, |v|) && vSq == NormSq(v) && qSq == NormSq(q) && qSq != 0.0
    requires vNorm == sqrt(vSq) && qNorm == sqrt(qSq)
    ensures vSq == 0.0 ==> Cosine(sqrt, v, q) == 0.0
    ensures vSq != 0.0 ==> vNorm * qNorm != 0.0 && Cosine(sqrt, v, q) == Clamp(dot / (vNorm * qNorm))
  {
    assert qSq >= 0.0 && vSq >= 0.0;
    assert qNorm != 0.0;
    assert Cosine(sqrt, v, q) == Score(dot, vNorm, qNorm);
    if vSq == 0.0 {
      assert vNorm == 0.0;
    } else {
      assert vNorm != 0.0;
      ScoreNonZero(dot, vNorm, qNorm);
    }
  }

  /**
   * The squared-then-rooted norm of every `dim`-element vector of the flat
   * buffer `vectors`, in order (the `map(...).collect()` that precomputes
   * `norms_a` and `norms_b`).
   */
  method CollectNorms(sqrt: real -> real, vectors: seq<real>, dim: nat) returns (norms: seq<real>)
    requires dim > 0
    ensures |norms| == |vectors| / dim
    ensures forall i :: 0 <= i < |norms| ==> norms[i] == sqrt(NormSq(Slice(vectors, dim, i)))
  {
    norms := [];
    for i := 0 to |vectors| / dim
      invariant |norms| == i
      invariant forall k :: 0 <= k < i ==> norms[k] == sqrt(NormSq(Slice(vectors, dim, k)))
    {
      SliceInBounds(|vectors|, dim, i);
      var start := i * dim;
      var normSq := ComputeNormSquaredSimd(vectors[start..start + dim]);
      assert vectors[start..start + dim] == Slice(vectors, dim, i);
      norms := norms + [sqrt(normSq)];
    }
  }

  /**
   * Scores every vector of `vectorsA` against every vector of `vectorsB`,
   * row-major. An invalid shape gives the empty sequence; otherwise the
   * result has `numA * numB` entries and entry `i * numB + j` is the pair
   * score of vector `i` of A and vector `j` of B.
   */
  method SimilarityMatrix(sqrt: real -> real, vectorsA: seq<real>, vectorsB: seq<real>, dim: nat)
    returns (results: seq<real>)
    ensures dim == 0 || |vectorsA| % dim != 0 || |vectorsB| % dim != 0 ==> results == []
    ensures dim > 0 && |vectorsA| % dim == 0 && |vectorsB| % dim == 0 ==>
      results == Rows(sqrt, vectorsA, vectorsB, dim, |vectorsA| / dim)
    ensures dim > 0 && |vectorsA| % dim == 0 && |vectorsB| % dim == 0 ==>
      |results| == (|vectorsA| / dim) * (|vectorsB| / dim)
    ensures forall k :: 0 <= k < |results| ==> -1.0 <= results[k] <= 1.0
  {
    if dim == 0 || |vectorsA| % dim != 0 || |vectorsB| % dim != 0 {
      return [];
    }

    var numA := |vectorsA| / dim;
    var numB := |vectorsB| / dim;
    results := [];

    var normsA := CollectNorms(sqrt, vectorsA, dim);
    var normsB := CollectNorms(sqrt, vectorsB, dim);

    for i := 0 to numA
      invariant results == Rows(sqrt, vectorsA, vectorsB, dim, i)
    {
      SliceInBounds(|vectorsA|, dim, i);
      var startA := i * dim;
      var vecA := vectorsA[startA..startA + dim];
      assert vecA == Slice(vectorsA, dim, i);
      var normA := normsA[i];
      ghost var row := Row(sqrt, vectorsA, vectorsB, dim, i);

      if normA == 0.0 {
        for k := 0 to numB
          invariant results == Rows(sqrt, vectorsA, vectorsB, dim, i) + row[..k]
        {
          assert row[k] == Cosine(sqrt, vecA, Slice(vectorsB, dim, k));
          MatrixCell(sqrt, vecA, Slice(vectorsB, dim, k), normA, normsB[k], 0.0, 0.0);
          AppendCell(Rows(sqrt, vectorsA, vectorsB, dim, i), row, k, 0.0);
          results := results + [0.0];
        }
        assert row[..numB] == row;
        continue;
      }

      for j := 0 to numB
        invariant results == Rows(sqrt, vectorsA, vectorsB, dim, i) + row[..j]
      {
        SliceInBounds(|vectorsB|, dim, j);
        var startB := j * dim;
        var vecB := vectorsB[startB..startB + dim];
        assert vecB == Slice(vectorsB, dim, j);
        var normB := normsB[j];
        assert row[j] == Cosine(sqrt, vecA, vecB);

        if normB == 0.0 {
          MatrixCell(sqrt, vecA, vecB, normA, normB, 0.0, 0.0);
          AppendCell(Rows(sqrt, vectorsA, vectorsB, dim, i), row, j, 0.0);
          results := results + [0.0];
          continue;
        }

        var dot := DotProductSimdOnly(vecA, vecB);
        var magnitude := normA * normB;
        MatrixCell(sqrt, vecA, vecB, normA, normB, dot, magnitude);
        var similarity := Clamp(dot / magnitude);
        AppendCell(Rows(sqrt, vectorsA, vectorsB, dim, i), row, j, similarity);
        results := results + [similarity];
      }
      assert row[..numB] == row;
    }

    RowsLength(sqrt, vectorsA, vectorsB, dim, |vectorsA| / dim);
    RowsBounded(sqrt, vectorsA, vectorsB, dim, |vectorsA| / dim);
  }

  /**
   * One cell of the matrix loop is the pair score: with the precomputed
   * norms of two vectors of equal length, a zero norm scores 0.0, and
   * otherwise the magnitude (the product of the norms) is non-zero and the
   * clamped quotient of the dot product by it is `Cosine(sqrt, va, vb)`.
   */
  lemma MatrixCell(sqrt: real -> real, va: seq<real>, vb: seq<real>, normA: real, normB: real,
                   dot: real, magnitude: real)
    requires |va| == |vb| && 0 < |va|
    requires normA == sqrt(NormSq(va)) && normB == sqrt(NormSq(vb))
    ensures normA == 0.0 || normB == 0.0 ==> Cosine(sqrt, va, vb) == 0.0
    ensures normA != 0.0 && normB != 0.0 && dot == DotTo(va, vb, |va|) && magnitude == normA * normB ==>
      magnitude != 0.0 && Cosine(sqrt, va, vb) == Clamp(dot / magnitude)
  {
    assert Cosine(sqrt, va, vb) == Score(DotTo(va, vb, |va|), normA, normB);
    if normA != 0.0 && normB != 0.0 {
      ScoreNonZero(DotTo(va, vb, |va|), normA, normB);
    }
  }

  /** Pushing cell `j` of a row onto the prefix `row[..j]` gives `row[..j + 1]`. */
  lemma AppendCell(done: seq<real>, row: seq<real>, j: nat, x: real)
    requires j < |row| && row[j] == x
    ensures done + row[..j] + [x] == done + row[..j + 1]
  {
    assert row[..j + 1] == row[..j] + [x];
  }
}
