# wasm-simd cosine similarity — a Dafny model

`packages/wasm-simd/src/lib.rs` exposes, through a field-less `SIMDMath`
binding object, three similarity operations over `f32` vectors: the cosine
similarity of a pair, the similarity of every vector of a flat buffer to one
query (`batch_similarity`), and the row-major matrix of similarities between
two flat buffers (`similarity_matrix`). All three rest on three private
reductions (`dot_product_simd_only`, `compute_norm_squared_simd`,
`dot_product_and_norm_simd`). Each reduction walks the aligned prefix
`[0, len - len % 4)` in chunks of four, folds each chunk into a four-lane
`f32x4` accumulator with a lane-wise multiply-add, sums the lanes, and then
adds the zero to three remaining elements one at a time.

The model keeps that shape:

- `lanes.dfy` (module `Lanes`) is the four-lane register `F32x4`, with
  `MulAdd` as the lane-wise `a * b + c`, `ReduceAdd` as the sum of the lanes,
  and `Load` as a 4-element chunk of a buffer.
- `sums.dfy` (module `Sums`) holds the reference definitions. `DotTo` is the
  sequential dot product and `NormSq` the squared norm. `LaneSums` is what
  the lane accumulator holds after a number of chunks. The lemmas connect the
  chunked order to the sequential one (chunk coverage) and prove that norms
  are non-negative.
- `similarity.dfy` (module `Similarity`) defines what a score is.
  - `Clamp` is `max(-1.0).min(1.0)`.
  - `Score` gives 0.0 on a zero norm, otherwise the clamped quotient.
  - `Cosine` is the pair score.
  - `Slice` is vector `i` of a flat buffer, and `Rows` is the row-major
    matrix, with its laws.
- `simd_math.dfy` (module `SimdMath`) holds the six routines as imperative
  methods. They keep the source's loops, lane accumulators, `continue`s and
  result sequences grown by `push`. Each is proved equal to the reference
  definitions above.

Arithmetic is exact (`real`). `f32::sqrt` is a parameter `sqrt: real -> real`.
`IsSqrt` is what the routines need of it: non-negative on non-negative
arguments, and zero exactly at zero. Only `batch_similarity` needs this. It
tests the squared norms where the pair routine tests the rooted ones.
`IsExactSqrt` (an `IsSqrt` root with `sqrt(x) * sqrt(x) == x`) is used only to
state the unit scores of a vector against itself and against its negation.

## Model

| member | source | states |
|---|---|---|
| Sums.SimdLen | packages/wasm-simd/src/lib.rs:23-25 | the aligned end `len - len % 4` is a multiple of 4 with `simd_len <= len < simd_len + 4` |
| Sums.LaneSumsStep | packages/wasm-simd/src/lib.rs:28-35 | one more 4-element chunk is one lane-wise `mul_add` of the loaded chunks into the lane accumulator |
| Sums.ChunkCoverage | packages/wasm-simd/src/lib.rs:28-41 | the four lanes together cover every index of the aligned prefix exactly once: their `reduce_add` is the sequential dot product of that prefix |
| Sums.NormLaneNonNegative | packages/wasm-simd/src/lib.rs:138-142 | every lane of a squared-norm accumulator stays non-negative |
| Sums.NormSqNonNegative | packages/wasm-simd/src/lib.rs:144-148 | every prefix sum of squares, hence every squared norm, is non-negative |
| Sums.NormSq | packages/wasm-simd/src/lib.rs:132-149 | the squared norm the norm reductions compute is never negative |
| Sums.ZeroVectorNormSq | packages/wasm-simd/src/lib.rs:84-89 | a vector of zeros has squared norm 0.0, so its norm is caught by the zero-norm guard |
| Similarity.Clamp | packages/wasm-simd/src/lib.rs:93 | the clamped value lies in [-1, 1], is the input when that lies in [-1, 1], and is the nearer bound otherwise |
| Similarity.Score | packages/wasm-simd/src/lib.rs:84-93 | a score lies in [-1, 1] and is 0.0 whenever either norm is zero |
| Similarity.ScoreNonZero | packages/wasm-simd/src/lib.rs:91-93 | with both norms non-zero the magnitude is non-zero and the score is the clamped quotient of the dot product by it |
| Similarity.Cosine | packages/wasm-simd/src/lib.rs:45-94 | the pair score lies in [-1, 1] for every pair of inputs |
| Similarity.CosineZeroVector | packages/wasm-simd/src/lib.rs:84-89 | a zero vector on either side scores 0.0 |
| Similarity.CosineOrthogonal | packages/wasm-simd/src/lib.rs:87-93 | vectors of equal length with dot product 0 score 0.0 |
| Similarity.CosineSelf | packages/wasm-simd/src/lib.rs:84-93 | under an exact square root a non-zero vector scores exactly 1.0 against itself |
| Similarity.CosineOpposite | packages/wasm-simd/src/lib.rs:84-93 | under an exact square root a non-zero vector scores exactly -1.0 against its negation |
| Similarity.SliceInBounds | packages/wasm-simd/src/lib.rs:112-114 | for `i < len / dim` the slice end `i * dim + dim` stays within the buffer |
| Similarity.Slice | packages/wasm-simd/src/lib.rs:195-196 | vector `i` of a flat buffer has exactly `dim` elements |
| Similarity.BatchOfOne | packages/wasm-simd/src/lib.rs:101-126 | the sequence BatchSimilarity is specified to return for a buffer holding one non-zero vector, scored against itself, is `[1.0]` under an exact square root (which is also a square root in the sense BatchSimilarity requires) |
| Similarity.RowsLength | packages/wasm-simd/src/lib.rs:188-190 | `n` rows of the matrix hold `n * num_b` scores |
| Similarity.RowsBounded | packages/wasm-simd/src/lib.rs:238 | every matrix score lies in [-1, 1] |
| Similarity.RowMajor | packages/wasm-simd/src/lib.rs:210-243 | entry `i * num_b + j` exists and is the pair score of vector `i` of A and vector `j` of B |
| SimdMath.DotProductSimdOnly | packages/wasm-simd/src/lib.rs:22-42 | the chunked-plus-remainder reduction returns the sequential dot product over the length of `vec_a` |
| SimdMath.ComputeNormSquaredSimd | packages/wasm-simd/src/lib.rs:132-149 | the chunked-plus-remainder reduction returns the sequential sum of squares |
| SimdMath.DotProductAndNormSimd | packages/wasm-simd/src/lib.rs:153-179 | the one-pass pair is the same dot product and squared norm the two separate reductions return |
| SimdMath.CosineSimilarity | packages/wasm-simd/src/lib.rs:45-94 | the result is the pair score: 0.0 on a length mismatch or empty input, 0.0 on a zero norm, always in [-1, 1] |
| SimdMath.BatchSimilarity | packages/wasm-simd/src/lib.rs:97-128 | empty on `dim == 0`, a ragged buffer or a query of the wrong length; otherwise one entry per vector, entry `i` being the pair score of slice `i` and the query, in [-1, 1], and all 0.0 for a zero-norm query |
| SimdMath.BatchEntry | packages/wasm-simd/src/lib.rs:117-124 | a zero-norm candidate scores 0.0, and any other candidate scores the clamped quotient of its dot product by the product of the norms, which is the pair score |
| SimdMath.CollectNorms | packages/wasm-simd/src/lib.rs:193-208 | entry `i` of the precomputed norms is the root of the squared norm of slice `i`, one per slice |
| SimdMath.SimilarityMatrix | packages/wasm-simd/src/lib.rs:183-244 | empty on `dim == 0` or a ragged buffer; otherwise exactly the row-major matrix `Rows` of pair scores, `num_a * num_b` long, every score in [-1, 1] |
| SimdMath.MatrixCell | packages/wasm-simd/src/lib.rs:215-239 | a cell with a zero precomputed norm on either side is 0.0, otherwise the magnitude is non-zero and the clamped quotient is the pair score |

## Left out

- The wasm-bindgen glue is not modelled: the start function installing the panic hook and the `SIMDMath` constructor. The object has no fields, so its methods are free methods.
- IEEE-754 `f32` semantics are not modelled: rounding, the single rounding of a fused multiply-add, reassociation between the chunked and the sequential order, NaN and infinities. Arithmetic is exact, so the chunked and the sequential sums are equal in the model; in `f32` they agree only up to rounding.
- Similarity.ScoreNonZero: proves the magnitude non-zero over the reals only. In `f32` two tiny non-zero norms can underflow to a zero magnitude, giving an infinite or NaN quotient that the clamp turns into -1.0 or 1.0; the model does not capture that.
- `f32::sqrt` is a parameter. Its code is not part of this model, and only the properties named `IsSqrt` and `IsExactSqrt` are assumed of it, each where it is needed.
- The internals of the `wide` crate's `f32x4` (`new`, `mul_add`, `reduce_add`) are not modelled beyond their exact meanings.
- The `try_into().unwrap()` panics are not modelled. Each is a bounds obligation in the model (`Load`'s precondition), so it is proved unable to fire.
- SimdMath.DotProductSimdOnly: requires `|a| <= |b|`. The source indexes `vec_b` up to `vec_a.len()` and would panic on a shorter `vec_b`, and every caller passes equal lengths.
- SimdMath.DotProductAndNormSimd: requires `|a| <= |b|` for the same reason.
- Sums.ZeroVectorNormSq: only "zero vector implies zero squared norm" is proved. The converse (a zero squared norm means a zero vector) is not stated. CosineSelf and CosineOpposite therefore take `NormSq(v) != 0.0` as their non-zero hypothesis.
- SimdMath.BatchSimilarity: that the zero-query path never reads candidate data is visible in the method body, which returns before the loop, but no contract states it.
- SimdMath.SimilarityMatrix: the row-major index property is stated by the lemma Similarity.RowMajor about `Rows`, not repeated in the method's own postcondition.
