/**
 * A four-lane float register (`f32x4` of the `wide` crate) over exact reals.
 *
 * Only the three operations the similarity routines use are modelled:
 * building a register from four consecutive buffer elements (`new` applied to
 * a 4-element chunk), the lane-wise fused multiply-add `mul_add` and the
 * horizontal reduction `reduce_add`. Rounding is not modelled: `MulAdd` is the
 * exact `a * b + c` in every lane and `ReduceAdd` the exact sum of the lanes.
 */
module Lanes {

  datatype F32x4 = F32x4(l0: real, l1: real, l2: real, l3: real)
  {
    /** Lane-wise `this * m + acc` (the source's `self.mul_add(m, acc)`). */
    function MulAdd(m: F32x4, acc: F32x4): F32x4
    {
      F32x4(l0 * m.l0 + acc.l0, l1 * m.l1 + acc.l1, l2 * m.l2 + acc.l2, l3 * m.l3 + acc.l3)
    }

    /** Horizontal sum of the four lanes. */
    function ReduceAdd(): real
    {
      l0 + l1 + l2 + l3
    }
  }

  /** The register with every lane zero (`f32x4::ZERO`). */
  const Zero: F32x4 := F32x4(0.0, 0.0, 0.0, 0.0)

  /**
   * The chunk `s[i..i + 4]` loaded into a register. The precondition is the
   * bound that makes the source's `try_into().unwrap()` on a 4-element chunk
   * unable to fail.
   */
  function Load(s: seq<real>, i: nat): F32x4
    requires i + 4 <= |s|
  {
    F32x4(s[i], s[i + 1], s[i + 2], s[i + 3])
  }
}
