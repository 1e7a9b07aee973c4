/**
 * The discretisation of the Hough parameter plane (r, phi): the accumulator's
 * dimensions computed in `houghLine` and the decomposition of a linear
 * accumulator index done at the top of `draw_line`.
 *
 * The accumulator is row-major with r as the fast ("column") component:
 * index i is bin (i % rDim, i / rDim) = (rIndex, phiIndex), standing for
 * r = rIndex * discR and phi = phiIndex * discPhi.
 */
module ParameterSpace {
  import opened CNumerics
  import opened RowMajor

  /** `M_PI` as the C math header spells it. */
  const Pi: real := 3.14159265358979323846

  /** Design constants of the pipeline: angle step, radius step and number of lines kept. */
  const DiscretePhi: real := 0.012
  const DiscreteR: real := 1.25
  const NbLines: nat := 40

  /** `phiDim = (int) (M_PI / discStepPhi)`. */
  function PhiDim(discPhi: real): int
    requires discPhi > 0.0
  {
    FloatToInt(Pi / discPhi)
  }

  /** `rDim = (int) (((width + height) * 2 + 1) / discStepR)`. */
  function RDim(width: int, height: int, discR: real): int
    requires discR > 0.0
  {
    FloatToInt(((width + height) * 2 + 1) as real / discR)
  }

  /** `accumulator_s = phiDim * rDim`: the number of vote bins. */
  function AccumulatorSize(width: int, height: int, discR: real, discPhi: real): int
    requires discR > 0.0 && discPhi > 0.0
  {
    PhiDim(discPhi) * RDim(width, height, discR)
  }

  lemma DivMulCancel(x: real, d: real)
    requires d > 0.0
    ensures (x / d) * d == x
  {
  }

  /** The floor of x / d, scaled back by d, brackets x. */
  lemma FloorOfQuotient(x: real, d: real)
    requires d > 0.0 && x >= 0.0
    ensures (x / d).Floor >= 0
    ensures (x / d).Floor as real * d <= x < ((x / d).Floor + 1) as real * d
  {
    var q := x / d;
    var n := q.Floor;
    DivMulCancel(x, d);
    assert n as real * d <= q * d;
    var gap := n as real + 1.0 - q;
    assert gap > 0.0;
    assert gap * d > 0.0;
    assert (n + 1) as real == q + gap;
    assert (q + gap) * d == q * d + gap * d;
    assert x < (n + 1) as real * d;
  }

  /**
   * The angle bins k * discPhi, k < phiDim, all lie below pi, and phiDim is the
   * largest count with that property: one more bin would reach past pi.
   */
  lemma PhiDimCoversHalfTurn(discPhi: real)
    requires discPhi > 0.0
    ensures PhiDim(discPhi) >= 0
    ensures PhiDim(discPhi) as real * discPhi <= Pi < (PhiDim(discPhi) + 1) as real * discPhi
  {
    FloorOfQuotient(Pi, discPhi);
  }

  /**
   * The radius bins k * discR, k < rDim, all lie within 2 * (width + height) + 1,
   * an upper bound on the distance of any pixel from the origin, and rDim is the
   * largest count with that property.
   */
  lemma RDimCoversDiagonal(width: nat, height: nat, discR: real)
    requires discR > 0.0
    ensures RDim(width, height, discR) >= 0
    ensures RDim(width, height, discR) as real * discR <= ((width + height) * 2 + 1) as real
    ensures ((width + height) * 2 + 1) as real < (RDim(width, height, discR) + 1) as real * discR
  {
    FloorOfQuotient(((width + height) * 2 + 1) as real, discR);
  }

  /** With the design constants, a 100 x 100 image gets a 320 x 261 accumulator. */
  lemma DefaultDimensions()
    ensures RDim(100, 100, DiscreteR) == 320
    ensures PhiDim(DiscretePhi) == 261
    ensures AccumulatorSize(100, 100, DiscreteR, DiscretePhi) == 83520
  {
    assert 401.0 / 1.25 == 320.8;
    assert 261.0 <= Pi / DiscretePhi < 262.0;
  }

  /** The r component of a linear index: `accPos % rDim`. */
  function RIndex(accPos: int, rDim: int): int
    requires rDim > 0
  {
    CRem(accPos, rDim)
  }

  /** The phi component of a linear index: `accPos / rDim`. */
  function PhiIndex(accPos: int, rDim: int): int
    requires rDim > 0
  {
    CDiv(accPos, rDim)
  }

  /** A bin index splits into its two components and recombines to itself. */
  lemma IndexDecomposition(accPos: int, rDim: int)
    requires accPos >= 0 && rDim > 0
    ensures accPos == Flat(RIndex(accPos, rDim), PhiIndex(accPos, rDim), rDim)
    ensures 0 <= RIndex(accPos, rDim) < rDim && 0 <= PhiIndex(accPos, rDim)
  {
    FlatSplit(accPos, rDim);
  }

  /** An index inside the accumulator names an angle bin below phiDim. */
  lemma PhiIndexInRange(accPos: int, rDim: int, phiDim: int)
    requires 0 <= accPos < rDim * phiDim && rDim > 0
    ensures 0 <= PhiIndex(accPos, rDim) < phiDim
  {
    IndexDecomposition(accPos, rDim);
    var p := PhiIndex(accPos, rDim);
    if p >= phiDim {
      MulMonotone(phiDim, p, rDim);
    }
  }

  /** Decomposition undoes the accumulator layout: bin (rIndex, phiIndex) comes back out of its index. */
  lemma BinIndexRoundTrip(rIndex: int, phiIndex: int, rDim: int)
    requires 0 <= rIndex < rDim && 0 <= phiIndex
    ensures RIndex(Flat(rIndex, phiIndex, rDim), rDim) == rIndex
    ensures PhiIndex(Flat(rIndex, phiIndex, rDim), rDim) == phiIndex
  {
    FlatUnsplit(rIndex, phiIndex, rDim);
    MulMonotone(0, phiIndex, rDim);
  }

  /** The polar coordinates of bin `accPos`: r = rIndex * discR, phi = phiIndex * discPhi. */
  function Polar(accPos: int, rDim: int, discR: real, discPhi: real): (real, real)
    requires rDim > 0
  {
    (RIndex(accPos, rDim) as real * discR, PhiIndex(accPos, rDim) as real * discPhi)
  }

  /** Every accumulator index decodes to r in [0, rDim * discR) and phi in [0, phiDim * discPhi). */
  lemma PolarInRange(accPos: int, rDim: int, phiDim: int, discR: real, discPhi: real)
    requires 0 <= accPos < rDim * phiDim && rDim > 0
    requires discR > 0.0 && discPhi > 0.0
    ensures 0.0 <= Polar(accPos, rDim, discR, discPhi).0 < rDim as real * discR
    ensures 0.0 <= Polar(accPos, rDim, discR, discPhi).1 < phiDim as real * discPhi
  {
    IndexDecomposition(accPos, rDim);
    PhiIndexInRange(accPos, rDim, phiDim);
    var ri, pi := RIndex(accPos, rDim), PhiIndex(accPos, rDim);
    assert ri as real * discR < rDim as real * discR;
    assert pi as real * discPhi < phiDim as real * discPhi;
  }

  /**
   * With the dimensions computed by PhiDim and RDim, a decoded bin has an angle
   * in [0, pi) and a radius within 2 * (width + height) + 1.
   */
  lemma DecodedBinGeometry(accPos: int, width: nat, height: nat, discR: real, discPhi: real)
    requires discR > 0.0 && discPhi > 0.0
    requires 0 <= accPos < AccumulatorSize(width, height, discR, discPhi)
    ensures 0.0 <= Polar(accPos, RDim(width, height, discR), discR, discPhi).1 < Pi
    ensures 0.0 <= Polar(accPos, RDim(width, height, discR), discR, discPhi).0 <= ((width + height) * 2 + 1) as real
  {
    var rDim, phiDim := RDim(width, height, discR), PhiDim(discPhi);
    PhiDimCoversHalfTurn(discPhi);
    RDimCoversDiagonal(width, height, discR);
    if rDim <= 0 {
      assert false;
    }
    PolarInRange(accPos, rDim, phiDim, discR, discPhi);
  }
}
