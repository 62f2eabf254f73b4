/**
 The covariance transform of `CostMeasure.cov` (oxasl_optpcasl/cost.py): the
 inverse of a sensitivity (Hessian) matrix, with every entry +inf when the
 matrix is singular, followed by the conversion of the CBF-related entries
 into ml/100g/min.
 */
module Covariance {
  import opened ExtReal
  import opened Matrix
  import Batch

  /** The factor that converts the model's internal flow units into ml/100g/min. */
  const FlowUnit: real := 6000.0

  /** A 2x2 matrix of extended values; the shape of a covariance matrix. */
  datatype EMat2 = EMat2(e00: Ext, e01: Ext, e10: Ext, e11: Ext) {

    predicate IsFinite() {
      e00.Fin? && e01.Fin? && e10.Fin? && e11.Fin?
    }

    predicate IsSymmetric() {
      e01 == e10
    }
  }

  const AllInf := EMat2(PosInf, PosInf, PosInf, PosInf)

  function Lift(m: Mat2): (r: EMat2)
    ensures r.IsFinite()
  {
    EMat2(Fin(m.m00), Fin(m.m01), Fin(m.m10), Fin(m.m11))
  }

  /** The real entries of a finite extended matrix. */
  function Values(m: EMat2): (r: Mat2)
    requires m.IsFinite()
    ensures Lift(r) == m
  {
    Mat2(m.e00.v, m.e01.v, m.e10.v, m.e11.v)
  }

  /**
   The unit conversion: entry [0,0] is multiplied by 6000 twice, both
   off-diagonal entries once, and entry [1,1] is left alone.
   */
  function Rescale(m: EMat2): (r: EMat2)
    ensures m.IsFinite() ==>
              r == EMat2(Fin(36000000.0 * m.e00.v), Fin(6000.0 * m.e01.v), Fin(6000.0 * m.e10.v), m.e11)
    ensures r.e11 == m.e11
    ensures m.IsFinite() <==> r.IsFinite()
    ensures m == AllInf ==> r == AllInf
    ensures m.IsSymmetric() ==> r.IsSymmetric()
  {
    EMat2(Mul(FlowUnit, Mul(FlowUnit, m.e00)), Mul(FlowUnit, m.e01), Mul(FlowUnit, m.e10), m.e11)
  }

  /** Undoes `Rescale` on a finite matrix: back to the model's internal flow units. */
  function Unscale(m: Mat2): (r: Mat2)
    ensures Rescale(Lift(r)) == Lift(m)
  {
    Mat2(m.m00 / (FlowUnit * FlowUnit), m.m01 / FlowUnit, m.m10 / FlowUnit, m.m11)
  }

  /** `Unscale` undoes the conversion of a finite matrix: the two are inverse to each other. */
  lemma UnscaleUndoesRescale(m: Mat2)
    ensures Rescale(Lift(m)).IsFinite()
    ensures Unscale(Values(Rescale(Lift(m)))) == m
  {
  }

  /**
   The covariance of a sensitivity matrix: finite exactly when the matrix is
   non-singular, and +inf in every entry, after the unit conversion too, when
   it is singular.
   */
  function Cov(h: Mat2): (r: EMat2)
    ensures r.IsFinite() <==> Det(h) != 0.0
    ensures Det(h) == 0.0 ==> r == AllInf
  {
    var raw := if Det(h) != 0.0 then Lift(Inverse(h)) else AllInf;
    Rescale(raw)
  }

  /**
   The covariance of a non-singular matrix is its inverse with the CBF-CBF
   entry scaled by 6000^2 = 36000000, both cross entries by 6000, and the
   ATT-ATT entry unscaled.
   */
  lemma CovIsScaledInverse(h: Mat2)
    requires Det(h) != 0.0
    ensures Cov(h) == EMat2(Fin(36000000.0 * Inverse(h).m00), Fin(6000.0 * Inverse(h).m01),
                            Fin(6000.0 * Inverse(h).m10), Fin(Inverse(h).m11))
  {
  }

  /** With the unit conversion undone, the covariance of a non-singular matrix is its two-sided inverse. */
  lemma CovInvertsHessian(h: Mat2)
    requires Det(h) != 0.0
    ensures Cov(h).IsFinite()
    ensures MatMul(h, Unscale(Values(Cov(h)))) == Identity
    ensures MatMul(Unscale(Values(Cov(h))), h) == Identity
  {
    CovIsScaledInverse(h);
    assert Unscale(Values(Cov(h))) == Inverse(h);
    InverseIsTwoSided(h);
  }

  /**
   The covariance is determined by any right inverse `m` of the sensitivity
   matrix: such an `m` exists exactly when the matrix is non-singular, and the
   covariance is `m` with the CBF entries converted.
   */
  lemma CovFromRightInverse(h: Mat2, m: Mat2)
    requires MatMul(h, m) == Identity
    ensures Det(h) != 0.0
    ensures Cov(h) == EMat2(Fin(36000000.0 * m.m00), Fin(6000.0 * m.m01), Fin(6000.0 * m.m10), Fin(m.m11))
  {
    InverseUnique(h, m);
    CovIsScaledInverse(h);
  }

  /** Both cross entries get the same factor, so a symmetric sensitivity matrix has a symmetric covariance. */
  lemma CovSymmetric(h: Mat2)
    requires IsSymmetric(h)
    ensures Cov(h).IsSymmetric()
  {
    if Det(h) != 0.0 {
      InverseSymmetric(h);
      CovIsScaledInverse(h);
    }
  }

  /** The covariance of every matrix of a batch, each computed on its own. */
  function CovBatch(hs: seq<Mat2>): (r: seq<EMat2>)
    ensures |r| == |hs|
    ensures forall i :: 0 <= i < |hs| ==> r[i] == Cov(hs[i])
  {
    Batch.Map(Cov, hs)
  }
}
