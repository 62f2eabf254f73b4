/**
 The optimality criteria of oxasl_optpcasl/cost.py: the weighted (L-optimal)
 cost `LOptimalCost.cost` with its CBF and ATT selectors, and the joint
 (D-optimal) cost `DOptimalCost.cost`. The abstract `CostMeasure.cost` is the
 `Criterion` datatype, whose variants are exactly the two concrete criteria.
 */
module Criteria {
  import opened ExtReal
  import opened Matrix
  import opened Covariance
  import Batch

  /** Selects the CBF variance. */
  const CbfSelector := Mat2(1.0, 0.0, 0.0, 0.0)

  /** Selects the ATT variance. */
  const AttSelector := Mat2(0.0, 0.0, 0.0, 1.0)

  /** The matrix product of a real weight matrix and an extended matrix. */
  function WeightedProduct(a: Mat2, c: EMat2): (r: EMat2)
    ensures c.IsFinite() ==> r.IsFinite() && Values(r) == MatMul(a, Values(c))
  {
    EMat2(Add(Mul(a.m00, c.e00), Mul(a.m01, c.e10)), Add(Mul(a.m00, c.e01), Mul(a.m01, c.e11)),
          Add(Mul(a.m10, c.e00), Mul(a.m11, c.e10)), Add(Mul(a.m10, c.e01), Mul(a.m11, c.e11)))
  }

  /** The elementwise absolute value. */
  function AbsEntries(m: EMat2): EMat2 {
    EMat2(Abs(m.e00), Abs(m.e01), Abs(m.e10), Abs(m.e11))
  }

  /** The sum of the diagonal. */
  function Trace(m: EMat2): Ext {
    Add(m.e00, m.e11)
  }

  /**
   True when every row of the weight matrix has two non-zero entries of the
   same sign: only then does a row times a column of +inf stay infinite
   instead of meeting 0 * inf or inf - inf.
   */
  predicate KeepsInfinity(a: Mat2) {
    a.m00 * a.m01 > 0.0 && a.m10 * a.m11 > 0.0
  }

  /**
   The weighted cost as the source computes it: the trace of |A * cov|. For a
   non-singular matrix it is the sum of the absolute diagonal entries of the
   real product. For a singular matrix it is +inf only for weights that keep
   infinity, and NaN otherwise, since no NaN correction follows the product.
   */
  function LOptimalAsWritten(a: Mat2, h: Mat2): (r: Ext)
    ensures Det(h) != 0.0 ==>
              var p := MatMul(a, Values(Cov(h)));
              r == Fin(RealAbs(p.m00) + RealAbs(p.m11))
    ensures Det(h) == 0.0 ==> (r == PosInf <==> KeepsInfinity(a))
    ensures Det(h) == 0.0 ==> (r == NaN <==> !KeepsInfinity(a))
  {
    Trace(AbsEntries(WeightedProduct(a, Cov(h))))
  }

  /** The CBF and ATT selectors contain zeros, so as written their cost on any singular matrix is NaN. */
  lemma AsWrittenSingularSelectorsAreNaN(h: Mat2)
    requires Det(h) == 0.0
    ensures LOptimalAsWritten(CbfSelector, h) == NaN
    ensures LOptimalAsWritten(AttSelector, h) == NaN
  {
  }

  /** The correction the source comments out: a NaN is read as +inf, anything else is kept. */
  function NanToInf(x: Ext): (r: Ext)
    ensures !r.NaN?
    ensures x.NaN? ==> r == PosInf
    ensures !x.NaN? ==> r == x
  {
    if x.NaN? then PosInf else x
  }

  /** Reads every NaN entry as +inf. */
  function NanToInfEntries(m: EMat2): EMat2 {
    EMat2(NanToInf(m.e00), NanToInf(m.e01), NanToInf(m.e10), NanToInf(m.e11))
  }

  /**
   The weighted cost with the NaN correction applied after the product, where
   the 0 * inf it guards against arises. It is never NaN: a singular matrix
   costs +inf for every weight matrix, a non-singular one a finite amount.
   */
  function LOptimal(a: Mat2, h: Mat2): (r: Ext)
    ensures r.IsNonNeg()
    ensures Det(h) == 0.0 ==> r == PosInf
    ensures Det(h) != 0.0 ==> r.Fin?
  {
    CorrectedTrace(WeightedProduct(a, Cov(h)))
  }

  /** On a non-singular matrix the correction changes nothing: the corrected cost is the cost as written. */
  lemma LOptimalAgreesWhenNonSingular(a: Mat2, h: Mat2)
    requires Det(h) != 0.0
    ensures LOptimal(a, h) == LOptimalAsWritten(a, h)
  {
  }

  /** The trace of |p| with every NaN entry read as +inf. */
  function CorrectedTrace(p: EMat2): Ext {
    Trace(NanToInfEntries(AbsEntries(p)))
  }

  /**
   The joint cost 1/|det H|, computed without inverting H: a positive real for
   a non-singular matrix and +inf for a singular one.
   */
  function DOptimal(h: Mat2): (r: Ext)
    ensures r.PosInf? <==> Det(h) == 0.0
    ensures Det(h) != 0.0 ==> r.Fin? && r.v > 0.0 && r.v * RealAbs(Det(h)) == 1.0
  {
    Recip(Abs(Fin(Det(h))))
  }

  /** A cost criterion: the weighted one with its weight matrix, or the joint one. */
  datatype Criterion = Weighted(weights: Mat2) | Joint

  const CbfCriterion := Weighted(CbfSelector)

  const AttCriterion := Weighted(AttSelector)

  /**
   The cost of one sensitivity matrix under a criterion. Every criterion
   gives a value a minimiser can order: finite and non-negative for a
   non-singular matrix, +inf for a singular one.
   */
  function Cost(c: Criterion, h: Mat2): (r: Ext)
    ensures r.IsNonNeg()
    ensures r.Fin? <==> Det(h) != 0.0
    ensures r.PosInf? <==> Det(h) == 0.0
  {
    match c
    case Weighted(a) => LOptimal(a, h)
    case Joint => DOptimal(h)
  }

  /** The costs of a batch: one cost per matrix, each depending only on that matrix. */
  function CostBatch(c: Criterion, hs: seq<Mat2>): (r: seq<Ext>)
    ensures |r| == |hs|
    ensures forall i :: 0 <= i < |hs| ==> r[i] == Cost(c, hs[i])
  {
    Batch.Map(h => Cost(c, h), hs)
  }

  /** The CBF cost is the absolute CBF variance: entry [0,0] of the covariance, +inf for a singular matrix. */
  lemma CbfCostIsCbfVariance(h: Mat2)
    ensures Cost(CbfCriterion, h) == Abs(Cov(h).e00)
  {
    var c := Cov(h);
    if Det(h) != 0.0 {
      CbfProduct(c);
      TraceOfFirst(WeightedProduct(CbfSelector, c));
    } else {
      SelectorTimesInfinity(CbfSelector);
    }
  }

  /** The ATT cost is the absolute ATT variance: entry [1,1] of the covariance, +inf for a singular matrix. */
  lemma AttCostIsAttVariance(h: Mat2)
    ensures Cost(AttCriterion, h) == Abs(Cov(h).e11)
  {
    var c := Cov(h);
    if Det(h) != 0.0 {
      AttProduct(c);
      TraceOfLast(WeightedProduct(AttSelector, c));
    } else {
      SelectorTimesInfinity(AttSelector);
    }
  }

  /** Against a finite covariance the CBF selector keeps row 0 and zeroes row 1. */
  lemma CbfProduct(c: EMat2)
    requires c.IsFinite()
    ensures WeightedProduct(CbfSelector, c) == EMat2(c.e00, c.e01, Fin(0.0), Fin(0.0))
  {
  }

  /** Against a finite covariance the ATT selector zeroes row 0 and keeps row 1. */
  lemma AttProduct(c: EMat2)
    requires c.IsFinite()
    ensures WeightedProduct(AttSelector, c) == EMat2(Fin(0.0), Fin(0.0), c.e10, c.e11)
  {
  }

  /** Each selector has a zero in every row, so against +inf every entry of the product is NaN. */
  lemma SelectorTimesInfinity(a: Mat2)
    requires a == CbfSelector || a == AttSelector
    ensures WeightedProduct(a, AllInf) == EMat2(NaN, NaN, NaN, NaN)
    ensures CorrectedTrace(WeightedProduct(a, AllInf)) == PosInf
  {
  }

  /** A product whose [1,1] entry is zero has the absolute [0,0] entry as its corrected trace. */
  lemma TraceOfFirst(p: EMat2)
    requires p.e00.Fin? && p.e11 == Fin(0.0)
    ensures CorrectedTrace(p) == Abs(p.e00)
  {
  }

  /** A product whose [0,0] entry is zero has the absolute [1,1] entry as its corrected trace. */
  lemma TraceOfLast(p: EMat2)
    requires p.e00 == Fin(0.0) && p.e11.Fin?
    ensures CorrectedTrace(p) == Abs(p.e11)
  {
  }

  /**
   For a positive-definite sensitivity matrix the variances are positive, so
   the CBF and ATT costs are the covariance entries themselves.
   */
  lemma PositiveDefiniteCosts(h: Mat2)
    requires IsSymmetric(h) && h.m00 > 0.0 && Det(h) > 0.0
    ensures Cost(CbfCriterion, h) == Cov(h).e00 && Cov(h).e00.v > 0.0
    ensures Cost(AttCriterion, h) == Cov(h).e11 && Cov(h).e11.v > 0.0
  {
    PositiveDefiniteInverse(h);
    CovIsScaledInverse(h);
    CbfCostIsCbfVariance(h);
    AttCostIsAttVariance(h);
  }

  /**
   The joint cost is the absolute determinant of the unscaled inverse, and
   the determinant of the unit-converted covariance is 6000^2 times it.
   */
  lemma DOptimalIsCovDeterminant(h: Mat2)
    requires Det(h) != 0.0
    ensures DOptimal(h) == Fin(RealAbs(Det(Inverse(h))))
    ensures RealAbs(Det(Values(Cov(h)))) == 36000000.0 * DOptimal(h).v
  {
    DetInverse(h);
    CovIsScaledInverse(h);
    var m := Inverse(h);
    assert Det(Values(Cov(h))) == 36000000.0 * Det(m);
  }

  /** H = [[2,0],[0,4]]: covariance [[18000000,0],[0,0.25]], joint cost 1/8. */
  lemma DiagonalExample(h: Mat2)
    // The matrix is a parameter pinned by the precondition rather than a literal
    // in the postconditions, so the solver unfolds `Cov` and `Cost` on one term only.
    requires h == Mat2(2.0, 0.0, 0.0, 4.0)
    ensures Cov(h) == Lift(Mat2(18000000.0, 0.0, 0.0, 0.25))
    ensures Cost(CbfCriterion, h) == Fin(18000000.0)
    ensures Cost(AttCriterion, h) == Fin(0.25)
    ensures Cost(Joint, h) == Fin(0.125)
  {
    assert Cost(Joint, h) == Fin(0.125) by {
      assert Det(h) == 8.0;
    }
    CovFromRightInverse(h, Mat2(0.5, 0.0, 0.0, 0.25));
    CbfCostIsCbfVariance(h);
    AttCostIsAttVariance(h);
  }

  /** H = [[1,1],[1,1]] is singular: every covariance entry and every cost is +inf. */
  lemma SingularExample(h: Mat2)
    // The matrix is a parameter pinned by the precondition rather than a literal
    // in the postconditions, so the solver unfolds `Cov` and `Cost` on one term only.
    requires h == Mat2(1.0, 1.0, 1.0, 1.0)
    ensures Cov(h) == AllInf
    ensures Cost(CbfCriterion, h) == PosInf
    ensures Cost(AttCriterion, h) == PosInf
    ensures Cost(Joint, h) == PosInf
  {
  }

  /** H = [[4,0],[0,0.25]] has determinant 1: covariance [[9000000,0],[0,4]], joint cost 1. */
  lemma UnitDeterminantExample(h: Mat2)
    // The matrix is a parameter pinned by the precondition rather than a literal
    // in the postconditions, so the solver unfolds `Cov` and `Cost` on one term only.
    requires h == Mat2(4.0, 0.0, 0.0, 0.25)
    ensures Cov(h) == Lift(Mat2(9000000.0, 0.0, 0.0, 4.0))
    ensures Cost(CbfCriterion, h) == Fin(9000000.0)
    ensures Cost(AttCriterion, h) == Fin(4.0)
    ensures Cost(Joint, h) == Fin(1.0)
  {
    assert Cost(Joint, h) == Fin(1.0) by {
      assert Det(h) == 1.0;
    }
    CovFromRightInverse(h, Mat2(0.25, 0.0, 0.0, 4.0));
    CbfCostIsCbfVariance(h);
    AttCostIsAttVariance(h);
  }
}
