# Cost engine of oxasl_optpcasl, modelled in Dafny

The cost engine of oxasl_optpcasl turns the sensitivity (Fisher information,
Hessian) matrix of a proposed ASL protocol into one number that the protocol
optimizer minimises. The matrix is 2x2 over the parameters CBF (index 0) and
ATT (index 1). The engine has three parts:

- the covariance transform `CostMeasure.cov`. It inverts a non-singular
  matrix and puts +inf in every entry of a singular one. Then it converts the
  CBF entries into ml/100g/min: entry [0,0] is multiplied by 6000², both cross
  entries by 6000, and [1,1] is left alone;
- the weighted (L-optimal) cost `LOptimalCost.cost`, the trace of |A * cov|.
  `CBFCost` and `ATTCost` are this cost with the selectors [[1,0],[0,0]] and
  [[0,0],[0,1]];
- the joint (D-optimal) cost `DOptimalCost.cost`, 1/|det H|, computed without
  an inversion.

The model works with exact reals, so det is ad - bc and the inverse is the
adjugate over the determinant. The special values the floating-point code
produces (+inf from the singular branch, NaN from 0 * inf, +inf from a
division by zero) are kept in the datatype `ExtReal.Ext`, which follows the
IEEE 754 rules for them. A batch of matrices is a `seq`, and every operation
is mapped over it one element at a time.

Modules:

- `ExtReal` (ExtReal.dfy): extended reals with product, sum, absolute value and reciprocal.
- `Matrix` (Mat2.dfy): 2x2 real matrices with determinant, product and inverse.
- `Batch` (Batch.dfy): pointwise mapping over a batch.
- `Covariance` (Covariance.dfy): the covariance transform and its unit conversion.
- `Criteria` (Criteria.dfy): the weighted and joint costs. The abstract
  `CostMeasure.cost` becomes the datatype `Criterion`, whose two variants are
  the two concrete criteria.

On one point the code does not do what its own comments intend. The comment
at oxasl_optpcasl/cost.py:26 asks for a correction of the inf*0 errors in
A*inverse, and the correction `cov[np.isnan(cov)] = np.inf` at line 27 is
commented out; it would also run before the product it is meant to guard. As
written, the CBF and ATT costs of a singular matrix are therefore NaN (see
Findings). The model keeps the code's behaviour in
`Criteria.LOptimalAsWritten`. The costs the rest of the model uses are the
corrected `Criteria.LOptimal`, which reads a NaN entry of |A * cov| as +inf, so
that every cost of a singular matrix is +inf.

## Model

| member | source | states |
|---|---|---|
| Covariance.Cov | oxasl_optpcasl/cost.py:20-34 | the covariance is finite exactly when det H is non-zero; for a singular H every entry is +inf, and stays +inf after the unit conversion |
| Covariance.CovIsScaledInverse | oxasl_optpcasl/cost.py:20-32 | for a non-singular H the covariance is inverse(H) with [0,0] times 36000000, both cross entries times 6000 and [1,1] unchanged |
| Covariance.CovInvertsHessian | oxasl_optpcasl/cost.py:20-32 | once the unit conversion is undone, the covariance of a non-singular H is a two-sided inverse: H * cov = cov * H = I |
| Covariance.CovFromRightInverse | oxasl_optpcasl/cost.py:20-32 | any m with H * m = I proves H non-singular and fixes the covariance as m with the CBF entries converted |
| Covariance.Rescale | oxasl_optpcasl/cost.py:29-32 | the unit conversion multiplies a finite [0,0] by 36000000 and both cross entries by 6000 and leaves [1,1] unchanged, keeps a matrix finite or infinite, maps all-+inf to all-+inf, never to NaN, and keeps symmetry |
| Covariance.Unscale | oxasl_optpcasl/cost.py:29-32 | rescaling the unscaled matrix gives the matrix back |
| Covariance.UnscaleUndoesRescale | oxasl_optpcasl/cost.py:29-32 | the conversion of a finite matrix can be undone: unscaling the rescaled matrix gives the matrix back |
| Covariance.CovSymmetric | oxasl_optpcasl/cost.py:31-32 | a symmetric sensitivity matrix has a symmetric covariance, whether singular or not |
| Covariance.CovBatch | oxasl_optpcasl/cost.py:17-24 | a batch of covariances has the batch's length, and element i is the covariance of matrix i alone |
| Matrix.InverseIsTwoSided | oxasl_optpcasl/cost.py:23 | `Inverse`, the adjugate over `Det` (ad - bc) that stands for `np.linalg.inv` and `np.linalg.det`, multiplies a non-singular matrix to the identity from both sides |
| Matrix.InverseUnique | oxasl_optpcasl/cost.py:23 | a matrix with a right inverse is non-singular, and that right inverse is its inverse |
| Matrix.InverseSymmetric | oxasl_optpcasl/cost.py:23 | the inverse of a symmetric non-singular matrix is symmetric |
| Matrix.PositiveDefiniteInverse | oxasl_optpcasl/cost.py:23 | the inverse of a symmetric positive-definite matrix has a positive diagonal |
| Matrix.DetInverse | oxasl_optpcasl/cost.py:86-92 | the determinant of the inverse is the reciprocal of the determinant |
| Matrix.MatMulAssociative | oxasl_optpcasl/cost.py:58 | the matrix product is associative |
| Batch.MapConcat | oxasl_optpcasl/cost.py:40-41 | mapping a concatenated batch is concatenating the mapped batches, so no element's result depends on another element |
| Criteria.WeightedProduct | oxasl_optpcasl/cost.py:58 | against a finite covariance, the weighted product is finite and equals the real matrix product A * cov |
| Criteria.LOptimalAsWritten | oxasl_optpcasl/cost.py:58-60 | the cost is `Trace` (the diagonal sum, as `np.trace`) of abs(A·cov): for a non-singular H it is abs((A·cov)[0,0]) + abs((A·cov)[1,1]); for a singular H it is +inf exactly when every row of A has two non-zero entries of one sign, and NaN otherwise |
| Criteria.AsWrittenSingularSelectorsAreNaN | oxasl_optpcasl/cost.py:24-27 | as written, the CBF and ATT selectors give NaN on every singular matrix |
| Criteria.NanToInf | oxasl_optpcasl/cost.py:26-27 | the commented-out correction turns a NaN into +inf and leaves every other value unchanged, so its result is never NaN |
| Criteria.LOptimal | oxasl_optpcasl/cost.py:58-60 | the corrected weighted cost is non-negative for every weight matrix; it is finite for a non-singular H and +inf for a singular one |
| Criteria.LOptimalAgreesWhenNonSingular | oxasl_optpcasl/cost.py:58-60 | on a non-singular H the corrected weighted cost is the cost as written |
| Criteria.CbfCostIsCbfVariance | oxasl_optpcasl/cost.py:62-68 | the corrected CBF cost is abs(cov[0,0]): for a non-singular H the code's value, for a singular H +inf where the code gives NaN |
| Criteria.AttCostIsAttVariance | oxasl_optpcasl/cost.py:70-76 | the corrected ATT cost is abs(cov[1,1]): for a non-singular H the code's value, for a singular H +inf where the code gives NaN |
| Criteria.PositiveDefiniteCosts | oxasl_optpcasl/cost.py:58-60 | for a symmetric positive-definite H the CBF and ATT costs are the covariance's diagonal entries themselves, and both are positive |
| Criteria.DOptimal | oxasl_optpcasl/cost.py:85-92 | the joint cost is +inf exactly when det H = 0; otherwise it is a positive real whose product with abs(det H) is 1 |
| Criteria.DOptimalIsCovDeterminant | oxasl_optpcasl/cost.py:85-92 | the joint cost is abs(det) of the unscaled inverse of H, as its doc comment says, and the unit-converted covariance has 36000000 times that abs(det) |
| Criteria.Cost | oxasl_optpcasl/cost.py:36-43 | with the corrected weighted cost, every criterion gives a non-negative value a minimiser can order: finite exactly when H is non-singular, +inf exactly when it is singular |
| Criteria.CostBatch | oxasl_optpcasl/cost.py:36-41 | a batch of costs has the batch's length, and element i is the cost of matrix i alone |
| Criteria.DiagonalExample | oxasl_optpcasl/cost.py:53-92 | H = [[2,0],[0,4]] has covariance [[18000000,0],[0,0.25]], CBF cost 18000000, ATT cost 0.25 and joint cost 0.125 |
| Criteria.SingularExample | oxasl_optpcasl/cost.py:20-34 | H = [[1,1],[1,1]] has an all-+inf covariance and +inf for all three corrected costs |
| Criteria.UnitDeterminantExample | oxasl_optpcasl/cost.py:53-92 | H = [[4,0],[0,0.25]] has covariance [[9000000,0],[0,4]], CBF cost 9000000, ATT cost 4 and joint cost 1 |

## Left out

- Floating-point rounding: entries are exact reals. So the model says nothing about rounding in `np.linalg.det` and `np.linalg.inv`, or about a mathematically singular matrix whose computed determinant is not exactly 0. The singular test is exact equality with zero, as in the code.
- Signed zeros: `Recip` gives +inf for a zero argument, because the only zero it receives comes out of an absolute value, which is +0 in IEEE 754.
- The leading batch axes of the arrays: a batch is one flat `seq`. Any multi-axis batch can be flattened into one, since every element is computed independently.
- The abstract `CostMeasure.cost` raising `NotImplementedError`: `Criterion` has no variant without a cost, so there is nothing to raise.
- The display `name` strings of the criteria: they are only used for reporting.
- Weight matrices other than 2x2 real matrices, such as the nested Python lists passed to `LOptimalCost`: they are read as a `Mat2`.
- oxasl_optpcasl/main.py: it is command-line and console plumbing around the optimizer, kinetic model and scan types, which are not part of this model.
- Criteria.LOptimal: on a singular matrix it gives the +inf the comment at cost.py:26 intends, not the code's NaN (see Findings). The code's behaviour is `Criteria.LOptimalAsWritten`.
- Criteria.Cost: its weighted variant is the corrected `Criteria.LOptimal`, so it promises +inf where the code gives NaN for a singular matrix, for the same reason.
- Criteria.CbfCostIsCbfVariance: it is about the corrected CBF cost, which is +inf where the code gives NaN for a singular matrix, for the same reason.
- Criteria.AttCostIsAttVariance: it is about the corrected ATT cost, which is +inf where the code gives NaN for a singular matrix, for the same reason.

## Findings

| source | as written | input that shows it | evidently intended | confidence | as-written member | corrected member |
|---|---|---|---|---|---|---|
| oxasl_optpcasl/cost.py:24-27 | a singular H gets +inf in every covariance entry, and the NaN correction is commented out and placed before the product with A. The zeros of the CBF and ATT selectors then meet 0 * inf in `np.matmul`, so their cost is NaN | H = [[1,1],[1,1]] with the CBF selector [[1,0],[0,0]]: (A·cov)[0,0] = 1·inf + 0·inf = NaN, and the trace is NaN | every cost of a singular matrix is +inf, as the comment at line 26 asks | not executed | Criteria.AsWrittenSingularSelectorsAreNaN | Criteria.LOptimal |
