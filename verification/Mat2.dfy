/**
 Exact 2x2 real matrices: determinant, product and inverse. Entry `mIJ` is the
 entry in row I, column J; in the cost engine index 0 is CBF and index 1 is ATT.
 */
module Matrix {

  datatype Mat2 = Mat2(m00: real, m01: real, m10: real, m11: real)

  const Identity := Mat2(1.0, 0.0, 0.0, 1.0)

  function Det(m: Mat2): real {
    m.m00 * m.m11 - m.m01 * m.m10
  }

  /** The dot product of the row `(a, b)` and the column `(c, d)`. */
  function Dot(a: real, b: real, c: real, d: real): real {
    a * c + b * d
  }

  function MatMul(x: Mat2, y: Mat2): Mat2 {
    Mat2(Dot(x.m00, x.m01, y.m00, y.m10), Dot(x.m00, x.m01, y.m01, y.m11),
         Dot(x.m10, x.m11, y.m00, y.m10), Dot(x.m10, x.m11, y.m01, y.m11))
  }

  predicate IsSymmetric(m: Mat2) {
    m.m01 == m.m10
  }

  /** The inverse of a non-singular matrix, as `np.linalg.inv` computes it: the adjugate over the determinant. */
  function Inverse(h: Mat2): Mat2
    requires Det(h) != 0.0
  {
    var d := Det(h);
    Mat2(h.m11 / d, -h.m01 / d, -h.m10 / d, h.m00 / d)
  }

  /** `Inverse` is a two-sided inverse for matrix multiplication. */
  lemma InverseIsTwoSided(h: Mat2)
    requires Det(h) != 0.0
    ensures MatMul(h, Inverse(h)) == Identity
    ensures MatMul(Inverse(h), h) == Identity
  {
    var d := Det(h);
    var r := Inverse(h);
    assert d / d == 1.0;
    assert MatMul(h, r) == Mat2(Det(h) / d, (h.m01 * h.m00 - h.m00 * h.m01) / d,
                                (h.m11 * h.m10 - h.m10 * h.m11) / d, Det(h) / d);
    assert MatMul(r, h) == Mat2(Det(h) / d, (h.m11 * h.m01 - h.m01 * h.m11) / d,
                                (h.m00 * h.m10 - h.m10 * h.m00) / d, Det(h) / d);
  }

  /** A right inverse of a matrix is its inverse: `Inverse` is the only solution of `h * m == I`. */
  lemma InverseUnique(h: Mat2, m: Mat2)
    requires MatMul(h, m) == Identity
    ensures Det(h) != 0.0
    ensures m == Inverse(h)
  {
    DetMultiplicative(h, m);
    assert Det(Identity) == 1.0;
    var r := Inverse(h);
    InverseIsTwoSided(h);
    calc {
      m;
      MatMul(Identity, m);
      { assert MatMul(r, h) == Identity; }
      MatMul(MatMul(r, h), m);
      { MatMulAssociative(r, h, m); }
      MatMul(r, MatMul(h, m));
      MatMul(r, Identity);
      r;
    }
  }

  /** The determinant of a product is the product of the determinants. */
  lemma DetMultiplicative(x: Mat2, y: Mat2)
    ensures Det(MatMul(x, y)) == Det(x) * Det(y)
  {
  }

  /** Matrix multiplication is associative. */
  lemma MatMulAssociative(x: Mat2, y: Mat2, z: Mat2)
    ensures MatMul(MatMul(x, y), z) == MatMul(x, MatMul(y, z))
  {
    AssociativeEntry(x.m00, x.m01, y, z.m00, z.m10);
    AssociativeEntry(x.m00, x.m01, y, z.m01, z.m11);
    AssociativeEntry(x.m10, x.m11, y, z.m00, z.m10);
    AssociativeEntry(x.m10, x.m11, y, z.m01, z.m11);
  }

  /** Row `(a, b)` times `y` times column `(u, w)`, bracketed either way. */
  lemma AssociativeEntry(a: real, b: real, y: Mat2, u: real, w: real)
    ensures Dot(Dot(a, b, y.m00, y.m10), Dot(a, b, y.m01, y.m11), u, w)
         == Dot(a, b, Dot(y.m00, y.m01, u, w), Dot(y.m10, y.m11, u, w))
  {
  }

  /** The inverse of a symmetric matrix is symmetric. */
  lemma InverseSymmetric(h: Mat2)
    requires Det(h) != 0.0
    requires IsSymmetric(h)
    ensures IsSymmetric(Inverse(h))
  {
  }

  /** The determinant of the inverse is the reciprocal of the determinant. */
  lemma DetInverse(h: Mat2)
    requires Det(h) != 0.0
    ensures Det(Inverse(h)) == 1.0 / Det(h)
  {
    InverseIsTwoSided(h);
    DetMultiplicative(h, Inverse(h));
    assert Det(Identity) == 1.0;
  }

  /** A symmetric positive-definite matrix has an inverse with a positive diagonal. */
  lemma PositiveDefiniteInverse(h: Mat2)
    requires IsSymmetric(h) && h.m00 > 0.0 && Det(h) > 0.0
    ensures Inverse(h).m00 > 0.0 && Inverse(h).m11 > 0.0
  {
    var d := Det(h);
    PositiveDefiniteDiagonal(h.m00, h.m01, h.m11);
    assert Inverse(h).m00 == h.m11 / d;
    assert Inverse(h).m11 == h.m00 / d;
    PositiveQuotient(h.m11, d);
    PositiveQuotient(h.m00, d);
  }

  /** The diagonal of a positive-definite matrix is positive. */
  lemma PositiveDefiniteDiagonal(a: real, b: real, c: real)
    requires a > 0.0 && a * c - b * b > 0.0
    ensures c > 0.0
  {
    assert a * c > 0.0;
  }

  /** A positive real over a positive real is positive. */
  lemma PositiveQuotient(x: real, d: real)
    requires x > 0.0 && d > 0.0
    ensures x / d > 0.0
  {
  }
}
