/**
 * The closed-form 3 x 3 inverse `internal::detInverse` and the dispatcher
 * `inverse` of inc/libMath/myMATH.h.
 */
module Inverse {
  import opened STBCommons
  import opened Matrices
  import opened Gauss

  /** The determinant of a 3 x 3 matrix, expanded along the first row of its flat buffer. */
  function Det3(m: Matrix): real {
      m.At(0) * (m.At(4) * m.At(8) - m.At(5) * m.At(7))
    - m.At(1) * (m.At(3) * m.At(8) - m.At(5) * m.At(6))
    + m.At(2) * (m.At(3) * m.At(7) - m.At(4) * m.At(6))
  }

  /**
   * The adjugate, as a 3 x 3 matrix whose flat element k is the signed
   * cofactor that detInverse divides by the determinant for res[k].
   */
  function Adjugate(m: Matrix): Matrix {
    var c0 :=   (m.At(4) * m.At(8) - m.At(5) * m.At(7));
    var c3 := - (m.At(3) * m.At(8) - m.At(5) * m.At(6));
    var c6 :=   (m.At(3) * m.At(7) - m.At(4) * m.At(6));
    var c1 := - (m.At(1) * m.At(8) - m.At(2) * m.At(7));
    var c4 :=   (m.At(0) * m.At(8) - m.At(2) * m.At(6));
    var c7 := - (m.At(0) * m.At(7) - m.At(1) * m.At(6));
    var c2 :=   (m.At(1) * m.At(5) - m.At(2) * m.At(4));
    var c5 := - (m.At(0) * m.At(5) - m.At(2) * m.At(3));
    var c8 :=   (m.At(0) * m.At(4) - m.At(1) * m.At(3));
    Mat3(c0, c1, c2, c3, c4, c5, c6, c7, c8)
  }

  /** Every element of m divided by d. */
  function DivideAll(m: Matrix, d: real): Matrix
    requires d != 0.0
  {
    Matrix(m.rows, m.cols, seq(|m.data|, i requires 0 <= i < |m.data| => seq(|m.data[i]|, j requires 0 <= j < |m.data[i]| => m.data[i][j] / d)))
  }

  /**
   * detInverse: only square 3 x 3 matrices are accepted (error_size
   * otherwise); the result is the adjugate divided by the determinant. A
   * zero determinant, where the C++ divides by zero, is reported as
   * error_div0.
   */
  function DetInverse(m: Matrix): (r: Result<Matrix>)
    requires m.Valid()
    ensures r.Err? <==> m.rows != m.cols || m.rows != 3 || Det3(m) == 0.0
    ensures r.Err? ==> (r.error == ErrorSize <==> (m.rows != m.cols || m.rows != 3))
    ensures r.Err? && r.error != ErrorSize ==> r.error == ErrorDiv0
  {
    if m.rows != m.cols then Err(ErrorSize)
    else if m.rows != 3 then Err(ErrorSize)
    else
      var det := Det3(m);
      if det == 0.0 then Err(ErrorDiv0)
      else Ok(DivideAll(Adjugate(m), det))
  }

  // ---------------------------------------------------------------------
  // The 3 x 3 inverse is a two-sided inverse
  // ---------------------------------------------------------------------

  lemma Sum3(f: int -> real)
    ensures Sum(0, 3, f) == f(0) + f(1) + f(2)
  {
    assert Sum(0, 3, f) == f(0) + Sum(1, 3, f);
    assert Sum(1, 3, f) == f(1) + Sum(2, 3, f);
  }

  /** The flat buffer of a 3 x 3 matrix, element by element. */
  lemma Flat3(m: Matrix)
    requires m.Valid() && m.rows == 3 && m.cols == 3
    ensures m.At(0) == m.Get(0, 0) && m.At(1) == m.Get(0, 1) && m.At(2) == m.Get(0, 2)
    ensures m.At(3) == m.Get(1, 0) && m.At(4) == m.Get(1, 1) && m.At(5) == m.Get(1, 2)
    ensures m.At(6) == m.Get(2, 0) && m.At(7) == m.Get(2, 1) && m.At(8) == m.Get(2, 2)
  {
    forall k | 0 <= k < 9
      ensures m.At(k) == m.Get(k / 3, k % 3)
    {
      FlatLayout(m, 0, 0, k);
    }
  }

  /** Row r and column c of a 3-column / 3-row matrix, as vectors. */
  function RowVec(m: Matrix, r: int): Pt3D {
    Pt3D(m.Get(r, 0), m.Get(r, 1), m.Get(r, 2))
  }

  function ColVec(m: Matrix, c: int): Pt3D {
    Pt3D(m.Get(0, c), m.Get(1, c), m.Get(2, c))
  }

  /** A vector is orthogonal to its cross product with another. */
  lemma CrossOrthogonal(u: Pt3D, v: Pt3D)
    ensures Dot3D(u, Cross(u, v)) == 0.0 && Dot3D(v, Cross(u, v)) == 0.0
    ensures Dot3D(Cross(u, v), u) == 0.0 && Dot3D(Cross(u, v), v) == 0.0
  {
  }

  /** The scalar triple product is invariant under a cyclic shift. */
  lemma TripleCyclic(u: Pt3D, v: Pt3D, w: Pt3D)
    ensures Dot3D(v, Cross(w, u)) == Dot3D(u, Cross(v, w))
  {
  }

  /** The adjugate in terms of the entries of m. */
  lemma AdjugateEntries(m: Matrix, a: real, b: real, c: real, d: real, e: real, f: real, g: real, h: real, k: real)
    requires m.Valid() && m.rows == 3 && m.cols == 3
    requires m.Get(0, 0) == a && m.Get(0, 1) == b && m.Get(0, 2) == c
    requires m.Get(1, 0) == d && m.Get(1, 1) == e && m.Get(1, 2) == f
    requires m.Get(2, 0) == g && m.Get(2, 1) == h && m.Get(2, 2) == k
    ensures Adjugate(m) == Mat3(e * k - f * h, -(b * k - c * h), b * f - c * e,
                                -(d * k - f * g), a * k - c * g, -(a * f - c * d),
                                d * h - e * g, -(a * h - b * g), a * e - b * d)
  {
    Flat3(m);
    AdjugateOf(m, a, b, c, d, e, f, g, h, k);
  }

  lemma AdjugateOf(m: Matrix, a: real, b: real, c: real, d: real, e: real, f: real, g: real, h: real, k: real)
    requires m.At(0) == a && m.At(1) == b && m.At(2) == c
    requires m.At(3) == d && m.At(4) == e && m.At(5) == f
    requires m.At(6) == g && m.At(7) == h && m.At(8) == k
    ensures Adjugate(m) == Mat3(e * k - f * h, -(b * k - c * h), b * f - c * e,
                                -(d * k - f * g), a * k - c * g, -(a * f - c * d),
                                d * h - e * g, -(a * h - b * g), a * e - b * d)
  {
    var c0, c1, c2 := e * k - f * h, -(b * k - c * h), b * f - c * e;
    var c3, c4, c5 := -(d * k - f * g), a * k - c * g, -(a * f - c * d);
    var c6, c7, c8 := d * h - e * g, -(a * h - b * g), a * e - b * d;
    assert m.At(4) * m.At(8) - m.At(5) * m.At(7) == c0;
    assert -(m.At(1) * m.At(8) - m.At(2) * m.At(7)) == c1;
    assert m.At(1) * m.At(5) - m.At(2) * m.At(4) == c2;
    assert -(m.At(3) * m.At(8) - m.At(5) * m.At(6)) == c3;
    assert m.At(0) * m.At(8) - m.At(2) * m.At(6) == c4;
    assert -(m.At(0) * m.At(5) - m.At(2) * m.At(3)) == c5;
    assert m.At(3) * m.At(7) - m.At(4) * m.At(6) == c6;
    assert -(m.At(0) * m.At(7) - m.At(1) * m.At(6)) == c7;
    assert m.At(0) * m.At(4) - m.At(1) * m.At(3) == c8;
  }

  /** The columns of the adjugate are cross products of the rows of m. */
  lemma AdjugateColumns(m: Matrix)
    requires m.Valid() && m.rows == 3 && m.cols == 3
    ensures ColVec(Adjugate(m), 0) == Cross(RowVec(m, 1), RowVec(m, 2))
    ensures ColVec(Adjugate(m), 1) == Cross(RowVec(m, 2), RowVec(m, 0))
    ensures ColVec(Adjugate(m), 2) == Cross(RowVec(m, 0), RowVec(m, 1))
  {
    var a, b, c := m.Get(0, 0), m.Get(0, 1), m.Get(0, 2);
    var d, e, f := m.Get(1, 0), m.Get(1, 1), m.Get(1, 2);
    var g, h, k := m.Get(2, 0), m.Get(2, 1), m.Get(2, 2);
    AdjugateEntries(m, a, b, c, d, e, f, g, h, k);
    CofactorColumn0(a, b, c, d, e, f, g, h, k);
    CofactorColumn1(a, b, c, d, e, f, g, h, k);
    CofactorColumn2(a, b, c, d, e, f, g, h, k);
    Mat3Vectors(e * k - f * h, -(b * k - c * h), b * f - c * e,
                -(d * k - f * g), a * k - c * g, -(a * f - c * d),
                d * h - e * g, -(a * h - b * g), a * e - b * d);
  }

  /** The rows of the adjugate are cross products of the columns of m. */
  lemma AdjugateRows(m: Matrix)
    requires m.Valid() && m.rows == 3 && m.cols == 3
    ensures RowVec(Adjugate(m), 0) == Cross(ColVec(m, 1), ColVec(m, 2))
    ensures RowVec(Adjugate(m), 1) == Cross(ColVec(m, 2), ColVec(m, 0))
    ensures RowVec(Adjugate(m), 2) == Cross(ColVec(m, 0), ColVec(m, 1))
  {
    var a, b, c := m.Get(0, 0), m.Get(0, 1), m.Get(0, 2);
    var d, e, f := m.Get(1, 0), m.Get(1, 1), m.Get(1, 2);
    var g, h, k := m.Get(2, 0), m.Get(2, 1), m.Get(2, 2);
    AdjugateEntries(m, a, b, c, d, e, f, g, h, k);
    CofactorRow0(a, b, c, d, e, f, g, h, k);
    CofactorRow1(a, b, c, d, e, f, g, h, k);
    CofactorRow2(a, b, c, d, e, f, g, h, k);
    Mat3Vectors(e * k - f * h, -(b * k - c * h), b * f - c * e,
                -(d * k - f * g), a * k - c * g, -(a * f - c * d),
                d * h - e * g, -(a * h - b * g), a * e - b * d);
  }

  // The cofactors, column by column and row by row, as cross products (one
  // lemma each: stated together the six identities are slow to prove).
  lemma CofactorColumn0(a: real, b: real, c: real, d: real, e: real, f: real, g: real, h: real, k: real)
    ensures Pt3D(e * k - f * h, -(d * k - f * g), d * h - e * g) == Cross(Pt3D(d, e, f), Pt3D(g, h, k))
  {
  }

  lemma CofactorColumn1(a: real, b: real, c: real, d: real, e: real, f: real, g: real, h: real, k: real)
    ensures Pt3D(-(b * k - c * h), a * k - c * g, -(a * h - b * g)) == Cross(Pt3D(g, h, k), Pt3D(a, b, c))
  {
  }

  lemma CofactorColumn2(a: real, b: real, c: real, d: real, e: real, f: real, g: real, h: real, k: real)
    ensures Pt3D(b * f - c * e, -(a * f - c * d), a * e - b * d) == Cross(Pt3D(a, b, c), Pt3D(d, e, f))
  {
  }

  lemma CofactorRow0(a: real, b: real, c: real, d: real, e: real, f: real, g: real, h: real, k: real)
    ensures Pt3D(e * k - f * h, -(b * k - c * h), b * f - c * e) == Cross(Pt3D(b, e, h), Pt3D(c, f, k))
  {
  }

  lemma CofactorRow1(a: real, b: real, c: real, d: real, e: real, f: real, g: real, h: real, k: real)
    ensures Pt3D(-(d * k - f * g), a * k - c * g, -(a * f - c * d)) == Cross(Pt3D(c, f, k), Pt3D(a, d, g))
  {
  }

  lemma CofactorRow2(a: real, b: real, c: real, d: real, e: real, f: real, g: real, h: real, k: real)
    ensures Pt3D(d * h - e * g, -(a * h - b * g), a * e - b * d) == Cross(Pt3D(a, d, g), Pt3D(b, e, h))
  {
  }

  /** The rows and columns of a 3 x 3 matrix built from its entries. */
  lemma Mat3Vectors(c0: real, c1: real, c2: real, c3: real, c4: real, c5: real, c6: real, c7: real, c8: real)
    ensures var m := Mat3(c0, c1, c2, c3, c4, c5, c6, c7, c8);
      && ColVec(m, 0) == Pt3D(c0, c3, c6) && ColVec(m, 1) == Pt3D(c1, c4, c7) && ColVec(m, 2) == Pt3D(c2, c5, c8)
      && RowVec(m, 0) == Pt3D(c0, c1, c2) && RowVec(m, 1) == Pt3D(c3, c4, c5) && RowVec(m, 2) == Pt3D(c6, c7, c8)
  {
  }

  /** The determinant is the triple product of the rows, and of the columns. */
  lemma DetTriple(m: Matrix)
    requires m.Valid() && m.rows == 3 && m.cols == 3
    ensures Det3(m) == Dot3D(RowVec(m, 0), Cross(RowVec(m, 1), RowVec(m, 2)))
    ensures Det3(m) == Dot3D(Cross(ColVec(m, 1), ColVec(m, 2)), ColVec(m, 0))
  {
    Flat3(m);
  }

  /** An entry of a product with three inner terms is the dot product of a row and a column. */
  lemma MulDot3D(a: Matrix, b: Matrix, i: int, j: int)
    requires a.cols == 3 && 0 <= i < a.rows && 0 <= j < b.cols
    ensures Mul(a, b).Get(i, j) == Dot3D(RowVec(a, i), ColVec(b, j))
  {
    Sum3(k => a.Get(i, k) * b.Get(k, j));
  }

  /** A times its adjugate, and the adjugate times A, are det * I. */
  lemma AdjugateEntry(m: Matrix, r: int, c: int)
    requires m.Valid() && m.rows == 3 && m.cols == 3 && 0 <= r < 3 && 0 <= c < 3
    ensures Mul(m, Adjugate(m)).Get(r, c) == if r == c then Det3(m) else 0.0
    ensures Mul(Adjugate(m), m).Get(r, c) == if r == c then Det3(m) else 0.0
  {
    var adj := Adjugate(m);
    AdjugateColumns(m);
    AdjugateRows(m);
    DetTriple(m);
    MulDot3D(m, adj, r, c);
    MulDot3D(adj, m, r, c);
    var r0, r1, r2 := RowVec(m, 0), RowVec(m, 1), RowVec(m, 2);
    var k0, k1, k2 := ColVec(m, 0), ColVec(m, 1), ColVec(m, 2);
    CrossOrthogonal(r1, r2);
    CrossOrthogonal(r2, r0);
    CrossOrthogonal(r0, r1);
    CrossOrthogonal(k1, k2);
    CrossOrthogonal(k2, k0);
    CrossOrthogonal(k0, k1);
    TripleCyclic(r0, r1, r2);
    TripleCyclic(r1, r2, r0);
    TripleCyclic(k0, k1, k2);
    TripleCyclic(k1, k2, k0);
    DotSymmetric(Cross(k1, k2), k0);
    DotSymmetric(Cross(k2, k0), k1);
    DotSymmetric(Cross(k0, k1), k2);
  }

  /** The rows and columns of DivideAll(m, d) are those of m divided by d. */
  lemma DivideAllVectors(m: Matrix, d: real, i: int)
    requires m.Valid() && m.rows == 3 && m.cols == 3 && d != 0.0 && 0 <= i < 3
    ensures RowVec(DivideAll(m, d), i) == DivVec(RowVec(m, i), d)
    ensures ColVec(DivideAll(m, d), i) == DivVec(ColVec(m, i), d)
  {
  }

  /** Entry (r, c) of both products of m with adj(m) / det(m). */
  lemma DetInverseEntry(m: Matrix, r: int, c: int)
    requires m.Valid() && m.rows == 3 && m.cols == 3 && Det3(m) != 0.0 && 0 <= r < 3 && 0 <= c < 3
    ensures Mul(m, DivideAll(Adjugate(m), Det3(m))).Get(r, c) == if r == c then 1.0 else 0.0
    ensures Mul(DivideAll(Adjugate(m), Det3(m)), m).Get(r, c) == if r == c then 1.0 else 0.0
  {
    var det, adj := Det3(m), Adjugate(m);
    var x := DivideAll(adj, det);
    AdjugateEntry(m, r, c);
    MulDot3D(m, adj, r, c);
    MulDot3D(adj, m, r, c);
    MulDot3D(m, x, r, c);
    MulDot3D(x, m, r, c);
    DivideAllVectors(adj, det, r);
    DivideAllVectors(adj, det, c);
    DotDivide(RowVec(m, r), ColVec(adj, c), det);
    DotDivide(ColVec(m, c), RowVec(adj, r), det);
    DotSymmetric(RowVec(x, r), ColVec(m, c));
    DotSymmetric(RowVec(adj, r), ColVec(m, c));
    var t := if r == c then det else 0.0;
    var one := if r == c then 1.0 else 0.0;
    SelfDivide(det);
    assert Dot3D(RowVec(m, r), ColVec(x, c)) == t / det;
    assert Dot3D(ColVec(m, c), RowVec(x, r)) == t / det;
  }

  /**
   * When detInverse succeeds, its result is a two-sided inverse:
   * A * res == I and res * A == I.
   */
  lemma DetInverseCorrect(m: Matrix)
    requires m.Valid() && DetInverse(m).Ok?
    ensures m.rows == m.cols == 3
    ensures DetInverse(m).value.Valid() && DetInverse(m).value.rows == DetInverse(m).value.cols == 3
    ensures Mul(m, DetInverse(m).value) == Identity(3)
    ensures Mul(DetInverse(m).value, m) == Identity(3)
  {
    var x := DetInverse(m).value;
    forall r, c | 0 <= r < 3 && 0 <= c < 3
      ensures Mul(m, x).Get(r, c) == Identity(3).Get(r, c)
      ensures Mul(x, m).Get(r, c) == Identity(3).Get(r, c)
    {
      DetInverseEntry(m, r, c);
    }
    MatrixExt(Mul(m, x), Identity(3));
    MatrixExt(Mul(x, m), Identity(3));
  }

  /** The Binet-Cauchy identity for 3-vectors. */
  lemma BinetCauchy(a: Pt3D, b: Pt3D, c: Pt3D, d: Pt3D)
    ensures Dot3D(a, c) * Dot3D(b, d) - Dot3D(a, d) * Dot3D(b, c) == Dot3D(Cross(a, b), Cross(c, d))
  {
  }

  lemma NonZeroFactor(d: real, t: real)
    requires d * t == 1.0
    ensures d != 0.0
  {
  }

  lemma AdjugateDiagonal(A: Matrix)
    requires A.Valid() && A.rows == A.cols == 3
    ensures forall k, j :: 0 <= k < 3 && 0 <= j < 3 ==> Mul(Adjugate(A), A).Get(k, j) == if j == k then Det3(A) else 0.0
  {
    forall k, j | 0 <= k < 3 && 0 <= j < 3
      ensures Mul(Adjugate(A), A).Get(k, j) == if j == k then Det3(A) else 0.0
    {
      AdjugateEntry(A, k, j);
    }
  }

  /** Row k of D * X, for a row k of D that is det times the k-th unit row. */
  lemma DiagonalRowTimes(D: Matrix, X: Matrix, k: int, det: real)
    requires D.cols == 3 && 0 <= k < D.rows && k < 3 && X.cols > 0
    requires forall j :: 0 <= j < 3 ==> D.Get(k, j) == if j == k then det else 0.0
    ensures Mul(D, X).Get(k, 0) == det * X.Get(k, 0)
  {
    MulDot3D(D, X, k, 0);
    var v := ColVec(X, 0);
    if k == 0 {
      assert RowVec(D, k) == Pt3D(det, 0.0, 0.0);
    } else if k == 1 {
      assert RowVec(D, k) == Pt3D(0.0, det, 0.0);
    } else {
      assert RowVec(D, k) == Pt3D(0.0, 0.0, det);
    }
  }

  /** If D is det * I and D * X == M, the first column of M is det times that of X. */
  lemma DiagonalTimes(D: Matrix, X: Matrix, M: Matrix, det: real)
    requires D.rows == D.cols == 3 && X.rows == X.cols == 3 && Mul(D, X) == M
    requires forall k, j :: 0 <= k < 3 && 0 <= j < 3 ==> D.Get(k, j) == if j == k then det else 0.0
    ensures ColVec(M, 0) == ColVec(X, 0).Scale(det)
  {
    DiagonalRowTimes(D, X, 0, det);
    DiagonalRowTimes(D, X, 1, det);
    DiagonalRowTimes(D, X, 2, det);
  }

  /** The first column of the adjugate of A is det(A) times the first column of a right inverse X. */
  lemma AdjugateColumnOfInverse(A: Matrix, X: Matrix)
    requires A.Valid() && X.Valid() && A.rows == A.cols == 3 && X.rows == X.cols == 3
    requires Mul(A, X) == Identity(3)
    ensures ColVec(Adjugate(A), 0) == ColVec(X, 0).Scale(Det3(A))
  {
    var adj, det := Adjugate(A), Det3(A);
    var D := Mul(adj, A);
    assert adj.Valid() && adj.rows == adj.cols == 3;
    MulAssoc(adj, A, X);
    assert Mul(D, X) == Mul(adj, Identity(3));
    MulIdentity(adj);
    assert Mul(D, X) == adj;
    AdjugateDiagonal(A);
    DiagonalTimes(D, X, adj, det);
  }

  /**
   * A 3 x 3 matrix with a right inverse X has a non-zero determinant, and X
   * is then also a left inverse: X * A == I.
   */
  lemma RightInverseTwoSided(A: Matrix, X: Matrix)
    requires A.Valid() && X.Valid() && A.rows == A.cols == 3 && X.rows == X.cols == 3
    requires Mul(A, X) == Identity(3)
    ensures Det3(A) != 0.0
    ensures X == DetInverse(A).value
    ensures Mul(X, A) == Identity(3)
  {
    var det := Det3(A);
    var r1, r2 := RowVec(A, 1), RowVec(A, 2);
    var x0, x1, x2 := ColVec(X, 0), ColVec(X, 1), ColVec(X, 2);
    AdjugateColumnOfInverse(A, X);
    AdjugateColumns(A);
    MulDot3D(A, X, 1, 1);
    MulDot3D(A, X, 2, 2);
    MulDot3D(A, X, 1, 2);
    MulDot3D(A, X, 2, 1);
    BinetCauchy(r1, r2, x1, x2);
    assert Dot3D(Cross(r1, r2), Cross(x1, x2)) == 1.0;
    DotScale(x0, Cross(x1, x2), det);
    NonZeroFactor(det, Dot3D(x0, Cross(x1, x2)));
    var Y := DetInverse(A).value;
    DetInverseCorrect(A);
    MulAssoc(Y, A, X);
    MulIdentity(X);
    MulIdentity(Y);
  }

  // ---------------------------------------------------------------------
  // The dispatcher
  // ---------------------------------------------------------------------

  /**
   * The element type of the matrix. The C++ template inspects the name of
   * T; the model passes the kind explicitly.
   */
  datatype ElementKind = IntegerElements | RealElements

  /**
   * inverse(mtx, method): integer matrices are refused with error_type,
   * non-square ones with error_size; "gauss" and "det" select the two
   * algorithms and any other method name is refused with error_type.
   */
  method Inverse(m: Matrix, kind: ElementKind, how: string) returns (r: Result<Matrix>)
    requires m.Valid()
    ensures kind == IntegerElements ==> r == Err(ErrorType)
    ensures kind == RealElements && m.rows != m.cols ==> r == Err(ErrorSize)
    ensures kind == RealElements && m.rows == m.cols && how == "gauss" ==>
              (r.Ok? ==> r.value.Valid() && r.value.rows == r.value.cols == m.rows && Mul(m, r.value) == Identity(m.rows) && !Singular(m))
              && (r.Err? ==> r.error == ErrorDiv0 && Singular(m))
    ensures kind == RealElements && m.rows == m.cols && how == "det" ==> r == DetInverse(m)
    ensures kind == RealElements && how == "det" && r.Ok? ==> Mul(m, r.value) == Identity(m.rows)
    ensures kind == RealElements && m.rows == m.cols && how != "gauss" && how != "det" ==> r == Err(ErrorType)
  {
    if kind == IntegerElements {
      return Err(ErrorType);
    }
    if m.rows != m.cols {
      return Err(ErrorSize);
    }
    if how == "gauss" {
      r := GaussInverse(m);
    } else if how == "det" {
      r := DetInverse(m);
      if r.Ok? {
        DetInverseCorrect(m);
      }
    } else {
      r := Err(ErrorType);
    }
  }
}
