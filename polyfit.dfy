/**
 * polyfit of src/srcMath/myMATH.cpp: the least-squares polynomial of a
 * given order through the points (x[i], y[i]), by the normal equations
 * (X^T X) a = X^T y with the Vandermonde matrix X(i, j) = x[i]^j.
 */
module Polyfit {
  import opened STBCommons
  import opened Matrices
  import opened Gauss
  import Inverse

  /** x^j for a natural exponent, as std::pow computes it for an integral j. */
  function Pow(x: real, j: nat): real {
    if j == 0 then 1.0 else Pow(x, j - 1) * x
  }

  /** The n x m Vandermonde matrix of the abscissas: entry (i, j) is x[i]^j. */
  function Vandermonde(x: seq<real>, m: nat): (X: Matrix)
    ensures X.Valid() && X.rows == |x| && X.cols == m
    ensures forall i, j :: 0 <= i < |x| && 0 <= j < m ==> X.Get(i, j) == Pow(x[i], j)
  {
    Build(|x|, m, (i, j) => if 0 <= i < |x| && 0 <= j then Pow(x[i], j) else 0.0)
  }

  /** A sequence as a column matrix. */
  function Column(y: seq<real>): (Y: Matrix)
    ensures Y.Valid() && Y.rows == |y| && Y.cols == 1
    ensures forall i :: 0 <= i < |y| ==> Y.Get(i, 0) == y[i]
  {
    Build(|y|, 1, (i, j) => if 0 <= i < |y| then y[i] else 0.0)
  }

  /** X^T X for the Vandermonde matrix with m columns. */
  function NormalMatrix(x: seq<real>, m: nat): (G: Matrix)
    ensures G.Valid() && G.rows == m && G.cols == m
  {
    Mul(Transpose(Vandermonde(x, m)), Vandermonde(x, m))
  }

  /** coeff has order + 1 entries and solves the normal equations. */
  ghost predicate NormalSolution(x: seq<real>, y: seq<real>, order: nat, coeff: seq<real>) {
    var X := Vandermonde(x, order + 1);
    |coeff| == order + 1
    && Mul(NormalMatrix(x, order + 1), Column(coeff)) == Mul(Transpose(X), Column(y))
  }

  /**
   * polyfit(coeff, x, y, order): error_size when x and y differ in length,
   * error_range when order < 1, otherwise the order + 1 coefficients from
   * inverse(X^T X, "gauss") * X^T * y. A singular X^T X is reported as
   * ErrorDiv0, as in GaussInverse.
   */
  method Polyfit(x: seq<real>, y: seq<real>, order: int) returns (r: Result<seq<real>>)
    ensures r == Err(ErrorSize) <==> |x| != |y|
    ensures |x| == |y| && order < 1 ==> r == Err(ErrorRange)
    ensures |x| == |y| && 1 <= order ==>
              (r.Err? <==> Singular(NormalMatrix(x, order + 1))) && (r.Err? ==> r.error == ErrorDiv0)
    ensures r.Ok? ==> 1 <= order && NormalSolution(x, y, order, r.value)
  {
    if |x| != |y| {
      return Err(ErrorSize);
    }
    if order < 1 {
      return Err(ErrorRange);
    }
    var X, Y := FillSystem(x, y, order + 1);
    var inv := Inverse.Inverse(Mul(Transpose(X), X), Inverse.RealElements, "gauss");
    if inv.Err? {
      return Err(ErrorDiv0);
    }
    var a_mat := Mul(Mul(inv.value, Transpose(X)), Y);
    var coeff := ColumnEntries(a_mat);
    NormalEquations(Mul(Transpose(X), X), inv.value, Transpose(X), Y);
    return Ok(coeff);
  }

  /** The loops of polyfit that fill x_mat (Vandermonde) and y_mat (the ordinates). */
  method FillSystem(x: seq<real>, y: seq<real>, m: nat) returns (X: Matrix, Y: Matrix)
    requires |x| == |y|
    ensures X == Vandermonde(x, m) && Y == Column(y)
  {
    var n := |x|;
    var x_mat := new real[n, m]((_, _) => 0.0);
    var y_mat := new real[n, 1]((_, _) => 0.0);
    for i := 0 to n
      invariant forall r, c :: 0 <= r < n && 0 <= c < m ==> x_mat[r, c] == if r < i then Pow(x[r], c) else 0.0
      invariant forall r :: 0 <= r < n ==> y_mat[r, 0] == if r < i then y[r] else 0.0
    {
      for j := 0 to m
        invariant forall r, c :: 0 <= r < n && 0 <= c < m ==>
                    x_mat[r, c] == if r < i || (r == i && c < j) then Pow(x[r], c) else 0.0
        invariant forall r :: 0 <= r < n ==> y_mat[r, 0] == if r < i then y[r] else 0.0
      {
        x_mat[i, j] := Pow(x[i], j);
      }
      y_mat[i, 0] := y[i];
    }
    X, Y := Snap(x_mat), Snap(y_mat);
    MatrixExt(X, Vandermonde(x, m));
    MatrixExt(Y, Column(y));
  }

  /** The final loop of polyfit: coeff[i] = a_mat(i, 0) for every row i. */
  method ColumnEntries(a: Matrix) returns (coeff: seq<real>)
    requires a.Valid() && a.cols == 1
    ensures Column(coeff) == a
  {
    var buf := new real[a.rows];
    for i := 0 to a.rows
      invariant forall k :: 0 <= k < i ==> buf[k] == a.Get(k, 0)
    {
      buf[i] := a.Get(i, 0);
    }
    coeff := buf[..];
    MatrixExt(Column(coeff), a);
  }

  /** With G * Z == I, the vector Z * B * Y solves G a = B * Y. */
  lemma NormalEquations(G: Matrix, Z: Matrix, B: Matrix, Y: Matrix)
    requires G.Valid() && Z.Valid() && B.Valid() && Y.Valid()
    requires G.rows == G.cols == Z.rows == Z.cols == B.rows && B.cols == Y.rows
    requires Mul(G, Z) == Identity(G.rows)
    ensures Mul(G, Mul(Mul(Z, B), Y)) == Mul(B, Y)
  {
    MulAssoc(Z, B, Y);
    MulAssoc(G, Z, Mul(B, Y));
    MulIdentity(Mul(B, Y));
  }

  /** The entry-wise difference of two columns. */
  function ColumnMinus(p: Matrix, q: Matrix): (d: Matrix)
    requires p.rows == q.rows
    ensures d.Valid() && d.rows == p.rows && d.cols == 1
    ensures forall i :: 0 <= i < p.rows ==> d.Get(i, 0) == p.Get(i, 0) - q.Get(i, 0)
  {
    Build(p.rows, 1, (i, j) => p.Get(i, 0) - q.Get(i, 0))
  }

  /** The product distributes over the difference of two columns, row by row. */
  lemma MulColumnMinus(A: Matrix, p: Matrix, q: Matrix, i: int)
    requires p.rows == q.rows == A.cols && p.cols == q.cols == 1 && 0 <= i < A.rows
    ensures Mul(A, ColumnMinus(p, q)).Get(i, 0) == Mul(A, p).Get(i, 0) - Mul(A, q).Get(i, 0)
  {
    var d := ColumnMinus(p, q);
    SumAdd(0, A.cols, k => A.Get(i, k) * d.Get(k, 0), k => A.Get(i, k) * q.Get(k, 0), k => A.Get(i, k) * p.Get(k, 0));
  }

  /** Two columns with the same image under a non-singular matrix are equal. */
  lemma NonSingularCancel(A: Matrix, p: Matrix, q: Matrix)
    requires A.Valid() && p.Valid() && q.Valid() && !Singular(A)
    requires p.rows == q.rows == A.cols && p.cols == q.cols == 1
    requires Mul(A, p) == Mul(A, q)
    ensures p == q
  {
    var d := ColumnMinus(p, q);
    forall i, j | 0 <= i < A.rows && 0 <= j < 1
      ensures Mul(A, d).Get(i, j) == 0.0
    {
      MulColumnMinus(A, p, q, i);
    }
    MatrixExt(Mul(A, d), Filled(A.rows, 1, 0.0));
    assert d == Filled(A.cols, 1, 0.0);
    forall i, j | 0 <= i < A.cols && 0 <= j < 1
      ensures p.Get(i, j) == q.Get(i, j)
    {
      assert d.Get(i, 0) == 0.0;
    }
    MatrixExt(p, q);
  }

  /**
   * When the data lie exactly on a polynomial of degree order with
   * coefficients c and X^T X is non-singular, the fitted coefficients are c.
   */
  lemma {:induction false} PolyfitExact(x: seq<real>, y: seq<real>, order: nat, c: seq<real>, coeff: seq<real>)
    requires |x| == |y| && |c| == order + 1
    requires Column(y) == Mul(Vandermonde(x, order + 1), Column(c))
    requires !Singular(NormalMatrix(x, order + 1))
    requires NormalSolution(x, y, order, coeff)
    ensures coeff == c
  {
    var X := Vandermonde(x, order + 1);
    MulAssoc(Transpose(X), X, Column(c));
    NonSingularCancel(NormalMatrix(x, order + 1), Column(coeff), Column(c));
    assert forall i :: 0 <= i < |c| ==> coeff[i] == Column(coeff).Get(i, 0) == Column(c).Get(i, 0) == c[i];
  }
}
