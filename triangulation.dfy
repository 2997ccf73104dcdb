/**
 * `triangulation` of src/srcMath/myMATH.cpp: the point closest, in the
 * least-squares sense, to a set of lines of sight, and the mean distance
 * from that point to the lines.
 *
 * For each line with direction n the C++ builds the 3 x 3 matrix I - n n^T,
 * which projects onto the plane orthogonal to n. Summing those matrices
 * and their products with the reference points gives the normal equations
 * A x = b, solved with the Gauss-Jordan inverse of A.
 */
module Triangulate {
  import opened LibM
  import opened STBCommons
  import opened Matrices
  import opened Gauss
  import opened Inverse
  import opened Geometry

  /** The matrix `temp` built for a line of direction u: I - u u^T. */
  function Projector(u: Pt3D): (m: Matrix)
    ensures m.Valid() && m.rows == 3 && m.cols == 3
  {
    var nx, ny, nz := u.x, u.y, u.z;
    Mat3(1.0 - nx * nx, -nx * ny, -nx * nz,
         -nx * ny, 1.0 - ny * ny, -ny * nz,
         -nx * nz, -ny * nz, 1.0 - nz * nz)
  }

  /** A 3 x 3 matrix applied to a point. */
  function MatVec(M: Matrix, p: Pt3D): Pt3D {
    Pt3D(Dot3D(RowVec(M, 0), p), Dot3D(RowVec(M, 1), p), Dot3D(RowVec(M, 2), p))
  }

  /** The matrix product with a point's column is MatVec. */
  lemma MatVecMul(M: Matrix, p: Pt3D)
    requires M.Valid() && M.rows == 3 && M.cols == 3
    ensures Mul(M, p.AsMatrix()) == MatVec(M, p).AsMatrix()
    ensures Pt3DOf(Mul(M, p.AsMatrix())) == MatVec(M, p)
  {
    Pt3DLayout(p);
    Pt3DLayout(MatVec(M, p));
    assert ColVec(p.AsMatrix(), 0) == p;
    MulDot3D(M, p.AsMatrix(), 0, 0);
    MulDot3D(M, p.AsMatrix(), 1, 0);
    MulDot3D(M, p.AsMatrix(), 2, 0);
    MatrixExt(Mul(M, p.AsMatrix()), MatVec(M, p).AsMatrix());
    Pt3DRoundTrip(MatVec(M, p), Origin3D.AsMatrix());
  }

  /** The projector removes the component along u: (I - u u^T) p == p - (u . p) u. */
  lemma ProjectorApply(u: Pt3D, p: Pt3D)
    ensures MatVec(Projector(u), p) == p.Minus(u.Scale(Dot3D(u, p)))
  {
    var d := Dot3D(u, p);
    ProjectorRows(u);
    RowMinusScaled(Pt3D(1.0, 0.0, 0.0), u, u.x, p);
    RowMinusScaled(Pt3D(0.0, 1.0, 0.0), u, u.y, p);
    RowMinusScaled(Pt3D(0.0, 0.0, 1.0), u, u.z, p);
  }

  /** Row k of the projector is e_k - u_k u. */
  lemma ProjectorRows(u: Pt3D)
    ensures RowVec(Projector(u), 0) == Pt3D(1.0, 0.0, 0.0).Minus(u.Scale(u.x))
    ensures RowVec(Projector(u), 1) == Pt3D(0.0, 1.0, 0.0).Minus(u.Scale(u.y))
    ensures RowVec(Projector(u), 2) == Pt3D(0.0, 0.0, 1.0).Minus(u.Scale(u.z))
  {
  }

  /** (e - c u) . p == e . p - c (u . p) */
  lemma RowMinusScaled(e: Pt3D, u: Pt3D, c: real, p: Pt3D)
    ensures Dot3D(e.Minus(u.Scale(c)), p) == Dot3D(e, p) - c * Dot3D(u, p)
  {
    DotScale(u, p, c);
  }

  /** For a unit u, the projector sends u to the origin. */
  lemma ProjectorKillsDirection(u: Pt3D, t: real)
    requires Dot3D(u, u) == 1.0
    ensures MatVec(Projector(u), u.Scale(t)) == Origin3D
  {
    ProjectorApply(u, u.Scale(t));
    DotSymmetric(u, u.Scale(t));
    DotScale(u, u, t);
  }

  /** A matrix applied to a sum of points, and a sum of matrices applied to a point. */
  lemma MatVecLinear(M: Matrix, N: Matrix, p: Pt3D, q: Pt3D)
    requires M.Valid() && M.rows == 3 && M.cols == 3 && N.Valid() && N.rows == 3 && N.cols == 3
    ensures MatVec(M, p.Plus(q)) == MatVec(M, p).Plus(MatVec(M, q))
    ensures MatVec(Add(M, N), p) == MatVec(M, p).Plus(MatVec(N, p))
  {
    assert RowVec(Add(M, N), 0) == RowVec(M, 0).Plus(RowVec(N, 0));
    assert RowVec(Add(M, N), 1) == RowVec(M, 1).Plus(RowVec(N, 1));
    assert RowVec(Add(M, N), 2) == RowVec(M, 2).Plus(RowVec(N, 2));
  }

  /** mtx after the first loop: the sum of the projectors of all lines. */
  function SystemMatrix(lines: seq<Line3D>): (m: Matrix)
    ensures m.Valid() && m.rows == 3 && m.cols == 3
  {
    if |lines| == 0 then Filled(3, 3, 0.0)
    else Add(SystemMatrix(lines[..|lines| - 1]), Projector(lines[|lines| - 1].unit_vector))
  }

  /** pt_3d after the first loop: the sum of the projected reference points. */
  function SystemRhs(lines: seq<Line3D>): Pt3D {
    if |lines| == 0 then Origin3D
    else
      var l := lines[|lines| - 1];
      SystemRhs(lines[..|lines| - 1]).Plus(Pt3DOf(Mul(Projector(l.unit_vector), l.pt.AsMatrix())))
  }

  /** x lies on the line. */
  ghost predicate OnLine(x: Pt3D, l: Line3D) {
    exists t: real :: x == l.pt.Plus(l.unit_vector.Scale(t))
  }

  /** Every line has a unit direction and passes through x. */
  ghost predicate Concurrent(lines: seq<Line3D>, x: Pt3D) {
    forall k :: 0 <= k < |lines| ==> Dot3D(lines[k].unit_vector, lines[k].unit_vector) == 1.0 && OnLine(x, lines[k])
  }

  /**
   * mtx * pt == pt_3d: pt solves the normal equations of the lines, and
   * mtx is not singular, so that the solution is unique.
   */
  ghost predicate LeastSquaresPoint(lines: seq<Line3D>, pt: Pt3D) {
    !Singular(SystemMatrix(lines)) && Mul(SystemMatrix(lines), pt.AsMatrix()) == SystemRhs(lines).AsMatrix()
  }

  /** For a line through x, its projector maps x to the same point as the line's reference point. */
  lemma ProjectorOnLine(l: Line3D, x: Pt3D)
    requires Dot3D(l.unit_vector, l.unit_vector) == 1.0 && OnLine(x, l)
    ensures MatVec(Projector(l.unit_vector), x) == MatVec(Projector(l.unit_vector), l.pt)
  {
    var u := l.unit_vector;
    var t :| x == l.pt.Plus(u.Scale(t));
    var P := Projector(u);
    MatVecLinear(P, P, l.pt, u.Scale(t));
    ProjectorKillsDirection(u, t);
  }

  /**
   * A point common to all the lines solves the normal equations: the
   * summed projectors map it to the summed right-hand side.
   */
  lemma {:induction false} CommonPointSolves(lines: seq<Line3D>, x: Pt3D)
    requires Concurrent(lines, x)
    ensures MatVec(SystemMatrix(lines), x) == SystemRhs(lines)
  {
    if |lines| > 0 {
      var pre, l := lines[..|lines| - 1], lines[|lines| - 1];
      assert Concurrent(pre, x) by {
        forall k | 0 <= k < |pre|
          ensures Dot3D(pre[k].unit_vector, pre[k].unit_vector) == 1.0 && OnLine(x, pre[k])
        {
          assert pre[k] == lines[k];
        }
      }
      CommonPointSolves(pre, x);
      var P := Projector(l.unit_vector);
      MatVecLinear(SystemMatrix(pre), P, x, x);
      ProjectorOnLine(l, x);
      MatVecMul(P, l.pt);
    } else {
      assert MatVec(Filled(3, 3, 0.0), x) == Origin3D;
    }
  }

  /** A 3 x 3 matrix applied to a difference of points. */
  lemma MatVecMinus(A: Matrix, p: Pt3D, q: Pt3D)
    ensures MatVec(A, p.Minus(q)) == MatVec(A, p).Minus(MatVec(A, q))
  {
  }

  /** Two points with the same image under a non-singular 3 x 3 matrix are equal. */
  lemma NonSingularInjective(A: Matrix, p: Pt3D, q: Pt3D)
    requires A.Valid() && A.rows == A.cols == 3 && !Singular(A)
    requires MatVec(A, p) == MatVec(A, q)
    ensures p == q
  {
    var d := p.Minus(q);
    MatVecMinus(A, p, q);
    MatVecMul(A, d);
    Pt3DLayout(d);
    Pt3DRoundTrip(d, Origin3D.AsMatrix());
    assert Mul(A, d.AsMatrix()) == Filled(3, 1, 0.0);
    if d.AsMatrix() == Filled(3, 1, 0.0) {
      Pt3DRoundTrip(Origin3D, Origin3D.AsMatrix());
      assert d == Origin3D;
    }
  }

  /**
   * The per-line term of the error: h = |d|^2 - (d . n)^2 with d the offset
   * of the point from the line's reference point. A slightly negative h (not
   * below -SMALLNUMBER) counts as 0, a more negative one is error_range,
   * otherwise the term is sqrt(h).
   */
  function LineError(pt: Pt3D, l: Line3D): (r: Result<real>)
    ensures r.Err? <==> Sq(Norm3D(pt.Minus(l.pt))) - Sq(Dot3D(pt.Minus(l.pt), l.unit_vector)) < -SMALLNUMBER
    ensures r.Err? ==> r.error == ErrorRange
    ensures r.Ok? && SqrtLaw() ==> 0.0 <= r.value
  {
    var diff := pt.Minus(l.pt);
    var h := Sq(Norm3D(diff)) - Sq(Dot3D(diff, l.unit_vector));
    if h < 0.0 && h >= -SMALLNUMBER then Ok(0.0)
    else if h < -SMALLNUMBER then Err(ErrorRange)
    else Ok(Sqrt(h))
  }

  /** The sum of the per-line terms, in order; the first error_range stops it. */
  function ErrorSum(pt: Pt3D, lines: seq<Line3D>): Result<real> {
    if |lines| == 0 then Ok(0.0)
    else
      match ErrorSum(pt, lines[..|lines| - 1])
      case Err(e) => Err(e)
      case Ok(s) =>
        match LineError(pt, lines[|lines| - 1])
        case Err(e) => Err(e)
        case Ok(h) => Ok(s + h)
  }

  /** The sum is error_range exactly when one of the lines is. */
  lemma {:induction false} ErrorSumFails(pt: Pt3D, lines: seq<Line3D>)
    ensures ErrorSum(pt, lines).Err? <==> exists k :: 0 <= k < |lines| && LineError(pt, lines[k]).Err?
    ensures ErrorSum(pt, lines).Err? ==> ErrorSum(pt, lines).error == ErrorRange
  {
    if |lines| > 0 {
      var pre := lines[..|lines| - 1];
      ErrorSumFails(pt, pre);
      assert forall k :: 0 <= k < |pre| ==> pre[k] == lines[k];
    }
  }

  /** With a square root that behaves, the error sum is never negative. */
  lemma {:induction false} ErrorSumNonNegative(pt: Pt3D, lines: seq<Line3D>)
    requires SqrtLaw() && ErrorSum(pt, lines).Ok?
    ensures 0.0 <= ErrorSum(pt, lines).value
  {
    if |lines| > 0 {
      ErrorSumNonNegative(pt, lines[..|lines| - 1]);
    }
  }

  /** A point on a line with a unit direction contributes 0 to the error. */
  lemma LineErrorOnLine(l: Line3D, x: Pt3D)
    requires SqrtLaw() && Dot3D(l.unit_vector, l.unit_vector) == 1.0 && OnLine(x, l)
    ensures LineError(x, l) == Ok(0.0)
  {
    var u := l.unit_vector;
    var t :| x == l.pt.Plus(u.Scale(t));
    var d := x.Minus(l.pt);
    assert d == u.Scale(t);
    var proj := Dot3D(d, u);
    assert proj == t by {
      DotScale(u, u, t);
    }
    assert Sq(Norm3D(d)) == Sq(proj) by {
      DotScale(u, u.Scale(t), t);
      DotSymmetric(u, u.Scale(t));
      assert Dot3D(d, d) == t * t;
    }
    SqrtZero();
  }

  /** For lines through a common point, the error sum at that point is 0. */
  lemma {:induction false} ErrorSumConcurrent(lines: seq<Line3D>, x: Pt3D)
    requires SqrtLaw() && Concurrent(lines, x)
    ensures ErrorSum(x, lines) == Ok(0.0)
  {
    if |lines| > 0 {
      var pre := lines[..|lines| - 1];
      assert Concurrent(pre, x) by {
        forall k | 0 <= k < |pre|
          ensures Dot3D(pre[k].unit_vector, pre[k].unit_vector) == 1.0 && OnLine(x, pre[k])
        {
          assert pre[k] == lines[k];
        }
      }
      ErrorSumConcurrent(pre, x);
      LineErrorOnLine(lines[|lines| - 1], x);
    }
  }

  /** error /= n: the sum spread over the lines. */
  function Mean(total: real, n: nat): (r: real)
    requires 0 < n
    ensures r * n as real == total
    ensures total == 0.0 ==> r == 0.0
    ensures 0.0 <= total ==> 0.0 <= r
  {
    total / n as real
  }

  /** The output of triangulation: pt_world and error. */
  datatype Triangulated = Triangulated(pt_world: Pt3D, error: real)

  /**
   * triangulation(pt_world, error, line_of_sight_list). Fewer than two
   * lines is error_size. A singular system (the lines are all parallel)
   * is error_div0, reported by the Gauss-Jordan inverse. Otherwise the
   * point solves the normal equations, and the error is the mean of the
   * per-line terms, unless one of them is error_range.
   */
  method Triangulation(lines: seq<Line3D>) returns (r: Result<Triangulated>)
    ensures r.Err? ==> r.error == ErrorSize || r.error == ErrorDiv0 || r.error == ErrorRange
    ensures r == Err(ErrorSize) <==> |lines| < 2
    ensures r.Ok? ==> ErrorSum(r.value.pt_world, lines).Ok?
                      && r.value.error == Mean(ErrorSum(r.value.pt_world, lines).value, |lines|)
    ensures r == Err(ErrorDiv0) <==> 2 <= |lines| && Singular(SystemMatrix(lines))
    ensures r == Err(ErrorRange) ==> exists pt :: LeastSquaresPoint(lines, pt) && ErrorSum(pt, lines).Err?
    ensures r.Ok? ==> LeastSquaresPoint(lines, r.value.pt_world)
  {
    var n := |lines|;
    if n < 2 {
      return Err(ErrorSize);
    }
    var mtx, pt_3d := NormalEquations(lines);
    var solved := Solve(mtx, pt_3d);
    if solved.Err? {
      return Err(ErrorDiv0);
    }
    var pt_world := solved.value;
    var sum := SumLineErrors(pt_world, lines);
    if sum.Err? {
      return Err(ErrorRange);
    }
    var error := Mean(sum.value, n);
    return Ok(Triangulated(pt_world, error));
  }

  /**
   * The second loop of triangulation: the sum over the lines of the
   * per-line terms at pt_world, stopping at the first error_range.
   */
  method SumLineErrors(pt_world: Pt3D, lines: seq<Line3D>) returns (r: Result<real>)
    ensures r == ErrorSum(pt_world, lines)
  {
    var error := 0.0;
    for i := 0 to |lines|
      invariant ErrorSum(pt_world, lines[..i]) == Ok(error)
    {
      var diff_vec := pt_world.Minus(lines[i].pt);
      var proj := Dot(diff_vec, lines[i].unit_vector);
      var h := Sq(Norm3D(diff_vec)) - Sq(proj);
      if h < 0.0 && h >= -SMALLNUMBER {
        h := 0.0;
      } else if h < -SMALLNUMBER {
        ErrorSumStop(pt_world, lines, i);
        ErrorSumFails(pt_world, lines);
        return Err(ErrorRange);
      } else {
        h := Sqrt(h);
      }
      ErrorSumStep(pt_world, lines, i, error, h);
      error := error + h;
    }
    assert lines[..|lines|] == lines;
    return Ok(error);
  }

  /** One more line added to the running error sum. */
  lemma ErrorSumStep(pt: Pt3D, lines: seq<Line3D>, i: int, s: real, h: real)
    requires 0 <= i < |lines| && ErrorSum(pt, lines[..i]) == Ok(s) && LineError(pt, lines[i]) == Ok(h)
    ensures ErrorSum(pt, lines[..i + 1]) == Ok(s + h)
  {
    assert lines[..i + 1][..i] == lines[..i];
  }

  /** A line whose term is error_range makes the whole sum error_range. */
  lemma ErrorSumStop(pt: Pt3D, lines: seq<Line3D>, i: int)
    requires 0 <= i < |lines| && ErrorSum(pt, lines[..i]).Ok? && LineError(pt, lines[i]).Err?
    ensures ErrorSum(pt, lines).Err?
  {
    assert lines[..i + 1][..i] == lines[..i];
    ErrorSumPrefix(pt, lines, i + 1);
  }

  /**
   * The first loop of triangulation: mtx and pt_3d accumulated over the
   * lines, each line adding its projector and its projected reference point.
   */
  method NormalEquations(lines: seq<Line3D>) returns (mtx: Matrix, pt_3d: Pt3D)
    ensures mtx == SystemMatrix(lines) && pt_3d == SystemRhs(lines)
  {
    mtx := Filled(3, 3, 0.0);
    pt_3d := Origin3D;
    for i := 0 to |lines|
      invariant mtx == SystemMatrix(lines[..i]) && pt_3d == SystemRhs(lines[..i])
    {
      assert lines[..i + 1][..i] == lines[..i];
      var temp := Projector(lines[i].unit_vector);
      pt_3d := pt_3d.Plus(Pt3DOf(Mul(temp, lines[i].pt.AsMatrix())));
      mtx := Add(mtx, temp);
    }
    assert lines[..|lines|] == lines;
  }

  /** A matrix with a left inverse is not singular. */
  lemma LeftInverseNotSingular(A: Matrix, X: Matrix)
    requires X.cols == A.rows && Mul(X, A) == Identity(A.cols)
    ensures !Singular(A)
  {
    if Singular(A) {
      SingularNoInverse(A, X);
    }
  }

  /**
   * pt_world = inverse(mtx) * pt_3d, with the Gauss-Jordan inverse: the
   * unique solution of the 3 x 3 system, or error_div0 when the matrix is
   * singular.
   */
  method Solve(A: Matrix, b: Pt3D) returns (r: Result<Pt3D>)
    requires A.Valid() && A.rows == A.cols == 3
    ensures r.Err? <==> Singular(A)
    ensures r.Err? ==> r.error == ErrorDiv0
    ensures r.Ok? ==> Mul(A, r.value.AsMatrix()) == b.AsMatrix()
  {
    var inv := Inverse.Inverse(A, RealElements, "gauss");
    if inv.Err? {
      return Err(ErrorDiv0);
    }
    var X := inv.value;
    RightInverseTwoSided(A, X);
    LeftInverseNotSingular(A, X);
    InverseSolves(A, X, b);
    var pt := Pt3DOf(Mul(X, b.AsMatrix()));
    MatVecMul(A, pt);
    return Ok(pt);
  }

  /** The normal equations have at most one solution. */
  lemma LeastSquaresUnique(lines: seq<Line3D>, p: Pt3D, q: Pt3D)
    requires LeastSquaresPoint(lines, p) && LeastSquaresPoint(lines, q)
    ensures p == q
  {
    MatVecMul(SystemMatrix(lines), p);
    MatVecMul(SystemMatrix(lines), q);
    Pt3DRoundTrip(MatVec(SystemMatrix(lines), p), Origin3D.AsMatrix());
    Pt3DRoundTrip(MatVec(SystemMatrix(lines), q), Origin3D.AsMatrix());
    NonSingularInjective(SystemMatrix(lines), p, q);
  }

  /** X * b solves A x = b when A * X == I. */
  lemma InverseSolves(A: Matrix, X: Matrix, b: Pt3D)
    requires A.Valid() && A.rows == A.cols == 3 && X.Valid() && X.rows == X.cols == 3
    requires Mul(A, X) == Identity(3)
    ensures MatVec(A, Pt3DOf(Mul(X, b.AsMatrix()))) == b
  {
    MatVecMul(X, b);
    var y := MatVec(X, b);
    MatVecMul(A, y);
    MulAssoc(A, X, b.AsMatrix());
    Pt3DLayout(b);
    MulIdentity(b.AsMatrix());
    Pt3DRoundTrip(b, Origin3D.AsMatrix());
  }

  /** An error in a prefix of the lines is an error of the whole sum. */
  lemma {:induction false} ErrorSumPrefix(pt: Pt3D, lines: seq<Line3D>, i: int)
    requires 0 <= i <= |lines| && ErrorSum(pt, lines[..i]).Err?
    ensures ErrorSum(pt, lines).Err?
    decreases |lines| - i
  {
    if i < |lines| {
      assert lines[..i + 1][..i] == lines[..i];
      ErrorSumPrefix(pt, lines, i + 1);
    } else {
      assert lines[..i] == lines;
    }
  }

  /**
   * When all lines pass through x with unit directions, a successful
   * triangulation recovers x exactly, with zero error.
   */
  lemma TriangulationExact(lines: seq<Line3D>, x: Pt3D, res: Triangulated)
    requires SqrtLaw() && 2 <= |lines| && Concurrent(lines, x)
    requires LeastSquaresPoint(lines, res.pt_world)
    requires ErrorSum(res.pt_world, lines).Ok? && res.error == Mean(ErrorSum(res.pt_world, lines).value, |lines|)
    ensures res.pt_world == x && res.error == 0.0
  {
    CommonPointSolves(lines, x);
    var A := SystemMatrix(lines);
    MatVecMul(A, res.pt_world);
    Pt3DRoundTrip(MatVec(A, res.pt_world), Origin3D.AsMatrix());
    NonSingularInjective(A, res.pt_world, x);
    ErrorSumConcurrent(lines, x);
  }
}
