/**
 * The element-wise helpers of inc/libMath/myMATH.h: `eye` and
 * `piecewiseProduct`. Both fill a fresh result buffer in a loop.
 */
module MatrixOps {
  import opened STBCommons
  import opened Matrices

  /** eye(n): the n x n identity, built by setting the diagonal of a zero matrix. */
  method Eye(n: nat) returns (m: Matrix)
    ensures m == Identity(n)
  {
    var res := new real[n, n]((_, _) => 0.0);
    for i := 0 to n
      invariant forall r, c :: 0 <= r < n && 0 <= c < n ==> res[r, c] == if r == c && r < i then 1.0 else 0.0
    {
      res[i, i] := 1.0;
    }
    m := Snap(res);
    MatrixExt(m, Identity(n));
  }

  /**
   * piecewiseProduct(a, b): the element-wise product. Matrices of different
   * shapes are refused with error_size.
   */
  method PiecewiseProduct(a: Matrix, b: Matrix) returns (r: Result<Matrix>)
    requires a.Valid() && b.Valid()
    ensures r.Err? <==> a.rows != b.rows || a.cols != b.cols
    ensures r.Err? ==> r.error == ErrorSize
    ensures r.Ok? ==> r.value.Valid() && r.value.rows == a.rows && r.value.cols == a.cols
    ensures r.Ok? ==> forall i, j :: 0 <= i < a.rows && 0 <= j < a.cols ==>
                        r.value.Get(i, j) == a.Get(i, j) * b.Get(i, j)
  {
    if a.rows != b.rows || a.cols != b.cols {
      return Err(ErrorSize);
    }
    var res := ToArray(a);
    for i := 0 to a.rows
      invariant res.Length0 == a.rows && res.Length1 == a.cols
      invariant forall r, c :: 0 <= r < a.rows && 0 <= c < a.cols ==>
                  res[r, c] == if r < i then a.Get(r, c) * b.Get(r, c) else a.Get(r, c)
    {
      for j := 0 to a.cols
        invariant forall r, c :: 0 <= r < a.rows && 0 <= c < a.cols ==>
                    res[r, c] == if r < i || (r == i && c < j) then a.Get(r, c) * b.Get(r, c) else a.Get(r, c)
      {
        res[i, j] := res[i, j] * b.Get(i, j);
      }
    }
    return Ok(Snap(res));
  }

  /**
   * The element-wise product is commutative, and multiplying by the all-ones
   * matrix of the same shape changes nothing.
   */
  lemma PiecewiseLaws(a: Matrix, b: Matrix, pa: Matrix, pb: Matrix)
    requires a.Valid() && b.Valid() && a.rows == b.rows && a.cols == b.cols
    requires pa.Valid() && pa.rows == a.rows && pa.cols == a.cols
    requires pb.Valid() && pb.rows == a.rows && pb.cols == a.cols
    requires forall i, j :: 0 <= i < a.rows && 0 <= j < a.cols ==> pa.Get(i, j) == a.Get(i, j) * b.Get(i, j)
    requires forall i, j :: 0 <= i < a.rows && 0 <= j < a.cols ==> pb.Get(i, j) == b.Get(i, j) * a.Get(i, j)
    ensures pa == pb
    ensures b == Filled(a.rows, a.cols, 1.0) ==> pa == a
  {
    MatrixExt(pa, pb);
    if b == Filled(a.rows, a.cols, 1.0) {
      MatrixExt(pa, a);
    }
  }
}
