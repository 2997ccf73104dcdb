/**
 * The dense matrix of inc/libMath/Matrix.h as a value: `rows` x `cols`
 * reals kept as a sequence of rows, with the C++ flat row-major buffer
 * available as `Flat()` / `At(k)`; plus the point, line and image types
 * built on it.
 *
 * The C++ class owns a heap buffer, but its copy constructor and
 * `operator=` make deep copies, so two matrices never share storage; a
 * Dafny value has exactly that behaviour. The algorithms that update a
 * matrix element by element in place work on a two-dimensional array,
 * and `Snap` / `ToArray` move between the array and the value.
 */
module Matrices {
  import opened LibM

  // ---------------------------------------------------------------------
  // Row-major index arithmetic
  // ---------------------------------------------------------------------

  lemma MulMonotone(a: int, b: int, c: nat)
    requires a <= b
    ensures a * c <= b * c
  {
    var d := b - a;
    assert b * c == a * c + d * c;
  }

  lemma DivModUnique(x: int, d: nat, q: int, r: int)
    requires d > 0 && x == q * d + r && 0 <= r < d
    ensures x / d == q && x % d == r
  {
    var q' := x / d;
    assert (q + 1) * d == q * d + d;
    assert (q' + 1) * d == q' * d + d;
    if q' > q {
      MulMonotone(q + 1, q', d);
    } else if q' < q {
      MulMonotone(q' + 1, q, d);
    }
  }

  lemma FlatIndexFacts(rows: nat, cols: nat, i: nat, j: nat)
    requires i < rows && j < cols
    ensures i * cols + j < rows * cols
    ensures (i * cols + j) / cols == i && (i * cols + j) % cols == j
  {
    MulMonotone(i + 1, rows, cols);
    assert (i + 1) * cols == i * cols + cols;
    DivModUnique(i * cols + j, cols, i, j);
  }

  lemma FlatIndexOnto(rows: nat, cols: nat, k: nat)
    requires k < rows * cols
    ensures cols > 0 && k / cols < rows && (k / cols) * cols + k % cols == k
  {
    if k / cols >= rows {
      MulMonotone(rows, k / cols, cols);
    }
  }

  /**
   * mapID: element (i, j) of a rows x cols matrix sits at flat position
   * i * cols + j, so that rows are laid out one after the other.
   */
  function FlatIndex(rows: nat, cols: nat, i: nat, j: nat): (k: nat)
    requires i < rows && j < cols
    ensures k < rows * cols
  {
    FlatIndexFacts(rows, cols, i, j);
    i * cols + j
  }

  /** Every flat position is the position of exactly one (row, column) pair. */
  lemma FlatIndexBijective(rows: nat, cols: nat, k: nat)
    requires k < rows * cols
    ensures cols > 0 && k / cols < rows && k % cols < cols
    ensures FlatIndex(rows, cols, k / cols, k % cols) == k
  {
    FlatIndexOnto(rows, cols, k);
  }

  /** The row and the column are recovered from the flat position. */
  lemma FlatIndexInverse(rows: nat, cols: nat, i: nat, j: nat)
    requires i < rows && j < cols
    ensures FlatIndex(rows, cols, i, j) / cols == i && FlatIndex(rows, cols, i, j) % cols == j
  {
    FlatIndexFacts(rows, cols, i, j);
  }

  // ---------------------------------------------------------------------
  // Finite sums
  // ---------------------------------------------------------------------

  /** f(lo) + ... + f(hi - 1); zero for an empty range. */
  function Sum(lo: int, hi: int, f: int -> real): real
    decreases hi - lo
  {
    if hi <= lo then 0.0 else Sum(lo, hi - 1, f) + f(hi - 1)
  }

  lemma {:induction false} SumExt(lo: int, hi: int, f: int -> real, g: int -> real)
    requires forall k :: lo <= k < hi ==> f(k) == g(k)
    ensures Sum(lo, hi, f) == Sum(lo, hi, g)
    decreases hi - lo
  {
    if lo < hi {
      SumExt(lo, hi - 1, f, g);
    }
  }

  lemma {:induction false} SumZero(lo: int, hi: int, f: int -> real)
    requires forall k :: lo <= k < hi ==> f(k) == 0.0
    ensures Sum(lo, hi, f) == 0.0
    decreases hi - lo
  {
    if lo < hi {
      SumZero(lo, hi - 1, f);
    }
  }

  /** The sum of a pointwise sum is the sum of the two sums. */
  lemma {:induction false} SumAdd(lo: int, hi: int, f: int -> real, g: int -> real, h: int -> real)
    requires forall k :: lo <= k < hi ==> h(k) == f(k) + g(k)
    ensures Sum(lo, hi, h) == Sum(lo, hi, f) + Sum(lo, hi, g)
    decreases hi - lo
  {
    if lo < hi {
      SumAdd(lo, hi - 1, f, g, h);
    }
  }

  /** A constant factor moves out of a sum. */
  lemma {:induction false} SumScale(lo: int, hi: int, c: real, f: int -> real, g: int -> real)
    requires forall k :: lo <= k < hi ==> g(k) == c * f(k)
    ensures Sum(lo, hi, g) == c * Sum(lo, hi, f)
    decreases hi - lo
  {
    if lo < hi {
      SumScale(lo, hi - 1, c, f, g);
      assert c * (Sum(lo, hi - 1, f) + f(hi - 1)) == c * Sum(lo, hi - 1, f) + c * f(hi - 1);
    }
  }

  lemma {:induction false} SumSplit(lo: int, mid: int, hi: int, f: int -> real)
    requires lo <= mid <= hi
    ensures Sum(lo, hi, f) == Sum(lo, mid, f) + Sum(mid, hi, f)
    decreases hi - mid
  {
    if mid < hi {
      SumSplit(lo, mid, hi - 1, f);
    }
  }

  /** A sum with a single non-zero term at k0 equals that term. */
  lemma SumSingle(lo: int, hi: int, k0: int, f: int -> real)
    requires lo <= k0 < hi
    requires forall k :: lo <= k < hi && k != k0 ==> f(k) == 0.0
    ensures Sum(lo, hi, f) == f(k0)
  {
    SumSplit(lo, k0, hi, f);
    SumZero(lo, k0, f);
    SumSplit(k0, k0 + 1, hi, f);
    SumZero(k0 + 1, hi, f);
  }

  /** Row sum of a two-argument term: F(i, 0) + ... + F(i, m - 1). */
  function RowSum(m: int, F: (int, int) -> real, i: int): real {
    Sum(0, m, j => F(i, j))
  }

  /** Column sum of a two-argument term: F(0, j) + ... + F(n - 1, j). */
  function ColSum(n: int, F: (int, int) -> real, j: int): real {
    Sum(0, n, i => F(i, j))
  }

  /** The order of a finite double sum does not matter. */
  lemma {:induction false} SumSwap(n: int, m: int, F: (int, int) -> real)
    ensures Sum(0, n, i => RowSum(m, F, i)) == Sum(0, m, j => ColSum(n, F, j))
    decreases n
  {
    if 0 < n {
      SumSwap(n - 1, m, F);
      SumAdd(0, m, j => ColSum(n - 1, F, j), j => F(n - 1, j), j => ColSum(n, F, j));
    } else {
      SumZero(0, m, j => ColSum(n, F, j));
    }
  }

  // ---------------------------------------------------------------------
  // Matrices
  // ---------------------------------------------------------------------

  /**
   * A rows x cols matrix. `data` holds the rows; the C++ class keeps the
   * same elements in one flat buffer, and `Flat` / `At` give that view.
   */
  datatype Matrix = Matrix(rows: nat, cols: nat, data: seq<seq<real>>) {
    /** Every row has `cols` elements and there are `rows` rows. */
    predicate Valid() {
      |data| == rows && forall r :: 0 <= r < |data| ==> |data[r]| == cols
    }

    /** operator()(i, j); zero outside the matrix, so that it is total. */
    function Get(i: int, j: int): real {
      if 0 <= i < |data| && 0 <= j < |data[i]| then data[i][j] else 0.0
    }

    /** The flat row-major buffer: the rows one after the other. */
    function Flat(): seq<real> {
      FlatRows(data)
    }

    /** operator[](k): element k of the flat buffer; zero outside. */
    function At(k: int): real {
      if 0 <= k < |Flat()| then Flat()[k] else 0.0
    }
  }

  function FlatRows(rows: seq<seq<real>>): seq<real> {
    if |rows| == 0 then [] else FlatRows(rows[..|rows| - 1]) + rows[|rows| - 1]
  }

  lemma {:induction false} FlatRowsLength(rows: seq<seq<real>>, cols: nat)
    requires forall r :: 0 <= r < |rows| ==> |rows[r]| == cols
    ensures |FlatRows(rows)| == |rows| * cols
  {
    if |rows| > 0 {
      FlatRowsLength(rows[..|rows| - 1], cols);
      assert (|rows| - 1) * cols + cols == |rows| * cols;
    }
  }

  lemma {:induction false} FlatRowsIndex(rows: seq<seq<real>>, cols: nat, i: nat, j: nat)
    requires forall r :: 0 <= r < |rows| ==> |rows[r]| == cols
    requires i < |rows| && j < cols
    ensures |FlatRows(rows)| == |rows| * cols
    ensures FlatIndex(|rows|, cols, i, j) < |FlatRows(rows)|
    ensures FlatRows(rows)[FlatIndex(|rows|, cols, i, j)] == rows[i][j]
  {
    FlatRowsLength(rows, cols);
    var init := rows[..|rows| - 1];
    FlatRowsLength(init, cols);
    if i < |rows| - 1 {
      FlatRowsIndex(init, cols, i, j);
    } else {
      assert FlatIndex(|rows|, cols, i, j) == |init| * cols + j;
    }
  }

  /**
   * The flat buffer is row-major: element (i, j) is at flat index
   * i * cols + j (mapID), and every flat index is some element (i, j).
   */
  lemma FlatLayout(m: Matrix, i: nat, j: nat, k: nat)
    requires m.Valid()
    ensures |m.Flat()| == m.rows * m.cols
    ensures i < m.rows && j < m.cols ==> m.At(FlatIndex(m.rows, m.cols, i, j)) == m.Get(i, j)
    ensures k < m.rows * m.cols ==> m.At(k) == m.Get(k / m.cols, k % m.cols)
  {
    FlatRowsLength(m.data, m.cols);
    if i < m.rows && j < m.cols {
      FlatRowsIndex(m.data, m.cols, i, j);
    }
    if k < m.rows * m.cols {
      FlatIndexBijective(m.rows, m.cols, k);
      FlatRowsIndex(m.data, m.cols, k / m.cols, k % m.cols);
    }
  }

  /** The matrix with element (i, j) equal to f(i, j). */
  function Build(rows: nat, cols: nat, f: (int, int) -> real): (m: Matrix)
    ensures m.Valid() && m.rows == rows && m.cols == cols
    ensures forall i, j :: 0 <= i < rows && 0 <= j < cols ==> m.Get(i, j) == f(i, j)
  {
    Matrix(rows, cols, seq(rows, i => seq(cols, j => f(i, j))))
  }

  /** The 3 x 3 matrix with the given rows. */
  function Mat3(a: real, b: real, c: real, d: real, e: real, f: real, g: real, h: real, k: real): (m: Matrix)
    ensures m.Valid() && m.rows == 3 && m.cols == 3
    ensures m.Get(0, 0) == a && m.Get(0, 1) == b && m.Get(0, 2) == c
    ensures m.Get(1, 0) == d && m.Get(1, 1) == e && m.Get(1, 2) == f
    ensures m.Get(2, 0) == g && m.Get(2, 1) == h && m.Get(2, 2) == k
  {
    Matrix(3, 3, [[a, b, c], [d, e, f], [g, h, k]])
  }

  /** Two matrices of the same shape with the same elements are equal. */
  lemma MatrixExt(a: Matrix, b: Matrix)
    requires a.Valid() && b.Valid() && a.rows == b.rows && a.cols == b.cols
    requires forall i, j :: 0 <= i < a.rows && 0 <= j < a.cols ==> a.Get(i, j) == b.Get(i, j)
    ensures a == b
  {
    forall i | 0 <= i < a.rows
      ensures a.data[i] == b.data[i]
    {
      assert forall j :: 0 <= j < a.cols ==> a.data[i][j] == a.Get(i, j);
    }
  }

  /** Matrix(dim_row, dim_col, val) */
  function Filled(rows: nat, cols: nat, val: real): (m: Matrix)
    ensures m.Valid() && m.rows == rows && m.cols == cols
    ensures forall i, j :: 0 <= i < rows && 0 <= j < cols ==> m.Get(i, j) == val
  {
    Build(rows, cols, (_, _) => val)
  }

  function Identity(n: nat): (m: Matrix)
    ensures m.Valid() && m.rows == n && m.cols == n
    ensures forall i, j :: 0 <= i < n && 0 <= j < n ==> m.Get(i, j) == if i == j then 1.0 else 0.0
  {
    Build(n, n, (i, j) => if i == j then 1.0 else 0.0)
  }

  /** Entry (i, j) of the product a * b: row i of a against column j of b. */
  function RowCol(a: Matrix, b: Matrix, i: int, j: int): real {
    Sum(0, a.cols, k => a.Get(i, k) * b.Get(k, j))
  }

  /** operator*(Matrix); the shapes are taken to agree (a.cols == b.rows). */
  function Mul(a: Matrix, b: Matrix): (m: Matrix)
    ensures m.Valid() && m.rows == a.rows && m.cols == b.cols
    ensures forall i, j :: 0 <= i < a.rows && 0 <= j < b.cols ==> m.Get(i, j) == RowCol(a, b, i, j)
  {
    Build(a.rows, b.cols, (i, j) => RowCol(a, b, i, j))
  }

  function Transpose(m: Matrix): (t: Matrix)
    ensures t.Valid() && t.rows == m.cols && t.cols == m.rows
    ensures forall i, j :: 0 <= i < m.cols && 0 <= j < m.rows ==> t.Get(i, j) == m.Get(j, i)
  {
    Build(m.cols, m.rows, (i, j) => m.Get(j, i))
  }

  function Add(a: Matrix, b: Matrix): (m: Matrix)
    ensures m.Valid() && m.rows == a.rows && m.cols == a.cols
    ensures forall i, j :: 0 <= i < a.rows && 0 <= j < a.cols ==> m.Get(i, j) == a.Get(i, j) + b.Get(i, j)
  {
    Build(a.rows, a.cols, (i, j) => a.Get(i, j) + b.Get(i, j))
  }

  // ---------------------------------------------------------------------
  // Array buffers
  // ---------------------------------------------------------------------

  function RowOf(u: array2<real>, r: int): seq<real>
    reads u
    requires 0 <= r < u.Length0
  {
    seq(u.Length1, j requires 0 <= j < u.Length1 reads u => u[r, j])
  }

  /** The current contents of a two-dimensional array, as a matrix value. */
  function Snap(u: array2<real>): (m: Matrix)
    reads u
    ensures m.Valid() && m.rows == u.Length0 && m.cols == u.Length1
    ensures forall i, j :: 0 <= i < u.Length0 && 0 <= j < u.Length1 ==> m.Get(i, j) == u[i, j]
  {
    Matrix(u.Length0, u.Length1, seq(u.Length0, i requires 0 <= i < u.Length0 reads u => RowOf(u, i)))
  }

  /** A copy of a matrix value as a two-dimensional array. */
  method ToArray(M: Matrix) returns (a: array2<real>)
    requires M.Valid()
    ensures fresh(a) && Snap(a) == M
  {
    a := new real[M.rows, M.cols]((i, j) => M.Get(i, j));
    MatrixExt(Snap(a), M);
  }

  /** The identity is neutral on both sides of the product. */
  lemma MulIdentity(a: Matrix)
    requires a.Valid()
    ensures Mul(Identity(a.rows), a) == a
    ensures Mul(a, Identity(a.cols)) == a
  {
    var I := Identity(a.rows);
    forall i, j | 0 <= i < a.rows && 0 <= j < a.cols
      ensures Mul(I, a).Get(i, j) == a.Get(i, j)
    {
      SumSingle(0, a.rows, i, k => I.Get(i, k) * a.Get(k, j));
    }
    MatrixExt(Mul(I, a), a);
    var J := Identity(a.cols);
    forall i, j | 0 <= i < a.rows && 0 <= j < a.cols
      ensures Mul(a, J).Get(i, j) == a.Get(i, j)
    {
      SumSingle(0, a.cols, j, k => a.Get(i, k) * J.Get(k, j));
    }
    MatrixExt(Mul(a, J), a);
  }

  lemma Reassociate(x: real, y: real, z: real)
    ensures x * y * z == z * (x * y) && x * y * z == x * (y * z)
  {
  }

  /** The terms a(i, l) * b(l, k) * c(k, j) of entry (i, j) of a * b * c. */
  function Triple(a: Matrix, b: Matrix, c: Matrix, i: int, j: int): (int, int) -> real {
    (k, l) => a.Get(i, l) * b.Get(l, k) * c.Get(k, j)
  }

  lemma TripleRow(a: Matrix, b: Matrix, c: Matrix, i: int, j: int, k: int)
    requires a.cols == b.rows && 0 <= i < a.rows && 0 <= k < b.cols
    ensures Mul(a, b).Get(i, k) * c.Get(k, j) == RowSum(a.cols, Triple(a, b, c, i, j), k)
  {
    var G := Triple(a, b, c, i, j);
    assert Mul(a, b).Get(i, k) == RowCol(a, b, i, k);
    forall l
      ensures G(k, l) == c.Get(k, j) * (a.Get(i, l) * b.Get(l, k))
    {
      Reassociate(a.Get(i, l), b.Get(l, k), c.Get(k, j));
    }
    SumScale(0, a.cols, c.Get(k, j), l => a.Get(i, l) * b.Get(l, k), l => G(k, l));
  }

  lemma TripleCol(a: Matrix, b: Matrix, c: Matrix, i: int, j: int, l: int)
    requires b.cols == c.rows && 0 <= l < b.rows && 0 <= j < c.cols
    ensures a.Get(i, l) * Mul(b, c).Get(l, j) == ColSum(b.cols, Triple(a, b, c, i, j), l)
  {
    var G := Triple(a, b, c, i, j);
    assert Mul(b, c).Get(l, j) == RowCol(b, c, l, j);
    forall k
      ensures G(k, l) == a.Get(i, l) * (b.Get(l, k) * c.Get(k, j))
    {
      Reassociate(a.Get(i, l), b.Get(l, k), c.Get(k, j));
    }
    SumScale(0, b.cols, a.Get(i, l), k => b.Get(l, k) * c.Get(k, j), k => G(k, l));
  }

  lemma MulAssocLeft(a: Matrix, b: Matrix, c: Matrix, i: int, j: int)
    requires a.cols == b.rows && b.cols == c.rows
    requires 0 <= i < a.rows && 0 <= j < c.cols
    ensures Mul(Mul(a, b), c).Get(i, j) == Sum(0, b.cols, k => RowSum(a.cols, Triple(a, b, c, i, j), k))
  {
    var ab := Mul(a, b);
    forall k | 0 <= k < b.cols
      ensures ab.Get(i, k) * c.Get(k, j) == RowSum(a.cols, Triple(a, b, c, i, j), k)
    {
      TripleRow(a, b, c, i, j, k);
    }
    SumExt(0, b.cols, k => ab.Get(i, k) * c.Get(k, j), k => RowSum(a.cols, Triple(a, b, c, i, j), k));
  }

  lemma MulAssocRight(a: Matrix, b: Matrix, c: Matrix, i: int, j: int)
    requires a.cols == b.rows && b.cols == c.rows
    requires 0 <= i < a.rows && 0 <= j < c.cols
    ensures Mul(a, Mul(b, c)).Get(i, j) == Sum(0, a.cols, l => ColSum(b.cols, Triple(a, b, c, i, j), l))
  {
    var bc := Mul(b, c);
    forall l | 0 <= l < a.cols
      ensures a.Get(i, l) * bc.Get(l, j) == ColSum(b.cols, Triple(a, b, c, i, j), l)
    {
      TripleCol(a, b, c, i, j, l);
    }
    SumExt(0, a.cols, l => a.Get(i, l) * bc.Get(l, j), l => ColSum(b.cols, Triple(a, b, c, i, j), l));
  }

  /** The product is associative. */
  lemma MulAssoc(a: Matrix, b: Matrix, c: Matrix)
    requires a.cols == b.rows && b.cols == c.rows
    ensures Mul(Mul(a, b), c) == Mul(a, Mul(b, c))
  {
    forall i, j | 0 <= i < a.rows && 0 <= j < c.cols
      ensures Mul(Mul(a, b), c).Get(i, j) == Mul(a, Mul(b, c)).Get(i, j)
    {
      MulAssocLeft(a, b, c, i, j);
      MulAssocRight(a, b, c, i, j);
      SumSwap(b.cols, a.cols, Triple(a, b, c, i, j));
    }
    MatrixExt(Mul(Mul(a, b), c), Mul(a, Mul(b, c)));
  }

  /** Sum of the squares of a sequence of reals. */
  function SumSquares(s: seq<real>): real {
    if |s| == 0 then 0.0 else SumSquares(s[..|s| - 1]) + s[|s| - 1] * s[|s| - 1]
  }

  /** norm(): the square root of the sum of the squares of all elements. */
  function Norm(m: Matrix): real {
    Sqrt(SumSquares(m.Flat()))
  }

  // ---------------------------------------------------------------------
  // Points, lines and images
  // ---------------------------------------------------------------------

  /** A point in world coordinates: a 3 x 1 column. */
  datatype Pt3D = Pt3D(x: real, y: real, z: real) {
    /** The 3 x 1 matrix (x, y, z). */
    function AsMatrix(): Matrix {
      Matrix(3, 1, [[x], [y], [z]])
    }

    /** pt[i] */
    function At(i: int): real {
      if i == 0 then x else if i == 1 then y else if i == 2 then z else 0.0
    }

    function Plus(o: Pt3D): Pt3D { Pt3D(x + o.x, y + o.y, z + o.z) }
    function Minus(o: Pt3D): Pt3D { Pt3D(x - o.x, y - o.y, z - o.z) }
    function Scale(c: real): Pt3D { Pt3D(c * x, c * y, c * z) }
  }

  /** The dot product of two points seen as vectors. */
  function Dot3D(u: Pt3D, v: Pt3D): real {
    u.x * v.x + u.y * v.y + u.z * v.z
  }

  /** The cross product. */
  function Cross(u: Pt3D, v: Pt3D): Pt3D {
    Pt3D(u.y * v.z - u.z * v.y, u.z * v.x - u.x * v.z, u.x * v.y - u.y * v.x)
  }

  lemma DotSymmetric(u: Pt3D, v: Pt3D)
    ensures Dot3D(u, v) == Dot3D(v, u)
  {
  }

  /** A factor on one side of a dot product moves out of it. */
  lemma DotScale(u: Pt3D, v: Pt3D, c: real)
    ensures Dot3D(u.Scale(c), v) == c * Dot3D(u, v)
  {
    assert (c * u.x) * v.x + (c * u.y) * v.y + (c * u.z) * v.z == c * (u.x * v.x + u.y * v.y + u.z * v.z);
  }

  /** Each component of v divided by d. */
  function DivVec(v: Pt3D, d: real): Pt3D
    requires d != 0.0
  {
    Pt3D(v.x / d, v.y / d, v.z / d)
  }

  /** Dividing one side of a dot product by d divides the dot product. */
  lemma DotDivide(u: Pt3D, v: Pt3D, d: real)
    requires d != 0.0
    ensures Dot3D(u, DivVec(v, d)) == Dot3D(u, v) / d
  {
    assert u.x * (v.x / d) == (u.x * v.x) / d;
    assert u.y * (v.y / d) == (u.y * v.y) / d;
    assert u.z * (v.z / d) == (u.z * v.z) / d;
  }

  lemma SelfDivide(d: real)
    requires d != 0.0
    ensures d / d == 1.0 && 0.0 / d == 0.0
  {
  }

  /** A point is the column matrix of its coordinates: pt[i] is element (i, 0). */
  lemma Pt3DLayout(p: Pt3D)
    ensures p.AsMatrix().Valid() && p.AsMatrix().rows == 3 && p.AsMatrix().cols == 1
    ensures forall i :: 0 <= i < 3 ==> p.AsMatrix().Get(i, 0) == p.At(i) && p.AsMatrix().At(i) == p.At(i)
    ensures p.AsMatrix().Flat() == [p.x, p.y, p.z]
  {
    var rows := [[p.x], [p.y], [p.z]];
    assert rows[..2][..1][..0] == [];
    assert FlatRows(rows[..2][..1]) == [p.x];
    assert FlatRows(rows[..2]) == [p.x, p.y];
    assert p.AsMatrix().Flat() == [p.x, p.y, p.z];
  }

  /** Pt3D(): the 3 x 1 zero column. */
  const Origin3D := Pt3D(0.0, 0.0, 0.0)

  /** Pt3D(const Matrix&): keeps elements 0, 1 and 2 of its argument. */
  function Pt3DOf(m: Matrix): Pt3D {
    Pt3D(m.At(0), m.At(1), m.At(2))
  }

  /**
   * Converting a point to a matrix and back gives the point again, the
   * default point is the zero column, and a 3 x 1 matrix survives the trip
   * the other way.
   */
  lemma Pt3DRoundTrip(p: Pt3D, m: Matrix)
    ensures Pt3DOf(p.AsMatrix()) == p
    ensures Origin3D.AsMatrix() == Filled(3, 1, 0.0)
    ensures m.Valid() && m.rows == 3 && m.cols == 1 ==> Pt3DOf(m).AsMatrix() == m
  {
    Pt3DLayout(p);
    MatrixExt(Origin3D.AsMatrix(), Filled(3, 1, 0.0));
    if m.Valid() && m.rows == 3 && m.cols == 1 {
      FlatLayout(m, 0, 0, 0);
      FlatLayout(m, 0, 0, 1);
      FlatLayout(m, 0, 0, 2);
      MatrixExt(Pt3DOf(m).AsMatrix(), m);
    }
  }

  /** A point in image coordinates: a 2 x 1 column. */
  datatype Pt2D = Pt2D(x: real, y: real) {
    function AsMatrix(): Matrix {
      Matrix(2, 1, [[x], [y]])
    }

    function At(i: int): real {
      if i == 0 then x else if i == 1 then y else 0.0
    }

    function Plus(o: Pt2D): Pt2D { Pt2D(x + o.x, y + o.y) }
    function Minus(o: Pt2D): Pt2D { Pt2D(x - o.x, y - o.y) }
    function Scale(c: real): Pt2D { Pt2D(c * x, c * y) }
  }

  function Dot2D(u: Pt2D, v: Pt2D): real {
    u.x * v.x + u.y * v.y
  }

  /** The z component of the cross product of two plane vectors. */
  function Cross2D(u: Pt2D, v: Pt2D): real {
    u.x * v.y - u.y * v.x
  }

  function DivVec2D(v: Pt2D, d: real): Pt2D
    requires d != 0.0
  {
    Pt2D(v.x / d, v.y / d)
  }

  lemma DotDivide2D(u: Pt2D, v: Pt2D, d: real)
    requires d != 0.0
    ensures Dot2D(u, DivVec2D(v, d)) == Dot2D(u, v) / d
  {
    assert u.x * (v.x / d) == (u.x * v.x) / d;
    assert u.y * (v.y / d) == (u.y * v.y) / d;
  }

  lemma Pt2DLayout(p: Pt2D)
    ensures p.AsMatrix().Valid() && p.AsMatrix().rows == 2 && p.AsMatrix().cols == 1
    ensures forall i :: 0 <= i < 2 ==> p.AsMatrix().Get(i, 0) == p.At(i) && p.AsMatrix().At(i) == p.At(i)
    ensures p.AsMatrix().Flat() == [p.x, p.y]
  {
    var rows := [[p.x], [p.y]];
    assert rows[..1][..0] == [];
    assert FlatRows(rows[..1]) == [p.x];
    assert p.AsMatrix().Flat() == [p.x, p.y];
  }

  /** Pt2D(): the 2 x 1 zero column. */
  const Origin2D := Pt2D(0.0, 0.0)

  /** Pt2D(const Matrix&): keeps elements 0 and 1 of its argument. */
  function Pt2DOf(m: Matrix): Pt2D {
    Pt2D(m.At(0), m.At(1))
  }

  lemma Pt2DRoundTrip(p: Pt2D, m: Matrix)
    ensures Pt2DOf(p.AsMatrix()) == p
    ensures Origin2D.AsMatrix() == Filled(2, 1, 0.0)
    ensures m.Valid() && m.rows == 2 && m.cols == 1 ==> Pt2DOf(m).AsMatrix() == m
  {
    Pt2DLayout(p);
    MatrixExt(Origin2D.AsMatrix(), Filled(2, 1, 0.0));
    if m.Valid() && m.rows == 2 && m.cols == 1 {
      FlatLayout(m, 0, 0, 0);
      FlatLayout(m, 0, 0, 1);
      MatrixExt(Pt2DOf(m).AsMatrix(), m);
    }
  }

  /** A line of sight: a point on it and its direction, stored as given. */
  datatype Line3D = Line3D(pt: Pt3D, unit_vector: Pt3D)
  datatype Line2D = Line2D(pt: Pt2D, unit_vector: Pt2D)

  /** An image is a matrix of intensities indexed (row = y, col = x). */
  type Image = Matrix

  /** Image(): a 1 x 1 black image. */
  function DefaultImage(): (img: Image)
    ensures img.Valid() && img.rows == 1 && img.cols == 1 && img.Get(0, 0) == 0.0
  {
    Filled(1, 1, 0.0)
  }
}
