/**
 * The geometric helpers of src/srcMath/myMATH.cpp: `linspace`,
 * `triLinearInterp`, `createUnitVector`, `dot`, the point-point and
 * point-line `dist`, and `crossPoint`.
 */
module Geometry {
  import opened LibM
  import opened STBCommons
  import opened Matrices

  // ---------------------------------------------------------------------
  // linspace
  // ---------------------------------------------------------------------

  /** b * (a / b) == a for a non-zero b. */
  lemma DivTimes(a: real, b: real)
    requires b != 0.0
    ensures a / b * b == a
  {
  }

  /** Two points of an evenly spaced grid lie (j - i) steps apart, in order when the step is not negative. */
  lemma Spacing(min: real, delta: real, i: int, j: int)
    requires i <= j
    ensures (min + delta * j as real) - (min + delta * i as real) == delta * (j - i) as real
    ensures 0.0 <= delta ==> min + delta * i as real <= min + delta * j as real
  {
    assert delta * j as real - delta * i as real == delta * (j - i) as real;
    if 0.0 <= delta {
      assert 0.0 <= delta * (j - i) as real;
    }
  }

  /** An ascending range split into positive parts has a non-negative step. */
  lemma AscendingStep(min: real, max: real, parts: real)
    requires 0.0 < parts
    ensures min <= max ==> 0.0 <= (max - min) / parts
  {
  }

  /**
   * The grid min + delta * k, k < n, with delta = (max - min) / (n - 1),
   * starts at min, ends at max, is evenly spaced and ascends when
   * min <= max.
   */
  lemma {:induction false} EvenGrid(s: seq<real>, min: real, max: real, n: int)
    requires 2 <= n && |s| == n
    requires forall k :: 0 <= k < n ==> s[k] == min + (max - min) / (n - 1) as real * k as real
    ensures s[0] == min && s[n - 1] == max
    ensures forall i, j :: 0 <= i <= j < n ==> s[j] - s[i] == (max - min) / (n - 1) as real * (j - i) as real
    ensures min <= max ==> forall i, j :: 0 <= i <= j < n ==> s[i] <= s[j]
  {
    var delta := (max - min) / (n - 1) as real;
    DivTimes(max - min, (n - 1) as real);
    AscendingStep(min, max, (n - 1) as real);
    forall i, j | 0 <= i <= j < n
      ensures s[j] - s[i] == delta * (j - i) as real
      ensures min <= max ==> s[i] <= s[j]
    {
      Spacing(min, delta, i, j);
    }
  }

  /**
   * linspace(min, max, n): n >= 2 equally spaced values from min to max,
   * both included; fewer than two points is error_size.
   */
  method Linspace(min: real, max: real, n: int) returns (r: Result<seq<real>>)
    ensures r.Err? <==> n < 2
    ensures r.Err? ==> r.error == ErrorSize
    ensures r.Ok? ==> |r.value| == n && r.value[0] == min && r.value[n - 1] == max
    ensures r.Ok? ==> forall i, j :: 0 <= i <= j < n ==>
                        r.value[j] - r.value[i] == (max - min) / (n - 1) as real * (j - i) as real
    ensures r.Ok? && min <= max ==> forall i, j :: 0 <= i <= j < n ==> r.value[i] <= r.value[j]
  {
    if n < 2 {
      return Err(ErrorSize);
    }
    var delta := (max - min) / (n - 1) as real;
    var res := new real[n];
    for i := 0 to n
      invariant forall k :: 0 <= k < i ==> res[k] == min + delta * k as real
    {
      res[i] := min + delta * i as real;
    }
    EvenGrid(res[..], min, max, n);
    return Ok(res[..]);
  }

  // ---------------------------------------------------------------------
  // triLinearInterp
  // ---------------------------------------------------------------------

  /** Linear interpolation from a (at t = 0) to b (at t = 1). */
  function Lerp(a: real, b: real, t: real): real {
    a * (1.0 - t) + b * t
  }

  lemma MulNonNegative(a: real, b: real)
    requires 0.0 <= a && 0.0 <= b
    ensures 0.0 <= a * b
  {
  }

  /** Between t = 0 and t = 1 the interpolant stays between its end values. */
  lemma LerpBounds(a: real, b: real, t: real, lo: real, hi: real)
    requires 0.0 <= t <= 1.0 && lo <= a <= hi && lo <= b <= hi
    ensures lo <= Lerp(a, b, t) <= hi
  {
    assert a * (1.0 - t) + b * t - lo == (a - lo) * (1.0 - t) + (b - lo) * t;
    assert hi - (a * (1.0 - t) + b * t) == (hi - a) * (1.0 - t) + (hi - b) * t;
    MulNonNegative(a - lo, 1.0 - t);
    MulNonNegative(b - lo, t);
    MulNonNegative(hi - a, 1.0 - t);
    MulNonNegative(hi - b, t);
  }

  /** The smallest and largest of the first eight values. */
  function Min8(v: seq<real>): (m: real)
    requires |v| >= 8
    ensures forall k :: 0 <= k < 8 ==> m <= v[k]
    ensures exists k :: 0 <= k < 8 && m == v[k]
  {
    SeqMin(v[..8])
  }

  function Max8(v: seq<real>): (m: real)
    requires |v| >= 8
    ensures forall k :: 0 <= k < 8 ==> v[k] <= m
    ensures exists k :: 0 <= k < 8 && m == v[k]
  {
    SeqMax(v[..8])
  }

  function SeqMin(s: seq<real>): (m: real)
    requires |s| > 0
    ensures forall k :: 0 <= k < |s| ==> m <= s[k]
    ensures exists k :: 0 <= k < |s| && m == s[k]
  {
    if |s| == 1 then s[0]
    else
      var rest := SeqMin(s[1..]);
      assert forall k :: 1 <= k < |s| ==> s[k] == s[1..][k - 1];
      if s[0] <= rest then s[0] else rest
  }

  function SeqMax(s: seq<real>): (m: real)
    requires |s| > 0
    ensures forall k :: 0 <= k < |s| ==> s[k] <= m
    ensures exists k :: 0 <= k < |s| && m == s[k]
  {
    if |s| == 1 then s[0]
    else
      var rest := SeqMax(s[1..]);
      assert forall k :: 1 <= k < |s| ==> s[k] == s[1..][k - 1];
      if s[0] >= rest then s[0] else rest
  }

  /** The position of v in [lo, hi] rescaled to [0, 1]. */
  function Unit(v: real, lo: real, hi: real): real
    requires lo != hi
  {
    (v - lo) / (hi - lo)
  }

  /** The box has a non-zero extent along each axis. */
  predicate NonDegenerate(limit: AxisLimit)
    reads limit
  {
    limit.x_min != limit.x_max && limit.y_min != limit.y_max && limit.z_min != limit.z_max
  }

  /**
   * The eight corner values, in the order c000, c100, c101, c001, c010,
   * c110, c111, c011, interpolated first along x, then y, then z.
   */
  function Blend(value: seq<real>, xd: real, yd: real, zd: real): real
    requires |value| >= 8
  {
    var c00 := Lerp(value[0], value[1], xd);
    var c01 := Lerp(value[3], value[2], xd);
    var c10 := Lerp(value[4], value[5], xd);
    var c11 := Lerp(value[7], value[6], xd);
    var c0 := Lerp(c00, c10, yd);
    var c1 := Lerp(c01, c11, yd);
    Lerp(c0, c1, zd)
  }

  /**
   * triLinearInterp(grid_limit, value, pt): trilinear interpolation of the
   * eight corner values of the box at pt. A point whose rescaled
   * coordinates leave [0, 1] is refused with error_range.
   */
  function TriLinearInterp(limit: AxisLimit, value: seq<real>, pt: seq<real>): (r: Result<real>)
    reads limit
    requires NonDegenerate(limit) && |value| >= 8 && |pt| >= 3
    ensures r.Err? <==> !(0.0 <= Unit(pt[0], limit.x_min, limit.x_max) <= 1.0
                          && 0.0 <= Unit(pt[1], limit.y_min, limit.y_max) <= 1.0
                          && 0.0 <= Unit(pt[2], limit.z_min, limit.z_max) <= 1.0)
    ensures r.Err? ==> r.error == ErrorRange
    ensures r.Ok? ==> Min8(value) <= r.value <= Max8(value)
  {
    var xd := Unit(pt[0], limit.x_min, limit.x_max);
    var yd := Unit(pt[1], limit.y_min, limit.y_max);
    var zd := Unit(pt[2], limit.z_min, limit.z_max);
    if xd > 1.0 || xd < 0.0 || yd > 1.0 || yd < 0.0 || zd > 1.0 || zd < 0.0 then
      Err(ErrorRange)
    else
      BlendBounds(value, xd, yd, zd);
      Ok(Blend(value, xd, yd, zd))
  }

  /** A blend with weights in [0, 1] stays between the extreme corner values. */
  lemma BlendBounds(value: seq<real>, xd: real, yd: real, zd: real)
    requires |value| >= 8 && 0.0 <= xd <= 1.0 && 0.0 <= yd <= 1.0 && 0.0 <= zd <= 1.0
    ensures Min8(value) <= Blend(value, xd, yd, zd) <= Max8(value)
  {
    var lo, hi := Min8(value), Max8(value);
    var c00 := Lerp(value[0], value[1], xd);
    var c01 := Lerp(value[3], value[2], xd);
    var c10 := Lerp(value[4], value[5], xd);
    var c11 := Lerp(value[7], value[6], xd);
    LerpBounds(value[0], value[1], xd, lo, hi);
    LerpBounds(value[3], value[2], xd, lo, hi);
    LerpBounds(value[4], value[5], xd, lo, hi);
    LerpBounds(value[7], value[6], xd, lo, hi);
    LerpBounds(c00, c10, yd, lo, hi);
    LerpBounds(c01, c11, yd, lo, hi);
    LerpBounds(Lerp(c00, c10, yd), Lerp(c01, c11, yd), zd, lo, hi);
  }

  lemma UnitEnds(lo: real, hi: real)
    requires lo != hi
    ensures Unit(lo, lo, hi) == 0.0 && Unit(hi, lo, hi) == 1.0
  {
    var d := hi - lo;
    DivTimes(d, d);
    assert (d / d - 1.0) * d == 0.0;
  }

  /**
   * At the eight corners of the box the interpolation returns the value
   * stored for that corner.
   */
  lemma TriLinearCorners(limit: AxisLimit, value: seq<real>)
    requires NonDegenerate(limit) && |value| >= 8
    ensures TriLinearInterp(limit, value, [limit.x_min, limit.y_min, limit.z_min]) == Ok(value[0])
    ensures TriLinearInterp(limit, value, [limit.x_max, limit.y_min, limit.z_min]) == Ok(value[1])
    ensures TriLinearInterp(limit, value, [limit.x_max, limit.y_min, limit.z_max]) == Ok(value[2])
    ensures TriLinearInterp(limit, value, [limit.x_min, limit.y_min, limit.z_max]) == Ok(value[3])
    ensures TriLinearInterp(limit, value, [limit.x_min, limit.y_max, limit.z_min]) == Ok(value[4])
    ensures TriLinearInterp(limit, value, [limit.x_max, limit.y_max, limit.z_min]) == Ok(value[5])
    ensures TriLinearInterp(limit, value, [limit.x_max, limit.y_max, limit.z_max]) == Ok(value[6])
    ensures TriLinearInterp(limit, value, [limit.x_min, limit.y_max, limit.z_max]) == Ok(value[7])
  {
    UnitEnds(limit.x_min, limit.x_max);
    UnitEnds(limit.y_min, limit.y_max);
    UnitEnds(limit.z_min, limit.z_max);
    BlendCorners(value);
  }

  /** With weights 0 and 1 the blend picks out one corner value. */
  lemma BlendCorners(value: seq<real>)
    requires |value| >= 8
    ensures Blend(value, 0.0, 0.0, 0.0) == value[0] && Blend(value, 1.0, 0.0, 0.0) == value[1]
    ensures Blend(value, 1.0, 0.0, 1.0) == value[2] && Blend(value, 0.0, 0.0, 1.0) == value[3]
    ensures Blend(value, 0.0, 1.0, 0.0) == value[4] && Blend(value, 1.0, 1.0, 0.0) == value[5]
    ensures Blend(value, 1.0, 1.0, 1.0) == value[6] && Blend(value, 0.0, 1.0, 1.0) == value[7]
  {
  }

  // ---------------------------------------------------------------------
  // Vectors
  // ---------------------------------------------------------------------

  /** norm() of a point: the square root of its squared length. */
  function Norm3D(p: Pt3D): (r: real)
    ensures SqrtLaw() ==> 0.0 <= r && r * r == Dot3D(p, p)
  {
    Sqrt(Dot3D(p, p))
  }

  function Norm2D(p: Pt2D): (r: real)
    ensures SqrtLaw() ==> 0.0 <= r && r * r == Dot2D(p, p)
  {
    Sqrt(Dot2D(p, p))
  }

  /** The matrix norm of a point's column is its vector norm. */
  lemma NormOfColumn(p: Pt3D, q: Pt2D)
    ensures Norm(p.AsMatrix()) == Norm3D(p)
    ensures Norm(q.AsMatrix()) == Norm2D(q)
  {
    Pt3DLayout(p);
    Pt2DLayout(q);
    assert [p.x, p.y, p.z][..2] == [p.x, p.y] && [p.x, p.y][..1] == [p.x] && [p.x][..0] == [];
    assert SumSquares([p.x]) == p.x * p.x;
    assert SumSquares([p.x, p.y]) == p.x * p.x + p.y * p.y;
    assert SumSquares([p.x, p.y, p.z]) == Dot3D(p, p);
    assert [q.x, q.y][..1] == [q.x] && [q.x][..0] == [];
    assert SumSquares([q.x]) == q.x * q.x;
    assert SumSquares([q.x, q.y]) == Dot2D(q, q);
  }

  /** The squared length of a non-zero vector is positive. */
  lemma DotPositive3D(p: Pt3D)
    requires p != Origin3D
    ensures Dot3D(p, p) > 0.0
  {
    SqSign(p.x);
    SqSign(p.y);
    SqSign(p.z);
    assert Dot3D(p, p) == Sq(p.x) + Sq(p.y) + Sq(p.z);
  }

  lemma DotPositive2D(p: Pt2D)
    requires p != Origin2D
    ensures Dot2D(p, p) > 0.0
  {
    SqSign(p.x);
    SqSign(p.y);
    assert Dot2D(p, p) == Sq(p.x) + Sq(p.y);
  }

  /** A vector of positive length has a positive norm. */
  lemma NormPositive3D(p: Pt3D)
    requires SqrtLaw() && p != Origin3D
    ensures Norm3D(p) > 0.0
  {
    DotPositive3D(p);
    SqrtPositive(Dot3D(p, p));
  }

  lemma NormPositive2D(p: Pt2D)
    requires SqrtLaw() && p != Origin2D
    ensures Norm2D(p) > 0.0
  {
    DotPositive2D(p);
    SqrtPositive(Dot2D(p, p));
  }

  /** A square divided twice by its root is one. */
  lemma SquareOverSquare(D: real, n: real)
    requires n != 0.0 && D == n * n
    ensures (D / n) / n == 1.0
  {
    assert D / n == n;
  }

  /** A vector divided by its length has length one and scales back to the vector. */
  lemma Normalized3D(v: Pt3D, n: real)
    requires n != 0.0 && n * n == Dot3D(v, v)
    ensures Dot3D(DivVec(v, n), DivVec(v, n)) == 1.0
    ensures v == DivVec(v, n).Scale(n)
  {
    var r := DivVec(v, n);
    DotDivide(r, v, n);
    DotDivide(v, v, n);
    DotSymmetric(r, v);
    SquareOverSquare(Dot3D(v, v), n);
  }

  lemma Normalized2D(v: Pt2D, n: real)
    requires n != 0.0 && n * n == Dot2D(v, v)
    ensures Dot2D(DivVec2D(v, n), DivVec2D(v, n)) == 1.0
    ensures v == DivVec2D(v, n).Scale(n)
  {
    var r := DivVec2D(v, n);
    DotDivide2D(r, v, n);
    DotDivide2D(v, v, n);
    assert Dot2D(r, v) == Dot2D(v, r);
    SquareOverSquare(Dot2D(v, v), n);
  }

  /**
   * createUnitVector(pt1, pt2): (pt2 - pt1) / |pt2 - pt1|, a vector of
   * unit length pointing from pt1 to pt2. The two points must differ.
   */
  function CreateUnitVector(pt1: Pt3D, pt2: Pt3D): (r: Pt3D)
    requires SqrtLaw() && pt1 != pt2
    ensures Dot3D(r, r) == 1.0
    ensures pt2.Minus(pt1) == r.Scale(Norm3D(pt2.Minus(pt1)))
  {
    var res := pt2.Minus(pt1);
    var nrm := Norm3D(res);
    NormPositive3D(res);
    Normalized3D(res, nrm);
    DivVec(res, nrm)
  }

  function CreateUnitVector2D(pt1: Pt2D, pt2: Pt2D): (r: Pt2D)
    requires SqrtLaw() && pt1 != pt2
    ensures Dot2D(r, r) == 1.0
    ensures pt2.Minus(pt1) == r.Scale(Norm2D(pt2.Minus(pt1)))
  {
    var res := pt2.Minus(pt1);
    var nrm := Norm2D(res);
    NormPositive2D(res);
    Normalized2D(res, nrm);
    DivVec2D(res, nrm)
  }

  /** The first i terms of the dot-product sum. */
  function PartialDot3D(p: Pt3D, q: Pt3D, i: int): real
    decreases i
  {
    if i <= 0 then 0.0 else PartialDot3D(p, q, i - 1) + p.At(i - 1) * q.At(i - 1)
  }

  function PartialDot2D(p: Pt2D, q: Pt2D, i: int): real
    decreases i
  {
    if i <= 0 then 0.0 else PartialDot2D(p, q, i - 1) + p.At(i - 1) * q.At(i - 1)
  }

  /** dot(pt1, pt2) on 3D points: the components multiplied and summed in a loop. */
  method Dot(pt1: Pt3D, pt2: Pt3D) returns (res: real)
    ensures res == Dot3D(pt1, pt2)
  {
    res := 0.0;
    for i := 0 to 3
      invariant res == PartialDot3D(pt1, pt2, i)
    {
      res := res + pt1.At(i) * pt2.At(i);
    }
    assert PartialDot3D(pt1, pt2, 1) == pt1.x * pt2.x;
  }

  /** dot(pt1, pt2) on 2D points. */
  method Dot2(pt1: Pt2D, pt2: Pt2D) returns (res: real)
    ensures res == Dot2D(pt1, pt2)
  {
    res := 0.0;
    for i := 0 to 2
      invariant res == PartialDot2D(pt1, pt2, i)
    {
      res := res + pt1.At(i) * pt2.At(i);
    }
    assert PartialDot2D(pt1, pt2, 1) == pt1.x * pt2.x;
  }

  /** The dot product is symmetric, and bilinear in its first argument. */
  lemma DotLaws(u: Pt3D, v: Pt3D, w: Pt3D, c: real, a: Pt2D, b: Pt2D)
    ensures Dot3D(u, v) == Dot3D(v, u) && Dot2D(a, b) == Dot2D(b, a)
    ensures Dot3D(u.Plus(w), v) == Dot3D(u, v) + Dot3D(w, v)
    ensures Dot3D(u.Scale(c), v) == c * Dot3D(u, v)
  {
    assert (c * u.x) * v.x + (c * u.y) * v.y + (c * u.z) * v.z == c * (u.x * v.x + u.y * v.y + u.z * v.z);
  }

  // ---------------------------------------------------------------------
  // Distances
  // ---------------------------------------------------------------------

  /** dist(pt1, pt2): the norm of pt2 - pt1. */
  function DistPoints(pt1: Pt3D, pt2: Pt3D): (r: real)
    ensures SqrtLaw() ==> 0.0 <= r && r * r == Dot3D(pt2.Minus(pt1), pt2.Minus(pt1))
  {
    Norm3D(pt2.Minus(pt1))
  }

  function DistPoints2D(pt1: Pt2D, pt2: Pt2D): (r: real)
    ensures SqrtLaw() ==> 0.0 <= r && r * r == Dot2D(pt2.Minus(pt1), pt2.Minus(pt1))
  {
    Norm2D(pt2.Minus(pt1))
  }

  /** The distance is symmetric and vanishes exactly between equal points. */
  lemma DistPointsLaws(p: Pt3D, q: Pt3D)
    requires SqrtLaw()
    ensures DistPoints(p, q) == DistPoints(q, p)
    ensures DistPoints(p, q) == 0.0 <==> p == q
  {
    assert Dot3D(q.Minus(p), q.Minus(p)) == Dot3D(p.Minus(q), p.Minus(q));
    if p == q {
      assert q.Minus(p) == Origin3D;
      SqrtZero();
    } else {
      assert q.Minus(p) != Origin3D;
      NormPositive3D(q.Minus(p));
    }
  }

  /**
   * The squared distance from a point to a line: |d|^2 - (d . u)^2 with
   * d = pt - line.pt. It is the squared perpendicular distance when u has
   * unit length.
   */
  function Residual3D(pt: Pt3D, line: Line3D): real {
    var diff := pt.Minus(line.pt);
    var proj := Dot3D(diff, line.unit_vector);
    Dot3D(diff, diff) - proj * proj
  }

  function Residual2D(pt: Pt2D, line: Line2D): real {
    var diff := pt.Minus(line.pt);
    var proj := Dot2D(diff, line.unit_vector);
    Dot2D(diff, diff) - proj * proj
  }

  /**
   * dist(pt, line): the square root of the squared residual h. A slightly
   * negative h (above -(SQRTSMALLNUMBER as real)) is rounded to distance 0; a more
   * negative one is error_range.
   */
  function DistLine(pt: Pt3D, line: Line3D): (r: Result<real>)
    ensures r.Err? <==> Residual3D(pt, line) <= -(SQRTSMALLNUMBER as real)
    ensures r.Err? ==> r.error == ErrorRange
    ensures r.Ok? && Residual3D(pt, line) < 0.0 ==> r.value == 0.0
    ensures r.Ok? && SqrtLaw() ==> 0.0 <= r.value
    ensures r.Ok? && SqrtLaw() && 0.0 <= Residual3D(pt, line) ==> r.value * r.value == Residual3D(pt, line)
  {
    var h := Residual3D(pt, line);
    if h >= 0.0 then Ok(Sqrt(h))
    else if h < 0.0 && h > -(SQRTSMALLNUMBER as real) then Ok(0.0)
    else Err(ErrorRange)
  }

  function DistLine2D(pt: Pt2D, line: Line2D): (r: Result<real>)
    ensures r.Err? <==> Residual2D(pt, line) <= -(SQRTSMALLNUMBER as real)
    ensures r.Err? ==> r.error == ErrorRange
    ensures r.Ok? && Residual2D(pt, line) < 0.0 ==> r.value == 0.0
    ensures r.Ok? && SqrtLaw() ==> 0.0 <= r.value
    ensures r.Ok? && SqrtLaw() && 0.0 <= Residual2D(pt, line) ==> r.value * r.value == Residual2D(pt, line)
  {
    var h := Residual2D(pt, line);
    if h >= 0.0 then Ok(Sqrt(h))
    else if h < 0.0 && h > -(SQRTSMALLNUMBER as real) then Ok(0.0)
    else Err(ErrorRange)
  }

  /** Lagrange's identity: |d|^2 |u|^2 - (d . u)^2 == |d x u|^2. */
  lemma Lagrange3D(d: Pt3D, u: Pt3D)
    ensures Dot3D(d, d) * Dot3D(u, u) - Dot3D(d, u) * Dot3D(d, u) == Dot3D(Cross(d, u), Cross(d, u))
  {
  }

  lemma Lagrange2D(d: Pt2D, u: Pt2D)
    ensures Dot2D(d, d) * Dot2D(u, u) - Dot2D(d, u) * Dot2D(d, u) == Cross2D(d, u) * Cross2D(d, u)
  {
  }

  /**
   * With a unit direction the residual is never negative, so the
   * error_range branch of dist cannot be taken over exact arithmetic.
   */
  lemma ResidualNonNegative(pt: Pt3D, line: Line3D, pt2: Pt2D, line2: Line2D)
    requires Dot3D(line.unit_vector, line.unit_vector) == 1.0
    requires Dot2D(line2.unit_vector, line2.unit_vector) == 1.0
    ensures 0.0 <= Residual3D(pt, line) && DistLine(pt, line).Ok?
    ensures 0.0 <= Residual2D(pt2, line2) && DistLine2D(pt2, line2).Ok?
  {
    var d := pt.Minus(line.pt);
    Lagrange3D(d, line.unit_vector);
    var c := Cross(d, line.unit_vector);
    assert 0.0 <= c.x * c.x && 0.0 <= c.y * c.y && 0.0 <= c.z * c.z;
    var d2 := pt2.Minus(line2.pt);
    Lagrange2D(d2, line2.unit_vector);
    var c2 := Cross2D(d2, line2.unit_vector);
    assert 0.0 <= c2 * c2;
  }

  /** A point on the line, pt = line.pt + t * u with |u| == 1, is at distance 0. */
  lemma PointOnLine(line: Line3D, t: real)
    requires SqrtLaw() && Dot3D(line.unit_vector, line.unit_vector) == 1.0
    ensures DistLine(line.pt.Plus(line.unit_vector.Scale(t)), line) == Ok(0.0)
  {
    var u := line.unit_vector;
    var d := line.pt.Plus(u.Scale(t)).Minus(line.pt);
    assert d == u.Scale(t);
    ScaledDot3D(u, t);
    assert Residual3D(line.pt.Plus(u.Scale(t)), line) == t * t - t * t;
    SqrtZero();
  }

  lemma PointOnLine2D(line: Line2D, t: real)
    requires Dot2D(line.unit_vector, line.unit_vector) == 1.0
    requires SqrtLaw()
    ensures DistLine2D(line.pt.Plus(line.unit_vector.Scale(t)), line) == Ok(0.0)
  {
    var u := line.unit_vector;
    var d := line.pt.Plus(u.Scale(t)).Minus(line.pt);
    assert d == u.Scale(t);
    ScaledDot2D(u, t);
    assert Residual2D(line.pt.Plus(u.Scale(t)), line) == t * t - t * t;
    SqrtZero();
  }

  lemma ScaledDot3D(u: Pt3D, t: real)
    requires Dot3D(u, u) == 1.0
    ensures Dot3D(u.Scale(t), u) == t && Dot3D(u.Scale(t), u.Scale(t)) == t * t
  {
    assert Dot3D(u.Scale(t), u) == t * Dot3D(u, u);
    assert Dot3D(u.Scale(t), u.Scale(t)) == t * Dot3D(u.Scale(t), u);
  }

  lemma ScaledDot2D(u: Pt2D, t: real)
    requires Dot2D(u, u) == 1.0
    ensures Dot2D(u.Scale(t), u) == t && Dot2D(u.Scale(t), u.Scale(t)) == t * t
  {
    assert Dot2D(u.Scale(t), u) == t * Dot2D(u, u);
    assert Dot2D(u.Scale(t), u.Scale(t)) == t * Dot2D(u.Scale(t), u);
  }

  // ---------------------------------------------------------------------
  // crossPoint
  // ---------------------------------------------------------------------

  /**
   * crossPoint(line1, line2): the intersection of two plane lines,
   * line1.pt + (num / den) * line1.unit_vector. Lines whose directions are
   * parallel within SMALLNUMBER are refused with error_range.
   */
  function CrossPoint(line1: Line2D, line2: Line2D): (r: Result<Pt2D>)
    ensures r.Err? <==> Abs(Cross2D(line1.unit_vector, line2.unit_vector)) < SMALLNUMBER
    ensures r.Err? ==> r.error == ErrorRange
    ensures r.Ok? ==> exists t :: r.value == line1.pt.Plus(line1.unit_vector.Scale(t))
    ensures r.Ok? ==> Cross2D(r.value.Minus(line2.pt), line2.unit_vector) == 0.0
  {
    var u1, u2 := line1.unit_vector, line2.unit_vector;
    var den := u1.x * u2.y - u1.y * u2.x;
    assert den == Cross2D(u1, u2);
    if Abs(den) < SMALLNUMBER then Err(ErrorRange)
    else
      var num := u2.y * (line2.pt.x - line1.pt.x) - u2.x * (line2.pt.y - line1.pt.y);
      var res := u1.Scale(num / den).Plus(line1.pt);
      CrossPointOnLine2(line1, line2, num / den);
      assert res == line1.pt.Plus(u1.Scale(num / den));
      Ok(res)
  }

  /** The point line1.pt + (num / den) u1 lies on line2. */
  lemma CrossPointOnLine2(line1: Line2D, line2: Line2D, t: real)
    requires Cross2D(line1.unit_vector, line2.unit_vector) != 0.0
    requires var u1, u2 := line1.unit_vector, line2.unit_vector;
             t == (u2.y * (line2.pt.x - line1.pt.x) - u2.x * (line2.pt.y - line1.pt.y)) / (u1.x * u2.y - u1.y * u2.x)
    ensures Cross2D(line1.unit_vector.Scale(t).Plus(line1.pt).Minus(line2.pt), line2.unit_vector) == 0.0
  {
    var u1, u2 := line1.unit_vector, line2.unit_vector;
    var den := u1.x * u2.y - u1.y * u2.x;
    var num := u2.y * (line2.pt.x - line1.pt.x) - u2.x * (line2.pt.y - line1.pt.y);
    assert t * den == num;
    var e := u1.Scale(t).Plus(line1.pt).Minus(line2.pt);
    assert Cross2D(e, u2) == t * den - num;
  }
}
