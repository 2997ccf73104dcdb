/**
 * The sub-pixel peak scan of src/srcObject/ObjectFinder.hpp: both
 * `findTracer2D` overloads and both `findObject2D` overloads.
 *
 * The scan visits a box of pixels row by row. A pixel brighter than
 * max_intensity aborts it with error_range (what was appended so far stays
 * in the list). A pixel at least as bright as min_intensity that is a local
 * maximum yields a tracer whose centre is the vertex of the parabola through
 * the logarithms of the pixel and its two neighbours, along the row for x and
 * along the column for y. A vertex whose quotient is not finite (zero
 * denominator) drops the candidate.
 *
 * The tracer list is passed in and the extended list is returned.
 * `myMATH::isLocalMax` is not part of this model: it is a parameter.
 */
module ObjectFinder {
  import opened LibM
  import opened STBCommons
  import opened Matrices

  datatype Option<T> = None | Some(value: T)

  /** The fields of Tracer2D the scan writes: the centre (x = col, y = row) and the radius. */
  datatype Tracer2D = Tracer2D(pt_center: Pt2D, r_px: real)

  /** The object type findObject2D is instantiated with. */
  datatype Object2DKind = Tracer2DKind | Other2DKind

  /** The test for a local maximum at (row, col), supplied by the caller. */
  type LocalMaxTest = (Image, int, int) -> bool

  // ---------------------------------------------------------------------
  // Three-point log-parabola vertex
  // ---------------------------------------------------------------------

  /** The logarithm of an intensity, with intensities below LOGSMALLNUMBER raised to it. */
  function LnClamped(v: real): real {
    if v < LOGSMALLNUMBER then Log(LOGSMALLNUMBER) else Log(v)
  }

  /** A clamped logarithm is never below the logarithm of LOGSMALLNUMBER. */
  lemma LnClampedFloor(v: real)
    requires LogLaw()
    ensures Log(LOGSMALLNUMBER) <= LnClamped(v)
    ensures LOGSMALLNUMBER <= v ==> LnClamped(v) == Log(v)
  {
    if LOGSMALLNUMBER < v {
      assert 0.0 < LOGSMALLNUMBER < v;
    }
  }

  /**
   * The abscissa of the vertex of the parabola through (c - 1, l1), (c, l2)
   * and (c + 1, l3), in the form the scan evaluates it; None where the
   * quotient is not finite.
   */
  function Vertex(c: int, l1: real, l2: real, l3: real): (r: Option<real>)
    ensures r.None? <==> Curvature(l1, l2, l3) == 0.0
    ensures r.Some? ==> r.value == c as real + (l1 - l3) / (2.0 * Curvature(l1, l2, l3))
  {
    var x1, x2, x3 := c - 1, c, c + 1;
    var num := -0.5 * (  l1 * ((x2 * x2 - x3 * x3) as real)
                       - l2 * ((x1 * x1 - x3 * x3) as real)
                       + l3 * ((x1 * x1 - x2 * x2) as real));
    var den := l1 * ((x3 - x2) as real) - l3 * ((x1 - x2) as real) + l2 * ((x1 - x3) as real);
    VertexTerms(c, l1, l2, l3, num, den);
    if den == 0.0 then None else Some(num / den)
  }

  /** The second difference l1 + l3 - 2 l2, twice the leading coefficient of the parabola. */
  function Curvature(l1: real, l2: real, l3: real): real {
    l1 + l3 - 2.0 * l2
  }

  /** The numerator and denominator of the vertex reduce to c D + (l1 - l3) / 2 and D. */
  lemma VertexTerms(c: int, l1: real, l2: real, l3: real, num: real, den: real)
    requires num == -0.5 * (  l1 * ((c * c - (c + 1) * (c + 1)) as real)
                            - l2 * (((c - 1) * (c - 1) - (c + 1) * (c + 1)) as real)
                            + l3 * (((c - 1) * (c - 1) - c * c) as real))
    requires den == l1 * (((c + 1) - c) as real) - l3 * (((c - 1) - c) as real) + l2 * (((c - 1) - (c + 1)) as real)
    ensures den == Curvature(l1, l2, l3)
    ensures num == c as real * den + (l1 - l3) / 2.0
    ensures den != 0.0 ==> num / den == c as real + (l1 - l3) / (2.0 * den)
  {
    var cr := c as real;
    assert (c * c - (c + 1) * (c + 1)) as real == -2.0 * cr - 1.0;
    assert ((c - 1) * (c - 1) - (c + 1) * (c + 1)) as real == -4.0 * cr;
    assert ((c - 1) * (c - 1) - c * c) as real == -2.0 * cr + 1.0;
    assert num == -0.5 * (l1 * (-2.0 * cr - 1.0) - l2 * (-4.0 * cr) + l3 * (-2.0 * cr + 1.0));
    if den != 0.0 {
      QuotientSplit(num, den, cr, (l1 - l3) / 2.0);
    }
  }

  lemma QuotientSplit(num: real, den: real, a: real, b: real)
    requires den != 0.0 && num == a * den + b
    ensures num / den == a + b / den
  {
  }

  /** The parabola through (c - 1, l1), (c, l2), (c + 1, l3), at t. */
  function Parabola(c: int, l1: real, l2: real, l3: real, t: real): real {
    var s := t - c as real;
    l2 + (l3 - l1) / 2.0 * s + Curvature(l1, l2, l3) / 2.0 * s * s
  }

  /** Its slope at t. */
  function ParabolaSlope(c: int, l1: real, l2: real, l3: real, t: real): real {
    (l3 - l1) / 2.0 + Curvature(l1, l2, l3) * (t - c as real)
  }

  /**
   * The vertex is the stationary point of the parabola through the three
   * samples: the parabola takes the three values, and its slope vanishes
   * at the vertex.
   */
  lemma VertexIsStationary(c: int, l1: real, l2: real, l3: real)
    ensures Parabola(c, l1, l2, l3, c as real - 1.0) == l1
    ensures Parabola(c, l1, l2, l3, c as real) == l2
    ensures Parabola(c, l1, l2, l3, c as real + 1.0) == l3
    ensures Vertex(c, l1, l2, l3).Some? ==> ParabolaSlope(c, l1, l2, l3, Vertex(c, l1, l2, l3).value) == 0.0
  {
    var D := Curvature(l1, l2, l3);
    if D != 0.0 {
      var v := Vertex(c, l1, l2, l3).value;
      assert v - c as real == (l1 - l3) / (2.0 * D);
      Cancel(D, l1 - l3);
    }
  }

  lemma Cancel(d: real, a: real)
    requires d != 0.0
    ensures d * (a / (2.0 * d)) == a / 2.0
  {
  }

  /** Equal outer samples put the vertex on the middle pixel. */
  lemma VertexSymmetric(c: int, l1: real, l2: real)
    requires l1 != l2
    ensures Vertex(c, l1, l2, l1) == Some(c as real)
  {
  }

  /** A strict maximum in the middle keeps the vertex within half a pixel of it. */
  lemma VertexWithinHalfPixel(c: int, l1: real, l2: real, l3: real)
    requires l1 < l2 && l3 < l2
    ensures Vertex(c, l1, l2, l3).Some?
    ensures c as real - 0.5 < Vertex(c, l1, l2, l3).value < c as real + 0.5
  {
    var D := Curvature(l1, l2, l3);
    assert D < 0.0;
    HalfBound(l1 - l3, D);
  }

  lemma HalfBound(a: real, d: real)
    requires d < 0.0 && d < a && d < -a
    ensures -0.5 < a / (2.0 * d) < 0.5
  {
    var q := a / (2.0 * d);
    assert q * (2.0 * d) == a;
  }

  // ---------------------------------------------------------------------
  // The scan, as a specification
  // ---------------------------------------------------------------------

  /** The tracer recorded at pixel (row, col), if any. */
  function Detect(img: Image, min_intensity: real, r_px: real, isLocalMax: LocalMaxTest, row: int, col: int): Option<Tracer2D> {
    if img.Get(row, col) >= min_intensity && isLocalMax(img, row, col) then
      var ln_z2 := LnClamped(img.Get(row, col));
      match Vertex(col, LnClamped(img.Get(row, col - 1)), ln_z2, LnClamped(img.Get(row, col + 1)))
      case None => None
      case Some(xc) =>
        match Vertex(row, LnClamped(img.Get(row - 1, col)), ln_z2, LnClamped(img.Get(row + 1, col)))
        case None => None
        case Some(yc) => Some(Tracer2D(Pt2D(xc, yc), r_px))
    else None
  }

  function AsSeq(o: Option<Tracer2D>): seq<Tracer2D> {
    if o.Some? then [o.value] else []
  }

  /** The tracers found in row `row`, columns c0 .. c1 - 1, left to right. */
  function ScanRow(img: Image, min_intensity: real, r_px: real, isLocalMax: LocalMaxTest, row: int, c0: int, c1: int): (s: seq<Tracer2D>)
    ensures |s| <= if c0 <= c1 then c1 - c0 else 0
    decreases c1 - c0
  {
    if c1 <= c0 then []
    else ScanRow(img, min_intensity, r_px, isLocalMax, row, c0, c1 - 1) + AsSeq(Detect(img, min_intensity, r_px, isLocalMax, row, c1 - 1))
  }

  /** The tracers found in rows r0 .. r1 - 1, columns c0 .. c1 - 1, in row-major order. */
  function ScanRows(img: Image, min_intensity: real, r_px: real, isLocalMax: LocalMaxTest, r0: int, r1: int, c0: int, c1: int): (s: seq<Tracer2D>)
    decreases r1 - r0
  {
    if r1 <= r0 then []
    else
      ScanRows(img, min_intensity, r_px, isLocalMax, r0, r1 - 1, c0, c1) + ScanRow(img, min_intensity, r_px, isLocalMax, r1 - 1, c0, c1)
  }

  /** Every tracer found in a row carries the radius r_px. */
  lemma {:induction false} ScanRowRadius(img: Image, min_intensity: real, r_px: real, isLocalMax: LocalMaxTest, row: int, c0: int, c1: int)
    ensures forall t :: t in ScanRow(img, min_intensity, r_px, isLocalMax, row, c0, c1) ==> t.r_px == r_px
    decreases c1 - c0
  {
    if c0 < c1 {
      ScanRowRadius(img, min_intensity, r_px, isLocalMax, row, c0, c1 - 1);
    }
  }

  /** Every tracer found in the box carries the radius r_px. */
  lemma {:induction false} ScanRowsRadius(img: Image, min_intensity: real, r_px: real, isLocalMax: LocalMaxTest, r0: int, r1: int, c0: int, c1: int)
    ensures forall t :: t in ScanRows(img, min_intensity, r_px, isLocalMax, r0, r1, c0, c1) ==> t.r_px == r_px
    decreases r1 - r0
  {
    if r0 < r1 {
      ScanRowsRadius(img, min_intensity, r_px, isLocalMax, r0, r1 - 1, c0, c1);
      ScanRowRadius(img, min_intensity, r_px, isLocalMax, r1 - 1, c0, c1);
    }
  }

  /** No pixel of rows r0 .. r1 - 1, columns c0 .. c1 - 1 is brighter than max_intensity. */
  predicate Unsaturated(img: Image, max_intensity: real, r0: int, r1: int, c0: int, c1: int) {
    forall row, col :: r0 <= row < r1 && c0 <= col < c1 ==> img.Get(row, col) <= max_intensity
  }

  /** (rs, cs) is the first pixel of the box, in row-major order, brighter than max_intensity. */
  predicate FirstSaturated(img: Image, max_intensity: real, r0: int, r1: int, c0: int, c1: int, rs: int, cs: int) {
    r0 <= rs < r1 && c0 <= cs < c1 && img.Get(rs, cs) > max_intensity
    && Unsaturated(img, max_intensity, r0, rs, c0, c1)
    && Unsaturated(img, max_intensity, rs, rs + 1, c0, cs)
  }

  // ---------------------------------------------------------------------
  // The scan loops
  // ---------------------------------------------------------------------

  /**
   * The scan shared by both findTracer2D overloads: rows r0 .. r1 - 1 and
   * columns c0 .. c1 - 1, appending to `list`.
   */
  method ScanBox(list: seq<Tracer2D>, img: Image, max_intensity: real, min_intensity: real, r_px: real,
                 isLocalMax: LocalMaxTest, r0: int, r1: int, c0: int, c1: int)
    returns (out: seq<Tracer2D>, r: Outcome)
    ensures r.Pass? <==> Unsaturated(img, max_intensity, r0, r1, c0, c1)
    ensures r.Pass? ==> out == list + ScanRows(img, min_intensity, r_px, isLocalMax, r0, r1, c0, c1)
    ensures r.Fail? ==> r.error == ErrorRange
    ensures r.Fail? ==> exists rs, cs :: FirstSaturated(img, max_intensity, r0, r1, c0, c1, rs, cs)
                          && out == list + ScanRows(img, min_intensity, r_px, isLocalMax, r0, rs, c0, c1)
                                         + ScanRow(img, min_intensity, r_px, isLocalMax, rs, c0, cs)
  {
    out := list;
    var row := r0;
    while row < r1
      invariant r0 <= row <= if r0 <= r1 then r1 else r0
      invariant Unsaturated(img, max_intensity, r0, row, c0, c1)
      invariant out == list + ScanRows(img, min_intensity, r_px, isLocalMax, r0, row, c0, c1)
      decreases r1 - row
    {
      var rowOut, cs := ScanRowLoop(out, img, max_intensity, min_intensity, r_px, isLocalMax, row, c0, c1);
      if cs < c1 {
        SaturatedStop(list, out, rowOut, img, max_intensity, min_intensity, r_px, isLocalMax, r0, r1, c0, c1, row, cs);
        return rowOut, Fail(ErrorRange);
      }
      RowsStep(img, max_intensity, min_intensity, r_px, isLocalMax, r0, row, c0, c1);
      out := rowOut;
      row := row + 1;
    }
    RowsDone(img, max_intensity, min_intensity, r_px, isLocalMax, r0, r1, row, c0, c1);
    r := Pass;
  }

  /** One more column of a row: the tracers so far, then the one at column cs, if any. */
  lemma ColStep(img: Image, min_intensity: real, r_px: real, isLocalMax: LocalMaxTest, row: int, c0: int, cs: int, found: Option<Tracer2D>)
    requires c0 <= cs && found == Detect(img, min_intensity, r_px, isLocalMax, row, cs)
    ensures ScanRow(img, min_intensity, r_px, isLocalMax, row, c0, cs + 1)
         == ScanRow(img, min_intensity, r_px, isLocalMax, row, c0, cs) + AsSeq(found)
  {
  }

  /** The scan stopped at the first saturated pixel (rs, cs). */
  lemma SaturatedStop(list: seq<Tracer2D>, out: seq<Tracer2D>, rowOut: seq<Tracer2D>, img: Image, max_intensity: real, min_intensity: real,
                      r_px: real, isLocalMax: LocalMaxTest, r0: int, r1: int, c0: int, c1: int, rs: int, cs: int)
    requires r0 <= rs < r1 && c0 <= cs < c1 && img.Get(rs, cs) > max_intensity
    requires Unsaturated(img, max_intensity, r0, rs, c0, c1) && Unsaturated(img, max_intensity, rs, rs + 1, c0, cs)
    requires out == list + ScanRows(img, min_intensity, r_px, isLocalMax, r0, rs, c0, c1)
    requires rowOut == out + ScanRow(img, min_intensity, r_px, isLocalMax, rs, c0, cs)
    ensures exists rs', cs' :: FirstSaturated(img, max_intensity, r0, r1, c0, c1, rs', cs')
              && rowOut == list + ScanRows(img, min_intensity, r_px, isLocalMax, r0, rs', c0, c1)
                                + ScanRow(img, min_intensity, r_px, isLocalMax, rs', c0, cs')
  {
    assert FirstSaturated(img, max_intensity, r0, r1, c0, c1, rs, cs);
  }

  /** When the row loop stops, it has covered the whole box (an empty one if r1 < r0). */
  lemma RowsDone(img: Image, max_intensity: real, min_intensity: real, r_px: real, isLocalMax: LocalMaxTest, r0: int, r1: int, row: int, c0: int, c1: int)
    requires r0 <= row <= (if r0 <= r1 then r1 else r0) && r1 <= row
    ensures ScanRows(img, min_intensity, r_px, isLocalMax, r0, row, c0, c1) == ScanRows(img, min_intensity, r_px, isLocalMax, r0, r1, c0, c1)
    ensures Unsaturated(img, max_intensity, r0, row, c0, c1) ==> Unsaturated(img, max_intensity, r0, r1, c0, c1)
  {
  }

  /** One more row of the box: the rows so far, then that row. */
  lemma RowsStep(img: Image, max_intensity: real, min_intensity: real, r_px: real, isLocalMax: LocalMaxTest, r0: int, row: int, c0: int, c1: int)
    requires r0 <= row
    ensures ScanRows(img, min_intensity, r_px, isLocalMax, r0, row + 1, c0, c1)
         == ScanRows(img, min_intensity, r_px, isLocalMax, r0, row, c0, c1) + ScanRow(img, min_intensity, r_px, isLocalMax, row, c0, c1)
    ensures Unsaturated(img, max_intensity, r0, row, c0, c1) && Unsaturated(img, max_intensity, row, row + 1, c0, c1)
         ==> Unsaturated(img, max_intensity, r0, row + 1, c0, c1)
  {
  }

  /**
   * The inner loop of the scan over row `row`: cs is c1 (or c0 for an empty
   * range) when the row is done, otherwise the first saturated column.
   */
  method ScanRowLoop(before: seq<Tracer2D>, img: Image, max_intensity: real, min_intensity: real, r_px: real,
                     isLocalMax: LocalMaxTest, row: int, c0: int, c1: int)
    returns (out: seq<Tracer2D>, cs: int)
    ensures c0 <= cs && (c0 <= c1 ==> cs <= c1)
    ensures Unsaturated(img, max_intensity, row, row + 1, c0, cs)
    ensures cs < c1 ==> img.Get(row, cs) > max_intensity
    ensures cs < c1 ==> out == before + ScanRow(img, min_intensity, r_px, isLocalMax, row, c0, cs)
    ensures c1 <= cs ==> out == before + ScanRow(img, min_intensity, r_px, isLocalMax, row, c0, c1)
  {
    out := before;
    cs := c0;
    while cs < c1
      invariant c0 <= cs <= if c0 <= c1 then c1 else c0
      invariant Unsaturated(img, max_intensity, row, row + 1, c0, cs)
      invariant out == before + ScanRow(img, min_intensity, r_px, isLocalMax, row, c0, cs)
      decreases c1 - cs
    {
      if img.Get(row, cs) > max_intensity {
        return;
      }
      var found := DetectAt(img, min_intensity, r_px, isLocalMax, row, cs);
      ColStep(img, min_intensity, r_px, isLocalMax, row, c0, cs, found);
      out := out + AsSeq(found);
      cs := cs + 1;
    }
    if c1 < c0 {
      assert ScanRow(img, min_intensity, r_px, isLocalMax, row, c0, c1) == [];
      assert ScanRow(img, min_intensity, r_px, isLocalMax, row, c0, cs) == [];
    } else {
      assert cs == c1;
    }
  }

  /** The body of the scan at one candidate pixel, step by step as the C++ code does it. */
  method DetectAt(img: Image, min_intensity: real, r_px: real, isLocalMax: LocalMaxTest, row: int, col: int)
    returns (found: Option<Tracer2D>)
    ensures found == Detect(img, min_intensity, r_px, isLocalMax, row, col)
  {
    found := None;
    if img.Get(row, col) >= min_intensity && isLocalMax(img, row, col) {
      var ln_z1 := LnClamped(img.Get(row, col - 1));
      var ln_z2 := LnClamped(img.Get(row, col));
      var ln_z3 := LnClamped(img.Get(row, col + 1));
      var xc := Vertex(col, ln_z1, ln_z2, ln_z3);
      if xc.Some? {
        ln_z1 := LnClamped(img.Get(row - 1, col));
        ln_z3 := LnClamped(img.Get(row + 1, col));
        var yc := Vertex(row, ln_z1, ln_z2, ln_z3);
        if yc.Some? {
          found := Some(Tracer2D(Pt2D(xc.value, yc.value), r_px));
        }
      }
    }
  }

  /**
   * findTracer2D(tr2d_list, img, max_intensity, min_intensity, r_px): the
   * scan of every interior pixel, rows 1 .. nRow - 2 and columns 1 .. nCol - 2.
   */
  method FindTracer2D(list: seq<Tracer2D>, img: Image, max_intensity: real, min_intensity: real, r_px: real,
                      isLocalMax: LocalMaxTest)
    returns (out: seq<Tracer2D>, r: Outcome)
    ensures r.Pass? <==> Unsaturated(img, max_intensity, 1, img.rows - 1, 1, img.cols - 1)
    ensures r.Pass? ==> out == list + ScanRows(img, min_intensity, r_px, isLocalMax, 1, img.rows - 1, 1, img.cols - 1)
    ensures r.Fail? ==> r.error == ErrorRange
    ensures |list| <= |out| && out[..|list|] == list
    ensures forall k :: |list| <= k < |out| ==> out[k].r_px == r_px
  {
    out, r := ScanBox(list, img, max_intensity, min_intensity, r_px, isLocalMax, 1, img.rows - 1, 1, img.cols - 1);
    AppendOnly(list, out, img, max_intensity, min_intensity, r_px, isLocalMax, r, 1, img.rows - 1, 1, img.cols - 1);
  }

  /**
   * findTracer2D(tr2d_list, img, max_intensity, min_intensity, r_px, region):
   * a region reaching outside the image is refused with error_range before
   * anything is scanned; otherwise the scan covers rows row_min + 1 ..
   * row_max - 2 and columns col_min + 1 .. col_max - 2.
   */
  method FindTracer2DRegion(list: seq<Tracer2D>, img: Image, max_intensity: real, min_intensity: real, r_px: real,
                            isLocalMax: LocalMaxTest, region: PixelRange)
    returns (out: seq<Tracer2D>, r: Outcome)
    ensures OutsideImage(img, region) ==> out == list && r == Fail(ErrorRange)
    ensures !OutsideImage(img, region) ==>
              var (r0, r1, c0, c1) := (region.row_min + 1, region.row_max - 1, region.col_min + 1, region.col_max - 1);
              (r.Pass? <==> Unsaturated(img, max_intensity, r0, r1, c0, c1))
              && (r.Pass? ==> out == list + ScanRows(img, min_intensity, r_px, isLocalMax, r0, r1, c0, c1))
              && (r.Fail? ==> r.error == ErrorRange)
    ensures |list| <= |out| && out[..|list|] == list
    ensures forall k :: |list| <= k < |out| ==> out[k].r_px == r_px
  {
    if region.row_min < 0 || region.row_max > img.rows || region.col_min < 0 || region.col_max > img.cols {
      return list, Fail(ErrorRange);
    }
    var r0, r1, c0, c1 := region.row_min + 1, region.row_max - 1, region.col_min + 1, region.col_max - 1;
    out, r := ScanBox(list, img, max_intensity, min_intensity, r_px, isLocalMax, r0, r1, c0, c1);
    AppendOnly(list, out, img, max_intensity, min_intensity, r_px, isLocalMax, r, r0, r1, c0, c1);
  }

  /** The region check of the second overload. */
  predicate OutsideImage(img: Image, region: PixelRange)
    reads region
  {
    region.row_min < 0 || region.row_max > img.rows || region.col_min < 0 || region.col_max > img.cols
  }

  /** Whatever the outcome, the scan only appends tracers of radius r_px. */
  lemma AppendOnly(list: seq<Tracer2D>, out: seq<Tracer2D>, img: Image, max_intensity: real, min_intensity: real, r_px: real,
                   isLocalMax: LocalMaxTest, r: Outcome, r0: int, r1: int, c0: int, c1: int)
    requires r.Pass? ==> out == list + ScanRows(img, min_intensity, r_px, isLocalMax, r0, r1, c0, c1)
    requires r.Fail? ==> exists rs, cs :: FirstSaturated(img, max_intensity, r0, r1, c0, c1, rs, cs)
                          && out == list + ScanRows(img, min_intensity, r_px, isLocalMax, r0, rs, c0, c1)
                                         + ScanRow(img, min_intensity, r_px, isLocalMax, rs, c0, cs)
    ensures |list| <= |out| && out[..|list|] == list
    ensures forall k :: |list| <= k < |out| ==> out[k].r_px == r_px
  {
    if r.Pass? {
      ScanRowsRadius(img, min_intensity, r_px, isLocalMax, r0, r1, c0, c1);
      Extended(list, ScanRows(img, min_intensity, r_px, isLocalMax, r0, r1, c0, c1), r_px);
    } else {
      var rs, cs :| FirstSaturated(img, max_intensity, r0, r1, c0, c1, rs, cs)
        && out == list + ScanRows(img, min_intensity, r_px, isLocalMax, r0, rs, c0, c1)
                       + ScanRow(img, min_intensity, r_px, isLocalMax, rs, c0, cs);
      PartialScanAppends(list, out, img, min_intensity, r_px, isLocalMax, r0, rs, c0, c1, cs);
    }
  }

  /** A scan stopped at (rs, cs) has appended tracers of radius r_px only. */
  lemma PartialScanAppends(list: seq<Tracer2D>, out: seq<Tracer2D>, img: Image, min_intensity: real, r_px: real,
                           isLocalMax: LocalMaxTest, r0: int, rs: int, c0: int, c1: int, cs: int)
    requires out == list + ScanRows(img, min_intensity, r_px, isLocalMax, r0, rs, c0, c1)
                         + ScanRow(img, min_intensity, r_px, isLocalMax, rs, c0, cs)
    ensures |list| <= |out| && out[..|list|] == list
    ensures forall k :: |list| <= k < |out| ==> out[k].r_px == r_px
  {
    var rows := ScanRows(img, min_intensity, r_px, isLocalMax, r0, rs, c0, c1);
    var row := ScanRow(img, min_intensity, r_px, isLocalMax, rs, c0, cs);
    ScanRowsRadius(img, min_intensity, r_px, isLocalMax, r0, rs, c0, c1);
    ScanRowRadius(img, min_intensity, r_px, isLocalMax, rs, c0, cs);
    assert out == list + (rows + row);
    Extended(list, rows + row, r_px);
  }

  /** list + tail starts with list, and its new entries are those of tail. */
  lemma Extended(list: seq<Tracer2D>, tail: seq<Tracer2D>, r_px: real)
    requires forall t :: t in tail ==> t.r_px == r_px
    ensures |list| <= |list + tail| && (list + tail)[..|list|] == list
    ensures forall k :: |list| <= k < |list + tail| ==> (list + tail)[k].r_px == r_px
  {
    forall k | |list| <= k < |list + tail|
      ensures (list + tail)[k].r_px == r_px
    {
      assert (list + tail)[k] == tail[k - |list|];
      assert tail[k - |list|] in tail;
    }
  }

  /**
   * findObject2D(obj2d_list, img, properties): for Tracer2D the list is
   * cleared and filled by the full-image scan with max_intensity,
   * min_intensity and r_px taken from properties[0], [1], [2]; any other
   * object type is refused with error_type and the list is left alone.
   */
  method FindObject2D(list: seq<Tracer2D>, kind: Object2DKind, img: Image, properties: seq<real>, isLocalMax: LocalMaxTest)
    returns (out: seq<Tracer2D>, r: Outcome)
    requires kind == Tracer2DKind ==> 3 <= |properties|
    ensures kind == Other2DKind ==> out == list && r == Fail(ErrorType)
    ensures kind == Tracer2DKind ==>
              (r.Pass? <==> Unsaturated(img, properties[0], 1, img.rows - 1, 1, img.cols - 1))
              && (r.Pass? ==> out == ScanRows(img, properties[1], properties[2], isLocalMax, 1, img.rows - 1, 1, img.cols - 1))
              && (r.Fail? ==> r.error == ErrorRange)
              && forall k :: 0 <= k < |out| ==> out[k].r_px == properties[2]
  {
    if kind != Tracer2DKind {
      return list, Fail(ErrorType);
    }
    out, r := FindTracer2D([], img, properties[0], properties[1], properties[2], isLocalMax);
  }

  /** findObject2D(obj2d_list, img, properties, region): the same, with the region scan. */
  method FindObject2DRegion(list: seq<Tracer2D>, kind: Object2DKind, img: Image, properties: seq<real>,
                            isLocalMax: LocalMaxTest, region: PixelRange)
    returns (out: seq<Tracer2D>, r: Outcome)
    requires kind == Tracer2DKind ==> 3 <= |properties|
    ensures kind == Other2DKind ==> out == list && r == Fail(ErrorType)
    ensures kind == Tracer2DKind && OutsideImage(img, region) ==> out == [] && r == Fail(ErrorRange)
    ensures kind == Tracer2DKind && !OutsideImage(img, region) ==>
              var (r0, r1, c0, c1) := (region.row_min + 1, region.row_max - 1, region.col_min + 1, region.col_max - 1);
              (r.Pass? <==> Unsaturated(img, properties[0], r0, r1, c0, c1))
              && (r.Pass? ==> out == ScanRows(img, properties[1], properties[2], isLocalMax, r0, r1, c0, c1))
              && (r.Fail? ==> r.error == ErrorRange)
    ensures kind == Tracer2DKind ==> forall k :: 0 <= k < |out| ==> out[k].r_px == properties[2]
  {
    if kind != Tracer2DKind {
      return list, Fail(ErrorType);
    }
    out, r := FindTracer2DRegion([], img, properties[0], properties[1], properties[2], isLocalMax, region);
  }
}
