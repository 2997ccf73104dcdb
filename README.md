# OpenLPT kernel in Dafny

OpenLPT is a Lagrangian particle-tracking system. Cameras photograph
particles, 2D peaks are found in each image and then triangulated into 3D,
and each 3D particle is followed from frame to frame by "shake-the-box"
tracks. This project models the numerical and bookkeeping kernel that all of
this rests on, and proves properties of that model:

- the dense matrix type and its row-major layout, 3D/2D points and lines
  (`Matrices`, matrix.dfy);
- `eye` and `piecewiseProduct` (`MatrixOps`);
- the scaled-partial-pivoting Gauss–Jordan inverse on a row-permutation
  vector, the closed-form 3×3 adjugate inverse and the `inverse` dispatcher
  (`Permutations`, `Gauss`, `Inverse`);
- the robust statistics `sortID`, `getMedian` and `isOutlier` (`Stats`);
- the geometry of `myMATH.cpp` (`Geometry`, `Triangulate`, `Polyfit`):
  - `linspace`, `triLinearInterp`, `createUnitVector`, `dot` and `dist`;
  - the least-squares `triangulation` of lines of sight;
  - `crossPoint` of two 2D lines;
  - `polyfit` by normal equations;
- the sub-pixel 2D peak scan `findTracer2D` / `findObject2D`
  (`ObjectFinder`);
- `PixelRange`, `AxisLimit` and `ErrorTypeID` (`STBCommons`);
- the `ObjectInfo` / `TracerInfo` records (`ObjectInfos`);
- the `Track` class and its adaptive (NLMS) position predictor (`Tracking`);
- the grid indexing and the displacement-map parameters of `PredField`
  (`PredFields`).

Doubles are modelled as `real`. `sqrt` and `log` are uninterpreted
functions (`LibM.Sqrt`, `LibM.Log`). Their laws are stated as the predicates
`SqrtLaw()` and `LogLaw()` and used as hypotheses where a property needs
them. A C++ `throw error_xxx` becomes an `Err(...)` or `Fail(...)` value
carrying the matching `ErrorTypeID`. Where the data make a division
degenerate, the model returns `ErrorDiv0` instead of going on:

- a zero determinant in `detInverse` and a zero window energy in the
  predictor, where the code divides by zero and carries on with
  `inf`/`NaN`;
- a singular matrix in the Gauss–Jordan inverse. There the code as written
  does not always divide by zero: its pivot scan (the first row of the
  Findings below) swaps a finished row back in, and the result is either
  non-finite or a finite matrix that is not an inverse.

Methods that work in place keep their arrays or class fields:

- `gaussForward` and `gaussBackward` on `array2<real>` and `array<int>`;
- `sortID` and `isOutlier` on `array<int>`;
- `PixelRange`, `AxisLimit`, `ObjectInfo`, `TracerInfo`, `Track` and
  `PredField` as classes.

Each such method is proved against a specification function whose
properties are proved as lemmas.

Where the code and its comments or tests disagree, the model follows the
code, except for the three defects listed under Findings below: there the
modelled operations use the corrected code, and each defect is modelled as
written in a separate member. The other disagreements:

- `triLinearInterp` rejects a point outside the box with `error_range`. Its
  comment says such points are clamped.
- `detInverse` rejects every matrix that is not 3×3.
- `inverse` rejects integer matrices with `error_type`.
- The point–line distance is named `dist` in myMATH.cpp (`distance` in
  the header).
- `triangulation` takes `(pt_world, error, lines)`.

## Model

| member | source | states |
|---|---|---|
| STBCommons.ErrorTypeID.Code | inc/libMath/STBCommons.h:105-114 | the error codes are 1..7, with error_size = 1 and error_div0 = 6 |
| STBCommons.Hull | inc/libMath/STBCommons.h:30-40 | the widened range contains the old range and the new value, and changes only an end the value passes |
| STBCommons.PixelRange.constructor | inc/libMath/STBCommons.h:19-26 | a new range is all zeros and satisfies min <= max |
| STBCommons.PixelRange.SetRowRange | inc/libMath/STBCommons.h:30-40 | raises row_max to a larger row, else lowers row_min to a smaller one; only widens; keeps row_min <= row <= row_max as a closed range; columns unchanged |
| STBCommons.PixelRange.SetColRange | inc/libMath/STBCommons.h:44-54 | the same for the columns; rows unchanged |
| STBCommons.PixelRange.SetRange | inc/libMath/STBCommons.h:58-62 | rows widened by row only and columns by col only; validity kept |
| STBCommons.PixelRange.GetNumOfRow | inc/libMath/STBCommons.h:63-66 | row_max - row_min, non-negative while the range is valid |
| STBCommons.PixelRange.GetNumOfCol | inc/libMath/STBCommons.h:67-70 | col_max - col_min, non-negative while the range is valid |
| STBCommons.AxisLimit.constructor | inc/libMath/STBCommons.h:73-80 | all six bounds start at 0 |
| STBCommons.AxisLimit.Assign | inc/libMath/STBCommons.h:82-90 | operator= copies all six bounds |
| STBCommons.AxisLimit.Check | inc/libMath/STBCommons.h:92-102 | true iff every coordinate lies in its closed [min, max] interval |
| Matrices.FlatIndexFacts | inc/libMath/Matrix.h:33 | i*cols + j lies below rows*cols and gives back i and j by division and remainder |
| Matrices.FlatIndexBijective | inc/libMath/Matrix.h:67-71 | every flat index k is the row-major index of (k / cols, k % cols) |
| Matrices.FlatIndexInverse | inc/libMath/Matrix.h:33 | mapID is inverted by division and remainder by cols |
| Matrices.FlatLayout | inc/libMath/Matrix.h:67-71 | operator[] on the flat buffer reads element (i, j) at index i*cols + j, and index k at (k / cols, k % cols) |
| Matrices.Filled | inc/libMath/Matrix.h:46 | Matrix(rows, cols, val) has that shape and val in every entry |
| Matrices.Mul | inc/libMath/Matrix.h:98 | the product has the outer shape and row-times-column entries |
| Matrices.MulIdentity | inc/libMath/Matrix.h:98 | the identity is a left and right unit of the product |
| Matrices.MulAssoc | inc/libMath/Matrix.h:98 | the product is associative |
| Matrices.Transpose | inc/libMath/Matrix.h:106 | the transpose swaps the shape and the indices |
| Matrices.Add | inc/libMath/Matrix.h:94 | the sum is entrywise |
| Matrices.Snap | inc/libMath/Matrix.h:65-66 | the value of a 2D buffer, entry by entry |
| Matrices.ToArray | inc/libMath/Matrix.h:45 | a fresh buffer holding the matrix (a deep copy) |
| Matrices.Pt3DLayout | inc/libMath/Matrix.h:114-115 | Pt3D(x, y, z) is the 3×1 column (x, y, z) |
| Matrices.Pt3DRoundTrip | inc/libMath/Matrix.h:114-117 | Pt3D() is the zero column; Pt3D(Matrix) keeps elements 0..2, and converting a point to a matrix and back is the identity both ways |
| Matrices.Pt2DLayout | inc/libMath/Matrix.h:125-126 | Pt2D(x, y) is the 2×1 column (x, y) |
| Matrices.Pt2DRoundTrip | inc/libMath/Matrix.h:125-128 | Pt2D() is the zero column; Pt2D(Matrix) keeps elements 0..1; round trip both ways |
| Matrices.DefaultImage | inc/libMath/Matrix.h:152 | Image() is a 1×1 zero image |
| Matrices.DotSymmetric | src/srcMath/myMATH.cpp:120-128 | the 3D dot product is symmetric |
| Geometry.NormOfColumn | inc/libMath/Matrix.h:88 | norm() of a point's column is the square root of its dot product with itself |
| MatrixOps.Eye | inc/libMath/myMATH.h:142-150 | the loop builds exactly Identity(n) |
| MatrixOps.PiecewiseProduct | inc/libMath/myMATH.h:155-173 | error_size iff the shapes differ; otherwise res(i, j) == a(i, j) * b(i, j) |
| MatrixOps.PiecewiseLaws | inc/libMath/myMATH.h:155-173 | the piecewise product is commutative and has the all-ones matrix as unit |
| Permutations.IdentityPermutation | inc/libMath/myMATH.h:195-197 | the initial sortedRowIndex 0..n-1 is a permutation |
| Permutations.SwapPermutation | inc/libMath/myMATH.h:217 | swapping two entries keeps a permutation |
| Gauss.RowMax | inc/libMath/myMATH.h:198-199 | max_element of a row: the largest signed entry of that row |
| Gauss.RowMaxima | inc/libMath/myMATH.h:195-200 | sortedRowIndex becomes the identity and maxOfrow holds every row's largest signed entry |
| Gauss.ScaledPivot | inc/libMath/myMATH.h:209-211 | the scaled pivot beats 0 (IEEE >, with inf and NaN) iff the entry is non-zero |
| Gauss.PivotScanFacts | inc/libMath/myMATH.h:207-216 | the scan keeps the first strictly greatest candidate, and none after it is greater |
| Gauss.PivotInRange | inc/libMath/myMATH.h:204-216 | a scan started at the current step picks a row at or below it |
| Gauss.SelectPivot | inc/libMath/myMATH.h:204-216 | the chosen row is the scan's result; the best pivot is 0 iff the remaining column is zero, and otherwise the chosen entry is non-zero |
| Gauss.ScanColumn | inc/libMath/myMATH.h:207-216 | the loop computes the pivot scan |
| Gauss.SwapPivot | inc/libMath/myMATH.h:217 | swaps the two row indices, keeps a permutation and the factorisation stage |
| Gauss.RowUpdate | inc/libMath/myMATH.h:223-231 | stores the multiplier and subtracts m times the pivot row right of the step; nothing else changes |
| Gauss.EliminateRow | inc/libMath/myMATH.h:221-232 | one row eliminated below the pivot keeps the factorisation invariant |
| Gauss.Eliminate | inc/libMath/myMATH.h:220-232 | one elimination step advances the factorisation stage by one column |
| Gauss.GaussForward | inc/libMath/myMATH.h:180-234 | sortedRowIndex stays a permutation; on success u holds L (multipliers) and U with L·U equal to the permuted input; on failure the input is singular |
| Gauss.FwdStep | inc/libMath/myMATH.h:260-261 | one forward-substitution update of the right-hand side |
| Gauss.ForwardColumn | inc/libMath/myMATH.h:254-263 | a column of b becomes L⁻¹ times that column of the permuted input; other columns unchanged |
| Gauss.Residual | inc/libMath/myMATH.h:271-275 | z is b minus the already solved part of the row |
| Gauss.BackRow | inc/libMath/myMATH.h:269-277 | one back-substitution row solved |
| Gauss.BackColumn | inc/libMath/myMATH.h:265-277 | a column of res solves U·x = column of b |
| Gauss.GaussBackward | inc/libMath/myMATH.h:237-282 | res is fresh, n×n, and solves L·U·res = P·b column by column |
| Gauss.FactorsMul | inc/libMath/myMATH.h:182-188 | the stored multipliers and the upper triangle multiply back to the permuted input |
| Gauss.InverseFromFactors | inc/libMath/myMATH.h:288-296 | forward and backward substitution against the identity give A·X == I |
| Gauss.GaussInverse | inc/libMath/myMATH.h:285-297 | Ok: A·X == I and A is non-singular; Err: error_div0 exactly when A is singular; the input is not modified |
| Gauss.FactoredNonSingular | inc/libMath/myMATH.h:180-234 | a completed factorisation with non-zero pivots means the input is non-singular |
| Gauss.StuckSingular | inc/libMath/myMATH.h:204-217 | a step whose remaining column is all zero means the input is singular (an explicit null vector is built) |
| Gauss.SingularNoInverse | inc/libMath/myMATH.h:285-297 | a singular matrix has no left inverse |
| PivotFinding.PivotStartsAtZero | inc/libMath/myMATH.h:204-217 | with t starting at 0, a zero remaining column swaps an already finished row back into the sub-matrix |
| PivotFinding.PivotStartsAtStep | inc/libMath/myMATH.h:204-217 | with t starting at iter_y the same input keeps the row and is reported singular |
| Inverse.DetInverse | inc/libMath/myMATH.h:300-340 | error_size iff not square or not 3×3; error_div0 iff det == 0; otherwise the adjugate divided by det |
| Inverse.AdjugateEntry | inc/libMath/myMATH.h:324-337 | m·adj(m) and adj(m)·m are det(m) times the identity, entry by entry |
| Inverse.DetInverseCorrect | inc/libMath/myMATH.h:300-340 | a successful detInverse is a two-sided inverse |
| Inverse.RightInverseTwoSided | inc/libMath/myMATH.h:300-340 | any right inverse of a 3×3 matrix is the detInverse result and also a left inverse |
| Inverse.Inverse | inc/libMath/myMATH.h:346-374 | integer elements give error_type; non-square gives error_size; "gauss" inverts or reports a singular input; "det" is detInverse; any other method is error_type |
| Stats.SortID | inc/libMath/myMATH.h:28-51 | error_size (nothing written) iff the lengths differ; otherwise a permutation of 0..n-1 ordering nums non-decreasingly |
| Stats.InsertLast | inc/libMath/myMATH.h:49-50 | one insertion step keeps a permutation and extends the sorted prefix |
| Stats.ArgSortUnique | inc/libMath/myMATH.h:44-50 | with distinct values the argsort is unique |
| Stats.SortIDExample | inc/libMath/myMATH.h:28-51 | {5,4,1,2,3} sorts to {2,3,4,1,0} |
| Stats.GetMedian | inc/libMath/myMATH.h:55-71 | the middle sorted value (odd n) or the mean of the two middle values (even n), which lies between two of the inputs |
| Stats.MedianSplits | inc/libMath/myMATH.h:55-71 | at least half the values are at most the median and at least half at least it |
| Stats.MedianExample | inc/libMath/myMATH.h:55-71 | the median of {5,4,1,2,3} is 3 |
| Stats.Deviations | inc/libMath/myMATH.h:86-91 | the absolute deviations from the median, one per value |
| Stats.AbsDeviations | inc/libMath/myMATH.h:86-91 | the loop computes exactly those deviations |
| Stats.FlagOutside | inc/libMath/myMATH.h:97-107 | judge[i] is 1 outside [lb, rb] and 0 inside |
| Stats.IsOutlier | inc/libMath/myMATH.h:75-108 | error_size (nothing written) iff the lengths differ; otherwise the flags are those of median ± 3·1.4826·MAD |
| Stats.MedianNeverFlagged | inc/libMath/myMATH.h:93-107 | a value equal to the median is never flagged |
| Stats.OutlierExample | inc/libMath/myMATH.h:75-108 | {10,4,1,2,3} is flagged {1,0,0,0,0} |
| Geometry.Linspace | src/srcMath/myMATH.cpp:8-29 | error_size iff n < 2; otherwise n evenly spaced values from min to max, ascending when min <= max |
| Geometry.EvenGrid | src/srcMath/myMATH.cpp:20-26 | the values min + i·delta start at min, end at max and differ by delta per step |
| Geometry.TriLinearInterp | src/srcMath/myMATH.cpp:32-99 | error_range iff a normalised coordinate leaves [0, 1]; otherwise the result lies between the smallest and largest corner value |
| Geometry.TriLinearCorners | src/srcMath/myMATH.cpp:58-96 | at the eight corners the result is value[0..7] in the order c000, c100, c101, c001, c010, c110, c111, c011 |
| Geometry.BlendBounds | src/srcMath/myMATH.cpp:88-96 | the three nested interpolations are convex combinations of the corners |
| Geometry.CreateUnitVector | src/srcMath/myMATH.cpp:103-108 | the result has unit squared norm and scales back to pt2 - pt1 |
| Geometry.CreateUnitVector2D | src/srcMath/myMATH.cpp:112-117 | the same in 2D |
| Geometry.Dot | src/srcMath/myMATH.cpp:120-128 | the loop computes the sum of the component products |
| Geometry.Dot2 | src/srcMath/myMATH.cpp:131-139 | the same in 2D |
| Geometry.DotLaws | src/srcMath/myMATH.cpp:120-139 | dot is symmetric and linear in its first argument |
| Geometry.DistPoints | src/srcMath/myMATH.cpp:142-146 | a non-negative number whose square is the squared distance |
| Geometry.DistPoints2D | src/srcMath/myMATH.cpp:149-153 | the same in 2D |
| Geometry.DistPointsLaws | src/srcMath/myMATH.cpp:142-146 | the distance is symmetric and is 0 iff the points coincide |
| Geometry.DistLine | src/srcMath/myMATH.cpp:156-183 | error_range iff h <= -SQRTSMALLNUMBER; 0 for a slightly negative h; otherwise sqrt(h) |
| Geometry.DistLine2D | src/srcMath/myMATH.cpp:186-213 | the same in 2D |
| Geometry.ResidualNonNegative | src/srcMath/myMATH.cpp:156-213 | with a unit direction h >= 0, so the error branch cannot be taken |
| Geometry.PointOnLine | src/srcMath/myMATH.cpp:156-183 | a point on the line is at distance 0 |
| Geometry.PointOnLine2D | src/srcMath/myMATH.cpp:186-213 | the same in 2D |
| Geometry.Lagrange3D | src/srcMath/myMATH.cpp:163-166 | the residual |d|²|u|² - (d·u)² is the squared cross product |
| Geometry.CrossPoint | src/srcMath/myMATH.cpp:286-304 | error_range iff the lines are parallel within SMALLNUMBER; otherwise a point of line 1 that also lies on line 2 |
| Geometry.CrossPointOnLine2 | src/srcMath/myMATH.cpp:297-301 | the parameter num/den puts the point on the second line |
| Triangulate.ProjectorApply | src/srcMath/myMATH.cpp:243-245 | I - n nᵀ applied to p is p minus its component along n |
| Triangulate.ProjectorKillsDirection | src/srcMath/myMATH.cpp:243-245 | the projector removes the line's direction |
| Triangulate.NormalEquations | src/srcMath/myMATH.cpp:234-249 | the loop sums the projectors and the projected reference points |
| Triangulate.CommonPointSolves | src/srcMath/myMATH.cpp:234-251 | a point common to all lines solves the normal equations |
| Triangulate.Solve | src/srcMath/myMATH.cpp:251 | error_div0 iff the system is singular; otherwise A·x == b |
| Triangulate.LineError | src/srcMath/myMATH.cpp:258-279 | error_range iff h < -SMALLNUMBER; otherwise a non-negative distance |
| Triangulate.ErrorSumFails | src/srcMath/myMATH.cpp:256-281 | the sum fails iff some line's term fails, with error_range |
| Triangulate.ErrorSumNonNegative | src/srcMath/myMATH.cpp:256-281 | a successful error sum is non-negative |
| Triangulate.ErrorSumConcurrent | src/srcMath/myMATH.cpp:256-281 | for a point on every line the error sum is 0 |
| Triangulate.SumLineErrors | src/srcMath/myMATH.cpp:254-281 | the loop computes the error sum |
| Triangulate.Mean | src/srcMath/myMATH.cpp:282 | the mean times n is the total; non-negative for a non-negative total |
| Triangulate.Triangulation | src/srcMath/myMATH.cpp:216-283 | error_size iff fewer than 2 lines; error_div0 iff the system is singular; otherwise the unique least-squares point and the mean line error |
| Triangulate.LeastSquaresUnique | src/srcMath/myMATH.cpp:251 | a non-singular system has one least-squares point |
| Triangulate.TriangulationExact | src/srcMath/myMATH.cpp:216-283 | lines through a common point x give x with error 0 |
| Polyfit.Vandermonde | src/srcMath/myMATH.cpp:333-338 | X(i, j) == x[i]^j, n × (order+1) |
| Polyfit.FillSystem | src/srcMath/myMATH.cpp:333-340 | the loop fills the Vandermonde matrix and the y column |
| Polyfit.ColumnEntries | src/srcMath/myMATH.cpp:346-350 | coeff holds the entries of the solution column |
| Polyfit.NormalEquations | src/srcMath/myMATH.cpp:344 | inverse(XᵀX)·Xᵀy solves the normal equations |
| Polyfit.Polyfit | src/srcMath/myMATH.cpp:307-351 | error_size iff the lengths differ; error_range for order < 1; error_div0 iff XᵀX is singular; otherwise order+1 coefficients solving the normal equations |
| Polyfit.PolyfitExact | src/srcMath/myMATH.cpp:307-351 | data lying on a polynomial of that order give back its coefficients |
| ObjectFinder.LnClampedFloor | src/srcObject/ObjectFinder.hpp:47-49 | intensities below LOGSMALLNUMBER are clamped before the log |
| ObjectFinder.Vertex | src/srcObject/ObjectFinder.hpp:51-60 | no vertex iff the curvature is 0 (non-finite xc); otherwise col + (ln z1 - ln z3) / (2·curvature) |
| ObjectFinder.VertexTerms | src/srcObject/ObjectFinder.hpp:51-56 | the source's three-point formula reduces to that vertex |
| ObjectFinder.VertexIsStationary | src/srcObject/ObjectFinder.hpp:51-56 | the parabola through the three log values has zero slope at the vertex |
| ObjectFinder.VertexSymmetric | src/srcObject/ObjectFinder.hpp:51-56 | equal outer values put the vertex at the centre pixel |
| ObjectFinder.VertexWithinHalfPixel | src/srcObject/ObjectFinder.hpp:51-56 | at a strict log maximum the vertex is within half a pixel of the centre |
| ObjectFinder.ScanRowsRadius | src/srcObject/ObjectFinder.hpp:11-12 | every tracer the scan produces has radius r_px |
| ObjectFinder.DetectAt | src/srcObject/ObjectFinder.hpp:28-79 | the candidate test and the vertex refinement at one pixel |
| ObjectFinder.ScanRowLoop | src/srcObject/ObjectFinder.hpp:15-81 | the column loop stops at the first saturated pixel, having appended that row's detections so far |
| ObjectFinder.ScanBox | src/srcObject/ObjectFinder.hpp:13-82 | passes iff no pixel of the box exceeds max_intensity, with the row-major detections appended; otherwise error_range at the first saturated pixel |
| ObjectFinder.FindTracer2D | src/srcObject/ObjectFinder.hpp:6-83 | scans the interior rows 1..nRow-2 and columns 1..nCol-2; only appends; appended tracers have radius r_px |
| ObjectFinder.FindTracer2DRegion | src/srcObject/ObjectFinder.hpp:85-172 | a region outside the image is error_range before any change; otherwise the box interior of the region is scanned |
| ObjectFinder.AppendOnly | src/srcObject/ObjectFinder.hpp:77-79 | the scan leaves earlier entries unchanged |
| ObjectFinder.PartialScanAppends | src/srcObject/ObjectFinder.hpp:17-26 | an aborted scan still keeps the appended prefix |
| ObjectFinder.FindObject2D | src/srcObject/ObjectFinder.hpp:174-190 | non-tracer types are error_type; tracers clear the list and scan with properties[0..2] |
| ObjectFinder.FindObject2DRegion | src/srcObject/ObjectFinder.hpp:192-208 | the same over a region |
| ObjectInfos.ObjectInfo.constructor | inc/libSTB/ObjectInfo.h:20-30 | empty centre and match list, not tracked, not fake, error 0 |
| ObjectInfos.ObjectInfo.SetCenterPos | inc/libSTB/ObjectInfo.h:34-37 | GetCenterPos then returns pt; nothing else changes |
| ObjectInfos.ObjectInfo.GetCenterPos | inc/libSTB/ObjectInfo.h:38-41 | the stored centre |
| ObjectInfos.ObjectInfo.SetMatchPosInfo | inc/libSTB/ObjectInfo.h:43-46 | the match list is replaced; nothing else changes |
| ObjectInfos.ObjectInfo.ClearMatchPosInfo | inc/libSTB/ObjectInfo.h:60-63 | the match list becomes empty |
| ObjectInfos.ObjectInfo.AddMatchPosInfo | inc/libSTB/ObjectInfo.h:64-67 | pt is appended and earlier entries are kept |
| ObjectInfos.ObjectInfo.GetMatchPosInfo | inc/libSTB/ObjectInfo.h:68-71 | the stored list |
| ObjectInfos.ObjectInfo.GetMatchPosInfoAt | inc/libSTB/ObjectInfo.h:72-86 | fails iff cam_id >= the list's size; otherwise entry cam_id |
| ObjectInfos.ObjectInfo.SetError | inc/libSTB/ObjectInfo.h:88-91 | GetError then returns error |
| ObjectInfos.ObjectInfo.SetIsFake | inc/libSTB/ObjectInfo.h:97-98 | IsFake then returns the flag |
| ObjectInfos.ObjectInfo.SetIsTrack | inc/libSTB/ObjectInfo.h:100-101 | IsTrack then returns the flag |
| ObjectInfos.TracerInfo.constructor | inc/libSTB/ObjectInfo.h:108-111 | a new ObjectInfo part and radius 4 |
| ObjectInfos.TracerInfo.AtCenter | inc/libSTB/ObjectInfo.h:113-116 | centre pt_center, radius 4 |
| ObjectInfos.TracerInfo.CopyAsWritten | inc/libSTB/ObjectInfo.h:112 | copies the ObjectInfo part; the radius is 4 whatever the original's |
| ObjectInfos.TracerInfo.AddMatchInfo | inc/libSTB/ObjectInfo.h:119-123 | the other tracer's centre is appended to the match list |
| ObjectInfos.TracerInfo.SetRadiusPixel | inc/libSTB/ObjectInfo.h:125-132 | GetRadiusPixel then returns r |
| ObjectInfos.CopyLosesRadius | inc/libSTB/ObjectInfo.h:108-112 | a tracer of radius 7 copies to one of radius 4 |
| ObjectInfos.CopyKeepsRadius | inc/libSTB/ObjectInfo.h:112 | the corrected copy keeps radius, centre and match list |
| PredFields.Trunc | inc/libSTB/PredField.h:75 | the double-to-int conversion truncates toward zero |
| PredFields.TruncDiv | inc/libSTB/PredField.h:77 | integer division truncates toward zero |
| PredFields.MapGridIndexToID | inc/libSTB/PredField.h:58-61 | for in-range indices the id is below nx·ny·nz and gives back ix, iy, iz, so distinct triples have distinct ids |
| PredFields.MapGridIndexOnto | inc/libSTB/PredField.h:23-28 | every id below n_tot is the id of one index triple |
| PredFields.MapSpan | inc/libSTB/PredField.h:74-77 | _size == floor(40r) + 1, and ±2r map to the first and last bins (half a bin off for an odd _size - 1) |
| PredFields.EvenMapEnds | inc/libSTB/PredField.h:43 | when 40r is an even integer 2q, -2r, 0 and +2r map to bins 0, q and _size - 1 |
| PredFields.GridTotal | inc/libSTB/PredField.h:17-19 | at least 2 grid points per axis give n_tot >= 8 |
| PredFields.PredField.FromObjects | inc/libSTB/PredField.h:65-80 | n_tot = nx·ny·nz, grid and field 3 × n_tot, the limit copied, the map parameters set |
| PredFields.PredField.FromPoints | inc/libSTB/PredField.h:83-96 | the same, with the point lists given directly |
| PredFields.PredField.FromFile | inc/libSTB/PredField.h:99-108 | the same, with the loaded field stored |
| PredFields.LoadField | inc/libSTB/PredField.h:110-117 | error_size iff the loaded field is not 3 × n_tot; otherwise a valid field holding it |
| PredFields.PredField.GetGrid | inc/libSTB/PredField.h:125-128 | the grid is 3 × n_tot |
| PredFields.PredField.GetField | inc/libSTB/PredField.h:129-132 | the field is 3 × n_tot |
| PredFields.PredField.GetCurrPos3D | inc/libSTB/PredField.h:133-136 | the current point list |
| PredFields.PredField.GetPrevPos3D | inc/libSTB/PredField.h:137-140 | the previous point list |
| Tracking.Track.constructor | src/srcSTB/Track.hpp:7-11 | one object, one time, count 1 |
| Tracking.Track.Copy | src/srcSTB/Track.hpp:14-15 | all four fields copied |
| Tracking.Track.Assign | src/srcSTB/Track.hpp:56-63 | all four fields copied, the source track unchanged |
| Tracking.Track.AddNext | src/srcSTB/Track.hpp:19-24 | object and time appended, count + 1, count == list lengths kept |
| Tracking.Track.AddNextTrack | src/srcSTB/Track.hpp:27-32 | the other track's objects and times appended in order; count is the new length |
| Tracking.AsWrittenWindowStartsBeforeHistory | src/srcSTB/Track.hpp:88-108 | the window start n-1-order is negative exactly when n == 3 |
| Tracking.ThreeObjectsReadIndexMinusOne | src/srcSTB/Track.hpp:108 | with three objects the window reads index -1 |
| Tracking.Order | src/srcSTB/Track.hpp:92-99 | order n-1 for 3 <= n < 6 and 5 from 6 on, so the window always lies in the history |
| Tracking.Window | src/srcSTB/Track.hpp:106-109 | the last order+1 samples of one coordinate, oldest first |
| Tracking.Track.FillWindow | src/srcSTB/Track.hpp:106-109 | the loop fills exactly that window |
| Tracking.Shifted | src/srcSTB/Track.hpp:113-122 | after the shift the last sample has magnitude at least 1 |
| Tracking.ShiftWindow | src/srcSTB/Track.hpp:113-122 | the loop shifts by 10 exactly when the last sample is below 1 in magnitude |
| Tracking.InnerSum | src/srcSTB/Track.hpp:125-129 | the loop computes the inner product |
| Tracking.AdaptRound | src/srcSTB/Track.hpp:142-149 | one round adapts every tap and predicts with the new taps |
| Tracking.Adapt | src/srcSTB/Track.hpp:133-151 | the bounded loop computes the adapted taps |
| Tracking.FirstRoundExact | src/srcSTB/Track.hpp:125-150 | with step 1 / Σ series[j]², one round from zero taps predicts the last sample exactly |
| Tracking.AdaptationSettles | src/srcSTB/Track.hpp:137-151 | so the loop stops after one round |
| Tracking.SettledPrediction | src/srcSTB/Track.hpp:154-158 | the output is step · last sample · lag-one correlation |
| Tracking.WindowPrediction | src/srcSTB/Track.hpp:124-162 | a window prediction fails only with error_div0 |
| Tracking.WindowPredictionClosedForm | src/srcSTB/Track.hpp:124-162 | fails iff the energy is 0; otherwise last · correlation / energy - shift |
| Tracking.PredictWindow | src/srcSTB/Track.hpp:124-162 | the loops compute the window prediction |
| Tracking.AxisPrediction | src/srcSTB/Track.hpp:111-163 | an axis prediction fails only with error_div0 |
| Tracking.PredictAxis | src/srcSTB/Track.hpp:111-163 | the per-axis loop body computes the axis prediction |
| Tracking.StationaryAxis | src/srcSTB/Track.hpp:111-163 | a window of equal samples is predicted to stay at that value |
| Tracking.Prediction | src/srcSTB/Track.hpp:79-175 | error_size for fewer than 3 objects, otherwise only error_div0 |
| Tracking.StationaryTrack | src/srcSTB/Track.hpp:79-175 | a particle that has not moved is predicted in place, with the last radius |
| Tracking.PredictionUsesWindow | src/srcSTB/Track.hpp:96-109 | from 6 objects on, older objects do not affect the prediction |
| Tracking.SameWindowsSamePrediction | src/srcSTB/Track.hpp:104-169 | equal windows and last radius give equal predictions |
| Tracking.Track.PredLMSWiener | src/srcSTB/Track.hpp:79-175 | Pass with the prediction, or obj3d unchanged with the reason; fails with error_size iff fewer than 3 objects; the track is not changed |
| Tracking.Track.PredictNext | src/srcSTB/Track.hpp:66-76 | for tracers, predLMSWiener |

## Left out

- File and stream I/O is not modelled, since none of it bears on the
  properties proved:
  - Matrix file and stream constructors, `write` and `print`
    (inc/libMath/Matrix.h:51-55, 81-85);
  - `PredField::SaveField` and the file read of the loading constructor
    (inc/libSTB/PredField.h:110, 144-147). The shape check is modelled
    against a given matrix (`PredFields.LoadField`);
  - `Track::saveTrack` (src/srcSTB/Track.hpp:34-53);
  - every `std::cerr` message.
- `ObjectInfo::SetMatchPosInfo(std::vector<Camera>&)` is not modelled
  (inc/libSTB/ObjectInfo.h:47-59). It projects the centre through camera
  methods that are not part of this model.
- PredField.hpp is not part of this model. This covers `SetGrid`,
  `SetPtList`, `Field`, `FindVolPt`, `DispMap`, `DispMapPeak`, `MaxElemID`,
  `Gauss1DPeak` and `PtInterp`, which run OpenMP-parallel. The grid and the
  displacement field of a constructed `PredField` are zero placeholders of
  the right shape; only shapes and map parameters are stated.
- PredFields.PredField.FromObjects: it requires `r != 0` and at least two
  grid points per axis (the comment at inc/libSTB/PredField.h:17). The code
  checks neither; with `r == 0` it would store a non-finite slope `_m`. The
  same holds for FromPoints, FromFile and LoadField.
- PredFields.PredField.FromObjects: the object lists are held by reference
  in the code (`std::vector<T>&`) and copied as values here, so aliasing with
  the caller's vectors is not modelled. The 32-bit overflow of
  `nx*ny*nz` is not modelled either.
- Matrix.h itself does not declare the `_dim_x()` / `_dim_y()` used by the
  loading constructor. The check is modelled as rows == 3 and
  cols == n_tot.
- Matrix.hpp is not part of this model. The operator bodies follow their
  declarations and comments: entrywise `+`, row-times-column `*`,
  `transpose`, the row-major `operator[]`, and `norm` as the square root of
  the sum of squares. `Matrix` is a value type here, so copies are deep by
  construction.
- `myMATH::isLocalMax` is not part of this model. It is a caller-supplied
  predicate (`ObjectFinder.LocalMaxTest`).
- `myMATH::trace` is declared nowhere in the modelled files and is not
  modelled.
- The `typeid` tests are replaced by explicit kind parameters:
  - `Inverse.ElementKind` for the element type of `inverse`;
  - `ObjectFinder.Object2DKind` for `findObject2D`;
  - `predictNext` is modelled for `Tracer3D` only.
- Floating point is not modelled: no IEEE rounding, NaN/inf propagation or
  tolerance effects. `isfinite(xc)` becomes "denominator ≠ 0".
  - `SMALLNUMBER` is 1e-8.
  - `SQRTSMALLNUMBER`, `LOGSMALLNUMBER` and `WIENER_MAX_ITER` are not
    defined in the modelled files and are positive constants without a
    value.
  - `sqrt` and `log` satisfy only their stated laws.
- Gauss.GaussForward: it follows the corrected pivot scan of the first
  Findings row, which starts at the current step, and returns false
  when the remaining column is zero. The code as written (scan winner
  initialised to row 0) then swaps a finished row back in and goes on
  eliminating; that behaviour is modelled only in
  `PivotFinding.PivotStartsAtZero`.
- Gauss.GaussInverse: it uses the corrected `Gauss.GaussForward` and returns
  `ErrorDiv0` exactly for a singular input. The code as written may then
  divide by a zero pivot and return non-finite values. It may also return a
  finite matrix that is not an inverse: for [[1,2,3],[2,4,7],[3,6,1]] every
  divisor is non-zero. The same holds for `Inverse.Inverse` with "gauss",
  `Triangulate.Triangulation` and `Polyfit.Polyfit`, which call it.
  `Inverse.DetInverse` returns `ErrorDiv0` for det == 0, where the code
  divides by zero.
- Tracking.Track.PredLMSWiener: with exactly three objects it uses the
  corrected order 2 of the second Findings row (`Tracking.Order`). The
  code as written uses order 3 and reads `_obj3d_list[-1]`, which is
  undefined behaviour; that read is modelled only in
  `Tracking.ThreeObjectsReadIndexMinusOne`.
- Tracking.Track.PredLMSWiener: for a window with zero energy the code
  writes a non-finite prediction. The model instead leaves `obj3d`
  unchanged and reports `ErrorDiv0`.
- Tracking.Track.PredLMSWiener: fewer than three objects is reported as
  `Fail(ErrorSize)`; the code only prints and returns.
- Tracking.Track.AddNextTrack: it requires `track != this`. Appending a
  track to itself is not modelled.
- Tracking.Track.constructor: `active` starts as true. Track.h, which holds
  its default, is not part of this model.
- ObjectInfos.ObjectInfo.GetMatchPosInfoAt: `throw;` with no active
  exception terminates the program. The model reports `ErrorRange`, and a
  negative `cam_id` is excluded by `requires`, since the code does not
  check it. `PredFields.LoadField` reports the analogous `throw;` as
  `ErrorSize`.
- The `ObjectInfo` copy constructor is declared but not defined in the
  modelled files. It is taken to copy all five fields
  (`ObjectInfos.CopyObject`).
- `TracerInfo` derives from `ObjectInfo` in the code. Here it holds its
  `ObjectInfo` part in the constant field `base`.
- Stats.SortID: `std::sort` is modelled by an insertion sort. Only the
  promised result is stated (a permutation in non-decreasing order), and
  ties carry no stability promise.
- Stats.GetMedian: it requires a non-empty input. The code reads index -1
  for an empty vector.
- Stats.IsOutlier: it requires a non-empty input once the lengths agree,
  because the code calls `getMedian` on it.
- Stats.GetMedian: only `T = double` is modelled. For an integer `T` the
  code's `(a + b) / 2` truncates, and the model's real mean does not.
- Geometry.TriLinearInterp: it requires a box with non-zero extent on
  every axis. The code would divide by zero.
- Geometry.CreateUnitVector: it requires two distinct points and the
  square-root law.

## Findings

| source | as written | input that shows it | evidently intended | confidence | as-written member | corrected member |
|---|---|---|---|---|---|---|
| inc/libMath/myMATH.h:205 | `int t = 0` before the pivot scan, so a column with no non-zero pivot left swaps row 0 of the permutation into the current step | A = [[1,2,3],[2,4,7],[3,6,1]]: at step 1 the remaining column is zero, and the finished pivot row is swapped back into the sub-matrix | start the scan's winner at `t = iter_y`, leaving the finished rows in place | not executed | PivotFinding.PivotStartsAtZero | PivotFinding.PivotStartsAtStep |
| src/srcSTB/Track.hpp:88-91 | three stored objects give `order = 3`, and the window loop at line 108 reads `_obj3d_list[-1]` | a track holding exactly 3 objects | order n - 1 = 2, as for 4 and 5 objects, so the window is the whole history | not executed | Tracking.ThreeObjectsReadIndexMinusOne | Tracking.Order |
| inc/libSTB/ObjectInfo.h:112 | the `TracerInfo` copy constructor copies only the `ObjectInfo` part, so `_r_pixel` takes its default 4 | copying a tracer after `SetRadiusPixel(7)` gives radius 4 | copy the radius too, as the implicit copy constructor would | not executed | ObjectInfos.CopyLosesRadius | ObjectInfos.CopyKeepsRadius |
