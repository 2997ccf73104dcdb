/**
 * Gaussian elimination with scaled partial pivoting, as done by the
 * internal functions gaussForward, gaussBackward and gaussInverse of
 * inc/libMath/myMATH.h.
 *
 * The working matrix is a two-dimensional array `u` whose rows are never
 * moved: a permutation `p` (sortedRowIndex) says which stored row plays the
 * role of the i-th pivot row. After elimination, stored row p[i] holds the
 * multipliers of step k in column k < i and the i-th row of the upper
 * factor in columns j >= i. The central invariant, `RowForm`, says how to
 * rebuild every input row from that storage.
 */
module Gauss {
  import opened LibM
  import opened STBCommons
  import opened Matrices
  import opened MatrixOps
  import opened Permutations

  // ---------------------------------------------------------------------
  // The factorisation kept by the elimination
  // ---------------------------------------------------------------------

  /** Entry (k, j) of the upper factor: stored row p[k], on and right of the diagonal. */
  function UF(W: Matrix, p: seq<int>, k: int, j: int): real {
    if 0 <= k < |p| && k <= j then W.Get(p[k], j) else 0.0
  }

  /** Entry (i, k) of the unit lower factor: the multipliers left of the diagonal. */
  function LF(W: Matrix, p: seq<int>, i: int, k: int): real {
    if 0 <= i < |p| && 0 <= k < i then W.Get(p[i], k) else if i == k then 1.0 else 0.0
  }

  /** Column j of the upper factor, as a function of the row k. */
  function UCol(W: Matrix, p: seq<int>, j: int): int -> real {
    k => UF(W, p, k, j)
  }

  /** Stored row r, entry by entry, weighted by g. */
  function Weighted(W: Matrix, r: int, g: int -> real): int -> real {
    k => W.Get(r, k) * g(k)
  }

  /** Row i of the lower factor, entry by entry, weighted by g. */
  function LWeighted(W: Matrix, p: seq<int>, i: int, g: int -> real): int -> real {
    k => LF(W, p, i, k) * g(k)
  }

  /**
   * Entry j of the input row that stored row r stands for, after m
   * elimination steps: the multipliers of the first m steps times the rows
   * of the upper factor, plus what is left of the row from column m on.
   */
  function Recon(W: Matrix, p: seq<int>, r: int, m: int, j: int): real {
    Sum(0, m, Weighted(W, r, UCol(W, p, j))) + (if m <= j then W.Get(r, j) else 0.0)
  }

  /** Input row p[i] is rebuilt exactly from the storage after m steps. */
  predicate RowForm(A: Matrix, W: Matrix, p: seq<int>, n: int, i: int, m: int)
    requires 0 <= i < |p|
  {
    forall j :: 0 <= j < n ==> A.Get(p[i], j) == Recon(W, p, p[i], m, j)
  }

  /** Recon only reads the first m pivot rows of the permutation. */
  lemma ReconPrefix(W: Matrix, p: seq<int>, p': seq<int>, r: int, m: int, j: int)
    requires |p| == |p'| && forall k :: 0 <= k < m && k < |p| ==> p[k] == p'[k]
    ensures Recon(W, p', r, m, j) == Recon(W, p, r, m, j)
  {
    SumExt(0, m, Weighted(W, r, UCol(W, p', j)), Weighted(W, r, UCol(W, p, j)));
  }

  /** Recon only reads stored row r and the first m pivot rows. */
  lemma ReconFrame(W: Matrix, W': Matrix, p: seq<int>, r: int, m: int, j: int, s: int)
    requires r != s && forall k :: 0 <= k < m && k < |p| ==> p[k] != s
    requires forall t, c :: t != s ==> W.Get(t, c) == W'.Get(t, c)
    ensures Recon(W', p, r, m, j) == Recon(W, p, r, m, j)
  {
    SumExt(0, m, Weighted(W', r, UCol(W', p, j)), Weighted(W, r, UCol(W, p, j)));
  }

  /**
   * One elimination row operation on stored row r = p[x] against the pivot
   * row p[y]: the multiplier goes to column y, columns right of y lose
   * `mult` times the pivot row. It moves row x from y to y + 1 steps.
   */
  lemma EliminateStep(A: Matrix, W: Matrix, W': Matrix, p: seq<int>, n: int, y: int, x: int, mult: real)
    requires 0 <= y < x < n == |p|
    requires forall i, j :: 0 <= i < j < n ==> p[i] != p[j]
    requires RowForm(A, W, p, n, x, y)
    requires mult * W.Get(p[y], y) == W.Get(p[x], y)
    requires forall t, c :: t != p[x] ==> W.Get(t, c) == W'.Get(t, c)
    requires W'.Get(p[x], y) == mult
    requires forall c :: c < y ==> W'.Get(p[x], c) == W.Get(p[x], c)
    requires forall c :: y < c < n ==> W'.Get(p[x], c) == W.Get(p[x], c) - mult * W.Get(p[y], c)
    ensures RowForm(A, W', p, n, x, y + 1)
  {
    var r := p[x];
    forall j | 0 <= j < n
      ensures A.Get(r, j) == Recon(W', p, r, y + 1, j)
    {
      SumExt(0, y, Weighted(W', r, UCol(W', p, j)), Weighted(W, r, UCol(W, p, j)));
      assert UF(W', p, y, j) == UF(W, p, y, j);
    }
  }

  /**
   * After m == y steps, exchanging the pivot positions y and t >= y keeps
   * every row rebuildable.
   */
  lemma SwapStep(A: Matrix, W: Matrix, p: seq<int>, n: int, y: int, t: int)
    requires 0 <= y <= t < n == |p|
    requires forall i :: 0 <= i < n ==> RowForm(A, W, p, n, i, Min(i, y))
    ensures forall i :: 0 <= i < n ==> RowForm(A, W, p[y := p[t]][t := p[y]], n, i, Min(i, y))
  {
    var q := p[y := p[t]][t := p[y]];
    forall i | 0 <= i < n
      ensures RowForm(A, W, q, n, i, Min(i, y))
    {
      var src := if i == y then t else if i == t then y else i;
      assert q[i] == p[src];
      assert Min(src, y) == Min(i, y);
      forall j | 0 <= j < n
        ensures A.Get(q[i], j) == Recon(W, q, q[i], Min(i, y), j)
      {
        assert RowForm(A, W, p, n, src, Min(src, y));
        ReconPrefix(W, p, q, q[i], Min(i, y), j);
      }
    }
  }

  function Min(a: int, b: int): int {
    if a < b then a else b
  }

  /** With m == i steps, Recon is the product of the two factors. */
  lemma LowerSplit(W: Matrix, p: seq<int>, i: int, n: int, g: int -> real)
    requires 0 <= i < n <= |p|
    ensures Sum(0, n, LWeighted(W, p, i, g)) == Sum(0, i, Weighted(W, p[i], g)) + g(i)
  {
    var f := LWeighted(W, p, i, g);
    SumSplit(0, i, n, f);
    forall k | 0 <= k < i
      ensures f(k) == Weighted(W, p[i], g)(k)
    {
      assert LF(W, p, i, k) == W.Get(p[i], k);
    }
    SumExt(0, i, f, Weighted(W, p[i], g));
    forall k | i <= k < n && k != i
      ensures f(k) == 0.0
    {
      assert LF(W, p, i, k) == 0.0;
    }
    SumSingle(i, n, i, f);
  }

  lemma LUProduct(A: Matrix, W: Matrix, p: seq<int>, n: int, i: int, j: int)
    requires 0 <= i < n == |p| && 0 <= j < n
    requires RowForm(A, W, p, n, i, i)
    ensures A.Get(p[i], j) == Sum(0, n, LWeighted(W, p, i, UCol(W, p, j)))
  {
    LowerSplit(W, p, i, n, UCol(W, p, j));
  }

  // ---------------------------------------------------------------------
  // Pivot choice
  // ---------------------------------------------------------------------

  /**
   * The double that |v / mx| evaluates to: finite when mx != 0, +inf when
   * only mx is zero, NaN when both are.
   */
  datatype Scaled = Finite(val: real) | Infinite | NotANumber

  /** The double comparison a > b; NaN compares false with everything. */
  predicate Greater(a: Scaled, b: Scaled) {
    match a
    case NotANumber => false
    case Infinite => b.Finite?
    case Finite(x) => b.Finite? && x > b.val
  }

  lemma GreaterTransitive(a: Scaled, b: Scaled, c: Scaled)
    requires Greater(a, b) && Greater(b, c)
    ensures Greater(a, c)
  {
  }

  /** std::fabs(v / mx): it beats the initial maxPivot 0 exactly when v != 0. */
  function ScaledPivot(v: real, mx: real): (s: Scaled)
    ensures Greater(s, Finite(0.0)) <==> v != 0.0
  {
    if mx != 0.0 then Finite(Abs(v / mx)) else if v != 0.0 then Infinite else NotANumber
  }

  /** The scaled pivot candidate of every pivot position x, for column y. */
  function Candidates(W: Matrix, p: seq<int>, mx: seq<real>, y: int): (sc: seq<Scaled>)
    ensures |sc| == |p|
    ensures forall x :: 0 <= x < |p| && 0 <= p[x] < |mx| ==> sc[x] == ScaledPivot(W.Get(p[x], y), mx[p[x]])
  {
    seq(|p|, x requires 0 <= x < |p| => if 0 <= p[x] < |mx| then ScaledPivot(W.Get(p[x], y), mx[p[x]]) else NotANumber)
  }

  /**
   * The pivot search of one elimination step over positions y .. hi-1:
   * the position of the first strictly largest candidate and its value, or
   * `init` with maxPivot 0 when no candidate exceeds 0.
   */
  function PivotScan(sc: seq<Scaled>, y: int, hi: int, init: int): (int, Scaled)
    requires 0 <= y <= hi <= |sc|
    decreases hi
  {
    if hi == y then (init, Finite(0.0))
    else
      var prev := PivotScan(sc, y, hi - 1, init);
      if Greater(sc[hi - 1], prev.1) then (hi - 1, sc[hi - 1]) else prev
  }

  /**
   * The search ends with maxPivot 0 only when every candidate is zero (and
   * then returns `init`); otherwise it returns a position in the range whose
   * candidate is not beaten by any other.
   */
  lemma {:induction false} PivotScanFacts(sc: seq<Scaled>, y: int, hi: int, init: int)
    requires 0 <= y <= hi <= |sc|
    ensures var r := PivotScan(sc, y, hi, init);
      && (r.1 == Finite(0.0) || Greater(r.1, Finite(0.0)))
      && (Greater(r.1, Finite(0.0)) ==> y <= r.0 < hi && sc[r.0] == r.1)
      && (r.1 == Finite(0.0) ==> r.0 == init && forall x :: y <= x < hi ==> !Greater(sc[x], Finite(0.0)))
      && (forall x :: y <= x < hi ==> !Greater(sc[x], r.1))
    decreases hi
  {
    if hi > y {
      PivotScanFacts(sc, y, hi - 1, init);
      var prev := PivotScan(sc, y, hi - 1, init);
      if Greater(sc[hi - 1], prev.1) {
        forall x | y <= x < hi
          ensures !Greater(sc[x], sc[hi - 1])
        {
          if Greater(sc[x], sc[hi - 1]) {
            GreaterTransitive(sc[x], sc[hi - 1], prev.1);
          }
        }
        if prev.1 == Finite(0.0) {
          assert Greater(sc[hi - 1], Finite(0.0));
        } else {
          GreaterTransitive(sc[hi - 1], prev.1, Finite(0.0));
        }
      }
    }
  }

  /** Starting the search at the first position of the sub-matrix keeps the choice inside it. */
  lemma PivotInRange(sc: seq<Scaled>, y: int, hi: int)
    requires 0 <= y < hi <= |sc|
    ensures y <= PivotScan(sc, y, hi, y).0 < hi
  {
    PivotScanFacts(sc, y, hi, y);
  }

  // ---------------------------------------------------------------------
  // Row maxima
  // ---------------------------------------------------------------------

  /** mx is the largest element of stored row r. */
  ghost predicate IsRowMax(W: Matrix, r: int, mx: real) {
    (exists j :: 0 <= j < W.cols && W.Get(r, j) == mx)
    && forall j :: 0 <= j < W.cols ==> W.Get(r, j) <= mx
  }

  /** *std::max_element over stored row r. */
  method RowMax(u: array2<real>, r: int) returns (mx: real)
    requires 0 <= r < u.Length0 && 0 < u.Length1
    ensures IsRowMax(Snap(u), r, mx)
  {
    mx := u[r, 0];
    var j := 1;
    while j < u.Length1
      invariant 1 <= j <= u.Length1
      invariant exists k :: 0 <= k < j && u[r, k] == mx
      invariant forall k :: 0 <= k < j ==> u[r, k] <= mx
    {
      if u[r, j] > mx {
        mx := u[r, j];
      }
      j := j + 1;
    }
  }

  // ---------------------------------------------------------------------
  // gaussForward
  // ---------------------------------------------------------------------

  /**
   * The outcome of a complete forward elimination of the n x n input A:
   * p is a permutation, every input row is the lower factor times the upper
   * factor, and the pivots of the first n - 1 steps are non-zero.
   */
  ghost predicate Factored(A: Matrix, W: Matrix, p: seq<int>, n: int) {
    IsPermutation(p, n)
    && (forall i :: 0 <= i < n ==> RowForm(A, W, p, n, i, i))
    && (forall k :: 0 <= k < n - 1 ==> W.Get(p[k], k) != 0.0)
  }

  /** After y elimination steps, every input row is rebuilt from the storage. */
  ghost predicate Stage(A: Matrix, W: Matrix, p: seq<int>, n: int, y: int)
    requires |p| == n
  {
    forall i :: 0 <= i < n ==> RowForm(A, W, p, n, i, Min(i, y))
  }

  /** Step y is done for the positions y+1 .. x-1 and pending for the rest. */
  ghost predicate Midstep(A: Matrix, W: Matrix, p: seq<int>, n: int, y: int, x: int)
    requires |p| == n
  {
    forall i :: 0 <= i < n ==> RowForm(A, W, p, n, i, StepsDone(i, y, x))
  }

  /** The number of elimination steps applied to position i in the middle of step y. */
  function StepsDone(i: int, y: int, x: int): int {
    if y < i < x then y + 1 else Min(i, y)
  }

  /** The pivots of the first y steps are non-zero. */
  ghost predicate Pivots(W: Matrix, p: seq<int>, y: int) {
    forall k :: 0 <= k < y && k < |p| ==> W.Get(p[k], k) != 0.0
  }

  /**
   * gaussForward, with the pivot scan started at the current step. Returns
   * false when at some step every candidate of the column is zero; the code
   * as written then swaps a finished row back in (PivotFinding).
   */
  method GaussForward(u: array2<real>, p: array<int>) returns (ok: bool)
    requires u.Length0 == u.Length1 == p.Length
    modifies u, p
    ensures IsPermutation(p[..], p.Length)
    ensures ok ==> Factored(old(Snap(u)), Snap(u), p[..], p.Length)
    ensures !ok ==> Singular(old(Snap(u)))
  {
    var n := u.Length0;
    ghost var A := Snap(u);
    var maxOfRow := RowMaxima(u, p);
    IdentityPermutation(p[..], n);
    StageZero(A, p[..], n);

    var y := 0;
    while y < n - 1
      modifies u, p
      invariant 0 <= y && (y <= n - 1 || n == 0)
      invariant IsPermutation(p[..], n)
      invariant Stage(A, Snap(u), p[..], n, y)
      invariant Pivots(Snap(u), p[..], y)
    {
      var t, maxPivot := SelectPivot(u, p, maxOfRow, y);
      if maxPivot == Finite(0.0) {
        StuckSingular(A, Snap(u), p[..], n, y);
        return false;
      }
      SwapPivot(A, u, p, y, t);
      Eliminate(A, u, p, p[..], y);
      y := y + 1;
    }
    StageFinal(A, Snap(u), p[..], n, y);
    return true;
  }

  /** Before any step, every row is its own storage. */
  lemma StageZero(A: Matrix, p: seq<int>, n: int)
    requires |p| == n
    ensures Stage(A, A, p, n, 0)
  {
    forall i | 0 <= i < n
      ensures RowForm(A, A, p, n, i, Min(i, 0))
    {
    }
  }

  /** After the last step, the storage holds the complete factorisation. */
  lemma StageFinal(A: Matrix, W: Matrix, p: seq<int>, n: int, y: int)
    requires IsPermutation(p, n) && Stage(A, W, p, n, y) && Pivots(W, p, y)
    requires 0 <= y && (y == n - 1 || n == 0)
    ensures Factored(A, W, p, n)
  {
    forall i | 0 <= i < n
      ensures RowForm(A, W, p, n, i, i)
    {
      assert Min(i, y) == i;
    }
  }

  /** std::swap(sortedRowIndex[t], sortedRowIndex[y]): the chosen row becomes pivot row y. */
  method SwapPivot(ghost A: Matrix, u: array2<real>, p: array<int>, y: int, t: int)
    requires u.Length0 == u.Length1 == p.Length && 0 <= y <= t < p.Length
    requires IsPermutation(p[..], p.Length)
    requires Stage(A, Snap(u), p[..], p.Length, y)
    requires Pivots(Snap(u), p[..], y)
    requires Snap(u).Get(p[t], y) != 0.0
    modifies p
    ensures p[..] == old(p[..])[y := old(p[t])][t := old(p[y])]
    ensures IsPermutation(p[..], p.Length)
    ensures Stage(A, Snap(u), p[..], p.Length, y)
    ensures Pivots(Snap(u), p[..], y + 1)
  {
    ghost var W := Snap(u);
    SwapPermutation(p[..], p.Length, y, t);
    SwapStep(A, W, p[..], p.Length, y, t);
    p[t], p[y] := p[y], p[t];
    assert Snap(u) == W;
  }

  /** The first loop of gaussForward: p starts as the identity and each row's largest element is kept. */
  method RowMaxima(u: array2<real>, p: array<int>) returns (maxOfRow: array<real>)
    requires u.Length0 == u.Length1 == p.Length
    modifies p
    ensures fresh(maxOfRow) && maxOfRow.Length == p.Length
    ensures forall i :: 0 <= i < p.Length ==> p[i] == i && IsRowMax(Snap(u), i, maxOfRow[i])
  {
    var n := p.Length;
    maxOfRow := new real[n];
    var x := 0;
    while x < n
      modifies p, maxOfRow
      invariant 0 <= x <= n
      invariant forall i :: 0 <= i < x ==> p[i] == i && IsRowMax(Snap(u), i, maxOfRow[i])
    {
      p[x] := x;
      maxOfRow[x] := RowMax(u, x);
      x := x + 1;
    }
  }

  /**
   * The pivot search of step y, over positions y .. n-1. It returns the
   * position the C++ loop settles on and the winning scaled pivot; a
   * result of 0 means every candidate in column y is zero.
   */
  method SelectPivot(u: array2<real>, p: array<int>, maxOfRow: array<real>, y: int) returns (t: int, maxPivot: Scaled)
    requires u.Length0 == u.Length1 == p.Length == maxOfRow.Length && 0 <= y < p.Length
    requires IsPermutation(p[..], p.Length)
    ensures (t, maxPivot) == PivotScan(Candidates(Snap(u), p[..], maxOfRow[..], y), y, p.Length, y)
    ensures y <= t < p.Length
    ensures maxPivot == Finite(0.0) <==> ZeroColumn(Snap(u), p[..], y)
    ensures maxPivot != Finite(0.0) ==> Snap(u).Get(p[t], y) != 0.0
  {
    t, maxPivot := ScanColumn(u, p, maxOfRow, y);
    PivotOutcome(Snap(u), p[..], maxOfRow[..], y);
  }

  /** The loop of the pivot search: the largest scaled candidate, the first on ties. */
  method ScanColumn(u: array2<real>, p: array<int>, maxOfRow: array<real>, y: int) returns (t: int, maxPivot: Scaled)
    requires u.Length0 == u.Length1 == p.Length == maxOfRow.Length && 0 <= y < p.Length
    requires IsPermutation(p[..], p.Length)
    ensures (t, maxPivot) == PivotScan(Candidates(Snap(u), p[..], maxOfRow[..], y), y, p.Length, y)
  {
    var n := p.Length;
    ghost var sc := Candidates(Snap(u), p[..], maxOfRow[..], y);
    maxPivot := Finite(0.0);
    t := y;
    var x := y;
    while x < n
      invariant y <= x <= n
      invariant (t, maxPivot) == PivotScan(sc, y, x, y)
    {
      var pivot := ScaledPivot(u[p[x], y], maxOfRow[p[x]]);
      assert pivot == sc[x];
      if Greater(pivot, maxPivot) {
        maxPivot := pivot;
        t := x;
      }
      x := x + 1;
    }
  }

  /** Every candidate of column y, from pivot position y on, is zero. */
  ghost predicate ZeroColumn(W: Matrix, p: seq<int>, y: int) {
    forall x :: 0 <= x < |p| && y <= x ==> W.Get(p[x], y) == 0.0
  }

  /** What the completed search of step y says about column y. */
  lemma PivotOutcome(W: Matrix, p: seq<int>, mx: seq<real>, y: int)
    requires 0 <= y < |p| && IsPermutation(p, |p|) && |mx| == |p|
    ensures var r := PivotScan(Candidates(W, p, mx, y), y, |p|, y);
      && y <= r.0 < |p|
      && (r.1 == Finite(0.0) <==> ZeroColumn(W, p, y))
      && (r.1 != Finite(0.0) ==> W.Get(p[r.0], y) != 0.0)
  {
    var sc := Candidates(W, p, mx, y);
    var r := PivotScan(sc, y, |p|, y);
    PivotScanFacts(sc, y, |p|, y);
    PivotInRange(sc, y, |p|);
    if r.1 != Finite(0.0) {
      assert Greater(sc[r.0], Finite(0.0));
    } else {
      forall x | y <= x < |p|
        ensures W.Get(p[x], y) == 0.0
      {
        assert !Greater(sc[x], Finite(0.0));
      }
    }
  }

  /**
   * The row operations of step y: every stored row below the pivot row p[y]
   * gets its multiplier in column y and loses that multiple of the pivot
   * row right of column y.
   */
  method Eliminate(ghost A: Matrix, u: array2<real>, p: array<int>, ghost ps: seq<int>, y: int)
    requires u.Length0 == u.Length1 == p.Length && 0 <= y < p.Length
    requires ps == p[..] && IsPermutation(ps, p.Length)
    requires Stage(A, Snap(u), ps, p.Length, y)
    requires Pivots(Snap(u), ps, y + 1)
    modifies u
    ensures Stage(A, Snap(u), ps, p.Length, y + 1)
    ensures Pivots(Snap(u), ps, y + 1)
  {
    MidstepStart(A, Snap(u), ps, p.Length, y);
    for x := y + 1 to p.Length
      invariant Midstep(A, Snap(u), ps, p.Length, y, x)
      invariant Pivots(Snap(u), ps, y + 1)
    {
      EliminateRow(A, u, p, ps, y, x);
    }
    MidstepEnd(A, Snap(u), ps, p.Length, y);
  }

  lemma MidstepStart(A: Matrix, W: Matrix, p: seq<int>, n: int, y: int)
    requires |p| == n && Stage(A, W, p, n, y)
    ensures Midstep(A, W, p, n, y, y + 1)
  {
    var y1 := y + 1;
    forall i | 0 <= i < n
      ensures RowForm(A, W, p, n, i, StepsDone(i, y, y1))
    {
      assert RowForm(A, W, p, n, i, Min(i, y));
    }
  }

  lemma MidstepEnd(A: Matrix, W: Matrix, p: seq<int>, n: int, y: int)
    requires |p| == n && Midstep(A, W, p, n, y, n)
    ensures Stage(A, W, p, n, y + 1)
  {
    var y1 := y + 1;
    forall i | 0 <= i < n
      ensures RowForm(A, W, p, n, i, Min(i, y1))
    {
      assert RowForm(A, W, p, n, i, StepsDone(i, y, n));
    }
  }

  /** The row operation on pivot position x of step y. */
  method EliminateRow(ghost A: Matrix, u: array2<real>, p: array<int>, ghost ps: seq<int>, y: int, x: int)
    requires u.Length0 == u.Length1 == p.Length && 0 <= y < x < p.Length
    requires ps == p[..] && IsPermutation(ps, p.Length)
    requires Midstep(A, Snap(u), ps, p.Length, y, x)
    requires Pivots(Snap(u), ps, y + 1)
    modifies u
    ensures Midstep(A, Snap(u), ps, p.Length, y, x + 1)
    ensures Pivots(Snap(u), ps, y + 1)
  {
    var n := p.Length;
    ghost var W0 := Snap(u);
    var r, pr := p[x], p[y];
    assert W0.Get(pr, y) != 0.0;
    var m := u[r, y] / u[pr, y];
    RowUpdate(u, r, pr, y, m);
    ghost var W1 := Snap(u);
    assert forall s, j :: s != r ==> W1.Get(s, j) == W0.Get(s, j);
    EliminateStepFrame(A, W0, W1, ps, n, y, x, m);
  }

  /** Column y of row r gets m; columns right of y lose m times row pr. */
  method RowUpdate(u: array2<real>, r: int, pr: int, y: int, m: real)
    requires u.Length0 == u.Length1 && 0 <= r < u.Length0 && 0 <= pr < u.Length0 && r != pr
    requires 0 <= y < u.Length1
    modifies u
    ensures forall s, j :: 0 <= s < u.Length0 && 0 <= j < u.Length1 && s != r ==> u[s, j] == old(u[s, j])
    ensures u[r, y] == m
    ensures forall j :: 0 <= j < y ==> u[r, j] == old(u[r, j])
    ensures forall j :: y < j < u.Length1 ==> u[r, j] == old(u[r, j]) - m * old(u[pr, j])
  {
    var n := u.Length1;
    u[r, y] := m;
    var c := y + 1;
    while c < n
      invariant y + 1 <= c <= n
      invariant forall s, j :: 0 <= s < n && 0 <= j < n && s != r ==> u[s, j] == old(u[s, j])
      invariant u[r, y] == m
      invariant forall j :: 0 <= j < y ==> u[r, j] == old(u[r, j])
      invariant forall j :: y < j < c ==> u[r, j] == old(u[r, j]) - m * old(u[pr, j])
      invariant forall j :: c <= j < n ==> u[r, j] == old(u[r, j])
    {
      u[r, c] := u[r, c] - m * u[pr, c];
      c := c + 1;
    }
  }

  /** EliminateStep for the row operated on, ReconFrame for all others. */
  lemma EliminateStepFrame(A: Matrix, W0: Matrix, W1: Matrix, p: seq<int>, n: int, y: int, x: int, m: real)
    requires 0 <= y < x < n == |p| && IsPermutation(p, n)
    requires W0.Valid() && W1.Valid() && W0.rows == W1.rows == n && W0.cols == W1.cols == n
    requires Midstep(A, W0, p, n, y, x) && Pivots(W0, p, y + 1)
    requires m == W0.Get(p[x], y) / W0.Get(p[y], y)
    requires forall s, j :: s != p[x] ==> W1.Get(s, j) == W0.Get(s, j)
    requires W1.Get(p[x], y) == m
    requires forall j :: j < y ==> W1.Get(p[x], j) == W0.Get(p[x], j)
    requires forall j :: y < j < n ==> W1.Get(p[x], j) == W0.Get(p[x], j) - m * W0.Get(p[y], j)
    ensures Midstep(A, W1, p, n, y, x + 1) && Pivots(W1, p, y + 1)
  {
    var r := p[x];
    assert Pivots(W1, p, y + 1) by {
      forall k | 0 <= k < y + 1
        ensures W1.Get(p[k], k) != 0.0
      {
        assert W0.Get(p[k], k) != 0.0;
      }
    }
    assert m * W0.Get(p[y], y) == W0.Get(p[x], y);
    assert RowForm(A, W0, p, n, x, StepsDone(x, y, x));
    EliminateStep(A, W0, W1, p, n, y, x, m);
    var x1 := x + 1;
    forall i | 0 <= i < n
      ensures RowForm(A, W1, p, n, i, StepsDone(i, y, x1))
    {
      if i != x {
        var mi := StepsDone(i, y, x);
        assert RowForm(A, W0, p, n, i, mi);
        forall j | 0 <= j < n
          ensures A.Get(p[i], j) == Recon(W1, p, p[i], mi, j)
        {
          ReconFrame(W0, W1, p, p[i], mi, j, r);
        }
      }
    }
  }

  // ---------------------------------------------------------------------
  // gaussBackward
  // ---------------------------------------------------------------------

  /** Column c of Z, read through the permutation: entry k is Z(p[k], c). */
  function ZCol(Z: Matrix, p: seq<int>, c: int): int -> real {
    k => if 0 <= k < |p| then Z.Get(p[k], c) else 0.0
  }

  /** Row k of the upper factor times column c of X, entry by entry. */
  function UTimes(W: Matrix, p: seq<int>, k: int, X: Matrix, c: int): int -> real {
    j => UF(W, p, k, j) * X.Get(j, c)
  }

  /** Column c of Z solves L * z = column c of B (rows taken through p). */
  ghost predicate LowerCol(W: Matrix, p: seq<int>, Z: Matrix, B: Matrix, n: int, c: int)
    requires |p| == n
  {
    forall i :: 0 <= i < n ==> Sum(0, n, LWeighted(W, p, i, ZCol(Z, p, c))) == B.Get(p[i], c)
  }

  /** Rows x .. n-1 of U * (column c of X) equal column c of Z. */
  ghost predicate UpperFrom(W: Matrix, p: seq<int>, X: Matrix, Z: Matrix, n: int, c: int, x: int)
    requires |p| == n
  {
    forall k :: 0 <= k < n && x <= k ==> Sum(0, n, UTimes(W, p, k, X, c)) == Z.Get(p[k], c)
  }

  /** Columns 0 .. c-1 have gone through both substitutions. */
  ghost predicate SolvedCols(W: Matrix, p: seq<int>, X: Matrix, Z: Matrix, B: Matrix, n: int, c: int)
    requires |p| == n
  {
    forall c' :: 0 <= c' < c ==> LowerCol(W, p, Z, B, n, c') && UpperFrom(W, p, X, Z, n, c', 0)
  }

  /** Only column `col` of X and Z changed: the other columns stay solved. */
  lemma SolvedColsFrame(W: Matrix, p: seq<int>, X: Matrix, Z: Matrix, X': Matrix, Z': Matrix, B: Matrix, n: int, c: int, col: int)
    requires |p| == n && c <= col
    requires SolvedCols(W, p, X, Z, B, n, c)
    requires forall r, j :: j != col ==> X'.Get(r, j) == X.Get(r, j) && Z'.Get(r, j) == Z.Get(r, j)
    ensures SolvedCols(W, p, X', Z', B, n, c)
  {
    forall c' | 0 <= c' < c
      ensures LowerCol(W, p, Z', B, n, c') && UpperFrom(W, p, X', Z', n, c', 0)
    {
      assert LowerCol(W, p, Z, B, n, c') && UpperFrom(W, p, X, Z, n, c', 0);
      forall i | 0 <= i < n
        ensures Sum(0, n, LWeighted(W, p, i, ZCol(Z', p, c'))) == B.Get(p[i], c')
      {
        SumExt(0, n, LWeighted(W, p, i, ZCol(Z', p, c')), LWeighted(W, p, i, ZCol(Z, p, c')));
      }
      forall k | 0 <= k < n
        ensures Sum(0, n, UTimes(W, p, k, X', c')) == Z'.Get(p[k], c')
      {
        SumExt(0, n, UTimes(W, p, k, X', c'), UTimes(W, p, k, X, c'));
      }
    }
  }

  /**
   * Forward substitution on column c after step y, part way through
   * position x: B(p[i], c) = Z(p[i], c) + sum of the multipliers of row i
   * times the finished entries above it.
   */
  ghost predicate FwdMid(W: Matrix, p: seq<int>, Z: Matrix, B: Matrix, n: int, c: int, y: int, x: int)
    requires |p| == n
  {
    forall i :: 0 <= i < n ==>
      B.Get(p[i], c) == Z.Get(p[i], c) + Sum(0, StepsDone(i, y, x), Weighted(W, p[i], ZCol(Z, p, c)))
  }

  /** Moving to the next step changes nothing. */
  lemma FwdNextStep(W: Matrix, p: seq<int>, Z: Matrix, B: Matrix, n: int, c: int, y: int)
    requires |p| == n && 0 <= y && FwdMid(W, p, Z, B, n, c, y, n)
    ensures FwdMid(W, p, Z, B, n, c, y + 1, y + 2)
  {
    var y1, y2 := y + 1, y + 2;
    forall i | 0 <= i < n
      ensures B.Get(p[i], c) == Z.Get(p[i], c) + Sum(0, StepsDone(i, y1, y2), Weighted(W, p[i], ZCol(Z, p, c)))
    {
      assert StepsDone(i, y, n) == StepsDone(i, y1, y2);
    }
  }

  /** Weighting by two functions that agree on 0 .. m-1 gives the same sum. */
  lemma WeightedExt(W: Matrix, r: int, g: int -> real, h: int -> real, m: int)
    requires forall k :: 0 <= k < m ==> g(k) == h(k)
    ensures Sum(0, m, Weighted(W, r, g)) == Sum(0, m, Weighted(W, r, h))
  {
    SumExt(0, m, Weighted(W, r, g), Weighted(W, r, h));
  }

  /** Only entry (p[x], c) changed, so the column agrees on positions before x. */
  lemma ZColFrame(p: seq<int>, Z: Matrix, Z': Matrix, c: int, x: int, m: int)
    requires 0 <= x < |p| && m <= x && forall i, j :: 0 <= i < j < |p| ==> p[i] != p[j]
    requires forall r, j :: (r != p[x] || j != c) ==> Z'.Get(r, j) == Z.Get(r, j)
    ensures forall k :: 0 <= k < m ==> ZCol(Z', p, c)(k) == ZCol(Z, p, c)(k)
  {
    forall k | 0 <= k < m
      ensures ZCol(Z', p, c)(k) == ZCol(Z, p, c)(k)
    {
      assert p[k] != p[x];
    }
  }

  /** One update b(p[x], c) -= u(p[x], y) * b(p[y], c) of step y. */
  lemma FwdUpdate(W: Matrix, p: seq<int>, Z: Matrix, Z': Matrix, B: Matrix, n: int, c: int, y: int, x: int, zx: real, mult: real, zy: real)
    requires 0 <= y < x < n == |p| && IsPermutation(p, n)
    requires FwdMid(W, p, Z, B, n, c, y, x)
    requires forall r, j :: (r != p[x] || j != c) ==> Z'.Get(r, j) == Z.Get(r, j)
    requires zx == Z.Get(p[x], c) && mult == W.Get(p[x], y) && zy == Z.Get(p[y], c)
    requires Z'.Get(p[x], c) == zx - mult * zy
    ensures FwdMid(W, p, Z', B, n, c, y, x + 1)
  {
    var x1 := x + 1;
    forall i | 0 <= i < n
      ensures B.Get(p[i], c) == Z'.Get(p[i], c) + Sum(0, StepsDone(i, y, x1), Weighted(W, p[i], ZCol(Z', p, c)))
    {
      FwdUpdateRow(W, p, Z, Z', B, n, c, y, x, zx, mult, zy, i);
    }
  }

  lemma FwdUpdateRow(W: Matrix, p: seq<int>, Z: Matrix, Z': Matrix, B: Matrix, n: int, c: int, y: int, x: int,
                     zx: real, mult: real, zy: real, i: int)
    requires 0 <= y < x < n == |p| && IsPermutation(p, n) && 0 <= i < n
    requires FwdMid(W, p, Z, B, n, c, y, x)
    requires forall r, j :: (r != p[x] || j != c) ==> Z'.Get(r, j) == Z.Get(r, j)
    requires zx == Z.Get(p[x], c) && mult == W.Get(p[x], y) && zy == Z.Get(p[y], c)
    requires Z'.Get(p[x], c) == zx - mult * zy
    ensures B.Get(p[i], c) == Z'.Get(p[i], c) + Sum(0, StepsDone(i, y, x + 1), Weighted(W, p[i], ZCol(Z', p, c)))
  {
    if i == x {
      FwdUpdateSelf(W, p, Z, Z', B, n, c, y, x, zx, mult, zy);
    } else {
      FwdUpdateOther(W, p, Z, Z', B, n, c, y, x, i);
    }
  }

  lemma FwdUpdateSelf(W: Matrix, p: seq<int>, Z: Matrix, Z': Matrix, B: Matrix, n: int, c: int, y: int, x: int, zx: real, mult: real, zy: real)
    requires 0 <= y < x < n == |p| && IsPermutation(p, n)
    requires B.Get(p[x], c) == Z.Get(p[x], c) + Sum(0, y, Weighted(W, p[x], ZCol(Z, p, c)))
    requires forall r, j :: (r != p[x] || j != c) ==> Z'.Get(r, j) == Z.Get(r, j)
    requires zx == Z.Get(p[x], c) && mult == W.Get(p[x], y) && zy == Z.Get(p[y], c)
    requires Z'.Get(p[x], c) == zx - mult * zy
    ensures B.Get(p[x], c) == Z'.Get(p[x], c) + Sum(0, y + 1, Weighted(W, p[x], ZCol(Z', p, c)))
  {
    ZColFrame(p, Z, Z', c, x, y + 1);
    WeightedExt(W, p[x], ZCol(Z', p, c), ZCol(Z, p, c), y + 1);
    assert Weighted(W, p[x], ZCol(Z, p, c))(y) == W.Get(p[x], y) * Z.Get(p[y], c);
  }

  lemma FwdUpdateOther(W: Matrix, p: seq<int>, Z: Matrix, Z': Matrix, B: Matrix, n: int, c: int, y: int, x: int, i: int)
    requires 0 <= y < x < n == |p| && IsPermutation(p, n) && 0 <= i < n && i != x
    requires FwdMid(W, p, Z, B, n, c, y, x)
    requires forall r, j :: (r != p[x] || j != c) ==> Z'.Get(r, j) == Z.Get(r, j)
    ensures B.Get(p[i], c) == Z'.Get(p[i], c) + Sum(0, StepsDone(i, y, x + 1), Weighted(W, p[i], ZCol(Z', p, c)))
  {
    var m := StepsDone(i, y, x);
    assert m == StepsDone(i, y, x + 1);
    assert B.Get(p[i], c) == Z.Get(p[i], c) + Sum(0, m, Weighted(W, p[i], ZCol(Z, p, c)));
    ZColFrame(p, Z, Z', c, x, m);
    WeightedExt(W, p[i], ZCol(Z', p, c), ZCol(Z, p, c), m);
  }

  /** Forward substitution complete: the lower system for column c is solved. */
  lemma FwdDone(W: Matrix, p: seq<int>, Z: Matrix, B: Matrix, n: int, c: int, y: int)
    requires |p| == n && 0 <= y && (y == n - 1 || n == 0)
    requires FwdMid(W, p, Z, B, n, c, y, y + 1)
    ensures LowerCol(W, p, Z, B, n, c)
  {
    forall i | 0 <= i < n
      ensures Sum(0, n, LWeighted(W, p, i, ZCol(Z, p, c))) == B.Get(p[i], c)
    {
      assert StepsDone(i, y, y + 1) == i;
      LowerSplit(W, p, i, n, ZCol(Z, p, c));
    }
  }

  /** Back substitution of row x: the new entry X(x, c) completes row x. */
  lemma BwdUpdate(W: Matrix, p: seq<int>, X: Matrix, X': Matrix, Z: Matrix, n: int, c: int, x: int, z: real, piv: real)
    requires 0 <= x < n == |p|
    requires UpperFrom(W, p, X, Z, n, c, x + 1)
    requires forall r, j :: (r != x || j != c) ==> X'.Get(r, j) == X.Get(r, j)
    requires z == Z.Get(p[x], c) - Sum(x + 1, n, UTimes(W, p, x, X, c))
    requires piv == W.Get(p[x], x) != 0.0 && X'.Get(x, c) == z / piv
    ensures UpperFrom(W, p, X', Z, n, c, x)
  {
    forall k | 0 <= k < n && x + 1 <= k
      ensures Sum(0, n, UTimes(W, p, k, X', c)) == Z.Get(p[k], c)
    {
      BwdKeep(W, p, X, X', n, c, x, k);
    }
    BwdRowDone(W, p, X, X', Z, n, c, x, z, piv);
  }

  /** Rows below x do not involve X(x, c): U is upper triangular. */
  lemma BwdKeep(W: Matrix, p: seq<int>, X: Matrix, X': Matrix, n: int, c: int, x: int, k: int)
    requires 0 <= x < k < n == |p|
    requires forall r, j :: (r != x || j != c) ==> X'.Get(r, j) == X.Get(r, j)
    ensures Sum(0, n, UTimes(W, p, k, X', c)) == Sum(0, n, UTimes(W, p, k, X, c))
  {
    forall j | 0 <= j < n
      ensures UTimes(W, p, k, X', c)(j) == UTimes(W, p, k, X, c)(j)
    {
      if j == x {
        assert UF(W, p, k, j) == 0.0;
      }
    }
    SumExt(0, n, UTimes(W, p, k, X', c), UTimes(W, p, k, X, c));
  }

  lemma BwdRowDone(W: Matrix, p: seq<int>, X: Matrix, X': Matrix, Z: Matrix, n: int, c: int, x: int, z: real, piv: real)
    requires 0 <= x < n == |p|
    requires forall r, j :: (r != x || j != c) ==> X'.Get(r, j) == X.Get(r, j)
    requires z == Z.Get(p[x], c) - Sum(x + 1, n, UTimes(W, p, x, X, c))
    requires piv == W.Get(p[x], x) != 0.0 && X'.Get(x, c) == z / piv
    ensures Sum(0, n, UTimes(W, p, x, X', c)) == Z.Get(p[x], c)
  {
    var f := UTimes(W, p, x, X', c);
    SumSplit(0, x, n, f);
    SumZero(0, x, f);
    SumSplit(x, x + 1, n, f);
    SumExt(x + 1, n, f, UTimes(W, p, x, X, c));
    assert f(x) == piv * (z / piv);
  }


  /** a(r, c) = v, seen both on the array and on its matrix value. */
  method Store(a: array2<real>, r: int, c: int, v: real)
    requires 0 <= r < a.Length0 && 0 <= c < a.Length1
    modifies a
    ensures Snap(a).Get(r, c) == v
    ensures forall i, j :: (i != r || j != c) ==> Snap(a).Get(i, j) == old(Snap(a)).Get(i, j)
    ensures forall i, j :: 0 <= i < a.Length0 && 0 <= j < a.Length1 && (i != r || j != c) ==> a[i, j] == old(a[i, j])
  {
    ghost var M := Snap(a);
    a[r, c] := v;
    forall i, j | i != r || j != c
      ensures Snap(a).Get(i, j) == M.Get(i, j)
    {
      if !(0 <= i < a.Length0 && 0 <= j < a.Length1) {
        assert Snap(a).Get(i, j) == 0.0 == M.Get(i, j);
      }
    }
  }

  /** Before any step, the right-hand side is its own partial solution. */
  lemma FwdStart(W: Matrix, p: seq<int>, Z: Matrix, n: int, c: int)
    requires |p| == n
    ensures FwdMid(W, p, Z, Z, n, c, 0, 1)
  {
    forall i | 0 <= i < n
      ensures Z.Get(p[i], c) == Z.Get(p[i], c) + Sum(0, StepsDone(i, 0, 1), Weighted(W, p[i], ZCol(Z, p, c)))
    {
      assert StepsDone(i, 0, 1) == 0;
    }
  }

  /**
   * The forward half of gaussBackward for column c: applies the stored
   * multipliers to column c of b, which then solves L * z = (old column c).
   */
  method ForwardColumn(u: array2<real>, b: array2<real>, p: array<int>, ghost ps: seq<int>, c: int)
    requires u.Length0 == u.Length1 == b.Length0 == b.Length1 == p.Length && 0 <= c < p.Length
    requires ps == p[..] && IsPermutation(ps, p.Length) && b != u
    modifies b
    ensures LowerCol(Snap(u), ps, Snap(b), old(Snap(b)), p.Length, c)
    ensures forall r, j :: j != c ==> Snap(b).Get(r, j) == old(Snap(b)).Get(r, j)
  {
    var n := p.Length;
    ghost var W, B := Snap(u), Snap(b);
    FwdStart(W, ps, B, n, c);
    var y := 0;
    while y < n - 1
      invariant 0 <= y && (y <= n - 1 || n == 0)
      invariant FwdMid(W, ps, Snap(b), B, n, c, y, y + 1)
      invariant forall r, j :: j != c ==> Snap(b).Get(r, j) == B.Get(r, j)
    {
      var x := y + 1;
      while x < n
        invariant y + 1 <= x <= n
        invariant FwdMid(W, ps, Snap(b), B, n, c, y, x)
        invariant forall r, j :: j != c ==> Snap(b).Get(r, j) == B.Get(r, j)
      {
        FwdStep(u, b, p, ps, B, c, y, x);
        x := x + 1;
      }
      FwdNextStep(W, ps, Snap(b), B, n, c, y);
      y := y + 1;
    }
    FwdDone(W, ps, Snap(b), B, n, c, y);
  }

  /** b(p[x], c) -= u(p[x], y) * b(p[y], c), one update of step y. */
  method FwdStep(u: array2<real>, b: array2<real>, p: array<int>, ghost ps: seq<int>, ghost B: Matrix, c: int, y: int, x: int)
    requires u.Length0 == u.Length1 == b.Length0 == b.Length1 == p.Length && 0 <= c < p.Length
    requires ps == p[..] && IsPermutation(ps, p.Length) && b != u && 0 <= y < x < p.Length
    requires FwdMid(Snap(u), ps, Snap(b), B, p.Length, c, y, x)
    modifies b
    ensures FwdMid(Snap(u), ps, Snap(b), B, p.Length, c, y, x + 1)
    ensures forall r, j :: j != c ==> Snap(b).Get(r, j) == old(Snap(b)).Get(r, j)
  {
    ghost var W, Z0 := Snap(u), Snap(b);
    var r, ry := p[x], p[y];
    var bx, m, bp := b[r, c], u[r, y], b[ry, c];
    assert bx == Z0.Get(ps[x], c) && m == W.Get(ps[x], y) && bp == Z0.Get(ps[y], c);
    Store(b, r, c, bx - m * bp);
    FwdUpdate(W, ps, Z0, Snap(b), B, p.Length, c, y, x, bx, m, bp);
  }

  /**
   * The back-substitution half of gaussBackward for column c: fills column
   * c of res, bottom row first, so that U * (column c of res) equals column
   * c of b.
   */
  method BackColumn(u: array2<real>, b: array2<real>, res: array2<real>, p: array<int>, ghost ps: seq<int>, c: int)
    requires u.Length0 == u.Length1 == b.Length0 == b.Length1 == p.Length && 0 <= c < p.Length
    requires res.Length0 == res.Length1 == p.Length && res != u && res != b
    requires ps == p[..] && IsPermutation(ps, p.Length)
    requires forall k :: 0 <= k < p.Length ==> Snap(u).Get(ps[k], k) != 0.0
    modifies res
    ensures UpperFrom(Snap(u), ps, Snap(res), Snap(b), p.Length, c, 0)
    ensures forall r, j :: j != c ==> Snap(res).Get(r, j) == old(Snap(res)).Get(r, j)
  {
    var n := p.Length;
    ghost var W, Z, X0 := Snap(u), Snap(b), Snap(res);
    var z, piv := b[p[n - 1], c], u[p[n - 1], n - 1];
    assert z == Z.Get(ps[n - 1], c) - Sum(n, n, UTimes(W, ps, n - 1, X0, c));
    Store(res, n - 1, c, z / piv);
    BwdUpdate(W, ps, X0, Snap(res), Z, n, c, n - 1, z, piv);
    var x := n - 2;
    while x > -1
      invariant -1 <= x <= n - 2
      invariant UpperFrom(W, ps, Snap(res), Z, n, c, x + 1)
      invariant forall r, j :: j != c ==> Snap(res).Get(r, j) == X0.Get(r, j)
    {
      BackRow(u, b, res, p, ps, c, x);
      x := x - 1;
    }
  }

  /**
   * The right-hand side of row x once the later unknowns are known:
   * z = b(p[x], c) - u(p[x], x+1) * res(x+1, c) - ... - u(p[x], n-1) * res(n-1, c).
   */
  method Residual(u: array2<real>, b: array2<real>, res: array2<real>, p: array<int>, ghost ps: seq<int>, c: int, x: int) returns (z: real)
    requires u.Length0 == u.Length1 == b.Length0 == b.Length1 == p.Length && 0 <= c < p.Length
    requires res.Length0 == res.Length1 == p.Length
    requires ps == p[..] && IsPermutation(ps, p.Length) && 0 <= x < p.Length
    ensures z == Snap(b).Get(ps[x], c) - Sum(x + 1, p.Length, UTimes(Snap(u), ps, x, Snap(res), c))
  {
    var n := p.Length;
    ghost var W, Z, X := Snap(u), Snap(b), Snap(res);
    z := b[p[x], c];
    var y := x + 1;
    while y < n
      invariant x + 1 <= y <= n
      invariant z == Z.Get(ps[x], c) - Sum(x + 1, y, UTimes(W, ps, x, X, c))
    {
      var w, r := u[p[x], y], res[y, c];
      assert UTimes(W, ps, x, X, c)(y) == w * r;
      z := z - w * r;
      y := y + 1;
    }
  }

  /** Row x of back substitution: res(x, c) = (b(p[x], c) - the finished terms of row x) / pivot. */
  method BackRow(u: array2<real>, b: array2<real>, res: array2<real>, p: array<int>, ghost ps: seq<int>, c: int, x: int)
    requires u.Length0 == u.Length1 == b.Length0 == b.Length1 == p.Length && 0 <= c < p.Length
    requires res.Length0 == res.Length1 == p.Length && res != u && res != b
    requires ps == p[..] && IsPermutation(ps, p.Length) && 0 <= x < p.Length
    requires Snap(u).Get(ps[x], x) != 0.0
    requires UpperFrom(Snap(u), ps, Snap(res), Snap(b), p.Length, c, x + 1)
    modifies res
    ensures UpperFrom(Snap(u), ps, Snap(res), Snap(b), p.Length, c, x)
    ensures forall r, j :: j != c ==> Snap(res).Get(r, j) == old(Snap(res)).Get(r, j)
  {
    var n := p.Length;
    ghost var W, Z, X := Snap(u), Snap(b), Snap(res);
    var z := Residual(u, b, res, p, ps, c, x);
    var piv := u[p[x], x];
    Store(res, x, c, z / piv);
    BwdUpdate(W, ps, X, Snap(res), Z, n, c, x, z, piv);
  }

  /** The lower system for column c only reads column c of the right-hand side. */
  lemma LowerColRhs(W: Matrix, p: seq<int>, Z: Matrix, B: Matrix, B': Matrix, n: int, c: int)
    requires |p| == n && LowerCol(W, p, Z, B, n, c)
    requires forall r :: B.Get(r, c) == B'.Get(r, c)
    ensures LowerCol(W, p, Z, B', n, c)
  {
  }

  /**
   * gaussBackward: solves A * X = B column by column, where B is the
   * initial content of b. Afterwards b holds the intermediate solution Z of
   * L * Z = B (rows through p) and res holds X with U * X = Z.
   */
  method GaussBackward(b: array2<real>, u: array2<real>, p: array<int>) returns (res: array2<real>)
    requires u.Length0 == u.Length1 == b.Length0 == b.Length1 == p.Length && b != u
    requires IsPermutation(p[..], p.Length)
    requires forall k :: 0 <= k < p.Length ==> Snap(u).Get(p[k], k) != 0.0
    modifies b
    ensures fresh(res) && res.Length0 == res.Length1 == p.Length
    ensures SolvedCols(Snap(u), p[..], Snap(res), Snap(b), old(Snap(b)), p.Length, p.Length)
  {
    var n := p.Length;
    ghost var ps, W, B := p[..], Snap(u), Snap(b);
    res := new real[n, n]((i, j) requires 0 <= i < n && 0 <= j < n reads b => b[i, j]);
    var c := 0;
    while c < n
      invariant 0 <= c <= n
      invariant SolvedCols(W, ps, Snap(res), Snap(b), B, n, c)
      invariant forall r, j :: c <= j ==> Snap(b).Get(r, j) == B.Get(r, j)
    {
      ghost var X0, Z0 := Snap(res), Snap(b);
      ForwardColumn(u, b, p, ps, c);
      LowerColRhs(W, ps, Snap(b), Z0, B, n, c);
      BackColumn(u, b, res, p, ps, c);
      SolvedColsFrame(W, ps, X0, Z0, Snap(res), Snap(b), B, n, c, c);
      c := c + 1;
    }
  }

  // ---------------------------------------------------------------------
  // gaussInverse
  // ---------------------------------------------------------------------

  /** The rows of M taken in the order p. */
  function Permuted(M: Matrix, p: seq<int>): (r: Matrix)
    ensures r.Valid() && r.rows == |p| && r.cols == M.cols
    ensures forall i, j :: 0 <= i < |p| && 0 <= j < M.cols ==> r.Get(i, j) == M.Get(p[i], j)
  {
    Build(|p|, M.cols, (i, j) => if 0 <= i < |p| then M.Get(p[i], j) else 0.0)
  }

  /** The unit lower factor L held in the storage W. */
  function LowerMat(W: Matrix, p: seq<int>, n: nat): (L: Matrix)
    ensures L.Valid() && L.rows == n && L.cols == n
    ensures forall i, k :: 0 <= i < n && 0 <= k < n ==> L.Get(i, k) == LF(W, p, i, k)
  {
    Build(n, n, (i, k) => LF(W, p, i, k))
  }

  /** The upper factor U held in the storage W. */
  function UpperMat(W: Matrix, p: seq<int>, n: nat): (U: Matrix)
    ensures U.Valid() && U.rows == n && U.cols == n
    ensures forall k, j :: 0 <= k < n && 0 <= j < n ==> U.Get(k, j) == UF(W, p, k, j)
  {
    Build(n, n, (k, j) => UF(W, p, k, j))
  }

  /** A complete forward elimination is a factorisation L * U = P * A. */
  lemma FactorsMul(A: Matrix, W: Matrix, p: seq<int>, n: nat)
    requires Factored(A, W, p, n) && A.cols == n
    ensures Mul(LowerMat(W, p, n), UpperMat(W, p, n)) == Permuted(A, p)
  {
    var L, U := LowerMat(W, p, n), UpperMat(W, p, n);
    forall i, j | 0 <= i < n && 0 <= j < n
      ensures Mul(L, U).Get(i, j) == Permuted(A, p).Get(i, j)
    {
      FactorsMulEntry(A, W, p, n, i, j);
    }
    MatrixExt(Mul(L, U), Permuted(A, p));
  }

  lemma FactorsMulEntry(A: Matrix, W: Matrix, p: seq<int>, n: nat, i: int, j: int)
    requires Factored(A, W, p, n) && A.cols == n && 0 <= i < n && 0 <= j < n
    ensures Mul(LowerMat(W, p, n), UpperMat(W, p, n)).Get(i, j) == Permuted(A, p).Get(i, j)
  {
    var L, U := LowerMat(W, p, n), UpperMat(W, p, n);
    LUProduct(A, W, p, n, i, j);
    SumExt(0, n, k => L.Get(i, k) * U.Get(k, j), LWeighted(W, p, i, UCol(W, p, j)));
  }

  /** Forward substitution solved L * (P * Z) = P * B. */
  lemma LowerMul(W: Matrix, p: seq<int>, Z: Matrix, B: Matrix, n: nat)
    requires |p| == n && Z.cols == n && B.cols == n
    requires forall c :: 0 <= c < n ==> LowerCol(W, p, Z, B, n, c)
    ensures Mul(LowerMat(W, p, n), Permuted(Z, p)) == Permuted(B, p)
  {
    var L, PZ := LowerMat(W, p, n), Permuted(Z, p);
    forall i, c | 0 <= i < n && 0 <= c < n
      ensures Mul(L, PZ).Get(i, c) == Permuted(B, p).Get(i, c)
    {
      LowerMulEntry(W, p, Z, B, n, i, c);
    }
    MatrixExt(Mul(L, PZ), Permuted(B, p));
  }

  lemma LowerMulEntry(W: Matrix, p: seq<int>, Z: Matrix, B: Matrix, n: nat, i: int, c: int)
    requires |p| == n && Z.cols == n && B.cols == n && 0 <= i < n && 0 <= c < n
    requires LowerCol(W, p, Z, B, n, c)
    ensures Mul(LowerMat(W, p, n), Permuted(Z, p)).Get(i, c) == Permuted(B, p).Get(i, c)
  {
    var L, PZ := LowerMat(W, p, n), Permuted(Z, p);
    SumExt(0, n, k => L.Get(i, k) * PZ.Get(k, c), LWeighted(W, p, i, ZCol(Z, p, c)));
  }

  /** Back substitution solved U * X = P * Z. */
  lemma UpperMul(W: Matrix, p: seq<int>, X: Matrix, Z: Matrix, n: nat)
    requires |p| == n && X.rows == n && X.cols == n && Z.cols == n
    requires forall c :: 0 <= c < n ==> UpperFrom(W, p, X, Z, n, c, 0)
    ensures Mul(UpperMat(W, p, n), X) == Permuted(Z, p)
  {
    var U := UpperMat(W, p, n);
    forall k, c | 0 <= k < n && 0 <= c < n
      ensures Mul(U, X).Get(k, c) == Permuted(Z, p).Get(k, c)
    {
      assert UpperFrom(W, p, X, Z, n, c, 0);
      SumExt(0, n, j => U.Get(k, j) * X.Get(j, c), UTimes(W, p, k, X, c));
    }
    MatrixExt(Mul(U, X), Permuted(Z, p));
  }

  /** Reordering the rows of A reorders the rows of A * X. */
  lemma PermutedMul(A: Matrix, X: Matrix, p: seq<int>)
    requires A.cols == X.rows && forall i :: 0 <= i < |p| ==> 0 <= p[i] < A.rows
    ensures Mul(Permuted(A, p), X) == Permuted(Mul(A, X), p)
  {
    var PA := Permuted(A, p);
    forall i, c | 0 <= i < |p| && 0 <= c < X.cols
      ensures Mul(PA, X).Get(i, c) == Permuted(Mul(A, X), p).Get(i, c)
    {
      SumExt(0, A.cols, k => PA.Get(i, k) * X.Get(k, c), k => A.Get(p[i], k) * X.Get(k, c));
    }
    MatrixExt(Mul(PA, X), Permuted(Mul(A, X), p));
  }

  /** Reordering the rows by a permutation loses nothing. */
  lemma PermutedCancel(M: Matrix, N: Matrix, p: seq<int>, n: nat)
    requires IsPermutation(p, n) && M.Valid() && N.Valid()
    requires M.rows == N.rows == n && M.cols == N.cols
    requires Permuted(M, p) == Permuted(N, p)
    ensures M == N
  {
    forall r, j | 0 <= r < n && 0 <= j < M.cols
      ensures M.Get(r, j) == N.Get(r, j)
    {
      assert Occurs(p, r);
      var i :| 0 <= i < n && p[i] == r;
      assert Permuted(M, p).Get(i, j) == Permuted(N, p).Get(i, j);
    }
    MatrixExt(M, N);
  }

  /**
   * A complete elimination followed by both substitutions against the
   * identity yields a right inverse of A.
   */
  lemma InverseFromFactors(A: Matrix, W: Matrix, p: seq<int>, X: Matrix, Z: Matrix, n: nat)
    requires A.Valid() && A.rows == A.cols == n
    requires X.Valid() && X.rows == X.cols == n && Z.cols == n
    requires Factored(A, W, p, n)
    requires SolvedCols(W, p, X, Z, Identity(n), n, n)
    ensures Mul(A, X) == Identity(n)
  {
    var L, U := LowerMat(W, p, n), UpperMat(W, p, n);
    FactorsMul(A, W, p, n);
    LowerMul(W, p, Z, Identity(n), n);
    UpperMul(W, p, X, Z, n);
    MulAssoc(L, U, X);
    PermutedMul(A, X, p);
    PermutedCancel(Mul(A, X), Identity(n), p, n);
  }

  /**
   * gaussInverse: the inverse of the square matrix A. A singular A is
   * reported as ErrorDiv0; the code as written then returns a non-finite
   * or a wrong finite matrix.
   */
  method GaussInverse(A: Matrix) returns (r: Result<Matrix>)
    requires A.Valid() && A.rows == A.cols
    ensures r.Ok? ==> r.value.Valid() && r.value.rows == r.value.cols == A.rows
    ensures r.Ok? ==> Mul(A, r.value) == Identity(A.rows) && !Singular(A)
    ensures r.Err? ==> r.error == ErrorDiv0 && Singular(A)
  {
    var n := A.rows;
    var u := ToArray(A);
    var I := Eye(n);
    var b := ToArray(I);
    var p := new int[n];
    ghost var A0 := Snap(u);
    assert A0 == A;
    var ok := GaussForward(u, p);
    if !ok {
      assert Singular(A0);
      return Err(ErrorDiv0);
    }
    if n > 0 && u[p[n - 1], n - 1] == 0.0 {
      LastPivotSingular(A, Snap(u), p[..], n);
      return Err(ErrorDiv0);
    }
    ghost var W := Snap(u);
    var res := GaussBackward(b, u, p);
    var X := Snap(res);
    InverseFromFactors(A, W, p[..], X, Snap(b), n);
    FactoredNonSingular(A, W, p[..], n);
    return Ok(X);
  }

  /** A unit lower-triangular matrix sends only the zero column to zero. */
  lemma UnitLowerKernel(L: Matrix, w: Matrix, n: nat)
    requires L.Valid() && L.rows == L.cols == n && w.Valid() && w.rows == n && w.cols == 1
    requires forall i :: 0 <= i < n ==> L.Get(i, i) == 1.0
    requires forall i, k :: 0 <= i < k < n ==> L.Get(i, k) == 0.0
    requires Mul(L, w) == Filled(n, 1, 0.0)
    ensures w == Filled(n, 1, 0.0)
  {
    LowerZeros(L, w, n, n);
    MatrixExt(w, Filled(n, 1, 0.0));
  }

  lemma {:induction false} LowerZeros(L: Matrix, w: Matrix, n: nat, m: nat)
    requires L.Valid() && L.rows == L.cols == n && w.Valid() && w.rows == n && w.cols == 1 && m <= n
    requires forall i :: 0 <= i < n ==> L.Get(i, i) == 1.0
    requires forall i, k :: 0 <= i < k < n ==> L.Get(i, k) == 0.0
    requires Mul(L, w) == Filled(n, 1, 0.0)
    ensures forall k :: 0 <= k < m ==> w.Get(k, 0) == 0.0
    decreases m
  {
    if 0 < m {
      LowerZeros(L, w, n, m - 1);
      LowerZeroRow(L, w, n, m - 1);
    }
  }

  /** Row i of L * w == 0, with w zero above row i, makes w zero at row i. */
  lemma LowerZeroRow(L: Matrix, w: Matrix, n: nat, i: nat)
    requires L.Valid() && L.rows == L.cols == n && w.Valid() && w.rows == n && w.cols == 1 && i < n
    requires L.Get(i, i) == 1.0
    requires forall k :: i < k < n ==> L.Get(i, k) == 0.0
    requires Mul(L, w).Get(i, 0) == 0.0
    requires forall k :: 0 <= k < i ==> w.Get(k, 0) == 0.0
    ensures w.Get(i, 0) == 0.0
  {
    var f := k => L.Get(i, k) * w.Get(k, 0);
    assert Mul(L, w).Get(i, 0) == Sum(0, n, f);
    forall k | 0 <= k < n && k != i
      ensures f(k) == 0.0
    {
      if k < i {
        assert w.Get(k, 0) == 0.0;
      } else {
        assert L.Get(i, k) == 0.0;
      }
    }
    SumSingle(0, n, i, f);
    assert f(i) == w.Get(i, 0);
  }

  /** An upper-triangular matrix with a non-zero diagonal sends only the zero column to zero. */
  lemma UpperKernel(U: Matrix, v: Matrix, n: nat)
    requires U.Valid() && U.rows == U.cols == n && v.Valid() && v.rows == n && v.cols == 1
    requires forall k :: 0 <= k < n ==> U.Get(k, k) != 0.0
    requires forall k, j :: 0 <= j < k < n ==> U.Get(k, j) == 0.0
    requires Mul(U, v) == Filled(n, 1, 0.0)
    ensures v == Filled(n, 1, 0.0)
  {
    UpperZeros(U, v, n, 0);
    MatrixExt(v, Filled(n, 1, 0.0));
  }

  lemma {:induction false} UpperZeros(U: Matrix, v: Matrix, n: nat, m: nat)
    requires U.Valid() && U.rows == U.cols == n && v.Valid() && v.rows == n && v.cols == 1 && m <= n
    requires forall k :: 0 <= k < n ==> U.Get(k, k) != 0.0
    requires forall k, j :: 0 <= j < k < n ==> U.Get(k, j) == 0.0
    requires Mul(U, v) == Filled(n, 1, 0.0)
    ensures forall k :: m <= k < n ==> v.Get(k, 0) == 0.0
    decreases n - m
  {
    if m < n {
      UpperZeros(U, v, n, m + 1);
      UpperZeroRow(U, v, n, m);
    }
  }

  /** Row m of U * v == 0, with v zero below row m, makes v zero at row m. */
  lemma UpperZeroRow(U: Matrix, v: Matrix, n: nat, m: nat)
    requires U.Valid() && U.rows == U.cols == n && v.Valid() && v.rows == n && v.cols == 1 && m < n
    requires U.Get(m, m) != 0.0
    requires forall j :: 0 <= j < m ==> U.Get(m, j) == 0.0
    requires Mul(U, v).Get(m, 0) == 0.0
    requires forall k :: m < k < n ==> v.Get(k, 0) == 0.0
    ensures v.Get(m, 0) == 0.0
  {
    var f := j => U.Get(m, j) * v.Get(j, 0);
    assert Mul(U, v).Get(m, 0) == Sum(0, n, f);
    forall j | 0 <= j < n && j != m
      ensures f(j) == 0.0
    {
      if j < m {
        assert U.Get(m, j) == 0.0;
      } else {
        assert v.Get(j, 0) == 0.0;
      }
    }
    SumSingle(0, n, m, f);
    NonZeroProduct(U.Get(m, m), v.Get(m, 0));
  }

  lemma NonZeroProduct(a: real, b: real)
    requires a != 0.0 && a * b == 0.0
    ensures b == 0.0
  {
  }

  /**
   * A complete elimination with no zero pivot leaves A non-singular: from
   * A * v == 0 follow L * (U * v) == 0, then U * v == 0, then v == 0.
   */
  lemma FactoredNonSingular(A: Matrix, W: Matrix, p: seq<int>, n: nat)
    requires A.Valid() && A.rows == A.cols == n
    requires Factored(A, W, p, n) && (0 < n ==> W.Get(p[n - 1], n - 1) != 0.0)
    ensures !Singular(A)
  {
    if Singular(A) {
      var v: Matrix :| v.Valid() && v.rows == A.cols && v.cols == 1
        && v != Filled(A.cols, 1, 0.0) && Mul(A, v) == Filled(A.rows, 1, 0.0);
      FactoredKernel(A, W, p, n, v);
      assert false;
    }
  }

  lemma FactoredKernel(A: Matrix, W: Matrix, p: seq<int>, n: nat, v: Matrix)
    requires A.Valid() && A.rows == A.cols == n && v.Valid() && v.rows == n && v.cols == 1
    requires Factored(A, W, p, n) && (0 < n ==> W.Get(p[n - 1], n - 1) != 0.0)
    requires Mul(A, v) == Filled(n, 1, 0.0)
    ensures v == Filled(n, 1, 0.0)
  {
    var L, U := LowerMat(W, p, n), UpperMat(W, p, n);
    FactorsMul(A, W, p, n);
    MulAssoc(L, U, v);
    PermutedMul(A, v, p);
    assert Permuted(Filled(n, 1, 0.0), p) == Filled(n, 1, 0.0) by {
      MatrixExt(Permuted(Filled(n, 1, 0.0), p), Filled(n, 1, 0.0));
    }
    UnitLowerKernel(L, Mul(U, v), n);
    assert forall k :: 0 <= k < n ==> U.Get(k, k) == W.Get(p[k], k);
    UpperKernel(U, v, n);
  }

  /** A zero in the last pivot position also means A is singular. */
  lemma LastPivotSingular(A: Matrix, W: Matrix, p: seq<int>, n: nat)
    requires A.Valid() && A.rows == A.cols == n && 0 < n
    requires Factored(A, W, p, n) && W.Get(p[n - 1], n - 1) == 0.0
    ensures Singular(A)
  {
    var last := n - 1;
    forall i | 0 <= i < n
      ensures RowForm(A, W, p, n, i, Min(i, last))
    {
      assert Min(i, last) == i;
    }
    StuckSingular(A, W, p, n, last);
  }


  // ---------------------------------------------------------------------
  // Singular inputs
  // ---------------------------------------------------------------------

  /** A has a non-zero null vector, so no matrix B gives B * A == I. */
  ghost predicate Singular(A: Matrix) {
    exists v: Matrix :: v.Valid() && v.rows == A.cols && v.cols == 1
      && v != Filled(A.cols, 1, 0.0) && Mul(A, v) == Filled(A.rows, 1, 0.0)
  }

  lemma MulZero(B: Matrix, n: nat)
    requires B.cols == n
    ensures Mul(B, Filled(n, 1, 0.0)) == Filled(B.rows, 1, 0.0)
  {
    forall i, j | 0 <= i < B.rows && 0 <= j < 1
      ensures Mul(B, Filled(n, 1, 0.0)).Get(i, j) == 0.0
    {
      SumZero(0, n, k => B.Get(i, k) * Filled(n, 1, 0.0).Get(k, j));
    }
    MatrixExt(Mul(B, Filled(n, 1, 0.0)), Filled(B.rows, 1, 0.0));
  }

  /** A singular matrix has no left inverse. */
  lemma SingularNoInverse(A: Matrix, B: Matrix)
    requires Singular(A) && B.cols == A.rows
    ensures Mul(B, A) != Identity(A.cols)
  {
    var v: Matrix :| v.Valid() && v.rows == A.cols && v.cols == 1
      && v != Filled(A.cols, 1, 0.0) && Mul(A, v) == Filled(A.rows, 1, 0.0);
    if Mul(B, A) == Identity(A.cols) {
      MulAssoc(B, A, v);
      MulIdentity(v);
      MulZero(B, A.rows);
      assert false;
    }
  }

  /**
   * Entry k of the null vector built when column y has no usable pivot:
   * 1 at y, 0 below y, and above y the back substitution of
   * U[0..y-1, 0..y-1] * v = -(column y of U).
   */
  ghost function KerVal(W: Matrix, p: seq<int>, y: int, k: int): real
    decreases y - k, 1
  {
    if y <= k then (if k == y then 1.0 else 0.0)
    else if UF(W, p, k, k) == 0.0 then 0.0
    else -KerDot(W, p, y, k, y + 1) / UF(W, p, k, k)
  }

  /** UF(k, k+1) * v(k+1) + ... + UF(k, hi-1) * v(hi-1). */
  ghost function KerDot(W: Matrix, p: seq<int>, y: int, k: int, hi: int): real
    decreases y - k, 0, hi - k
  {
    if hi <= k + 1 || y <= k then 0.0
    else KerDot(W, p, y, k, hi - 1) + UF(W, p, k, hi - 1) * KerVal(W, p, y, hi - 1)
  }

  /** The null vector as an n x 1 matrix. */
  ghost function KerVec(W: Matrix, p: seq<int>, y: int, n: nat): (v: Matrix)
    ensures v.Valid() && v.rows == n && v.cols == 1
    ensures forall j :: 0 <= j < n ==> v.Get(j, 0) == KerVal(W, p, y, j)
  {
    Build(n, 1, (j, c) => KerVal(W, p, y, j))
  }

  lemma {:induction false} KerDotSum(W: Matrix, p: seq<int>, y: int, n: nat, k: int, hi: int)
    requires 0 <= k < y < n && k + 1 <= hi <= y + 1
    ensures Sum(k + 1, hi, UTimes(W, p, k, KerVec(W, p, y, n), 0)) == KerDot(W, p, y, k, hi)
    decreases hi
  {
    if k + 1 < hi {
      KerDotSum(W, p, y, n, k, hi - 1);
    }
  }

  lemma DivCancel(a: real, v: real, d: real)
    requires a != 0.0 && v == -d / a
    ensures a * v == -d
  {
  }

  /** The diagonal term of row k against the null vector cancels the rest of the row. */
  lemma KerDiagonal(W: Matrix, p: seq<int>, y: int, n: nat, k: int)
    requires |p| == n && 0 <= k < y < n && W.Get(p[k], k) != 0.0
    ensures UTimes(W, p, k, KerVec(W, p, y, n), 0)(k) == -KerDot(W, p, y, k, y + 1)
  {
    var piv, d, v := UF(W, p, k, k), KerDot(W, p, y, k, y + 1), KerVal(W, p, y, k);
    assert v == -d / piv;
    DivCancel(piv, v, d);
  }

  /** Rows 0 .. y-1 of U annihilate the null vector. */
  lemma KerUpperRow(W: Matrix, p: seq<int>, y: int, n: nat, k: int)
    requires |p| == n && 0 <= k < y < n && W.Get(p[k], k) != 0.0
    ensures Sum(0, n, UTimes(W, p, k, KerVec(W, p, y, n), 0)) == 0.0
  {
    var V := KerVec(W, p, y, n);
    var f := UTimes(W, p, k, V, 0);
    SumSplit(0, k, n, f);
    SumZero(0, k, f);
    SumSplit(k, k + 1, n, f);
    SumSplit(k + 1, y + 1, n, f);
    KerDotSum(W, p, y, n, k, y + 1);
    forall j | y + 1 <= j < n
      ensures f(j) == 0.0
    {
      assert V.Get(j, 0) == KerVal(W, p, y, j) == 0.0;
    }
    SumZero(y + 1, n, f);
    KerDiagonal(W, p, y, n, k);
    assert Sum(k, k + 1, f) == f(k);
  }

  /** The terms W(r, k) * U(k, j) * v(j) of row r of A * v. */
  function KerTerms(W: Matrix, p: seq<int>, r: int, V: Matrix): (int, int) -> real {
    (j, k) => W.Get(r, k) * (UF(W, p, k, j) * V.Get(j, 0))
  }

  /** Term j of row r of A * v that comes from the first m elimination steps. */
  function HeadTerm(W: Matrix, p: seq<int>, r: int, m: int, V: Matrix): int -> real {
    j => Sum(0, m, Weighted(W, r, UCol(W, p, j))) * V.Get(j, 0)
  }

  /** Term j of row r of A * v that comes from the stored row itself. */
  function TailTerm(W: Matrix, r: int, m: int, V: Matrix): int -> real {
    j => (if m <= j then W.Get(r, j) else 0.0) * V.Get(j, 0)
  }

  lemma KerHeadTerm(W: Matrix, p: seq<int>, r: int, m: int, V: Matrix, j: int)
    requires 0 <= m
    ensures HeadTerm(W, p, r, m, V)(j) == RowSum(m, KerTerms(W, p, r, V), j)
  {
    var F := KerTerms(W, p, r, V);
    forall k | 0 <= k < m
      ensures F(j, k) == V.Get(j, 0) * Weighted(W, r, UCol(W, p, j))(k)
    {
      var a, b, v := W.Get(r, k), UF(W, p, k, j), V.Get(j, 0);
      assert F(j, k) == a * (b * v);
      assert Weighted(W, r, UCol(W, p, j))(k) == a * b;
      Reassociate(a, b, v);
    }
    SumScale(0, m, V.Get(j, 0), Weighted(W, r, UCol(W, p, j)), k => F(j, k));
  }

  lemma KerHeadCol(W: Matrix, p: seq<int>, y: int, n: nat, r: int, k: int)
    requires |p| == n && 0 <= k < y < n && W.Get(p[k], k) != 0.0
    ensures ColSum(n, KerTerms(W, p, r, KerVec(W, p, y, n)), k) == 0.0
  {
    var V := KerVec(W, p, y, n);
    var F := KerTerms(W, p, r, V);
    KerUpperRow(W, p, y, n, k);
    SumScale(0, n, W.Get(r, k), UTimes(W, p, k, V, 0), j => F(j, k));
  }

  /** The part of row r of A * v that comes from the first m elimination steps vanishes. */
  lemma KerHead(W: Matrix, p: seq<int>, y: int, n: nat, r: int, m: int)
    requires |p| == n && 0 <= m <= y < n
    requires Pivots(W, p, y)
    ensures Sum(0, n, HeadTerm(W, p, r, m, KerVec(W, p, y, n))) == 0.0
  {
    var V := KerVec(W, p, y, n);
    var F := KerTerms(W, p, r, V);
    forall j | 0 <= j < n
      ensures HeadTerm(W, p, r, m, V)(j) == RowSum(m, F, j)
    {
      KerHeadTerm(W, p, r, m, V, j);
    }
    SumExt(0, n, HeadTerm(W, p, r, m, V), j => RowSum(m, F, j));
    SumSwap(n, m, F);
    forall k | 0 <= k < m
      ensures ColSum(n, F, k) == 0.0
    {
      KerHeadCol(W, p, y, n, r, k);
    }
    SumZero(0, m, k => ColSum(n, F, k));
  }

  /** The rest of row p[i] of A * v vanishes too. */
  lemma KerTail(W: Matrix, p: seq<int>, y: int, n: nat, i: int)
    requires |p| == n && 0 <= i < n && 0 <= y < n
    requires Pivots(W, p, y) && ZeroColumn(W, p, y)
    ensures Sum(0, n, TailTerm(W, p[i], Min(i, y), KerVec(W, p, y, n))) == 0.0
  {
    var V := KerVec(W, p, y, n);
    var g := TailTerm(W, p[i], Min(i, y), V);
    if i < y {
      SumExt(0, n, g, UTimes(W, p, i, V, 0));
      KerUpperRow(W, p, y, n, i);
    } else {
      forall j | 0 <= j < n
        ensures g(j) == 0.0
      {
        if j > y {
          assert V.Get(j, 0) == KerVal(W, p, y, j) == 0.0;
        }
      }
      SumZero(0, n, g);
    }
  }

  /** A row rebuilt from the storage, times v, splits into the head and tail terms. */
  lemma ReconTimes(W: Matrix, p: seq<int>, r: int, m: int, V: Matrix, j: int, a: real)
    requires a == Recon(W, p, r, m, j)
    ensures a * V.Get(j, 0) == HeadTerm(W, p, r, m, V)(j) + TailTerm(W, r, m, V)(j)
  {
    var h, t, v := Sum(0, m, Weighted(W, r, UCol(W, p, j))), (if m <= j then W.Get(r, j) else 0.0), V.Get(j, 0);
    assert a == h + t;
    assert (h + t) * v == h * v + t * v;
  }

  /** Row p[i] of A * v is zero. */
  lemma KerRow(A: Matrix, W: Matrix, p: seq<int>, y: int, n: nat, i: int)
    requires A.cols == n && |p| == n && 0 <= i < n && 0 <= y < n
    requires RowForm(A, W, p, n, i, Min(i, y)) && Pivots(W, p, y) && ZeroColumn(W, p, y)
    ensures RowCol(A, KerVec(W, p, y, n), p[i], 0) == 0.0
  {
    var V := KerVec(W, p, y, n);
    var m := Min(i, y);
    KerHead(W, p, y, n, p[i], m);
    KerTail(W, p, y, n, i);
    RowSplit(A, W, p, p[i], m, V, n);
  }

  /** Row r of A * V, for a row rebuilt after m steps, is the head part plus the tail part. */
  lemma RowSplit(A: Matrix, W: Matrix, p: seq<int>, r: int, m: int, V: Matrix, n: int)
    requires A.cols == n && forall j :: 0 <= j < n ==> A.Get(r, j) == Recon(W, p, r, m, j)
    ensures RowCol(A, V, r, 0) == Sum(0, n, HeadTerm(W, p, r, m, V)) + Sum(0, n, TailTerm(W, r, m, V))
  {
    forall j | 0 <= j < n
      ensures A.Get(r, j) * V.Get(j, 0) == HeadTerm(W, p, r, m, V)(j) + TailTerm(W, r, m, V)(j)
    {
      ReconTimes(W, p, r, m, V, j, A.Get(r, j));
    }
    SumAdd(0, n, HeadTerm(W, p, r, m, V), TailTerm(W, r, m, V), k => A.Get(r, k) * V.Get(k, 0));
  }

  /**
   * If elimination reaches a column y whose remaining candidates are all
   * zero, the input matrix is singular.
   */
  lemma StuckSingular(A: Matrix, W: Matrix, p: seq<int>, n: nat, y: int)
    requires A.Valid() && A.rows == A.cols == n && IsPermutation(p, n) && 0 <= y < n
    requires Stage(A, W, p, n, y) && Pivots(W, p, y) && ZeroColumn(W, p, y)
    ensures Singular(A)
  {
    var V := KerVec(W, p, y, n);
    forall r, c | 0 <= r < n && 0 <= c < 1
      ensures Mul(A, V).Get(r, c) == Filled(n, 1, 0.0).Get(r, c)
    {
      assert Occurs(p, r);
      var i :| 0 <= i < n && p[i] == r;
      assert RowForm(A, W, p, n, i, Min(i, y));
      KerRow(A, W, p, y, n, i);
    }
    MatrixExt(Mul(A, V), Filled(n, 1, 0.0));
    assert V.Get(y, 0) != Filled(n, 1, 0.0).Get(y, 0);
  }
}
