/**
 * The pivot search of gaussForward (inc/libMath/myMATH.h) starts with the
 * row index t = 0 rather than at the first row of the sub-matrix. When
 * every candidate of a column is zero, no candidate beats maxPivot = 0, t
 * stays 0 and the swap exchanges positions 0 and iter_y. For iter_y > 0
 * this moves an eliminated row into the place of the first pivot row.
 *
 * The matrix below is singular; A, W1 and p1 are the input, the storage and
 * the row order after the first elimination step.
 */
module PivotFinding {
  import opened Matrices
  import opened Gauss
  import opened Permutations

  function A(): Matrix {
    Matrix(3, 3, [[1.0, 2.0, 3.0], [2.0, 4.0, 7.0], [3.0, 6.0, 1.0]])
  }

  /** After step 0: pivot row 2, multipliers 2/3 and 1/3 stored in column 0. */
  function W1(): Matrix {
    Matrix(3, 3, [[1.0 / 3.0, 0.0, 8.0 / 3.0], [2.0 / 3.0, 0.0, 19.0 / 3.0], [3.0, 6.0, 1.0]])
  }

  function P1(): seq<int> {
    [2, 1, 0]
  }

  /** maxOfrow: the largest element of every input row. */
  function RowMaxima(): seq<real> {
    [3.0, 7.0, 6.0]
  }

  /** W1 and p1 are a state the elimination loop can be in at step 1. */
  lemma StepOneState()
    ensures IsPermutation(P1(), 3)
    ensures forall r :: 0 <= r < 3 ==> IsRowMax(A(), r, RowMaxima()[r])
    ensures Stage(A(), W1(), P1(), 3, 1) && Pivots(W1(), P1(), 1)
  {
    var p := P1();
    assert Occurs(p, 0) by { assert p[2] == 0; }
    assert Occurs(p, 1) by { assert p[1] == 1; }
    assert Occurs(p, 2) by { assert p[0] == 2; }
    forall r | 0 <= r < 3
      ensures IsRowMax(A(), r, RowMaxima()[r])
    {
      var j := if r == 0 then 2 else if r == 1 then 2 else 1;
      assert A().Get(r, j) == RowMaxima()[r];
    }
    forall i | 0 <= i < 3
      ensures RowForm(A(), W1(), p, 3, i, Min(i, 1))
    {
      if i > 0 {
        forall j | 0 <= j < 3
          ensures A().Get(p[i], j) == Recon(W1(), p, p[i], 1, j)
        {
          assert Sum(0, 1, Weighted(W1(), p[i], UCol(W1(), p, j))) == W1().Get(p[i], 0) * W1().Get(2, j);
        }
      }
    }
  }

  /**
   * As written: with t starting at 0 the search of step 1 settles on
   * position 0, and after the swap the first pivot position names a row
   * that does not rebuild its input row: the factorisation is lost.
   */
  lemma PivotStartsAtZero()
    ensures PivotScan(Candidates(W1(), P1(), RowMaxima(), 1), 1, 3, 0) == (0, Finite(0.0))
    ensures var p := P1()[0 := P1()[1]][1 := P1()[0]];
      p == [1, 2, 0] && !RowForm(A(), W1(), p, 3, 0, 0)
  {
    var sc := Candidates(W1(), P1(), RowMaxima(), 1);
    assert sc[1] == Finite(0.0) && sc[2] == Finite(0.0);
    var p := P1()[0 := P1()[1]][1 := P1()[0]];
    assert A().Get(p[0], 0) != Recon(W1(), p, p[0], 0, 0);
  }

  /**
   * Corrected: starting at position 1 the search keeps the pivot row in
   * place and reports a zero column, which the model turns into the proof
   * that A has no inverse.
   */
  lemma PivotStartsAtStep()
    ensures PivotScan(Candidates(W1(), P1(), RowMaxima(), 1), 1, 3, 1) == (1, Finite(0.0))
    ensures ZeroColumn(W1(), P1(), 1)
    ensures Singular(A())
  {
    StepOneState();
    var sc := Candidates(W1(), P1(), RowMaxima(), 1);
    assert sc[1] == Finite(0.0) && sc[2] == Finite(0.0);
    StuckSingular(A(), W1(), P1(), 3, 1);
  }
}
