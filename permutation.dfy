/**
 * Index permutations: the row order `sortedRowIndex` of the Gaussian
 * elimination and the argsort result of `sortID` (inc/libMath/myMATH.h)
 * are both permutations of 0 .. n-1.
 */
module Permutations {

  /** r is listed somewhere in p. */
  predicate Occurs(p: seq<int>, r: int) {
    exists i :: 0 <= i < |p| && p[i] == r
  }

  /** p lists every index 0 .. n-1 exactly once. */
  predicate IsPermutation(p: seq<int>, n: int) {
    |p| == n
    && (forall i :: 0 <= i < n ==> 0 <= p[i] < n)
    && (forall i, j :: 0 <= i < j < n ==> p[i] != p[j])
    && (forall r :: 0 <= r < n ==> Occurs(p, r))
  }

  lemma IdentityPermutation(p: seq<int>, n: int)
    requires |p| == n && forall i :: 0 <= i < n ==> p[i] == i
    ensures IsPermutation(p, n)
  {
    forall r | 0 <= r < n
      ensures Occurs(p, r)
    {
      assert p[r] == r;
    }
  }

  /** std::swap of two entries keeps a permutation a permutation. */
  lemma SwapPermutation(p: seq<int>, n: int, a: int, b: int)
    requires IsPermutation(p, n) && 0 <= a < n && 0 <= b < n
    ensures IsPermutation(p[a := p[b]][b := p[a]], n)
  {
    var q := p[a := p[b]][b := p[a]];
    forall r | 0 <= r < n
      ensures Occurs(q, r)
    {
      assert Occurs(p, r);
      var i :| 0 <= i < n && p[i] == r;
      if i == a {
        assert q[b] == r;
      } else if i == b {
        assert q[a] == r;
      } else {
        assert q[i] == r;
      }
    }
  }
}
