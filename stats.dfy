/**
 * The robust statistics of inc/libMath/myMATH.h: `sortID` (an argsort),
 * `getMedian` and `isOutlier` (a median +- 3 * 1.4826 * MAD test).
 */
module Stats {
  import opened LibM
  import opened STBCommons
  import opened Permutations

  /**
   * p lists the indices of nums in an order of non-decreasing value. Ties
   * may come in any order: std::sort promises no stability.
   */
  predicate ArgSort(nums: seq<real>, p: seq<int>) {
    IsPermutation(p, |nums|)
    && forall k, l :: 0 <= k < l < |p| ==> nums[p[k]] <= nums[p[l]]
  }

  /**
   * sortID(sort_index, nums): sort_index must already have the length of
   * nums (error_size otherwise, and nothing is written). It is filled with
   * 0 .. n-1 and then sorted by the values the indices select.
   */
  method SortID(sortIndex: array<int>, nums: seq<real>) returns (r: Outcome)
    modifies sortIndex
    ensures r.Fail? <==> sortIndex.Length != |nums|
    ensures r.Fail? ==> r.error == ErrorSize && sortIndex[..] == old(sortIndex[..])
    ensures r.Pass? ==> ArgSort(nums, sortIndex[..])
  {
    var n := |nums|;
    if sortIndex.Length != n {
      return Fail(ErrorSize);
    }
    for i := 0 to n
      invariant forall k :: 0 <= k < i ==> sortIndex[k] == k
    {
      sortIndex[i] := i;
    }
    IdentityPermutation(sortIndex[..], n);
    for i := 0 to n
      invariant IsPermutation(sortIndex[..], n)
      invariant forall k, l :: 0 <= k < l < i ==> Key(nums, sortIndex[..], k) <= Key(nums, sortIndex[..], l)
    {
      InsertLast(sortIndex, nums, i);
    }
    assert forall k :: 0 <= k < n ==> Key(nums, sortIndex[..], k) == nums[sortIndex[k]];
    return Pass;
  }

  /** The value that position k of the index list s selects; zero outside. */
  function Key(nums: seq<real>, s: seq<int>, k: int): real {
    if 0 <= k < |s| && 0 <= s[k] < |nums| then nums[s[k]] else 0.0
  }

  /**
   * The state of one insertion pass: the new element sits at position j,
   * [0, j) and [j, i] are each in order, and everything left of j is at most
   * everything right of it.
   */
  predicate Inserting(nums: seq<real>, s: seq<int>, j: int, i: int) {
    && (forall k, l :: 0 <= k < l < j ==> Key(nums, s, k) <= Key(nums, s, l))
    && (forall k, l :: j <= k < l <= i ==> Key(nums, s, k) <= Key(nums, s, l))
    && (forall k, l :: 0 <= k < j < l <= i ==> Key(nums, s, k) <= Key(nums, s, l))
  }

  /** Swapping the new element with a larger left neighbour keeps the pass state. */
  lemma InsertSwap(nums: seq<real>, s: seq<int>, j: int, i: int)
    requires 0 < j <= i < |s| && Inserting(nums, s, j, i)
    requires Key(nums, s, j - 1) > Key(nums, s, j)
    ensures Inserting(nums, s[j - 1 := s[j]][j := s[j - 1]], j - 1, i)
  {
    var t := s[j - 1 := s[j]][j := s[j - 1]];
    assert forall k :: 0 <= k < |s| && k != j - 1 && k != j ==> Key(nums, t, k) == Key(nums, s, k);
    assert Key(nums, t, j - 1) == Key(nums, s, j) && Key(nums, t, j) == Key(nums, s, j - 1);
  }

  /** A pass that stops (at the front, or below a smaller neighbour) leaves [0, i] in order. */
  lemma InsertDone(nums: seq<real>, s: seq<int>, j: int, i: int)
    requires 0 <= j <= i < |s| && Inserting(nums, s, j, i)
    requires j == 0 || Key(nums, s, j - 1) <= Key(nums, s, j)
    ensures forall k, l :: 0 <= k < l <= i ==> Key(nums, s, k) <= Key(nums, s, l)
  {
  }

  /**
   * One insertion step of the sort: the sorted prefix [0, i) grows to
   * [0, i] by moving element i down with adjacent swaps.
   */
  method InsertLast(a: array<int>, nums: seq<real>, i: int)
    requires a.Length == |nums| && 0 <= i < |nums|
    requires IsPermutation(a[..], |nums|)
    requires forall k, l :: 0 <= k < l < i ==> Key(nums, a[..], k) <= Key(nums, a[..], l)
    modifies a
    ensures IsPermutation(a[..], |nums|)
    ensures forall k, l :: 0 <= k < l <= i ==> Key(nums, a[..], k) <= Key(nums, a[..], l)
  {
    var n := |nums|;
    var j := i;
    while j > 0 && nums[a[j - 1]] > nums[a[j]]
      invariant 0 <= j <= i
      invariant IsPermutation(a[..], n)
      invariant Inserting(nums, a[..], j, i)
    {
      ghost var s := a[..];
      SwapPermutation(s, n, j - 1, j);
      InsertSwap(nums, s, j, i);
      a[j - 1], a[j] := a[j], a[j - 1];
      assert a[..] == s[j - 1 := s[j]][j := s[j - 1]];
      j := j - 1;
    }
    InsertDone(nums, a[..], j, i);
  }

  // ---------------------------------------------------------------------
  // With distinct values the argsort is unique
  // ---------------------------------------------------------------------

  /** nums has no repeated value. */
  predicate Distinct(nums: seq<real>) {
    forall i, j :: 0 <= i < j < |nums| ==> nums[i] != nums[j]
  }

  /** Two argsorts of distinct values that agree before position k agree at k. */
  lemma ArgSortStep(nums: seq<real>, p: seq<int>, q: seq<int>, k: int)
    requires ArgSort(nums, p) && ArgSort(nums, q) && Distinct(nums)
    requires 0 <= k < |nums| && forall j :: 0 <= j < k ==> p[j] == q[j]
    ensures p[k] == q[k]
  {
    var n := |nums|;
    assert Occurs(q, p[k]);
    var l :| 0 <= l < n && q[l] == p[k];
    if l < k {
      assert false;
    }
    assert Occurs(p, q[k]);
    var m :| 0 <= m < n && p[m] == q[k];
    if m < k {
      assert false;
    }
    assert nums[q[k]] <= nums[q[l]] == nums[p[k]] <= nums[p[m]] == nums[q[k]];
  }

  lemma {:induction false} ArgSortPrefix(nums: seq<real>, p: seq<int>, q: seq<int>, k: int)
    requires ArgSort(nums, p) && ArgSort(nums, q) && Distinct(nums)
    requires 0 <= k <= |nums|
    ensures forall j :: 0 <= j < k ==> p[j] == q[j]
  {
    if k > 0 {
      ArgSortPrefix(nums, p, q, k - 1);
      ArgSortStep(nums, p, q, k - 1);
    }
  }

  /** Without ties the sort order is determined by the values alone. */
  lemma ArgSortUnique(nums: seq<real>, p: seq<int>, q: seq<int>)
    requires ArgSort(nums, p) && ArgSort(nums, q) && Distinct(nums)
    ensures p == q
  {
    ArgSortPrefix(nums, p, q, |nums|);
  }

  /** sortID of {5, 4, 1, 2, 3} is {2, 3, 4, 1, 0}. */
  lemma SortIDExample(p: seq<int>)
    requires ArgSort([5.0, 4.0, 1.0, 2.0, 3.0], p)
    ensures p == [2, 3, 4, 1, 0]
  {
    FiveInOrder(5.0, 4.0, 1.0, 2.0, 3.0);
    ArgSortUnique([5.0, 4.0, 1.0, 2.0, 3.0], p, [2, 3, 4, 1, 0]);
  }

  /** Five distinct values whose order is positions 2, 3, 4, 1, 0. */
  lemma FiveInOrder(a: real, b: real, c: real, d: real, e: real)
    requires c < d < e < b < a
    ensures ArgSort([a, b, c, d, e], [2, 3, 4, 1, 0]) && Distinct([a, b, c, d, e])
  {
    var nums, q := [a, b, c, d, e], [2, 3, 4, 1, 0];
    assert Occurs(q, 0) && Occurs(q, 1) && Occurs(q, 2) by {
      assert q[4] == 0 && q[3] == 1 && q[0] == 2;
    }
    assert Occurs(q, 3) && Occurs(q, 4) by {
      assert q[1] == 3 && q[2] == 4;
    }
    assert forall k :: 0 <= k < 5 ==> nums[q[k]] == [c, d, e, b, a][k];
  }

  // ---------------------------------------------------------------------
  // Median
  // ---------------------------------------------------------------------

  /**
   * The middle of the values in sort order p: the middle one for an odd
   * count, the mean of the two middle ones for an even count.
   */
  function Middle(nums: seq<real>, p: seq<int>): real
    requires 1 <= |nums| && IsPermutation(p, |nums|)
  {
    var n := |nums|;
    if n % 2 == 1 then nums[p[(n + 1) / 2 - 1]]
    else (nums[p[n / 2 - 1]] + nums[p[n / 2]]) / 2.0
  }

  /** m is the median of nums, for some order in which the sort may leave ties. */
  ghost predicate IsMedian(nums: seq<real>, m: real) {
    1 <= |nums| && exists p :: ArgSort(nums, p) && m == Middle(nums, p)
  }

  /** The indices whose value is at most m, and at least m. */
  function AtMost(nums: seq<real>, m: real): set<int> {
    set i | 0 <= i < |nums| && nums[i] <= m
  }

  function AtLeast(nums: seq<real>, m: real): set<int> {
    set i | 0 <= i < |nums| && m <= nums[i]
  }

  /** The positions lo .. hi-1 of a permutation name hi - lo distinct indices. */
  lemma {:induction false} ImageSize(p: seq<int>, n: int, lo: int, hi: int)
    requires IsPermutation(p, n) && 0 <= lo <= hi <= n
    ensures |set k | lo <= k < hi :: p[k]| == hi - lo
  {
    if lo < hi {
      ImageSize(p, n, lo, hi - 1);
      var last := hi - 1;
      assert (set k | lo <= k < hi :: p[k]) == (set k | lo <= k < last :: p[k]) + {p[last]};
      assert p[last] !in (set k | lo <= k < last :: p[k]);
    }
  }

  /** A subset is no larger than its superset. */
  lemma SubsetSize(a: set<int>, b: set<int>)
    requires a <= b
    ensures |a| <= |b|
  {
    assert b == a + (b - a) && a * (b - a) == {};
  }

  /**
   * A median splits the values in half: at least ceil(n/2) of them are at
   * most m and at least ceil(n/2) are at least m; it lies between two of
   * them.
   */
  lemma MedianSplits(nums: seq<real>, m: real)
    requires IsMedian(nums, m)
    ensures |AtMost(nums, m)| >= (|nums| + 1) / 2
    ensures |AtLeast(nums, m)| >= (|nums| + 1) / 2
    ensures exists i, j :: 0 <= i < |nums| && 0 <= j < |nums| && nums[i] <= m <= nums[j]
  {
    var n := |nums|;
    var p :| ArgSort(nums, p) && m == Middle(nums, p);
    var low, high := if n % 2 == 1 then (n + 1) / 2 - 1 else n / 2 - 1, if n % 2 == 1 then (n + 1) / 2 - 1 else n / 2;
    assert nums[p[low]] <= m <= nums[p[high]];
    ImageSize(p, n, 0, low + 1);
    ImageSize(p, n, high, n);
    SubsetSize(set k | 0 <= k < low + 1 :: p[k], AtMost(nums, m));
    SubsetSize(set k | high <= k < n :: p[k], AtLeast(nums, m));
  }

  /**
   * getMedian(nums): sorts the indices with sortID and takes the middle.
   * The C++ code needs n >= 1: for n == 0 it reads sort_index[-1].
   */
  method GetMedian(nums: seq<real>) returns (m: real)
    requires 1 <= |nums|
    ensures IsMedian(nums, m)
    ensures exists i, j :: 0 <= i < |nums| && 0 <= j < |nums| && nums[i] <= m <= nums[j]
  {
    var n := |nums|;
    var sortIndex := new int[n];
    var r := SortID(sortIndex, nums);
    if n % 2 == 1 {
      m := nums[sortIndex[(n + 1) / 2 - 1]];
    } else {
      m := (nums[sortIndex[n / 2 - 1]] + nums[sortIndex[n / 2]]) / 2.0;
    }
    assert m == Middle(nums, sortIndex[..]);
    MedianSplits(nums, m);
  }

  /** The median of {5, 4, 1, 2, 3} is 3. */
  lemma MedianExample(m: real)
    requires IsMedian([5.0, 4.0, 1.0, 2.0, 3.0], m)
    ensures m == 3.0
  {
    var p :| ArgSort([5.0, 4.0, 1.0, 2.0, 3.0], p) && m == Middle([5.0, 4.0, 1.0, 2.0, 3.0], p);
    SortIDExample(p);
  }

  // ---------------------------------------------------------------------
  // Outliers
  // ---------------------------------------------------------------------

  /** The consistency constant that turns a MAD into a standard deviation. */
  const MadScale: real := 1.4826022185056018

  /** |nums[i] - median| for every i. */
  function Deviations(nums: seq<real>, median: real): (d: seq<real>)
    ensures |d| == |nums|
    ensures forall i :: 0 <= i < |nums| ==> d[i] == Abs(nums[i] - median) && 0.0 <= d[i]
  {
    seq(|nums|, i requires 0 <= i < |nums| => Abs(nums[i] - median))
  }

  /**
   * The flags isOutlier writes, given the median of the values and the
   * median of their absolute deviations: 1 outside
   * [median - 3 * amad, median + 3 * amad], 0 inside.
   */
  predicate OutlierFlags(nums: seq<real>, judge: seq<int>, median: real, mad: real) {
    var amad := MadScale * mad;
    var lb, rb := median - 3.0 * amad, median + 3.0 * amad;
    |judge| == |nums|
    && forall i :: 0 <= i < |nums| ==> judge[i] == if nums[i] < lb || nums[i] > rb then 1 else 0
  }

  /**
   * isOutlier(judge, nums): judge must have the length of nums (error_size
   * otherwise, and nothing is written). The C++ code needs n >= 1 once the
   * lengths agree, as getMedian does.
   */
  method IsOutlier(judge: array<int>, nums: seq<real>) returns (r: Outcome)
    requires judge.Length == |nums| ==> 1 <= |nums|
    modifies judge
    ensures r.Fail? <==> judge.Length != |nums|
    ensures r.Fail? ==> r.error == ErrorSize && judge[..] == old(judge[..])
    ensures r.Pass? ==> exists median, mad :: IsMedian(nums, median)
                          && IsMedian(Deviations(nums, median), mad)
                          && OutlierFlags(nums, judge[..], median, mad)
  {
    var n := |nums|;
    if judge.Length != n {
      return Fail(ErrorSize);
    }
    var median := GetMedian(nums);
    var deviation := AbsDeviations(nums, median);
    var mad := GetMedian(deviation[..]);
    var amad := MadScale * mad;
    FlagOutside(judge, nums, median - 3.0 * amad, median + 3.0 * amad);
    assert OutlierFlags(nums, judge[..], median, mad);
    return Pass;
  }

  /** The buffer of absolute deviations isOutlier fills before taking their median. */
  method AbsDeviations(nums: seq<real>, median: real) returns (deviation: array<real>)
    ensures fresh(deviation) && deviation[..] == Deviations(nums, median)
  {
    deviation := new real[|nums|];
    for i := 0 to |nums|
      invariant forall k :: 0 <= k < i ==> deviation[k] == Abs(nums[k] - median)
    {
      deviation[i] := Abs(nums[i] - median);
    }
  }

  /** The flagging loop of isOutlier: 1 outside [lb, rb], 0 inside. */
  method FlagOutside(judge: array<int>, nums: seq<real>, lb: real, rb: real)
    requires judge.Length == |nums|
    modifies judge
    ensures forall k :: 0 <= k < |nums| ==> judge[k] == if nums[k] < lb || nums[k] > rb then 1 else 0
  {
    for i := 0 to |nums|
      invariant forall k :: 0 <= k < i ==> judge[k] == if nums[k] < lb || nums[k] > rb then 1 else 0
    {
      if nums[i] < lb || nums[i] > rb {
        judge[i] := 1;
      } else {
        judge[i] := 0;
      }
    }
  }

  /** A value equal to the median is never flagged, since the MAD is not negative. */
  lemma MedianNeverFlagged(nums: seq<real>, judge: seq<int>, median: real, mad: real, i: int)
    requires IsMedian(Deviations(nums, median), mad)
    requires OutlierFlags(nums, judge, median, mad)
    requires 0 <= i < |nums| && nums[i] == median
    ensures judge[i] == 0
  {
    MedianSplits(Deviations(nums, median), mad);
  }

  /** The median of {10, 4, 1, 2, 3} is 3. */
  lemma MedianOfOutlierExample(median: real)
    requires IsMedian([10.0, 4.0, 1.0, 2.0, 3.0], median)
    ensures median == 3.0
  {
    var nums := [10.0, 4.0, 1.0, 2.0, 3.0];
    var p :| ArgSort(nums, p) && median == Middle(nums, p);
    FiveInOrder(10.0, 4.0, 1.0, 2.0, 3.0);
    ArgSortUnique(nums, p, [2, 3, 4, 1, 0]);
  }

  /** isOutlier of {10, 4, 1, 2, 3} flags only the 10. */
  lemma OutlierExample(judge: seq<int>, median: real, mad: real)
    requires IsMedian([10.0, 4.0, 1.0, 2.0, 3.0], median)
    requires IsMedian(Deviations([10.0, 4.0, 1.0, 2.0, 3.0], median), mad)
    requires OutlierFlags([10.0, 4.0, 1.0, 2.0, 3.0], judge, median, mad)
    ensures judge == [1, 0, 0, 0, 0]
  {
    MedianOfOutlierExample(median);
    DeviationsOfExample();
    MadOfExample(mad);
    assert judge[0] == 1 && judge[1] == 0 && judge[2] == 0 && judge[3] == 0 && judge[4] == 0;
  }

  /** The absolute deviations of {10, 4, 1, 2, 3} from 3. */
  lemma DeviationsOfExample()
    ensures Deviations([10.0, 4.0, 1.0, 2.0, 3.0], 3.0) == [7.0, 1.0, 2.0, 1.0, 0.0]
  {
  }

  /** The deviations {7, 1, 2, 1, 0} have median 1, although two of them tie. */
  lemma MadOfExample(mad: real)
    requires IsMedian([7.0, 1.0, 2.0, 1.0, 0.0], mad)
    ensures mad == 1.0
  {
    var d := [7.0, 1.0, 2.0, 1.0, 0.0];
    MedianSplits(d, mad);
    var p :| ArgSort(d, p) && mad == Middle(d, p);
    assert mad == d[p[2]];
    if mad != 1.0 {
      if mad < 1.0 {
        SubsetSize(AtMost(d, mad), {4});
      } else {
        SubsetSize(AtLeast(d, mad), {0, 2});
      }
      assert false;
    }
  }
}
