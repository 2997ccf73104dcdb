/**
 * A trajectory: the 3D objects matched to one particle in successive
 * frames together with their frame numbers, and the adaptive
 * (normalised least-mean-squares) filter that extrapolates the
 * particle's next position, axis by axis (src/srcSTB/Track.hpp).
 *
 * The track is a class whose lists are `seq` fields the methods
 * reassign. The predictor is a method with the source's loops, proved
 * equal to the specification function `Prediction`; what the filter
 * computes is then proved about that function.
 */
module Tracking {
  import opened LibM
  import opened STBCommons
  import opened Matrices

  /** The part of a 3D tracer that a track reads and the predictor writes. */
  datatype Tracer3D = Tracer3D(pt_center: Pt3D, r2d_px: real)

  // ---------------------------------------------------------------------
  // Filter order and sample window
  // ---------------------------------------------------------------------

  /** The order chosen for a history of n >= 3 objects, as written: 3 objects give order 3. */
  function OrderAsWritten(n: int): int
    requires 3 <= n
  {
    if n < 4 then 3 else if n < 6 then n - 1 else 5
  }

  /**
   * With the order as written, the window of order + 1 samples ending at
   * the last object starts before the first object exactly when the
   * history holds three objects.
   */
  lemma {:induction false} AsWrittenWindowStartsBeforeHistory(n: int)
    requires 3 <= n
    ensures n - 1 - OrderAsWritten(n) < 0 <==> n == 3
  {
  }

  /** The three-object history reads object -1. */
  lemma {:induction false} ThreeObjectsReadIndexMinusOne()
    ensures 3 - 1 - OrderAsWritten(3) == -1
  {
  }

  /**
   * The order with the three-object case corrected to use every stored
   * object, as the four- and five-object cases do.
   */
  function Order(n: int): (order: int)
    requires 3 <= n
    ensures 2 <= order <= 5
    ensures order + 1 <= n
    ensures n < 6 ==> order + 1 == n
    ensures 6 <= n ==> order == 5
    ensures 4 <= n ==> order == OrderAsWritten(n)
  {
    if n < 4 then 2 else if n < 6 then n - 1 else 5
  }

  /** The coordinate `axis` of the last order + 1 objects, oldest first. */
  function Window(list: seq<Tracer3D>, order: nat, axis: int): (series: seq<real>)
    requires order < |list|
    ensures |series| == order + 1
    ensures forall j :: 0 <= j <= order ==> series[j] == list[|list| - 1 - order + j].pt_center.At(axis)
  {
    seq(order + 1, j requires 0 <= j <= order => list[|list| - 1 - order + j].pt_center.At(axis))
  }

  // ---------------------------------------------------------------------
  // One axis of the filter
  // ---------------------------------------------------------------------

  /** The offset added to a window whose last sample is near zero. */
  const SHIFT: real := 10.0

  predicate NeedsShift(series: seq<real>)
    requires 0 < |series|
  {
    Abs(series[|series| - 1]) < 1.0
  }

  /** The window moved away from zero when its last sample is near zero. */
  function Shifted(series: seq<real>): (s: seq<real>)
    requires 0 < |series|
    ensures |s| == |series|
    ensures 1.0 <= Abs(s[|s| - 1])
  {
    var d := if NeedsShift(series) then SHIFT else 0.0;
    seq(|series|, j requires 0 <= j < |series| => series[j] + d)
  }

  /** a[0] * b[0] + ... + a[k - 1] * b[k - 1] */
  function Inner(a: seq<real>, b: seq<real>, k: nat): real
    requires k <= |a| && k <= |b|
  {
    if k == 0 then 0.0 else Inner(a, b, k - 1) + a[k - 1] * b[k - 1]
  }

  function Zeros(n: nat): (z: seq<real>)
    ensures |z| == n
  {
    seq(n, _ => 0.0)
  }

  /** One adaptation of every tap: taps[j] + step * s[j] * error. */
  function UpdateTaps(taps: seq<real>, s: seq<real>, step: real, error: real): (t: seq<real>)
    requires |taps| <= |s|
    ensures |t| == |taps|
  {
    seq(|taps|, j requires 0 <= j < |taps| => taps[j] + step * s[j] * error)
  }

  /**
   * The taps the adaptation loop ends with, started from `taps` with
   * prediction error `error` after `iter` rounds: a round adapts every
   * tap and predicts the last sample from the ones before it again.
   */
  function Adapted(taps: seq<real>, s: seq<real>, step: real, error: real, iter: int): (t: seq<real>)
    requires |taps| < |s|
    ensures |t| == |taps|
    decreases WIENER_MAX_ITER - iter
  {
    if Abs(error) > SMALLNUMBER && iter < WIENER_MAX_ITER then
      var next := UpdateTaps(taps, s, step, error);
      Adapted(next, s, step, s[|taps|] - Inner(next, s, |taps|), iter + 1)
    else
      taps
  }

  /** The sum of squares of all samples but the last. */
  function Energy(s: seq<real>): real
    requires 1 <= |s|
  {
    Inner(s, s, |s| - 1)
  }

  /** The lag-one correlation: each sample but the last times its successor. */
  function Correlation(s: seq<real>): real
    requires 1 <= |s|
  {
    Inner(s, s[1..], |s| - 1)
  }

  /**
   * The taps adapted from zero with the given step, applied to the window
   * moved one sample forward.
   */
  function FilterPrediction(s: seq<real>, step: real): real
    requires 2 <= |s|
  {
    Inner(Adapted(Zeros(|s| - 1), s, step, s[|s| - 1], 0), s[1..], |s| - 1)
  }

  /**
   * The prediction from a window s of order + 1 samples: adapt order taps
   * from zero with step 1 / (sum of squares of the first order samples),
   * apply them to the window moved one sample forward, and subtract d.
   * A zero sum of squares is a division by zero.
   */
  function WindowPrediction(s: seq<real>, d: real): (r: Result<real>)
    requires 2 <= |s|
    ensures r.Err? ==> r.error == ErrorDiv0
  {
    if Energy(s) == 0.0 then Err(ErrorDiv0)
    else Ok(FilterPrediction(s, 1.0 / Energy(s)) - d)
  }

  /** One axis: the window is moved away from zero first and the shift undone after. */
  function AxisPrediction(series: seq<real>): (r: Result<real>)
    requires 2 <= |series|
    ensures r.Err? ==> r.error == ErrorDiv0
  {
    WindowPrediction(Shifted(series), if NeedsShift(series) then SHIFT else 0.0)
  }

  /** Taps adapted once from zero are the samples scaled by step * error. */
  lemma {:induction false} InnerOfFirstUpdate(s: seq<real>, b: seq<real>, n: nat, step: real, error: real, k: nat)
    requires n < |s| && k <= n && n <= |b|
    ensures Inner(UpdateTaps(Zeros(n), s, step, error), b, k) == step * error * Inner(s, b, k)
  {
    if k > 0 {
      InnerOfFirstUpdate(s, b, n, step, error, k - 1);
      var t := UpdateTaps(Zeros(n), s, step, error);
      assert t[k - 1] == step * s[k - 1] * error;
      assert t[k - 1] * b[k - 1] == step * error * (s[k - 1] * b[k - 1]);
    }
  }

  /** The normalised step is the reciprocal of the energy. */
  lemma {:induction false} Reciprocal(e: real, step: real)
    requires e != 0.0 && step == 1.0 / e
    ensures step * e == 1.0
  {
  }

  /** Scaling by a reciprocal and multiplying back cancels. */
  lemma {:induction false} Rescale(step: real, x: real, e: real)
    requires step * e == 1.0
    ensures step * x * e == x
  {
    assert step * x * e == x * (step * e);
  }

  /** Scaling by a reciprocal is division. */
  lemma {:induction false} ScaleIsDivision(e: real, step: real, x: real, c: real)
    requires e != 0.0 && step == 1.0 / e
    ensures step * x * c == x * c / e
  {
  }

  /**
   * Taps adapted once from zero with the step normalised against the
   * samples b predict x from b exactly.
   */
  lemma {:induction false} NormalisedRound(s: seq<real>, b: seq<real>, n: nat, step: real, x: real)
    requires n < |s| && n <= |b|
    requires step * Inner(s, b, n) == 1.0
    ensures Inner(UpdateTaps(Zeros(n), s, step, x), b, n) == x
  {
    InnerOfFirstUpdate(s, b, n, step, x, n);
    Rescale(step, x, Inner(s, b, n));
  }

  /**
   * The normalised step makes the first round exact: taps adapted once
   * from zero predict the last sample with no error.
   */
  lemma {:induction false} FirstRoundExact(s: seq<real>, order: nat, step: real)
    requires order < |s|
    requires step * Inner(s, s, order) == 1.0
    ensures Inner(UpdateTaps(Zeros(order), s, step, s[order]), s, order) == s[order]
  {
    NormalisedRound(s, s, order, step, s[order]);
  }

  /** So the adaptation loop stops after one round whatever its iteration bound. */
  lemma {:induction false} AdaptationSettles(s: seq<real>, step: real)
    requires 2 <= |s|
    requires step * Energy(s) == 1.0
    requires SMALLNUMBER < Abs(s[|s| - 1])
    ensures Adapted(Zeros(|s| - 1), s, step, s[|s| - 1], 0) == UpdateTaps(Zeros(|s| - 1), s, step, s[|s| - 1])
  {
    var order := |s| - 1;
    var next := UpdateTaps(Zeros(order), s, step, s[order]);
    FirstRoundExact(s, order, step);
    assert Abs(s[order] - Inner(next, s, order)) == 0.0;
  }

  /**
   * The taps the loop settles on, applied to the window moved one sample
   * forward, give the last sample times the lag-one correlation, scaled
   * by the step.
   */
  lemma {:induction false} SettledPrediction(s: seq<real>, step: real)
    requires 2 <= |s|
    requires step * Energy(s) == 1.0
    requires SMALLNUMBER < Abs(s[|s| - 1])
    ensures FilterPrediction(s, step) == step * s[|s| - 1] * Correlation(s)
  {
    AdaptationSettles(s, step);
    FirstUpdatePrediction(s, step, s[|s| - 1]);
  }

  /** Taps adapted once from zero predict step * error * correlation. */
  lemma {:induction false} FirstUpdatePrediction(s: seq<real>, step: real, error: real)
    requires 2 <= |s|
    ensures Inner(UpdateTaps(Zeros(|s| - 1), s, step, error), s[1..], |s| - 1) == step * error * Correlation(s)
  {
    InnerOfFirstUpdate(s, s[1..], |s| - 1, step, error, |s| - 1);
  }

  /**
   * The prediction in closed form: with the last sample away from zero
   * the loop settles after one round, and the prediction is the last
   * sample times the ratio of the lag-one correlation to the energy.
   */
  lemma {:induction false} WindowPredictionClosedForm(s: seq<real>, d: real)
    requires 2 <= |s|
    requires SMALLNUMBER < Abs(s[|s| - 1])
    ensures WindowPrediction(s, d).Err? <==> Energy(s) == 0.0
    ensures WindowPrediction(s, d).Ok? ==>
              WindowPrediction(s, d).value == s[|s| - 1] * Correlation(s) / Energy(s) - d
  {
    if Energy(s) != 0.0 {
      var step := 1.0 / Energy(s);
      Reciprocal(Energy(s), step);
      SettledPrediction(s, step);
      ScaleIsDivision(Energy(s), step, s[|s| - 1], Correlation(s));
    }
  }

  /** Over equal samples c, the first k products sum to k times c squared. */
  lemma {:induction false} InnerOfConstant(a: seq<real>, b: seq<real>, c: real, k: nat)
    requires k <= |a| && k <= |b|
    requires forall j :: 0 <= j < k ==> a[j] == c && b[j] == c
    ensures Inner(a, b, k) == k as real * Sq(c)
  {
    if k > 0 {
      InnerOfConstant(a, b, c, k - 1);
    }
  }

  /** A correlation equal to the non-zero energy scales the last sample by one. */
  lemma {:induction false} EqualRatio(w: Result<real>, x: real, cor: real, energy: real, d: real)
    requires w.Err? <==> energy == 0.0
    requires w.Ok? ==> w.value == x * cor / energy - d
    requires energy != 0.0 && cor == energy
    ensures w == Ok(x - d)
  {
    assert cor / energy == 1.0;
    assert x * cor / energy == x * (cor / energy);
    assert w.Ok?;
    assert w.value == x - d;
  }

  /** When the lag-one correlation equals the energy, the last sample is predicted again. */
  lemma {:induction false} UnitRatio(s: seq<real>, d: real)
    requires 2 <= |s|
    requires SMALLNUMBER < Abs(s[|s| - 1])
    requires Correlation(s) == Energy(s) != 0.0
    ensures WindowPrediction(s, d) == Ok(s[|s| - 1] - d)
  {
    WindowPredictionClosedForm(s, d);
    EqualRatio(WindowPrediction(s, d), s[|s| - 1], Correlation(s), Energy(s), d);
  }

  /** In a window of equal non-zero samples the correlation equals the non-zero energy. */
  lemma {:induction false} ConstantWindow(s: seq<real>, c: real)
    requires 2 <= |s| && c != 0.0
    requires forall j :: 0 <= j < |s| ==> s[j] == c
    ensures Correlation(s) == Energy(s) != 0.0
  {
    SqOfPositive(Abs(c));
    InnerOfConstant(s, s, c, |s| - 1);
    InnerOfConstant(s, s[1..], c, |s| - 1);
  }

  /** A window of equal samples is predicted to stay where it is. */
  lemma {:induction false} StationaryAxis(series: seq<real>, c: real)
    requires 2 <= |series|
    requires forall j :: 0 <= j < |series| ==> series[j] == c
    ensures AxisPrediction(series) == Ok(c)
  {
    var s := Shifted(series);
    var d := if NeedsShift(series) then SHIFT else 0.0;
    assert forall j :: 0 <= j < |s| ==> s[j] == c + d;
    ConstantWindow(s, c + d);
    UnitRatio(s, d);
  }

  // ---------------------------------------------------------------------
  // All three axes
  // ---------------------------------------------------------------------

  /**
   * What `predLMSWiener` makes of `obj3d` for a history `list`: fewer than
   * three objects is a size error; otherwise every axis is predicted from
   * the window of the chosen order and the radius is copied from the last
   * object.
   */
  function Prediction(list: seq<Tracer3D>, obj3d: Tracer3D): (r: Result<Tracer3D>)
    ensures r.Err? ==> r.error == (if |list| < 3 then ErrorSize else ErrorDiv0)
  {
    if |list| < 3 then
      Err(ErrorSize)
    else
      var order := Order(|list|);
      var px := AxisPrediction(Window(list, order, 0));
      var py := AxisPrediction(Window(list, order, 1));
      var pz := AxisPrediction(Window(list, order, 2));
      if px.Err? || py.Err? || pz.Err? then
        Err(ErrorDiv0)
      else
        Ok(obj3d.(pt_center := Pt3D(px.value, py.value, pz.value), r2d_px := list[|list| - 1].r2d_px))
  }

  /**
   * A particle that has not moved over the window is predicted to stay
   * put, with the radius of its last sighting.
   */
  lemma {:induction false} StationaryTrack(list: seq<Tracer3D>, obj3d: Tracer3D, p: Pt3D)
    requires 3 <= |list|
    requires forall k :: |list| - 1 - Order(|list|) <= k < |list| ==> list[k].pt_center == p
    ensures Prediction(list, obj3d) == Ok(obj3d.(pt_center := p, r2d_px := list[|list| - 1].r2d_px))
  {
    var order := Order(|list|);
    StationaryAxis(Window(list, order, 0), p.At(0));
    StationaryAxis(Window(list, order, 1), p.At(1));
    StationaryAxis(Window(list, order, 2), p.At(2));
  }

  /** Objects older than the window do not enter it. */
  lemma {:induction false} WindowOfSuffix(list: seq<Tracer3D>, older: seq<Tracer3D>, order: nat, axis: int)
    requires order < |list|
    ensures Window(older + list, order, axis) == Window(list, order, axis)
  {
    var all := older + list;
    forall j | 0 <= j <= order
      ensures Window(all, order, axis)[j] == Window(list, order, axis)[j]
    {
      assert all[|all| - 1 - order + j] == list[|list| - 1 - order + j];
    }
  }

  /** The prediction for a long history depends on its last six objects only. */
  lemma {:induction false} PredictionUsesWindow(list: seq<Tracer3D>, older: seq<Tracer3D>, obj3d: Tracer3D)
    requires 6 <= |list|
    ensures Prediction(older + list, obj3d) == Prediction(list, obj3d)
  {
    var all := older + list;
    assert Order(|all|) == Order(|list|) == 5;
    WindowOfSuffix(list, older, 5, 0);
    WindowOfSuffix(list, older, 5, 1);
    WindowOfSuffix(list, older, 5, 2);
    SameWindowsSamePrediction(all, list, obj3d);
  }

  /** Two histories with the same windows and the same last radius predict alike. */
  lemma {:induction false} SameWindowsSamePrediction(a: seq<Tracer3D>, b: seq<Tracer3D>, obj3d: Tracer3D)
    requires 3 <= |a| && 3 <= |b| && Order(|a|) == Order(|b|)
    requires Window(a, Order(|a|), 0) == Window(b, Order(|b|), 0)
    requires Window(a, Order(|a|), 1) == Window(b, Order(|b|), 1)
    requires Window(a, Order(|a|), 2) == Window(b, Order(|b|), 2)
    requires a[|a| - 1].r2d_px == b[|b| - 1].r2d_px
    ensures Prediction(a, obj3d) == Prediction(b, obj3d)
  {
  }

  // ---------------------------------------------------------------------
  // The loops of one axis
  // ---------------------------------------------------------------------

  /** One round of the adaptation loop: adapt each tap, then predict with it. */
  method AdaptRound(taps: seq<real>, s: seq<real>, step: real, error: real) returns (prediction: real, next: seq<real>)
    requires |taps| < |s|
    ensures next == UpdateTaps(taps, s, step, error)
    ensures prediction == Inner(next, s, |taps|)
  {
    ghost var adapted := UpdateTaps(taps, s, step, error);
    next := taps;
    prediction := 0.0;
    for j := 0 to |taps|
      invariant |next| == |taps|
      invariant forall k :: 0 <= k < j ==> next[k] == adapted[k]
      invariant forall k :: j <= k < |taps| ==> next[k] == taps[k]
      invariant prediction == Inner(adapted, s, j)
    {
      next := next[j := next[j] + step * s[j] * error];
      prediction := prediction + next[j] * s[j];
    }
    assert forall k :: 0 <= k < |taps| ==> next[k] == adapted[k];
  }

  /** Moves the window away from zero when needed. */
  method ShiftWindow(series: seq<real>) returns (s: seq<real>, shift_label: bool)
    requires 0 < |series|
    ensures s == Shifted(series)
    ensures shift_label == NeedsShift(series)
  {
    s := series;
    shift_label := false;
    if Abs(s[|s| - 1]) < 1.0 {
      shift_label := true;
      for j := 0 to |s|
        invariant |s| == |series|
        invariant forall k :: 0 <= k < j ==> s[k] == series[k] + SHIFT
        invariant forall k :: j <= k < |s| ==> s[k] == series[k]
      {
        s := s[j := s[j] + SHIFT];
      }
    }
  }

  /** a[0] * b[0] + ... + a[k - 1] * b[k - 1], accumulated in order. */
  method InnerSum(a: seq<real>, b: seq<real>, k: nat) returns (sum: real)
    requires k <= |a| && k <= |b|
    ensures sum == Inner(a, b, k)
  {
    sum := 0.0;
    for j := 0 to k
      invariant sum == Inner(a, b, j)
    {
      sum := sum + a[j] * b[j];
    }
  }

  /** The adaptation loop: at most WIENER_MAX_ITER rounds, until the error is small. */
  method Adapt(s: seq<real>, step: real) returns (filter_param: seq<real>)
    requires 2 <= |s|
    ensures filter_param == Adapted(Zeros(|s| - 1), s, step, s[|s| - 1], 0)
  {
    var order := |s| - 1;
    filter_param := Zeros(order);
    var prediction := 0.0;
    var error := s[order] - prediction;
    var iter := 0;
    while Abs(error) > SMALLNUMBER && iter < WIENER_MAX_ITER
      invariant 0 <= iter <= WIENER_MAX_ITER
      invariant |filter_param| == order
      invariant Adapted(filter_param, s, step, error, iter) == Adapted(Zeros(order), s, step, s[order], 0)
      decreases WIENER_MAX_ITER - iter
    {
      prediction, filter_param := AdaptRound(filter_param, s, step, error);
      error := s[order] - prediction;
      iter := iter + 1;
    }
  }

  /** The filter on a shifted window: normalise, adapt, predict, undo the shift `d`. */
  method PredictWindow(s: seq<real>, d: real) returns (r: Result<real>)
    requires 2 <= |s|
    ensures r == WindowPrediction(s, d)
  {
    var order := |s| - 1;
    var sum := InnerSum(s, s, order);
    if sum == 0.0 {
      return Err(ErrorDiv0);
    }
    var filter_param := Adapt(s, 1.0 / sum);
    var prediction := InnerSum(filter_param, s[1..], order);
    return Ok(prediction - d);
  }

  /** The filter for one axis, as the body of the axis loop computes it. */
  method PredictAxis(series: seq<real>) returns (r: Result<real>)
    requires 2 <= |series|
    ensures r == AxisPrediction(series)
  {
    var s, shift_label := ShiftWindow(series);
    r := PredictWindow(s, if shift_label then SHIFT else 0.0);
  }

  // ---------------------------------------------------------------------
  // The track
  // ---------------------------------------------------------------------

  class Track {
    var obj3d_list: seq<Tracer3D>
    var t_list: seq<int>
    var n_obj3d: int
    var active: bool

    /** The stored count is the length of both lists. */
    ghost predicate Valid()
      reads this
    {
      n_obj3d == |obj3d_list| == |t_list|
    }

    /** A track of one object seen at frame t. */
    constructor (obj3d: Tracer3D, t: int)
      ensures Valid()
      ensures obj3d_list == [obj3d] && t_list == [t] && n_obj3d == 1
      ensures active
    {
      obj3d_list := [obj3d];
      t_list := [t];
      n_obj3d := 1;
      active := true;
    }

    /** The copy constructor: every field of `track`. */
    constructor Copy(track: Track)
      ensures obj3d_list == track.obj3d_list && t_list == track.t_list
      ensures n_obj3d == track.n_obj3d && active == track.active
      ensures track.Valid() ==> Valid()
    {
      obj3d_list := track.obj3d_list;
      t_list := track.t_list;
      n_obj3d := track.n_obj3d;
      active := track.active;
    }

    /** operator=: every field of `track`, and `track` itself unchanged. */
    method Assign(track: Track)
      modifies this
      ensures obj3d_list == old(track.obj3d_list) && t_list == old(track.t_list)
      ensures n_obj3d == old(track.n_obj3d) && active == old(track.active)
      ensures old(track.Valid()) ==> Valid()
    {
      obj3d_list := track.obj3d_list;
      t_list := track.t_list;
      n_obj3d := track.n_obj3d;
      active := track.active;
    }

    /** Appends one object seen at frame t. */
    method AddNext(obj: Tracer3D, t: int)
      modifies this
      ensures obj3d_list == old(obj3d_list) + [obj] && t_list == old(t_list) + [t]
      ensures n_obj3d == old(n_obj3d) + 1 && active == old(active)
      ensures old(Valid()) ==> Valid()
    {
      obj3d_list := obj3d_list + [obj];
      t_list := t_list + [t];
      n_obj3d := n_obj3d + 1;
    }

    /** Appends another track's objects and frames, in order. */
    method AddNextTrack(track: Track)
      requires track != this
      modifies this
      ensures obj3d_list == old(obj3d_list) + track.obj3d_list
      ensures t_list == old(t_list) + track.t_list
      ensures n_obj3d == |obj3d_list| && active == old(active)
      ensures old(Valid()) && track.Valid() ==> Valid()
    {
      obj3d_list := obj3d_list + track.obj3d_list;
      t_list := t_list + track.t_list;
      n_obj3d := |obj3d_list|;
    }

    /**
     * predLMSWiener: the predicted `obj3d`, or `obj3d` unchanged with the
     * reason when fewer than three objects are stored or an axis window
     * has no energy. The track is not changed.
     */
    method PredLMSWiener(obj3d: Tracer3D) returns (pred: Tracer3D, r: Outcome)
      requires Valid()
      ensures r == Pass ==> Prediction(obj3d_list, obj3d) == Ok(pred)
      ensures r.Fail? ==> pred == obj3d && Prediction(obj3d_list, obj3d) == Err(r.error)
      ensures n_obj3d < 3 <==> r == Fail(ErrorSize)
    {
      if n_obj3d < 3 {
        return obj3d, Fail(ErrorSize);
      }
      var order := if n_obj3d < 4 then 2 else if n_obj3d < 6 then n_obj3d - 1 else 5;
      assert order == Order(|obj3d_list|);
      var center: seq<real> := [];
      for i := 0 to 3
        invariant |center| == i
        invariant forall a :: 0 <= a < i ==> AxisPrediction(Window(obj3d_list, order, a)) == Ok(center[a])
      {
        var series := FillWindow(order, i);
        var p := PredictAxis(series);
        if p.Err? {
          return obj3d, Fail(p.error);
        }
        center := center + [p.value];
      }
      pred := obj3d.(pt_center := Pt3D(center[0], center[1], center[2]), r2d_px := obj3d_list[n_obj3d - 1].r2d_px);
      r := Pass;
    }

    /** The window loop: coordinate `axis` of the last order + 1 objects. */
    method FillWindow(order: nat, axis: int) returns (series: seq<real>)
      requires Valid() && order < n_obj3d
      ensures series == Window(obj3d_list, order, axis)
    {
      series := [];
      for j := 0 to order + 1
        invariant |series| == j
        invariant forall k :: 0 <= k < j ==> series[k] == obj3d_list[n_obj3d - 1 - order + k].pt_center.At(axis)
      {
        series := series + [obj3d_list[n_obj3d - 1 - order + j].pt_center.At(axis)];
      }
    }

    /** predictNext: the tracer predictor. */
    method PredictNext(obj3d: Tracer3D) returns (pred: Tracer3D, r: Outcome)
      requires Valid()
      ensures r == Pass ==> Prediction(obj3d_list, obj3d) == Ok(pred)
      ensures r.Fail? ==> pred == obj3d && Prediction(obj3d_list, obj3d) == Err(r.error)
    {
      pred, r := PredLMSWiener(obj3d);
    }
  }
}
