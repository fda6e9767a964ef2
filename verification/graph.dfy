/**
 * The quaternion-trajectory report of one sensor log: locating the data
 * header in the raw file, the per-axis range of motion, and the verdict on
 * whether the arm came back to where it started. The plot itself and the
 * NaN clean-up are not modelled.
 */
module Graph {
  import opened Wrappers
  import opened Text
  import opened Quaternion
  import opened RealIdentities

  /** The column name that marks the data header line. */
  const Marker := "SampleTimeFine"

  const MissingHeader := "Could not find data header in CSV file"

  /**
   * The index of the first line containing the marker, or the error raised
   * when no line contains it.
   */
  method FindHeader(lines: seq<string>) returns (r: Result<nat, string>)
    ensures r.Ok? ==> r.value < |lines| && Contains(lines[r.value], Marker)
    ensures r.Ok? ==> forall j :: 0 <= j < r.value ==> !Contains(lines[j], Marker)
    ensures r.Err? <==> forall j :: 0 <= j < |lines| ==> !Contains(lines[j], Marker)
    ensures r.Err? ==> r.error == MissingHeader
  {
    var i := 0;
    while i < |lines|
      invariant 0 <= i <= |lines|
      invariant forall j :: 0 <= j < i ==> !Contains(lines[j], Marker)
    {
      if Contains(lines[i], Marker) {
        return Ok(i);
      }
      i := i + 1;
    }
    return Err(MissingHeader);
  }

  function Max(xs: seq<real>): (m: real)
    requires |xs| > 0
    ensures m in xs && forall k :: 0 <= k < |xs| ==> xs[k] <= m
  {
    if |xs| == 1 then xs[0]
    else
      var rest := Max(xs[1..]);
      assert forall k :: 1 <= k < |xs| ==> xs[k] == xs[1..][k - 1];
      if xs[0] >= rest then xs[0] else rest
  }

  function Min(xs: seq<real>): (m: real)
    requires |xs| > 0
    ensures m in xs && forall k :: 0 <= k < |xs| ==> m <= xs[k]
  {
    if |xs| == 1 then xs[0]
    else
      var rest := Min(xs[1..]);
      assert forall k :: 1 <= k < |xs| ==> xs[k] == xs[1..][k - 1];
      if xs[0] <= rest then xs[0] else rest
  }

  /**
   * The printed range of motion of one axis, `max - min`: non-negative, the
   * largest difference between two samples, and attained by two samples.
   * An empty column has no range.
   */
  function Range(xs: seq<real>): (r: Option<real>)
    ensures r.None? <==> |xs| == 0
    ensures r.Some? ==> r.value >= 0.0
    ensures r.Some? ==> forall i, j :: 0 <= i < |xs| && 0 <= j < |xs| ==> xs[i] - xs[j] <= r.value
    ensures r.Some? ==> exists i, j :: 0 <= i < |xs| && 0 <= j < |xs| && r.value == xs[i] - xs[j]
  {
    if |xs| == 0 then None else Some(Max(xs) - Min(xs))
  }

  /** The squared distance threshold: a start-to-end distance below `0.2`. */
  const GoodFormDistSq := 0.04

  /** The verdict on a trajectory's first and last points. */
  predicate GoodForm(start: Vec3, end: Vec3) {
    LengthSq(Sub(end, start)) < GoodFormDistSq
  }

  /**
   * Comparing squared distances is comparing distances: for `d >= 0` with
   * `d² = s`, `s < 0.04` exactly when `d < 0.2`.
   */
  lemma SquaredThreshold(d: real, s: real)
    requires d >= 0.0 && IsSquare(s, d)
    ensures s < 0.04 <==> d < 0.2
  {
    if d < 0.2 {
      assert d * d <= 0.2 * d;
    } else {
      assert d * d >= 0.2 * d;
    }
  }

  /** A distance `d` of the trajectory's end from its start, as the report prints it. */
  predicate IsDistance(d: real, start: Vec3, end: Vec3) {
    d >= 0.0 && IsSquare(LengthSq(Sub(end, start)), d)
  }

  /** The verdict holds exactly when the start-to-end distance is below `0.2`. */
  lemma GoodFormIffClose(start: Vec3, end: Vec3, d: real)
    requires IsDistance(d, start, end)
    ensures GoodForm(start, end) <==> d < 0.2
  {
    SquaredThreshold(d, LengthSq(Sub(end, start)));
  }

  /** The sample at position `i` of the three quaternion-vector columns. */
  function PointAt(xs: seq<real>, ys: seq<real>, zs: seq<real>, i: nat): (p: Vec3)
    requires i < |xs| == |ys| == |zs|
    ensures p.x == xs[i] && p.y == ys[i] && p.z == zs[i]
  {
    Vec3(xs[i], ys[i], zs[i])
  }

  /**
   * The report's verdict on the columns: the first sample is the start and
   * the last one the end. An empty log has no first sample, so no verdict.
   */
  function Verdict(xs: seq<real>, ys: seq<real>, zs: seq<real>): (r: Option<bool>)
    requires |xs| == |ys| == |zs|
    ensures r.None? <==> |xs| == 0
    ensures r.Some? ==> (r.value <==> GoodForm(PointAt(xs, ys, zs, 0), PointAt(xs, ys, zs, |xs| - 1)))
  {
    if |xs| == 0 then None
    else Some(GoodForm(PointAt(xs, ys, zs, 0), PointAt(xs, ys, zs, |xs| - 1)))
  }

  /**
   * The verdict is good form exactly when the first and last samples are
   * less than `0.2` apart; a log of one sample always is.
   */
  lemma VerdictIffClose(xs: seq<real>, ys: seq<real>, zs: seq<real>, d: real)
    requires 0 < |xs| == |ys| == |zs|
    requires IsDistance(d, PointAt(xs, ys, zs, 0), PointAt(xs, ys, zs, |xs| - 1))
    ensures Verdict(xs, ys, zs) == Some(d < 0.2)
    ensures |xs| == 1 ==> Verdict(xs, ys, zs) == Some(true)
  {
    GoodFormIffClose(PointAt(xs, ys, zs, 0), PointAt(xs, ys, zs, |xs| - 1), d);
  }
}
