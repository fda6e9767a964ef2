/**
 * The offline GIF animation of a curl from two sensor logs: every 15th row
 * of each log is kept, both streams are cut to the shorter one, and each
 * frame places the elbow and the forearm from rotations relative to the
 * first frame.
 *
 * The library rotation built from the rolled (scalar-last) quaternion is the
 * rotation matrix of the normalised quaternion, and the library refuses a
 * zero quaternion (the only one of norm zero); `RotationOf` models both.
 */
module Animate {
  import opened Wrappers
  import opened Quaternion
  import opened QuaternionLaws
  import opened ArmChain
  import CalibratedArm

  const Step := 15
  const UpperArmLength := 0.8
  const ForearmLength := 0.8

  /** `rows.iloc[::15]`: rows 0, 15, 30, … of the log. */
  function Decimate<T>(rows: seq<T>): (r: seq<T>)
    ensures |r| == (|rows| + Step - 1) / Step
    ensures forall i :: 0 <= i < |r| ==> Step * i < |rows| && r[i] == rows[Step * i]
    decreases |rows|
  {
    if |rows| == 0 then []
    else if |rows| <= Step then [rows[0]]
    else [rows[0]] + Decimate(rows[Step..])
  }

  /** The two streams cut to the length of the shorter one. */
  datatype Aligned = Aligned(forearm: seq<Quat>, upper: seq<Quat>)

  function Align(forearm: seq<Quat>, upper: seq<Quat>): (a: Aligned)
    ensures |a.forearm| == |a.upper| == if |forearm| <= |upper| then |forearm| else |upper|
    ensures a.forearm <= forearm && a.upper <= upper
  {
    var m := if |forearm| <= |upper| then |forearm| else |upper|;
    Aligned(forearm[..m], upper[..m])
  }

  /** The animation's frame count, `min_frames`. */
  function FrameCount(a: Aligned): nat {
    |a.forearm|
  }

  /** Both logs, decimated and aligned. */
  function Prepare(forearmLog: seq<Quat>, upperLog: seq<Quat>): Aligned {
    Align(Decimate(forearmLog), Decimate(upperLog))
  }

  /**
   * Every frame index the animation visits reads both streams, and frame `i`
   * is row `15·i` of each log.
   */
  lemma FramesInRange(forearmLog: seq<Quat>, upperLog: seq<Quat>, i: nat)
    requires i < FrameCount(Prepare(forearmLog, upperLog))
    ensures i < |Prepare(forearmLog, upperLog).forearm| && i < |Prepare(forearmLog, upperLog).upper|
    ensures Step * i < |forearmLog| && Prepare(forearmLog, upperLog).forearm[i] == forearmLog[Step * i]
    ensures Step * i < |upperLog| && Prepare(forearmLog, upperLog).upper[i] == upperLog[Step * i]
  {
  }

  /** The library rotation of a W-first quaternion; `None` for the zero quaternion it refuses. */
  function RotationOf(q: Quat): (r: Option<Mat3>)
    ensures r.None? <==> q == ZeroQuat
    ensures r.Some? ==> MatMul(r.value, Transpose(r.value)) == I3
  {
    if q == ZeroQuat then None
    else
      ToMatrixOrthogonalRows(q);
      Some(ToMatrix(q))
  }

  /** The elbow, the forearm's rotation, and the fist centre of one frame. */
  datatype Placement = Placement(elbow: Vec3, forearmRotation: Mat3, fist: Vec3)

  /** `(0, 0, -length)`: a segment pointing down Z in the model's rest pose. */
  function Down(length: real): Vec3 {
    Vec3(0.0, 0.0, -length)
  }

  /**
   * Frame `frame`: each sensor's rotation composed with the inverse of its
   * first-frame rotation; the elbow is the upper-arm rotation applied to
   * `(0, 0, -0.8)`, and the forearm's own rotation, never composed with the
   * upper arm, is applied to the local forearm and moved to the elbow.
   * `None` when a quaternion involved is zero.
   */
  function Update(a: Aligned, frame: nat): (p: Option<Placement>)
    requires frame < FrameCount(a) && |a.upper| == |a.forearm|
    ensures p.Some? <==> a.upper[0] != ZeroQuat && a.upper[frame] != ZeroQuat &&
                         a.forearm[0] != ZeroQuat && a.forearm[frame] != ZeroQuat
  {
    match (RotationOf(a.upper[0]), RotationOf(a.upper[frame]), RotationOf(a.forearm[0]), RotationOf(a.forearm[frame]))
    case (Some(u0), Some(u), Some(f0), Some(f)) =>
      var upperRot, forearmRot := MatMul(u, Transpose(u0)), MatMul(f, Transpose(f0));
      var elbow := MatVec(upperRot, Down(UpperArmLength));
      Some(Placement(elbow, forearmRot, Add(MatVec(forearmRot, Down(ForearmLength)), elbow)))
    case _ => None
  }

  /** A point of the local forearm mesh, placed for the frame. */
  function PlaceForearmPoint(p: Placement, local: Vec3): Vec3 {
    Add(MatVec(p.forearmRotation, local), p.elbow)
  }

  /**
   * The placement is the calibrated arm with segments pointing down Z: the
   * elbow is the shoulder-to-elbow vector, the fist the end of the forearm.
   */
  lemma UpdateIsCalibratedChain(a: Aligned, frame: nat)
    requires frame < FrameCount(a) && |a.upper| == |a.forearm|
    requires Update(a, frame).Some?
    ensures var p := Update(a, frame).value;
      p.elbow == MatVec(CalibratedArm.Delta(a.upper[0], a.upper[frame]), Down(UpperArmLength)) &&
      p.forearmRotation == CalibratedArm.Delta(a.forearm[0], a.forearm[frame]) &&
      Chain(Zero, p.elbow, MatVec(p.forearmRotation, Down(ForearmLength))) == ArmPose(Zero, p.elbow, p.fist)
  {
    var p := Update(a, frame).value;
    var d := MatVec(p.forearmRotation, Down(ForearmLength));
    assert Add(Zero, p.elbow) == p.elbow;
    assert Add(p.elbow, d) == Add(d, p.elbow);
  }

  /**
   * On the first frame both relative rotations are the identity: the elbow is
   * at `(0, 0, -0.8)` and the fist at `(0, 0, -1.6)`.
   */
  lemma FirstFrameAtRest(a: Aligned)
    requires 0 < FrameCount(a) && |a.upper| == |a.forearm|
    requires a.upper[0] != ZeroQuat && a.forearm[0] != ZeroQuat
    ensures Update(a, 0) == Some(Placement(Down(0.8), I3, Down(1.6)))
  {
    var p := Update(a, 0).value;
    FirstFrameJoints(a, p);
    assert p == Placement(Down(0.8), I3, Down(1.6));
  }

  /** The three parts of the first frame's placement. */
  lemma FirstFrameJoints(a: Aligned, p: Placement)
    requires 0 < FrameCount(a) && |a.upper| == |a.forearm|
    requires Update(a, 0) == Some(p)
    ensures p.elbow == Down(0.8) && p.forearmRotation == I3 && p.fist == Down(1.6)
  {
    UpdateIsCalibratedChain(a, 0);
    CalibratedArm.DeltaAtCalibration(a.upper[0]);
    CalibratedArm.DeltaAtCalibration(a.forearm[0]);
    MatVecIdentity(Down(UpperArmLength));
    MatVecIdentity(Down(ForearmLength));
    assert p.fist == Add(Down(0.8), Down(0.8));
  }

  /**
   * A placed forearm point, taken relative to the elbow, depends only on the
   * forearm stream: the forearm is never turned by the upper arm.
   */
  lemma ForearmIgnoresUpperArm(a: Aligned, b: Aligned, frame: nat, local: Vec3)
    requires frame < FrameCount(a) && |a.upper| == |a.forearm|
    requires frame < FrameCount(b) && |b.upper| == |b.forearm|
    requires a.forearm == b.forearm
    requires Update(a, frame).Some? && Update(b, frame).Some?
    ensures Sub(PlaceForearmPoint(Update(a, frame).value, local), Update(a, frame).value.elbow) ==
            Sub(PlaceForearmPoint(Update(b, frame).value, local), Update(b, frame).value.elbow)
  {
  }

  /** The elbow depends only on the upper-arm stream. */
  lemma ElbowIgnoresForearm(a: Aligned, b: Aligned, frame: nat)
    requires frame < FrameCount(a) && |a.upper| == |a.forearm|
    requires frame < FrameCount(b) && |b.upper| == |b.forearm|
    requires a.upper == b.upper
    requires Update(a, frame).Some? && Update(b, frame).Some?
    ensures Update(a, frame).value.elbow == Update(b, frame).value.elbow
  {
  }
}
