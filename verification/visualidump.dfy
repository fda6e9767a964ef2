/**
 * The offline matrix animation of a recorded curl: two quaternion columns
 * of one table (forearm and upper arm, W-first), calibrated on frame 0.
 */
module VisualiDump {
  import opened Quaternion
  import opened ArmChain
  import opened RealIdentities
  import CalibratedArm

  const UpperArmLength := 0.3
  const ForearmLength := 0.25

  /** The two quaternion columns of the recording; columns of one table have one length. */
  datatype Recording = Recording(forearm: seq<Quat>, upper: seq<Quat>)

  predicate Valid(r: Recording) {
    |r.forearm| == |r.upper|
  }

  /** The animation's frame count, the number of table rows. */
  function FrameCount(r: Recording): nat {
    |r.forearm|
  }

  /** The joints drawn for `frame`, calibrated against frame 0. */
  function Update(r: Recording, frame: nat): (p: ArmPose)
    requires Valid(r) && frame < FrameCount(r)
    ensures p.shoulder == Zero
  {
    CalibratedArm.Pose(r.upper[0], r.upper[frame], r.forearm[0], r.forearm[frame], UpperArmLength, ForearmLength)
  }

  /** Frame 0 always shows the arm hanging straight down, whatever its quaternions. */
  lemma FirstFrameHangs(r: Recording)
    requires Valid(r) && FrameCount(r) > 0
    ensures Update(r, 0) == ArmPose(Zero, Vec3(0.0, -0.3, 0.0), Vec3(0.0, -0.55, 0.0))
  {
    CalibratedArm.PoseAtCalibration(r.upper[0], r.forearm[0], UpperArmLength, ForearmLength);
  }

  /** On every frame `|elbow - shoulder|² = 0.3²` and `|wrist - elbow|² = 0.25²`. */
  lemma SegmentLengths(r: Recording, frame: nat)
    requires Valid(r) && frame < FrameCount(r)
    ensures LengthSq(Sub(Update(r, frame).elbow, Update(r, frame).shoulder)) == 0.09
    ensures LengthSq(Sub(Update(r, frame).hand, Update(r, frame).elbow)) == 0.0625
  {
    CalibratedArm.PoseSegmentLengths(r.upper[0], r.upper[frame], r.forearm[0], r.forearm[frame],
      UpperArmLength, ForearmLength);
    assert IsSquare(0.09, 0.3) && IsSquare(0.0625, 0.25);
  }

  /**
   * `wrist - elbow` is the same for two recordings that share the forearm
   * column, whatever their upper-arm columns.
   */
  lemma WristOffsetIgnoresUpperArm(r: Recording, s: Recording, frame: nat)
    requires Valid(r) && Valid(s) && frame < FrameCount(r)
    requires r.forearm == s.forearm
    ensures Sub(Update(r, frame).hand, Update(r, frame).elbow) == Sub(Update(s, frame).hand, Update(s, frame).elbow)
  {
  }
}
