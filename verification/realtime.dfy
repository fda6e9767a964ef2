/**
 * The live single-arm visualiser: a buffer of the latest forearm and
 * upper-arm quaternions, an optional calibration, and the per-frame pose.
 * The lock around the buffer and the drawing are not modelled; every state
 * change is a function from the old visualiser to the new one.
 */
module RealtimeVisualizer {
  import opened Wrappers
  import opened Quaternion
  import opened QuaternionLaws
  import opened ArmChain
  import opened RealIdentities
  import CalibratedArm

  datatype Visualizer = Visualizer(
    upperArmLength: real,
    forearmLength: real,
    currentForearm: Quat,
    currentUpper: Quat,
    initialForearm: Option<Quat>,
    initialUpper: Option<Quat>,
    isCalibrated: bool)

  /** The flag is set exactly when both reference quaternions are stored. */
  predicate Valid(v: Visualizer) {
    v.isCalibrated <==> v.initialForearm.Some? && v.initialUpper.Some?
  }

  /** A new visualiser: identity current quaternions, no calibration. */
  function Init(upperArmLength: real, forearmLength: real): (v: Visualizer)
    ensures Valid(v) && !v.isCalibrated
    ensures v.currentForearm == Identity && v.currentUpper == Identity
    ensures v.upperArmLength == upperArmLength && v.forearmLength == forearmLength
  {
    Visualizer(upperArmLength, forearmLength, Identity, Identity, None, None, false)
  }

  /** The source's default segment lengths. */
  function Default(): (v: Visualizer)
    ensures Valid(v) && !v.isCalibrated && v.upperArmLength == 0.3 && v.forearmLength == 0.25
  {
    Init(0.3, 0.25)
  }

  /**
   * Stores both references and marks the visualiser calibrated; a second
   * call overwrites the first. The current quaternions are untouched.
   */
  function Calibrate(v: Visualizer, forearm: Quat, upper: Quat): (r: Visualizer)
    ensures Valid(r) && r.isCalibrated
    ensures r.initialForearm == Some(forearm) && r.initialUpper == Some(upper)
    ensures r.currentForearm == v.currentForearm && r.currentUpper == v.currentUpper
    ensures r.upperArmLength == v.upperArmLength && r.forearmLength == v.forearmLength
  {
    v.(initialForearm := Some(forearm), initialUpper := Some(upper), isCalibrated := true)
  }

  /** Replaces the current quaternions only; the calibration is untouched. */
  function UpdateQuaternions(v: Visualizer, forearm: Quat, upper: Quat): (r: Visualizer)
    ensures Valid(v) ==> Valid(r)
    ensures r.currentForearm == forearm && r.currentUpper == upper
    ensures r.isCalibrated == v.isCalibrated
    ensures r.initialForearm == v.initialForearm && r.initialUpper == v.initialUpper
    ensures r.upperArmLength == v.upperArmLength && r.forearmLength == v.forearmLength
  {
    v.(currentForearm := forearm, currentUpper := upper)
  }

  /**
   * The pose drawn for one animation tick: nothing before calibration;
   * afterwards a shoulder at the origin and an arm hanging straight down
   * while nothing has moved.
   */
  function UpdateFrame(v: Visualizer): (r: Option<ArmPose>)
    requires Valid(v)
    ensures r.None? <==> !v.isCalibrated
    ensures r.Some? ==> r.value.shoulder == Zero
    ensures r.Some? && v.initialUpper == Some(v.currentUpper) && v.initialForearm == Some(v.currentForearm) ==>
      r.value.elbow == Vec3(0.0, -v.upperArmLength, 0.0) &&
      r.value.hand == Vec3(0.0, -(v.upperArmLength + v.forearmLength), 0.0)
  {
    if !v.isCalibrated then None
    else
      var iu, iff := v.initialUpper.value, v.initialForearm.value;
      CalibratedArm.PoseAtCalibration(iu, iff, v.upperArmLength, v.forearmLength);
      Some(CalibratedArm.Pose(iu, v.currentUpper, iff, v.currentForearm, v.upperArmLength, v.forearmLength))
  }

  /** Every drawn segment has its configured length: `|elbow - shoulder|² = upper²`, `|hand - elbow|² = forearm²`. */
  lemma FrameSegmentLengths(v: Visualizer)
    requires Valid(v) && v.isCalibrated
    ensures IsSquare(LengthSq(Sub(UpdateFrame(v).value.elbow, UpdateFrame(v).value.shoulder)), v.upperArmLength)
    ensures IsSquare(LengthSq(Sub(UpdateFrame(v).value.hand, UpdateFrame(v).value.elbow)), v.forearmLength)
  {
    CalibratedArm.PoseSegmentLengths(v.initialUpper.value, v.currentUpper, v.initialForearm.value, v.currentForearm,
      v.upperArmLength, v.forearmLength);
  }

  /** The elbow of a calibrated visualiser does not depend on the forearm quaternions. */
  lemma ElbowIgnoresForearm(v: Visualizer, forearm: Quat, forearm': Quat)
    requires Valid(v) && v.isCalibrated
    ensures UpdateFrame(UpdateQuaternions(v, forearm, v.currentUpper)).value.elbow ==
            UpdateFrame(UpdateQuaternions(v, forearm', v.currentUpper)).value.elbow
  {
  }

  /** While the upper arm sits at its calibration orientation the elbow is `(0, -upper, 0)`. */
  lemma ElbowAtUpperCalibration(v: Visualizer)
    requires Valid(v) && v.isCalibrated && v.initialUpper == Some(v.currentUpper)
    ensures UpdateFrame(v).value.elbow == Vec3(0.0, -v.upperArmLength, 0.0)
  {
    CalibratedArm.DeltaAtCalibration(v.currentUpper);
    MatVecIdentity(CalibratedArm.Hanging(v.upperArmLength));
  }

  /**
   * One tick of the built-in simulation: the simulated thread stores the
   * next forearm sample with the upper arm held at its calibration
   * orientation, then the animation draws. The drawn elbow stays where
   * calibration put it.
   */
  method SimulationTick(v: Visualizer, forearm: Quat, upper: Quat) returns (r: Visualizer, elbow: Vec3)
    requires Valid(v) && v.isCalibrated && v.initialUpper == Some(upper)
    ensures Valid(r) && r.isCalibrated && r.initialUpper == Some(upper)
    ensures r.currentUpper == upper && r.currentForearm == forearm
    ensures r.upperArmLength == v.upperArmLength && r.forearmLength == v.forearmLength
    ensures elbow == Vec3(0.0, -v.upperArmLength, 0.0)
  {
    r := UpdateQuaternions(v, forearm, upper);
    ElbowAtUpperCalibration(r);
    elbow := UpdateFrame(r).value.elbow;
  }

  /**
   * The built-in simulation: calibrate on the identity, then tick once per
   * forearm sample (a sine sweep in the source, an input here). The elbow
   * is drawn at `(0, -0.3, 0)` on every frame.
   */
  method Simulate(forearmSamples: seq<Quat>) returns (elbows: seq<Vec3>, v: Visualizer)
    ensures Valid(v) && v.isCalibrated
    ensures |elbows| == |forearmSamples|
    ensures forall i :: 0 <= i < |elbows| ==> elbows[i] == Vec3(0.0, -0.3, 0.0)
  {
    v := Default();
    v := Calibrate(v, Identity, Identity);
    elbows := [];
    var i := 0;
    while i < |forearmSamples|
      invariant 0 <= i <= |forearmSamples|
      invariant Valid(v) && v.isCalibrated && v.initialUpper == Some(Identity)
      invariant v.upperArmLength == 0.3
      invariant |elbows| == i
      invariant forall j :: 0 <= j < i ==> elbows[j] == Vec3(0.0, -0.3, 0.0)
    {
      var elbow;
      v, elbow := SimulationTick(v, forearmSamples[i], Identity);
      elbows := elbows + [elbow];
      i := i + 1;
    }
  }
}
