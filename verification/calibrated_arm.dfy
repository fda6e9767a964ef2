/**
 * The calibrated arm of the matrix-based visualisers: each segment hangs
 * straight down in the calibration pose, and on every frame it is turned by
 * `R_cur · R_initᵀ`, the rotation from the calibration orientation to the
 * current one. The shoulder is the origin.
 */
module CalibratedArm {
  import opened Quaternion
  import opened QuaternionLaws
  import opened ArmChain
  import opened RealIdentities

  /** `R(cur) · R(init)ᵀ`, the transpose standing in for the inverse. */
  function Delta(init: Quat, cur: Quat): Mat3 {
    MatMul(ToMatrix(cur), Transpose(ToMatrix(init)))
  }

  /** A segment of the given length hanging straight down. */
  function Hanging(length: real): Vec3 {
    Vec3(0.0, -length, 0.0)
  }

  lemma HangingLength(length: real)
    ensures IsSquare(LengthSq(Hanging(length)), length)
  {
    var v := Hanging(length);
    assert LengthSq(v) == 0.0 * 0.0 + (-length) * (-length) + 0.0 * 0.0;
    assert (-length) * (-length) == length * length;
  }

  /** The joints for the given calibration and current orientations. */
  function Pose(upperInit: Quat, upperCur: Quat, foreInit: Quat, foreCur: Quat,
                upperLength: real, forearmLength: real): (p: ArmPose)
    ensures p.shoulder == Zero
  {
    Chain(Zero,
      MatVec(Delta(upperInit, upperCur), Hanging(upperLength)),
      MatVec(Delta(foreInit, foreCur), Hanging(forearmLength)))
  }

  /** Before any movement the delta is exactly the identity, for every quaternion. */
  lemma DeltaAtCalibration(q: Quat)
    ensures Delta(q, q) == I3
  {
    ToMatrixOrthogonalRows(q);
  }

  /** Every delta preserves squared lengths. */
  lemma DeltaPreservesLength(init: Quat, cur: Quat, v: Vec3)
    ensures LengthSq(MatVec(Delta(init, cur), v)) == LengthSq(v)
  {
    var a, b := ToMatrix(cur), Transpose(ToMatrix(init));
    MatVecMatMul(a, b, v);
    ToMatrixOrthogonal(init);
    ToMatrixOrthogonal(cur);
    TransposeTranspose(ToMatrix(init));
    OrthogonalPreservesLength(b, v);
    OrthogonalPreservesLength(a, MatVec(b, v));
  }

  /**
   * When every current orientation equals its calibration orientation the
   * arm hangs straight down: elbow `(0, -upper, 0)`, hand `(0, -(upper + forearm), 0)`.
   */
  lemma PoseAtCalibration(upper: Quat, fore: Quat, upperLength: real, forearmLength: real)
    ensures Pose(upper, upper, fore, fore, upperLength, forearmLength) ==
      ArmPose(Zero, Vec3(0.0, -upperLength, 0.0), Vec3(0.0, -(upperLength + forearmLength), 0.0))
  {
    DeltaAtCalibration(upper);
    DeltaAtCalibration(fore);
    MatVecIdentity(Hanging(upperLength));
    MatVecIdentity(Hanging(forearmLength));
  }

  /** Each segment keeps its length: `|elbow - shoulder|² = upper²`, `|hand - elbow|² = forearm²`. */
  lemma PoseSegmentLengths(upperInit: Quat, upperCur: Quat, foreInit: Quat, foreCur: Quat,
                           upperLength: real, forearmLength: real)
    ensures var p := Pose(upperInit, upperCur, foreInit, foreCur, upperLength, forearmLength);
      IsSquare(LengthSq(Sub(p.elbow, p.shoulder)), upperLength) &&
      IsSquare(LengthSq(Sub(p.hand, p.elbow)), forearmLength)
  {
    DeltaPreservesLength(upperInit, upperCur, Hanging(upperLength));
    DeltaPreservesLength(foreInit, foreCur, Hanging(forearmLength));
    HangingLength(upperLength);
    HangingLength(forearmLength);
  }

  /**
   * The elbow depends only on the upper-arm orientations, and `hand - elbow`
   * only on the forearm orientations.
   */
  lemma PoseDependencies(
    upperInit: Quat, upperCur: Quat, foreInit: Quat, foreCur: Quat,
    upperInit': Quat, upperCur': Quat, foreInit': Quat, foreCur': Quat,
    upperLength: real, forearmLength: real)
    ensures var p := Pose(upperInit, upperCur, foreInit, foreCur, upperLength, forearmLength);
      var p' := Pose(upperInit', upperCur', foreInit', foreCur', upperLength, forearmLength);
      (upperInit == upperInit' && upperCur == upperCur' ==> p.elbow == p'.elbow) &&
      (foreInit == foreInit' && foreCur == foreCur' ==> Sub(p.hand, p.elbow) == Sub(p'.hand, p'.elbow))
  {
  }
}
