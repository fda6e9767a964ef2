/**
 * The bicep-curl animation: two copies of the cross-product rotation that
 * differ only in where the scalar component sits, the roll that converts
 * the loaded W-first rows for the X-first copy, the right-arm correction and
 * the per-frame joint computation.
 */
module BicepCurl {
  import opened Quaternion
  import opened QuaternionLaws
  import opened ArmChain

  /** A quaternion row as a plain numeric vector, in whatever order it is stored. */
  type Raw = seq<real>

  /** The squared norm of a row, as `np.linalg.norm` squared. */
  function RawNormSq(q: Raw): real
    requires |q| == 4
  {
    q[0] * q[0] + q[1] * q[1] + q[2] * q[2] + q[3] * q[3]
  }

  /** Reads a row as `[w, x, y, z]`. */
  function FromWXYZ(q: Raw): (r: Quat)
    requires |q| == 4
    ensures NormSq(r) == RawNormSq(q)
  {
    Quat(q[0], q[1], q[2], q[3])
  }

  /** Reads a row as `[x, y, z, w]`. */
  function FromXYZW(q: Raw): (r: Quat)
    requires |q| == 4
    ensures NormSq(r) == RawNormSq(q)
  {
    Quat(q[3], q[0], q[1], q[2])
  }

  /** The rotation of a W-first row; a row of norm below `1e-9` returns `v`. */
  function RotateWXYZ(v: Vec3, q: Raw): (r: Vec3)
    requires |q| == 4
    ensures RawNormSq(q) < DegenerateNormSq ==> r == v
  {
    Rotate(v, FromWXYZ(q))
  }

  /** The rotation of an X-first row; a row of norm below `1e-9` returns `v`. */
  function RotateXYZW(v: Vec3, q: Raw): (r: Vec3)
    requires |q| == 4
    ensures RawNormSq(q) < DegenerateNormSq ==> r == v
  {
    Rotate(v, FromXYZW(q))
  }

  /** `np.roll(q, -1)`: every entry moves one place left, the first wraps to the end. */
  function Roll(q: Raw): (r: Raw)
    requires |q| >= 1
    ensures |r| == |q| && r[|r| - 1] == q[0]
    ensures forall i :: 0 <= i < |q| - 1 ==> r[i] == q[i + 1]
  {
    q[1..] + [q[0]]
  }

  /**
   * Rolling a W-first row and rotating it as X-first is the W-first rotation,
   * for every row including the degenerate ones.
   */
  lemma RollAgreement(v: Vec3, q: Raw)
    requires |q| == 4
    ensures RotateXYZW(v, Roll(q)) == RotateWXYZ(v, q)
  {
    assert FromXYZW(Roll(q)) == FromWXYZ(q);
  }

  /** The right-arm correction of an X-first row: negate the vector part. */
  function CorrectXYZW(q: Raw): (r: Raw)
    requires |q| == 4
    ensures |r| == 4 && r[3] == q[3]
    ensures forall i :: 0 <= i < 3 ==> r[i] == -q[i]
  {
    [-q[0], -q[1], -q[2], q[3]]
  }

  lemma CorrectIsConjugate(q: Raw)
    requires |q| == 4
    ensures FromXYZW(CorrectXYZW(q)) == Conjugate(FromXYZW(q))
  {
  }

  /**
   * The corrected row undoes the rotation of the row it came from, for every
   * row: rotating by `q` and then by its correction restores `v`.
   */
  lemma CorrectionInverse(v: Vec3, q: Raw)
    requires |q| == 4
    ensures RotateXYZW(RotateXYZW(v, q), CorrectXYZW(q)) == v
  {
    var p := FromXYZW(q);
    CorrectIsConjugate(q);
    NormSqConjugate(p);
    if !IsDegenerate(p) {
      RotateConjugateInverse(p, v);
    }
  }

  /** The identity row `[1, 0, 0, 0]` leaves every vector unchanged. */
  lemma RotateWXYZIdentity(v: Vec3)
    ensures RotateWXYZ(v, [1.0, 0.0, 0.0, 0.0]) == v
  {
    assert FromWXYZ([1.0, 0.0, 0.0, 0.0]) == Identity;
    RotateIdentity(v);
  }

  function ScaleRaw(k: real, q: Raw): (r: Raw)
    ensures |r| == |q| && forall i :: 0 <= i < |q| ==> r[i] == k * q[i]
  {
    seq(|q|, i requires 0 <= i < |q| => k * q[i])
  }

  /**
   * Scaling a row by `k != 0` does not change the rotation while both rows
   * stay above the threshold.
   */
  lemma RotateWXYZScaleInvariant(k: real, v: Vec3, q: Raw)
    requires |q| == 4
    requires RawNormSq(q) >= DegenerateNormSq && RawNormSq(ScaleRaw(k, q)) >= DegenerateNormSq
    ensures RotateWXYZ(v, ScaleRaw(k, q)) == RotateWXYZ(v, q)
  {
    assert FromWXYZ(ScaleRaw(k, q)) == ScaleQuat(k, FromWXYZ(q));
    RotateScaleInvariant(k, FromWXYZ(q), v);
  }

  /** Every row preserves the squared length of the vector it rotates. */
  lemma RotateWXYZPreservesLength(v: Vec3, q: Raw)
    requires |q| == 4
    ensures LengthSq(RotateWXYZ(v, q)) == LengthSq(v)
  {
    RotatePreservesLength(FromWXYZ(q), v);
  }

  lemma RotateXYZWPreservesLength(v: Vec3, q: Raw)
    requires |q| == 4
    ensures LengthSq(RotateXYZW(v, q)) == LengthSq(v)
  {
    RotatePreservesLength(FromXYZW(q), v);
  }

  // ----- the skeleton -----

  const ShoulderWidth := 0.5
  const UpperArmLength := 0.4
  const ForearmLength := 0.35

  const LeftShoulder := Vec3(-ShoulderWidth / 2.0, 0.0, 0.0)
  const RightShoulder := Vec3(ShoulderWidth / 2.0, 0.0, 0.0)

  /** The T-pose segment vectors: the left arm points along -X, the right along +X. */
  const LeftUpperRest := Vec3(-UpperArmLength, 0.0, 0.0)
  const LeftForearmRest := Vec3(-ForearmLength, 0.0, 0.0)
  const RightUpperRest := Vec3(UpperArmLength, 0.0, 0.0)
  const RightForearmRest := Vec3(ForearmLength, 0.0, 0.0)

  datatype Body = Body(left: ArmPose, right: ArmPose)

  /** The four X-first rows of one animation frame. */
  datatype Frame = Frame(leftForearm: Raw, leftUpper: Raw, rightForearm: Raw, rightUpper: Raw)

  predicate WellFormed(f: Frame) {
    |f.leftForearm| == 4 && |f.leftUpper| == 4 && |f.rightForearm| == 4 && |f.rightUpper| == 4
  }

  /**
   * The joints of one frame: the left arm turns its T-pose vectors by its own
   * rows, the right arm by the corrected rows.
   */
  function FramePose(f: Frame): (b: Body)
    requires WellFormed(f)
    ensures b.left.shoulder == Vec3(-0.25, 0.0, 0.0) && b.right.shoulder == Vec3(0.25, 0.0, 0.0)
  {
    Body(
      Chain(LeftShoulder,
        RotateXYZW(LeftUpperRest, f.leftUpper),
        RotateXYZW(LeftForearmRest, f.leftForearm)),
      Chain(RightShoulder,
        RotateXYZW(RightUpperRest, CorrectXYZW(f.rightUpper)),
        RotateXYZW(RightForearmRest, CorrectXYZW(f.rightForearm))))
  }

  /** Every segment keeps its length on every frame: `0.4² = 0.16` and `0.35² = 0.1225`. */
  lemma FramePoseSegmentLengths(f: Frame)
    requires WellFormed(f)
    ensures LengthSq(Sub(FramePose(f).left.elbow, FramePose(f).left.shoulder)) == 0.16
    ensures LengthSq(Sub(FramePose(f).left.hand, FramePose(f).left.elbow)) == 0.1225
    ensures LengthSq(Sub(FramePose(f).right.elbow, FramePose(f).right.shoulder)) == 0.16
    ensures LengthSq(Sub(FramePose(f).right.hand, FramePose(f).right.elbow)) == 0.1225
  {
    assert LengthSq(LeftUpperRest) == 0.16 && LengthSq(RightUpperRest) == 0.16;
    assert LengthSq(LeftForearmRest) == 0.1225 && LengthSq(RightForearmRest) == 0.1225;
    RotateXYZWPreservesLength(LeftUpperRest, f.leftUpper);
    RotateXYZWPreservesLength(LeftForearmRest, f.leftForearm);
    RotateXYZWPreservesLength(RightUpperRest, CorrectXYZW(f.rightUpper));
    RotateXYZWPreservesLength(RightForearmRest, CorrectXYZW(f.rightForearm));
  }

  /**
   * `hand - elbow` depends only on that arm's forearm row, and each arm's
   * joints depend only on that arm's rows.
   */
  lemma FramePoseDependencies(f: Frame, g: Frame)
    requires WellFormed(f) && WellFormed(g)
    ensures f.leftForearm == g.leftForearm ==>
      Sub(FramePose(f).left.hand, FramePose(f).left.elbow) == Sub(FramePose(g).left.hand, FramePose(g).left.elbow)
    ensures f.rightForearm == g.rightForearm ==>
      Sub(FramePose(f).right.hand, FramePose(f).right.elbow) == Sub(FramePose(g).right.hand, FramePose(g).right.elbow)
    ensures f.leftForearm == g.leftForearm && f.leftUpper == g.leftUpper ==> FramePose(f).left == FramePose(g).left
    ensures f.rightForearm == g.rightForearm && f.rightUpper == g.rightUpper ==> FramePose(f).right == FramePose(g).right
  {
  }

  /**
   * Turning the right upper-arm segment back by the uncorrected row gives the
   * T-pose vector: the correction makes the right arm follow the inverse
   * rotation.
   */
  lemma RightArmFollowsInverse(f: Frame)
    requires WellFormed(f)
    ensures RotateXYZW(Sub(FramePose(f).right.elbow, FramePose(f).right.shoulder), f.rightUpper) == RightUpperRest
    ensures RotateXYZW(Sub(FramePose(f).right.hand, FramePose(f).right.elbow), f.rightForearm) == RightForearmRest
  {
    var cu, cf := CorrectXYZW(f.rightUpper), CorrectXYZW(f.rightForearm);
    assert CorrectXYZW(cu) == f.rightUpper;
    assert CorrectXYZW(cf) == f.rightForearm;
    CorrectionInverse(RightUpperRest, cu);
    CorrectionInverse(RightForearmRest, cf);
  }

  /** The frame built from four W-first rows by rolling each. */
  function RolledFrame(q1: Raw, q2: Raw, q3: Raw, q4: Raw): (f: Frame)
    requires |q1| == 4 && |q2| == 4 && |q3| == 4 && |q4| == 4
    ensures WellFormed(f)
  {
    Frame(Roll(q1), Roll(q2), Roll(q3), Roll(q4))
  }

  /** After the roll the left arm is exactly the W-first rotation of the loaded rows. */
  lemma RolledLeftArm(q1: Raw, q2: Raw, q3: Raw, q4: Raw)
    requires |q1| == 4 && |q2| == 4 && |q3| == 4 && |q4| == 4
    ensures FramePose(RolledFrame(q1, q2, q3, q4)).left.elbow == Add(LeftShoulder, RotateWXYZ(LeftUpperRest, q2))
    ensures FramePose(RolledFrame(q1, q2, q3, q4)).left.hand ==
      Add(Add(LeftShoulder, RotateWXYZ(LeftUpperRest, q2)), RotateWXYZ(LeftForearmRest, q1))
  {
    RollAgreement(LeftUpperRest, q2);
    RollAgreement(LeftForearmRest, q1);
  }
}
