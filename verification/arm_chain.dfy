/**
 * The forward kinematics every live visualiser uses: a fixed shoulder, each
 * segment's rest vector turned by that segment's own rotation, and the joints
 * chained by vector addition. The forearm rotation is never composed with
 * the upper-arm rotation.
 */
module ArmChain {
  import opened Quaternion

  datatype ArmPose = ArmPose(shoulder: Vec3, elbow: Vec3, hand: Vec3)

  /**
   * The joints of an arm whose upper-arm and forearm segments, already
   * rotated, are `upper` and `fore`.
   */
  function Chain(shoulder: Vec3, upper: Vec3, fore: Vec3): (p: ArmPose)
    ensures p.shoulder == shoulder
    ensures Sub(p.elbow, p.shoulder) == upper
    ensures Sub(p.hand, p.elbow) == fore
  {
    var elbow := Add(shoulder, upper);
    ArmPose(shoulder, elbow, Add(elbow, fore))
  }
}
