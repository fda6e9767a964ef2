/**
 * The live recording screen: a buffer of the latest W-first quaternion per
 * body position, refreshed by the collection loop, and the two-arm pose
 * drawn from it. The manager's body-position mapping comes from a method
 * the repository never defines, so it is an input here (position key to
 * device address); so is each poll's packet content.
 */
module SplitScreen {
  import opened Quaternion
  import opened QuaternionLaws
  import opened ArmChain
  import BicepCurl
  import opened Wrappers

  const UpperArmLength := 0.3
  const ForearmLength := 0.25
  const ShoulderWidth := 0.35

  const UpperLeft := "upper_left_arm"
  const LowerLeft := "lower_left_arm"
  const UpperRight := "upper_right_arm"
  const LowerRight := "lower_right_arm"

  /** Body position key to device address. */
  type Mapping = map<string, string>

  /** Body position key to the latest quaternion. */
  type Buffer = map<string, Quat>

  /** The screen's copy of the cross-product rotation, on a W-first quaternion. */
  function RotateVector(v: Vec3, q: Quat): (r: Vec3)
    ensures IsDegenerate(q) ==> r == v
  {
    Rotate(v, q)
  }

  /** It agrees with the bicep-curl W-first copy on every row. */
  lemma RotateVectorAgrees(v: Vec3, q: BicepCurl.Raw)
    requires |q| == 4
    ensures RotateVector(v, BicepCurl.FromWXYZ(q)) == BicepCurl.RotateWXYZ(v, q)
  {
  }

  /**
   * The buffer at start-up: with a manager, every mapped position holds the
   * identity; without one the buffer is empty.
   */
  function InitialBuffer(hasManager: bool, mapping: Mapping): (b: Buffer)
    ensures hasManager ==> b.Keys == mapping.Keys
    ensures !hasManager ==> b == map[]
    ensures forall k :: k in b ==> b[k] == Identity
  {
    if hasManager then map k | k in mapping :: Identity else map[]
  }

  /** The state the collection loop updates. */
  datatype Collector = Collector(latest: Buffer, frameCount: nat)

  /**
   * One poll of the collection loop. When packets are available, every
   * mapped position whose packet carries an orientation takes that
   * quaternion (`orientations` holds exactly those, by position key), and
   * the frame count goes up by one however many devices delivered.
   */
  function CollectCycle(c: Collector, available: bool, mapping: Mapping, orientations: map<string, Quat>): (r: Collector)
    ensures r.frameCount == c.frameCount + (if available then 1 else 0)
    ensures !available ==> r.latest == c.latest
    ensures available ==> forall k :: k in mapping && k in orientations ==> k in r.latest && r.latest[k] == orientations[k]
    ensures forall k :: k in c.latest && !(available && k in mapping && k in orientations) ==>
      k in r.latest && r.latest[k] == c.latest[k]
    ensures forall k :: k in r.latest ==> k in c.latest || (available && k in mapping && k in orientations)
  {
    if !available then c
    else
      var updated := map k | k in c.latest.Keys + (mapping.Keys * orientations.Keys) ::
        if k in mapping && k in orientations then orientations[k] else c.latest[k];
      Collector(updated, c.frameCount + 1)
  }

  /** One poll as the loop sees it: whether packets were available, and what they carried. */
  datatype Poll = Poll(available: bool, orientations: map<string, Quat>)

  function CountAvailable(polls: seq<Poll>): (n: nat)
    ensures n <= |polls|
  {
    if |polls| == 0 then 0
    else CountAvailable(polls[..|polls| - 1]) + (if polls[|polls| - 1].available then 1 else 0)
  }

  /** The last poll below `hi` that had packets available carrying an orientation for `k`. */
  function LastCarrying(polls: seq<Poll>, k: string, hi: nat): (r: Option<nat>)
    requires hi <= |polls|
    ensures r.Some? ==> r.value < hi && polls[r.value].available && k in polls[r.value].orientations
    ensures r.Some? ==> forall i :: r.value < i < hi ==> !(polls[i].available && k in polls[i].orientations)
    ensures r.None? ==> forall i :: 0 <= i < hi ==> !(polls[i].available && k in polls[i].orientations)
  {
    if hi == 0 then None
    else if polls[hi - 1].available && k in polls[hi - 1].orientations then Some(hi - 1)
    else LastCarrying(polls, k, hi - 1)
  }

  /**
   * After the first `hi` polls, position `k` holds the orientation of the
   * last poll that delivered one for it, if `k` is mapped and such a poll
   * exists; otherwise its entry (or absence) is the one it started with.
   */
  predicate Buffered(start: Buffer, mapping: Mapping, polls: seq<Poll>, hi: nat, latest: Buffer, k: string)
    requires hi <= |polls|
  {
    var last := if k in mapping then LastCarrying(polls, k, hi) else None;
    if last.Some? then k in latest && latest[k] == polls[last.value].orientations[k]
    else SameEntry(start, latest, k)
  }

  /**
   * The collection loop over a run of polls: the final frame count is the
   * starting count plus the number of polls with packets available, and
   * every position holds what its last delivering poll carried.
   */
  method Collect(c: Collector, mapping: Mapping, polls: seq<Poll>) returns (r: Collector)
    ensures r.frameCount == c.frameCount + CountAvailable(polls)
    ensures forall k :: k in c.latest ==> k in r.latest
    ensures forall k :: Buffered(c.latest, mapping, polls, |polls|, r.latest, k)
  {
    r := c;
    var i := 0;
    while i < |polls|
      invariant 0 <= i <= |polls|
      invariant r.frameCount == c.frameCount + CountAvailable(polls[..i])
      invariant forall k :: k in c.latest ==> k in r.latest
      invariant forall k :: Buffered(c.latest, mapping, polls, i, r.latest, k)
    {
      var next := CollectCycle(r, polls[i].available, mapping, polls[i].orientations);
      var done := i + 1;
      forall k
        ensures Buffered(c.latest, mapping, polls, done, next.latest, k)
      {
        assert Buffered(c.latest, mapping, polls, i, r.latest, k);
      }
      r := next;
      assert polls[..i + 1][..i] == polls[..i];
      i := i + 1;
    }
    assert polls[..|polls|] == polls;
  }

  /** The two buffers hold the same entry (or none) for `k`. */
  predicate SameEntry(a: Buffer, b: Buffer, k: string) {
    (k in a <==> k in b) && (k in a ==> a[k] == b[k])
  }

  const LeftShoulder := Vec3(-ShoulderWidth / 2.0, 0.0, 0.0)
  const RightShoulder := Vec3(ShoulderWidth / 2.0, 0.0, 0.0)

  /** The arm of the given side, if both its positions are mapped and buffered. */
  function ArmIfMapped(mapping: Mapping, latest: Buffer, upperKey: string, lowerKey: string,
                       shoulder: Vec3, upperRest: Vec3, forearmRest: Vec3): (a: Option<ArmPose>)
    ensures a.Some? <==> upperKey in mapping && lowerKey in mapping && upperKey in latest && lowerKey in latest
    ensures a.Some? ==> a.value.shoulder == shoulder
  {
    if upperKey in mapping && lowerKey in mapping && upperKey in latest && lowerKey in latest then
      Some(Chain(shoulder, RotateVector(upperRest, latest[upperKey]), RotateVector(forearmRest, latest[lowerKey])))
    else None
  }

  datatype Drawn = Drawn(left: Option<ArmPose>, right: Option<ArmPose>)

  /**
   * One refresh of the 3D view: nothing while not recording; otherwise each
   * arm whose two positions are mapped and buffered, with the shoulders at
   * `∓ShoulderWidth/2` on X and the T-pose vectors along ∓X.
   */
  function UpdateVisualization(recording: bool, mapping: Mapping, latest: Buffer): (d: Option<Drawn>)
    ensures d.None? <==> !recording
    ensures d.Some? ==> (d.value.left.Some? <==> UpperLeft in mapping && LowerLeft in mapping && UpperLeft in latest && LowerLeft in latest)
    ensures d.Some? ==> (d.value.right.Some? <==> UpperRight in mapping && LowerRight in mapping && UpperRight in latest && LowerRight in latest)
    ensures d.Some? && d.value.left.Some? ==> d.value.left.value.shoulder == Vec3(-0.175, 0.0, 0.0)
    ensures d.Some? && d.value.right.Some? ==> d.value.right.value.shoulder == Vec3(0.175, 0.0, 0.0)
  {
    if !recording then None
    else Some(Drawn(
      ArmIfMapped(mapping, latest, UpperLeft, LowerLeft, LeftShoulder,
        Vec3(-UpperArmLength, 0.0, 0.0), Vec3(-ForearmLength, 0.0, 0.0)),
      ArmIfMapped(mapping, latest, UpperRight, LowerRight, RightShoulder,
        Vec3(UpperArmLength, 0.0, 0.0), Vec3(ForearmLength, 0.0, 0.0))))
  }

  /** An arm whose two buffered quaternions are the identity keeps its T-pose vectors. */
  lemma ArmAtIdentity(mapping: Mapping, latest: Buffer, upperKey: string, lowerKey: string,
                      shoulder: Vec3, upperRest: Vec3, forearmRest: Vec3)
    requires upperKey in mapping && lowerKey in mapping && upperKey in latest && lowerKey in latest
    requires latest[upperKey] == Identity && latest[lowerKey] == Identity
    ensures ArmIfMapped(mapping, latest, upperKey, lowerKey, shoulder, upperRest, forearmRest) ==
      Some(Chain(shoulder, upperRest, forearmRest))
  {
    RotateIdentity(upperRest);
    RotateIdentity(forearmRest);
  }

  /**
   * Before any packet arrives the left arm is straight along -X: elbow
   * `(-0.475, 0, 0)`, hand `(-0.725, 0, 0)`.
   */
  lemma InitialLeftArmStraight(mapping: Mapping)
    requires UpperLeft in mapping && LowerLeft in mapping
    ensures var d := UpdateVisualization(true, mapping, InitialBuffer(true, mapping));
      d.Some? && d.value.left == Some(ArmPose(Vec3(-0.175, 0.0, 0.0), Vec3(-0.475, 0.0, 0.0), Vec3(-0.725, 0.0, 0.0)))
  {
    var b := InitialBuffer(true, mapping);
    ArmAtIdentity(mapping, b, UpperLeft, LowerLeft, LeftShoulder,
      Vec3(-UpperArmLength, 0.0, 0.0), Vec3(-ForearmLength, 0.0, 0.0));
  }

  /** Each arm depends only on its own two buffered quaternions. */
  lemma ArmsIndependent(mapping: Mapping, a: Buffer, b: Buffer)
    ensures SameEntry(a, b, UpperLeft) && SameEntry(a, b, LowerLeft) ==>
      UpdateVisualization(true, mapping, a).value.left == UpdateVisualization(true, mapping, b).value.left
    ensures SameEntry(a, b, UpperRight) && SameEntry(a, b, LowerRight) ==>
      UpdateVisualization(true, mapping, a).value.right == UpdateVisualization(true, mapping, b).value.right
  {
  }
}
