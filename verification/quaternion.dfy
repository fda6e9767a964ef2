/**
 * Vector, quaternion and 3x3 matrix algebra shared by every arm visualiser.
 *
 * Quaternions are kept in W-first order. Each source copy normalises a
 * quaternion by its Euclidean norm before use; every normalised component only
 * ever occurs inside a product of two components, so the model divides those
 * products by the squared norm `N` instead and never needs a square root:
 * `‖q‖ < 1e-9` becomes `N < 1e-18` and `‖q‖ > 0` becomes `N > 0`.
 */
module Quaternion {

  datatype Vec3 = Vec3(x: real, y: real, z: real)

  /** A quaternion in W-first order: scalar part `w`, vector part `(x, y, z)`. */
  datatype Quat = Quat(w: real, x: real, y: real, z: real)

  /** A 3x3 matrix given by its three rows. */
  datatype Mat3 = Mat3(r0: Vec3, r1: Vec3, r2: Vec3)

  // ----- vectors -----

  function Add(a: Vec3, b: Vec3): Vec3 {
    Vec3(a.x + b.x, a.y + b.y, a.z + b.z)
  }

  function Sub(a: Vec3, b: Vec3): Vec3 {
    Vec3(a.x - b.x, a.y - b.y, a.z - b.z)
  }

  function Scale(k: real, a: Vec3): Vec3 {
    Vec3(k * a.x, k * a.y, k * a.z)
  }

  function Dot(a: Vec3, b: Vec3): real {
    a.x * b.x + a.y * b.y + a.z * b.z
  }

  function Cross(a: Vec3, b: Vec3): Vec3 {
    Vec3(a.y * b.z - a.z * b.y, a.z * b.x - a.x * b.z, a.x * b.y - a.y * b.x)
  }

  function LengthSq(a: Vec3): real {
    Dot(a, a)
  }

  const Zero := Vec3(0.0, 0.0, 0.0)

  // ----- quaternions -----

  /** The squared Euclidean norm, `‖q‖²`. */
  function NormSq(q: Quat): real {
    q.w * q.w + q.x * q.x + q.y * q.y + q.z * q.z
  }

  function VectorPart(q: Quat): Vec3 {
    Vec3(q.x, q.y, q.z)
  }

  function ScaleQuat(k: real, q: Quat): Quat {
    Quat(k * q.w, k * q.x, k * q.y, k * q.z)
  }

  /** The quaternion with its vector part negated. */
  function Conjugate(q: Quat): Quat {
    Quat(q.w, -q.x, -q.y, -q.z)
  }

  const Identity := Quat(1.0, 0.0, 0.0, 0.0)

  const ZeroQuat := Quat(0.0, 0.0, 0.0, 0.0)

  /** `1e-18`, the square of the `1e-9` norm threshold of the rotation guards. */
  const DegenerateNormSq: real := 1.0 / 1000000000000000000.0

  /** The guard of the cross-product rotations: `‖q‖ < 1e-9`, squared. */
  predicate IsDegenerate(q: Quat) {
    NormSq(q) < DegenerateNormSq
  }

  /**
   * `N·(R(q/‖q‖)·v − v)` for `N = ‖q‖²`: the double cross product
   * `2w·(u × v) + 2·u × (u × v)` with `(w, u)` the raw components of `q`.
   */
  function Turn(q: Quat, v: Vec3): Vec3 {
    var u := VectorPart(q);
    Add(Scale(2.0 * q.w, Cross(u, v)), Scale(2.0, Cross(u, Cross(u, v))))
  }

  /**
   * The double-cross-product rotation `v + w·t + u × t` with `t = 2·(u × v)`,
   * where `(w, u)` is `q` divided by its norm. Every term of `w·t + u × t` is a
   * product of two normalised components, so it equals `Turn(q, v) / N`.
   * A degenerate quaternion leaves the vector unchanged.
   */
  function Rotate(v: Vec3, q: Quat): (r: Vec3)
    ensures IsDegenerate(q) ==> r == v
  {
    if IsDegenerate(q) then v
    else Add(v, Scale(1.0 / NormSq(q), Turn(q, v)))
  }

  // ----- matrices -----

  function MatVec(m: Mat3, v: Vec3): Vec3 {
    Vec3(Dot(m.r0, v), Dot(m.r1, v), Dot(m.r2, v))
  }

  function Col0(m: Mat3): Vec3 { Vec3(m.r0.x, m.r1.x, m.r2.x) }
  function Col1(m: Mat3): Vec3 { Vec3(m.r0.y, m.r1.y, m.r2.y) }
  function Col2(m: Mat3): Vec3 { Vec3(m.r0.z, m.r1.z, m.r2.z) }

  function Transpose(m: Mat3): Mat3 {
    Mat3(Col0(m), Col1(m), Col2(m))
  }

  function MatMul(a: Mat3, b: Mat3): Mat3 {
    Mat3(
      Vec3(Dot(a.r0, Col0(b)), Dot(a.r0, Col1(b)), Dot(a.r0, Col2(b))),
      Vec3(Dot(a.r1, Col0(b)), Dot(a.r1, Col1(b)), Dot(a.r1, Col2(b))),
      Vec3(Dot(a.r2, Col0(b)), Dot(a.r2, Col1(b)), Dot(a.r2, Col2(b))))
  }

  function ScaleMat(k: real, m: Mat3): Mat3 {
    Mat3(Scale(k, m.r0), Scale(k, m.r1), Scale(k, m.r2))
  }

  const I3 := Mat3(Vec3(1.0, 0.0, 0.0), Vec3(0.0, 1.0, 0.0), Vec3(0.0, 0.0, 1.0))

  /**
   * `n` times the rotation matrix of `q / sqrt(n)`: each entry of the textbook
   * formula with every product of two normalised components `a·b` written as
   * `a·b / n`, multiplied through by `n`. With `n = 1` it is the textbook
   * formula applied to the raw components.
   */
  function ScaledFormula(q: Quat, n: real): Mat3 {
    var w, x, y, z := q.w, q.x, q.y, q.z;
    Mat3(
      Vec3(n - 2.0 * y * y - 2.0 * z * z, 2.0 * x * y - 2.0 * z * w, 2.0 * x * z + 2.0 * y * w),
      Vec3(2.0 * x * y + 2.0 * z * w, n - 2.0 * x * x - 2.0 * z * z, 2.0 * y * z - 2.0 * x * w),
      Vec3(2.0 * x * z - 2.0 * y * w, 2.0 * y * z + 2.0 * x * w, n - 2.0 * x * x - 2.0 * y * y))
  }

  /**
   * The quaternion-to-matrix conversion: normalise when the norm is positive,
   * otherwise apply the formula to the raw (all-zero) components.
   */
  function ToMatrix(q: Quat): (m: Mat3)
    ensures q == ZeroQuat ==> m == I3
  {
    var n := NormSq(q);
    if n > 0.0 then ScaleMat(1.0 / n, ScaledFormula(q, n))
    else ScaledFormula(q, 1.0)
  }
}
