/**
 * Algebraic laws of the shared rotation code: the cross-product rotation and
 * the quaternion-to-matrix conversion agree, preserve lengths, ignore the
 * scale of the quaternion, and are undone by the conjugate quaternion.
 *
 * The proofs instantiate the identities of `RealIdentities` with fields of
 * the vectors and matrices involved; the small "components" lemmas below
 * spell out one definition each so that every such instantiation lines up
 * term for term.
 */
module QuaternionLaws {
  import opened Quaternion
  import opened RealIdentities

  // ----- definitions, component by component -----

  lemma AddComponents(a: Vec3, b: Vec3)
    ensures Add(a, b).x == a.x + b.x && Add(a, b).y == a.y + b.y && Add(a, b).z == a.z + b.z
  {
  }

  lemma ScaleComponents(k: real, a: Vec3)
    ensures Scale(k, a).x == k * a.x && Scale(k, a).y == k * a.y && Scale(k, a).z == k * a.z
  {
  }

  lemma DotComponents(a: Vec3, b: Vec3)
    ensures Dot(a, b) == a.x * b.x + a.y * b.y + a.z * b.z
  {
  }

  lemma MatVecComponents(m: Mat3, v: Vec3)
    ensures MatVec(m, v).x == Dot(m.r0, v) && MatVec(m, v).y == Dot(m.r1, v) && MatVec(m, v).z == Dot(m.r2, v)
  {
  }

  lemma NormSqComponents(q: Quat)
    ensures NormSq(q) == q.w * q.w + q.x * q.x + q.y * q.y + q.z * q.z
  {
  }

  lemma ScaleQuatComponents(k: real, q: Quat)
    ensures ScaleQuat(k, q).w == k * q.w && ScaleQuat(k, q).x == k * q.x
    ensures ScaleQuat(k, q).y == k * q.y && ScaleQuat(k, q).z == k * q.z
  {
  }

  lemma ConjugateComponents(q: Quat)
    ensures Conjugate(q).w == q.w && Conjugate(q).x == -q.x && Conjugate(q).y == -q.y && Conjugate(q).z == -q.z
  {
  }

  lemma FormulaRow0(q: Quat, n: real)
    ensures ScaledFormula(q, n).r0.x == n - 2.0 * q.y * q.y - 2.0 * q.z * q.z
    ensures ScaledFormula(q, n).r0.y == 2.0 * q.x * q.y - 2.0 * q.z * q.w
    ensures ScaledFormula(q, n).r0.z == 2.0 * q.x * q.z + 2.0 * q.y * q.w
  {
  }

  lemma FormulaRow1(q: Quat, n: real)
    ensures ScaledFormula(q, n).r1.x == 2.0 * q.x * q.y + 2.0 * q.z * q.w
    ensures ScaledFormula(q, n).r1.y == n - 2.0 * q.x * q.x - 2.0 * q.z * q.z
    ensures ScaledFormula(q, n).r1.z == 2.0 * q.y * q.z - 2.0 * q.x * q.w
  {
  }

  lemma FormulaRow2(q: Quat, n: real)
    ensures ScaledFormula(q, n).r2.x == 2.0 * q.x * q.z - 2.0 * q.y * q.w
    ensures ScaledFormula(q, n).r2.y == 2.0 * q.y * q.z + 2.0 * q.x * q.w
    ensures ScaledFormula(q, n).r2.z == n - 2.0 * q.x * q.x - 2.0 * q.y * q.y
  {
  }

  /** The inner cross product `u × v` of `Turn(q, v)`. */
  lemma TurnInner(q: Quat, v: Vec3)
    ensures Cross(VectorPart(q), v) == Vec3(q.y * v.z - q.z * v.y, q.z * v.x - q.x * v.z, q.x * v.y - q.y * v.x)
  {
  }

  /** The outer cross product `u × c` of `Turn(q, v)`. */
  lemma TurnOuter(q: Quat, c: Vec3)
    ensures Cross(VectorPart(q), c) == Vec3(q.y * c.z - q.z * c.y, q.z * c.x - q.x * c.z, q.x * c.y - q.y * c.x)
  {
  }

  /** `Turn(q, v)` in terms of the inner cross product `c` and the outer one `d`. */
  lemma TurnComponents(q: Quat, v: Vec3)
    ensures var c := Cross(VectorPart(q), v); var d := Cross(VectorPart(q), c);
      Turn(q, v).x == (2.0 * q.w) * c.x + 2.0 * d.x
    ensures var c := Cross(VectorPart(q), v); var d := Cross(VectorPart(q), c);
      Turn(q, v).y == (2.0 * q.w) * c.y + 2.0 * d.y
    ensures var c := Cross(VectorPart(q), v); var d := Cross(VectorPart(q), c);
      Turn(q, v).z == (2.0 * q.w) * c.z + 2.0 * d.z
  {
  }

  /** For a positive squared norm the conversion is the scaled formula divided by it. */
  lemma ToMatrixPositive(q: Quat)
    requires NormSq(q) > 0.0
    ensures ToMatrix(q) == ScaleMat(1.0 / NormSq(q), ScaledFormula(q, NormSq(q)))
  {
  }

  lemma ScaleMatRows(k: real, m: Mat3)
    ensures ScaleMat(k, m).r0 == Scale(k, m.r0) && ScaleMat(k, m).r1 == Scale(k, m.r1)
    ensures ScaleMat(k, m).r2 == Scale(k, m.r2)
  {
  }

  lemma TransposeRows(m: Mat3)
    ensures Transpose(m).r0 == Vec3(m.r0.x, m.r1.x, m.r2.x)
    ensures Transpose(m).r1 == Vec3(m.r0.y, m.r1.y, m.r2.y)
    ensures Transpose(m).r2 == Vec3(m.r0.z, m.r1.z, m.r2.z)
  {
  }

  // ----- the squared norm -----

  /** The squared norm is never negative, and it is zero only for the zero quaternion. */
  lemma NormSqSign(q: Quat)
    ensures NormSq(q) >= 0.0
    ensures NormSq(q) > 0.0 <==> q != ZeroQuat
  {
    NormSqComponents(q);
    if NormSq(q) == 0.0 {
      FourSquaresZero(q.w, q.x, q.y, q.z, NormSq(q));
    }
  }

  /** Scaling a quaternion by `k` scales its squared norm by `c = k²`. */
  lemma NormSqScaleQuat(k: real, c: real, q: Quat)
    requires IsSquare(c, k)
    ensures IsProduct(NormSq(ScaleQuat(k, q)), c, NormSq(q))
  {
    NormSqComponents(q);
    NormSqComponents(ScaleQuat(k, q));
    ScaleQuatComponents(k, q);
    NormSqScale(k, c, q.w, q.x, q.y, q.z, NormSq(q),
      ScaleQuat(k, q).w, ScaleQuat(k, q).x, ScaleQuat(k, q).y, ScaleQuat(k, q).z,
      NormSq(ScaleQuat(k, q)));
  }

  /** Conjugation keeps the squared norm. */
  lemma NormSqConjugate(q: Quat)
    ensures NormSq(Conjugate(q)) == NormSq(q)
  {
    NormSqComponents(q);
    NormSqComponents(Conjugate(q));
    ConjugateComponents(q);
    ConjugateNormSq(q.w, q.x, q.y, q.z, Conjugate(q).x, Conjugate(q).y, Conjugate(q).z);
  }

  // ----- vector and matrix algebra -----

  /** Scaling by `t` and then by `s` is scaling by `st = s·t`. */
  lemma ScaleScale(s: real, t: real, st: real, a: Vec3)
    requires IsProduct(st, s, t)
    ensures Scale(s, Scale(t, a)) == Scale(st, a)
  {
    ScaleComponents(t, a);
    ScaleComponents(s, Scale(t, a));
    ScaleComponents(st, a);
    ProductAssoc(s, t, a.x, st, Scale(t, a).x);
    ProductAssoc(s, t, a.y, st, Scale(t, a).y);
    ProductAssoc(s, t, a.z, st, Scale(t, a).z);
  }

  lemma ScaleMatScale(s: real, t: real, st: real, m: Mat3)
    requires IsProduct(st, s, t)
    ensures ScaleMat(s, ScaleMat(t, m)) == ScaleMat(st, m)
  {
    ScaleMatRows(t, m);
    ScaleMatRows(s, ScaleMat(t, m));
    ScaleMatRows(st, m);
    ScaleScale(s, t, st, m.r0);
    ScaleScale(s, t, st, m.r1);
    ScaleScale(s, t, st, m.r2);
  }

  lemma TransposeScale(k: real, m: Mat3)
    ensures Transpose(ScaleMat(k, m)) == ScaleMat(k, Transpose(m))
  {
  }

  lemma TransposeTranspose(m: Mat3)
    ensures Transpose(Transpose(m)) == m
  {
  }

  /** `(s·a)·(t·b) = st·(a·b)` for vectors, with `st = s·t`. */
  lemma DotScaleBoth(s: real, a: Vec3, t: real, b: Vec3, st: real)
    requires IsProduct(st, s, t)
    ensures Dot(Scale(s, a), Scale(t, b)) == st * Dot(a, b)
  {
    var sa, tb := Scale(s, a), Scale(t, b);
    ScaleComponents(s, a);
    ScaleComponents(t, b);
    assert sa.x * tb.x == st * (a.x * b.x) by {
      ProductScaleBoth(s, t, a.x, b.x, sa.x, tb.x, st, a.x * b.x);
    }
    assert sa.y * tb.y == st * (a.y * b.y) by {
      ProductScaleBoth(s, t, a.y, b.y, sa.y, tb.y, st, a.y * b.y);
    }
    assert sa.z * tb.z == st * (a.z * b.z) by {
      ProductScaleBoth(s, t, a.z, b.z, sa.z, tb.z, st, a.z * b.z);
    }
    DotComponents(sa, tb);
    DotComponents(a, b);
    Distribute3(st, a.x * b.x, a.y * b.y, a.z * b.z, Dot(a, b));
  }

  /** `(k·a)·v = k·(a·v)`. */
  lemma DotScale(k: real, a: Vec3, v: Vec3)
    ensures Dot(Scale(k, a), v) == k * Dot(a, v)
  {
    DotComponents(Scale(k, a), v);
    DotComponents(a, v);
    ScaleComponents(k, a);
    ScaledProduct(k, a.x, v.x, Scale(k, a).x, a.x * v.x);
    ScaledProduct(k, a.y, v.y, Scale(k, a).y, a.y * v.y);
    ScaledProduct(k, a.z, v.z, Scale(k, a).z, a.z * v.z);
    Distribute3(k, a.x * v.x, a.y * v.y, a.z * v.z, Dot(a, v));
  }

  lemma MatVecScaleX(k: real, m: Mat3, v: Vec3)
    ensures MatVec(ScaleMat(k, m), v).x == Scale(k, MatVec(m, v)).x
  {
    ScaleMatRows(k, m);
    MatVecComponents(ScaleMat(k, m), v);
    MatVecComponents(m, v);
    ScaleComponents(k, MatVec(m, v));
    DotScale(k, m.r0, v);
  }

  lemma MatVecScaleY(k: real, m: Mat3, v: Vec3)
    ensures MatVec(ScaleMat(k, m), v).y == Scale(k, MatVec(m, v)).y
  {
    ScaleMatRows(k, m);
    MatVecComponents(ScaleMat(k, m), v);
    MatVecComponents(m, v);
    ScaleComponents(k, MatVec(m, v));
    DotScale(k, m.r1, v);
  }

  lemma MatVecScaleZ(k: real, m: Mat3, v: Vec3)
    ensures MatVec(ScaleMat(k, m), v).z == Scale(k, MatVec(m, v)).z
  {
    ScaleMatRows(k, m);
    MatVecComponents(ScaleMat(k, m), v);
    MatVecComponents(m, v);
    ScaleComponents(k, MatVec(m, v));
    DotScale(k, m.r2, v);
  }

  lemma MatVecScale(k: real, m: Mat3, v: Vec3)
    ensures MatVec(ScaleMat(k, m), v) == Scale(k, MatVec(m, v))
  {
    MatVecScaleX(k, m, v);
    MatVecScaleY(k, m, v);
    MatVecScaleZ(k, m, v);
  }

  lemma DotComm(a: Vec3, b: Vec3)
    ensures Dot(a, b) == Dot(b, a)
  {
  }

  /** The entries of `a·bᵀ` are the dot products of the rows of `a` and `b`. */
  lemma MatMulTranspose(a: Mat3, b: Mat3)
    ensures MatMul(a, Transpose(b)) == Mat3(
      Vec3(Dot(a.r0, b.r0), Dot(a.r0, b.r1), Dot(a.r0, b.r2)),
      Vec3(Dot(a.r1, b.r0), Dot(a.r1, b.r1), Dot(a.r1, b.r2)),
      Vec3(Dot(a.r2, b.r0), Dot(a.r2, b.r1), Dot(a.r2, b.r2)))
  {
  }

  /** Applying `b` then `a` is applying `a·b`. */
  lemma MatVecMatMul(a: Mat3, b: Mat3, v: Vec3)
    ensures MatVec(a, MatVec(b, v)) == MatVec(MatMul(a, b), v)
  {
  }

  lemma MatVecIdentity(v: Vec3)
    ensures MatVec(I3, v) == v
  {
  }

  /** `I·B = B`, column by column. */
  lemma MatMulIdentity(b: Mat3)
    ensures MatMul(I3, b) == b
  {
    MatVecIdentity(Col0(b));
    MatVecIdentity(Col1(b));
    MatVecIdentity(Col2(b));
  }

  /** `(m·a)·b = a·(mᵀ·b)`. */
  lemma DotMatVec(m: Mat3, a: Vec3, b: Vec3)
    ensures Dot(MatVec(m, a), b) == Dot(a, MatVec(Transpose(m), b))
  {
  }

  /** A matrix whose columns are orthonormal preserves squared lengths. */
  lemma OrthogonalPreservesLength(m: Mat3, v: Vec3)
    requires MatMul(Transpose(m), m) == I3
    ensures LengthSq(MatVec(m, v)) == LengthSq(v)
  {
    DotMatVec(m, v, MatVec(m, v));
    MatVecMatMul(Transpose(m), m, v);
    MatVecIdentity(v);
  }

  /** A matrix whose rows are orthonormal satisfies `R·Rᵀ = I`. */
  lemma OrthonormalRows(r: Mat3)
    requires Dot(r.r0, r.r0) == 1.0 && Dot(r.r1, r.r1) == 1.0 && Dot(r.r2, r.r2) == 1.0
    requires Dot(r.r0, r.r1) == 0.0 && Dot(r.r0, r.r2) == 0.0 && Dot(r.r1, r.r2) == 0.0
    ensures MatMul(r, Transpose(r)) == I3
  {
    MatMulTranspose(r, r);
    DotComm(r.r1, r.r0);
    DotComm(r.r2, r.r0);
    DotComm(r.r2, r.r1);
  }

  /** `(1/n)·(n·v + t) = v + (1/n)·t` for `n > 0`. */
  lemma InverseScaleVec(n: real, v: Vec3, t: Vec3)
    requires n > 0.0
    ensures Scale(1.0 / n, Add(Scale(n, v), t)) == Add(v, Scale(1.0 / n, t))
  {
    ScaleComponents(1.0 / n, Add(Scale(n, v), t));
    AddComponents(Scale(n, v), t);
    ScaleComponents(n, v);
    AddComponents(v, Scale(1.0 / n, t));
    ScaleComponents(1.0 / n, t);
    InverseScale(n, v.x, t.x, Scale(n, v).x, Add(Scale(n, v), t).x);
    InverseScale(n, v.y, t.y, Scale(n, v).y, Add(Scale(n, v), t).y);
    InverseScale(n, v.z, t.z, Scale(n, v).z, Add(Scale(n, v), t).z);
  }

  // ----- the scaled formula applied to a vector -----

  /** Component x of `P·v`, for the scaled formula `P`, is `n·v + Turn(q, v)`. */
  lemma ScaledFormulaApplyX(q: Quat, n: real, v: Vec3)
    ensures MatVec(ScaledFormula(q, n), v).x == Add(Scale(n, v), Turn(q, v)).x
  {
    MatVecComponents(ScaledFormula(q, n), v);
    DotComponents(ScaledFormula(q, n).r0, v);
    FormulaRow0(q, n);
    TurnInner(q, v);
    TurnOuter(q, Cross(VectorPart(q), v));
    TurnComponents(q, v);
    AddComponents(Scale(n, v), Turn(q, v));
    ScaleComponents(n, v);
    FormulaApplyRow0(q.w, q.x, q.y, q.z, n, v.x, v.y, v.z,
      ScaledFormula(q, n).r0.x, ScaledFormula(q, n).r0.y, ScaledFormula(q, n).r0.z,
      Cross(VectorPart(q), v).x, Cross(VectorPart(q), v).y, Cross(VectorPart(q), v).z,
      Cross(VectorPart(q), Cross(VectorPart(q), v)).x);
  }

  /** Component y of `P·v`, for the scaled formula `P`, is `n·v + Turn(q, v)`. */
  lemma ScaledFormulaApplyY(q: Quat, n: real, v: Vec3)
    ensures MatVec(ScaledFormula(q, n), v).y == Add(Scale(n, v), Turn(q, v)).y
  {
    MatVecComponents(ScaledFormula(q, n), v);
    DotComponents(ScaledFormula(q, n).r1, v);
    FormulaRow1(q, n);
    TurnInner(q, v);
    TurnOuter(q, Cross(VectorPart(q), v));
    TurnComponents(q, v);
    AddComponents(Scale(n, v), Turn(q, v));
    ScaleComponents(n, v);
    FormulaApplyRow1(q.w, q.x, q.y, q.z, n, v.x, v.y, v.z,
      ScaledFormula(q, n).r1.x, ScaledFormula(q, n).r1.y, ScaledFormula(q, n).r1.z,
      Cross(VectorPart(q), v).x, Cross(VectorPart(q), v).y, Cross(VectorPart(q), v).z,
      Cross(VectorPart(q), Cross(VectorPart(q), v)).y);
  }

  /** Component z of `P·v`, for the scaled formula `P`, is `n·v + Turn(q, v)`. */
  lemma ScaledFormulaApplyZ(q: Quat, n: real, v: Vec3)
    ensures MatVec(ScaledFormula(q, n), v).z == Add(Scale(n, v), Turn(q, v)).z
  {
    MatVecComponents(ScaledFormula(q, n), v);
    DotComponents(ScaledFormula(q, n).r2, v);
    FormulaRow2(q, n);
    TurnInner(q, v);
    TurnOuter(q, Cross(VectorPart(q), v));
    TurnComponents(q, v);
    AddComponents(Scale(n, v), Turn(q, v));
    ScaleComponents(n, v);
    FormulaApplyRow2(q.w, q.x, q.y, q.z, n, v.x, v.y, v.z,
      ScaledFormula(q, n).r2.x, ScaledFormula(q, n).r2.y, ScaledFormula(q, n).r2.z,
      Cross(VectorPart(q), v).x, Cross(VectorPart(q), v).y, Cross(VectorPart(q), v).z,
      Cross(VectorPart(q), Cross(VectorPart(q), v)).z);
  }

  /** The scaled formula applies `v ↦ n·v + Turn(q, v)`. */
  lemma ScaledFormulaApply(q: Quat, n: real, v: Vec3)
    ensures MatVec(ScaledFormula(q, n), v) == Add(Scale(n, v), Turn(q, v))
  {
    ScaledFormulaApplyX(q, n, v);
    ScaledFormulaApplyY(q, n, v);
    ScaledFormulaApplyZ(q, n, v);
  }

  // ----- scaling the quaternion -----

  lemma TurnScaleX(k: real, c: real, q: Quat, v: Vec3)
    requires IsSquare(c, k)
    ensures Turn(ScaleQuat(k, q), v).x == Scale(c, Turn(q, v)).x
  {
    ScaleQuatComponents(k, q);
    TurnInner(q, v);
    TurnOuter(q, Cross(VectorPart(q), v));
    TurnComponents(q, v);
    TurnInner(ScaleQuat(k, q), v);
    TurnOuter(ScaleQuat(k, q), Cross(VectorPart(ScaleQuat(k, q)), v));
    TurnComponents(ScaleQuat(k, q), v);
    ScaleComponents(c, Turn(q, v));
    TurnComponentScale(k, c, q.w, q.x, q.y, q.z, v.x, v.y, v.z,
      ScaleQuat(k, q).w, ScaleQuat(k, q).x, ScaleQuat(k, q).y, ScaleQuat(k, q).z,
      Cross(VectorPart(q), v).x, Cross(VectorPart(q), v).y, Cross(VectorPart(q), v).z, Cross(VectorPart(q), Cross(VectorPart(q), v)).x,
      Cross(VectorPart(ScaleQuat(k, q)), v).x, Cross(VectorPart(ScaleQuat(k, q)), v).y, Cross(VectorPart(ScaleQuat(k, q)), v).z, Cross(VectorPart(ScaleQuat(k, q)), Cross(VectorPart(ScaleQuat(k, q)), v)).x,
      Turn(q, v).x, Turn(ScaleQuat(k, q), v).x);
  }

  lemma TurnScaleY(k: real, c: real, q: Quat, v: Vec3)
    requires IsSquare(c, k)
    ensures Turn(ScaleQuat(k, q), v).y == Scale(c, Turn(q, v)).y
  {
    ScaleQuatComponents(k, q);
    TurnInner(q, v);
    TurnOuter(q, Cross(VectorPart(q), v));
    TurnComponents(q, v);
    TurnInner(ScaleQuat(k, q), v);
    TurnOuter(ScaleQuat(k, q), Cross(VectorPart(ScaleQuat(k, q)), v));
    TurnComponents(ScaleQuat(k, q), v);
    ScaleComponents(c, Turn(q, v));
    TurnComponentScale(k, c, q.w, q.y, q.z, q.x, v.y, v.z, v.x,
      ScaleQuat(k, q).w, ScaleQuat(k, q).y, ScaleQuat(k, q).z, ScaleQuat(k, q).x,
      Cross(VectorPart(q), v).y, Cross(VectorPart(q), v).z, Cross(VectorPart(q), v).x, Cross(VectorPart(q), Cross(VectorPart(q), v)).y,
      Cross(VectorPart(ScaleQuat(k, q)), v).y, Cross(VectorPart(ScaleQuat(k, q)), v).z, Cross(VectorPart(ScaleQuat(k, q)), v).x, Cross(VectorPart(ScaleQuat(k, q)), Cross(VectorPart(ScaleQuat(k, q)), v)).y,
      Turn(q, v).y, Turn(ScaleQuat(k, q), v).y);
  }

  lemma TurnScaleZ(k: real, c: real, q: Quat, v: Vec3)
    requires IsSquare(c, k)
    ensures Turn(ScaleQuat(k, q), v).z == Scale(c, Turn(q, v)).z
  {
    ScaleQuatComponents(k, q);
    TurnInner(q, v);
    TurnOuter(q, Cross(VectorPart(q), v));
    TurnComponents(q, v);
    TurnInner(ScaleQuat(k, q), v);
    TurnOuter(ScaleQuat(k, q), Cross(VectorPart(ScaleQuat(k, q)), v));
    TurnComponents(ScaleQuat(k, q), v);
    ScaleComponents(c, Turn(q, v));
    TurnComponentScale(k, c, q.w, q.z, q.x, q.y, v.z, v.x, v.y,
      ScaleQuat(k, q).w, ScaleQuat(k, q).z, ScaleQuat(k, q).x, ScaleQuat(k, q).y,
      Cross(VectorPart(q), v).z, Cross(VectorPart(q), v).x, Cross(VectorPart(q), v).y, Cross(VectorPart(q), Cross(VectorPart(q), v)).z,
      Cross(VectorPart(ScaleQuat(k, q)), v).z, Cross(VectorPart(ScaleQuat(k, q)), v).x, Cross(VectorPart(ScaleQuat(k, q)), v).y, Cross(VectorPart(ScaleQuat(k, q)), Cross(VectorPart(ScaleQuat(k, q)), v)).z,
      Turn(q, v).z, Turn(ScaleQuat(k, q), v).z);
  }

  /** The rotation term of `k·q` is `c = k²` times that of `q`. */
  lemma TurnScale(k: real, c: real, q: Quat, v: Vec3)
    requires IsSquare(c, k)
    ensures Turn(ScaleQuat(k, q), v) == Scale(c, Turn(q, v))
  {
    TurnScaleX(k, c, q, v);
    TurnScaleY(k, c, q, v);
    TurnScaleZ(k, c, q, v);
  }

  lemma ScaledFormulaScale00(k: real, c: real, q: Quat, n: real, m: real)
    requires IsSquare(c, k) && IsProduct(m, c, n)
    ensures ScaledFormula(ScaleQuat(k, q), m).r0.x == Scale(c, ScaledFormula(q, n).r0).x
  {
    FormulaRow0(q, n);
    FormulaRow0(ScaleQuat(k, q), m);
    ScaleQuatComponents(k, q);
    ScaleComponents(c, ScaledFormula(q, n).r0);
    DiagonalScale(k, c, n, q.y, q.z, m, ScaleQuat(k, q).y, ScaleQuat(k, q).z, ScaledFormula(q, n).r0.x, ScaledFormula(ScaleQuat(k, q), m).r0.x);
  }

  lemma ScaledFormulaScale01(k: real, c: real, q: Quat, n: real, m: real)
    requires IsSquare(c, k) && IsProduct(m, c, n)
    ensures ScaledFormula(ScaleQuat(k, q), m).r0.y == Scale(c, ScaledFormula(q, n).r0).y
  {
    FormulaRow0(q, n);
    FormulaRow0(ScaleQuat(k, q), m);
    ScaleQuatComponents(k, q);
    ScaleComponents(c, ScaledFormula(q, n).r0);
    OffDiagonalScaleMinus(k, c, q.x, q.y, q.z, q.w, ScaleQuat(k, q).x, ScaleQuat(k, q).y, ScaleQuat(k, q).z, ScaleQuat(k, q).w, ScaledFormula(q, n).r0.y, ScaledFormula(ScaleQuat(k, q), m).r0.y);
  }

  lemma ScaledFormulaScale02(k: real, c: real, q: Quat, n: real, m: real)
    requires IsSquare(c, k) && IsProduct(m, c, n)
    ensures ScaledFormula(ScaleQuat(k, q), m).r0.z == Scale(c, ScaledFormula(q, n).r0).z
  {
    FormulaRow0(q, n);
    FormulaRow0(ScaleQuat(k, q), m);
    ScaleQuatComponents(k, q);
    ScaleComponents(c, ScaledFormula(q, n).r0);
    OffDiagonalScalePlus(k, c, q.x, q.z, q.y, q.w, ScaleQuat(k, q).x, ScaleQuat(k, q).z, ScaleQuat(k, q).y, ScaleQuat(k, q).w, ScaledFormula(q, n).r0.z, ScaledFormula(ScaleQuat(k, q), m).r0.z);
  }

  lemma ScaledFormulaScale10(k: real, c: real, q: Quat, n: real, m: real)
    requires IsSquare(c, k) && IsProduct(m, c, n)
    ensures ScaledFormula(ScaleQuat(k, q), m).r1.x == Scale(c, ScaledFormula(q, n).r1).x
  {
    FormulaRow1(q, n);
    FormulaRow1(ScaleQuat(k, q), m);
    ScaleQuatComponents(k, q);
    ScaleComponents(c, ScaledFormula(q, n).r1);
    OffDiagonalScalePlus(k, c, q.x, q.y, q.z, q.w, ScaleQuat(k, q).x, ScaleQuat(k, q).y, ScaleQuat(k, q).z, ScaleQuat(k, q).w, ScaledFormula(q, n).r1.x, ScaledFormula(ScaleQuat(k, q), m).r1.x);
  }

  lemma ScaledFormulaScale11(k: real, c: real, q: Quat, n: real, m: real)
    requires IsSquare(c, k) && IsProduct(m, c, n)
    ensures ScaledFormula(ScaleQuat(k, q), m).r1.y == Scale(c, ScaledFormula(q, n).r1).y
  {
    FormulaRow1(q, n);
    FormulaRow1(ScaleQuat(k, q), m);
    ScaleQuatComponents(k, q);
    ScaleComponents(c, ScaledFormula(q, n).r1);
    DiagonalScale(k, c, n, q.x, q.z, m, ScaleQuat(k, q).x, ScaleQuat(k, q).z, ScaledFormula(q, n).r1.y, ScaledFormula(ScaleQuat(k, q), m).r1.y);
  }

  lemma ScaledFormulaScale12(k: real, c: real, q: Quat, n: real, m: real)
    requires IsSquare(c, k) && IsProduct(m, c, n)
    ensures ScaledFormula(ScaleQuat(k, q), m).r1.z == Scale(c, ScaledFormula(q, n).r1).z
  {
    FormulaRow1(q, n);
    FormulaRow1(ScaleQuat(k, q), m);
    ScaleQuatComponents(k, q);
    ScaleComponents(c, ScaledFormula(q, n).r1);
    OffDiagonalScaleMinus(k, c, q.y, q.z, q.x, q.w, ScaleQuat(k, q).y, ScaleQuat(k, q).z, ScaleQuat(k, q).x, ScaleQuat(k, q).w, ScaledFormula(q, n).r1.z, ScaledFormula(ScaleQuat(k, q), m).r1.z);
  }

  lemma ScaledFormulaScale20(k: real, c: real, q: Quat, n: real, m: real)
    requires IsSquare(c, k) && IsProduct(m, c, n)
    ensures ScaledFormula(ScaleQuat(k, q), m).r2.x == Scale(c, ScaledFormula(q, n).r2).x
  {
    FormulaRow2(q, n);
    FormulaRow2(ScaleQuat(k, q), m);
    ScaleQuatComponents(k, q);
    ScaleComponents(c, ScaledFormula(q, n).r2);
    OffDiagonalScaleMinus(k, c, q.x, q.z, q.y, q.w, ScaleQuat(k, q).x, ScaleQuat(k, q).z, ScaleQuat(k, q).y, ScaleQuat(k, q).w, ScaledFormula(q, n).r2.x, ScaledFormula(ScaleQuat(k, q), m).r2.x);
  }

  lemma ScaledFormulaScale21(k: real, c: real, q: Quat, n: real, m: real)
    requires IsSquare(c, k) && IsProduct(m, c, n)
    ensures ScaledFormula(ScaleQuat(k, q), m).r2.y == Scale(c, ScaledFormula(q, n).r2).y
  {
    FormulaRow2(q, n);
    FormulaRow2(ScaleQuat(k, q), m);
    ScaleQuatComponents(k, q);
    ScaleComponents(c, ScaledFormula(q, n).r2);
    OffDiagonalScalePlus(k, c, q.y, q.z, q.x, q.w, ScaleQuat(k, q).y, ScaleQuat(k, q).z, ScaleQuat(k, q).x, ScaleQuat(k, q).w, ScaledFormula(q, n).r2.y, ScaledFormula(ScaleQuat(k, q), m).r2.y);
  }

  lemma ScaledFormulaScale22(k: real, c: real, q: Quat, n: real, m: real)
    requires IsSquare(c, k) && IsProduct(m, c, n)
    ensures ScaledFormula(ScaleQuat(k, q), m).r2.z == Scale(c, ScaledFormula(q, n).r2).z
  {
    FormulaRow2(q, n);
    FormulaRow2(ScaleQuat(k, q), m);
    ScaleQuatComponents(k, q);
    ScaleComponents(c, ScaledFormula(q, n).r2);
    DiagonalScale(k, c, n, q.x, q.y, m, ScaleQuat(k, q).x, ScaleQuat(k, q).y, ScaledFormula(q, n).r2.z, ScaledFormula(ScaleQuat(k, q), m).r2.z);
  }

  /** The scaled formula of `k·q` with `n` scaled by `c = k²` is `c` times that of `q`. */
  lemma ScaledFormulaScale(k: real, c: real, q: Quat, n: real, m: real)
    requires IsSquare(c, k) && IsProduct(m, c, n)
    ensures ScaledFormula(ScaleQuat(k, q), m) == ScaleMat(c, ScaledFormula(q, n))
  {
    ScaleMatRows(c, ScaledFormula(q, n));
    ScaledFormulaScale00(k, c, q, n, m); ScaledFormulaScale01(k, c, q, n, m); ScaledFormulaScale02(k, c, q, n, m);
    ScaledFormulaScale10(k, c, q, n, m); ScaledFormulaScale11(k, c, q, n, m); ScaledFormulaScale12(k, c, q, n, m);
    ScaledFormulaScale20(k, c, q, n, m); ScaledFormulaScale21(k, c, q, n, m); ScaledFormulaScale22(k, c, q, n, m);
  }

  // ----- conjugation -----

  lemma ScaledFormulaConjugate00(q: Quat, n: real)
    ensures ScaledFormula(Conjugate(q), n).r0.x == Transpose(ScaledFormula(q, n)).r0.x
  {
    FormulaRow0(Conjugate(q), n);
    FormulaRow0(q, n);
    ConjugateComponents(q);
    TransposeRows(ScaledFormula(q, n));
    ConjugateDiagonal(n, q.y, q.z, Conjugate(q).y, Conjugate(q).z, ScaledFormula(q, n).r0.x, ScaledFormula(Conjugate(q), n).r0.x);
  }

  lemma ScaledFormulaConjugate01(q: Quat, n: real)
    ensures ScaledFormula(Conjugate(q), n).r0.y == Transpose(ScaledFormula(q, n)).r0.y
  {
    FormulaRow0(Conjugate(q), n);
    FormulaRow1(q, n);
    ConjugateComponents(q);
    TransposeRows(ScaledFormula(q, n));
    ConjugateOffDiagonalMinus(q.x, q.y, q.z, q.w, Conjugate(q).x, Conjugate(q).y, Conjugate(q).z, ScaledFormula(q, n).r1.x, ScaledFormula(Conjugate(q), n).r0.y);
  }

  lemma ScaledFormulaConjugate02(q: Quat, n: real)
    ensures ScaledFormula(Conjugate(q), n).r0.z == Transpose(ScaledFormula(q, n)).r0.z
  {
    FormulaRow0(Conjugate(q), n);
    FormulaRow2(q, n);
    ConjugateComponents(q);
    TransposeRows(ScaledFormula(q, n));
    ConjugateOffDiagonalPlus(q.x, q.z, q.y, q.w, Conjugate(q).x, Conjugate(q).z, Conjugate(q).y, ScaledFormula(q, n).r2.x, ScaledFormula(Conjugate(q), n).r0.z);
  }

  lemma ScaledFormulaConjugateRow0(q: Quat, n: real)
    ensures ScaledFormula(Conjugate(q), n).r0 == Transpose(ScaledFormula(q, n)).r0
  {
    ScaledFormulaConjugate00(q, n);
    ScaledFormulaConjugate01(q, n);
    ScaledFormulaConjugate02(q, n);
  }

  lemma ScaledFormulaConjugate10(q: Quat, n: real)
    ensures ScaledFormula(Conjugate(q), n).r1.x == Transpose(ScaledFormula(q, n)).r1.x
  {
    FormulaRow1(Conjugate(q), n);
    FormulaRow0(q, n);
    ConjugateComponents(q);
    TransposeRows(ScaledFormula(q, n));
    ConjugateOffDiagonalPlus(q.x, q.y, q.z, q.w, Conjugate(q).x, Conjugate(q).y, Conjugate(q).z, ScaledFormula(q, n).r0.y, ScaledFormula(Conjugate(q), n).r1.x);
  }

  lemma ScaledFormulaConjugate11(q: Quat, n: real)
    ensures ScaledFormula(Conjugate(q), n).r1.y == Transpose(ScaledFormula(q, n)).r1.y
  {
    FormulaRow1(Conjugate(q), n);
    FormulaRow1(q, n);
    ConjugateComponents(q);
    TransposeRows(ScaledFormula(q, n));
    ConjugateDiagonal(n, q.x, q.z, Conjugate(q).x, Conjugate(q).z, ScaledFormula(q, n).r1.y, ScaledFormula(Conjugate(q), n).r1.y);
  }

  lemma ScaledFormulaConjugate12(q: Quat, n: real)
    ensures ScaledFormula(Conjugate(q), n).r1.z == Transpose(ScaledFormula(q, n)).r1.z
  {
    FormulaRow1(Conjugate(q), n);
    FormulaRow2(q, n);
    ConjugateComponents(q);
    TransposeRows(ScaledFormula(q, n));
    ConjugateOffDiagonalMinus(q.y, q.z, q.x, q.w, Conjugate(q).y, Conjugate(q).z, Conjugate(q).x, ScaledFormula(q, n).r2.y, ScaledFormula(Conjugate(q), n).r1.z);
  }

  lemma ScaledFormulaConjugateRow1(q: Quat, n: real)
    ensures ScaledFormula(Conjugate(q), n).r1 == Transpose(ScaledFormula(q, n)).r1
  {
    ScaledFormulaConjugate10(q, n);
    ScaledFormulaConjugate11(q, n);
    ScaledFormulaConjugate12(q, n);
  }

  lemma ScaledFormulaConjugate20(q: Quat, n: real)
    ensures ScaledFormula(Conjugate(q), n).r2.x == Transpose(ScaledFormula(q, n)).r2.x
  {
    FormulaRow2(Conjugate(q), n);
    FormulaRow0(q, n);
    ConjugateComponents(q);
    TransposeRows(ScaledFormula(q, n));
    ConjugateOffDiagonalMinus(q.x, q.z, q.y, q.w, Conjugate(q).x, Conjugate(q).z, Conjugate(q).y, ScaledFormula(q, n).r0.z, ScaledFormula(Conjugate(q), n).r2.x);
  }

  lemma ScaledFormulaConjugate21(q: Quat, n: real)
    ensures ScaledFormula(Conjugate(q), n).r2.y == Transpose(ScaledFormula(q, n)).r2.y
  {
    FormulaRow2(Conjugate(q), n);
    FormulaRow1(q, n);
    ConjugateComponents(q);
    TransposeRows(ScaledFormula(q, n));
    ConjugateOffDiagonalPlus(q.y, q.z, q.x, q.w, Conjugate(q).y, Conjugate(q).z, Conjugate(q).x, ScaledFormula(q, n).r1.z, ScaledFormula(Conjugate(q), n).r2.y);
  }

  lemma ScaledFormulaConjugate22(q: Quat, n: real)
    ensures ScaledFormula(Conjugate(q), n).r2.z == Transpose(ScaledFormula(q, n)).r2.z
  {
    FormulaRow2(Conjugate(q), n);
    FormulaRow2(q, n);
    ConjugateComponents(q);
    TransposeRows(ScaledFormula(q, n));
    ConjugateDiagonal(n, q.x, q.y, Conjugate(q).x, Conjugate(q).y, ScaledFormula(q, n).r2.z, ScaledFormula(Conjugate(q), n).r2.z);
  }

  lemma ScaledFormulaConjugateRow2(q: Quat, n: real)
    ensures ScaledFormula(Conjugate(q), n).r2 == Transpose(ScaledFormula(q, n)).r2
  {
    ScaledFormulaConjugate20(q, n);
    ScaledFormulaConjugate21(q, n);
    ScaledFormulaConjugate22(q, n);
  }

  /** Negating the vector part transposes the scaled formula. */
  lemma ScaledFormulaConjugate(q: Quat, n: real)
    ensures ScaledFormula(Conjugate(q), n) == Transpose(ScaledFormula(q, n))
  {
    ScaledFormulaConjugateRow0(q, n);
    ScaledFormulaConjugateRow1(q, n);
    ScaledFormulaConjugateRow2(q, n);
  }

  // ----- orthonormal rows -----

  /** Scaling a vector of squared length `n²` by `s = 1/n` gives a unit vector. */
  lemma RowUnit(s: real, n: real, r: Vec3)
    requires s * n == 1.0 && Dot(r, r) == n * n
    ensures Dot(Scale(s, r), Scale(s, r)) == 1.0
  {
    assert IsProduct(s * s, s, s);
    DotScaleBoth(s, r, s, r, s * s);
    UnitProduct(s, n, s * s, Dot(r, r));
  }

  /** Scaling two orthogonal vectors by the same factor keeps them orthogonal. */
  lemma RowOrthogonal(s: real, r: Vec3, t: Vec3)
    requires Dot(r, t) == 0.0
    ensures Dot(Scale(s, r), Scale(s, t)) == 0.0
  {
    assert IsProduct(s * s, s, s);
    DotScaleBoth(s, r, s, t, s * s);
    ZeroProduct(s * s, Dot(r, t));
  }

  lemma FormulaGram00(q: Quat)
    ensures Dot(ScaledFormula(q, NormSq(q)).r0, ScaledFormula(q, NormSq(q)).r0) == NormSq(q) * NormSq(q)
  {
    DotComponents(ScaledFormula(q, NormSq(q)).r0, ScaledFormula(q, NormSq(q)).r0);
    FormulaRow0(q, NormSq(q));
    NormSqComponents(q);
    Gram00(q.w, q.x, q.y, q.z, NormSq(q),
      ScaledFormula(q, NormSq(q)).r0.x, ScaledFormula(q, NormSq(q)).r0.y, ScaledFormula(q, NormSq(q)).r0.z);
  }

  lemma ToMatrixDot00(q: Quat)
    requires NormSq(q) > 0.0
    ensures Dot(ToMatrix(q).r0, ToMatrix(q).r0) == 1.0
  {
    ToMatrixPositive(q);
    ScaleMatRows(1.0 / NormSq(q), ScaledFormula(q, NormSq(q)));
    FormulaGram00(q);
    Reciprocal(NormSq(q));
    RowUnit(1.0 / NormSq(q), NormSq(q), ScaledFormula(q, NormSq(q)).r0);
  }

  lemma FormulaGram11(q: Quat)
    ensures Dot(ScaledFormula(q, NormSq(q)).r1, ScaledFormula(q, NormSq(q)).r1) == NormSq(q) * NormSq(q)
  {
    DotComponents(ScaledFormula(q, NormSq(q)).r1, ScaledFormula(q, NormSq(q)).r1);
    FormulaRow1(q, NormSq(q));
    NormSqComponents(q);
    Gram11(q.w, q.x, q.y, q.z, NormSq(q),
      ScaledFormula(q, NormSq(q)).r1.x, ScaledFormula(q, NormSq(q)).r1.y, ScaledFormula(q, NormSq(q)).r1.z);
  }

  lemma ToMatrixDot11(q: Quat)
    requires NormSq(q) > 0.0
    ensures Dot(ToMatrix(q).r1, ToMatrix(q).r1) == 1.0
  {
    ToMatrixPositive(q);
    ScaleMatRows(1.0 / NormSq(q), ScaledFormula(q, NormSq(q)));
    FormulaGram11(q);
    Reciprocal(NormSq(q));
    RowUnit(1.0 / NormSq(q), NormSq(q), ScaledFormula(q, NormSq(q)).r1);
  }

  lemma FormulaGram22(q: Quat)
    ensures Dot(ScaledFormula(q, NormSq(q)).r2, ScaledFormula(q, NormSq(q)).r2) == NormSq(q) * NormSq(q)
  {
    DotComponents(ScaledFormula(q, NormSq(q)).r2, ScaledFormula(q, NormSq(q)).r2);
    FormulaRow2(q, NormSq(q));
    NormSqComponents(q);
    Gram22(q.w, q.x, q.y, q.z, NormSq(q),
      ScaledFormula(q, NormSq(q)).r2.x, ScaledFormula(q, NormSq(q)).r2.y, ScaledFormula(q, NormSq(q)).r2.z);
  }

  lemma ToMatrixDot22(q: Quat)
    requires NormSq(q) > 0.0
    ensures Dot(ToMatrix(q).r2, ToMatrix(q).r2) == 1.0
  {
    ToMatrixPositive(q);
    ScaleMatRows(1.0 / NormSq(q), ScaledFormula(q, NormSq(q)));
    FormulaGram22(q);
    Reciprocal(NormSq(q));
    RowUnit(1.0 / NormSq(q), NormSq(q), ScaledFormula(q, NormSq(q)).r2);
  }

  lemma FormulaGram01(q: Quat)
    ensures Dot(ScaledFormula(q, NormSq(q)).r0, ScaledFormula(q, NormSq(q)).r1) == 0.0
  {
    DotComponents(ScaledFormula(q, NormSq(q)).r0, ScaledFormula(q, NormSq(q)).r1);
    FormulaRow0(q, NormSq(q));
    FormulaRow1(q, NormSq(q));
    NormSqComponents(q);
    Gram01(q.w, q.x, q.y, q.z, NormSq(q),
      ScaledFormula(q, NormSq(q)).r0.x, ScaledFormula(q, NormSq(q)).r0.y, ScaledFormula(q, NormSq(q)).r0.z, ScaledFormula(q, NormSq(q)).r1.x, ScaledFormula(q, NormSq(q)).r1.y, ScaledFormula(q, NormSq(q)).r1.z);
  }

  lemma ToMatrixDot01(q: Quat)
    requires NormSq(q) > 0.0
    ensures Dot(ToMatrix(q).r0, ToMatrix(q).r1) == 0.0
  {
    ToMatrixPositive(q);
    ScaleMatRows(1.0 / NormSq(q), ScaledFormula(q, NormSq(q)));
    FormulaGram01(q);
    RowOrthogonal(1.0 / NormSq(q), ScaledFormula(q, NormSq(q)).r0, ScaledFormula(q, NormSq(q)).r1);
  }

  lemma FormulaGram02(q: Quat)
    ensures Dot(ScaledFormula(q, NormSq(q)).r0, ScaledFormula(q, NormSq(q)).r2) == 0.0
  {
    DotComponents(ScaledFormula(q, NormSq(q)).r0, ScaledFormula(q, NormSq(q)).r2);
    FormulaRow0(q, NormSq(q));
    FormulaRow2(q, NormSq(q));
    NormSqComponents(q);
    Gram02(q.w, q.x, q.y, q.z, NormSq(q),
      ScaledFormula(q, NormSq(q)).r0.x, ScaledFormula(q, NormSq(q)).r0.y, ScaledFormula(q, NormSq(q)).r0.z, ScaledFormula(q, NormSq(q)).r2.x, ScaledFormula(q, NormSq(q)).r2.y, ScaledFormula(q, NormSq(q)).r2.z);
  }

  lemma ToMatrixDot02(q: Quat)
    requires NormSq(q) > 0.0
    ensures Dot(ToMatrix(q).r0, ToMatrix(q).r2) == 0.0
  {
    ToMatrixPositive(q);
    ScaleMatRows(1.0 / NormSq(q), ScaledFormula(q, NormSq(q)));
    FormulaGram02(q);
    RowOrthogonal(1.0 / NormSq(q), ScaledFormula(q, NormSq(q)).r0, ScaledFormula(q, NormSq(q)).r2);
  }

  lemma FormulaGram12(q: Quat)
    ensures Dot(ScaledFormula(q, NormSq(q)).r1, ScaledFormula(q, NormSq(q)).r2) == 0.0
  {
    DotComponents(ScaledFormula(q, NormSq(q)).r1, ScaledFormula(q, NormSq(q)).r2);
    FormulaRow1(q, NormSq(q));
    FormulaRow2(q, NormSq(q));
    NormSqComponents(q);
    Gram12(q.w, q.x, q.y, q.z, NormSq(q),
      ScaledFormula(q, NormSq(q)).r1.x, ScaledFormula(q, NormSq(q)).r1.y, ScaledFormula(q, NormSq(q)).r1.z, ScaledFormula(q, NormSq(q)).r2.x, ScaledFormula(q, NormSq(q)).r2.y, ScaledFormula(q, NormSq(q)).r2.z);
  }

  lemma ToMatrixDot12(q: Quat)
    requires NormSq(q) > 0.0
    ensures Dot(ToMatrix(q).r1, ToMatrix(q).r2) == 0.0
  {
    ToMatrixPositive(q);
    ScaleMatRows(1.0 / NormSq(q), ScaledFormula(q, NormSq(q)));
    FormulaGram12(q);
    RowOrthogonal(1.0 / NormSq(q), ScaledFormula(q, NormSq(q)).r1, ScaledFormula(q, NormSq(q)).r2);
  }

  // ----- the rotation matrix -----

  /** The rotation matrix has orthonormal rows when the squared norm is positive. */
  lemma ToMatrixOrthonormalRows(q: Quat)
    requires NormSq(q) > 0.0
    ensures MatMul(ToMatrix(q), Transpose(ToMatrix(q))) == I3
  {
    ToMatrixDot00(q);
    ToMatrixDot11(q);
    ToMatrixDot22(q);
    ToMatrixDot01(q);
    ToMatrixDot02(q);
    ToMatrixDot12(q);
    OrthonormalRows(ToMatrix(q));
  }

  lemma IdentityOrthonormal()
    ensures MatMul(I3, Transpose(I3)) == I3
  {
    assert Transpose(I3) == I3;
    MatMulIdentity(I3);
  }

  /** `R·Rᵀ = I` for the matrix of every quaternion, the zero quaternion included. */
  lemma ToMatrixOrthogonalRows(q: Quat)
    ensures MatMul(ToMatrix(q), Transpose(ToMatrix(q))) == I3
  {
    NormSqSign(q);
    if NormSq(q) > 0.0 {
      ToMatrixOrthonormalRows(q);
    } else {
      IdentityOrthonormal();
    }
  }

  lemma ToMatrixConjugatePositive(q: Quat)
    requires NormSq(q) > 0.0 && NormSq(Conjugate(q)) == NormSq(q)
    ensures ToMatrix(Conjugate(q)) == Transpose(ToMatrix(q))
  {
    ToMatrixPositive(q);
    ToMatrixPositive(Conjugate(q));
    ScaledFormulaConjugate(q, NormSq(q));
    TransposeScale(1.0 / NormSq(q), ScaledFormula(q, NormSq(q)));
  }

  lemma ToMatrixConjugateZero(q: Quat)
    requires q == ZeroQuat
    ensures ToMatrix(Conjugate(q)) == Transpose(ToMatrix(q))
  {
    assert Conjugate(q) == ZeroQuat;
    assert Transpose(I3) == I3;
  }

  /** The matrix of the conjugate quaternion is the transpose. */
  lemma ToMatrixConjugate(q: Quat)
    ensures ToMatrix(Conjugate(q)) == Transpose(ToMatrix(q))
  {
    NormSqSign(q);
    NormSqConjugate(q);
    if q == ZeroQuat {
      ToMatrixConjugateZero(q);
    } else {
      ToMatrixConjugatePositive(q);
    }
  }

  /**
   * The matrix of every quaternion is orthogonal: `R·Rᵀ = I` and `Rᵀ·R = I`.
   */
  lemma ToMatrixOrthogonal(q: Quat)
    ensures MatMul(ToMatrix(q), Transpose(ToMatrix(q))) == I3
    ensures MatMul(Transpose(ToMatrix(q)), ToMatrix(q)) == I3
  {
    ToMatrixOrthogonalRows(q);
    ToMatrixOrthogonalRows(Conjugate(q));
    ToMatrixConjugate(q);
    TransposeTranspose(ToMatrix(q));
  }

  /** `(1/m)·P(k·q, m) = (1/n)·P(q, n)` when `m = c·n` and `c = k²`. */
  lemma ScaledFormulaCancel(k: real, c: real, q: Quat, n: real, m: real)
    requires IsSquare(c, k) && IsProduct(m, c, n) && n > 0.0 && m > 0.0
    ensures ScaleMat(1.0 / m, ScaledFormula(ScaleQuat(k, q), m)) == ScaleMat(1.0 / n, ScaledFormula(q, n))
  {
    ScaledFormulaScale(k, c, q, n, m);
    InverseCancel(c, n, m);
    ScaleMatScale(1.0 / m, c, 1.0 / n, ScaledFormula(q, n));
  }

  lemma ToMatrixScalePositive(k: real, q: Quat)
    requires k != 0.0 && NormSq(q) > 0.0
    ensures ToMatrix(ScaleQuat(k, q)) == ToMatrix(q)
  {
    var c := k * k;
    assert IsSquare(c, k);
    NormSqScaleQuat(k, c, q);
    SquarePositive(k, c);
    ProductPositive(NormSq(ScaleQuat(k, q)), c, NormSq(q));
    ToMatrixPositive(q);
    ToMatrixPositive(ScaleQuat(k, q));
    ScaledFormulaCancel(k, c, q, NormSq(q), NormSq(ScaleQuat(k, q)));
  }

  /** The matrix of `k·q` is the matrix of `q` for every non-zero `k`. */
  lemma ToMatrixScaleInvariant(k: real, q: Quat)
    requires k != 0.0
    ensures ToMatrix(ScaleQuat(k, q)) == ToMatrix(q)
  {
    NormSqSign(q);
    if q == ZeroQuat {
      assert ScaleQuat(k, q) == ZeroQuat;
    } else {
      ToMatrixScalePositive(k, q);
    }
  }

  /** The identity quaternion gives the identity matrix. */
  lemma ToMatrixIdentity()
    ensures ToMatrix(Identity) == I3
  {
    assert NormSq(Identity) == 1.0;
  }

  // ----- the cross-product rotation -----

  /** Away from the degenerate threshold, the rotation is `v + (1/N)·Turn(q, v)`. */
  lemma RotatePositive(q: Quat, v: Vec3)
    requires !IsDegenerate(q)
    ensures NormSq(q) > 0.0
    ensures Rotate(v, q) == Add(v, Scale(1.0 / NormSq(q), Turn(q, v)))
  {
  }

  /** For every quaternion above the threshold, the cross-product rotation equals multiplying by the rotation matrix. */
  lemma RotateMatchesMatrix(q: Quat, v: Vec3)
    requires !IsDegenerate(q)
    ensures Rotate(v, q) == MatVec(ToMatrix(q), v)
  {
    RotatePositive(q, v);
    ToMatrixPositive(q);
    MatVecScale(1.0 / NormSq(q), ScaledFormula(q, NormSq(q)), v);
    ScaledFormulaApply(q, NormSq(q), v);
    InverseScaleVec(NormSq(q), v, Turn(q, v));
  }

  /** The cross-product rotation preserves the length of every vector, for every quaternion. */
  lemma RotatePreservesLength(q: Quat, v: Vec3)
    ensures LengthSq(Rotate(v, q)) == LengthSq(v)
  {
    if !IsDegenerate(q) {
      RotateMatchesMatrix(q, v);
      ToMatrixOrthogonal(q);
      OrthogonalPreservesLength(ToMatrix(q), v);
    }
  }

  /** Rotating by `q` and then by its conjugate gives the vector back. */
  lemma RotateConjugateInverse(q: Quat, v: Vec3)
    requires !IsDegenerate(q)
    ensures Rotate(Rotate(v, q), Conjugate(q)) == v
  {
    NormSqConjugate(q);
    RotateMatchesMatrix(q, v);
    RotateMatchesMatrix(Conjugate(q), Rotate(v, q));
    ToMatrixConjugate(q);
    ToMatrixOrthogonal(q);
    MatVecMatMul(Transpose(ToMatrix(q)), ToMatrix(q), v);
    MatVecIdentity(v);
  }

  /** Scaling a quaternion by a non-zero `k` does not change the rotation it applies. */
  lemma RotateScaleInvariant(k: real, q: Quat, v: Vec3)
    requires !IsDegenerate(q) && !IsDegenerate(ScaleQuat(k, q))
    ensures Rotate(v, ScaleQuat(k, q)) == Rotate(v, q)
  {
    RotatePositive(q, v);
    RotatePositive(ScaleQuat(k, q), v);
    var c := k * k;
    assert IsSquare(c, k);
    NormSqScaleQuat(k, c, q);
    TurnScale(k, c, q, v);
    InverseCancel(c, NormSq(q), NormSq(ScaleQuat(k, q)));
    ScaleScale(1.0 / NormSq(ScaleQuat(k, q)), c, 1.0 / NormSq(q), Turn(q, v));
  }

  lemma TurnIdentity(v: Vec3)
    ensures Turn(Identity, v) == Zero
  {
    TurnInner(Identity, v);
    TurnOuter(Identity, Cross(VectorPart(Identity), v));
    TurnComponents(Identity, v);
  }

  lemma AddScaleZero(s: real, v: Vec3)
    ensures Add(v, Scale(s, Zero)) == v
  {
    ScaleComponents(s, Zero);
    AddComponents(v, Scale(s, Zero));
  }

  /** The identity quaternion leaves every vector where it is. */
  lemma RotateIdentity(v: Vec3)
    ensures Rotate(v, Identity) == v
  {
    assert NormSq(Identity) == 1.0;
    RotatePositive(Identity, v);
    TurnIdentity(v);
    AddScaleZero(1.0 / NormSq(Identity), v);
  }

  /**
   * Below the threshold the two conversions part ways: for the tiny
   * quaternion `(0, 1e-10, 0, 0)` the cross-product rotation returns `v`
   * unchanged, while the matrix still normalises and turns `(0, 1, 0)`
   * half a turn about the x axis.
   */
  lemma TinyQuaternionDisagreement()
    ensures var q, v := Quat(0.0, 1.0 / 10000000000.0, 0.0, 0.0), Vec3(0.0, 1.0, 0.0);
      Rotate(v, q) == v && MatVec(ToMatrix(q), v) == Vec3(0.0, -1.0, 0.0)
  {
    var q := Quat(0.0, 1.0 / 10000000000.0, 0.0, 0.0);
    var n := 1.0 / 100000000000000000000.0;
    assert NormSq(q) == n;
    FormulaRow0(q, n);
    FormulaRow1(q, n);
    FormulaRow2(q, n);
    assert ScaledFormula(q, n) == Mat3(Vec3(n, 0.0, 0.0), Vec3(0.0, -n, 0.0), Vec3(0.0, 0.0, -n));
    assert ToMatrix(q) == Mat3(Vec3(1.0, 0.0, 0.0), Vec3(0.0, -1.0, 0.0), Vec3(0.0, 0.0, -1.0));
  }
}
