/**
 * Identities over plain real variables that the rotation proofs instantiate.
 *
 * Every lemma here mentions only real parameters. Intermediate quantities are
 * passed as separate parameters tied down by a `requires` (for example `p1`
 * for a cross-product component), so that a caller can supply the matching
 * field of a vector or matrix and the identity lines up with the unfolded
 * definitions term for term. No contract multiplies a product or a sum:
 * such a quantity always gets a name of its own (`c` for `k²`, `st` for
 * `s·t`), so a caller's terms match without rewriting nested products.
 * Facts that travel between several lemmas are wrapped in the predicates
 * `IsSquare` and `IsProduct`, which callers pass along unopened.
 */
module RealIdentities {

  /** `c` is the square of `k`. */
  predicate IsSquare(c: real, k: real)
  {
    c == k * k
  }

  /** `m` is the product of `a` and `b`. */
  predicate IsProduct(m: real, a: real, b: real)
  {
    m == a * b
  }

  // ----- signs and reciprocals -----

  /** Dividing a square by its non-zero root gives the root back. */
  lemma SquareOverRoot(a: real, s: real)
    requires s == a * a
    ensures a != 0.0 ==> s * (1.0 / a) == a
  {
    if a != 0.0 {
      assert a * (1.0 / a) == 1.0;
    }
  }

  /** A square that is zero has a zero root. */
  lemma SquareZero(a: real, s: real)
    requires s == a * a && s == 0.0
    ensures a == 0.0
  {
    SquareOverRoot(a, s);
  }

  /** A square is never negative. */
  lemma SquareNonNegative(a: real, s: real)
    requires s == a * a
    ensures s >= 0.0
  {
  }

  /** The square of a non-zero number is positive. */
  lemma SquarePositive(a: real, s: real)
    requires a != 0.0 && IsSquare(s, a)
    ensures s > 0.0
  {
    SquareNonNegative(a, s);
    if s == 0.0 {
      SquareZero(a, s);
    }
  }

  /** A sum of four squares is zero only when every root is zero. */
  lemma FourSquaresZero(w: real, x: real, y: real, z: real, n: real)
    requires n == w * w + x * x + y * y + z * z && n == 0.0
    ensures w == 0.0 && x == 0.0 && y == 0.0 && z == 0.0
  {
    assert w * w == 0.0 && x * x == 0.0 && y * y == 0.0 && z * z == 0.0;
    SquareZero(w, w * w);
    SquareZero(x, x * x);
    SquareZero(y, y * y);
    SquareZero(z, z * z);
  }

  lemma Reciprocal(n: real)
    requires n > 0.0
    ensures (1.0 / n) * n == 1.0
  {
  }

  /** `(1/n)·s = a + (1/n)·t` when `s = n·a + t` and `n > 0`. */
  lemma InverseScale(n: real, a: real, t: real, na: real, s: real)
    requires n > 0.0 && na == n * a && s == na + t
    ensures (1.0 / n) * s == a + (1.0 / n) * t
  {
  }

  /** `1/n = (1/m)·c` when `m = c·n` with `m` and `n` positive. */
  lemma InverseCancel(c: real, n: real, m: real)
    requires IsProduct(m, c, n) && m > 0.0 && n > 0.0
    ensures IsProduct(1.0 / n, 1.0 / m, c)
  {
  }

  /** `s²·n² = 1` when `s·n = 1`. */
  lemma UnitProduct(s: real, n: real, ss: real, d: real)
    requires s * n == 1.0 && ss == s * s && d == n * n
    ensures ss * d == 1.0
  {
  }

  /** A product with a zero factor is zero. */
  lemma ZeroProduct(a: real, b: real)
    requires b == 0.0
    ensures a * b == 0.0
  {
  }

  /** `s·(t·a) = (s·t)·a`, with both inner products named. */
  lemma ProductAssoc(s: real, t: real, a: real, st: real, ta: real)
    requires IsProduct(st, s, t) && ta == t * a
    ensures s * ta == st * a
  {
  }

  /** `(k·a)·b = k·(a·b)`, with both inner products named. */
  lemma ScaledProduct(k: real, a: real, b: real, ka: real, ab: real)
    requires ka == k * a && ab == a * b
    ensures ka * b == k * ab
  {
  }

  /** `(s·a)·(t·b) = (s·t)·(a·b)`, with every inner product named. */
  lemma ProductScaleBoth(s: real, t: real, a: real, b: real, sa: real, tb: real, st: real, ab: real)
    requires sa == s * a && tb == t * b && IsProduct(st, s, t) && ab == a * b
    ensures sa * tb == st * ab
  {
  }

  /** `k·a + k·b + k·c = k·s` when `s = a + b + c`. */
  lemma Distribute3(k: real, a: real, b: real, c: real, s: real)
    requires s == a + b + c
    ensures k * a + k * b + k * c == k * s
  {
  }

  /** `k·a + k·b + k·c + k·d = k·s` when `s = a + b + c + d`. */
  lemma Distribute4(k: real, a: real, b: real, c: real, d: real, s: real)
    requires s == a + b + c + d
    ensures k * a + k * b + k * c + k * d == k * s
  {
  }

  /** A product of two positive numbers is positive. */
  lemma ProductPositive(m: real, a: real, b: real)
    requires IsProduct(m, a, b) && a > 0.0 && b > 0.0
    ensures m > 0.0
  {
  }

  // ----- scaling a quaternion by k (c stands for k²) -----

  /** `(k·a)·(k·b) = c·(a·b)` when `c = k²`. */
  lemma ProductScale(k: real, c: real, a: real, b: real, ka: real, kb: real, ab: real)
    requires IsSquare(c, k) && ka == k * a && kb == k * b && ab == a * b
    ensures ka * kb == c * ab
  {
  }

  /** The squared norm of `k·q` is `c` times that of `q`. */
  lemma NormSqScale(k: real, c: real, w: real, x: real, y: real, z: real, n: real,
                    kw: real, kx: real, ky: real, kz: real, m: real)
    requires IsSquare(c, k) && n == w * w + x * x + y * y + z * z
    requires kw == k * w && kx == k * x && ky == k * y && kz == k * z
    requires m == kw * kw + kx * kx + ky * ky + kz * kz
    ensures IsProduct(m, c, n)
  {
    ProductScale(k, c, w, w, kw, kw, w * w);
    ProductScale(k, c, x, x, kx, kx, x * x);
    ProductScale(k, c, y, y, ky, ky, y * y);
    ProductScale(k, c, z, z, kz, kz, z * z);
    Distribute4(c, w * w, x * x, y * y, z * z, n);
  }

  /** A diagonal entry `n − 2a² − 2b²` of the scaled formula of `k·q`, taken with `m = c·n`, is `c` times the original. */
  lemma DiagonalScale(k: real, c: real, n: real, a: real, b: real, m: real, ka: real, kb: real, f: real, g: real)
    requires IsSquare(c, k) && IsProduct(m, c, n) && ka == k * a && kb == k * b
    requires f == n - 2.0 * a * a - 2.0 * b * b && g == m - 2.0 * ka * ka - 2.0 * kb * kb
    ensures g == c * f
  {
    ProductScale(k, c, a, a, ka, ka, a * a);
    ProductScale(k, c, b, b, kb, kb, b * b);
  }

  /** An off-diagonal entry `2ab − 2ed` of the same scaling law. */
  lemma OffDiagonalScaleMinus(k: real, c: real, a: real, b: real, e: real, d: real,
                              ka: real, kb: real, ke: real, kd: real, f: real, g: real)
    requires IsSquare(c, k) && ka == k * a && kb == k * b && ke == k * e && kd == k * d
    requires f == 2.0 * a * b - 2.0 * e * d && g == 2.0 * ka * kb - 2.0 * ke * kd
    ensures g == c * f
  {
    ProductScale(k, c, a, b, ka, kb, a * b);
    ProductScale(k, c, e, d, ke, kd, e * d);
  }

  /** An off-diagonal entry `2ab + 2ed` of the same scaling law. */
  lemma OffDiagonalScalePlus(k: real, c: real, a: real, b: real, e: real, d: real,
                             ka: real, kb: real, ke: real, kd: real, f: real, g: real)
    requires IsSquare(c, k) && ka == k * a && kb == k * b && ke == k * e && kd == k * d
    requires f == 2.0 * a * b + 2.0 * e * d && g == 2.0 * ka * kb + 2.0 * ke * kd
    ensures g == c * f
  {
    ProductScale(k, c, a, b, ka, kb, a * b);
    ProductScale(k, c, e, d, ke, kd, e * d);
  }

  /** A cross-product component `y·c − z·b` is linear in `(y, z)`. */
  lemma CrossComponentScale(k: real, y: real, z: real, b: real, c: real, ky: real, kz: real, p: real, kp: real)
    requires ky == k * y && kz == k * z && p == y * c - z * b && kp == ky * c - kz * b
    ensures kp == k * p
  {
  }

  /** A component `y·p3 − z·p2` of the outer cross product scales by `c = k²` when all four factors scale by `k`. */
  lemma OuterComponentScale(k: real, c: real, y: real, z: real, p2: real, p3: real, ky: real, kz: real,
                            kp2: real, kp3: real, d: real, kd: real)
    requires IsSquare(c, k) && ky == k * y && kz == k * z && kp2 == k * p2 && kp3 == k * p3
    requires d == y * p3 - z * p2 && kd == ky * kp3 - kz * kp2
    ensures kd == c * d
  {
    ProductScale(k, c, y, p3, ky, kp3, y * p3);
    ProductScale(k, c, z, p2, kz, kp2, z * p2);
  }

  /** `2w·p + 2d` scales by `c = k²` when `w` and `p` scale by `k` and `d` by `c`. */
  lemma TurnTermsScale(k: real, c: real, w: real, kw: real, p: real, kp: real, d: real, kd: real, t: real, kt: real)
    requires IsSquare(c, k) && kw == k * w && kp == k * p && kd == c * d
    requires t == (2.0 * w) * p + 2.0 * d && kt == (2.0 * kw) * kp + 2.0 * kd
    ensures kt == c * t
  {
    ProductScale(k, c, w, p, kw, kp, w * p);
  }

  /**
   * One component `t` of the rotation term of `q` and the same component
   * `kt` for `k·q`: `kt = k²·t`. `(x, y, z)` are the vector-part components
   * in cyclic order starting with the one computed, `(a, b, e)` the rotated
   * vector in the same order, `p1, p2, p3` the inner cross product, `d` the
   * outer one, and the `k`-prefixed names the same quantities for `k·q`.
   */
  lemma TurnComponentScale(k: real, c: real, w: real, x: real, y: real, z: real, a: real, b: real, e: real,
                           kw: real, kx: real, ky: real, kz: real,
                           p1: real, p2: real, p3: real, d: real, kp1: real, kp2: real, kp3: real, kd: real,
                           t: real, kt: real)
    requires IsSquare(c, k) && kw == k * w && kx == k * x && ky == k * y && kz == k * z
    requires p1 == y * e - z * b && p2 == z * a - x * e && p3 == x * b - y * a && d == y * p3 - z * p2
    requires kp1 == ky * e - kz * b && kp2 == kz * a - kx * e && kp3 == kx * b - ky * a && kd == ky * kp3 - kz * kp2
    requires t == (2.0 * w) * p1 + 2.0 * d && kt == (2.0 * kw) * kp1 + 2.0 * kd
    ensures kt == c * t
  {
    CrossComponentScale(k, y, z, b, e, ky, kz, p1, kp1);
    CrossComponentScale(k, z, x, e, a, kz, kx, p2, kp2);
    CrossComponentScale(k, x, y, a, b, kx, ky, p3, kp3);
    OuterComponentScale(k, c, y, z, p2, p3, ky, kz, kp2, kp3, d, kd);
    TurnTermsScale(k, c, w, kw, p1, kp1, d, kd, t, kt);
  }

  // ----- the rotation formula -----

  /** Row 0 of the scaled formula (entries `e1, e2, e3`) applied to `(a, b, c)` is `n·a` plus component 0 of the double cross product. */
  lemma FormulaApplyRow0(w: real, x: real, y: real, z: real, n: real, a: real, b: real, c: real,
                         e1: real, e2: real, e3: real, p1: real, p2: real, p3: real, d: real)
    requires e1 == n - 2.0 * y * y - 2.0 * z * z && e2 == 2.0 * x * y - 2.0 * z * w && e3 == 2.0 * x * z + 2.0 * y * w
    requires p1 == y * c - z * b && p2 == z * a - x * c && p3 == x * b - y * a
    requires d == y * p3 - z * p2
    ensures e1 * a + e2 * b + e3 * c == n * a + ((2.0 * w) * p1 + 2.0 * d)
  {
  }

  /** Row 1 of the scaled formula applied to `(a, b, c)`. */
  lemma FormulaApplyRow1(w: real, x: real, y: real, z: real, n: real, a: real, b: real, c: real,
                         e1: real, e2: real, e3: real, p1: real, p2: real, p3: real, d: real)
    requires e1 == 2.0 * x * y + 2.0 * z * w && e2 == n - 2.0 * x * x - 2.0 * z * z && e3 == 2.0 * y * z - 2.0 * x * w
    requires p1 == y * c - z * b && p2 == z * a - x * c && p3 == x * b - y * a
    requires d == z * p1 - x * p3
    ensures e1 * a + e2 * b + e3 * c == n * b + ((2.0 * w) * p2 + 2.0 * d)
  {
  }

  /** Row 2 of the scaled formula applied to `(a, b, c)`. */
  lemma FormulaApplyRow2(w: real, x: real, y: real, z: real, n: real, a: real, b: real, c: real,
                         e1: real, e2: real, e3: real, p1: real, p2: real, p3: real, d: real)
    requires e1 == 2.0 * x * z - 2.0 * y * w && e2 == 2.0 * y * z + 2.0 * x * w && e3 == n - 2.0 * x * x - 2.0 * y * y
    requires p1 == y * c - z * b && p2 == z * a - x * c && p3 == x * b - y * a
    requires d == x * p2 - y * p1
    ensures e1 * a + e2 * b + e3 * c == n * c + ((2.0 * w) * p3 + 2.0 * d)
  {
  }

  // ----- orthonormal rows of the scaled formula -----

  /** Row 0 of the scaled formula has squared length `n²` when `n` is the squared norm. */
  lemma Gram00(w: real, x: real, y: real, z: real, n: real, a: real, b: real, c: real)
    requires n == w * w + x * x + y * y + z * z
    requires a == n - 2.0 * y * y - 2.0 * z * z && b == 2.0 * x * y - 2.0 * z * w && c == 2.0 * x * z + 2.0 * y * w
    ensures a * a + b * b + c * c == n * n
  {
  }

  /** Row 1 has squared length `n²`. */
  lemma Gram11(w: real, x: real, y: real, z: real, n: real, a: real, b: real, c: real)
    requires n == w * w + x * x + y * y + z * z
    requires a == 2.0 * x * y + 2.0 * z * w && b == n - 2.0 * x * x - 2.0 * z * z && c == 2.0 * y * z - 2.0 * x * w
    ensures a * a + b * b + c * c == n * n
  {
  }

  /** Row 2 has squared length `n²`. */
  lemma Gram22(w: real, x: real, y: real, z: real, n: real, a: real, b: real, c: real)
    requires n == w * w + x * x + y * y + z * z
    requires a == 2.0 * x * z - 2.0 * y * w && b == 2.0 * y * z + 2.0 * x * w && c == n - 2.0 * x * x - 2.0 * y * y
    ensures a * a + b * b + c * c == n * n
  {
  }

  /** Rows 0 and 1 are orthogonal. */
  lemma Gram01(w: real, x: real, y: real, z: real, n: real, a0: real, b0: real, c0: real, a1: real, b1: real, c1: real)
    requires n == w * w + x * x + y * y + z * z
    requires a0 == n - 2.0 * y * y - 2.0 * z * z && b0 == 2.0 * x * y - 2.0 * z * w && c0 == 2.0 * x * z + 2.0 * y * w
    requires a1 == 2.0 * x * y + 2.0 * z * w && b1 == n - 2.0 * x * x - 2.0 * z * z && c1 == 2.0 * y * z - 2.0 * x * w
    ensures a0 * a1 + b0 * b1 + c0 * c1 == 0.0
  {
  }

  /** Rows 0 and 2 are orthogonal. */
  lemma Gram02(w: real, x: real, y: real, z: real, n: real, a0: real, b0: real, c0: real, a2: real, b2: real, c2: real)
    requires n == w * w + x * x + y * y + z * z
    requires a0 == n - 2.0 * y * y - 2.0 * z * z && b0 == 2.0 * x * y - 2.0 * z * w && c0 == 2.0 * x * z + 2.0 * y * w
    requires a2 == 2.0 * x * z - 2.0 * y * w && b2 == 2.0 * y * z + 2.0 * x * w && c2 == n - 2.0 * x * x - 2.0 * y * y
    ensures a0 * a2 + b0 * b2 + c0 * c2 == 0.0
  {
  }

  /** Rows 1 and 2 are orthogonal. */
  lemma Gram12(w: real, x: real, y: real, z: real, n: real, a1: real, b1: real, c1: real, a2: real, b2: real, c2: real)
    requires n == w * w + x * x + y * y + z * z
    requires a1 == 2.0 * x * y + 2.0 * z * w && b1 == n - 2.0 * x * x - 2.0 * z * z && c1 == 2.0 * y * z - 2.0 * x * w
    requires a2 == 2.0 * x * z - 2.0 * y * w && b2 == 2.0 * y * z + 2.0 * x * w && c2 == n - 2.0 * x * x - 2.0 * y * y
    ensures a1 * a2 + b1 * b2 + c1 * c2 == 0.0
  {
  }

  // ----- conjugation -----

  /** Negating the vector part leaves a diagonal entry unchanged. */
  lemma ConjugateDiagonal(n: real, a: real, b: real, ca: real, cb: real, f: real, g: real)
    requires ca == -a && cb == -b
    requires f == n - 2.0 * a * a - 2.0 * b * b && g == n - 2.0 * ca * ca - 2.0 * cb * cb
    ensures g == f
  {
  }

  /** Negating the vector part turns an off-diagonal entry `2ab − 2cw` into its mirror `2ab + 2cw`. */
  lemma ConjugateOffDiagonalMinus(a: real, b: real, c: real, w: real, ca: real, cb: real, cc: real, f: real, g: real)
    requires ca == -a && cb == -b && cc == -c
    requires f == 2.0 * a * b + 2.0 * c * w && g == 2.0 * ca * cb - 2.0 * cc * w
    ensures g == f
  {
  }

  /** Negating the vector part turns an off-diagonal entry `2ab + 2cw` into its mirror `2ab − 2cw`. */
  lemma ConjugateOffDiagonalPlus(a: real, b: real, c: real, w: real, ca: real, cb: real, cc: real, f: real, g: real)
    requires ca == -a && cb == -b && cc == -c
    requires f == 2.0 * a * b - 2.0 * c * w && g == 2.0 * ca * cb + 2.0 * cc * w
    ensures g == f
  {
  }

  /** Negating the vector part leaves the squared norm unchanged. */
  lemma ConjugateNormSq(w: real, x: real, y: real, z: real, cx: real, cy: real, cz: real)
    requires cx == -x && cy == -y && cz == -z
    ensures w * w + cx * cx + cy * cy + cz * cz == w * w + x * x + y * y + z * z
  {
  }
}
