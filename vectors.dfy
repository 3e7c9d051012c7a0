/**
 * Three-component vectors over the reals: the part of mgl64.Vec3 that the
 * renderer uses (points, directions and RGB colours alike).
 *
 * The square root is not definable in Dafny's real arithmetic, so every
 * operation that needs one takes it as a parameter `sqrt`; lemmas that depend
 * on its meaning require `IsSqrt(sqrt)`.
 */
module Vectors {

  datatype Vec3 = Vec3(x: real, y: real, z: real)

  const Zero: Vec3 := Vec3(0.0, 0.0, 0.0)

  /** What a square root must satisfy on the non-negative reals. */
  ghost predicate IsSqrt(sqrt: real -> real)
  {
    forall a :: 0.0 <= a ==> RootOf(sqrt, a)
  }

  /** sqrt(a) is the non-negative square root of a. (Naming the property
      keeps the solver from applying it to every square root it meets; the
      lemma Root applies it on request.) */
  ghost predicate RootOf(sqrt: real -> real, a: real)
  {
    0.0 <= sqrt(a) && sqrt(a) * sqrt(a) == a
  }

  lemma Root(sqrt: real -> real, a: real)
    requires IsSqrt(sqrt)
    requires 0.0 <= a
    ensures 0.0 <= sqrt(a) && sqrt(a) * sqrt(a) == a
  {
    assert RootOf(sqrt, a);
  }

  /** Floating-point quotient; a zero divisor (an infinity or NaN in IEEE
      arithmetic) yields 0 here. */
  function Quot(a: real, b: real): real
  {
    if b == 0.0 then 0.0 else a / b
  }

  function Add(u: Vec3, v: Vec3): Vec3
  {
    Vec3(u.x + v.x, u.y + v.y, u.z + v.z)
  }

  function Sub(u: Vec3, v: Vec3): Vec3
  {
    Vec3(u.x - v.x, u.y - v.y, u.z - v.z)
  }

  /** Scalar multiplication (mgl64's Vec3.Mul). */
  function Mul(v: Vec3, k: real): Vec3
  {
    Vec3(v.x * k, v.y * k, v.z * k)
  }

  /** Component-wise product, used to attenuate a colour. */
  function Hadamard(u: Vec3, v: Vec3): Vec3
  {
    Vec3(u.x * v.x, u.y * v.y, u.z * v.z)
  }

  function Dot(u: Vec3, v: Vec3): real
  {
    u.x * v.x + u.y * v.y + u.z * v.z
  }

  function LenSqr(v: Vec3): real
  {
    Dot(v, v)
  }

  function Len(sqrt: real -> real, v: Vec3): real
  {
    sqrt(LenSqr(v))
  }

  /** v scaled by the reciprocal of its length; the zero vector maps to itself. */
  function Normalize(sqrt: real -> real, v: Vec3): Vec3
  {
    Mul(v, Quot(1.0, Len(sqrt, v)))
  }

  /** Every colour channel lies in [0,1]. */
  predicate InUnitCube(c: Vec3)
  {
    0.0 <= c.x <= 1.0 && 0.0 <= c.y <= 1.0 && 0.0 <= c.z <= 1.0
  }

  // ---------------------------------------------------------------------
  // Algebra used by the geometric proofs

  lemma DotSub(u: Vec3, v: Vec3, w: Vec3)
    ensures Dot(Sub(u, v), w) == Dot(u, w) - Dot(v, w)
  {
  }

  lemma DotAdd(u: Vec3, v: Vec3, w: Vec3)
    ensures Dot(Add(u, v), w) == Dot(u, w) + Dot(v, w)
  {
  }

  lemma DotMul(u: Vec3, k: real, w: Vec3)
    ensures Dot(Mul(u, k), w) == k * Dot(u, w)
  {
  }

  lemma DotSym(u: Vec3, v: Vec3)
    ensures Dot(u, v) == Dot(v, u)
  {
  }

  lemma LenSqrNonNegative(v: Vec3)
    ensures LenSqr(v) >= 0.0
  {
    assert v.x * v.x >= 0.0 && v.y * v.y >= 0.0 && v.z * v.z >= 0.0;
  }

  /** Only the zero vector has zero squared length. */
  lemma LenSqrPositive(v: Vec3)
    ensures v != Zero ==> LenSqr(v) > 0.0
  {
    if v.x != 0.0 {
      calc {
        LenSqr(v);
        v.x * v.x + v.y * v.y + v.z * v.z;
      >= { assert v.y * v.y >= 0.0 && v.z * v.z >= 0.0; }
        v.x * v.x;
      > 0.0;
      }
    } else if v.y != 0.0 {
      calc {
        LenSqr(v);
        v.x * v.x + v.y * v.y + v.z * v.z;
      >= { assert v.x * v.x >= 0.0 && v.z * v.z >= 0.0; }
        v.y * v.y;
      > 0.0;
      }
    } else if v.z != 0.0 {
      calc {
        LenSqr(v);
        v.x * v.x + v.y * v.y + v.z * v.z;
      >= { assert v.x * v.x >= 0.0 && v.y * v.y >= 0.0; }
        v.z * v.z;
      > 0.0;
      }
    }
  }

  lemma LenSqrMul(v: Vec3, k: real)
    ensures LenSqr(Mul(v, k)) == k * k * LenSqr(v)
  {
    calc {
      LenSqr(Mul(v, k));
      (v.x * k) * (v.x * k) + (v.y * k) * (v.y * k) + (v.z * k) * (v.z * k);
      k * k * (v.x * v.x + v.y * v.y + v.z * v.z);
    }
  }

  /** |u + k w|^2 expanded, for the sphere proofs. */
  lemma LenSqrAddMul(u: Vec3, w: Vec3, k: real)
    ensures LenSqr(Add(u, Mul(w, k))) == LenSqr(u) + 2.0 * k * Dot(u, w) + k * k * LenSqr(w)
  {
    DotAdd(u, Mul(w, k), Add(u, Mul(w, k)));
    DotSym(u, Add(u, Mul(w, k)));
    DotAdd(u, Mul(w, k), u);
    DotSym(Mul(w, k), Add(u, Mul(w, k)));
    DotAdd(u, Mul(w, k), Mul(w, k));
    DotMul(w, k, u);
    DotSym(u, Mul(w, k));
    DotMul(w, k, Mul(w, k));
    DotSym(w, Mul(w, k));
    DotMul(w, k, w);
    DotSym(u, w);
  }

  /** |u - k w|^2 expanded, for the reflection and refraction proofs. */
  lemma LenSqrSubMul(u: Vec3, w: Vec3, k: real)
    ensures LenSqr(Sub(u, Mul(w, k))) == LenSqr(u) - 2.0 * k * Dot(u, w) + k * k * LenSqr(w)
  {
    DotSub(u, Mul(w, k), Sub(u, Mul(w, k)));
    DotSym(u, Sub(u, Mul(w, k)));
    DotSub(u, Mul(w, k), u);
    DotSym(Mul(w, k), Sub(u, Mul(w, k)));
    DotSub(u, Mul(w, k), Mul(w, k));
    DotMul(w, k, u);
    DotSym(u, Mul(w, k));
    DotMul(w, k, Mul(w, k));
    DotSym(w, Mul(w, k));
    DotMul(w, k, w);
    DotSym(u, w);
  }

  /** Lagrange's identity in three dimensions: the Cauchy-Schwarz gap is the
      squared length of the cross product. */
  lemma CauchySchwarz(u: Vec3, v: Vec3)
    ensures Dot(u, v) * Dot(u, v) <= LenSqr(u) * LenSqr(v)
    ensures Dot(u, v) * Dot(u, v) == LenSqr(u) * LenSqr(v) - LenSqr(Cross(u, v))
  {
    LenSqrNonNegative(Cross(u, v));
  }

  function Cross(u: Vec3, v: Vec3): Vec3
  {
    Vec3(u.y * v.z - u.z * v.y, u.z * v.x - u.x * v.z, u.x * v.y - u.y * v.x)
  }

  /** The square root of a number in [0,1] is in [0,1]. */
  lemma SqrtUnitInterval(sqrt: real -> real, a: real)
    requires IsSqrt(sqrt)
    requires 0.0 <= a <= 1.0
    ensures 0.0 <= sqrt(a) <= 1.0
  {
    Root(sqrt, a);
    var s := sqrt(a);
    assert 0.0 <= s && s * s == a;
  }

  lemma MulNonNegative(a: real, b: real)
    requires 0.0 <= a && 0.0 <= b
    ensures 0.0 <= a * b
  {
  }

  lemma MulPositive(a: real, b: real)
    requires 0.0 < a && 0.0 < b
    ensures 0.0 < a * b
  {
  }

  /** Squaring is strictly increasing on the non-negative reals. */
  lemma SquareLess(s: real, t: real)
    requires 0.0 <= s < t
    ensures s * s < t * t
  {
    calc {
      s * s;
    <= { MulNonNegative(s, t - s); }
      s * t;
    < { MulPositive(t, t - s); }
      t * t;
    }
  }

  /** Dividing by a positive number keeps a strict order. */
  lemma DivLess(x: real, y: real, a: real)
    requires a > 0.0 && x < y
    ensures x / a < y / a
  {
    MulPositive(y - x, 1.0 / a);
    assert (y - x) * (1.0 / a) == y / a - x / a;
  }

  /** The square root of a positive number is positive. */
  lemma SqrtPositive(sqrt: real -> real, a: real)
    requires IsSqrt(sqrt)
    requires a > 0.0
    ensures sqrt(a) > 0.0
  {
    Root(sqrt, a);
    var q := sqrt(a);
    assert 0.0 <= q && q * q == a;
    if q == 0.0 {
      assert false;
    }
  }

  /** Both roots (-b - q)/a and (-b + q)/a of the half-b quadratic, where
      q^2 = b^2 - a c, solve a t^2 + 2 b t + c = 0. */
  lemma QuadraticRoot(a: real, b: real, c: real, q: real, t: real)
    requires a != 0.0 && q * q == b * b - a * c
    requires t == (-b - q) / a || t == (-b + q) / a
    ensures a * t * t + 2.0 * b * t + c == 0.0
  {
  }

  /** A non-negative square root is unique. */
  lemma SquareInjective(s: real, t: real)
    requires 0.0 <= s && 0.0 <= t && s * s == t * t
    ensures s == t
  {
    if s < t {
      SquareLess(s, t);
      assert false;
    } else if t < s {
      SquareLess(t, s);
      assert false;
    }
  }

  /** For non-negative a, sqrt(a * a) is a itself. */
  lemma SqrtOfSquare(sqrt: real -> real, a: real)
    requires IsSqrt(sqrt)
    requires 0.0 <= a
    ensures sqrt(a * a) == a
  {
    MulNonNegative(a, a);
    Root(sqrt, a * a);
    SquareInjective(sqrt(a * a), a);
  }

  /** A unit vector has length 1 and is its own normalisation. */
  lemma NormalizeUnit(sqrt: real -> real, v: Vec3)
    requires IsSqrt(sqrt)
    requires LenSqr(v) == 1.0
    ensures Len(sqrt, v) == 1.0
    ensures Normalize(sqrt, v) == v
  {
    SqrtOfSquare(sqrt, 1.0);
    assert LenSqr(v) == 1.0 * 1.0;
  }

  /** Normalize yields a unit vector for any nonzero argument, and the zero
      vector otherwise. */
  lemma NormalizeLength(sqrt: real -> real, v: Vec3)
    requires IsSqrt(sqrt)
    ensures v != Zero ==> LenSqr(Normalize(sqrt, v)) == 1.0
    ensures v == Zero ==> Normalize(sqrt, v) == Zero
  {
    LenSqrPositive(v);
    LenSqrNonNegative(v);
    Root(sqrt, LenSqr(v));
    var l := Len(sqrt, v);
    assert 0.0 <= l && l * l == LenSqr(v);
    if v != Zero {
      assert l != 0.0;
      LenSqrMul(v, 1.0 / l);
      assert (1.0 / l) * (1.0 / l) * (l * l) == 1.0;
    }
  }

  /** Each component of a vector of squared length at most 1 lies in [-1,1]. */
  lemma UnitComponents(v: Vec3)
    requires LenSqr(v) <= 1.0
    ensures -1.0 <= v.x <= 1.0 && -1.0 <= v.y <= 1.0 && -1.0 <= v.z <= 1.0
  {
    assert v.x * v.x >= 0.0 && v.y * v.y >= 0.0 && v.z * v.z >= 0.0;
  }

  /** A normalised vector's components lie in [-1,1]. */
  lemma NormalizeComponents(sqrt: real -> real, v: Vec3)
    requires IsSqrt(sqrt)
    ensures var u := Normalize(sqrt, v);
      -1.0 <= u.x <= 1.0 && -1.0 <= u.y <= 1.0 && -1.0 <= u.z <= 1.0
  {
    NormalizeLength(sqrt, v);
    UnitComponents(Normalize(sqrt, v));
  }
}
