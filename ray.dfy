/**
 * A ray is the parametric line p(t) = A + t B (ray.go).
 */
module Rays {
  import opened Vectors

  /** A is the ray's origin, B its direction (not necessarily of unit length). */
  datatype Ray = Ray(A: Vec3, B: Vec3)

  function Origin(r: Ray): Vec3
  {
    r.A
  }

  function Direction(r: Ray): Vec3
  {
    r.B
  }

  /** The point reached at parameter t. */
  function PointAtParameter(r: Ray, t: real): Vec3
  {
    Add(r.A, Mul(r.B, t))
  }

  /** The accessors hand back the two fields unchanged: rebuilding a ray from
      them gives the same ray. */
  lemma AccessorsRebuild(r: Ray)
    ensures Ray(Origin(r), Direction(r)) == r
    ensures Origin(r) == r.A && Direction(r) == r.B
  {
  }

  lemma PointAtZero(r: Ray)
    ensures PointAtParameter(r, 0.0) == Origin(r)
  {
  }

  lemma PointAtOne(r: Ray)
    ensures PointAtParameter(r, 1.0) == Add(Origin(r), Direction(r))
  {
  }

  /** The map t |-> p(t) is affine: moving on by t from p(s) reaches p(s + t). */
  lemma PointAtAffine(r: Ray, s: real, t: real)
    ensures PointAtParameter(r, s + t) == Add(PointAtParameter(r, s), Mul(Direction(r), t))
  {
  }

  /** The displacement from the origin is t times the direction, for every t. */
  lemma PointAtDisplacement(r: Ray, t: real)
    ensures Sub(PointAtParameter(r, t), Origin(r)) == Mul(Direction(r), t)
  {
  }
}
