/**
 * The axis-aligned camera of camera.go: screen coordinates (u, v) map
 * affinely to a ray leaving the camera's origin.
 */
module Cameras {
  import opened Vectors
  import opened Rays

  datatype Camera = Camera(LowerLeftCorner: Vec3, Horizontal: Vec3, Vertical: Vec3, Origin: Vec3)

  /** u and v are not clamped: every pair of reals gives a ray. */
  function GetRay(c: Camera, u: real, v: real): Ray
  {
    Ray(c.Origin, Add(c.LowerLeftCorner, Add(Mul(c.Horizontal, u), Mul(c.Vertical, v))))
  }

  /** Every ray starts at the camera's origin. */
  lemma GetRayOrigin(c: Camera, u: real, v: real)
    ensures Rays.Origin(GetRay(c, u, v)) == c.Origin
  {
  }

  /** The screen's corners: (0,0) looks at the lower-left corner and (1,1) at
      the opposite corner of the view rectangle. */
  lemma GetRayCorners(c: Camera)
    ensures Direction(GetRay(c, 0.0, 0.0)) == c.LowerLeftCorner
    ensures Direction(GetRay(c, 1.0, 1.0)) == Add(Add(c.LowerLeftCorner, c.Horizontal), c.Vertical)
  {
    assert Mul(c.Horizontal, 0.0) == Zero && Mul(c.Vertical, 0.0) == Zero;
    assert Mul(c.Horizontal, 1.0) == c.Horizontal && Mul(c.Vertical, 1.0) == c.Vertical;
  }

  /** The direction is affine in u, with slope Horizontal ... */
  lemma GetRayAffineU(c: Camera, u: real, du: real, v: real)
    ensures Direction(GetRay(c, u + du, v)) == Add(Direction(GetRay(c, u, v)), Mul(c.Horizontal, du))
  {
  }

  /** ... and affine in v, with slope Vertical. */
  lemma GetRayAffineV(c: Camera, u: real, v: real, dv: real)
    ensures Direction(GetRay(c, u, v + dv)) == Add(Direction(GetRay(c, u, v)), Mul(c.Vertical, dv))
  {
  }
}
