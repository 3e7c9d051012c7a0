/**
 * The values exchanged between the geometry and the materials: the closed set
 * of surface materials (material.go) and the record of one ray-surface
 * intersection (hittable.go).
 */
module Records {
  import opened Vectors

  datatype Option<T> = None | Some(value: T)

  /** The three materials of material.go; the Go interface becomes a closed
      sum. */
  datatype Material =
    | Lambertian(Albedo: Vec3)
    | Metallic(Albedo: Vec3, Fuzziness: real)
    | Dielectric(Refractance: real)

  /** One intersection: the ray parameter T, the point P, the surface normal
      and the surface's material (None when the producer attaches none, as the
      sphere test does). */
  datatype HitRecord = HitRecord(T: real, P: Vec3, Normal: Vec3, Mat: Option<Material>)
}
