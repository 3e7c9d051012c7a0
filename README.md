# weekendraytracer in Dafny

A model of the core of `weekendraytracer`, a Go renderer after *Ray Tracing
in a Weekend*. The model covers:

- rays and their parametric points;
- the axis-aligned camera and its affine `GetRay`;
- the ray-sphere intersection test;
- the nearest-hit search over a list of primitives;
- the three surface materials, with `reflect`, `refract`, Schlick's
  approximation and the rejection sampler for a point in the unit ball;
- the recursive colour of a ray (`getColor`), with its bounce budget and the
  sky background;
- the builder of the random scene (`CreateRandomScene`);
- the pixel loop (`Render`): jittered samples, averaging, gamma correction,
  quantisation and the store into a canvas.

Each module follows one Go file:

| file | module | source |
|---|---|---|
| `vectors.dfy` | `Vectors` | the `mgl64.Vec3` operations the renderer uses, over `real` |
| `ray.dfy` | `Rays` | `ray.go` |
| `camera.dfy` | `Cameras` | `camera.go` |
| `records.dfy` | `Records` | the `Material` kinds of `material.go` and `HitRecord` of `hittable.go` |
| `sphere.dfy` | `Spheres` | `sphere.go` |
| `hittable.dfy` | `Hittables` | `hittable.go` |
| `material.dfy` | `Materials` | `material.go` |
| `raytracer.dfy` | `Raytracer` | `raytracer.go` |

Arithmetic is over Dafny's exact `real`. The square root is a parameter
`sqrt: real -> real`. Lemmas that need it to be a genuine root require
`IsSqrt(sqrt)`: for every `a >= 0`, `sqrt(a) >= 0` and `sqrt(a) * sqrt(a) == a`.
Every random number is an input:

- a `Draw` holds the ball sample and the uniform number of one `Scatter` call;
- a bounce at depth `k` uses draw `k` of its ray;
- the scene builder reads a stream `rand: nat -> real` from a start position;
- every sample of every pixel receives a `SampleDraw`, its jitter and its bounce draws.

The imperative parts of the Go code stay imperative here:

- `Sphere.Hit` appends to its result step by step;
- `HittableList.Hit` is the nested best-so-far loop;
- `randomInsideUnitSphere` and `Dielectric.Scatter` are methods;
- `CreateRandomScene` is the nested loop with its `continue`;
- `Render` fills an `array2` canvas in place.

Each method is proved equal to a function (`SphereHits`, `WorldHits`,
`FirstInside`, `DielectricResponse`, `RandomScene`, `PixelAt`). The
properties are proved about those functions.

The model follows the code where it departs from the textbook:

- `sphere.go:25` tests `discriminant > 0`, so a tangent ray misses
  (`Spheres.MissWhenDiscriminantNotPositive`).
- The sky blend at `raytracer.go:44` is `0.5*y + 1.0`, which ranges over
  [0.5, 1.5] rather than [0, 1]. Straight up the sky is (0.25, 0.55, 1), not
  blue (`Raytracer.BackgroundRange`, `Raytracer.BackgroundVertical`).
- `refract` succeeds only for a strictly positive discriminant
  (`material.go:79`, `Materials.RefractFailsIff`).
- The vertical sample coordinate at `raytracer.go:136` is
  `(height - j + rand) / height`. Every sample therefore lies one row above
  the image plane: the top row samples `v >= 1` (`Raytracer.SampleVOffset`).
- For a ray leaving glass, `material.go:108` multiplies the cosine by the
  refractive index, so it can exceed 1. Schlick's coefficient then drops
  below the normal reflectance. It can even fall below 0, and then every
  draw refracts (`Materials.LeavingReflectProbExample`,
  `Materials.LeavingAlwaysRefractsExample`). A ray entering glass keeps the
  coefficient between the normal reflectance and 1
  (`Materials.EnteringReflectProb`).

## Model

| member | source | states |
|---|---|---|
| Rays.AccessorsRebuild | ray.go:14-21 | `Origin` returns field `A` and `Direction` returns field `B` unchanged; rebuilding a ray from them gives the same ray |
| Rays.PointAtParameter | ray.go:24-27 | no requires; total: A + t B for every real t. Its properties are `PointAtZero`, `PointAtOne`, `PointAtAffine` and `PointAtDisplacement` |
| Rays.PointAtZero | ray.go:24-27 | the point at parameter 0 is the origin |
| Rays.PointAtOne | ray.go:24-27 | the point at parameter 1 is origin + direction |
| Rays.PointAtAffine | ray.go:26 | `PointAtParameter(s + t) == PointAtParameter(s) + t B`: the map is affine in t |
| Rays.PointAtDisplacement | ray.go:26 | `PointAtParameter(t) - A == t B` for every real t |
| Cameras.GetRay | camera.go:15-18 | no requires; total: the ray from Origin towards LowerLeftCorner + u Horizontal + v Vertical, for any (u, v). Its properties are the `GetRay*` lemmas |
| Cameras.GetRayOrigin | camera.go:15-18 | every ray, for any (u, v), starts at the camera's origin |
| Cameras.GetRayCorners | camera.go:16 | (0,0) points at the lower-left corner; (1,1) points at LowerLeftCorner + Horizontal + Vertical |
| Cameras.GetRayAffineU | camera.go:16 | moving u by du moves the direction by du Horizontal |
| Cameras.GetRayAffineV | camera.go:16 | moving v by dv moves the direction by dv Vertical |
| Spheres.SphereHits | sphere.go:16-42 | no requires; total: the near-root record, then the far-root record, each kept only when strictly inside (tMin, tMax), and nothing unless the discriminant is positive. `Spheres.Hit` computes it; the lemmas below state its properties |
| Spheres.Hit | sphere.go:16-42 | the method builds exactly `SphereHits`; it returns at most two records, each with tMin < T < tMax, no material, and equal to the record the sphere builds at its own T |
| Spheres.MissWhenDiscriminantNotPositive | sphere.go:22-25 | a discriminant <= 0, including the tangent case, yields no record |
| Spheres.HitsNonEmptyIff | sphere.go:25-39 | a record is returned iff the discriminant is positive and one of the two roots lies strictly inside (tMin, tMax) |
| Spheres.PositiveDiscriminantNondegenerate | sphere.go:19-26 | a positive discriminant forces a > 0 and a nonzero radius, so neither division divides by zero |
| Spheres.RootsOrdered | sphere.go:26-33 | with a positive discriminant the `-b - sqrt` root is strictly below the `-b + sqrt` root |
| Spheres.HitsOrdered | sphere.go:26-39 | when two records are returned, the first has the smaller T |
| Spheres.RootSolvesQuadratic | sphere.go:18-26 | each root solves a t^2 + 2 b t + c = 0 |
| Spheres.DistanceAlongRay | sphere.go:18-21 | the squared distance from the centre to the point at t equals a t^2 + 2 b t + c + Radius^2 |
| Spheres.RootOnSurface | sphere.go:26-29 | the point at either root lies on the sphere: squared distance to the centre is Radius^2 |
| Spheres.HitsOnSurface | sphere.go:28-37 | every returned record lies on the sphere, and its normal (P - Center)/Radius has unit length |
| Spheres.OnSurfaceRecord | sphere.go:28-30 | the record built at a root lies on the sphere and has a unit normal |
| Spheres.ExteriorAwayMisses | sphere.go:18-39 | an origin outside the sphere (c > 0) with the direction pointing away from the centre (b > 0) yields no record for any tMin >= 0: both roots are negative |
| Spheres.NormalAlongDirection | sphere.go:28-29 | the normal at t has component (b + a t)/Radius along the ray direction |
| Spheres.RootNormalsOrientation | sphere.go:26-36 | for a positive discriminant and a positive radius the normal at the near root faces the incoming ray (negative dot with the direction) and the normal at the far root faces along it (positive dot) |
| Hittables.MaterialOf | hittable.go:23-24 | no requires; total: the material a primitive uses. `Hittables.PrimitiveHitsShape` shows it attached to every record the primitive reports |
| Hittables.HitPrimitive | hittable.go:20-25 | a primitive's records are the sphere's records with the primitive's material attached |
| Hittables.ScanFrom | hittable.go:37-45 | the search state after a run of records is the start state, or a record from the run that is strictly nearer with the hit flag set; either way it is no farther than any record of the run |
| Hittables.ScanFromAppend | hittable.go:36-47 | scanning the records of several primitives in turn equals scanning their concatenation |
| Hittables.CandidatesStep | hittable.go:36-37 | the candidates from primitive i on are primitive i's records followed by those of the rest |
| Hittables.ScanFromFirst | hittable.go:39 | a found record is the first candidate at its distance: every earlier candidate is strictly farther (ties go to the earliest) |
| Hittables.Nearest | hittable.go:34-50 | no requires; total: the best-so-far record after scanning every candidate from the state T = tMax, or nothing when no candidate was strictly nearer. `NearestNoneIff` and `NearestSome` state what it finds |
| Hittables.NearestNoneIff | hittable.go:34-48 | nothing is found iff no candidate has T < tMax |
| Hittables.NearestSome | hittable.go:34-50 | a found record is a candidate below tMax, no farther than any candidate, and the first candidate at that distance |
| Hittables.CandidatesMember | hittable.go:36-38 | a record is a candidate iff some primitive of the list reports it |
| Hittables.PrimitiveHitsShape | hittable.go:37-44 | every record a primitive reports has tMin < T < tMax and the primitive's material, and is otherwise the sphere's record |
| Hittables.WorldHits | hittable.go:32-52 | no requires; total: the nearest candidate as a list of length 0 or 1. `Hittables.Hit` computes it; `WorldHitsEmpty`, `WorldHitsNonEmptyIff` and `WorldHitNearest` state its properties |
| Hittables.WorldHitsEmpty | hittable.go:36-51 | an empty list yields an empty result |
| Hittables.WorldHitsNonEmptyIff | hittable.go:34-48 | the result is non-empty iff some primitive reports a record with T < tMax |
| Hittables.WorldHitNearest | hittable.go:36-45 | the returned record equals, field for field, a record some primitive reported, carries that primitive's material, has tMin < T < tMax, and no reported record is nearer |
| Hittables.ScanRecords | hittable.go:38-46 | the inner loop, copying each strictly nearer record field by field, ends in the state `ScanFrom` describes |
| Hittables.Hit | hittable.go:32-52 | the nested loop computes exactly `WorldHits`, a result of length 0 or 1 |
| Materials.Reflect | material.go:63-66 | no requires; total: v - 2 (v . n) n. Its properties are `ReflectDot`, `ReflectInvolution`, `ReflectLength` and `ReflectInPlaneY` |
| Materials.Refract | material.go:75-86 | no requires; total: a success flag and a direction, for any ratio. `RefractFailsIff` and `RefractUnit` state both outcomes |
| Materials.ReflectDot | material.go:63-66 | for a unit normal, `reflect(v, n) . n == -(v . n)` |
| Materials.ReflectInvolution | material.go:63-66 | for a unit normal, reflecting twice gives v back |
| Materials.ReflectLength | material.go:63-66 | for a unit normal, reflection preserves length |
| Materials.RefractFailsIff | material.go:75-86 | refraction fails iff 1 - ratio^2 (1 - dt^2) <= 0, and a failed refraction returns the zero vector |
| Materials.RefractUnit | material.go:76-83 | for a unit normal and nonzero v, a refracted direction has unit length, normal component -sqrt(discriminant), and tangential part ratio times that of the normalised v (Snell's law) |
| Materials.Tangent | material.go:80 | the tangential part uv - (uv.n) n of a unit uv is orthogonal to the unit n, with squared length 1 - dt^2 |
| Materials.TangentialPart | material.go:80 | the scaled tangential part is orthogonal to n, with squared length ratio^2 (1 - dt^2) |
| Materials.OrthogonalSplit | material.go:80-82 | a - q n for a orthogonal to the unit n has normal component -q, tangential part a, and squared length \|a\|^2 + q^2 |
| Materials.Schlick | material.go:90-94 | no requires; total: r0 + (1 - r0)(1 - cosine)^5 with r0 = ((1 - eta)/(1 + eta))^2, the division giving 0 when eta = -1. Its properties are `SchlickEnds`, `SchlickBounds` and `SchlickAtMostOne` |
| Materials.SchlickEnds | material.go:90-94 | `schlick(1, eta) == ((1 - eta)/(1 + eta))^2` and `schlick(0, eta) == 1` |
| Materials.NormalReflectanceUnit | material.go:91-92 | for eta >= 0 the normal reflectance lies in [0, 1] |
| Materials.SchlickBounds | material.go:90-94 | for a cosine in [0, 1] and eta >= 0 the coefficient lies between the normal reflectance and 1 |
| Materials.SchlickAtMostOne | material.go:90-94 | for any cosine >= 0 and eta >= 0 the coefficient is at most 1, including cosines above 1 |
| Materials.RandomInsideUnitSphere | material.go:34-43 | the rejection loop, starting from (99, 99, 99), returns the first candidate that `FirstInside` selects |
| Materials.FirstInsideInBall | material.go:36-41 | a returned point lies strictly inside the unit ball (LenSqr < 1) and is one of the candidates (2u-1, 2v-1, 2w-1) |
| Materials.FirstInsideNoneIff | material.go:36 | the finite search finds nothing iff every candidate lies outside the open ball |
| Materials.CandidateInCube | material.go:37-39 | uniform numbers in [0, 1) give candidate coordinates in [-1, 1) |
| Materials.LambertianScatter | material.go:26-31 | no requires; total: scatters from hit.P towards Normal + sample with the albedo. `LambertianScatterShape` and `LambertianAboveSurface` state its properties |
| Materials.LambertianScatterShape | material.go:26-31 | a diffuse bounce always scatters, attenuates by the albedo, starts at hit.P and heads along Normal + sample |
| Materials.LambertianAboveSurface | material.go:27-28 | with a unit normal and a sample inside the unit ball, the diffuse direction has a positive normal component |
| Materials.SampledDrawValid | material.go:34-43 | a draw built from the point the rejection search returns is a valid draw: its sample lies strictly inside the unit ball and its uniform number in [0, 1) |
| Materials.LambertianValidDraw | material.go:26-31 | a diffuse `Scatter` with a valid draw against a unit normal scatters to a direction with a positive normal component |
| Materials.MetallicScatter | material.go:52-60 | no requires; total: the reflection of the normalised direction plus fuzziness times the sample, from hit.P, with the albedo, scattered iff it leaves along the normal. `MetallicScatterShape` and `MetallicMirrorScatters` state its properties |
| Materials.MetallicScatterShape | material.go:52-60 | a metal bounce attenuates by the albedo and starts at hit.P; it scatters iff the new direction's normal component is positive; with zero fuzziness the direction is exactly `reflect(normalize(rIn.B), Normal)` |
| Materials.MetallicMirrorScatters | material.go:54-58 | a polished metal hit against a unit normal always scatters |
| Materials.DielectricCosine | material.go:105-113 | no requires; total: the cosine term of the branch the sign of rIn.B . Normal selects; `DielectricCosineNonNegative` bounds it |
| Materials.ReflectProb | material.go:115-120 | no requires; total: Schlick's coefficient at that cosine when refraction succeeds, otherwise 1; `ReflectProbAtMostOne`, `EnteringReflectProb` and `LeavingReflectProbExample` bound it |
| Materials.DielectricResponse | material.go:97-129 | no requires; total: the reflected direction when the uniform number is below the reflection probability, otherwise the refracted one, from hit.P with attenuation (1, 1, 1). `Materials.DielectricScatter` computes it |
| Materials.DielectricScatter | material.go:97-129 | the method computes exactly `DielectricResponse`; it always scatters, attenuates by (1, 1, 1) and starts at hit.P |
| Materials.DielectricOrientation | material.go:105-113 | when rIn.B . Normal > 0 the outward normal is -Normal and the ratio is Refractance; otherwise the outward normal is Normal and the ratio is 1/Refractance |
| Materials.DielectricTotalInternalReflection | material.go:115-127 | when refraction fails the reflection probability is 1, so every draw in [0, 1) picks the reflected direction |
| Materials.DielectricRefracts | material.go:115-127 | when refraction succeeds and the draw is at or above Schlick's coefficient, the direction is the refracted one, of unit length |
| Materials.DielectricReflects | material.go:115-127 | when refraction succeeds and the draw is below Schlick's coefficient, the direction is the reflected one |
| Materials.DielectricCosineNonNegative | material.go:105-113 | under a genuine square root and eta >= 0, the cosine term is never negative, in either branch |
| Materials.ReflectProbAtMostOne | material.go:115-120 | under a genuine square root and eta >= 0, the reflection probability is at most 1 |
| Materials.EnteringReflectProb | material.go:109-120 | for a ray entering through a unit normal, the cosine lies in [0, 1] and the reflection probability lies between the normal reflectance and 1 |
| Materials.LeavingAlongNormal | material.go:105-120 | a ray leaving glass of index eta straight along its unit normal refracts, and its cosine term is eta itself, so its reflection probability is schlick(eta, eta) |
| Materials.LeavingReflectProbExample | material.go:105-120 | a ray leaving glass of index 1.5 along its unit normal has cosine term 1.5 and reflection probability 0.01, below the normal reflectance 0.04 |
| Materials.LeavingAlwaysRefractsExample | material.go:105-127 | leaving glass of index 3 along the normal gives reflection probability -23.75, so every draw in [0, 1) picks the refracted direction |
| Materials.ExampleNoRefraction | material.go:75-86 | with ratio 1.5, the direction (0.8, 0.6, 0) against the normal (0, -1, 0) does not refract |
| Materials.ReflectInPlaneY | material.go:63-66 | reflection in y = 0 negates y |
| Materials.TotalInternalReflectionExample | material.go:97-129 | a ray inside glass of index 1.5, at 37 degrees to the surface, is reflected to (0.8, -0.6, 0) for every draw |
| Materials.Scatter | material.go:26-129 | no requires; total: dispatches on the material kind to the diffuse, metal or glass response with one draw. `ScatterAttenuation` states what every kind shares |
| Materials.ScatterAttenuation | material.go:26-129 | every material's scattered ray starts at hit.P; the attenuation is the albedo, or (1, 1, 1) for glass; diffuse and glass always scatter |
| Raytracer.GetColor | raytracer.go:21-49 | no requires; total: terminates because depth rises towards MaxBounces. `GetColorMiss`, `GetColorHit`, the `WorldQueries*` lemmas and `GetColorUnit` state its properties |
| Raytracer.WorldQueriesBound | raytracer.go:21-41 | `getColor` recurses only while depth < MaxBounces, so it queries the world at least once and at most MaxBounces - depth + 1 times |
| Raytracer.WorldQueriesBoundHit | raytracer.go:26-37 | the bound above, in the case of a hit |
| Raytracer.WorldQueriesHit | raytracer.go:28-32 | a hit costs one query, plus the bounce's queries when it scatters within the budget |
| Raytracer.QueriesStep | raytracer.go:31-32 | one query more than a bounce within the budget stays within the budget |
| Raytracer.GetColorMiss | raytracer.go:42-48 | a ray that hits nothing gets the background colour |
| Raytracer.GetColorHit | raytracer.go:26-40 | a hit that scatters within the budget gives the channel-wise product of the recursive colour and the attenuation; otherwise it gives (0, 0, 0) |
| Raytracer.Background | raytracer.go:43-48 | no requires; total: (1 - t) white + t (0.5, 0.7, 1) with t = 0.5 y + 1 of the normalised direction. `BackgroundBlue`, `BackgroundRange` and `BackgroundVertical` state its properties |
| Raytracer.BackgroundBlue | raytracer.go:43-48 | the blue channel of the background is exactly 1 |
| Raytracer.BackgroundRange | raytracer.go:43-48 | the blend t = 0.5 y + 1 lies in [0.5, 1.5], so R is in [0.25, 0.75], G in [0.55, 0.85] and B = 1 |
| Raytracer.BackgroundVertical | raytracer.go:43-48 | straight up the sky is (0.25, 0.55, 1) and straight down it is (0.75, 0.85, 1) |
| Raytracer.HadamardUnit | raytracer.go:34-36 | a channel-wise product of two colours in [0,1]^3 stays in [0,1]^3 |
| Raytracer.HitAttenuationUnit | raytracer.go:26-28 | in a world whose materials conserve energy, the returned record carries one of its materials, and its attenuation lies in [0,1]^3 |
| Raytracer.GetColorUnit | raytracer.go:21-49 | if every albedo lies in [0,1]^3, every `getColor` result lies in [0,1]^3 |
| Raytracer.GetColorUnitHit | raytracer.go:26-40 | the same, in the case of a hit |
| Raytracer.BounceUnit | raytracer.go:31-40 | an attenuated bounce colour, or black, stays in [0,1]^3 |
| Raytracer.MaterialFrom | raytracer.go:71-85 | no requires; total: the material one cell draws and the position after its numbers. `DrawMaterial` computes it; `MaterialConserving` bounds it |
| Raytracer.RandomScene | raytracer.go:53-108 | no requires; total: the floor, the grid of small spheres, then the three large spheres. `CreateRandomScene` computes it; `RandomSceneShape` and `RandomSceneConserving` state its properties |
| Raytracer.DrawMaterial | raytracer.go:71-85 | the material choice draws exactly `MaterialFrom`: diffuse below 0.8 (seven numbers), metal below 0.95 (five numbers), glass otherwise (one number) |
| Raytracer.PlaceRow | raytracer.go:64-87 | the inner loop, with its `continue`, appends exactly the spheres of one row of the grid |
| Raytracer.PlaceGrid | raytracer.go:63-88 | the outer loop appends exactly the spheres of the whole grid |
| Raytracer.CreateRandomScene | raytracer.go:53-108 | the method builds exactly `RandomScene`: the floor, the grid, then the three large spheres |
| Raytracer.SkipStep | raytracer.go:65-68 | a skipped cell consumes two numbers and keeps the loop invariant |
| Raytracer.KeepStep | raytracer.go:65-86 | a kept cell appends its sphere and keeps the loop invariant |
| Raytracer.GridStep | raytracer.go:64-87 | the grid from a cell is that cell's contribution followed by the grid from the next cell |
| Raytracer.GridRowEnd | raytracer.go:63-64 | the end of one row is the start of the next |
| Raytracer.CellSkipped | raytracer.go:65-68 | a cell whose centre is within 0.9 of (4, 0.2, 0) adds nothing and consumes two numbers |
| Raytracer.CellKept | raytracer.go:65-86 | any other cell adds one sphere of radius 0.2 at its centre, with the material drawn after the centre |
| Raytracer.GridLength | raytracer.go:63-88 | each cell adds at most one sphere |
| Raytracer.GridShape | raytracer.go:65-70 | every grid sphere has radius 0.2, centre height 0.2, and its centre is farther than 0.9 from (4, 0.2, 0) |
| Raytracer.RandomSceneShape | raytracer.go:57-107 | element 0 is the floor (centre (0, -1000, 0), radius 1000); the last three are the dielectric, diffuse and metal spheres in that order; the length lies in [4, 488]; every sphere between them is a grid sphere |
| Raytracer.GridSphereClear | raytracer.go:66 | under a genuine square root, every grid centre has squared distance > 0.81 from (4, 0.2, 0) |
| Raytracer.GridConserving | raytracer.go:63-88 | drawn from numbers in [0, 1), every grid material has its albedo in [0,1]^3 |
| Raytracer.CellConserving | raytracer.go:65-86 | a cell's material conserves energy, and so does the grid from that cell on |
| Raytracer.MaterialConserving | raytracer.go:71-85 | a diffuse albedo (products of two draws) and a metal albedo (0.5 (1 + u)) both lie in [0,1]^3 |
| Raytracer.ConservingAppend | raytracer.go:86 | appending two energy-conserving lists gives an energy-conserving list |
| Raytracer.RandomSceneConserving | raytracer.go:53-108 | every material of the random scene conserves energy, so every colour traced in it lies in [0,1]^3 |
| Raytracer.Quantize | raytracer.go:143 | no requires; total: Go's truncating conversion of 255.99 c to a byte, with out-of-range values giving 0. `QuantizeRange` states the in-range case |
| Raytracer.QuantizeRange | raytracer.go:143 | a channel in [0, 1] quantises to floor(255.99 c) in 0..255, with 0 giving 0 and 1 giving 255 |
| Raytracer.PixelAt | raytracer.go:132-144 | no requires; total: the mean of the sample colours, gamma-corrected per channel, quantised, with alpha 255. `ShadePixel` computes it; `PixelChannels` states its range |
| Raytracer.TraceSample | raytracer.go:134-138 | one sample computes u, v, the camera ray, and exactly that ray's `getColor` |
| Raytracer.SumSamples | raytracer.go:132-139 | the sample loop accumulates exactly the ordered sum of the sample colours |
| Raytracer.ShadePixel | raytracer.go:132-144 | a pixel is exactly `PixelAt`: the mean sample, the square root of each channel, quantised, alpha 255 |
| Raytracer.SampleURange | raytracer.go:134 | for a draw in [0, 1), u lies in [i/width, (i+1)/width) |
| Raytracer.SampleVRange | raytracer.go:136 | for a draw in [0, 1), v lies in [(height-j)/height, (height-j+1)/height) |
| Raytracer.SampleVOffset | raytracer.go:136 | every sample has v >= 1/height, and the top row j = 0 samples v >= 1 |
| Raytracer.SampleColorUnit | raytracer.go:137-138 | in an energy-conserving world every sample colour lies in [0,1]^3 |
| Raytracer.AddUnit | raytracer.go:138 | adding a colour in [0,1]^3 to one with channels in [0, n-1] gives channels in [0, n] |
| Raytracer.SampleSumRange | raytracer.go:132-139 | the sum of n sample colours has every channel in [0, n] |
| Raytracer.ScaleUnit | raytracer.go:140 | a channel in [0, n] scaled by 1/n lies in [0, 1] |
| Raytracer.MeanUnit | raytracer.go:140 | a colour with channels in [0, n] scaled by 1/n lies in [0,1]^3 |
| Raytracer.AverageUnit | raytracer.go:132-140 | with at least one sample the mean colour lies in [0,1]^3 |
| Raytracer.GammaUnit | raytracer.go:142 | the square root keeps a channel in [0, 1], and squaring it gives the channel back |
| Raytracer.PixelChannels | raytracer.go:140-144 | with at least one sample, in an energy-conserving world, every pixel has alpha 255 and channels floor(255.99 c) of the gamma-corrected mean colour c, which lies in [0,1]^3 |
| Raytracer.ScenePixelChannels | raytracer.go:128-144 | the same for the random scene drawn from numbers in [0, 1) |
| Raytracer.SetPixel | raytracer.go:144 | stores the shaded pixel at (i, j) and leaves every other pixel unchanged |
| Raytracer.ShadeRow | raytracer.go:131-145 | shades every pixel of row j and leaves the other rows unchanged |
| Raytracer.Render | raytracer.go:111-148 | returns a fresh width x height canvas whose pixel (i, j) is `PixelAt` for the random scene, for every i < width and j < height |

## Left out

- `cmd/main.go`: flag parsing, file creation and PNG encoding are I/O, so it is not part of this model.
- IEEE-754 behaviour: rounding, NaN, infinities and overflow are not modelled, since all arithmetic is over `real`. A division by zero (`Quot`) gives 0. Go would give an infinity or NaN, for instance for `samples == 0` in `Render`.
- `math.Sqrt` is the parameter `sqrt`, assumed to be a genuine root only where a lemma requires `IsSqrt`. `Normalize` and `Len` are built from it. `math.Pow(x, 5)` is `x*x*x*x*x`.
- `math/rand`: every draw is an input.
  - The scene builder reads one stream from a start position.
  - The pixel samples receive a separate indexed family of draws.
  - Each bounce of a ray receives one `Draw`, which already holds the point of the unit ball.
  - The Go code draws all of these from one global generator, so the order in which they interleave is not modelled.
- The statistics of the draws are not modelled: the Schlick-weighted choice, the distribution of the diffuse lobe, and the 80/15/5 split of materials. Only per-branch behaviour is proved.
- Materials.RandomInsideUnitSphere: reads its uniform numbers from a finite sequence and returns `None` when they run out. This is because the Go loop's termination depends on randomness and cannot be proved. Only its exit property is proved.
- `mgl64` and `image` internals:
  - `Vec3` is a triple of reals.
  - The canvas is an `array2` of `NRGBA` values; `image.Rect` bounds and `NRGBA.Set`'s clipping are not modelled.
- Raytracer.Quantize: the Go code leaves the conversion of an out-of-range float to `uint8` to the implementation; here such a value gives 0. Only the in-range case is stated (`QuantizeRange`).
- `NewCamera`: the seven-argument thin-lens camera that `raytracer.go:119` calls is not part of this model. `Render` takes the camera as an opaque map `getRay` from image coordinates to rays. The camera of `camera.go` is modelled on its own.
- The sphere's material: the `Sphere` of `sphere.go` has no material, while `raytracer.go` sets one and `hittable.go` asks for `Material()`. The primitive `Hittables.SpherePrimitive` pairs a sphere with its material and attaches it to the sphere's records, which carry no material (`None`).
- Raytracer.Render: width, height and samples are natural numbers, so negative dimensions are not modelled.
- Raytracer.Render: "every pixel is written exactly once" is stated only through its final contents: every pixel holds its `PixelAt` value.
- Raytracer.GetColorUnit: requires every albedo in the world to lie in [0,1]^3. `Raytracer.RandomSceneConserving` proves this of the random scene from draws in [0, 1).
- Hittables.ScanRecords, Raytracer.DrawMaterial, Raytracer.PlaceRow, Raytracer.PlaceGrid, Raytracer.TraceSample, Raytracer.SumSamples, Raytracer.ShadePixel, Raytracer.SetPixel and Raytracer.ShadeRow: these are pieces of a single Go function's loops, split into methods of their own so that each loop body is verified separately.
