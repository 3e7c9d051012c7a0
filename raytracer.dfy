/**
 * The renderer proper (raytracer.go): the recursive colour of a ray, the
 * builder of the random scene, and the pixel loop.
 *
 * Random numbers are inputs: a bounce at depth k of a ray uses draw k of the
 * ray's draws, the scene builder reads its uniform numbers one after the
 * other from a stream, and every sample of every pixel receives its jitter
 * and its bounce draws as a SampleDraw.
 */
module Raytracer {
  import opened Vectors
  import opened Rays
  import opened Records
  import opened Spheres
  import opened Hittables
  import opened Materials

  /** The lower bound on the ray parameter of a hit (against shadow acne). */
  const Epsilon: real := 0.001

  /** The most bounces a ray may make. */
  const MaxBounces: nat := 10

  /** math.MaxFloat64, (2 - 2^-52) * 2^1023, the upper bound on the ray
      parameter of a hit. */
  const MaxFloat64: real := 179769313486231570814527423731704356798070567525844996598917476803157260780028538760589558632766878171540458953514382464234321326889464182768467546703537516986049910576551282076245490090389328944075868508455133942304583236903222948165808559332123348274797826204144723168738177180919299881250404026184124858368.0

  // ---------------------------------------------------------------------
  // getColor

  const White: Vec3 := Vec3(1.0, 1.0, 1.0)
  const SkyBlue: Vec3 := Vec3(0.5, 0.7, 1.0)

  /** The blend factor of the sky for a ray: 0.5 y + 1 for the y coordinate
      of the normalised direction. */
  function SkyBlend(sqrt: real -> real, r: Ray): real
  {
    0.5 * Normalize(sqrt, Direction(r)).y + 1.0
  }

  /** The colour of a ray that hits nothing: (1 - t) white + t sky blue. */
  function Background(sqrt: real -> real, r: Ray): Vec3
  {
    var t := SkyBlend(sqrt, r);
    Add(Mul(White, 1.0 - t), Mul(SkyBlue, t))
  }

  /** The remaining bounces, the measure that bounds the recursion. */
  function Remaining(depth: nat): nat
  {
    if depth < MaxBounces then MaxBounces - depth else 0
  }

  /** getColor: black once the ray is absorbed or the bounce budget is
      spent, the background on a miss, and otherwise the attenuated colour
      of the scattered ray one level deeper. A record without a material
      (which the search over a list of primitives never returns) absorbs. */
  function GetColor(sqrt: real -> real, r: Ray, world: seq<Hittable>, depth: nat, draws: nat -> Draw): Vec3
    decreases Remaining(depth), r
  {
    var hits := WorldHits(sqrt, world, r, Epsilon, MaxFloat64);
    if |hits| > 0 then
      var hit := hits[0];
      match hit.Mat
      case None => Zero
      case Some(m) =>
        var res := Scatter(sqrt, m, r, hit, draws(depth));
        if res.isScattered && depth < MaxBounces then
          Hadamard(GetColor(sqrt, res.scattered, world, depth + 1, draws), res.attenuation)
        else
          Zero
    else
      Background(sqrt, r)
  }

  /** How many times GetColor queries the world, following the same
      recursion. */
  function WorldQueries(sqrt: real -> real, r: Ray, world: seq<Hittable>, depth: nat, draws: nat -> Draw): nat
    decreases Remaining(depth), r
  {
    var hits := WorldHits(sqrt, world, r, Epsilon, MaxFloat64);
    if |hits| > 0 then
      var hit := hits[0];
      match hit.Mat
      case None => 1
      case Some(m) =>
        var res := Scatter(sqrt, m, r, hit, draws(depth));
        if res.isScattered && depth < MaxBounces then
          1 + WorldQueries(sqrt, res.scattered, world, depth + 1, draws)
        else
          1
    else
      1
  }

  /** The recursion stops after at most MaxBounces - depth + 1 queries of
      the world, and after exactly one once the budget is spent. */
  lemma {:induction false} WorldQueriesBound(sqrt: real -> real, r: Ray, world: seq<Hittable>, depth: nat, draws: nat -> Draw)
    ensures 1 <= WorldQueries(sqrt, r, world, depth, draws) <= Remaining(depth) + 1
    decreases Remaining(depth), r, 1
  {
    var hits := WorldHits(sqrt, world, r, Epsilon, MaxFloat64);
    if |hits| > 0 && hits[0].Mat.Some? {
      WorldQueriesBoundHit(sqrt, r, world, depth, draws, hits[0]);
    }
  }

  /** The hit case of WorldQueriesBound. */
  lemma {:induction false} WorldQueriesBoundHit(sqrt: real -> real, r: Ray, world: seq<Hittable>, depth: nat, draws: nat -> Draw,
                                                hit: HitRecord)
    requires var hits := WorldHits(sqrt, world, r, Epsilon, MaxFloat64); |hits| > 0 && hits[0] == hit
    requires hit.Mat.Some?
    ensures 1 <= WorldQueries(sqrt, r, world, depth, draws) <= Remaining(depth) + 1
    decreases Remaining(depth), r, 0
  {
    var res := Scatter(sqrt, hit.Mat.value, r, hit, draws(depth));
    var bounce := res.isScattered && depth < MaxBounces;
    WorldQueriesHit(sqrt, r, world, depth, draws, hit, hit.Mat.value);
    if bounce {
      WorldQueriesBound(sqrt, res.scattered, world, depth + 1, draws);
    }
    QueriesStep(WorldQueries(sqrt, r, world, depth, draws), bounce,
                WorldQueries(sqrt, res.scattered, world, depth + 1, draws), depth);
  }

  /** A hit costs one query, plus those of the bounce if there is one. */
  lemma WorldQueriesHit(sqrt: real -> real, r: Ray, world: seq<Hittable>, depth: nat, draws: nat -> Draw, hit: HitRecord, m: Material)
    requires var hits := WorldHits(sqrt, world, r, Epsilon, MaxFloat64); |hits| > 0 && hits[0] == hit
    requires hit.Mat == Some(m)
    ensures var res := Scatter(sqrt, m, r, hit, draws(depth));
      WorldQueries(sqrt, r, world, depth, draws)
        == if res.isScattered && depth < MaxBounces
           then 1 + WorldQueries(sqrt, res.scattered, world, depth + 1, draws)
           else 1
  {
  }

  /** One query more than a bounce within the budget stays within it. */
  lemma QueriesStep(q: nat, bounce: bool, rest: nat, depth: nat)
    requires bounce ==> depth < MaxBounces && 1 <= rest <= Remaining(depth + 1) + 1
    requires q == if bounce then 1 + rest else 1
    ensures 1 <= q <= Remaining(depth) + 1
  {
  }

  /** A miss shows the background. */
  lemma GetColorMiss(sqrt: real -> real, r: Ray, world: seq<Hittable>, depth: nat, draws: nat -> Draw)
    requires WorldHits(sqrt, world, r, Epsilon, MaxFloat64) == []
    ensures GetColor(sqrt, r, world, depth, draws) == Background(sqrt, r)
  {
  }

  /** A hit whose material does not scatter, or a hit with the bounce budget
      spent, is black; a scattering hit within the budget is the recursive
      colour attenuated channel by channel. */
  lemma GetColorHit(sqrt: real -> real, r: Ray, world: seq<Hittable>, depth: nat, draws: nat -> Draw, hit: HitRecord, m: Material)
    requires WorldHits(sqrt, world, r, Epsilon, MaxFloat64) == [hit] && hit.Mat == Some(m)
    ensures var res := Scatter(sqrt, m, r, hit, draws(depth));
      GetColor(sqrt, r, world, depth, draws)
        == if res.isScattered && depth < MaxBounces
           then Hadamard(GetColor(sqrt, res.scattered, world, depth + 1, draws), res.attenuation)
           else Zero
  {
  }

  /** The blue channel of the background is exactly 1. */
  lemma BackgroundBlue(sqrt: real -> real, r: Ray)
    ensures Background(sqrt, r).z == 1.0
  {
  }

  /** Since the normalised y lies in [-1, 1], the blend factor lies in
      [0.5, 1.5], which puts red in [0.25, 0.75] and green in [0.55, 0.85]. */
  lemma BackgroundRange(sqrt: real -> real, r: Ray)
    requires IsSqrt(sqrt)
    ensures 0.5 <= SkyBlend(sqrt, r) <= 1.5
    ensures var c := Background(sqrt, r);
      0.25 <= c.x <= 0.75 && 0.55 <= c.y <= 0.85 && c.z == 1.0
  {
    NormalizeComponents(sqrt, Direction(r));
  }

  /** Straight up the sky is (0.25, 0.55, 1) and straight down it is
      (0.75, 0.85, 1): the blend 0.5 y + 1 runs from 0.5 to 1.5 rather than
      from 0 to 1. */
  lemma BackgroundVertical(sqrt: real -> real, y: real)
    requires IsSqrt(sqrt)
    requires y != 0.0
    ensures var c := Background(sqrt, Ray(Zero, Vec3(0.0, y, 0.0)));
      (y > 0.0 ==> c == Vec3(0.25, 0.55, 1.0)) && (y < 0.0 ==> c == Vec3(0.75, 0.85, 1.0))
  {
    var d := Vec3(0.0, y, 0.0);
    var ay := if y > 0.0 then y else -y;
    assert LenSqr(d) == ay * ay;
    SqrtOfSquare(sqrt, ay);
    assert Normalize(sqrt, d).y == y * (1.0 / ay);
    assert Normalize(sqrt, d).y == (if y > 0.0 then 1.0 else -1.0);
  }

  /** Attenuations in the unit cube: every albedo has its channels in [0,1]
      (glass attenuates by (1,1,1)). */
  predicate Conserving(m: Material)
  {
    match m
    case Lambertian(albedo) => InUnitCube(albedo)
    case Metallic(albedo, _) => InUnitCube(albedo)
    case Dielectric(_) => true
  }

  predicate ConservingWorld(world: seq<Hittable>)
  {
    forall i :: 0 <= i < |world| ==> Conserving(MaterialOf(world[i]))
  }

  /** A channel-wise product of two colours in the unit cube stays there. */
  lemma HadamardUnit(u: Vec3, v: Vec3)
    requires InUnitCube(u) && InUnitCube(v)
    ensures InUnitCube(Hadamard(u, v))
  {
    UnitProduct(u.x, v.x);
    UnitProduct(u.y, v.y);
    UnitProduct(u.z, v.z);
  }

  /** The record the world returns carries the material of one of its
      primitives, so in a conserving world its attenuation lies in the unit
      cube. */
  lemma HitAttenuationUnit(sqrt: real -> real, world: seq<Hittable>, r: Ray, hit: HitRecord, d: Draw)
    requires ConservingWorld(world)
    requires WorldHits(sqrt, world, r, Epsilon, MaxFloat64) == [hit]
    ensures exists i :: 0 <= i < |world| && hit.Mat == Some(MaterialOf(world[i]))
    ensures hit.Mat.Some? && Conserving(hit.Mat.value)
    ensures InUnitCube(Scatter(sqrt, hit.Mat.value, r, hit, d).attenuation)
  {
    WorldHitNearest(sqrt, world, r, Epsilon, MaxFloat64, hit);
    var i :| 0 <= i < |world| && hit in PrimitiveHits(sqrt, world[i], r, Epsilon, MaxFloat64) &&
             hit.Mat == Some(MaterialOf(world[i]));
    ScatterAttenuation(sqrt, hit.Mat.value, r, hit, d);
  }

  /** In a world whose materials conserve energy every colour lies in the
      unit cube. */
  lemma {:induction false} GetColorUnit(sqrt: real -> real, r: Ray, world: seq<Hittable>, depth: nat, draws: nat -> Draw)
    requires IsSqrt(sqrt)
    requires ConservingWorld(world)
    ensures InUnitCube(GetColor(sqrt, r, world, depth, draws))
    decreases Remaining(depth), r, 1
  {
    var hits := WorldHits(sqrt, world, r, Epsilon, MaxFloat64);
    if hits == [] {
      GetColorMiss(sqrt, r, world, depth, draws);
      BackgroundRange(sqrt, r);
    } else {
      assert hits == [hits[0]];
      GetColorUnitHit(sqrt, r, world, depth, draws, hits[0]);
    }
  }

  /** The hit case of GetColorUnit. */
  lemma {:induction false} GetColorUnitHit(sqrt: real -> real, r: Ray, world: seq<Hittable>, depth: nat, draws: nat -> Draw,
                                           hit: HitRecord)
    requires IsSqrt(sqrt)
    requires ConservingWorld(world)
    requires WorldHits(sqrt, world, r, Epsilon, MaxFloat64) == [hit]
    ensures InUnitCube(GetColor(sqrt, r, world, depth, draws))
    decreases Remaining(depth), r, 0
  {
    HitAttenuationUnit(sqrt, world, r, hit, draws(depth));
    var m := hit.Mat.value;
    var res := Scatter(sqrt, m, r, hit, draws(depth));
    GetColorHit(sqrt, r, world, depth, draws, hit, m);
    var bounce := res.isScattered && depth < MaxBounces;
    if bounce {
      GetColorUnit(sqrt, res.scattered, world, depth + 1, draws);
    }
    BounceUnit(GetColor(sqrt, r, world, depth, draws), bounce,
               GetColor(sqrt, res.scattered, world, depth + 1, draws), res.attenuation);
  }

  /** A bounce attenuates a colour of the unit cube by another; no bounce is
      black. */
  lemma BounceUnit(c: Vec3, bounce: bool, next: Vec3, attenuation: Vec3)
    requires InUnitCube(attenuation) && (bounce ==> InUnitCube(next))
    requires c == if bounce then Hadamard(next, attenuation) else Zero
    ensures InUnitCube(c)
  {
    if bounce {
      HadamardUnit(next, attenuation);
    }
  }

  // ---------------------------------------------------------------------
  // CreateRandomScene

  /** The fixed spheres: the floor first, then the three large spheres
      appended after the grid. */
  const Floor: Hittable := SpherePrimitive(Sphere(Vec3(0.0, -1000.0, 0.0), 1000.0), Lambertian(Vec3(0.5, 0.5, 0.5)))
  const GlassSphere: Hittable := SpherePrimitive(Sphere(Vec3(0.0, 1.0, 0.0), 1.0), Dielectric(1.5))
  const DiffuseSphere: Hittable := SpherePrimitive(Sphere(Vec3(-4.0, 1.0, 0.0), 1.0), Lambertian(Vec3(0.4, 0.2, 0.1)))
  const MetalSphere: Hittable := SpherePrimitive(Sphere(Vec3(4.0, 1.0, 0.0), 1.0), Metallic(Vec3(0.4, 0.2, 0.1), 0.0))

  /** The point the small spheres keep clear of. */
  const Clearing: Vec3 := Vec3(4.0, 0.2, 0.0)

  /** What one cell of the grid contributes, and where the stream of
      uniform numbers continues. */
  datatype CellResult = CellResult(spheres: seq<Hittable>, next: nat)

  /** The centre drawn for cell (a, b) from the numbers at k and k + 1. */
  function CellCenter(rand: nat -> real, a: int, b: int, k: nat): Vec3
  {
    Vec3(a as real + 0.9 * rand(k), 0.2, b as real + rand(k + 1))
  }

  /** A diffuse colour: each channel the product of two numbers from j on. */
  function DiffuseAlbedo(rand: nat -> real, j: nat): Vec3
  {
    Vec3(rand(j) * rand(j + 1), rand(j + 2) * rand(j + 3), rand(j + 4) * rand(j + 5))
  }

  /** A metal colour: each channel 0.5 (1 + u) for the numbers from j on. */
  function MetalAlbedo(rand: nat -> real, j: nat): Vec3
  {
    Vec3(0.5 * (1.0 + rand(j)), 0.5 * (1.0 + rand(j + 1)), 0.5 * (1.0 + rand(j + 2)))
  }

  /** A material and where the stream continues after drawing it. */
  datatype MaterialDraw = MaterialDraw(mat: Material, next: nat)

  /** The material drawn from position j: diffuse for a choice below 0.8,
      consuming seven numbers; metal below 0.95, consuming five; glass
      otherwise, consuming one. */
  function MaterialFrom(rand: nat -> real, j: nat): MaterialDraw
  {
    var choice := rand(j);
    if choice < 0.8 then MaterialDraw(Lambertian(DiffuseAlbedo(rand, j + 1)), j + 7)
    else if choice < 0.95 then MaterialDraw(Metallic(MetalAlbedo(rand, j + 1), rand(j + 4)), j + 5)
    else MaterialDraw(Dielectric(1.5), j + 1)
  }

  /** Cell (a, b) read from position k: nothing if the centre is within 0.9
      of the clearing, after two numbers; otherwise a sphere of radius 0.2
      with the material drawn next. */
  function Cell(sqrt: real -> real, rand: nat -> real, a: int, b: int, k: nat): CellResult
  {
    var center := CellCenter(rand, a, b, k);
    if Len(sqrt, Sub(center, Clearing)) <= 0.9 then CellResult([], k + 2)
    else
      var m := MaterialFrom(rand, k + 2);
      CellResult([SpherePrimitive(Sphere(center, 0.2), m.mat)], m.next)
  }

  /** The spheres of the cells from (a, b) on, row by row, with the stream
      at position k. (The position is part of the termination measure only
      so that literal coordinates do not make the verifier unfold the whole
      grid.) */
  function GridFrom(sqrt: real -> real, rand: nat -> real, a: int, b: int, k: nat): seq<Hittable>
    requires -11 <= a <= 11 && -11 <= b <= 11
    decreases 11 - a, 11 - b, k
  {
    if a == 11 then []
    else if b == 11 then GridFrom(sqrt, rand, a + 1, -11, k)
    else
      var cell := Cell(sqrt, rand, a, b, k);
      cell.spheres + GridFrom(sqrt, rand, a, b + 1, cell.next)
  }

  /** The scene CreateRandomScene builds from a stream of uniform numbers. */
  function RandomScene(sqrt: real -> real, rand: nat -> real, start: nat): seq<Hittable>
  {
    [Floor] + GridFrom(sqrt, rand, -11, -11, start) + [GlassSphere, DiffuseSphere, MetalSphere]
  }

  /** The material choice of CreateRandomScene's loop body, drawing from
      position k. */
  method DrawMaterial(rand: nat -> real, k: nat) returns (mat: Material, next: nat)
    ensures MaterialDraw(mat, next) == MaterialFrom(rand, k)
  {
    next := k;
    var materialChoice := rand(next);
    next := next + 1;
    if materialChoice < 0.8 {
      var r := rand(next) * rand(next + 1);
      var g := rand(next + 2) * rand(next + 3);
      var b := rand(next + 4) * rand(next + 5);
      assert Vec3(r, g, b) == DiffuseAlbedo(rand, next);
      next := next + 6;
      mat := Lambertian(Vec3(r, g, b));
    } else if materialChoice < 0.95 {
      var r := 0.5 * (1.0 + rand(next));
      var g := 0.5 * (1.0 + rand(next + 1));
      var b := 0.5 * (1.0 + rand(next + 2));
      var fuzz := rand(next + 3);
      assert Vec3(r, g, b) == MetalAlbedo(rand, next);
      next := next + 4;
      mat := Metallic(Vec3(r, g, b), fuzz);
    } else {
      mat := Dielectric(1.5);
    }
  }

  /** One row (fixed a) of CreateRandomScene's grid: the inner loop, which
      appends the row's spheres to scene0 while drawing from position k0. */
  method PlaceRow(sqrt: real -> real, rand: nat -> real, a: int, scene0: seq<Hittable>, k0: nat)
    returns (scene: seq<Hittable>, k: nat)
    requires -11 <= a < 11
    ensures scene + GridFrom(sqrt, rand, a + 1, -11, k) == scene0 + GridFrom(sqrt, rand, a, -11, k0)
  {
    scene, k := scene0, k0;
    ghost var goal := scene0 + GridFrom(sqrt, rand, a, -11, k0);
    for b := -11 to 11
      invariant scene + GridFrom(sqrt, rand, a, b, k) == goal
    {
      ghost var kc := k;
      var center := Vec3(a as real + 0.9 * rand(k), 0.2, b as real + rand(k + 1));
      assert center == CellCenter(rand, a, b, kc);
      k := k + 2;
      if Len(sqrt, Sub(center, Vec3(4.0, 0.2, 0.0))) <= 0.9 {
        SkipStep(sqrt, rand, a, b, kc, scene, goal);
        continue;
      }
      var sphere := Sphere(center, 0.2);
      var mat: Material;
      mat, k := DrawMaterial(rand, k);
      KeepStep(sqrt, rand, a, b, kc, scene, goal);
      scene := scene + [SpherePrimitive(sphere, mat)];
    }
    GridRowEnd(sqrt, rand, a, k);
  }

  /** The grid of CreateRandomScene: the outer loop, which appends the
      spheres of all rows to scene0 while drawing from position start. */
  method PlaceGrid(sqrt: real -> real, rand: nat -> real, scene0: seq<Hittable>, start: nat)
    returns (scene: seq<Hittable>)
    ensures scene == scene0 + GridFrom(sqrt, rand, -11, -11, start)
  {
    scene := scene0;
    var k: nat := start;
    for a := -11 to 11
      invariant scene + GridFrom(sqrt, rand, a, -11, k) == scene0 + GridFrom(sqrt, rand, -11, -11, start)
    {
      scene, k := PlaceRow(sqrt, rand, a, scene, k);
    }
    assert scene + [] == scene;
  }

  /** CreateRandomScene: the floor, the 22 x 22 grid of small spheres, then
      the three large ones; it builds exactly RandomScene. */
  method CreateRandomScene(sqrt: real -> real, rand: nat -> real, start: nat) returns (scene: seq<Hittable>)
    ensures scene == RandomScene(sqrt, rand, start)
  {
    scene := [];
    scene := scene + [Floor];
    EmptyAppend([Floor]);
    scene := PlaceGrid(sqrt, rand, scene, start);
    ghost var grid := scene;
    scene := scene + [GlassSphere];
    scene := scene + [DiffuseSphere];
    scene := scene + [MetalSphere];
    AppendThree(grid, GlassSphere, DiffuseSphere, MetalSphere);
  }

  lemma EmptyAppend<T>(xs: seq<T>)
    ensures [] + xs == xs
  {
  }

  lemma AppendThree<T>(xs: seq<T>, x: T, y: T, z: T)
    ensures xs + [x] + [y] + [z] == xs + [x, y, z]
  {
  }

  lemma AppendAssoc<T>(xs: seq<T>, ys: seq<T>, zs: seq<T>)
    ensures (xs + ys) + zs == xs + (ys + zs)
  {
  }

  /** The loop invariant of CreateRandomScene survives a skipped cell. */
  lemma SkipStep(sqrt: real -> real, rand: nat -> real, a: int, b: int, k: nat,
                 scene: seq<Hittable>, grid: seq<Hittable>)
    requires -11 <= a < 11 && -11 <= b < 11
    requires scene + GridFrom(sqrt, rand, a, b, k) == grid
    requires Len(sqrt, Sub(CellCenter(rand, a, b, k), Clearing)) <= 0.9
    ensures scene + GridFrom(sqrt, rand, a, b + 1, k + 2) == grid
  {
    GridStep(sqrt, rand, a, b, k);
    CellSkipped(sqrt, rand, a, b, k);
    assert [] + GridFrom(sqrt, rand, a, b + 1, k + 2) == GridFrom(sqrt, rand, a, b + 1, k + 2);
  }

  /** The loop invariant of CreateRandomScene survives a kept cell, whose
      sphere is appended. */
  lemma KeepStep(sqrt: real -> real, rand: nat -> real, a: int, b: int, k: nat,
                 scene: seq<Hittable>, grid: seq<Hittable>)
    requires -11 <= a < 11 && -11 <= b < 11
    requires scene + GridFrom(sqrt, rand, a, b, k) == grid
    requires Len(sqrt, Sub(CellCenter(rand, a, b, k), Clearing)) > 0.9
    ensures var m := MaterialFrom(rand, k + 2);
      scene + [SpherePrimitive(Sphere(CellCenter(rand, a, b, k), 0.2), m.mat)] + GridFrom(sqrt, rand, a, b + 1, m.next) == grid
  {
    var m := MaterialFrom(rand, k + 2);
    var h := SpherePrimitive(Sphere(CellCenter(rand, a, b, k), 0.2), m.mat);
    GridStep(sqrt, rand, a, b, k);
    CellKept(sqrt, rand, a, b, k);
    AppendAssoc(scene, [h], GridFrom(sqrt, rand, a, b + 1, m.next));
  }

  lemma GridStep(sqrt: real -> real, rand: nat -> real, a: int, b: int, k: nat)
    requires -11 <= a < 11 && -11 <= b < 11
    ensures GridFrom(sqrt, rand, a, b, k)
         == Cell(sqrt, rand, a, b, k).spheres + GridFrom(sqrt, rand, a, b + 1, Cell(sqrt, rand, a, b, k).next)
  {
  }

  lemma GridRowEnd(sqrt: real -> real, rand: nat -> real, a: int, k: nat)
    requires -11 <= a < 11
    ensures GridFrom(sqrt, rand, a, 11, k) == GridFrom(sqrt, rand, a + 1, -11, k)
  {
  }

  /** A cell whose centre is too close to the clearing adds nothing and
      consumes two numbers. */
  lemma CellSkipped(sqrt: real -> real, rand: nat -> real, a: int, b: int, k: nat)
    requires Len(sqrt, Sub(CellCenter(rand, a, b, k), Clearing)) <= 0.9
    ensures Cell(sqrt, rand, a, b, k) == CellResult([], k + 2)
  {
  }

  /** Any other cell adds one sphere of radius 0.2 at its centre, with the
      material drawn after the centre. */
  lemma CellKept(sqrt: real -> real, rand: nat -> real, a: int, b: int, k: nat)
    requires Len(sqrt, Sub(CellCenter(rand, a, b, k), Clearing)) > 0.9
    ensures Cell(sqrt, rand, a, b, k)
         == CellResult([SpherePrimitive(Sphere(CellCenter(rand, a, b, k), 0.2), MaterialFrom(rand, k + 2).mat)],
                       MaterialFrom(rand, k + 2).next)
  {
  }

  /** The number of cells from (a, b) on. */
  function CellsFrom(a: int, b: int): nat
    requires -11 <= a <= 11 && -11 <= b <= 11
  {
    if a == 11 then 0 else 22 * (10 - a) + (11 - b)
  }

  /** Each cell adds at most one sphere. */
  lemma {:induction false} GridLength(sqrt: real -> real, rand: nat -> real, a: int, b: int, k: nat)
    requires -11 <= a <= 11 && -11 <= b <= 11
    ensures |GridFrom(sqrt, rand, a, b, k)| <= CellsFrom(a, b)
    decreases 11 - a, 11 - b
  {
    if a < 11 {
      if b == 11 {
        GridLength(sqrt, rand, a + 1, -11, k);
      } else {
        GridLength(sqrt, rand, a, b + 1, Cell(sqrt, rand, a, b, k).next);
      }
    }
  }

  /** A sphere of the grid: radius 0.2, centre at height 0.2 and farther
      than 0.9 from the clearing. */
  predicate GridSphere(h: Hittable, sqrt: real -> real)
  {
    h.shape.Radius == 0.2 && h.shape.Center.y == 0.2 && Len(sqrt, Sub(h.shape.Center, Clearing)) > 0.9
  }

  lemma {:induction false} GridShape(sqrt: real -> real, rand: nat -> real, a: int, b: int, k: nat)
    requires -11 <= a <= 11 && -11 <= b <= 11
    ensures forall h :: h in GridFrom(sqrt, rand, a, b, k) ==> GridSphere(h, sqrt)
    decreases 11 - a, 11 - b
  {
    if a < 11 {
      if b == 11 {
        GridShape(sqrt, rand, a + 1, -11, k);
      } else {
        GridShape(sqrt, rand, a, b + 1, Cell(sqrt, rand, a, b, k).next);
      }
    }
  }

  /** The floor comes first and the glass, diffuse and metal spheres last,
      in that order, around at most 484 grid spheres, each of radius 0.2 at
      height 0.2 and clear of the clearing. */
  lemma RandomSceneShape(sqrt: real -> real, rand: nat -> real, start: nat)
    ensures var scene := RandomScene(sqrt, rand, start);
      4 <= |scene| <= 488 &&
      scene[0] == Floor &&
      scene[|scene| - 3..] == [GlassSphere, DiffuseSphere, MetalSphere] &&
      forall i :: 1 <= i < |scene| - 3 ==> GridSphere(scene[i], sqrt)
  {
    var grid := GridFrom(sqrt, rand, -11, -11, start);
    var scene := RandomScene(sqrt, rand, start);
    GridLength(sqrt, rand, -11, -11, start);
    GridShape(sqrt, rand, -11, -11, start);
    assert scene[|scene| - 3..] == [GlassSphere, DiffuseSphere, MetalSphere];
    forall i | 1 <= i < |scene| - 3
      ensures GridSphere(scene[i], sqrt)
    {
      assert scene[i] == grid[i - 1];
    }
  }

  /** Under a genuine square root, clear of the clearing means outside the
      ball of squared radius 0.81 around it. */
  lemma GridSphereClear(h: Hittable, sqrt: real -> real)
    requires IsSqrt(sqrt)
    requires GridSphere(h, sqrt)
    ensures LenSqr(Sub(h.shape.Center, Clearing)) > 0.81
  {
    var d := LenSqr(Sub(h.shape.Center, Clearing));
    LenSqrNonNegative(Sub(h.shape.Center, Clearing));
    Root(sqrt, d);
    SquareLess(0.9, sqrt(d));
  }

  /** Uniform numbers in [0,1). */
  ghost predicate Uniform(rand: nat -> real)
  {
    forall k :: 0.0 <= rand(k) < 1.0
  }

  /** Drawn from uniform numbers in [0,1), every grid material conserves
      energy: diffuse colours are products of two such numbers and metal
      colours lie in [0.5, 1). */
  lemma {:induction false} GridConserving(sqrt: real -> real, rand: nat -> real, a: int, b: int, k: nat)
    requires Uniform(rand)
    requires -11 <= a <= 11 && -11 <= b <= 11
    ensures ConservingWorld(GridFrom(sqrt, rand, a, b, k))
    decreases 11 - a, 11 - b
  {
    if a < 11 {
      if b == 11 {
        GridConserving(sqrt, rand, a + 1, -11, k);
      } else {
        GridConserving(sqrt, rand, a, b + 1, Cell(sqrt, rand, a, b, k).next);
        CellConserving(sqrt, rand, a, b, k);
      }
    }
  }

  /** A cell conserving energy followed by a conserving rest of the grid. */
  lemma CellConserving(sqrt: real -> real, rand: nat -> real, a: int, b: int, k: nat)
    requires Uniform(rand)
    requires -11 <= a < 11 && -11 <= b < 11
    requires ConservingWorld(GridFrom(sqrt, rand, a, b + 1, Cell(sqrt, rand, a, b, k).next))
    ensures ConservingWorld(GridFrom(sqrt, rand, a, b, k))
  {
    var cell := Cell(sqrt, rand, a, b, k);
    GridStep(sqrt, rand, a, b, k);
    MaterialConserving(rand, k + 2);
    assert ConservingWorld(cell.spheres);
    ConservingAppend(cell.spheres, GridFrom(sqrt, rand, a, b + 1, cell.next));
  }

  /** Every material drawn from uniform numbers conserves energy. */
  lemma MaterialConserving(rand: nat -> real, j: nat)
    requires Uniform(rand)
    ensures Conserving(MaterialFrom(rand, j).mat)
  {
    UnitProduct(rand(j + 1), rand(j + 2));
    UnitProduct(rand(j + 3), rand(j + 4));
    UnitProduct(rand(j + 5), rand(j + 6));
  }

  /** Two worlds that conserve energy make one. */
  lemma ConservingAppend(xs: seq<Hittable>, ys: seq<Hittable>)
    requires ConservingWorld(xs) && ConservingWorld(ys)
    ensures ConservingWorld(xs + ys)
  {
    forall i | 0 <= i < |xs + ys|
      ensures Conserving(MaterialOf((xs + ys)[i]))
    {
      if i >= |xs| {
        assert (xs + ys)[i] == ys[i - |xs|];
      }
    }
  }

  /** The random scene conserves energy, so every colour traced in it lies
      in the unit cube. */
  lemma RandomSceneConserving(sqrt: real -> real, rand: nat -> real, start: nat)
    requires Uniform(rand)
    ensures ConservingWorld(RandomScene(sqrt, rand, start))
  {
    var grid := GridFrom(sqrt, rand, -11, -11, start);
    GridConserving(sqrt, rand, -11, -11, start);
    var scene := RandomScene(sqrt, rand, start);
    forall i | 0 <= i < |scene|
      ensures Conserving(MaterialOf(scene[i]))
    {
      if 1 <= i < |scene| - 3 {
        assert scene[i] == grid[i - 1];
      }
    }
  }

  // ---------------------------------------------------------------------
  // Render

  /** An 8-bit channel value. */
  newtype uint8 = x: int | 0 <= x < 256

  /** A pixel of an image.NRGBA canvas. */
  datatype NRGBA = NRGBA(R: uint8, G: uint8, B: uint8, A: uint8)

  /** The random numbers one sample of one pixel uses: the jitter of its
      ray and the draws of that ray's bounces. */
  datatype SampleDraw = SampleDraw(du: real, dv: real, bounces: nat -> Draw)

  /** Go's float-to-integer conversion truncates toward zero. */
  function Truncate(x: real): int
  {
    if x >= 0.0 then x.Floor else -((-x).Floor)
  }

  /** uint8(255.99 * c). A value that does not fit in a byte (whose
      conversion Go leaves to the implementation) yields 0 here. */
  function Quantize(c: real): uint8
  {
    var q := Truncate(255.99 * c);
    if 0 <= q < 256 then q as uint8 else 0
  }

  /** The horizontal image coordinate of a sample in column i. */
  function SampleU(width: nat, i: nat, du: real): real
  {
    Quot(i as real + du, width as real)
  }

  /** The vertical image coordinate of a sample in row j, counted from the
      top: (height - j + dv) / height. */
  function SampleV(height: nat, j: nat, dv: real): real
  {
    Quot((height - j) as real + dv, height as real)
  }

  /** The colour of one sample of pixel (i, j). */
  function SampleColor(sqrt: real -> real, getRay: (real, real) -> Ray, world: seq<Hittable>,
                       width: nat, height: nat, i: nat, j: nat, d: SampleDraw): Vec3
  {
    GetColor(sqrt, getRay(SampleU(width, i, d.du), SampleV(height, j, d.dv)), world, 0, d.bounces)
  }

  /** The sum of the first n samples of pixel (i, j), added in order. */
  function SampleSum(sqrt: real -> real, getRay: (real, real) -> Ray, world: seq<Hittable>,
                     width: nat, height: nat, draws: (nat, nat, nat) -> SampleDraw, i: nat, j: nat, n: nat): Vec3
  {
    if n == 0 then Zero
    else Add(SampleSum(sqrt, getRay, world, width, height, draws, i, j, n - 1),
             SampleColor(sqrt, getRay, world, width, height, i, j, draws(i, j, n - 1)))
  }

  /** The mean of the samples of pixel (i, j), scaled by 1 / samples. */
  function Average(sqrt: real -> real, getRay: (real, real) -> Ray, world: seq<Hittable>,
                   width: nat, height: nat, samples: nat, draws: (nat, nat, nat) -> SampleDraw, i: nat, j: nat): Vec3
  {
    Mul(SampleSum(sqrt, getRay, world, width, height, draws, i, j, samples), Quot(1.0, samples as real))
  }

  /** Gamma correction with gamma 2: the square root of every channel. */
  function Gamma(sqrt: real -> real, c: Vec3): Vec3
  {
    Vec3(sqrt(c.x), sqrt(c.y), sqrt(c.z))
  }

  /** The pixel Render stores at (i, j): the gamma-corrected mean colour,
      quantised, and opaque. */
  function PixelAt(sqrt: real -> real, getRay: (real, real) -> Ray, world: seq<Hittable>,
                   width: nat, height: nat, samples: nat, draws: (nat, nat, nat) -> SampleDraw, i: nat, j: nat): NRGBA
  {
    var col := Gamma(sqrt, Average(sqrt, getRay, world, width, height, samples, draws, i, j));
    NRGBA(Quantize(col.x), Quantize(col.y), Quantize(col.z), 255)
  }

  /** One sample of pixel (i, j): its jittered image coordinates, the
      camera ray through them, and that ray's colour. */
  method TraceSample(sqrt: real -> real, getRay: (real, real) -> Ray, world: seq<Hittable>,
                     width: nat, height: nat, i: nat, j: nat, d: SampleDraw)
    returns (c: Vec3)
    ensures c == SampleColor(sqrt, getRay, world, width, height, i, j, d)
  {
    var u := Quot(i as real + d.du, width as real);
    var v := Quot((height - j) as real + d.dv, height as real);
    var r := getRay(u, v);
    c := GetColor(sqrt, r, world, 0, d.bounces);
  }

  /** The sample loop of one pixel: the colours of its samples, summed. */
  method SumSamples(sqrt: real -> real, getRay: (real, real) -> Ray, world: seq<Hittable>,
                    width: nat, height: nat, samples: nat, draws: (nat, nat, nat) -> SampleDraw, i: nat, j: nat)
    returns (col: Vec3)
    ensures col == SampleSum(sqrt, getRay, world, width, height, draws, i, j, samples)
  {
    col := Zero;
    for s := 0 to samples
      invariant col == SampleSum(sqrt, getRay, world, width, height, draws, i, j, s)
    {
      var c := TraceSample(sqrt, getRay, world, width, height, i, j, draws(i, j, s));
      col := Add(col, c);
    }
  }

  /** One pixel: the mean of its samples, gamma-corrected and quantised. */
  method ShadePixel(sqrt: real -> real, getRay: (real, real) -> Ray, world: seq<Hittable>,
                    width: nat, height: nat, samples: nat, draws: (nat, nat, nat) -> SampleDraw, i: nat, j: nat)
    returns (p: NRGBA)
    ensures p == PixelAt(sqrt, getRay, world, width, height, samples, draws, i, j)
  {
    var col := SumSamples(sqrt, getRay, world, width, height, samples, draws, i, j);
    col := Mul(col, Quot(1.0, samples as real));
    col := Vec3(sqrt(col.x), sqrt(col.y), sqrt(col.z));
    var ir, ig, ib := Quantize(col.x), Quantize(col.y), Quantize(col.z);
    p := NRGBA(ir, ig, ib, 255);
  }

  // Properties of the pixel computation

  /** For a draw in [0,1) the horizontal coordinate of a sample in column i
      lies in [i/width, (i+1)/width): the sample stays inside its pixel. */
  lemma SampleURange(width: nat, i: nat, du: real)
    requires i < width && 0.0 <= du < 1.0
    ensures (i as real) / (width as real) <= SampleU(width, i, du) < ((i + 1) as real) / (width as real)
  {
    var w := width as real;
    DivLess(i as real + du, (i + 1) as real, w);
    if du > 0.0 {
      DivLess(i as real, i as real + du, w);
    }
  }

  /** For a draw in [0,1) the vertical coordinate of a sample in row j lies
      in [(height-j)/height, (height-j+1)/height). */
  lemma SampleVRange(height: nat, j: nat, dv: real)
    requires j < height && 0.0 <= dv < 1.0
    ensures ((height - j) as real) / (height as real) <= SampleV(height, j, dv)
    ensures SampleV(height, j, dv) < ((height - j + 1) as real) / (height as real)
  {
    var h := height as real;
    DivLess((height - j) as real + dv, (height - j + 1) as real, h);
    if dv > 0.0 {
      DivLess((height - j) as real, (height - j) as real + dv, h);
    }
  }

  /** The rows are sampled one row higher than the image plane [0,1]: no
      sample has v below 1/height, and every sample of the top row j = 0 has
      v of at least 1. */
  lemma SampleVOffset(height: nat, j: nat, dv: real)
    requires j < height && 0.0 <= dv < 1.0
    ensures SampleV(height, j, dv) >= 1.0 / (height as real)
    ensures j == 0 ==> SampleV(height, j, dv) >= 1.0
  {
    SampleVRange(height, j, dv);
    var h := height as real;
    if 1 < height - j {
      DivLess(1.0, (height - j) as real, h);
    }
  }

  /** In a world that conserves energy the colour of every sample lies in
      the unit cube. */
  lemma SampleColorUnit(sqrt: real -> real, getRay: (real, real) -> Ray, world: seq<Hittable>,
                        width: nat, height: nat, i: nat, j: nat, d: SampleDraw)
    requires IsSqrt(sqrt)
    requires ConservingWorld(world)
    ensures InUnitCube(SampleColor(sqrt, getRay, world, width, height, i, j, d))
  {
    GetColorUnit(sqrt, getRay(SampleU(width, i, d.du), SampleV(height, j, d.dv)), world, 0, d.bounces);
  }

  /** Adding a colour of the unit cube to one with channels in [0, n - 1]
      gives channels in [0, n]. */
  lemma AddUnit(sum: Vec3, c: Vec3, n: nat)
    requires n > 0
    requires 0.0 <= sum.x <= (n - 1) as real && 0.0 <= sum.y <= (n - 1) as real && 0.0 <= sum.z <= (n - 1) as real
    requires InUnitCube(c)
    ensures var s := Add(sum, c);
      0.0 <= s.x <= n as real && 0.0 <= s.y <= n as real && 0.0 <= s.z <= n as real
  {
  }

  /** In a world that conserves energy each channel of the sum of n samples
      lies in [0, n]. */
  lemma {:induction false} SampleSumRange(sqrt: real -> real, getRay: (real, real) -> Ray, world: seq<Hittable>,
                                          width: nat, height: nat, draws: (nat, nat, nat) -> SampleDraw,
                                          i: nat, j: nat, n: nat)
    requires IsSqrt(sqrt)
    requires ConservingWorld(world)
    ensures var c := SampleSum(sqrt, getRay, world, width, height, draws, i, j, n);
      0.0 <= c.x <= n as real && 0.0 <= c.y <= n as real && 0.0 <= c.z <= n as real
  {
    if n > 0 {
      SampleSumRange(sqrt, getRay, world, width, height, draws, i, j, n - 1);
      SampleColorUnit(sqrt, getRay, world, width, height, i, j, draws(i, j, n - 1));
      AddUnit(SampleSum(sqrt, getRay, world, width, height, draws, i, j, n - 1),
              SampleColor(sqrt, getRay, world, width, height, i, j, draws(i, j, n - 1)), n);
    }
  }

  /** A channel in [0, n] scaled by 1/n lies in [0, 1]. */
  lemma ScaleUnit(c: real, n: real)
    requires n > 0.0 && 0.0 <= c <= n
    ensures 0.0 <= c * (1.0 / n) <= 1.0
  {
    MulNonNegative(c, 1.0 / n);
    assert c * (1.0 / n) == c / n;
    if c < n {
      DivLess(c, n, n);
    }
  }

  /** A colour with channels in [0, n] scaled by 1/n lies in the unit cube. */
  lemma MeanUnit(c: Vec3, n: nat)
    requires n > 0
    requires 0.0 <= c.x <= n as real && 0.0 <= c.y <= n as real && 0.0 <= c.z <= n as real
    ensures InUnitCube(Mul(c, Quot(1.0, n as real)))
  {
    ScaleUnit(c.x, n as real);
    ScaleUnit(c.y, n as real);
    ScaleUnit(c.z, n as real);
  }

  /** With at least one sample the mean colour of a pixel lies in the unit
      cube. */
  lemma AverageUnit(sqrt: real -> real, getRay: (real, real) -> Ray, world: seq<Hittable>,
                    width: nat, height: nat, samples: nat, draws: (nat, nat, nat) -> SampleDraw, i: nat, j: nat)
    requires IsSqrt(sqrt)
    requires ConservingWorld(world)
    requires samples > 0
    ensures InUnitCube(Average(sqrt, getRay, world, width, height, samples, draws, i, j))
  {
    SampleSumRange(sqrt, getRay, world, width, height, draws, i, j, samples);
    MeanUnit(SampleSum(sqrt, getRay, world, width, height, draws, i, j, samples), samples);
  }

  /** Gamma correction keeps a colour in the unit cube, and squaring its
      channels gives the colour back. */
  lemma GammaUnit(sqrt: real -> real, c: Vec3)
    requires IsSqrt(sqrt)
    requires InUnitCube(c)
    ensures InUnitCube(Gamma(sqrt, c))
    ensures Hadamard(Gamma(sqrt, c), Gamma(sqrt, c)) == c
  {
    SqrtUnitInterval(sqrt, c.x);
    SqrtUnitInterval(sqrt, c.y);
    SqrtUnitInterval(sqrt, c.z);
    Root(sqrt, c.x);
    Root(sqrt, c.y);
    Root(sqrt, c.z);
  }

  /** A channel in [0, 1] quantises to floor(255.99 c), a value in 0..255;
      0 maps to 0 and 1 to 255. */
  lemma QuantizeRange(c: real)
    requires 0.0 <= c <= 1.0
    ensures Quantize(c) as int == (255.99 * c).Floor
    ensures c == 0.0 ==> Quantize(c) == 0
    ensures c == 1.0 ==> Quantize(c) == 255
  {
    MulNonNegative(255.99, c);
    assert 255.99 * c <= 255.99;
  }

  /** In a world that conserves energy, and with at least one sample, every
      pixel is opaque and its channels are floor(255.99 c) of the
      gamma-corrected mean colour c, which lies in the unit cube. */
  lemma PixelChannels(sqrt: real -> real, getRay: (real, real) -> Ray, world: seq<Hittable>,
                      width: nat, height: nat, samples: nat, draws: (nat, nat, nat) -> SampleDraw, i: nat, j: nat)
    requires IsSqrt(sqrt)
    requires ConservingWorld(world)
    requires samples > 0
    ensures var c := Gamma(sqrt, Average(sqrt, getRay, world, width, height, samples, draws, i, j));
      var p := PixelAt(sqrt, getRay, world, width, height, samples, draws, i, j);
      InUnitCube(c) && p.A == 255 &&
      p.R as int == (255.99 * c.x).Floor && p.G as int == (255.99 * c.y).Floor && p.B as int == (255.99 * c.z).Floor
  {
    var avg := Average(sqrt, getRay, world, width, height, samples, draws, i, j);
    AverageUnit(sqrt, getRay, world, width, height, samples, draws, i, j);
    GammaUnit(sqrt, avg);
    var c := Gamma(sqrt, avg);
    QuantizeRange(c.x);
    QuantizeRange(c.y);
    QuantizeRange(c.z);
  }

  /** The same for the random scene when its numbers are uniform in [0,1). */
  lemma ScenePixelChannels(sqrt: real -> real, getRay: (real, real) -> Ray, rand: nat -> real, start: nat,
                           width: nat, height: nat, samples: nat, draws: (nat, nat, nat) -> SampleDraw, i: nat, j: nat)
    requires IsSqrt(sqrt)
    requires Uniform(rand)
    requires samples > 0
    ensures var world := RandomScene(sqrt, rand, start);
      var c := Gamma(sqrt, Average(sqrt, getRay, world, width, height, samples, draws, i, j));
      var p := PixelAt(sqrt, getRay, world, width, height, samples, draws, i, j);
      InUnitCube(c) && p.A == 255 &&
      p.R as int == (255.99 * c.x).Floor && p.G as int == (255.99 * c.y).Floor && p.B as int == (255.99 * c.z).Floor
  {
    RandomSceneConserving(sqrt, rand, start);
    PixelChannels(sqrt, getRay, RandomScene(sqrt, rand, start), width, height, samples, draws, i, j);
  }

  /** pixel maps every position of a width x height canvas to the pixel
      Render computes there. */
  ghost predicate Shading(pixel: (nat, nat) -> NRGBA, sqrt: real -> real, getRay: (real, real) -> Ray,
                          world: seq<Hittable>, width: nat, height: nat, samples: nat,
                          draws: (nat, nat, nat) -> SampleDraw)
  {
    forall i, j {:trigger PixelAt(sqrt, getRay, world, width, height, samples, draws, i, j)} ::
      0 <= i < width && 0 <= j < height ==>
      pixel(i, j) == PixelAt(sqrt, getRay, world, width, height, samples, draws, i, j)
  }

  /** The body of the column loop: shades pixel (i, j) and stores it, leaving
      every other pixel alone. The ghost map pixel names the values the
      canvas is to receive. */
  method SetPixel(canvas: array2<NRGBA>, sqrt: real -> real, getRay: (real, real) -> Ray, world: seq<Hittable>,
                  samples: nat, draws: (nat, nat, nat) -> SampleDraw, i: nat, j: nat, ghost pixel: (nat, nat) -> NRGBA)
    requires i < canvas.Length0 && j < canvas.Length1
    requires Shading(pixel, sqrt, getRay, world, canvas.Length0, canvas.Length1, samples, draws)
    modifies canvas
    ensures canvas[i, j] == pixel(i, j)
    ensures forall i', j' :: 0 <= i' < canvas.Length0 && 0 <= j' < canvas.Length1 && (i', j') != (i, j) ==>
      canvas[i', j'] == old(canvas[i', j'])
  {
    var p := ShadePixel(sqrt, getRay, world, canvas.Length0, canvas.Length1, samples, draws, i, j);
    canvas[i, j] := p;
  }

  /** The column loop of row j: shades every pixel of the row and leaves
      the other rows alone. */
  method ShadeRow(canvas: array2<NRGBA>, sqrt: real -> real, getRay: (real, real) -> Ray, world: seq<Hittable>,
                  samples: nat, draws: (nat, nat, nat) -> SampleDraw, j: nat, ghost pixel: (nat, nat) -> NRGBA)
    requires j < canvas.Length1
    requires Shading(pixel, sqrt, getRay, world, canvas.Length0, canvas.Length1, samples, draws)
    modifies canvas
    ensures forall i :: 0 <= i < canvas.Length0 ==> canvas[i, j] == pixel(i, j)
    ensures forall i, j' :: 0 <= i < canvas.Length0 && 0 <= j' < canvas.Length1 && j' != j ==>
      canvas[i, j'] == old(canvas[i, j'])
  {
    for i := 0 to canvas.Length0
      invariant forall i' :: 0 <= i' < i ==> canvas[i', j] == pixel(i', j)
      invariant forall i', j' :: 0 <= i' < canvas.Length0 && 0 <= j' < canvas.Length1 && j' != j ==>
        canvas[i', j'] == old(canvas[i', j'])
    {
      SetPixel(canvas, sqrt, getRay, world, samples, draws, i, j, pixel);
    }
  }

  /** Render: builds the random scene, then fills the width x height canvas
      row by row; every pixel ends up holding PixelAt for the scene. The
      camera is the supplied map getRay from image coordinates to rays. */
  method Render(sqrt: real -> real, width: nat, height: nat, samples: nat, getRay: (real, real) -> Ray,
                rand: nat -> real, start: nat, draws: (nat, nat, nat) -> SampleDraw)
    returns (canvas: array2<NRGBA>)
    ensures fresh(canvas)
    ensures canvas.Length0 == width && canvas.Length1 == height
    ensures forall i, j :: 0 <= i < width && 0 <= j < height ==>
      canvas[i, j] == PixelAt(sqrt, getRay, RandomScene(sqrt, rand, start), width, height, samples, draws, i, j)
  {
    canvas := new NRGBA[width, height]((i, j) => NRGBA(0, 0, 0, 0));
    var world := CreateRandomScene(sqrt, rand, start);
    ghost var pixel := (i: nat, j: nat) => PixelAt(sqrt, getRay, world, width, height, samples, draws, i, j);
    for j := 0 to height
      invariant forall i, j' :: 0 <= i < width && 0 <= j' < j ==> canvas[i, j'] == pixel(i, j')
    {
      ShadeRow(canvas, sqrt, getRay, world, samples, draws, j, pixel);
    }
  }
}
