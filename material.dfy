/**
 * Surface materials (material.go): mirror reflection, refraction, Schlick's
 * approximation, the rejection sampler for a point in the unit ball, and the
 * Scatter rule of each material.
 *
 * Every random number the Go code draws is an input here: a Scatter call
 * receives a Draw holding the ball sample and the uniform number it would
 * have drawn, and the ball sampler reads its uniform numbers from a sequence.
 */
module Materials {
  import opened Vectors
  import opened Rays
  import opened Records

  // ---------------------------------------------------------------------
  // reflect

  /** The mirror image of v in the plane with normal n: v - 2 (v.n) n. */
  function Reflect(v: Vec3, n: Vec3): Vec3
  {
    Sub(v, Mul(n, 2.0 * Dot(v, n)))
  }

  /** For a unit normal, reflection flips the normal component. */
  lemma ReflectDot(v: Vec3, n: Vec3)
    requires LenSqr(n) == 1.0
    ensures Dot(Reflect(v, n), n) == -Dot(v, n)
  {
    DotSub(v, Mul(n, 2.0 * Dot(v, n)), n);
    DotMul(n, 2.0 * Dot(v, n), n);
  }

  /** For a unit normal, reflecting twice gives the vector back. */
  lemma ReflectInvolution(v: Vec3, n: Vec3)
    requires LenSqr(n) == 1.0
    ensures Reflect(Reflect(v, n), n) == v
  {
    ReflectDot(v, n);
  }

  /** For a unit normal, reflection preserves length. */
  lemma ReflectLength(v: Vec3, n: Vec3)
    requires LenSqr(n) == 1.0
    ensures LenSqr(Reflect(v, n)) == LenSqr(v)
  {
    var k := 2.0 * Dot(v, n);
    LenSqrSubMul(v, n, k);
    assert LenSqr(Reflect(v, n)) == LenSqr(v) - 2.0 * k * Dot(v, n) + k * k * 1.0;
  }

  // ---------------------------------------------------------------------
  // refract

  /** refract's two results: whether the ray is refracted, and the refracted
      direction (the zero vector when it is not). */
  datatype Refraction = Refraction(isRefracted: bool, refracted: Vec3)

  /** The cosine between the normalised v and n. */
  function RefractCosine(sqrt: real -> real, v: Vec3, n: Vec3): real
  {
    Dot(Normalize(sqrt, v), n)
  }

  /** 1 - ratio^2 (1 - dt^2): the squared normal component of the refracted
      direction, negative under total internal reflection. */
  function RefractDiscriminant(sqrt: real -> real, v: Vec3, n: Vec3, refractRatio: real): real
  {
    var dt := RefractCosine(sqrt, v, n);
    1.0 - refractRatio * refractRatio * (1.0 - dt * dt)
  }

  /** Snell's law for unit v and n: refraction succeeds only for a strictly
      positive discriminant; the result is ratio (uv - dt n) - sqrt(disc) n. */
  function Refract(sqrt: real -> real, v: Vec3, n: Vec3, refractRatio: real): Refraction
  {
    var uv := Normalize(sqrt, v);
    var dt := Dot(uv, n);
    var discriminant := RefractDiscriminant(sqrt, v, n, refractRatio);
    if discriminant > 0.0 then
      var a := Mul(Sub(uv, Mul(n, dt)), refractRatio);
      var b := Mul(n, sqrt(discriminant));
      Refraction(true, Sub(a, b))
    else
      Refraction(false, Zero)
  }

  /** Refraction fails exactly when the discriminant is at most 0, and a
      failed refraction reports the zero vector. */
  lemma RefractFailsIff(sqrt: real -> real, v: Vec3, n: Vec3, refractRatio: real)
    ensures var res := Refract(sqrt, v, n, refractRatio);
      (!res.isRefracted <==> RefractDiscriminant(sqrt, v, n, refractRatio) <= 0.0) &&
      (!res.isRefracted ==> res.refracted == Zero)
  {
  }

  /** For a unit normal and a nonzero v, a refracted direction is a unit
      vector whose normal component is -sqrt(disc) and whose tangential part
      is the ratio times that of the normalised v. */
  lemma RefractUnit(sqrt: real -> real, v: Vec3, n: Vec3, refractRatio: real)
    requires IsSqrt(sqrt)
    requires LenSqr(n) == 1.0 && v != Zero
    requires Refract(sqrt, v, n, refractRatio).isRefracted
    ensures var w := Refract(sqrt, v, n, refractRatio).refracted;
      var uv := Normalize(sqrt, v);
      LenSqr(w) == 1.0 &&
      Dot(w, n) == -sqrt(RefractDiscriminant(sqrt, v, n, refractRatio)) &&
      Sub(w, Mul(n, Dot(w, n))) == Mul(Sub(uv, Mul(n, Dot(uv, n))), refractRatio)
  {
    var uv := Normalize(sqrt, v);
    var dt := Dot(uv, n);
    var disc := RefractDiscriminant(sqrt, v, n, refractRatio);
    var q := sqrt(disc);
    Root(sqrt, disc);
    NormalizeLength(sqrt, v);
    var a := Mul(Sub(uv, Mul(n, dt)), refractRatio);
    TangentialPart(uv, n, refractRatio);
    OrthogonalSplit(a, n, q);
  }

  /** The tangential part uv - (uv.n) n of a unit uv is orthogonal to the
      unit n and has squared length 1 - (uv.n)^2. */
  lemma Tangent(uv: Vec3, n: Vec3)
    requires LenSqr(uv) == 1.0 && LenSqr(n) == 1.0
    ensures Dot(Sub(uv, Mul(n, Dot(uv, n))), n) == 0.0
    ensures LenSqr(Sub(uv, Mul(n, Dot(uv, n)))) == 1.0 - Dot(uv, n) * Dot(uv, n)
  {
    var dt := Dot(uv, n);
    LenSqrSubMul(uv, n, dt);
    DotSub(uv, Mul(n, dt), n);
    DotMul(n, dt, n);
  }

  /** The same part scaled by ratio. */
  lemma TangentialPart(uv: Vec3, n: Vec3, ratio: real)
    requires LenSqr(uv) == 1.0 && LenSqr(n) == 1.0
    ensures Dot(Mul(Sub(uv, Mul(n, Dot(uv, n))), ratio), n) == 0.0
    ensures LenSqr(Mul(Sub(uv, Mul(n, Dot(uv, n))), ratio))
         == ratio * ratio * (1.0 - Dot(uv, n) * Dot(uv, n))
  {
    var t := Sub(uv, Mul(n, Dot(uv, n)));
    Tangent(uv, n);
    LenSqrMul(t, ratio);
    DotMul(t, ratio, n);
  }

  /** a - q n for a orthogonal to the unit n: its normal component is -q,
      its tangential part is a, and its squared length is |a|^2 + q^2. */
  lemma OrthogonalSplit(a: Vec3, n: Vec3, q: real)
    requires Dot(a, n) == 0.0 && LenSqr(n) == 1.0
    ensures var w := Sub(a, Mul(n, q));
      LenSqr(w) == LenSqr(a) + q * q && Dot(w, n) == -q && Sub(w, Mul(n, Dot(w, n))) == a
  {
    var w := Sub(a, Mul(n, q));
    LenSqrSubMul(a, n, q);
    DotSub(a, Mul(n, q), n);
    DotMul(n, q, n);
    assert Dot(w, n) == -q;
  }

  // ---------------------------------------------------------------------
  // schlick

  /** math.Pow(x, 5). */
  function Pow5(x: real): real
  {
    x * x * x * x * x
  }

  /** The reflectance at normal incidence, ((1 - eta) / (1 + eta))^2. */
  function NormalReflectance(refract: real): real
  {
    var r0 := Quot(1.0 - refract, 1.0 + refract);
    r0 * r0
  }

  /** Schlick's approximation of the reflection coefficient. */
  function Schlick(cosine: real, refract: real): real
  {
    var r0 := NormalReflectance(refract);
    r0 + (1.0 - r0) * Pow5(1.0 - cosine)
  }

  /** At cosine 1 the approximation is the normal reflectance, at cosine 0 it
      is full reflection. */
  lemma SchlickEnds(refract: real)
    ensures Schlick(1.0, refract) == NormalReflectance(refract)
    ensures Schlick(0.0, refract) == 1.0
  {
  }

  lemma UnitProduct(a: real, b: real)
    requires 0.0 <= a <= 1.0 && 0.0 <= b <= 1.0
    ensures 0.0 <= a * b <= 1.0
  {
    MulNonNegative(a, b);
    MulNonNegative(a, 1.0 - b);
  }

  lemma UnitSquare(x: real)
    requires -1.0 <= x <= 1.0
    ensures 0.0 <= x * x <= 1.0
  {
    if x >= 0.0 {
      UnitProduct(x, x);
    } else {
      UnitProduct(-x, -x);
      assert (-x) * (-x) == x * x;
    }
  }

  /** A number whose square is below 1 lies in (-1, 1). */
  lemma SquareBelowOne(x: real)
    requires x * x < 1.0
    ensures -1.0 < x < 1.0
  {
    if x < -1.0 {
      SquareLess(1.0, -x);
      assert false;
    } else if x > 1.0 {
      SquareLess(1.0, x);
      assert false;
    }
  }

  /** For a non-negative index of refraction the normal reflectance lies in
      [0,1]. */
  lemma NormalReflectanceUnit(refract: real)
    requires refract >= 0.0
    ensures 0.0 <= NormalReflectance(refract) <= 1.0
  {
    var a := 1.0 - refract;
    var b := 1.0 + refract;
    var r0 := a / b;
    assert r0 * b == a;
    if r0 > 1.0 {
      MulPositive(r0 - 1.0, b);
      assert false;
    }
    if r0 < -1.0 {
      MulPositive(-1.0 - r0, b);
      assert false;
    }
    UnitSquare(r0);
  }

  /** For a cosine in [0,1] and a non-negative index of refraction the
      coefficient lies between the normal reflectance and 1. */
  lemma SchlickBounds(cosine: real, refract: real)
    requires 0.0 <= cosine <= 1.0 && refract >= 0.0
    ensures NormalReflectance(refract) <= Schlick(cosine, refract) <= 1.0
    ensures 0.0 <= Schlick(cosine, refract)
  {
    var y := 1.0 - cosine;
    UnitProduct(y, y);
    UnitProduct(y * y, y);
    UnitProduct(y * y * y, y);
    UnitProduct(y * y * y * y, y);
    var p := Pow5(y);
    var r0 := NormalReflectance(refract);
    NormalReflectanceUnit(refract);
    MulNonNegative(1.0 - r0, p);
    MulNonNegative(1.0 - r0, 1.0 - p);
  }

  // ---------------------------------------------------------------------
  // randomInsideUnitSphere

  /** The candidate point built from the three uniform numbers at i:
      each coordinate is 2 u - 1. */
  function Candidate(draws: seq<real>, i: nat): Vec3
    requires i + 3 <= |draws|
  {
    Vec3(2.0 * draws[i] - 1.0, 2.0 * draws[i + 1] - 1.0, 2.0 * draws[i + 2] - 1.0)
  }

  /** The first candidate, reading from i in steps of three, that lies
      strictly inside the unit ball; None when the numbers run out first. */
  function FirstInside(draws: seq<real>, i: nat): Option<Vec3>
    requires i <= |draws|
    decreases |draws| - i
  {
    if i + 3 > |draws| then None
    else if LenSqr(Candidate(draws, i)) < 1.0 then Some(Candidate(draws, i))
    else FirstInside(draws, i + 3)
  }

  /** randomInsideUnitSphere: starts outside the ball at (99, 99, 99) and
      draws a new candidate while the current one is outside. The draws are a
      finite sequence, so the search may end without a point. */
  method RandomInsideUnitSphere(draws: seq<real>) returns (p: Option<Vec3>)
    ensures p == FirstInside(draws, 0)
  {
    var q := Vec3(99.0, 99.0, 99.0);
    var i := 0;
    while LenSqr(q) >= 1.0 && i + 3 <= |draws|
      invariant 0 <= i <= |draws|
      invariant LenSqr(q) >= 1.0 ==> FirstInside(draws, i) == FirstInside(draws, 0)
      invariant LenSqr(q) < 1.0 ==> FirstInside(draws, 0) == Some(q)
      decreases |draws| - i
    {
      var x := 2.0 * draws[i] - 1.0;
      var y := 2.0 * draws[i + 1] - 1.0;
      var z := 2.0 * draws[i + 2] - 1.0;
      q := Vec3(x, y, z);
      i := i + 3;
    }
    if LenSqr(q) < 1.0 {
      p := Some(q);
    } else {
      p := None;
    }
  }

  /** A point the sampler returns lies strictly inside the unit ball and is
      one of the candidates. */
  lemma {:induction false} FirstInsideInBall(draws: seq<real>, i: nat)
    requires i <= |draws|
    ensures var p := FirstInside(draws, i);
      p.Some? ==> LenSqr(p.value) < 1.0 &&
                  exists m: nat :: i + 3 * m + 3 <= |draws| && p.value == Candidate(draws, i + 3 * m)
    decreases |draws| - i
  {
    if i + 3 <= |draws| && LenSqr(Candidate(draws, i)) >= 1.0 {
      FirstInsideInBall(draws, i + 3);
      var p := FirstInside(draws, i);
      if p.Some? {
        var m: nat :| i + 3 + 3 * m + 3 <= |draws| && p.value == Candidate(draws, i + 3 + 3 * m);
        assert i + 3 * (m + 1) == i + 3 + 3 * m;
      }
    } else if i + 3 <= |draws| {
      assert Candidate(draws, i) == Candidate(draws, i + 3 * 0);
    }
  }

  /** The sampler finds nothing exactly when every candidate lies outside
      the ball. */
  lemma {:induction false} FirstInsideNoneIff(draws: seq<real>, i: nat)
    requires i <= |draws|
    ensures FirstInside(draws, i) == None <==>
      forall m: nat :: i + 3 * m + 3 <= |draws| ==> LenSqr(Candidate(draws, i + 3 * m)) >= 1.0
    decreases |draws| - i
  {
    if i + 3 <= |draws| {
      FirstInsideNoneIff(draws, i + 3);
      if FirstInside(draws, i) == None {
        forall m: nat | i + 3 * m + 3 <= |draws|
          ensures LenSqr(Candidate(draws, i + 3 * m)) >= 1.0
        {
          if m > 0 {
            var m': nat := m - 1;
            assert i + 3 * m == i + 3 + 3 * m';
          }
        }
      } else {
        if LenSqr(Candidate(draws, i)) >= 1.0 {
          var m': nat :| i + 3 + 3 * m' + 3 <= |draws| && LenSqr(Candidate(draws, i + 3 + 3 * m')) < 1.0;
          assert i + 3 * (m' + 1) == i + 3 + 3 * m';
        } else {
          assert Candidate(draws, i) == Candidate(draws, i + 3 * 0);
        }
      }
    }
  }

  /** Uniform numbers in [0,1) give candidate coordinates in [-1,1). */
  lemma CandidateInCube(draws: seq<real>, i: nat)
    requires i + 3 <= |draws|
    requires forall k :: 0 <= k < |draws| ==> 0.0 <= draws[k] < 1.0
    ensures var p := Candidate(draws, i);
      -1.0 <= p.x < 1.0 && -1.0 <= p.y < 1.0 && -1.0 <= p.z < 1.0
  {
  }

  // ---------------------------------------------------------------------
  // Scatter

  /** The random numbers one Scatter call consumes: the point of the unit
      ball from randomInsideUnitSphere and the uniform number of the
      dielectric's choice. */
  datatype Draw = Draw(inSphere: Vec3, uniform: real)

  /** What the Go generators guarantee of a draw. */
  predicate ValidDraw(d: Draw)
  {
    LenSqr(d.inSphere) < 1.0 && 0.0 <= d.uniform < 1.0
  }

  /** The point the sampler returns, paired with a uniform number in [0,1),
      is a valid draw. */
  lemma SampledDrawValid(draws: seq<real>, uniform: real)
    requires FirstInside(draws, 0).Some?
    requires 0.0 <= uniform < 1.0
    ensures ValidDraw(Draw(FirstInside(draws, 0).value, uniform))
  {
    FirstInsideInBall(draws, 0);
  }

  /** With a unit normal and a valid draw, a diffuse surface scatters to the
      normal's side. */
  lemma LambertianValidDraw(sqrt: real -> real, albedo: Vec3, rIn: Ray, hit: HitRecord, draw: Draw)
    requires LenSqr(hit.Normal) == 1.0 && ValidDraw(draw)
    ensures var res := Scatter(sqrt, Lambertian(albedo), rIn, hit, draw);
      res.isScattered && Dot(Direction(res.scattered), hit.Normal) > 0.0
  {
    LambertianAboveSurface(albedo, hit, draw.inSphere);
  }

  /** Scatter's three results. */
  datatype Scattered = Scattered(isScattered: bool, attenuation: Vec3, scattered: Ray)

  /** Lambertian.Scatter: a ray from the hit point towards P + Normal + the
      ball sample. */
  function LambertianScatter(albedo: Vec3, hit: HitRecord, sample: Vec3): Scattered
  {
    var target := Add(Add(hit.P, hit.Normal), sample);
    Scattered(true, albedo, Ray(hit.P, Sub(target, hit.P)))
  }

  /** A diffuse bounce always scatters, keeps the albedo, starts at the hit
      point and heads along Normal + sample. */
  lemma LambertianScatterShape(albedo: Vec3, hit: HitRecord, sample: Vec3)
    ensures var res := LambertianScatter(albedo, hit, sample);
      res.isScattered && res.attenuation == albedo &&
      Origin(res.scattered) == hit.P && Direction(res.scattered) == Add(hit.Normal, sample)
  {
  }

  /** With a unit normal and a sample inside the unit ball, the diffuse
      direction leaves on the normal's side of the surface. */
  lemma LambertianAboveSurface(albedo: Vec3, hit: HitRecord, sample: Vec3)
    requires LenSqr(hit.Normal) == 1.0 && LenSqr(sample) < 1.0
    ensures Dot(Direction(LambertianScatter(albedo, hit, sample).scattered), hit.Normal) > 0.0
  {
    var x := Dot(sample, hit.Normal);
    CauchySchwarz(sample, hit.Normal);
    assert x * x <= LenSqr(sample) * 1.0;
    SquareBelowOne(x);
    var w := Direction(LambertianScatter(albedo, hit, sample).scattered);
    assert w == Add(hit.Normal, sample);
    DotAdd(hit.Normal, sample, hit.Normal);
    DotSym(hit.Normal, sample);
  }

  /** Metallic.Scatter: the mirror image of the normalised incoming direction,
      displaced by Fuzziness times the ball sample; it scatters only when the
      result leaves on the normal's side. */
  function MetallicScatter(sqrt: real -> real, albedo: Vec3, fuzziness: real, rIn: Ray, hit: HitRecord, sample: Vec3): Scattered
  {
    var fuzz := Mul(sample, fuzziness);
    var reflected := Reflect(Normalize(sqrt, Direction(rIn)), hit.Normal);
    var scattered := Ray(hit.P, Add(reflected, fuzz));
    Scattered(Dot(Direction(scattered), hit.Normal) > 0.0, albedo, scattered)
  }

  /** A metal bounce keeps the albedo, starts at the hit point, and reports
      scattering exactly when the new direction has a positive normal
      component; without fuzz it is the exact mirror direction. */
  lemma MetallicScatterShape(sqrt: real -> real, albedo: Vec3, fuzziness: real, rIn: Ray, hit: HitRecord, sample: Vec3)
    ensures var res := MetallicScatter(sqrt, albedo, fuzziness, rIn, hit, sample);
      res.attenuation == albedo && Origin(res.scattered) == hit.P &&
      (res.isScattered <==> Dot(Direction(res.scattered), hit.Normal) > 0.0) &&
      (fuzziness == 0.0 ==> Direction(res.scattered) == Reflect(Normalize(sqrt, Direction(rIn)), hit.Normal))
  {
  }

  /** A polished metal hit by a ray travelling against a unit normal always
      scatters. */
  lemma MetallicMirrorScatters(sqrt: real -> real, albedo: Vec3, rIn: Ray, hit: HitRecord, sample: Vec3)
    requires IsSqrt(sqrt)
    requires LenSqr(hit.Normal) == 1.0 && Dot(Direction(rIn), hit.Normal) < 0.0
    ensures MetallicScatter(sqrt, albedo, 0.0, rIn, hit, sample).isScattered
  {
    var d := Direction(rIn);
    LenSqrPositive(d);
    SqrtPositive(sqrt, LenSqr(d));
    var k := Quot(1.0, Len(sqrt, d));
    assert k == 1.0 / Len(sqrt, d);
    assert k > 0.0;
    DotMul(d, k, hit.Normal);
    MulPositive(-Dot(d, hit.Normal), k);
    ReflectDot(Normalize(sqrt, d), hit.Normal);
    assert Add(Reflect(Normalize(sqrt, d), hit.Normal), Mul(sample, 0.0)) == Reflect(Normalize(sqrt, d), hit.Normal);
  }

  /** The normal the dielectric refracts against: the hit normal turned
      towards the incoming ray. */
  function OutwardNormal(rIn: Ray, hit: HitRecord): Vec3
  {
    if Dot(Direction(rIn), hit.Normal) > 0.0 then Mul(hit.Normal, -1.0) else hit.Normal
  }

  /** The ratio of refraction indices: Refractance when leaving the body,
      1/Refractance when entering it. */
  function RefractRatio(refractance: real, rIn: Ray, hit: HitRecord): real
  {
    if Dot(Direction(rIn), hit.Normal) > 0.0 then refractance else Quot(1.0, refractance)
  }

  /** The cosine handed to schlick. */
  function DielectricCosine(sqrt: real -> real, refractance: real, rIn: Ray, hit: HitRecord): real
  {
    var d := Direction(rIn);
    if Dot(d, hit.Normal) > 0.0 then Quot(refractance * Dot(d, hit.Normal), Len(sqrt, d))
    else Quot(-1.0 * Dot(d, hit.Normal), Len(sqrt, d))
  }

  /** The probability of reflection: Schlick's coefficient when refraction is
      possible, 1 otherwise. */
  function ReflectProb(sqrt: real -> real, refractance: real, rIn: Ray, hit: HitRecord): real
  {
    if Refract(sqrt, Direction(rIn), OutwardNormal(rIn, hit), RefractRatio(refractance, rIn, hit)).isRefracted
    then Schlick(DielectricCosine(sqrt, refractance, rIn, hit), refractance)
    else 1.0
  }

  /** Dielectric.Scatter as a value: the mirror direction when the uniform
      number is below the reflection probability, the refracted one
      otherwise. */
  function DielectricResponse(sqrt: real -> real, refractance: real, rIn: Ray, hit: HitRecord, uniform: real): Scattered
  {
    var reflected := Reflect(Direction(rIn), hit.Normal);
    var refraction := Refract(sqrt, Direction(rIn), OutwardNormal(rIn, hit), RefractRatio(refractance, rIn, hit));
    var scattered := if uniform < ReflectProb(sqrt, refractance, rIn, hit) then reflected else refraction.refracted;
    Scattered(true, Vec3(1.0, 1.0, 1.0), Ray(hit.P, scattered))
  }

  /** Dielectric.Scatter: assigns the outward normal, ratio and cosine in the
      branches of the orientation test, then the reflection probability, then
      the direction. */
  method DielectricScatter(sqrt: real -> real, refractance: real, rIn: Ray, hit: HitRecord, uniform: real)
    returns (isScattered: bool, attenuation: Vec3, scattered: Ray)
    ensures Scattered(isScattered, attenuation, scattered) == DielectricResponse(sqrt, refractance, rIn, hit, uniform)
    ensures isScattered && attenuation == Vec3(1.0, 1.0, 1.0) && Origin(scattered) == hit.P
  {
    var outwardNormal: Vec3;
    var refractRatio: real;
    var cosine: real;
    var reflectProb: real;
    var reflected := Reflect(Direction(rIn), hit.Normal);
    attenuation := Vec3(1.0, 1.0, 1.0);
    if Dot(Direction(rIn), hit.Normal) > 0.0 {
      outwardNormal := Mul(hit.Normal, -1.0);
      refractRatio := refractance;
      cosine := Quot(refractance * Dot(Direction(rIn), hit.Normal), Len(sqrt, Direction(rIn)));
    } else {
      outwardNormal := hit.Normal;
      refractRatio := Quot(1.0, refractance);
      cosine := Quot(-1.0 * Dot(Direction(rIn), hit.Normal), Len(sqrt, Direction(rIn)));
    }
    assert outwardNormal == OutwardNormal(rIn, hit);
    assert refractRatio == RefractRatio(refractance, rIn, hit);
    assert cosine == DielectricCosine(sqrt, refractance, rIn, hit);
    var refraction := Refract(sqrt, Direction(rIn), outwardNormal, refractRatio);
    if refraction.isRefracted {
      reflectProb := Schlick(cosine, refractance);
    } else {
      reflectProb := 1.0;
    }
    var direction: Vec3;
    if uniform < reflectProb {
      direction := reflected;
    } else {
      direction := refraction.refracted;
    }
    assert reflectProb == ReflectProb(sqrt, refractance, rIn, hit);
    isScattered := true;
    scattered := Ray(hit.P, direction);
  }

  /** The orientation test: a ray leaving the body sees the flipped normal
      and the ratio Refractance, a ray entering it the normal itself and
      1/Refractance. */
  lemma DielectricOrientation(refractance: real, rIn: Ray, hit: HitRecord)
    ensures Dot(Direction(rIn), hit.Normal) > 0.0 ==>
      OutwardNormal(rIn, hit) == Mul(hit.Normal, -1.0) && RefractRatio(refractance, rIn, hit) == refractance
    ensures Dot(Direction(rIn), hit.Normal) <= 0.0 ==>
      OutwardNormal(rIn, hit) == hit.Normal && RefractRatio(refractance, rIn, hit) == Quot(1.0, refractance)
  {
  }

  /** Under total internal reflection the reflection probability is 1, so
      every uniform number in [0,1) picks the mirror direction. */
  lemma DielectricTotalInternalReflection(sqrt: real -> real, refractance: real, rIn: Ray, hit: HitRecord, uniform: real)
    requires !Refract(sqrt, Direction(rIn), OutwardNormal(rIn, hit), RefractRatio(refractance, rIn, hit)).isRefracted
    requires 0.0 <= uniform < 1.0
    ensures ReflectProb(sqrt, refractance, rIn, hit) == 1.0
    ensures Direction(DielectricResponse(sqrt, refractance, rIn, hit, uniform).scattered) == Reflect(Direction(rIn), hit.Normal)
  {
  }

  /** When refraction is possible and the uniform number is at or above
      Schlick's coefficient, the ray continues along the refracted direction,
      which is a unit vector for a unit normal. */
  lemma DielectricRefracts(sqrt: real -> real, refractance: real, rIn: Ray, hit: HitRecord, uniform: real)
    requires IsSqrt(sqrt)
    requires LenSqr(hit.Normal) == 1.0 && Direction(rIn) != Zero
    requires Refract(sqrt, Direction(rIn), OutwardNormal(rIn, hit), RefractRatio(refractance, rIn, hit)).isRefracted
    requires uniform >= Schlick(DielectricCosine(sqrt, refractance, rIn, hit), refractance)
    ensures var w := Direction(DielectricResponse(sqrt, refractance, rIn, hit, uniform).scattered);
      w == Refract(sqrt, Direction(rIn), OutwardNormal(rIn, hit), RefractRatio(refractance, rIn, hit)).refracted &&
      LenSqr(w) == 1.0
  {
    var n := OutwardNormal(rIn, hit);
    LenSqrMul(hit.Normal, -1.0);
    assert LenSqr(n) == 1.0;
    RefractUnit(sqrt, Direction(rIn), n, RefractRatio(refractance, rIn, hit));
  }

  /** When refraction is possible and the uniform number is below Schlick's
      coefficient, the ray takes the mirror direction. */
  lemma DielectricReflects(sqrt: real -> real, refractance: real, rIn: Ray, hit: HitRecord, uniform: real)
    requires Refract(sqrt, Direction(rIn), OutwardNormal(rIn, hit), RefractRatio(refractance, rIn, hit)).isRefracted
    requires uniform < Schlick(DielectricCosine(sqrt, refractance, rIn, hit), refractance)
    ensures Direction(DielectricResponse(sqrt, refractance, rIn, hit, uniform).scattered) == Reflect(Direction(rIn), hit.Normal)
  {
  }

  /** A quotient of two non-negative numbers is non-negative. */
  lemma QuotNonNegative(a: real, b: real)
    requires 0.0 <= a && 0.0 <= b
    ensures 0.0 <= Quot(a, b)
  {
    if b != 0.0 {
      MulNonNegative(a, 1.0 / b);
      assert a / b == a * (1.0 / b);
    }
  }

  /** x / l <= 1 for 0 <= x <= l. */
  lemma QuotAtMostOne(x: real, l: real)
    requires 0.0 <= x <= l && l != 0.0
    ensures x / l <= 1.0
  {
    if x < l {
      DivLess(x, l, l);
    }
  }

  /** The cosine Dielectric.Scatter hands to schlick is never negative for a
      non-negative index: the dot product is positive in the leaving branch
      and at most 0 in the entering one. It is not bounded by 1: in the
      leaving branch it reaches Refractance. */
  lemma DielectricCosineNonNegative(sqrt: real -> real, refractance: real, rIn: Ray, hit: HitRecord)
    requires IsSqrt(sqrt)
    requires refractance >= 0.0
    ensures DielectricCosine(sqrt, refractance, rIn, hit) >= 0.0
  {
    var d := Direction(rIn);
    LenSqrNonNegative(d);
    Root(sqrt, LenSqr(d));
    if Dot(d, hit.Normal) > 0.0 {
      MulNonNegative(refractance, Dot(d, hit.Normal));
      QuotNonNegative(refractance * Dot(d, hit.Normal), Len(sqrt, d));
    } else {
      QuotNonNegative(-1.0 * Dot(d, hit.Normal), Len(sqrt, d));
    }
  }

  /** An odd power of a negative number is negative. */
  lemma Pow5Negative(y: real)
    requires y < 0.0
    ensures Pow5(y) < 0.0
  {
  }

  /** For every non-negative cosine, not only those in [0,1], Schlick's
      coefficient is at most 1. */
  lemma SchlickAtMostOne(cosine: real, refract: real)
    requires cosine >= 0.0 && refract >= 0.0
    ensures Schlick(cosine, refract) <= 1.0
  {
    if cosine <= 1.0 {
      SchlickBounds(cosine, refract);
    } else {
      Pow5Negative(1.0 - cosine);
      var r0 := NormalReflectance(refract);
      NormalReflectanceUnit(refract);
      MulNonNegative(1.0 - r0, 1.0 - Pow5(1.0 - cosine));
    }
  }

  /** The reflection probability of Dielectric.Scatter is at most 1 for a
      non-negative index. */
  lemma ReflectProbAtMostOne(sqrt: real -> real, refractance: real, rIn: Ray, hit: HitRecord)
    requires IsSqrt(sqrt)
    requires refractance >= 0.0
    ensures ReflectProb(sqrt, refractance, rIn, hit) <= 1.0
  {
    DielectricCosineNonNegative(sqrt, refractance, rIn, hit);
    SchlickAtMostOne(DielectricCosine(sqrt, refractance, rIn, hit), refractance);
  }

  /** A ray entering the body through a unit normal has a cosine in [0,1],
      so its reflection probability lies between the normal reflectance and
      1. */
  lemma EnteringReflectProb(sqrt: real -> real, refractance: real, rIn: Ray, hit: HitRecord)
    requires IsSqrt(sqrt)
    requires refractance >= 0.0 && LenSqr(hit.Normal) == 1.0
    requires Dot(Direction(rIn), hit.Normal) <= 0.0
    ensures 0.0 <= DielectricCosine(sqrt, refractance, rIn, hit) <= 1.0
    ensures 0.0 <= NormalReflectance(refractance) <= ReflectProb(sqrt, refractance, rIn, hit) <= 1.0
  {
    var d := Direction(rIn);
    var x := -1.0 * Dot(d, hit.Normal);
    var l := Len(sqrt, d);
    LenSqrNonNegative(d);
    Root(sqrt, LenSqr(d));
    CauchySchwarz(d, hit.Normal);
    assert x * x <= l * l;
    if l != 0.0 && x > l {
      SquareLess(l, x);
      assert false;
    }
    DielectricCosineNonNegative(sqrt, refractance, rIn, hit);
    if l != 0.0 {
      assert DielectricCosine(sqrt, refractance, rIn, hit) == x / l;
      QuotAtMostOne(x, l);
    }
    NormalReflectanceUnit(refractance);
    SchlickBounds(DielectricCosine(sqrt, refractance, rIn, hit), refractance);
  }

  /** A ray leaving glass of index eta straight along its unit normal (0, 1, 0):
      refraction succeeds, the cosine handed to schlick is eta itself, and the
      reflection probability is schlick(eta, eta). */
  lemma LeavingAlongNormal(sqrt: real -> real, eta: real)
    requires IsSqrt(sqrt)
    ensures var d := Vec3(0.0, 1.0, 0.0);
      var rIn := Ray(Zero, d);
      var hit := HitRecord(1.0, d, d, Some(Dielectric(eta)));
      OutwardNormal(rIn, hit) == Vec3(0.0, -1.0, 0.0) &&
      RefractRatio(eta, rIn, hit) == eta &&
      Refract(sqrt, d, Vec3(0.0, -1.0, 0.0), eta).isRefracted &&
      DielectricCosine(sqrt, eta, rIn, hit) == eta &&
      ReflectProb(sqrt, eta, rIn, hit) == Schlick(eta, eta)
  {
    var d := Vec3(0.0, 1.0, 0.0);
    var rIn := Ray(Zero, d);
    var hit := HitRecord(1.0, d, d, Some(Dielectric(eta)));
    NormalizeUnit(sqrt, d);
    assert Dot(d, d) == 1.0;
    assert RefractCosine(sqrt, d, Vec3(0.0, -1.0, 0.0)) == -1.0;
    assert RefractDiscriminant(sqrt, d, Vec3(0.0, -1.0, 0.0), eta) == 1.0;
  }

  /** A ray leaving glass of index 1.5 straight along its unit normal: the
      cosine handed to schlick is 1.5, and the reflection probability
      0.04 - 0.96 * 0.5^5 = 0.01 falls below the normal reflectance 0.04. */
  lemma LeavingReflectProbExample(sqrt: real -> real)
    requires IsSqrt(sqrt)
    ensures var rIn := Ray(Zero, Vec3(0.0, 1.0, 0.0));
      var hit := HitRecord(1.0, Vec3(0.0, 1.0, 0.0), Vec3(0.0, 1.0, 0.0), Some(Dielectric(1.5)));
      DielectricCosine(sqrt, 1.5, rIn, hit) == 1.5 &&
      ReflectProb(sqrt, 1.5, rIn, hit) == 0.01 &&
      ReflectProb(sqrt, 1.5, rIn, hit) < NormalReflectance(1.5)
  {
    LeavingAlongNormal(sqrt, 1.5);
    assert NormalReflectance(1.5) == 0.04;
    assert Pow5(-0.5) == -0.03125;
  }

  /** With index 3 the same ray gets the reflection probability
      0.25 - 0.75 * 2^5 = -23.75 < 0, so it refracts for every uniform
      number in [0,1). */
  lemma LeavingAlwaysRefractsExample(sqrt: real -> real, uniform: real)
    requires IsSqrt(sqrt)
    requires 0.0 <= uniform < 1.0
    ensures var rIn := Ray(Zero, Vec3(0.0, 1.0, 0.0));
      var hit := HitRecord(1.0, Vec3(0.0, 1.0, 0.0), Vec3(0.0, 1.0, 0.0), Some(Dielectric(3.0)));
      ReflectProb(sqrt, 3.0, rIn, hit) == -23.75 &&
      Direction(DielectricResponse(sqrt, 3.0, rIn, hit, uniform).scattered)
        == Refract(sqrt, Vec3(0.0, 1.0, 0.0), Vec3(0.0, -1.0, 0.0), 3.0).refracted
  {
    LeavingAlongNormal(sqrt, 3.0);
    assert NormalReflectance(3.0) == 0.25;
    assert Pow5(-2.0) == -32.0;
  }

  /** The unit direction (0.8, 0.6, 0) is its own normalisation. */
  lemma ExampleNormalize(sqrt: real -> real)
    requires IsSqrt(sqrt)
    ensures Normalize(sqrt, Vec3(0.8, 0.6, 0.0)) == Vec3(0.8, 0.6, 0.0)
  {
    SqrtOfSquare(sqrt, 1.0);
    assert LenSqr(Vec3(0.8, 0.6, 0.0)) == 1.0 * 1.0;
  }

  /** With index ratio 1.5 the direction (0.8, 0.6, 0) cannot pass through a
      surface with normal (0, -1, 0): the discriminant is 1 - 2.25 * 0.64 < 0. */
  lemma ExampleNoRefraction(sqrt: real -> real)
    requires IsSqrt(sqrt)
    ensures !Refract(sqrt, Vec3(0.8, 0.6, 0.0), Vec3(0.0, -1.0, 0.0), 1.5).isRefracted
  {
    ExampleNormalize(sqrt);
    assert RefractCosine(sqrt, Vec3(0.8, 0.6, 0.0), Vec3(0.0, -1.0, 0.0)) == -0.6;
    assert RefractDiscriminant(sqrt, Vec3(0.8, 0.6, 0.0), Vec3(0.0, -1.0, 0.0), 1.5) == -0.44;
  }

  /** Reflection in the plane y = 0 negates the y coordinate. */
  lemma ReflectInPlaneY(v: Vec3)
    ensures Reflect(v, Vec3(0.0, 1.0, 0.0)) == Vec3(v.x, -v.y, v.z)
  {
  }

  /** A ray inside glass of index 1.5 meeting the surface at 37 degrees from
      its plane is totally reflected. */
  lemma TotalInternalReflectionExample(sqrt: real -> real, uniform: real)
    requires IsSqrt(sqrt)
    requires 0.0 <= uniform < 1.0
    ensures var rIn := Ray(Zero, Vec3(0.8, 0.6, 0.0));
      var hit := HitRecord(1.0, Vec3(0.8, 0.6, 0.0), Vec3(0.0, 1.0, 0.0), Some(Dielectric(1.5)));
      Direction(DielectricResponse(sqrt, 1.5, rIn, hit, uniform).scattered) == Vec3(0.8, -0.6, 0.0)
  {
    var d := Vec3(0.8, 0.6, 0.0);
    var n := Vec3(0.0, 1.0, 0.0);
    var rIn := Ray(Zero, d);
    var hit := HitRecord(1.0, Vec3(0.8, 0.6, 0.0), n, Some(Dielectric(1.5)));
    assert OutwardNormal(rIn, hit) == Vec3(0.0, -1.0, 0.0);
    assert RefractRatio(1.5, rIn, hit) == 1.5;
    ExampleNoRefraction(sqrt);
    DielectricTotalInternalReflection(sqrt, 1.5, rIn, hit, uniform);
    ReflectInPlaneY(d);
    assert Direction(DielectricResponse(sqrt, 1.5, rIn, hit, uniform).scattered) == Vec3(0.8, -0.6, 0.0);
  }

  /** Material.Scatter: dispatch on the kind of material. */
  function Scatter(sqrt: real -> real, m: Material, rIn: Ray, hit: HitRecord, draw: Draw): Scattered
  {
    match m
    case Lambertian(albedo) => LambertianScatter(albedo, hit, draw.inSphere)
    case Metallic(albedo, fuzziness) => MetallicScatter(sqrt, albedo, fuzziness, rIn, hit, draw.inSphere)
    case Dielectric(refractance) => DielectricResponse(sqrt, refractance, rIn, hit, draw.uniform)
  }

  /** Every material attenuates by its albedo, or by (1,1,1) for glass, and
      every scattered ray starts at the hit point. */
  lemma ScatterAttenuation(sqrt: real -> real, m: Material, rIn: Ray, hit: HitRecord, draw: Draw)
    ensures var res := Scatter(sqrt, m, rIn, hit, draw);
      Origin(res.scattered) == hit.P &&
      res.attenuation == (if m.Dielectric? then Vec3(1.0, 1.0, 1.0) else m.Albedo) &&
      (!m.Metallic? ==> res.isScattered)
  {
  }
}
