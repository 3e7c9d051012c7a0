/**
 * Ray-sphere intersection (sphere.go). With oc the vector from the centre to
 * the ray's origin and d the direction, the ray meets the sphere where
 * a t^2 + 2 b t + c = 0 for a = d.d, b = oc.d and c = oc.oc - Radius^2.
 */
module Spheres {
  import opened Vectors
  import opened Rays
  import opened Records

  datatype Sphere = Sphere(Center: Vec3, Radius: real)

  function QuadA(r: Ray): real
  {
    Dot(Direction(r), Direction(r))
  }

  function QuadB(s: Sphere, r: Ray): real
  {
    Dot(Sub(Origin(r), s.Center), Direction(r))
  }

  function QuadC(s: Sphere, r: Ray): real
  {
    Dot(Sub(Origin(r), s.Center), Sub(Origin(r), s.Center)) - s.Radius * s.Radius
  }

  function Discriminant(s: Sphere, r: Ray): real
  {
    QuadB(s, r) * QuadB(s, r) - QuadA(r) * QuadC(s, r)
  }

  /** The root found first, (-b - sqrt(b^2 - ac)) / a. */
  function NearRoot(sqrt: real -> real, s: Sphere, r: Ray): real
  {
    Quot(-QuadB(s, r) - sqrt(Discriminant(s, r)), QuadA(r))
  }

  /** The root found second, (-b + sqrt(b^2 - ac)) / a. */
  function FarRoot(sqrt: real -> real, s: Sphere, r: Ray): real
  {
    Quot(-QuadB(s, r) + sqrt(Discriminant(s, r)), QuadA(r))
  }

  /** The record built for a root t: no material is attached here. */
  function RecordAt(s: Sphere, r: Ray, t: real): HitRecord
  {
    HitRecord(t, PointAtParameter(r, t),
              Mul(Sub(PointAtParameter(r, t), s.Center), Quot(1.0, s.Radius)), None)
  }

  /** Both interval ends are excluded. */
  predicate InOpenRange(t: real, tMin: real, tMax: real)
  {
    t < tMax && t > tMin
  }

  function Accept(s: Sphere, r: Ray, t: real, tMin: real, tMax: real): seq<HitRecord>
  {
    if InOpenRange(t, tMin, tMax) then [RecordAt(s, r, t)] else []
  }

  /** The records Hit reports: nothing unless the discriminant is strictly
      positive, then the near root and the far root, each kept only if it lies
      in (tMin, tMax). */
  function SphereHits(sqrt: real -> real, s: Sphere, r: Ray, tMin: real, tMax: real): seq<HitRecord>
  {
    if Discriminant(s, r) > 0.0 then
      Accept(s, r, NearRoot(sqrt, s, r), tMin, tMax) + Accept(s, r, FarRoot(sqrt, s, r), tMin, tMax)
    else
      []
  }

  /** Sphere.Hit: builds the result by appending the accepted roots in turn. */
  method Hit(sqrt: real -> real, s: Sphere, r: Ray, tMin: real, tMax: real) returns (recs: seq<HitRecord>)
    ensures recs == SphereHits(sqrt, s, r, tMin, tMax)
    ensures |recs| <= 2
    ensures forall k :: 0 <= k < |recs| ==>
      tMin < recs[k].T < tMax && recs[k].Mat == None && recs[k] == RecordAt(s, r, recs[k].T)
  {
    recs := [];
    var oc := Sub(Origin(r), s.Center);
    var a := Dot(Direction(r), Direction(r));
    var b := Dot(oc, Direction(r));
    var c := Dot(oc, oc) - s.Radius * s.Radius;
    var discriminant := b * b - a * c;
    assert a == QuadA(r) && b == QuadB(s, r) && c == QuadC(s, r);
    assert discriminant == Discriminant(s, r);
    if discriminant > 0.0 {
      var temp := Quot(-b - sqrt(b * b - a * c), a);
      if temp < tMax && temp > tMin {
        var p := PointAtParameter(r, temp);
        var normal := Mul(Sub(PointAtParameter(r, temp), s.Center), Quot(1.0, s.Radius));
        recs := recs + [HitRecord(temp, p, normal, None)];
      }
      temp := Quot(-b + sqrt(b * b - a * c), a);
      if temp < tMax && temp > tMin {
        var p := PointAtParameter(r, temp);
        var normal := Mul(Sub(PointAtParameter(r, temp), s.Center), Quot(1.0, s.Radius));
        recs := recs + [HitRecord(temp, p, normal, None)];
      }
    }
  }

  // ---------------------------------------------------------------------
  // Properties of the intersection test

  /** A discriminant of zero (a tangent ray) or below yields no record. */
  lemma MissWhenDiscriminantNotPositive(sqrt: real -> real, s: Sphere, r: Ray, tMin: real, tMax: real)
    requires Discriminant(s, r) <= 0.0
    ensures SphereHits(sqrt, s, r, tMin, tMax) == []
  {
  }

  /** Hit reports something exactly when the discriminant is positive and one
      of the two roots lies strictly inside (tMin, tMax). */
  lemma HitsNonEmptyIff(sqrt: real -> real, s: Sphere, r: Ray, tMin: real, tMax: real)
    ensures SphereHits(sqrt, s, r, tMin, tMax) != [] <==>
      Discriminant(s, r) > 0.0 &&
      (InOpenRange(NearRoot(sqrt, s, r), tMin, tMax) || InOpenRange(FarRoot(sqrt, s, r), tMin, tMax))
  {
  }

  /** A positive discriminant forces a nonzero direction and a nonzero radius,
      so neither division in Hit is by zero: by Cauchy-Schwarz
      b^2 <= a |oc|^2, while b^2 - a c = b^2 - a |oc|^2 + a Radius^2. */
  lemma PositiveDiscriminantNondegenerate(s: Sphere, r: Ray)
    requires Discriminant(s, r) > 0.0
    ensures QuadA(r) > 0.0 && s.Radius != 0.0
  {
    var oc := Sub(Origin(r), s.Center);
    var a, b := QuadA(r), QuadB(s, r);
    CauchySchwarz(oc, Direction(r));
    LenSqrNonNegative(Direction(r));
    assert b * b <= LenSqr(oc) * a;
    if a == 0.0 {
      assert false;
    }
    if s.Radius == 0.0 {
      assert false;
    }
  }

  /** With a positive discriminant the near root comes strictly before the
      far one. */
  lemma RootsOrdered(sqrt: real -> real, s: Sphere, r: Ray)
    requires IsSqrt(sqrt)
    requires Discriminant(s, r) > 0.0
    ensures NearRoot(sqrt, s, r) < FarRoot(sqrt, s, r)
  {
    PositiveDiscriminantNondegenerate(s, r);
    SqrtPositive(sqrt, Discriminant(s, r));
    var q := sqrt(Discriminant(s, r));
    DivLess(-QuadB(s, r) - q, -QuadB(s, r) + q, QuadA(r));
  }

  /** The records come out in strictly increasing T. */
  lemma HitsOrdered(sqrt: real -> real, s: Sphere, r: Ray, tMin: real, tMax: real)
    requires IsSqrt(sqrt)
    ensures var recs := SphereHits(sqrt, s, r, tMin, tMax);
      |recs| == 2 ==> recs[0].T < recs[1].T
  {
    if Discriminant(s, r) > 0.0 {
      RootsOrdered(sqrt, s, r);
    }
  }

  /** Each root solves a t^2 + 2 b t + c = 0. */
  lemma RootSolvesQuadratic(sqrt: real -> real, s: Sphere, r: Ray, t: real)
    requires IsSqrt(sqrt)
    requires Discriminant(s, r) > 0.0
    requires t == NearRoot(sqrt, s, r) || t == FarRoot(sqrt, s, r)
    ensures QuadA(r) * t * t + 2.0 * QuadB(s, r) * t + QuadC(s, r) == 0.0
  {
    PositiveDiscriminantNondegenerate(s, r);
    var a, b, c := QuadA(r), QuadB(s, r), QuadC(s, r);
    Root(sqrt, Discriminant(s, r));
    var q := sqrt(Discriminant(s, r));
    assert q * q == b * b - a * c;
    assert NearRoot(sqrt, s, r) == (-b - q) / a;
    assert FarRoot(sqrt, s, r) == (-b + q) / a;
    QuadraticRoot(a, b, c, q, t);
  }

  /** The squared distance from the centre to the point at t, as a
      polynomial in t. */
  lemma DistanceAlongRay(s: Sphere, r: Ray, t: real)
    ensures LenSqr(Sub(PointAtParameter(r, t), s.Center))
         == QuadA(r) * t * t + 2.0 * QuadB(s, r) * t + QuadC(s, r) + s.Radius * s.Radius
  {
    var oc := Sub(Origin(r), s.Center);
    assert Sub(PointAtParameter(r, t), s.Center) == Add(oc, Mul(Direction(r), t));
    LenSqrAddMul(oc, Direction(r), t);
  }

  /** Each root is a point of the sphere: |P - Center|^2 = Radius^2. */
  lemma RootOnSurface(sqrt: real -> real, s: Sphere, r: Ray, t: real)
    requires IsSqrt(sqrt)
    requires Discriminant(s, r) > 0.0
    requires t == NearRoot(sqrt, s, r) || t == FarRoot(sqrt, s, r)
    ensures LenSqr(Sub(PointAtParameter(r, t), s.Center)) == s.Radius * s.Radius
  {
    RootSolvesQuadratic(sqrt, s, r, t);
    DistanceAlongRay(s, r, t);
  }

  /** Every reported record lies on the sphere and carries the outward normal
      of unit length. */
  lemma HitsOnSurface(sqrt: real -> real, s: Sphere, r: Ray, tMin: real, tMax: real)
    requires IsSqrt(sqrt)
    ensures forall h :: h in SphereHits(sqrt, s, r, tMin, tMax) ==>
      LenSqr(Sub(h.P, s.Center)) == s.Radius * s.Radius && LenSqr(h.Normal) == 1.0
  {
    if Discriminant(s, r) > 0.0 {
      PositiveDiscriminantNondegenerate(s, r);
      OnSurfaceRecord(sqrt, s, r, NearRoot(sqrt, s, r));
      OnSurfaceRecord(sqrt, s, r, FarRoot(sqrt, s, r));
    }
  }

  /** A ray starting outside the sphere (c > 0) and heading away from its
      centre (b > 0) has both roots behind its origin, so with tMin >= 0 it
      reports nothing. */
  lemma ExteriorAwayMisses(sqrt: real -> real, s: Sphere, r: Ray, tMin: real, tMax: real)
    requires IsSqrt(sqrt)
    requires QuadC(s, r) > 0.0 && QuadB(s, r) > 0.0 && tMin >= 0.0
    ensures SphereHits(sqrt, s, r, tMin, tMax) == []
  {
    if Discriminant(s, r) > 0.0 {
      PositiveDiscriminantNondegenerate(s, r);
      var a, b, c := QuadA(r), QuadB(s, r), QuadC(s, r);
      Root(sqrt, Discriminant(s, r));
      var q := sqrt(Discriminant(s, r));
      MulPositive(a, c);
      assert q * q < b * b;
      if q >= b {
        if q > b {
          SquareLess(b, q);
        }
        assert false;
      }
      DivLess(-b - q, 0.0, a);
      DivLess(-b + q, 0.0, a);
    }
  }

  /** The normal's component along the direction at parameter t:
      (b + t a) / Radius. */
  lemma NormalAlongDirection(s: Sphere, r: Ray, t: real)
    ensures Dot(RecordAt(s, r, t).Normal, Direction(r))
         == Quot(1.0, s.Radius) * (QuadB(s, r) + t * QuadA(r))
  {
    var oc := Sub(Origin(r), s.Center);
    var d := Direction(r);
    var x := Sub(PointAtParameter(r, t), s.Center);
    assert x == Add(oc, Mul(d, t));
    DotAdd(oc, Mul(d, t), d);
    DotMul(d, t, d);
    DotMul(x, Quot(1.0, s.Radius), d);
  }

  /** For a sphere of positive radius the normal at the near root faces the
      incoming ray and the normal at the far root faces along it: their
      components along the direction are -sqrt(disc)/Radius and
      +sqrt(disc)/Radius. */
  lemma RootNormalsOrientation(sqrt: real -> real, s: Sphere, r: Ray)
    requires IsSqrt(sqrt)
    requires Discriminant(s, r) > 0.0 && s.Radius > 0.0
    ensures Dot(RecordAt(s, r, NearRoot(sqrt, s, r)).Normal, Direction(r)) < 0.0
    ensures Dot(RecordAt(s, r, FarRoot(sqrt, s, r)).Normal, Direction(r)) > 0.0
  {
    PositiveDiscriminantNondegenerate(s, r);
    SqrtPositive(sqrt, Discriminant(s, r));
    var a, b := QuadA(r), QuadB(s, r);
    var q := sqrt(Discriminant(s, r));
    var k := Quot(1.0, s.Radius);
    assert k > 0.0;
    NormalAlongDirection(s, r, NearRoot(sqrt, s, r));
    NormalAlongDirection(s, r, FarRoot(sqrt, s, r));
    assert NearRoot(sqrt, s, r) * a == -b - q;
    assert FarRoot(sqrt, s, r) * a == -b + q;
    MulPositive(k, q);
  }

  lemma OnSurfaceRecord(sqrt: real -> real, s: Sphere, r: Ray, t: real)
    requires IsSqrt(sqrt)
    requires Discriminant(s, r) > 0.0
    requires t == NearRoot(sqrt, s, r) || t == FarRoot(sqrt, s, r)
    ensures LenSqr(Sub(RecordAt(s, r, t).P, s.Center)) == s.Radius * s.Radius
    ensures LenSqr(RecordAt(s, r, t).Normal) == 1.0
  {
    PositiveDiscriminantNondegenerate(s, r);
    RootOnSurface(sqrt, s, r, t);
    var d := Sub(PointAtParameter(r, t), s.Center);
    var k := 1.0 / s.Radius;
    LenSqrMul(d, k);
    calc {
      LenSqr(RecordAt(s, r, t).Normal);
      k * k * LenSqr(d);
      k * k * (s.Radius * s.Radius);
      (k * s.Radius) * (k * s.Radius);
      1.0;
    }
  }
}
