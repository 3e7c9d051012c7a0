/**
 * Primitives and the nearest-hit search over a list of them (hittable.go).
 */
module Hittables {
  import opened Vectors
  import opened Rays
  import opened Records
  import opened Spheres

  /** The one kind of primitive: a sphere with the material of its surface.
      Its records are the sphere's records with that material attached. */
  datatype Hittable = SpherePrimitive(shape: Sphere, material: Material)

  /** The material a primitive uses (Hittable.Material). */
  function MaterialOf(h: Hittable): Material
  {
    h.material
  }

  /** recs with material m attached to every record. */
  function WithMaterial(recs: seq<HitRecord>, m: Material): (out: seq<HitRecord>)
    ensures |out| == |recs|
    ensures forall k :: 0 <= k < |recs| ==> out[k] == recs[k].(Mat := Some(m))
  {
    seq(|recs|, k requires 0 <= k < |recs| => recs[k].(Mat := Some(m)))
  }

  /** The records a primitive reports (Hittable.Hit). */
  function PrimitiveHits(sqrt: real -> real, h: Hittable, r: Ray, tMin: real, tMax: real): seq<HitRecord>
  {
    WithMaterial(SphereHits(sqrt, h.shape, r, tMin, tMax), MaterialOf(h))
  }

  method HitPrimitive(sqrt: real -> real, h: Hittable, r: Ray, tMin: real, tMax: real) returns (recs: seq<HitRecord>)
    ensures recs == PrimitiveHits(sqrt, h, r, tMin, tMax)
  {
    var raw := Spheres.Hit(sqrt, h.shape, r, tMin, tMax);
    recs := WithMaterial(raw, MaterialOf(h));
  }

  /** Every record the primitives of l report, in list order and, within one
      primitive, in the order it reports them. */
  function Candidates(sqrt: real -> real, l: seq<Hittable>, r: Ray, tMin: real, tMax: real): seq<HitRecord>
  {
    if |l| == 0 then []
    else PrimitiveHits(sqrt, l[0], r, tMin, tMax) + Candidates(sqrt, l[1..], r, tMin, tMax)
  }

  /** The state of the search: whether anything was hit, and the best record. */
  datatype Best = Best(hitAnything: bool, best: HitRecord)

  /** The starting state: nothing hit, and a record whose only meaningful
      field is T = tMax. */
  function Start(tMax: real): Best
  {
    Best(false, HitRecord(tMax, Zero, Zero, None))
  }

  /** The search continued from state b over cands: a candidate replaces the
      best record only when it is strictly nearer. The result is b itself, or
      a strictly nearer candidate with the hit flag set; either way it is no
      farther than any candidate. */
  function ScanFrom(b: Best, cands: seq<HitRecord>): (e: Best)
    ensures e.best.T <= b.best.T
    ensures forall k :: 0 <= k < |cands| ==> e.best.T <= cands[k].T
    ensures e == b || (e.hitAnything && e.best.T < b.best.T && e.best in cands)
    decreases |cands|
  {
    if |cands| == 0 then b
    else ScanFrom(if cands[0].T < b.best.T then Best(true, cands[0]) else b, cands[1..])
  }

  /** The nearest candidate below tMax, if any. */
  function Nearest(cands: seq<HitRecord>, tMax: real): Option<HitRecord>
  {
    var e := ScanFrom(Start(tMax), cands);
    if e.hitAnything then Some(e.best) else None
  }

  /** What HittableList.Hit returns: the nearest record, or nothing. */
  function WorldHits(sqrt: real -> real, l: seq<Hittable>, r: Ray, tMin: real, tMax: real): seq<HitRecord>
  {
    match Nearest(Candidates(sqrt, l, r, tMin, tMax), tMax)
    case None => []
    case Some(h) => [h]
  }

  /** Scanning a concatenation is scanning the second part from where the
      first part left off. */
  lemma ScanFromAppend(b: Best, xs: seq<HitRecord>, ys: seq<HitRecord>)
    ensures ScanFrom(b, xs + ys) == ScanFrom(ScanFrom(b, xs), ys)
    decreases |xs|
  {
    if |xs| == 0 {
      assert xs + ys == ys;
    } else {
      assert (xs + ys)[1..] == xs[1..] + ys;
      ScanFromAppend(if xs[0].T < b.best.T then Best(true, xs[0]) else b, xs[1..], ys);
    }
  }

  lemma CandidatesStep(sqrt: real -> real, l: seq<Hittable>, i: nat, r: Ray, tMin: real, tMax: real)
    requires i < |l|
    ensures Candidates(sqrt, l[i..], r, tMin, tMax)
         == PrimitiveHits(sqrt, l[i], r, tMin, tMax) + Candidates(sqrt, l[i + 1..], r, tMin, tMax)
  {
    assert l[i..][1..] == l[i + 1..];
  }

  /** The record a search ends with, if it improved on its start, is the
      first candidate that attains it: every earlier candidate is strictly
      farther. */
  lemma {:induction false} ScanFromFirst(b: Best, cands: seq<HitRecord>)
    ensures var e := ScanFrom(b, cands);
      e.best.T < b.best.T ==>
        exists i :: 0 <= i < |cands| && cands[i] == e.best &&
          forall k :: 0 <= k < i ==> cands[k].T > e.best.T
    decreases |cands|
  {
    var e := ScanFrom(b, cands);
    if |cands| > 0 && e.best.T < b.best.T {
      var b' := if cands[0].T < b.best.T then Best(true, cands[0]) else b;
      assert e == ScanFrom(b', cands[1..]);
      if e == b' {
        assert cands[0] == e.best;
      } else {
        ScanFromFirst(b', cands[1..]);
        var i' :| 0 <= i' < |cands[1..]| && cands[1..][i'] == e.best &&
          forall k :: 0 <= k < i' ==> cands[1..][k].T > e.best.T;
        assert cands[i' + 1] == e.best;
        forall k | 0 <= k < i' + 1
          ensures cands[k].T > e.best.T
        {
          if k > 0 {
            assert cands[k] == cands[1..][k - 1];
          }
        }
      }
    }
  }

  /** The search finds nothing exactly when no candidate lies below tMax. */
  lemma NearestNoneIff(cands: seq<HitRecord>, tMax: real)
    ensures Nearest(cands, tMax) == None <==> forall k :: 0 <= k < |cands| ==> cands[k].T >= tMax
  {
  }

  /** A found record is a candidate below tMax, no farther than any
      candidate, and the first candidate at that distance: ties go to the
      earliest because the comparison is strict. */
  lemma NearestSome(cands: seq<HitRecord>, tMax: real, h: HitRecord)
    requires Nearest(cands, tMax) == Some(h)
    ensures h in cands && h.T < tMax
    ensures forall k :: 0 <= k < |cands| ==> h.T <= cands[k].T
    ensures exists i :: 0 <= i < |cands| && cands[i] == h &&
                        (forall k :: 0 <= k < i ==> cands[k].T > h.T)
  {
    ScanFromFirst(Start(tMax), cands);
  }

  /** A record is a candidate exactly when some primitive of the list
      reports it. */
  lemma {:induction false} CandidatesMember(sqrt: real -> real, l: seq<Hittable>, r: Ray, tMin: real, tMax: real, h: HitRecord)
    ensures h in Candidates(sqrt, l, r, tMin, tMax) <==>
      exists i :: 0 <= i < |l| && h in PrimitiveHits(sqrt, l[i], r, tMin, tMax)
    decreases |l|
  {
    if |l| > 0 {
      CandidatesMember(sqrt, l[1..], r, tMin, tMax, h);
      if h in Candidates(sqrt, l[1..], r, tMin, tMax) {
        var i :| 0 <= i < |l[1..]| && h in PrimitiveHits(sqrt, l[1..][i], r, tMin, tMax);
        assert l[1..][i] == l[i + 1];
      }
      if exists i :: 0 <= i < |l| && h in PrimitiveHits(sqrt, l[i], r, tMin, tMax) {
        var i :| 0 <= i < |l| && h in PrimitiveHits(sqrt, l[i], r, tMin, tMax);
        if i > 0 {
          assert l[1..][i - 1] == l[i];
        }
      }
    }
  }

  /** Every record a primitive reports lies strictly inside (tMin, tMax),
      carries the primitive's material, and is otherwise the sphere's record
      for its parameter. */
  lemma PrimitiveHitsShape(sqrt: real -> real, p: Hittable, r: Ray, tMin: real, tMax: real)
    ensures forall h :: h in PrimitiveHits(sqrt, p, r, tMin, tMax) ==>
      tMin < h.T < tMax && h.Mat == Some(MaterialOf(p)) &&
      h == RecordAt(p.shape, r, h.T).(Mat := Some(MaterialOf(p)))
  {
  }

  /** An empty list is hit by nothing. */
  lemma WorldHitsEmpty(sqrt: real -> real, r: Ray, tMin: real, tMax: real)
    ensures WorldHits(sqrt, [], r, tMin, tMax) == []
  {
  }

  /** Something is hit exactly when some primitive reports a record below
      tMax. */
  lemma WorldHitsNonEmptyIff(sqrt: real -> real, l: seq<Hittable>, r: Ray, tMin: real, tMax: real)
    ensures WorldHits(sqrt, l, r, tMin, tMax) != [] <==>
      exists i, h :: 0 <= i < |l| && h in PrimitiveHits(sqrt, l[i], r, tMin, tMax) && h.T < tMax
  {
    var cands := Candidates(sqrt, l, r, tMin, tMax);
    NearestNoneIff(cands, tMax);
    if WorldHits(sqrt, l, r, tMin, tMax) != [] {
      var k :| 0 <= k < |cands| && cands[k].T < tMax;
      CandidatesMember(sqrt, l, r, tMin, tMax, cands[k]);
    }
    if exists i, h :: 0 <= i < |l| && h in PrimitiveHits(sqrt, l[i], r, tMin, tMax) && h.T < tMax {
      var i, h :| 0 <= i < |l| && h in PrimitiveHits(sqrt, l[i], r, tMin, tMax) && h.T < tMax;
      CandidatesMember(sqrt, l, r, tMin, tMax, h);
    }
  }

  /** The record the search returns is one some primitive reported, with that
      primitive's material and tMin < T < tMax, and no record of any
      primitive is nearer. */
  lemma WorldHitNearest(sqrt: real -> real, l: seq<Hittable>, r: Ray, tMin: real, tMax: real, h: HitRecord)
    requires h in WorldHits(sqrt, l, r, tMin, tMax)
    ensures exists i :: 0 <= i < |l| && h in PrimitiveHits(sqrt, l[i], r, tMin, tMax) &&
                        h.Mat == Some(MaterialOf(l[i]))
    ensures tMin < h.T < tMax
    ensures forall i, g :: 0 <= i < |l| && g in PrimitiveHits(sqrt, l[i], r, tMin, tMax) ==> h.T <= g.T
  {
    var cands := Candidates(sqrt, l, r, tMin, tMax);
    NearestSome(cands, tMax, h);
    CandidatesMember(sqrt, l, r, tMin, tMax, h);
    var i :| 0 <= i < |l| && h in PrimitiveHits(sqrt, l[i], r, tMin, tMax);
    PrimitiveHitsShape(sqrt, l[i], r, tMin, tMax);
    forall j, g | 0 <= j < |l| && g in PrimitiveHits(sqrt, l[j], r, tMin, tMax)
      ensures h.T <= g.T
    {
      CandidatesMember(sqrt, l, r, tMin, tMax, g);
    }
  }

  /** The inner loop of HittableList.Hit: runs through one primitive's
      records and overwrites the best record, field by field, with each
      strictly nearer one. */
  method ScanRecords(hits: seq<HitRecord>, hitAnything0: bool, best0: HitRecord)
    returns (hitAnything: bool, bestIntersection: HitRecord)
    ensures Best(hitAnything, bestIntersection) == ScanFrom(Best(hitAnything0, best0), hits)
  {
    hitAnything, bestIntersection := hitAnything0, best0;
    var k := 0;
    while k < |hits|
      invariant 0 <= k <= |hits|
      invariant ScanFrom(Best(hitAnything, bestIntersection), hits[k..]) == ScanFrom(Best(hitAnything0, best0), hits)
    {
      var intersection := hits[k];
      assert hits[k..][1..] == hits[k + 1..];
      if intersection.T < bestIntersection.T {
        hitAnything := true;
        bestIntersection := bestIntersection.(T := intersection.T);
        bestIntersection := bestIntersection.(P := intersection.P);
        bestIntersection := bestIntersection.(Normal := intersection.Normal);
        bestIntersection := bestIntersection.(Mat := intersection.Mat);
        assert bestIntersection == intersection;
      }
      k := k + 1;
    }
  }

  /** HittableList.Hit: the best-so-far search over every primitive's
      records, starting from a record at tMax. */
  method Hit(sqrt: real -> real, l: seq<Hittable>, r: Ray, tMin: real, tMax: real) returns (recs: seq<HitRecord>)
    ensures recs == WorldHits(sqrt, l, r, tMin, tMax)
    ensures |recs| <= 1
  {
    recs := [];
    var bestIntersection := HitRecord(tMax, Zero, Zero, None);
    var hitAnything := false;
    ghost var total := ScanFrom(Start(tMax), Candidates(sqrt, l, r, tMin, tMax));
    assert l[0..] == l;
    var i := 0;
    while i < |l|
      invariant 0 <= i <= |l|
      invariant ScanFrom(Best(hitAnything, bestIntersection), Candidates(sqrt, l[i..], r, tMin, tMax)) == total
    {
      var hits := HitPrimitive(sqrt, l[i], r, tMin, tMax);
      ghost var entry := Best(hitAnything, bestIntersection);
      hitAnything, bestIntersection := ScanRecords(hits, hitAnything, bestIntersection);
      CandidatesStep(sqrt, l, i, r, tMin, tMax);
      ScanFromAppend(entry, hits, Candidates(sqrt, l[i + 1..], r, tMin, tMax));
      i := i + 1;
    }
    if hitAnything {
      recs := recs + [bestIntersection];
    }
  }
}
