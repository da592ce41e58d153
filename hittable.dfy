/**
 * hittable.hpp: the hit record and the normal-orientation rule `face_determination`.
 *
 * The record's `u`, `v` and `material_pointer` fields are written by the primitives but not
 * declared in hittable.hpp; the model declares them. A record the caller has not yet filled
 * in is `DefaultHit` (the source leaves its fields indeterminate).
 */
module Hits {
  import opened Outcomes
  import opened Vectors
  import opened Rays
  import opened Materials
  import opened BoundingBoxes

  datatype Hit = Hit(parameter: real, point: Vec3, normal: Vec3, frontFace: bool,
                     u: real, v: real, material: Option<Material>)

  const DefaultHit := Hit(0.0, Zero, Zero, false, 0.0, 0.0, None)

  /** What a `test_hit` call returns, together with the caller's record after the call. */
  datatype HitOutcome = HitOutcome(hit: bool, record: Hit)

  /** The boolean a `test_hit` call returns, or the error it stops with. */
  function Verdict(o: Result<HitOutcome>): (r: Result<bool>)
    ensures r.Ok? <==> o.Ok?
    ensures r.Ok? ==> r.value == o.value.hit
    ensures r.Err? ==> r.error == o.error
  {
    match o
    case Ok(outcome) => Ok(outcome.hit)
    case Err(e) => Err(e)
  }

  /**
   * The acceptance test of the primitives, `!(t < t_min || t_max < t)`: t lies in
   * [t_min, t_max], both ends included.
   */
  predicate Accepts(t: real, tMin: real, tMax: Bound)
  {
    !(t < tMin || Lt(tMax, Fin(t)))
  }

  predicate InInterval(t: real, tMin: real, tMax: Bound)
  {
    tMin <= t && Le(Fin(t), tMax)
  }

  lemma AcceptsIsInInterval(t: real, tMin: real, tMax: Bound)
    ensures Accepts(t, tMin, tMax) <==> InInterval(t, tMin, tMax)
  {
  }

  /** face_determination on a record value: the fields it assigns, and only those. */
  function FaceDetermined(h: Hit, r: Ray, outNormal: Vec3): (res: Hit)
    ensures res.frontFace <==> Dot(r.direction, outNormal) < 0.0
    ensures res.normal == outNormal || res.normal == Neg(outNormal)
    ensures res.frontFace ==> res.normal == outNormal
    ensures Dot(r.direction, res.normal) <= 0.0
    ensures res.parameter == h.parameter && res.point == h.point && res.u == h.u
            && res.v == h.v && res.material == h.material
  {
    var front := Dot(r.direction, outNormal) < 0.0;
    DotNeg(r.direction, outNormal);
    h.(frontFace := front, normal := if front then outNormal else Neg(outNormal))
  }

  /** A hit record whose fields the primitives and face_determination assign in place. */
  class HitRecord {
    var parameter: real
    var point: Vec3
    var normal: Vec3
    var frontFace: bool
    var u: real
    var v: real
    var material: Option<Material>

    function Value(): Hit
      reads this
    {
      Hit(parameter, point, normal, frontFace, u, v, material)
    }

    constructor (h: Hit)
      ensures Value() == h
    {
      parameter, point, normal, frontFace := h.parameter, h.point, h.normal, h.frontFace;
      u, v, material := h.u, h.v, h.material;
    }

    /** hit::face_determination */
    method FaceDetermination(r: Ray, outNormal: Vec3)
      modifies this
      ensures Value() == FaceDetermined(old(Value()), r, outNormal)
    {
      frontFace := Dot(r.direction, outNormal) < 0.0;
      normal := if frontFace then outNormal else Neg(outNormal);
    }

    /** The copy assignment `info = other`. */
    method Assign(h: Hit)
      modifies this
      ensures Value() == h
    {
      parameter, point, normal, frontFace := h.parameter, h.point, h.normal, h.frontFace;
      u, v, material := h.u, h.v, h.material;
    }
  }
}
