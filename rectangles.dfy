/**
 * rectangles.hpp: the axis-aligned rectangles `xy_rect`, `yz_rect` and `xz_rect`.
 *
 * A rectangle lies in the plane where the coordinate `plane` (2, 0 and 1 respectively)
 * equals `k`; the ray crosses that plane at t = (k - origin[plane]) / direction[plane], and
 * the crossing counts when t is in [t_min, t_max] and the two other coordinates, read with
 * `operator[]` at (plane + 1) % 3 and (plane + 2) % 3, lie in [left, right] and [down, up].
 * For `xz_rect` those are z and x, while its constructor, uv and bounding box pair x with
 * [left, right] and z with [down, up]; the model keeps that as written.
 *
 * Where the source divides by zero and carries on with an IEEE infinity or NaN, the model
 * follows the comparisons an infinity takes (a positive-zero divisor is assumed) and stops
 * with `NotANumber` where a NaN would reach the record.
 */
module Rectangles {
  import opened Outcomes
  import opened Vectors
  import opened Rays
  import opened Materials
  import opened BoundingBoxes
  import opened Hits

  datatype RectKind = Xy | Yz | Xz

  datatype Rect = Rect(kind: RectKind, k: real, left: real, right: real, down: real, up: real,
                       material: Material)

  /** The fixed axis of each kind, as its test_hit passes it to out_of_bounds. */
  function Plane(kind: RectKind): (p: nat)
    ensures p < 3
  {
    match kind
    case Xy => 2
    case Yz => 0
    case Xz => 1
  }

  /** The vector each kind passes to face_determination. */
  function AxisNormal(kind: RectKind): (n: Vec3)
    ensures LengthSquared(n) == 1.0
  {
    match kind
    case Xy => Vec3(0.0, 0.0, 1.0)
    case Yz => Vec3(1.0, 0.0, 0.0)
    case Xz => Vec3(0.0, 1.0, 0.0)
  }

  /** The extents set by assign_corners. */
  datatype Corners = Corners(left: real, right: real, down: real, up: real)

  /**
   * rect::assign_corners: extents of the given width and height centred on
   * (centerw, centerh).
   */
  function AssignCorners(centerw: real, centerh: real, width: real, height: real): (c: Corners)
    ensures c.right - c.left == width && c.up - c.down == height
    ensures (c.left + c.right) / 2.0 == centerw && (c.down + c.up) / 2.0 == centerh
    ensures 0.0 <= width ==> c.left <= c.right
    ensures 0.0 <= height ==> c.down <= c.up
  {
    var w := width / 2.0;
    var h := height / 2.0;
    Corners(centerw - w, centerw + w, centerh - h, centerh + h)
  }

  function Build(kind: RectKind, k: real, c: Corners, material: Material): Rect
  {
    Rect(kind, k, c.left, c.right, c.down, c.up, material)
  }

  /** The xy_rect constructor: k is the centre's z, the extents span x and y. */
  function NewXyRect(center: Vec3, width: real, height: real, material: Material): (x: Rect)
    ensures x.kind == Xy && x.k == center.z && x.material == material
    ensures x.right - x.left == width && x.up - x.down == height
    ensures (x.left + x.right) / 2.0 == center.x && (x.down + x.up) / 2.0 == center.y
  {
    Build(Xy, center.z, AssignCorners(center.x, center.y, width, height), material)
  }

  /** The yz_rect constructor: k is the centre's x, the extents span y and z. */
  function NewYzRect(center: Vec3, width: real, height: real, material: Material): (x: Rect)
    ensures x.kind == Yz && x.k == center.x && x.material == material
    ensures x.right - x.left == width && x.up - x.down == height
    ensures (x.left + x.right) / 2.0 == center.y && (x.down + x.up) / 2.0 == center.z
  {
    Build(Yz, center.x, AssignCorners(center.y, center.z, width, height), material)
  }

  /** The xz_rect constructor: k is the centre's y, the extents span x and z. */
  function NewXzRect(center: Vec3, width: real, height: real, material: Material): (x: Rect)
    ensures x.kind == Xz && x.k == center.y && x.material == material
    ensures x.right - x.left == width && x.up - x.down == height
    ensures (x.left + x.right) / 2.0 == center.x && (x.down + x.up) / 2.0 == center.z
  {
    Build(Xz, center.y, AssignCorners(center.x, center.z, width, height), material)
  }

  /** The result of out_of_bounds: outside, or inside at parameter t and point p. */
  datatype Crossing = Outside | Inside(t: real, p: Vec3)

  /** The in-plane test of out_of_bounds, negated: both coordinates within the extents. */
  predicate WithinExtents(x: Rect, w: real, h: real)
  {
    !(w < x.left || x.right < w || h < x.down || x.up < h)
  }

  /**
   * rect::out_of_bounds for the given plane. A direction with a zero component along the
   * plane makes t = (k - o) / 0: negative infinity when k < o, which t_min rejects; positive
   * infinity when k > o, which a finite t_max rejects and whose point is infinite (so out of
   * the extents) on an in-plane axis the direction moves along; and NaN otherwise.
   */
  function Cross(x: Rect, r: Ray, tMin: real, tMax: Bound, plane: nat): (c: Result<Crossing>)
    ensures c.Err? ==> c.error == NotANumber && Index(r.direction, plane) == 0.0
    ensures c.Ok? && c.value.Inside? ==>
      && Index(r.direction, plane) != 0.0
      && Accepts(c.value.t, tMin, tMax)
      && c.value.p == At(r, c.value.t)
      && WithinExtents(x, Index(c.value.p, (plane + 1) % 3), Index(c.value.p, (plane + 2) % 3))
  {
    var o := Index(r.origin, plane);
    var d := Index(r.direction, plane);
    if d == 0.0 then
      if x.k < o then Ok(Outside)
      else if x.k == o then Err(NotANumber)
      else if tMax != PosInf then Ok(Outside)
      else if Index(r.direction, (plane + 1) % 3) != 0.0 || Index(r.direction, (plane + 2) % 3) != 0.0
      then Ok(Outside)
      else Err(NotANumber)
    else
      var t := (x.k - o) / d;
      if !Accepts(t, tMin, tMax) then Ok(Outside)
      else
        var p := At(r, t);
        if WithinExtents(x, Index(p, (plane + 1) % 3), Index(p, (plane + 2) % 3))
        then Ok(Inside(t, p))
        else Ok(Outside)
  }

  /**
   * rect::calculate_uv: the relative position of (pointw, pointh) in the extents. A zero
   * width or height makes the source divide by zero and store a NaN (0 / 0) or, where the
   * point is off the degenerate extent as an xz_rect hit may be, an infinity in u or v,
   * and go on. The model has no such values and stops there with `NotANumber`.
   */
  function Uv(x: Rect, pointw: real, pointh: real): (res: Result<(real, real)>)
    ensures res.Err? <==> x.left == x.right || x.down == x.up
    ensures res.Err? ==> res.error == NotANumber
    ensures res.Ok? ==> x.left + res.value.0 * (x.right - x.left) == pointw
    ensures res.Ok? ==> x.down + res.value.1 * (x.up - x.down) == pointh
  {
    if x.right - x.left == 0.0 || x.up - x.down == 0.0 then Err(NotANumber)
    else Ok(((pointw - x.left) / (x.right - x.left), (pointh - x.down) / (x.up - x.down)))
  }

  /** The coordinates each kind passes to calculate_uv. */
  function UvArguments(kind: RectKind, p: Vec3): (real, real)
  {
    match kind
    case Xy => (p.x, p.y)
    case Yz => (p.y, p.z)
    case Xz => (p.x, p.z)
  }

  /** xy_rect / yz_rect / xz_rect ::test_hit on the caller's record `rec`. */
  function Intersect(x: Rect, r: Ray, tMin: real, tMax: Bound, rec: Hit): (res: Result<HitOutcome>)
    ensures res.Ok? && !res.value.hit ==> res.value.record == rec
  {
    var crossing := Cross(x, r, tMin, tMax, Plane(x.kind));
    if crossing.Err? then Err(crossing.error)
    else if crossing.value.Outside? then Ok(HitOutcome(false, rec))
    else
      var t, p := crossing.value.t, crossing.value.p;
      var arguments := UvArguments(x.kind, p);
      var uv := Uv(x, arguments.0, arguments.1);
      if uv.Err? then Err(uv.error)
      else
        Ok(HitOutcome(true, FaceDetermined(rec.(parameter := t, point := p, u := uv.value.0, v := uv.value.1),
                                           r, AxisNormal(x.kind))
                              .(material := Some(x.material))))
  }

  /**
   * The bounding_box of each kind: the extents on the two in-plane axes and, on the fixed
   * axis, a slab 0.002 thick with k strictly inside it.
   */
  function BoundingBox(x: Rect): (box: Aabb)
    ensures x.kind.Xy? ==>
      && box.minimum.z < x.k < box.maximum.z && box.maximum.z - box.minimum.z == 0.002
      && box.minimum.x == x.left && box.maximum.x == x.right && box.minimum.y == x.down && box.maximum.y == x.up
    ensures x.kind.Yz? ==>
      && box.minimum.x < x.k < box.maximum.x && box.maximum.x - box.minimum.x == 0.002
      && box.minimum.y == x.left && box.maximum.y == x.right && box.minimum.z == x.down && box.maximum.z == x.up
    ensures x.kind.Xz? ==>
      && box.minimum.y < x.k < box.maximum.y && box.maximum.y - box.minimum.y == 0.002
      && box.minimum.x == x.left && box.maximum.x == x.right && box.minimum.z == x.down && box.maximum.z == x.up
  {
    match x.kind
    case Xy => Aabb(Vec3(x.left, x.down, x.k - 0.001), Vec3(x.right, x.up, x.k + 0.001))
    case Yz => Aabb(Vec3(x.k - 0.001, x.left, x.down), Vec3(x.k + 0.001, x.right, x.up))
    case Xz => Aabb(Vec3(x.left, x.k - 0.001, x.down), Vec3(x.right, x.k + 0.001, x.up))
  }

  /**
   * rect::out_of_bounds writing `info.parameter` and `info.point` only when the crossing
   * counts; on a rejection it writes nothing.
   */
  method OutOfBounds(x: Rect, r: Ray, tMin: real, tMax: Bound, plane: nat, rec: HitRecord)
    returns (outside: Result<bool>)
    modifies rec
    ensures outside.Err? <==> Cross(x, r, tMin, tMax, plane).Err?
    ensures outside.Err? ==> outside.error == Cross(x, r, tMin, tMax, plane).error
    ensures outside == Ok(true) <==> Cross(x, r, tMin, tMax, plane) == Ok(Outside)
    ensures outside == Ok(false) ==> Cross(x, r, tMin, tMax, plane).value.Inside?
    ensures outside == Ok(false) ==>
      rec.Value() == old(rec.Value()).(parameter := Cross(x, r, tMin, tMax, plane).value.t,
                                       point := Cross(x, r, tMin, tMax, plane).value.p)
    ensures outside != Ok(false) ==> rec.Value() == old(rec.Value())
  {
    var o := Index(r.origin, plane);
    var d := Index(r.direction, plane);
    if d == 0.0 {
      if x.k < o {
        return Ok(true);
      } else if x.k == o {
        return Err(NotANumber);
      } else if tMax != PosInf {
        return Ok(true);
      } else if Index(r.direction, (plane + 1) % 3) != 0.0 || Index(r.direction, (plane + 2) % 3) != 0.0 {
        return Ok(true);
      }
      return Err(NotANumber);
    }
    var t := (x.k - o) / d;
    if t < tMin || Lt(tMax, Fin(t)) {
      return Ok(true);
    }
    var p := At(r, t);
    var w := Index(p, (plane + 1) % 3);
    var h := Index(p, (plane + 2) % 3);
    if w < x.left || x.right < w || h < x.down || x.up < h {
      return Ok(true);
    }
    rec.parameter := t;
    rec.point := p;
    return Ok(false);
  }

  /** rect::calculate_uv writing `info.u` and `info.v`; nothing is written when it divides by zero. */
  method CalculateUv(x: Rect, pointw: real, pointh: real, rec: HitRecord) returns (defined: bool)
    modifies rec
    ensures defined <==> Uv(x, pointw, pointh).Ok?
    ensures defined ==> rec.Value() == old(rec.Value()).(u := Uv(x, pointw, pointh).value.0,
                                                         v := Uv(x, pointw, pointh).value.1)
    ensures !defined ==> rec.Value() == old(rec.Value())
  {
    if x.right - x.left == 0.0 || x.up - x.down == 0.0 {
      return false;
    }
    rec.u := (pointw - x.left) / (x.right - x.left);
    rec.v := (pointh - x.down) / (x.up - x.down);
    return true;
  }

  /** test_hit of each kind, writing into the caller's record. */
  method TestHit(x: Rect, r: Ray, tMin: real, tMax: Bound, rec: HitRecord) returns (result: Result<bool>)
    modifies rec
    ensures result == Verdict(Intersect(x, r, tMin, tMax, old(rec.Value())))
    ensures result.Ok? ==> rec.Value() == Intersect(x, r, tMin, tMax, old(rec.Value())).value.record
  {
    ghost var original := rec.Value();
    var outside := OutOfBounds(x, r, tMin, tMax, Plane(x.kind), rec);
    if outside.Err? {
      return Err(outside.error);
    }
    if outside.value {
      return Ok(false);
    }
    var (w, h) := UvArguments(x.kind, rec.point);
    var defined := CalculateUv(x, w, h, rec);
    if !defined {
      return Err(NotANumber);
    }
    rec.FaceDetermination(r, AxisNormal(x.kind));
    rec.material := Some(x.material);
    return Ok(true);
  }

  /**
   * A successful test records a crossing of the plane inside [t_min, t_max], at the point
   * on the ray whose two in-plane coordinates lie within the extents; the normal is the
   * kind's axis turned against the ray, and the material is the rectangle's.
   */
  lemma HitFacts(x: Rect, r: Ray, tMin: real, tMax: Bound, rec: Hit)
    requires Intersect(x, r, tMin, tMax, rec).Ok? && Intersect(x, r, tMin, tMax, rec).value.hit
    ensures var p := Plane(x.kind);
      var h := Intersect(x, r, tMin, tMax, rec).value.record;
      && Index(r.direction, p) != 0.0
      && h.parameter == (x.k - Index(r.origin, p)) / Index(r.direction, p)
      && InInterval(h.parameter, tMin, tMax)
      && h.point == At(r, h.parameter)
      && x.left <= Index(h.point, (p + 1) % 3) <= x.right
      && x.down <= Index(h.point, (p + 2) % 3) <= x.up
      && (h.normal == AxisNormal(x.kind) || h.normal == Neg(AxisNormal(x.kind)))
      && (h.frontFace <==> Dot(r.direction, AxisNormal(x.kind)) < 0.0)
      && Dot(r.direction, h.normal) <= 0.0
      && h.material == Some(x.material)
      && Uv(x, UvArguments(x.kind, h.point).0, UvArguments(x.kind, h.point).1) == Ok((h.u, h.v))
  {
    var p := Plane(x.kind);
    var t := (x.k - Index(r.origin, p)) / Index(r.direction, p);
    AcceptsIsInInterval(t, tMin, tMax);
  }

  /**
   * Lowering t_max to no less than the parameter of a hit keeps that hit, whatever record
   * is passed in.
   */
  lemma Narrowing(x: Rect, r: Ray, tMin: real, tMax: Bound, tMax2: Bound, rec: Hit, rec2: Hit)
    requires Intersect(x, r, tMin, tMax, rec).Ok? && Intersect(x, r, tMin, tMax, rec).value.hit
    requires Le(Fin(Intersect(x, r, tMin, tMax, rec).value.record.parameter), tMax2) && Le(tMax2, tMax)
    ensures Intersect(x, r, tMin, tMax2, rec2).Ok? && Intersect(x, r, tMin, tMax2, rec2).value.hit
    ensures Intersect(x, r, tMin, tMax2, rec2).value.record.parameter
         == Intersect(x, r, tMin, tMax, rec).value.record.parameter
  {
    var p := Plane(x.kind);
    assert Cross(x, r, tMin, tMax2, p) == Cross(x, r, tMin, tMax, p);
  }

  /** With operator[] reading the components, a recorded point lies in the rectangle's plane. */
  lemma HitOnPlane(x: Rect, r: Ray, tMin: real, tMax: Bound, rec: Hit)
    requires IndexReadsComponents()
    requires Intersect(x, r, tMin, tMax, rec).Ok? && Intersect(x, r, tMin, tMax, rec).value.hit
    ensures Index(Intersect(x, r, tMin, tMax, rec).value.record.point, Plane(x.kind)) == x.k
  {
    HitFacts(x, r, tMin, tMax, rec);
    var h := Intersect(x, r, tMin, tMax, rec).value.record;
    CrossingOnPlane(x.k, r, Plane(x.kind), h.parameter, h.point);
  }

  /** The point where the ray crosses the plane coordinate p = k has coordinate p equal to k. */
  lemma CrossingOnPlane(k: real, r: Ray, p: nat, t: real, point: Vec3)
    requires IndexReadsComponents() && p < 3 && Index(r.direction, p) != 0.0
    requires t == (k - Index(r.origin, p)) / Index(r.direction, p) && point == At(r, t)
    ensures Index(point, p) == k
  {
    var o, d := Index(r.origin, p), Index(r.direction, p);
    AtComponent(r, t, p);
    CrossingReachesPlane(k, o, d, t);
  }

  lemma AtComponent(r: Ray, t: real, p: nat)
    requires IndexReadsComponents() && p < 3
    ensures Index(At(r, t), p) == Index(r.origin, p) + t * Index(r.direction, p)
  {
  }

  lemma CrossingReachesPlane(k: real, o: real, d: real, t: real)
    requires d != 0.0 && t == (k - o) / d
    ensures o + t * d == k
  {
  }

  /** A ray with no motion along the fixed axis never hits; it errs where a NaN would be recorded. */
  lemma ParallelNeverHits(x: Rect, r: Ray, tMin: real, tMax: Bound, rec: Hit)
    requires Index(r.direction, Plane(x.kind)) == 0.0
    ensures var res := Intersect(x, r, tMin, tMax, rec);
      res == Ok(HitOutcome(false, rec)) || res == Err(NotANumber)
    ensures var p := Plane(x.kind);
      Intersect(x, r, tMin, tMax, rec).Err? <==>
        x.k == Index(r.origin, p)
        || (Index(r.origin, p) < x.k && tMax == PosInf
            && Index(r.direction, (p + 1) % 3) == 0.0 && Index(r.direction, (p + 2) % 3) == 0.0)
  {
  }

  /** Inside the extents, with positive width and height, u and v lie in [0, 1]. */
  lemma UvInUnitRange(x: Rect, pointw: real, pointh: real)
    requires x.left < x.right && x.down < x.up
    requires x.left <= pointw <= x.right && x.down <= pointh <= x.up
    ensures Uv(x, pointw, pointh).Ok?
    ensures var (u, v) := Uv(x, pointw, pointh).value; 0.0 <= u <= 1.0 && 0.0 <= v <= 1.0
  {
    var (u, v) := Uv(x, pointw, pointh).value;
    UnitFraction(pointw - x.left, x.right - x.left, u);
    UnitFraction(pointh - x.down, x.up - x.down, v);
  }

  lemma UnitFraction(a: real, b: real, q: real)
    requires 0.0 <= a <= b && 0.0 < b && q == a / b
    ensures 0.0 <= q <= 1.0
  {
    assert q * b == a;
  }

  /**
   * For xy_rect and yz_rect the axes out_of_bounds tests are the ones calculate_uv and
   * bounding_box use, so a recorded hit lies in the bounding box and has u and v in [0, 1].
   */
  lemma HitInsideBox(x: Rect, r: Ray, tMin: real, tMax: Bound, rec: Hit)
    requires IndexReadsComponents()
    requires x.kind == Xy || x.kind == Yz
    requires Intersect(x, r, tMin, tMax, rec).Ok? && Intersect(x, r, tMin, tMax, rec).value.hit
    ensures var h := Intersect(x, r, tMin, tMax, rec).value.record;
      Encloses(BoundingBox(x), h.point) && 0.0 <= h.u <= 1.0 && 0.0 <= h.v <= 1.0
  {
    var h := Intersect(x, r, tMin, tMax, rec).value.record;
    var p := Plane(x.kind);
    var w, v := Index(h.point, (p + 1) % 3), Index(h.point, (p + 2) % 3);
    assert 0.0 <= h.u <= 1.0 && 0.0 <= h.v <= 1.0 by {
      HitFacts(x, r, tMin, tMax, rec);
      InPlaneArguments(x, h.point);
      assert Uv(x, w, v) == Ok((h.u, h.v));
      assert x.left != x.right && x.down != x.up;
      UvInUnitRange(x, w, v);
    }
    assert Encloses(BoundingBox(x), h.point) by {
      HitFacts(x, r, tMin, tMax, rec);
      HitOnPlane(x, r, tMin, tMax, rec);
      EnclosedInBox(x, h.point, w, v);
    }
  }

  /** For xy_rect and yz_rect, calculate_uv is passed the two coordinates out_of_bounds tests. */
  lemma InPlaneArguments(x: Rect, point: Vec3)
    requires IndexReadsComponents() && (x.kind == Xy || x.kind == Yz)
    ensures UvArguments(x.kind, point)
         == (Index(point, (Plane(x.kind) + 1) % 3), Index(point, (Plane(x.kind) + 2) % 3))
  {
  }

  /** A point on the plane of an xy_rect or yz_rect, within the extents, is in its box. */
  lemma EnclosedInBox(x: Rect, point: Vec3, w: real, h: real)
    requires IndexReadsComponents() && (x.kind == Xy || x.kind == Yz)
    requires Index(point, Plane(x.kind)) == x.k
    requires w == Index(point, (Plane(x.kind) + 1) % 3) && h == Index(point, (Plane(x.kind) + 2) % 3)
    requires x.left <= w <= x.right && x.down <= h <= x.up
    ensures Encloses(BoundingBox(x), point)
  {
  }

  /** The xz_rect of the example below: x in [0, 1], z in [5, 6], at y = 0. */
  lemma XzExample(m: Material)
    ensures NewXzRect(Vec3(0.5, 0.0, 5.5), 1.0, 1.0, m) == Rect(Xz, 0.0, 0.0, 1.0, 5.0, 6.0, m)
  {
  }

  /**
   * xz_rect as written: the rectangle of XzExample is hit by a ray going down through
   * (5.5, 0, 0.5), a point outside its bounding box, with u = 5.5.
   */
  lemma XzHitOutsideBox(x: Rect, r: Ray, rec: Hit)
    requires IndexReadsComponents()
    requires x == Rect(Xz, 0.0, 0.0, 1.0, 5.0, 6.0, x.material)
    requires r == Ray(Vec3(5.5, 1.0, 0.5), Vec3(0.0, -1.0, 0.0), 0.0)
    ensures var res := Intersect(x, r, 0.01, PosInf, rec);
      && res.Ok? && res.value.hit
      && res.value.record.point == Vec3(5.5, 0.0, 0.5)
      && !Encloses(BoundingBox(x), res.value.record.point)
      && res.value.record.u == 5.5
  {
    var point := Vec3(5.5, 0.0, 0.5);
    assert Index(r.origin, 1) == 1.0 && Index(r.direction, 1) == -1.0;
    assert Index(point, 2) == 0.5 && Index(point, 0) == 5.5;
    XzCrossing(x, r);
    assert Uv(x, 5.5, 0.5) == Ok((5.5, -4.5));
  }

  lemma XzCrossing(x: Rect, r: Ray)
    requires x == Rect(Xz, 0.0, 0.0, 1.0, 5.0, 6.0, x.material)
    requires r == Ray(Vec3(5.5, 1.0, 0.5), Vec3(0.0, -1.0, 0.0), 0.0)
    requires Index(r.origin, 1) == 1.0 && Index(r.direction, 1) == -1.0
    requires Index(Vec3(5.5, 0.0, 0.5), 2) == 0.5 && Index(Vec3(5.5, 0.0, 0.5), 0) == 5.5
    ensures Cross(x, r, 0.01, PosInf, 1) == Ok(Inside(1.0, Vec3(5.5, 0.0, 0.5)))
  {
    var t := (x.k - Index(r.origin, 1)) / Index(r.direction, 1);
    assert t == 1.0;
    assert Accepts(t, 0.01, PosInf);
    assert At(r, t) == Vec3(5.5, 0.0, 0.5);
    assert WithinExtents(x, 0.5, 5.5);
  }

  /** The fixed axis of the box is strictly padded; the others are ordered when the extents are. */
  lemma BoxProper(x: Rect)
    ensures var b := BoundingBox(x);
      IndexReadsComponents() ==> Index(b.minimum, Plane(x.kind)) < Index(b.maximum, Plane(x.kind))
    ensures var b := BoundingBox(x);
      x.left <= x.right && x.down <= x.up ==>
        b.minimum.x <= b.maximum.x && b.minimum.y <= b.maximum.y && b.minimum.z <= b.maximum.z
  {
  }

  /** A rectangle built with non-negative width and height has its centre in its box. */
  lemma CenterInBox(center: Vec3, width: real, height: real, m: Material)
    requires 0.0 <= width && 0.0 <= height
    ensures Encloses(BoundingBox(NewXyRect(center, width, height, m)), center)
    ensures Encloses(BoundingBox(NewYzRect(center, width, height, m)), center)
    ensures Encloses(BoundingBox(NewXzRect(center, width, height, m)), center)
  {
  }
}
