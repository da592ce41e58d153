/**
 * sphere.hpp: `sphere::test_hit`. The ray's parameter solves a quadratic whose half-b form
 * the source uses; the near root is preferred and the far root is the fallback. On success
 * the record's parameter, point, normal, face flag and material are written, but not `u`
 * and `v`. A zero direction makes the leading coefficient zero and the root 0 / 0, which the
 * source carries on with as NaN; the model stops with `NotANumber` there.
 */
module Spheres {
  import opened Outcomes
  import opened Libm
  import opened Vectors
  import opened Rays
  import opened Materials
  import opened BoundingBoxes
  import opened Hits
  import Utils

  datatype Sphere = Sphere(center: Vec3, radius: real, material: Material)

  /**
   * The coefficients of the quadratic a t^2 + 2 hb t + c = 0 whose roots are the parameters
   * where the ray meets the sphere.
   */
  datatype Quadratic = Quadratic(a: real, hb: real, c: real)

  function Coefficients(s: Sphere, r: Ray): (q: Quadratic)
    ensures 0.0 <= q.a
  {
    var distance := Sub(r.origin, s.center);
    Quadratic(LengthSquared(r.direction), Dot(r.direction, distance),
              LengthSquared(distance) - s.radius * s.radius)
  }

  function Discriminant(q: Quadratic): real
  {
    q.hb * q.hb - q.a * q.c
  }

  function NearRoot(q: Quadratic): real
    requires q.a != 0.0
  {
    (-q.hb - Sqrt(Discriminant(q))) / q.a
  }

  function FarRoot(q: Quadratic): real
    requires q.a != 0.0
  {
    (-q.hb + Sqrt(Discriminant(q))) / q.a
  }

  /** The record filled in for an accepted root t, or the error unit_vector throws. */
  function Record(s: Sphere, r: Ray, t: real, rec: Hit): (res: Result<HitOutcome>)
    ensures res.Ok? ==> res.value.hit && res.value.record.parameter == t
    ensures res.Ok? ==> res.value.record.point == At(r, t)
    ensures res.Err? ==> res.error == NullVector
  {
    var point := At(r, t);
    match UnitVector(Sub(point, s.center))
    case Err(e) => Err(e)
    case Ok(normal) =>
      Ok(HitOutcome(true, FaceDetermined(rec.(parameter := t, point := point), r, normal).(material := Some(s.material))))
  }

  /** The body of sphere::test_hit once the coefficients q are computed. */
  function Solve(q: Quadratic, s: Sphere, r: Ray, tMin: real, tMax: Bound, rec: Hit): (res: Result<HitOutcome>)
    ensures res.Ok? && !res.value.hit ==> res.value.record == rec
  {
    if Discriminant(q) < 0.0 then Ok(HitOutcome(false, rec))
    else if q.a == 0.0 then Err(NotANumber)
    else if Accepts(NearRoot(q), tMin, tMax) then Record(s, r, NearRoot(q), rec)
    else if Accepts(FarRoot(q), tMin, tMax) then Record(s, r, FarRoot(q), rec)
    else Ok(HitOutcome(false, rec))
  }

  /** sphere::test_hit on the caller's record `rec`. */
  function Intersect(s: Sphere, r: Ray, tMin: real, tMax: Bound, rec: Hit): (res: Result<HitOutcome>)
    ensures res.Ok? && !res.value.hit ==> res.value.record == rec
  {
    Solve(Coefficients(s, r), s, r, tMin, tMax, rec)
  }

  /** The facts HitFacts states, for any coefficients. */
  lemma SolveHitFacts(q: Quadratic, s: Sphere, r: Ray, tMin: real, tMax: Bound, rec: Hit)
    requires Solve(q, s, r, tMin, tMax, rec).Ok? && Solve(q, s, r, tMin, tMax, rec).value.hit
    ensures q.a != 0.0 && 0.0 <= Discriminant(q)
    ensures var h := Solve(q, s, r, tMin, tMax, rec).value.record;
      && InInterval(h.parameter, tMin, tMax)
      && (h.parameter == NearRoot(q) || h.parameter == FarRoot(q))
      && (InInterval(NearRoot(q), tMin, tMax) ==> h.parameter == NearRoot(q))
      && h.point == At(r, h.parameter)
      && UnitVector(Sub(h.point, s.center)).Ok?
      && (h.frontFace ==> h.normal == UnitVector(Sub(h.point, s.center)).value)
      && (!h.frontFace ==> h.normal == Neg(UnitVector(Sub(h.point, s.center)).value))
      && Dot(r.direction, h.normal) <= 0.0
      && h.material == Some(s.material) && h.u == rec.u && h.v == rec.v
  {
    AcceptsIsInInterval(NearRoot(q), tMin, tMax);
    AcceptsIsInInterval(FarRoot(q), tMin, tMax);
  }

  /**
   * A successful test records a root of the quadratic inside [t_min, t_max], preferring the
   * near root; the point on the ray at that parameter; the unit outward normal turned against
   * the ray; and the sphere's material. It leaves u and v as they were.
   */
  lemma HitFacts(s: Sphere, r: Ray, tMin: real, tMax: Bound, rec: Hit)
    requires Intersect(s, r, tMin, tMax, rec).Ok? && Intersect(s, r, tMin, tMax, rec).value.hit
    ensures var q := Coefficients(s, r);
      q.a != 0.0 && 0.0 <= Discriminant(q)
      && var h := Intersect(s, r, tMin, tMax, rec).value.record;
      && InInterval(h.parameter, tMin, tMax)
      && (h.parameter == NearRoot(q) || h.parameter == FarRoot(q))
      && (InInterval(NearRoot(q), tMin, tMax) ==> h.parameter == NearRoot(q))
      && h.point == At(r, h.parameter)
      && UnitVector(Sub(h.point, s.center)).Ok?
      && (h.frontFace ==> h.normal == UnitVector(Sub(h.point, s.center)).value)
      && (!h.frontFace ==> h.normal == Neg(UnitVector(Sub(h.point, s.center)).value))
      && Dot(r.direction, h.normal) <= 0.0
      && h.material == Some(s.material) && h.u == rec.u && h.v == rec.v
  {
    SolveHitFacts(Coefficients(s, r), s, r, tMin, tMax, rec);
  }

  lemma SolveMissCases(q: Quadratic, s: Sphere, r: Ray, tMin: real, tMax: Bound, rec: Hit)
    ensures Discriminant(q) < 0.0 ==> Solve(q, s, r, tMin, tMax, rec) == Ok(HitOutcome(false, rec))
    ensures 0.0 <= Discriminant(q) && q.a != 0.0
            && !InInterval(NearRoot(q), tMin, tMax) && !InInterval(FarRoot(q), tMin, tMax)
            ==> Solve(q, s, r, tMin, tMax, rec) == Ok(HitOutcome(false, rec))
  {
    if 0.0 <= Discriminant(q) && q.a != 0.0 {
      AcceptsIsInInterval(NearRoot(q), tMin, tMax);
      AcceptsIsInInterval(FarRoot(q), tMin, tMax);
    }
  }

  /**
   * A negative discriminant, or two roots both outside [t_min, t_max], is a miss that leaves
   * the record untouched.
   */
  lemma MissCases(s: Sphere, r: Ray, tMin: real, tMax: Bound, rec: Hit)
    ensures var q := Coefficients(s, r);
      Discriminant(q) < 0.0 ==> Intersect(s, r, tMin, tMax, rec) == Ok(HitOutcome(false, rec))
    ensures var q := Coefficients(s, r);
      0.0 <= Discriminant(q) && q.a != 0.0
      && !InInterval(NearRoot(q), tMin, tMax) && !InInterval(FarRoot(q), tMin, tMax)
      ==> Intersect(s, r, tMin, tMax, rec) == Ok(HitOutcome(false, rec))
  {
    SolveMissCases(Coefficients(s, r), s, r, tMin, tMax, rec);
  }

  lemma SolveErrorCases(q: Quadratic, s: Sphere, r: Ray, tMin: real, tMax: Bound, rec: Hit)
    requires Solve(q, s, r, tMin, tMax, rec).Err?
    ensures 0.0 <= Discriminant(q)
    ensures Solve(q, s, r, tMin, tMax, rec).error == NotANumber <==> q.a == 0.0
  {
  }

  /**
   * The test stops with an error only when the discriminant is non-negative: with
   * `NotANumber` exactly when the direction is zero, and otherwise because unit_vector
   * threw on a hit point at the centre.
   */
  lemma ErrorCases(s: Sphere, r: Ray, tMin: real, tMax: Bound, rec: Hit)
    requires Intersect(s, r, tMin, tMax, rec).Err?
    ensures 0.0 <= Discriminant(Coefficients(s, r))
    ensures Intersect(s, r, tMin, tMax, rec).error == NotANumber <==> r.direction == Zero
  {
    SolveErrorCases(Coefficients(s, r), s, r, tMin, tMax, rec);
  }

  lemma SolveNarrowing(q: Quadratic, s: Sphere, r: Ray, tMin: real, tMax: Bound, tMax2: Bound,
                       rec: Hit, rec2: Hit)
    requires Solve(q, s, r, tMin, tMax, rec).Ok? && Solve(q, s, r, tMin, tMax, rec).value.hit
    requires Le(Fin(Solve(q, s, r, tMin, tMax, rec).value.record.parameter), tMax2) && Le(tMax2, tMax)
    ensures Solve(q, s, r, tMin, tMax2, rec2).Ok? && Solve(q, s, r, tMin, tMax2, rec2).value.hit
    ensures Solve(q, s, r, tMin, tMax2, rec2).value.record.parameter
         == Solve(q, s, r, tMin, tMax, rec).value.record.parameter
  {
    var t := Solve(q, s, r, tMin, tMax, rec).value.record.parameter;
    if Accepts(NearRoot(q), tMin, tMax) {
      assert t == NearRoot(q);
      assert Solve(q, s, r, tMin, tMax2, rec2) == Record(s, r, t, rec2);
    } else {
      assert t == FarRoot(q);
      assert Solve(q, s, r, tMin, tMax2, rec2) == Record(s, r, t, rec2);
    }
  }

  /**
   * Lowering t_max to no less than the parameter of a hit keeps that hit, whatever record
   * is passed in: the choice between the roots does not change.
   */
  lemma Narrowing(s: Sphere, r: Ray, tMin: real, tMax: Bound, tMax2: Bound, rec: Hit, rec2: Hit)
    requires Intersect(s, r, tMin, tMax, rec).Ok? && Intersect(s, r, tMin, tMax, rec).value.hit
    requires Le(Fin(Intersect(s, r, tMin, tMax, rec).value.record.parameter), tMax2) && Le(tMax2, tMax)
    ensures Intersect(s, r, tMin, tMax2, rec2).Ok? && Intersect(s, r, tMin, tMax2, rec2).value.hit
    ensures Intersect(s, r, tMin, tMax2, rec2).value.record.parameter
         == Intersect(s, r, tMin, tMax, rec).value.record.parameter
  {
    SolveNarrowing(Coefficients(s, r), s, r, tMin, tMax, tMax2, rec, rec2);
  }

  /**
   * sphere::test_hit writing into the caller's record. When unit_vector throws, the
   * parameter and point have already been written; the record is then left as it is.
   */
  method TestHit(s: Sphere, r: Ray, tMin: real, tMax: Bound, rec: HitRecord)
    returns (result: Result<bool>)
    modifies rec
    ensures result == Verdict(Intersect(s, r, tMin, tMax, old(rec.Value())))
    ensures result.Ok? ==> rec.Value() == Intersect(s, r, tMin, tMax, old(rec.Value())).value.record
  {
    var q := Coefficients(s, r);
    result := SolveInto(q, s, r, tMin, tMax, rec);
  }

  /** The part of sphere::test_hit after the coefficients are computed. */
  method SolveInto(q: Quadratic, s: Sphere, r: Ray, tMin: real, tMax: Bound, rec: HitRecord)
    returns (result: Result<bool>)
    modifies rec
    ensures result == Verdict(Solve(q, s, r, tMin, tMax, old(rec.Value())))
    ensures result.Ok? ==> rec.Value() == Solve(q, s, r, tMin, tMax, old(rec.Value())).value.record
  {
    hide At, Sub, UnitVector, Discriminant, NearRoot, FarRoot;
    ghost var original := rec.Value();
    var discriminant := Discriminant(q);
    if discriminant < 0.0 {
      return Ok(false);
    }
    if q.a == 0.0 {
      // the root is 0 / 0
      return Err(NotANumber);
    }
    var root := NearRoot(q);
    if !Accepts(root, tMin, tMax) {
      root := FarRoot(q);
      if !Accepts(root, tMin, tMax) {
        return Ok(false);
      }
    }
    assert Solve(q, s, r, tMin, tMax, original) == Record(s, r, root, original);
    rec.parameter := root;
    rec.point := At(r, rec.parameter);
    ghost var placed := original.(parameter := root, point := At(r, root));
    assert rec.Value() == placed;
    var outNormal := UnitVector(Sub(rec.point, s.center));
    if outNormal.Err? {
      return Err(outNormal.error);
    }
    rec.FaceDetermination(r, outNormal.value);
    rec.material := Some(s.material);
    assert rec.Value() == FaceDetermined(placed, r, outNormal.value).(material := Some(s.material));
    return Ok(true);
  }

  /** A root (-hb + e) / a with e * e the discriminant solves a t^2 + 2 hb t + c = 0. */
  lemma QuadraticRoot(a: real, hb: real, c: real, e: real, t: real)
    requires a != 0.0 && e * e == hb * hb - a * c && t == (-hb + e) / a
    ensures a * t * t + 2.0 * hb * t + c == 0.0
  {
    var at := a * t;
    assert at == -hb + e;
    var q := a * t * t + 2.0 * hb * t + c;
    assert a * q == at * at + 2.0 * hb * at + a * c;
    assert at * at + 2.0 * hb * at + a * c == e * e - hb * hb + a * c;
    assert a * q == 0.0;
    assert q == (a * q) / a;
  }

  /**
   * The squared distance from c of the point of a ray at parameter t, expanded in t, with the
   * coefficients start, hb and a named by the caller.
   */
  lemma OffsetFromCenter(r: Ray, c: Vec3, t: real, start: real, hb: real, a: real)
    requires start == LengthSquared(Sub(r.origin, c)) && hb == Dot(r.direction, Sub(r.origin, c))
    requires a == LengthSquared(r.direction)
    ensures LengthSquared(Sub(At(r, t), c)) == start + 2.0 * t * hb + t * t * a
  {
    PointOffsetLength(r, c, t);
    OffsetExpanded(r.origin, r.direction, c, t, start, hb, a);
  }

  lemma PointOffsetLength(r: Ray, c: Vec3, t: real)
    ensures LengthSquared(Sub(At(r, t), c))
         == LengthSquared(Add(Sub(r.origin, c), Scale(t, r.direction)))
  {
    assert Sub(At(r, t), c) == Add(Sub(r.origin, c), Scale(t, r.direction));
  }

  lemma OffsetExpanded(o: Vec3, d: Vec3, c: Vec3, t: real, start: real, hb: real, a: real)
    requires start == LengthSquared(Sub(o, c)) && hb == Dot(d, Sub(o, c)) && a == LengthSquared(d)
    ensures LengthSquared(Add(Sub(o, c), Scale(t, d))) == start + 2.0 * t * hb + t * t * a
  {
    hide *;
    var e, p := Sub(o, c), Add(Sub(o, c), Scale(t, d));
    SquaresOfStep(e, d, t, p, LengthSquared(p));
    SquaresOfComponents(e, start);
    SquaresOfComponents(d, a);
    ProductsOfComponents(d, e, hb);
    SumExpanded(e.x, e.y, e.z, d.x, d.y, d.z, t, start, hb, a);
  }

  lemma SquaresOfStep(e: Vec3, d: Vec3, t: real, p: Vec3, s: real)
    requires p == Add(e, Scale(t, d)) && s == LengthSquared(p)
    ensures s == (e.x + t * d.x) * (e.x + t * d.x) + (e.y + t * d.y) * (e.y + t * d.y)
                 + (e.z + t * d.z) * (e.z + t * d.z)
  {
  }

  lemma SquaresOfComponents(v: Vec3, s: real)
    requires s == LengthSquared(v)
    ensures s == v.x * v.x + v.y * v.y + v.z * v.z
  {
  }

  lemma ProductsOfComponents(u: Vec3, v: Vec3, s: real)
    requires s == Dot(u, v)
    ensures s == u.x * v.x + u.y * v.y + u.z * v.z
  {
  }

  /** The square of e + t d, component by component, expanded in t. */
  lemma SumExpanded(ex: real, ey: real, ez: real, dx: real, dy: real, dz: real, t: real,
                    start: real, hb: real, a: real)
    requires start == ex * ex + ey * ey + ez * ez && hb == dx * ex + dy * ey + dz * ez
    requires a == dx * dx + dy * dy + dz * dz
    ensures (ex + t * dx) * (ex + t * dx) + (ey + t * dy) * (ey + t * dy) + (ez + t * dz) * (ez + t * dz)
         == start + 2.0 * t * hb + t * t * a
  {
    SquareExpanded(ex, dx, t);
    SquareExpanded(ey, dy, t);
    SquareExpanded(ez, dz, t);
  }

  lemma SquareExpanded(e: real, d: real, t: real)
    ensures (e + t * d) * (e + t * d) == e * e + 2.0 * t * (d * e) + t * t * (d * d)
  {
  }

  /** A root of the quadratic a, hb, c of s and r is a parameter at which the ray meets the sphere. */
  lemma RootOnSphere(s: Sphere, r: Ray, t: real, a: real, hb: real, c: real)
    requires Coefficients(s, r) == Quadratic(a, hb, c)
    requires a * t * t + 2.0 * hb * t + c == 0.0
    ensures LengthSquared(Sub(At(r, t), s.center)) == s.radius * s.radius
  {
    hide LengthSquared;
    hide Dot;
    hide At;
    var start := LengthSquared(Sub(r.origin, s.center));
    OffsetFromCenter(r, s.center, t, start, hb, a);
    RootRearranged(LengthSquared(Sub(At(r, t), s.center)), start, a, hb, c, s.radius * s.radius, t);
  }

  /** The arithmetic step of RootOnSphere, on plain numbers. */
  lemma RootRearranged(distance: real, start: real, a: real, hb: real, c: real, squaredRadius: real, t: real)
    requires distance == start + 2.0 * t * hb + t * t * a
    requires start == c + squaredRadius
    requires a * t * t + 2.0 * hb * t + c == 0.0
    ensures distance == squaredRadius
  {
    assert t * t * a == a * t * t;
  }

  /** Both roots lie on the sphere. */
  lemma RootsOnSphere(s: Sphere, r: Ray)
    requires SqrtIsRoot()
    requires Coefficients(s, r).a != 0.0 && 0.0 <= Discriminant(Coefficients(s, r))
    ensures LengthSquared(Sub(At(r, NearRoot(Coefficients(s, r))), s.center)) == s.radius * s.radius
    ensures LengthSquared(Sub(At(r, FarRoot(Coefficients(s, r))), s.center)) == s.radius * s.radius
  {
    NearRootOnSphere(s, r);
    FarRootOnSphere(s, r);
  }

  lemma NearRootOnSphere(s: Sphere, r: Ray)
    requires SqrtIsRoot()
    requires Coefficients(s, r).a != 0.0 && 0.0 <= Discriminant(Coefficients(s, r))
    ensures LengthSquared(Sub(At(r, NearRoot(Coefficients(s, r))), s.center)) == s.radius * s.radius
  {
    var q := Coefficients(s, r);
    RootsSolve(q);
    RootOnSphere(s, r, NearRoot(q), q.a, q.hb, q.c);
  }

  lemma FarRootOnSphere(s: Sphere, r: Ray)
    requires SqrtIsRoot()
    requires Coefficients(s, r).a != 0.0 && 0.0 <= Discriminant(Coefficients(s, r))
    ensures LengthSquared(Sub(At(r, FarRoot(Coefficients(s, r))), s.center)) == s.radius * s.radius
  {
    var q := Coefficients(s, r);
    RootsSolve(q);
    RootOnSphere(s, r, FarRoot(q), q.a, q.hb, q.c);
  }

  /** With a true square root, both roots solve a t^2 + 2 hb t + c = 0. */
  lemma RootsSolve(q: Quadratic)
    requires SqrtIsRoot()
    requires q.a != 0.0 && 0.0 <= Discriminant(q)
    ensures q.a * NearRoot(q) * NearRoot(q) + 2.0 * q.hb * NearRoot(q) + q.c == 0.0
    ensures q.a * FarRoot(q) * FarRoot(q) + 2.0 * q.hb * FarRoot(q) + q.c == 0.0
  {
    var e := Sqrt(Discriminant(q));
    assert e * e == q.hb * q.hb - q.a * q.c;
    assert NearRoot(q) == (-q.hb + -e) / q.a;
    QuadraticRoot(q.a, q.hb, q.c, -e, NearRoot(q));
    QuadraticRoot(q.a, q.hb, q.c, e, FarRoot(q));
  }

  /** The point a successful test records lies on the sphere. */
  lemma HitOnSurface(s: Sphere, r: Ray, tMin: real, tMax: Bound, rec: Hit)
    requires SqrtIsRoot()
    requires Intersect(s, r, tMin, tMax, rec).Ok? && Intersect(s, r, tMin, tMax, rec).value.hit
    ensures var h := Intersect(s, r, tMin, tMax, rec).value.record;
            LengthSquared(Sub(h.point, s.center)) == s.radius * s.radius
  {
    HitFacts(s, r, tMin, tMax, rec);
    RootsOnSphere(s, r);
  }

  /** The coefficients of the head-on example below. */
  lemma HeadOnCoefficients(R: real, m: Material)
    ensures Coefficients(Sphere(Zero, R, m), Ray(Vec3(0.0, 0.0, 5.0), Vec3(0.0, 0.0, -1.0), 0.0))
         == Quadratic(1.0, -5.0, 25.0 - R * R)
  {
    var d := Vec3(0.0, 0.0, -1.0);
    var distance := Sub(Vec3(0.0, 0.0, 5.0), Zero);
    assert distance == Vec3(0.0, 0.0, 5.0);
    assert LengthSquared(d) == 1.0;
    assert Dot(d, distance) == -5.0;
    assert LengthSquared(distance) == 25.0;
  }

  /** unit_vector((0, 0, R)) is (0, 0, 1) for a positive R. */
  lemma UnitZ(R: real)
    requires SqrtIsRoot() && 0.0 < R
    ensures UnitVector(Vec3(0.0, 0.0, R)) == Ok(Vec3(0.0, 0.0, 1.0))
  {
    assert LengthSquared(Vec3(0.0, 0.0, R)) == R * R;
    SqrtOfSquare(R);
    assert Length(Vec3(0.0, 0.0, R)) == R;
    assert Scale(1.0 / R, Vec3(0.0, 0.0, R)) == Vec3(0.0, 0.0, 1.0);
  }

  /**
   * With the coefficients of the head-on example, a sphere of radius R at the origin and a
   * ray from (0, 0, 5) along -z meet at parameter 5 - R, with the normal (0, 0, 1) facing
   * the ray.
   */
  lemma HeadOnSolve(R: real, s: Sphere, r: Ray, tMin: real, tMax: Bound, rec: Hit)
    requires SqrtIsRoot()
    requires s == Sphere(Zero, R, s.material) && r == Ray(Vec3(0.0, 0.0, 5.0), Vec3(0.0, 0.0, -1.0), 0.0)
    requires 0.0 < R && tMin <= 5.0 - R && Le(Fin(5.0 - R), tMax)
    ensures var res := Solve(Quadratic(1.0, -5.0, 25.0 - R * R), s, r, tMin, tMax, rec);
            res.Ok? && res.value.hit && res.value.record.parameter == 5.0 - R
            && res.value.record.normal == Vec3(0.0, 0.0, 1.0) && res.value.record.frontFace
  {
    var q := Quadratic(1.0, -5.0, 25.0 - R * R);
    assert Discriminant(q) == R * R;
    SqrtOfSquare(R);
    assert NearRoot(q) == 5.0 - R;
    assert Accepts(NearRoot(q), tMin, tMax);
    assert Sub(At(r, 5.0 - R), s.center) == Vec3(0.0, 0.0, R);
    UnitZ(R);
    assert Solve(q, s, r, tMin, tMax, rec) == Record(s, r, 5.0 - R, rec);
  }
}
