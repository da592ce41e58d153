/**
 * utils.hpp: the mappings used to blend the sky colour, the rejection samplers, and
 * `refract`. The random generator itself is not modelled: the samplers take the sequence
 * of points the generator would produce as a parameter.
 */
module Utils {
  import opened Outcomes
  import opened Libm
  import opened Vectors

  /** unit_map: maps [-1, 1] onto [0, 1]. */
  function UnitMap(x: real): (r: real)
    ensures -1.0 <= x <= 1.0 ==> 0.0 <= r <= 1.0
    ensures x == -1.0 ==> r == 0.0
    ensures x == 1.0 ==> r == 1.0
  {
    0.5 * (x + 1.0)
  }

  /** vec3_unit_map: unit_map applied to each component. */
  function Vec3UnitMap(v: Vec3): (r: Vec3)
    ensures -1.0 <= v.x <= 1.0 ==> 0.0 <= r.x <= 1.0
    ensures -1.0 <= v.y <= 1.0 ==> 0.0 <= r.y <= 1.0
    ensures -1.0 <= v.z <= 1.0 ==> 0.0 <= r.z <= 1.0
    ensures r == Vec3(UnitMap(v.x), UnitMap(v.y), UnitMap(v.z))
  {
    Scale(0.5, Add(v, Vec3(1.0, 1.0, 1.0)))
  }

  /** vec3_lerp: the blend (1 - t) * origin + t * destination. */
  function Lerp(origin: Vec3, destination: Vec3, t: real): (r: Vec3)
    ensures t == 0.0 ==> r == origin
    ensures t == 1.0 ==> r == destination
  {
    Add(Scale(1.0 - t, origin), Scale(t, destination))
  }

  /**
   * The point random_in_unit_sphere returns when the generator produces `points` in turn:
   * the first one strictly inside the unit ball. None when every point is rejected (the
   * source would keep drawing).
   */
  function FirstInBall(points: seq<Vec3>): (r: Option<Vec3>)
    ensures r.Some? ==> LengthSquared(r.value) < 1.0 && r.value in points
    ensures r.None? <==> forall i :: 0 <= i < |points| ==> LengthSquared(points[i]) >= 1.0
  {
    if |points| == 0 then None
    else if LengthSquared(points[0]) < 1.0 then Some(points[0])
    else FirstInBall(points[1..])
  }

  /** A drawn point with its z component set to 0, as random_in_unit_disk does. */
  function Flatten(p: Vec3): Vec3
  {
    p.(z := 0.0)
  }

  /**
   * The point random_in_unit_disk returns: the first flattened point strictly inside the
   * unit disk.
   */
  function FirstInDisk(points: seq<Vec3>): (r: Option<Vec3>)
    ensures r.Some? ==> r.value.z == 0.0 && LengthSquared(r.value) < 1.0
    ensures r.Some? ==> exists i :: 0 <= i < |points| && r.value == Flatten(points[i])
    ensures r.None? <==> forall i :: 0 <= i < |points| ==> LengthSquared(Flatten(points[i])) >= 1.0
  {
    if |points| == 0 then None
    else if LengthSquared(Flatten(points[0])) < 1.0 then Some(Flatten(points[0]))
    else
      var rest := FirstInDisk(points[1..]);
      assert rest.Some? ==> exists i :: 0 <= i < |points| && rest.value == Flatten(points[i]) by {
        if rest.Some? {
          var i :| 0 <= i < |points| - 1 && rest.value == Flatten(points[1..][i]);
          assert rest.value == Flatten(points[i + 1]);
        }
      }
      rest
  }

  /** random_in_unit_sphere: draw points until one lies strictly inside the unit ball. */
  method RandomInUnitSphere(draws: seq<Vec3>) returns (point: Option<Vec3>)
    ensures point == FirstInBall(draws)
    ensures point.Some? ==> LengthSquared(point.value) < 1.0
  {
    var i := 0;
    while i < |draws|
      invariant 0 <= i <= |draws|
      invariant FirstInBall(draws[i..]) == FirstInBall(draws)
    {
      var p := draws[i];
      assert draws[i..][1..] == draws[i + 1..];
      i := i + 1;
      if LengthSquared(p) < 1.0 {
        return Some(p);
      }
    }
    return None;
  }

  /**
   * random_in_unit_disk: draw points and clear their z component until one lies strictly
   * inside the unit disk.
   */
  method RandomInUnitDisk(draws: seq<Vec3>) returns (point: Option<Vec3>)
    ensures point == FirstInDisk(draws)
    ensures point.Some? ==> point.value.z == 0.0 && LengthSquared(point.value) < 1.0
  {
    var i := 0;
    while i < |draws|
      invariant 0 <= i <= |draws|
      invariant FirstInDisk(draws[i..]) == FirstInDisk(draws)
    {
      var p := draws[i];
      p := p.(z := 0.0);
      assert draws[i..][1..] == draws[i + 1..];
      i := i + 1;
      if LengthSquared(p) < 1.0 {
        return Some(p);
      }
    }
    return None;
  }

  /**
   * random_unit_vector: unit_vector of the point random_in_unit_sphere returned; throws when
   * that point is the origin.
   */
  function RandomUnitVector(sample: Vec3): (r: Result<Vec3>)
    ensures r.Err? ==> r.error == NullVector
    ensures r.Ok? ==> Length(sample) != 0.0 && r.value == Scale(1.0 / Length(sample), sample)
  {
    UnitVector(sample)
  }

  /** The sample is rejected only at the origin, and otherwise has length 1. */
  lemma RandomUnitVectorIsUnit(sample: Vec3)
    requires SqrtIsRoot()
    ensures RandomUnitVector(sample).Ok? <==> sample != Zero
    ensures RandomUnitVector(sample).Ok? ==> LengthSquared(RandomUnitVector(sample).value) == 1.0
  {
    var r := RandomUnitVector(sample);
    assert r == UnitVector(sample);
    UnitVectorDefined(sample);
    if r.Ok? {
      UnitVectorIsUnit(sample);
    }
  }

  /** The cosine refract uses: dot(-in, n), capped at 1. */
  function RefractCosine(incident: Vec3, n: Vec3): (c: real)
    ensures c <= 1.0 && c <= Dot(Neg(incident), n)
    ensures c == 1.0 || c == Dot(Neg(incident), n)
  {
    Min(Dot(Neg(incident), n), 1.0)
  }

  /** The component of the refracted direction perpendicular to the normal. */
  function RefractPerpendicular(incident: Vec3, n: Vec3, ratio: real): Vec3
  {
    Scale(ratio, Add(incident, Scale(RefractCosine(incident, n), n)))
  }

  /** refract: the perpendicular component plus a multiple of the normal. */
  function Refract(incident: Vec3, n: Vec3, ratio: real): (r: Vec3)
    ensures Cross(Sub(r, RefractPerpendicular(incident, n, ratio)), n) == Zero
  {
    var perpendicular := RefractPerpendicular(incident, n, ratio);
    var s := -Sqrt(Abs(1.0 - LengthSquared(perpendicular)));
    var parallel := Scale(s, n);
    assert Sub(Add(perpendicular, parallel), perpendicular) == parallel;
    ParallelCross(s, n);
    Add(perpendicular, parallel)
  }

  lemma ParallelCross(s: real, n: Vec3)
    ensures Cross(Scale(s, n), n) == Zero
  {
    assert s * n.x * n.y == s * n.y * n.x;
    assert s * n.y * n.z == s * n.z * n.y;
    assert s * n.z * n.x == s * n.x * n.z;
  }

  /** The squared length of a + s * b, expanded. */
  lemma LengthSquaredOfSum(a: Vec3, s: real, b: Vec3)
    ensures LengthSquared(Add(a, Scale(s, b)))
         == LengthSquared(a) + 2.0 * s * Dot(a, b) + s * s * LengthSquared(b)
  {
    var p := Add(a, Scale(s, b));
    SumComponents(a, s, b);
    hide *;
    LengthSquaredComponents(p);
    LengthSquaredComponents(a);
    LengthSquaredComponents(b);
    DotComponents(a, b);
    SquareOfSum(p.x, a.x, s, b.x);
    SquareOfSum(p.y, a.y, s, b.y);
    SquareOfSum(p.z, a.z, s, b.z);
    Distribute(2.0 * s, Dot(a, b), a.x * b.x, a.y * b.y, a.z * b.z);
    Distribute(s * s, LengthSquared(b), b.x * b.x, b.y * b.y, b.z * b.z);
  }

  lemma SumComponents(a: Vec3, s: real, b: Vec3)
    ensures Add(a, Scale(s, b)) == Vec3(a.x + s * b.x, a.y + s * b.y, a.z + s * b.z)
  {
    var t := Scale(s, b);
    assert t.x == s * b.x && t.y == s * b.y && t.z == s * b.z;
  }

  lemma LengthSquaredComponents(v: Vec3)
    ensures LengthSquared(v) == v.x * v.x + v.y * v.y + v.z * v.z
  {
  }

  lemma DotComponents(u: Vec3, v: Vec3)
    ensures Dot(u, v) == u.x * v.x + u.y * v.y + u.z * v.z
  {
  }

  /** One component of LengthSquaredOfSum: (x + s y)^2 expanded. */
  lemma SquareOfSum(sum: real, x: real, s: real, y: real)
    requires sum == x + s * y
    ensures sum * sum == x * x + 2.0 * s * (x * y) + s * s * (y * y)
  {
  }

  lemma Distribute(k: real, total: real, u: real, v: real, w: real)
    requires total == u + v + w
    ensures k * total == k * u + k * v + k * w
  {
  }

  /** Cauchy-Schwarz for unit vectors, the half refract needs: dot(a, b) >= -1. */
  lemma UnitDotAtLeastMinusOne(a: Vec3, b: Vec3)
    requires LengthSquared(a) == 1.0 && LengthSquared(b) == 1.0
    ensures -1.0 <= Dot(a, b)
  {
    LengthSquaredOfSum(a, 1.0, b);
    assert Scale(1.0, b) == b;
  }

  /**
   * With ratio 1, a unit ray meeting a unit normal from its front side leaves refract
   * unbent.
   */
  lemma {:induction false} RefractStraight(incident: Vec3, n: Vec3)
    requires SqrtIsRoot()
    requires LengthSquared(incident) == 1.0 && LengthSquared(n) == 1.0
    requires Dot(incident, n) <= 0.0
    ensures Refract(incident, n, 1.0) == incident
  {
    StraightCosine(incident, n);
    var c := RefractCosine(incident, n);
    var sum := Add(incident, Scale(c, n));
    assert RefractPerpendicular(incident, n, 1.0) == sum;
    StraightPerpendicular(incident, n, c);
    CancelScaled(incident, c, n);
    hide Add, Scale, Dot, LengthSquared, RefractCosine, RefractPerpendicular;
    assert Abs(1.0 - LengthSquared(sum)) == c * c by {
      assert 0.0 <= c * c;
    }
    SqrtOfSquare(c);
    assert Refract(incident, n, 1.0) == Add(sum, Scale(-c, n));
  }

  /** Adding c * n and then -c * n gives back v. */
  lemma CancelScaled(v: Vec3, c: real, n: Vec3)
    ensures Add(Add(v, Scale(c, n)), Scale(-c, n)) == v
  {
  }

  /** In RefractStraight, fmin(dot(-in, n), 1) is dot(-in, n) itself, in [0, 1]. */
  lemma StraightCosine(incident: Vec3, n: Vec3)
    requires LengthSquared(incident) == 1.0 && LengthSquared(n) == 1.0
    requires Dot(incident, n) <= 0.0
    ensures RefractCosine(incident, n) == -Dot(incident, n)
    ensures 0.0 <= RefractCosine(incident, n) <= 1.0
  {
    DotNeg(incident, n);
    DotSymmetric(Neg(incident), n);
    UnitDotAtLeastMinusOne(incident, n);
  }

  /** In RefractStraight, the perpendicular component has squared length 1 - c^2. */
  lemma StraightPerpendicular(incident: Vec3, n: Vec3, c: real)
    requires LengthSquared(incident) == 1.0 && LengthSquared(n) == 1.0
    requires c == -Dot(incident, n)
    ensures LengthSquared(Add(incident, Scale(c, n))) == 1.0 - c * c
  {
    LengthSquaredOfSum(incident, c, n);
    assert 2.0 * c * Dot(incident, n) == -2.0 * (c * c);
  }
}
