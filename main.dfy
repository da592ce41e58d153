/**
 * main.cpp: `ray_color`, the depth-bounded path tracer. A ray that hits the world is
 * scattered by the material of the hit and its colour is the attenuation times the colour
 * of the scattered ray one level deeper; a ray that misses takes the sky's colour, a blend
 * from white to light blue by the height of its direction.
 *
 * The random draws of the bounces are a parameter: `draws(d)` is what the scatter of the
 * bounce made with `d` levels left receives.
 */
module Integrator {
  import opened Outcomes
  import opened Libm
  import opened Vectors
  import opened Rays
  import opened Materials
  import opened BoundingBoxes
  import opened Hits
  import opened Utils
  import Scene
  import Lambertians
  import Metals
  import Dielectrics

  const White := Vec3(1.0, 1.0, 1.0)
  const LightBlue := Vec3(0.5, 0.7, 1.0)

  /** The world is queried on [0.01, +infinity): hits closer than 0.01 are ignored. */
  const MinParameter := 0.01

  /** The virtual material::scatter, dispatched on the kind of material. */
  function Scatter(m: Material, rIn: Ray, info: Hit, draw: Draw): (r: Result<Scattered>)
    ensures r.Ok? ==> r.value.scattered.origin == info.point
    ensures r.Ok? && !m.Metal? ==> r.value.scatters
    ensures WellFormed(m) && r.Ok? ==> InUnitCube(r.value.attenuation)
  {
    match m
    case Lambertian(color) => Lambertians.Scatter(color, rIn, info, draw.sample)
    case Metal(color, fuzzyness) => Metals.Scatter(color, fuzzyness, rIn, info, draw.sample)
    case Dielectric(index) => Dielectrics.Scatter(index, rIn, info, draw.threshold)
  }

  /**
   * A draw made of the point random_in_unit_sphere accepts from `points` and a value of
   * random_double in [0, 1) lies in the ranges the generator promises.
   */
  lemma SampledDrawInRange(points: seq<Vec3>, threshold: real)
    requires FirstInBall(points).Some? && 0.0 <= threshold < 1.0
    ensures DrawInRange(Draw(FirstInBall(points).value, threshold))
  {
  }

  /** The colour of a ray that misses: white blended towards light blue by the height. */
  function Sky(r: Ray): (c: Result<Vec3>)
    ensures c.Err? <==> UnitVector(r.direction).Err?
    ensures c.Err? ==> c.error == NullVector
  {
    var unitDirection := UnitVector(r.direction);
    if unitDirection.Err? then Err(unitDirection.error)
    else Ok(Lerp(White, LightBlue, UnitMap(unitDirection.value.y)))
  }

  /** ray_color(r, world, depth), with the errors of unit_vector carried out. */
  function RayColor(world: Scene.Hittable, r: Ray, depth: int := 1, draws: int -> Draw): (c: Result<Vec3>)
    ensures depth <= 0 ==> c == Ok(Zero)
    decreases depth
  {
    if depth <= 0 then Ok(Zero)
    else
      var test := Scene.Intersect(world, r, MinParameter, PosInf, DefaultHit);
      if test.Err? then Err(test.error)
      else if !test.value.hit then Sky(r)
      else
        var info := test.value.record;
        Scene.IntersectFacts(world, r, MinParameter, PosInf, DefaultHit);
        var scatter := Scatter(info.material.value, r, info, draws(depth));
        if scatter.Err? then Err(scatter.error)
        else if !scatter.value.scatters then Ok(Zero)
        else
          var rest := RayColor(world, scatter.value.scattered, depth - 1, draws);
          if rest.Err? then Err(rest.error) else Ok(Mul(scatter.value.attenuation, rest.value))
  }

  /** A component of a vector of squared length 1 lies in [-1, 1]. */
  lemma UnitComponent(v: Vec3)
    requires LengthSquared(v) == 1.0
    ensures -1.0 <= v.y <= 1.0
  {
    assert v.y * v.y <= 1.0;
  }

  /**
   * The sky lies on the segment from white to light blue: red in [0.5, 1], green in
   * [0.7, 1] and blue 1.
   */
  lemma SkyBetween(r: Ray)
    requires SqrtIsRoot() && Sky(r).Ok?
    ensures var c := Sky(r).value;
      0.5 <= c.x <= 1.0 && 0.7 <= c.y <= 1.0 && c.z == 1.0
  {
    var u := UnitVector(r.direction).value;
    UnitVectorIsUnit(r.direction);
    UnitComponent(u);
  }

  /** A ray pointing straight up takes light blue. */
  lemma StraightUp(r: Ray, k: real)
    requires SqrtIsRoot() && 0.0 < k && r.direction == Vec3(0.0, k, 0.0)
    ensures Sky(r) == Ok(LightBlue)
  {
    assert LengthSquared(r.direction) == k * k;
    SqrtOfSquare(k);
    assert Length(r.direction) == k;
  }

  /** A ray pointing straight down takes white. */
  lemma StraightDown(r: Ray, k: real)
    requires SqrtIsRoot() && 0.0 < k && r.direction == Vec3(0.0, -k, 0.0)
    ensures Sky(r) == Ok(White)
  {
    assert LengthSquared(r.direction) == k * k;
    SqrtOfSquare(k);
    assert Length(r.direction) == k;
  }

  /** A ray without a direction has no sky colour: unit_vector throws. */
  lemma ZeroDirection(r: Ray)
    requires SqrtIsRoot() && r.direction == Zero
    ensures Sky(r) == Err(NullVector)
  {
    SqrtZero(0.0);
  }

  /** A miss takes the sky's colour whatever the depth left and the draws. */
  lemma MissIsSky(world: Scene.Hittable, r: Ray, depth: int, draws: int -> Draw, depth2: int, draws2: int -> Draw)
    requires 0 < depth && 0 < depth2
    requires Scene.Intersect(world, r, MinParameter, PosInf, DefaultHit) == Ok(HitOutcome(false, DefaultHit))
    ensures RayColor(world, r, depth, draws) == Sky(r) == RayColor(world, r, depth2, draws2)
  {
  }

  /** An empty list is missed by every ray: everything is sky. */
  lemma EmptyWorldIsSky(r: Ray, depth: int, draws: int -> Draw)
    requires 0 < depth
    ensures RayColor(Scene.List([]), r, depth, draws) == Sky(r)
  {
    assert Scene.Scan(Scene.List([]), 0, r, MinParameter, PosInf, DefaultHit)
        == Ok(Scene.ScanState(false, PosInf, DefaultHit, DefaultHit));
  }

  /** With one level left, a ray that hits something is black: its bounce has depth 0. */
  lemma LastBounceIsBlack(world: Scene.Hittable, r: Ray, draws: int -> Draw)
    requires Scene.Intersect(world, r, MinParameter, PosInf, DefaultHit).Ok?
    requires Scene.Intersect(world, r, MinParameter, PosInf, DefaultHit).value.hit
    requires RayColor(world, r, 1, draws).Ok?
    ensures RayColor(world, r, 1, draws) == Ok(Zero)
  {
    hide Scene.Intersect;
    hide Scatter;
    var info := Scene.Intersect(world, r, MinParameter, PosInf, DefaultHit).value.record;
    Scene.IntersectFacts(world, r, MinParameter, PosInf, DefaultHit);
    var scatter := Scatter(info.material.value, r, info, draws(1));
    if scatter.value.scatters {
      assert RayColor(world, scatter.value.scattered, 0, draws) == Ok(Zero);
      assert Mul(scatter.value.attenuation, Zero) == Zero;
    }
  }

  /** The product of two colours in [0, 1] is a colour in [0, 1]. */
  lemma MulInUnitCube(a: Vec3, b: Vec3)
    requires InUnitCube(a) && InUnitCube(b)
    ensures InUnitCube(Mul(a, b))
  {
    ProductBounds(a.x, b.x);
    ProductBounds(a.y, b.y);
    ProductBounds(a.z, b.z);
  }

  /**
   * One level of ray_color with depth left, case by case: the world's test succeeded; a miss
   * is the sky; a hit carries a material whose scatter succeeded, and gives black when the
   * ray is absorbed and the attenuation times the next level's colour when it scatters.
   */
  lemma Level(world: Scene.Hittable, r: Ray, depth: int, draws: int -> Draw)
    requires 0 < depth && RayColor(world, r, depth, draws).Ok?
    ensures var test := Scene.Intersect(world, r, MinParameter, PosInf, DefaultHit);
      && test.Ok?
      && (!test.value.hit ==> RayColor(world, r, depth, draws) == Sky(r))
      && (test.value.hit ==>
            && test.value.record.material.Some?
            && (Scene.WellFormedScene(world) ==> WellFormed(test.value.record.material.value)))
  {
    hide Scene.Intersect;
    hide Scatter;
    hide Sky;
    Scene.IntersectFacts(world, r, MinParameter, PosInf, DefaultHit);
  }

  /** The colour of a hit at a level with depth left: black, or the attenuation times the next level's. */
  lemma HitLevel(world: Scene.Hittable, r: Ray, depth: int, draws: int -> Draw, info: Hit)
    requires 0 < depth && RayColor(world, r, depth, draws).Ok?
    requires Scene.Intersect(world, r, MinParameter, PosInf, DefaultHit) == Ok(HitOutcome(true, info))
    requires info.material.Some?
    ensures var scatter := Scatter(info.material.value, r, info, draws(depth));
      && scatter.Ok?
      && (!scatter.value.scatters ==> RayColor(world, r, depth, draws) == Ok(Zero))
      && (scatter.value.scatters ==>
            && RayColor(world, scatter.value.scattered, depth - 1, draws).Ok?
            && RayColor(world, r, depth, draws)
               == Ok(Mul(scatter.value.attenuation, RayColor(world, scatter.value.scattered, depth - 1, draws).value)))
  {
    hide Scene.Intersect;
    hide Scatter;
    hide Sky;
  }

  /**
   * In a scene whose albedos are colours in [0, 1], every colour ray_color computes is in
   * [0, 1]: the sky is, and each bounce only attenuates.
   */
  lemma {:induction false} ColorInUnitCube(world: Scene.Hittable, r: Ray, depth: int, draws: int -> Draw)
    requires SqrtIsRoot() && Scene.WellFormedScene(world)
    requires RayColor(world, r, depth, draws).Ok?
    ensures InUnitCube(RayColor(world, r, depth, draws).value)
    decreases depth
  {
    hide RayColor;
    hide Scene.Intersect;
    hide Scatter;
    hide Sky;
    hide Scene.WellFormedScene;
    if depth > 0 {
      Level(world, r, depth, draws);
      var test := Scene.Intersect(world, r, MinParameter, PosInf, DefaultHit);
      if !test.value.hit {
        SkyBetween(r);
      } else {
        var info := test.value.record;
        HitLevel(world, r, depth, draws, info);
        var scatter := Scatter(info.material.value, r, info, draws(depth));
        if scatter.value.scatters {
          ColorInUnitCube(world, scatter.value.scattered, depth - 1, draws);
          MulInUnitCube(scatter.value.attenuation, RayColor(world, scatter.value.scattered, depth - 1, draws).value);
        }
      }
    }
  }
}
