/**
 * dielectric.hpp: glass that reflects or refracts, choosing by total internal reflection
 * and by Schlick's reflectance against a random threshold.
 *
 * Where the source goes on with a NaN or an infinity the model returns Err(NotANumber),
 * except where the IEEE comparison that follows has a determined outcome, which the model
 * then takes.
 */
module Dielectrics {
  import opened Outcomes
  import opened Libm
  import opened Vectors
  import opened Rays
  import opened Utils
  import opened Materials
  import opened Hits

  /** r0 of Schlick's approximation, ((1 - refraction) / (1 + refraction))^2. */
  function NormalReflectance(refraction: real): (r0: real)
    requires refraction != -1.0
    ensures 0.0 <= r0
  {
    var q := (1.0 - refraction) / (1.0 + refraction);
    q * q
  }

  /** Schlick's blend r0 + (1 - r0) (1 - cos_theta)^5: r0 at normal incidence, 1 at grazing. */
  function Schlick(r0: real, cosTheta: real): (s: real)
    ensures cosTheta == 1.0 ==> s == r0
    ensures cosTheta == 0.0 ==> s == 1.0
  {
    r0 + (1.0 - r0) * Pow5(1.0 - cosTheta)
  }

  /** reflectance(cos_theta, refraction): Schlick's approximation; 1 + refraction == 0 gives NaN. */
  function Reflectance(cosTheta: real, refraction: real): (r: Result<real>)
    ensures r.Err? <==> refraction == -1.0
    ensures r.Err? ==> r.error == NotANumber
  {
    if refraction == -1.0 then Err(NotANumber)
    else Ok(Schlick(NormalReflectance(refraction), cosTheta))
  }

  /** At normal incidence the reflectance is r0. */
  lemma ReflectanceAtNormal(refraction: real)
    requires refraction != -1.0
    ensures Reflectance(1.0, refraction) == Ok(NormalReflectance(refraction))
  {
  }

  /** At grazing incidence everything is reflected. */
  lemma ReflectanceGrazing(refraction: real)
    requires refraction != -1.0
    ensures Reflectance(0.0, refraction) == Ok(1.0)
  {
    var r0 := NormalReflectance(refraction);
    assert Pow5(1.0) == 1.0;
    assert Schlick(r0, 0.0) == r0 + (1.0 - r0) * 1.0 == 1.0;
  }

  /** For a positive ratio, r0 lies in [0, 1). */
  lemma NormalReflectanceBelowOne(refraction: real)
    requires 0.0 < refraction
    ensures NormalReflectance(refraction) < 1.0
  {
    var q := (1.0 - refraction) / (1.0 + refraction);
    assert q * (1.0 + refraction) == 1.0 - refraction;
    assert -1.0 < q < 1.0 by {
      if q >= 1.0 {
        ProductAtLeast(q, 1.0 + refraction);
      } else if q <= -1.0 {
        ProductAtLeast(-q, 1.0 + refraction);
      }
    }
    if q >= 0.0 {
      ProductBounds(q, q);
      assert q * q <= q;
    } else {
      ProductBounds(-q, -q);
      assert q * q <= -q;
    }
  }

  /** a >= 1 and b > 0 give a * b >= b. */
  lemma ProductAtLeast(a: real, b: real)
    requires 1.0 <= a && 0.0 < b
    ensures b <= a * b
  {
    assert a * b - b == (a - 1.0) * b;
  }

  /** A blend r0 + (1 - r0) p with r0 and p in [0, 1] lies in [r0, 1]. */
  lemma BlendBounds(r0: real, cosTheta: real)
    requires 0.0 <= r0 <= 1.0 && 0.0 <= cosTheta <= 1.0
    ensures r0 <= Schlick(r0, cosTheta) <= 1.0
  {
    hide Power;
    var p := Pow5(1.0 - cosTheta);
    var q := 1.0 - r0;
    var m := p * q;
    ProductBounds(p, q);
    assert 0.0 <= m <= q;
    assert Schlick(r0, cosTheta) == r0 + m by { assert q * p == m; }
  }

  /** For cos_theta in [0, 1] and a positive ratio, the reflectance lies in [r0, 1]. */
  lemma ReflectanceBounds(cosTheta: real, refraction: real)
    requires 0.0 <= cosTheta <= 1.0 && 0.0 < refraction
    ensures Reflectance(cosTheta, refraction).Ok?
    ensures NormalReflectance(refraction) <= Reflectance(cosTheta, refraction).value <= 1.0
  {
    NormalReflectanceBelowOne(refraction);
    BlendBounds(NormalReflectance(refraction), cosTheta);
  }

  /**
   * Swapping the ratio for its reciprocal leaves r0 unchanged, so calling reflectance with
   * the refraction ratio rather than the index gives the same value.
   */
  lemma ReflectanceReciprocal(cosTheta: real, refraction: real)
    requires refraction != 0.0 && refraction != -1.0
    ensures 1.0 / refraction != -1.0
    ensures Reflectance(cosTheta, refraction) == Reflectance(cosTheta, 1.0 / refraction)
  {
    var inverse := 1.0 / refraction;
    InverseQuotient(refraction, inverse);
    var q := (1.0 - refraction) / (1.0 + refraction);
    var p := (1.0 - inverse) / (1.0 + inverse);
    assert p == -q;
    NegatedSquare(q, p);
    assert NormalReflectance(inverse) == p * p;
    assert NormalReflectance(refraction) == q * q;
  }

  /** With inverse == 1 / a: (1 - inverse) / (1 + inverse) == -((1 - a) / (1 + a)). */
  lemma InverseQuotient(a: real, inverse: real)
    requires a != 0.0 && a != -1.0 && inverse == 1.0 / a
    ensures inverse != -1.0
    ensures (1.0 - inverse) / (1.0 + inverse) == -((1.0 - a) / (1.0 + a))
  {
    assert inverse * a == 1.0;
    var num, den := 1.0 - inverse, 1.0 + inverse;
    assert num * a == a - 1.0;
    assert den * a == a + 1.0;
    assert den != 0.0;
    QuotientScaled(num, den, a);
  }

  /** Scaling numerator and denominator by the same non-zero number keeps a quotient. */
  lemma QuotientScaled(n: real, d: real, k: real)
    requires d != 0.0 && k != 0.0
    ensures d * k != 0.0
    ensures n / d == (n * k) / (d * k)
  {
    var q := n / d;
    assert q * d == n;
    assert (q * k) * d == n * k;
    assert q * (d * k) == n * k;
  }

  /** p == -q gives p * p == q * q. */
  lemma NegatedSquare(q: real, p: real)
    requires p == -q
    ensures p * p == q * q
  {
  }

  /** refraction_ratio: 1 / index on a front face, the index itself otherwise. */
  function RefractionRatio(index: real, frontFace: bool): (ratio: real)
    requires frontFace ==> index != 0.0
    ensures frontFace ==> ratio * index == 1.0
    ensures !frontFace ==> ratio == index
  {
    if frontFace then 1.0 / index else index
  }

  /**
   * The total-internal-reflection test ratio * sin_theta > 1 with sin_theta the square
   * root of 1 - cos_theta^2. A negative radicand makes sin_theta NaN and the test false.
   */
  predicate CannotRefract(ratio: real, cosTheta: real)
  {
    var sinSquared := 1.0 - cosTheta * cosTheta;
    0.0 <= sinSquared && ratio * Sqrt(sinSquared) > 1.0
  }

  /**
   * The test with an infinite ratio: infinity * sin_theta exceeds 1 exactly where sin_theta
   * is positive; it is NaN, and the test false, where sin_theta is 0 or NaN.
   */
  predicate CannotRefractAtInfinity(cosTheta: real)
  {
    var sinSquared := 1.0 - cosTheta * cosTheta;
    0.0 <= sinSquared && Sqrt(sinSquared) > 0.0
  }

  /** The cos_theta of the incident unit direction against the normal, capped at 1. */
  function CosTheta(unitDirection: Vec3, info: Hit): (c: real)
    ensures c <= 1.0
  {
    Min(Dot(Neg(unitDirection), info.normal), 1.0)
  }

  /** The ray leaving the hit point at the incoming time in the given direction, unattenuated. */
  function Outgoing(rIn: Ray, info: Hit, direction: Vec3): Scattered
  {
    Scattered(true, Vec3(1.0, 1.0, 1.0), Ray(info.point, direction, rIn.time))
  }

  /**
   * The direction scatter picks for the unit incident direction: the reflection when
   * refraction is impossible or when the reflectance exceeds the random threshold, the
   * refraction otherwise. A front face of index 0 gives an infinite ratio: the source then
   * reflects where sin_theta is positive and ends with NaN otherwise. At ratio -1 the
   * reflectance is NaN, which exceeds no threshold, so the ray is refracted.
   */
  function Direction(index: real, unitDirection: Vec3, info: Hit, threshold: real): (d: Result<Vec3>)
    ensures d.Err? <==> info.frontFace && index == 0.0 && !CannotRefractAtInfinity(CosTheta(unitDirection, info))
    ensures d.Err? ==> d.error == NotANumber
    ensures info.frontFace && index == 0.0 && d.Ok? ==> d.value == Reflect(unitDirection, info.normal)
    ensures !(info.frontFace && index == 0.0) ==>
      var ratio := RefractionRatio(index, info.frontFace);
      var cosTheta := CosTheta(unitDirection, info);
      var reflectance := Reflectance(cosTheta, ratio);
      && (CannotRefract(ratio, cosTheta) ==> d == Ok(Reflect(unitDirection, info.normal)))
      && (!CannotRefract(ratio, cosTheta) && reflectance.Ok? && reflectance.value > threshold ==>
            d == Ok(Reflect(unitDirection, info.normal)))
      && (!CannotRefract(ratio, cosTheta) && reflectance.Ok? && reflectance.value <= threshold ==>
            d == Ok(Refract(unitDirection, info.normal, ratio)))
      && (!CannotRefract(ratio, cosTheta) && reflectance.Err? ==>
            d == Ok(Refract(unitDirection, info.normal, ratio)))
  {
    var cosTheta := CosTheta(unitDirection, info);
    var reflected := Reflect(unitDirection, info.normal);
    if info.frontFace && index == 0.0 then
      if CannotRefractAtInfinity(cosTheta) then Ok(reflected) else Err(NotANumber)
    else
      var ratio := RefractionRatio(index, info.frontFace);
      var reflectance := Reflectance(cosTheta, ratio);
      if CannotRefract(ratio, cosTheta) || (reflectance.Ok? && reflectance.value > threshold) then Ok(reflected)
      else Ok(Refract(unitDirection, info.normal, ratio))
  }

  /**
   * dielectric::scatter with the value random_double returns: always scatters, unattenuated,
   * from the hit point at the incoming time, along the direction Direction chooses.
   * unit_vector throws on a zero direction; an index of 0 on a front face fails as Direction
   * does.
   */
  function Scatter(index: real, rIn: Ray, info: Hit, threshold: real): (r: Result<Scattered>)
    ensures UnitVector(rIn.direction).Err? ==> r == Err(NullVector)
    ensures r.Err? <==>
      UnitVector(rIn.direction).Err? || Direction(index, UnitVector(rIn.direction).value, info, threshold).Err?
    ensures r.Ok? ==>
      && r.value.scatters
      && r.value.attenuation == Vec3(1.0, 1.0, 1.0)
      && r.value.scattered.origin == info.point
      && r.value.scattered.time == rIn.time
      && r.value.scattered.direction == Direction(index, UnitVector(rIn.direction).value, info, threshold).value
  {
    var unitDirection := UnitVector(rIn.direction);
    if unitDirection.Err? then Err(unitDirection.error)
    else
      var direction := Direction(index, unitDirection.value, info, threshold);
      if direction.Err? then Err(direction.error) else Ok(Outgoing(rIn, info, direction.value))
  }

  /** When refraction is impossible the ray is reflected whatever the random draw. */
  lemma TotalInternalReflection(index: real, unitDirection: Vec3, info: Hit, threshold: real, threshold2: real)
    requires info.frontFace ==> index != 0.0
    requires CannotRefract(RefractionRatio(index, info.frontFace), CosTheta(unitDirection, info))
    ensures Direction(index, unitDirection, info, threshold) == Direction(index, unitDirection, info, threshold2)
    ensures Direction(index, unitDirection, info, threshold) == Ok(Reflect(unitDirection, info.normal))
  {
  }

  /** Of an index other than 0 the scatter always succeeds on a non-zero direction. */
  lemma ScatterDefined(index: real, rIn: Ray, info: Hit, threshold: real)
    requires index != 0.0
    ensures Scatter(index, rIn, info, threshold).Ok? <==> UnitVector(rIn.direction).Ok?
  {
    if UnitVector(rIn.direction).Ok? {
      assert Direction(index, UnitVector(rIn.direction).value, info, threshold).Ok?;
    }
  }

  /** A draw in range has a threshold below 1. */
  lemma ThresholdBelowOne(d: Draw)
    requires DrawInRange(d)
    ensures d.threshold < 1.0
  {
  }

  /**
   * At grazing incidence (cos_theta == 0) the reflectance is 1, which exceeds every draw in
   * range, so the ray is reflected.
   */
  lemma GrazingReflects(index: real, unitDirection: Vec3, info: Hit, d: Draw)
    requires DrawInRange(d) && index != -1.0
    requires info.frontFace ==> index != 0.0
    requires CosTheta(unitDirection, info) == 0.0
    ensures Direction(index, unitDirection, info, d.threshold) == Ok(Reflect(unitDirection, info.normal))
  {
    hide *;
    ThresholdBelowOne(d);
    var ratio := RefractionRatio(index, info.frontFace);
    assert ratio != -1.0 by {
      if info.frontFace {
        assert ratio * index == 1.0;
      } else {
        assert ratio == index;
      }
    }
    ReflectanceGrazing(ratio);
    var cosTheta := CosTheta(unitDirection, info);
    assert Reflectance(cosTheta, ratio) == Ok(1.0);
    assert !(info.frontFace && index == 0.0);
  }

  /**
   * Glass of index -1 has ratio -1 on either face; its reflectance is NaN, which exceeds no
   * draw, so wherever refraction is possible the ray is refracted.
   */
  lemma MinusOneRefracts(unitDirection: Vec3, info: Hit, threshold: real)
    requires !CannotRefract(-1.0, CosTheta(unitDirection, info))
    ensures Direction(-1.0, unitDirection, info, threshold) == Ok(Refract(unitDirection, info.normal, -1.0))
  {
    assert RefractionRatio(-1.0, info.frontFace) == -1.0;
  }

  /** For cos_theta in [-1, 1], sin_theta is at most 1, so a ratio of 1 never reflects totally. */
  lemma UnitRatioRefracts(cosTheta: real)
    requires SqrtIsRoot() && -1.0 <= cosTheta <= 1.0
    ensures !CannotRefract(1.0, cosTheta)
  {
    var sinSquared := 1.0 - cosTheta * cosTheta;
    SquareAtMostOne(cosTheta, cosTheta * cosTheta);
    SqrtAtMostOne(sinSquared);
  }

  /** A number in [-1, 1] has a square, named s, in [0, 1]. */
  lemma SquareAtMostOne(c: real, s: real)
    requires -1.0 <= c <= 1.0 && s == c * c
    ensures 0.0 <= s <= 1.0
  {
    assert 1.0 - s == (1.0 - c) * (1.0 + c);
    ProductBounds(0.5 * (1.0 - c), 0.5 * (1.0 + c));
  }

  /**
   * Glass of index 1 with a unit normal never reflects totally: the ratio is 1 on either
   * face and the cosine of two unit vectors is at least -1.
   */
  lemma IndexOneNeverTotal(rIn: Ray, info: Hit)
    requires SqrtIsRoot() && UnitVector(rIn.direction).Ok? && LengthSquared(info.normal) == 1.0
    ensures !CannotRefract(RefractionRatio(1.0, info.frontFace), CosTheta(UnitVector(rIn.direction).value, info))
  {
    var u := UnitVector(rIn.direction).value;
    UnitVectorIsUnit(rIn.direction);
    UnitDotAtLeastMinusOne(Neg(u), info.normal);
    assert LengthSquared(Neg(u)) == LengthSquared(u);
    UnitRatioRefracts(CosTheta(u, info));
  }

  /** The method form, writing the out-parameters before returning true. */
  method ScatterInto(index: real, rIn: Ray, info: Hit, threshold: real)
    returns (scatters: Result<bool>, attenuation: Vec3, scattered: Ray)
    ensures scatters.Err? <==> Scatter(index, rIn, info, threshold).Err?
    ensures scatters.Ok? ==>
      Scatter(index, rIn, info, threshold) == Ok(Scattered(scatters.value, attenuation, scattered))
  {
    attenuation, scattered := Zero, Ray(Zero, Zero, 0.0);
    var unit := UnitVector(rIn.direction);
    if unit.Err? {
      return Err(unit.error), attenuation, scattered;
    }
    var direction := ChooseDirection(index, unit.value, info, threshold);
    if direction.Err? {
      return Err(direction.error), attenuation, scattered;
    }
    attenuation := Vec3(1.0, 1.0, 1.0);
    scattered := Ray(info.point, direction.value, rIn.time);
    return Ok(true), attenuation, scattered;
  }

  /** The branch choice of scatter on the local direction, as the source computes it. */
  method ChooseDirection(index: real, unitDirection: Vec3, info: Hit, threshold: real)
    returns (direction: Result<Vec3>)
    ensures direction == Direction(index, unitDirection, info, threshold)
  {
    var cosTheta := CosTheta(unitDirection, info);
    if info.frontFace && index == 0.0 {
      if CannotRefractAtInfinity(cosTheta) {
        direction := Ok(Reflect(unitDirection, info.normal));
      } else {
        direction := Err(NotANumber);
      }
      return;
    }
    var ratio := RefractionRatio(index, info.frontFace);
    if CannotRefract(ratio, cosTheta) {
      direction := Ok(Reflect(unitDirection, info.normal));
    } else if ratio != -1.0 && Reflectance(cosTheta, ratio).value > threshold {
      direction := Ok(Reflect(unitDirection, info.normal));
    } else {
      direction := Ok(Refract(unitDirection, info.normal, ratio));
    }
  }
}
