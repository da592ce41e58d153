/**
 * lambertian.hpp: diffuse scattering around the normal. The random unit vector is derived
 * from the point the unit-ball sampler returned, which the caller passes in.
 */
module Lambertians {
  import opened Outcomes
  import opened Vectors
  import opened Rays
  import opened Utils
  import opened Materials
  import opened Hits

  /** The direction scatter picks: normal + unit vector, or the bare normal if degenerate. */
  function Direction(info: Hit, unit: Vec3): (d: Vec3)
    ensures IsZero(Add(info.normal, unit)) ==> d == info.normal
    ensures !IsZero(Add(info.normal, unit)) ==> d == Add(info.normal, unit)
  {
    var direction := Add(info.normal, unit);
    if IsZero(direction) then info.normal else direction
  }

  /**
   * lambertian::scatter: always scatters, attenuates by the stored colour and sends a ray
   * from the hit point at the incoming ray's time. random_unit_vector throws on a zero
   * sample.
   */
  function Scatter(color: Vec3, rIn: Ray, info: Hit, sample: Vec3): (r: Result<Scattered>)
    ensures r.Err? <==> RandomUnitVector(sample).Err?
    ensures r.Err? ==> r.error == NullVector
    ensures r.Ok? ==>
      && r.value.scatters
      && r.value.attenuation == color
      && r.value.scattered.origin == info.point
      && r.value.scattered.time == rIn.time
      && r.value.scattered.direction == Direction(info, RandomUnitVector(sample).value)
  {
    var unit := RandomUnitVector(sample);
    if unit.Err? then Err(unit.error)
    else Ok(Scattered(true, color, Ray(info.point, Direction(info, unit.value), rIn.time)))
  }

  /** The incoming ray's origin and direction play no part: only its time is used. */
  lemma OnlyTimeMatters(color: Vec3, rIn: Ray, rIn2: Ray, info: Hit, sample: Vec3)
    requires rIn.time == rIn2.time
    ensures Scatter(color, rIn, info, sample) == Scatter(color, rIn2, info, sample)
  {
  }

  /**
   * The method form: the local direction is reassigned when degenerate, and the two
   * out-parameters are written before the call returns true.
   */
  method ScatterInto(color: Vec3, rIn: Ray, info: Hit, sample: Vec3)
    returns (scatters: Result<bool>, attenuation: Vec3, scattered: Ray)
    ensures scatters.Err? <==> Scatter(color, rIn, info, sample).Err?
    ensures scatters.Ok? ==> Scatter(color, rIn, info, sample) == Ok(Scattered(scatters.value, attenuation, scattered))
  {
    attenuation, scattered := Zero, Ray(Zero, Zero, 0.0);
    var unit := RandomUnitVector(sample);
    if unit.Err? {
      return Err(unit.error), attenuation, scattered;
    }
    var direction := Add(info.normal, unit.value);
    if IsZero(direction) {
      direction := info.normal;
    }
    attenuation := color;
    scattered := Ray(info.point, direction, rIn.time);
    return Ok(true), attenuation, scattered;
  }
}
