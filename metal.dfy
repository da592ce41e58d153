/** metal.hpp: mirror reflection blurred by a fuzz radius. */
module Metals {
  import opened Outcomes
  import opened Vectors
  import opened Rays
  import opened Materials
  import opened Hits

  /** The constructor metal(color, fuzz): the fuzz is capped at 1 from above only. */
  function MakeMetal(color: Vec3, fuzz: real): (m: Material)
    ensures m.Metal? && m.color == color
    ensures m.fuzzyness <= 1.0 && m.fuzzyness <= fuzz
    ensures fuzz < 1.0 ==> m.fuzzyness == fuzz
    ensures fuzz >= 1.0 ==> m.fuzzyness == 1.0
  {
    Metal(color, if fuzz < 1.0 then fuzz else 1.0)
  }

  /**
   * The fuzzed reflection: it departs from reflect(unit direction, normal) by fuzz times
   * the sample, and is the bare reflection without fuzz.
   */
  function FuzzedReflection(unitDirection: Vec3, info: Hit, fuzzyness: real, sample: Vec3): (d: Vec3)
    ensures Sub(d, Reflect(unitDirection, info.normal)) == Scale(fuzzyness, sample)
    ensures fuzzyness == 0.0 ==> d == Reflect(unitDirection, info.normal)
  {
    Add(Reflect(unitDirection, info.normal), Scale(fuzzyness, sample))
  }

  /**
   * metal::scatter: attenuates by the stored colour and sends the fuzzed reflection from the
   * hit point, at time 0 (the ray constructor's default); it scatters only when that ray
   * leaves on the normal's side. unit_vector throws on a zero incoming direction.
   */
  function Scatter(color: Vec3, fuzzyness: real, rIn: Ray, info: Hit, sample: Vec3): (r: Result<Scattered>)
    ensures r.Err? <==> UnitVector(rIn.direction).Err?
    ensures r.Err? ==> r.error == NullVector
    ensures r.Ok? ==>
      && r.value.attenuation == color
      && r.value.scattered.origin == info.point
      && r.value.scattered.time == 0.0
      && r.value.scattered.direction == FuzzedReflection(UnitVector(rIn.direction).value, info, fuzzyness, sample)
      && (r.value.scatters <==> Dot(r.value.scattered.direction, info.normal) > 0.0)
  {
    match UnitVector(rIn.direction)
    case Err(e) => Err(e)
    case Ok(unitDirection) => Ok(Leaving(color, info, FuzzedReflection(unitDirection, info, fuzzyness, sample)))
  }

  /** The scattered ray of metal::scatter along a direction, and whether it leaves the surface. */
  function Leaving(color: Vec3, info: Hit, direction: Vec3): (s: Scattered)
    ensures s.attenuation == color && s.scattered == Ray(info.point, direction, 0.0)
    ensures s.scatters <==> Dot(direction, info.normal) > 0.0
  {
    Scattered(Dot(direction, info.normal) > 0.0, color, Ray(info.point, direction, 0.0))
  }

  /** The incoming time is dropped: rays leaving a metal all start at time 0. */
  lemma TimeDropped(color: Vec3, fuzzyness: real, rIn: Ray, time: real, info: Hit, sample: Vec3)
    ensures Scatter(color, fuzzyness, rIn, info, sample) == Scatter(color, fuzzyness, rIn.(time := time), info, sample)
  {
  }

  /** With no fuzz the sample plays no part and the ray leaves along the reflection. */
  lemma SharpMirror(color: Vec3, rIn: Ray, info: Hit, sample: Vec3, sample2: Vec3)
    requires UnitVector(rIn.direction).Ok?
    ensures Scatter(color, 0.0, rIn, info, sample) == Scatter(color, 0.0, rIn, info, sample2)
    ensures Scatter(color, 0.0, rIn, info, sample).value.scattered.direction
         == Reflect(UnitVector(rIn.direction).value, info.normal)
  {
  }

  /** The method form, writing the out-parameters before returning the verdict. */
  method ScatterInto(color: Vec3, fuzzyness: real, rIn: Ray, info: Hit, sample: Vec3)
    returns (scatters: Result<bool>, attenuation: Vec3, scattered: Ray)
    ensures scatters.Err? <==> Scatter(color, fuzzyness, rIn, info, sample).Err?
    ensures scatters.Ok? ==>
      Scatter(color, fuzzyness, rIn, info, sample) == Ok(Scattered(scatters.value, attenuation, scattered))
  {
    attenuation, scattered := Zero, Ray(Zero, Zero, 0.0);
    var unitDirection := UnitVector(rIn.direction);
    if unitDirection.Err? {
      return Err(unitDirection.error), attenuation, scattered;
    }
    var direction := Reflect(unitDirection.value, info.normal);
    attenuation := color;
    scattered := MakeRay(info.point, Add(direction, Scale(fuzzyness, sample)));
    return Ok(Dot(scattered.direction, info.normal) > 0.0), attenuation, scattered;
  }
}
