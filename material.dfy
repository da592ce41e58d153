/**
 * material.hpp declares the abstract `material` with its virtual `scatter`. The three
 * materials of the repository are the constructors of one datatype; their scatter rules
 * are in lambertian.dfy, metal.dfy and dielectric.dfy, and the virtual dispatch is
 * `Integrator.Scatter`.
 */
module Materials {
  import opened Vectors
  import opened Rays

  datatype Material =
    | Lambertian(color: Vec3)
    | Metal(color: Vec3, fuzzyness: real)
    | Dielectric(index: real)

  /** What `scatter` hands back: its boolean and its two out-parameters. */
  datatype Scattered = Scattered(scatters: bool, attenuation: Vec3, scattered: Ray)

  /**
   * The random draws one bounce may use: the point random_in_unit_sphere returns (from
   * which random_unit_vector is derived) and the value random_double returns.
   */
  datatype Draw = Draw(sample: Vec3, threshold: real)

  /**
   * The ranges the generator gives a draw: random_in_unit_sphere returns a point strictly
   * inside the unit ball and random_double a value in [0, 1).
   */
  predicate DrawInRange(d: Draw)
  {
    LengthSquared(d.sample) < 1.0 && 0.0 <= d.threshold < 1.0
  }

  /** reflect is used by metal.hpp and dielectric.hpp but not part of this model. */
  const Reflect: (Vec3, Vec3) -> Vec3

  /** Each component of a colour lies in [0, 1]. */
  predicate InUnitCube(c: Vec3)
  {
    0.0 <= c.x <= 1.0 && 0.0 <= c.y <= 1.0 && 0.0 <= c.z <= 1.0
  }

  /**
   * A material of a renderable scene. Schlick's formula divides by 1 + ratio, and the
   * refraction ratio is 1 / index on a front face: a dielectric needs an index other than
   * 0 and -1 for either to be a number. Albedos are colours in [0, 1].
   */
  predicate WellFormed(m: Material)
  {
    match m
    case Lambertian(color) => InUnitCube(color)
    case Metal(color, _) => InUnitCube(color)
    case Dielectric(index) => index != 0.0 && index != -1.0
  }
}
