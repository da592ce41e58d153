/**
 * ray.hpp: a ray with an origin, a direction and a time. The source's `at` takes its
 * parameter as a `float`; the model uses reals throughout.
 */
module Rays {
  import opened Vectors

  datatype Ray = Ray(origin: Vec3, direction: Vec3, time: real)

  /** The constructor `ray(origin, direction, time = 0.0)`. */
  function MakeRay(origin: Vec3, direction: Vec3, time: real := 0.0): (r: Ray)
    ensures r.origin == origin && r.direction == direction && r.time == time
  {
    Ray(origin, direction, time)
  }

  /** ray::at: the point reached after travelling c times the direction. */
  function At(r: Ray, c: real): (p: Vec3)
    ensures Sub(p, r.origin) == Scale(c, r.direction)
    ensures c == 0.0 ==> p == r.origin
  {
    Add(r.origin, Scale(c, r.direction))
  }

  /** Two points of a ray differ by the difference of their parameters times the direction. */
  lemma AtDifference(r: Ray, c: real, d: real)
    ensures Sub(At(r, c), At(r, d)) == Scale(c - d, r.direction)
  {
    var o, v := r.origin, r.direction;
    assert c * v.x - d * v.x == (c - d) * v.x;
    assert c * v.y - d * v.y == (c - d) * v.y;
    assert c * v.z - d * v.z == (c - d) * v.z;
  }

  /** The time of a ray built without one is 0.0. */
  lemma DefaultTime(origin: Vec3, direction: Vec3)
    ensures MakeRay(origin, direction).time == 0.0
  {
  }
}
