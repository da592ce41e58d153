/**
 * aabb.hpp: axis-aligned bounding boxes, the slab test `hit`, and `surrounding_box`.
 *
 * The slab test divides by a direction component that can be zero, and the caller may pass
 * t_max = +infinity, so the slab distances are extended reals (`Ext`) that follow IEEE
 * arithmetic: 1 / 0 is +infinity, 0 * infinity is NaN, and every comparison with NaN is
 * false. The running interval bounds never become NaN (`Bound`).
 */
module BoundingBoxes {
  import opened Libm
  import opened Vectors
  import opened Rays

  datatype Ext = NegInf | Fin(v: real) | PosInf | NaN

  /** An extended real that is not NaN: a query bound or a running slab bound. */
  type Bound = e: Ext | !e.NaN? witness PosInf

  /** IEEE `<`: false whenever either side is NaN. */
  predicate Lt(a: Ext, b: Ext)
  {
    match (a, b)
    case (NaN, _) => false
    case (_, NaN) => false
    case (NegInf, NegInf) => false
    case (NegInf, _) => true
    case (Fin(x), Fin(y)) => x < y
    case (Fin(_), PosInf) => true
    case (Fin(_), NegInf) => false
    case (PosInf, _) => false
  }

  /** IEEE `<=`: false whenever either side is NaN. */
  predicate Le(a: Ext, b: Ext)
  {
    !a.NaN? && !b.NaN? && !Lt(b, a)
  }

  lemma LeTransitive(a: Ext, b: Ext, c: Ext)
    requires Le(a, b) && Le(b, c)
    ensures Le(a, c)
  {
  }

  /** The float division 1 / d: +infinity when d is zero. */
  function Inverse(d: real): (r: Ext)
    ensures !r.NaN?
    ensures Lt(r, Fin(0.0)) <==> d < 0.0
    ensures d == 0.0 <==> r.PosInf?
  {
    if d == 0.0 then PosInf else Fin(1.0 / d)
  }

  /** The IEEE product x * e: a zero times an infinity is NaN. */
  function Times(x: real, e: Ext): Ext
  {
    match e
    case Fin(v) => Fin(x * v)
    case PosInf => if 0.0 < x then PosInf else if x < 0.0 then NegInf else NaN
    case NegInf => if 0.0 < x then NegInf else if x < 0.0 then PosInf else NaN
    case NaN => NaN
  }

  datatype Aabb = Aabb(minimum: Vec3, maximum: Vec3)

  /** A box built by `aabb()`: both corners are default-constructed, all-zero vectors. */
  const DefaultBox := Aabb(Zero, Zero)

  /** The running interval [t_min, t_max] of the slab test. */
  datatype Interval = Interval(tMin: Bound, tMax: Bound)

  /** The interval is empty in the sense of the test's exit condition `t_max <= t_min`. */
  predicate Empty(i: Interval)
  {
    Le(i.tMax, i.tMin)
  }

  /**
   * The entry and exit distances of the ray through the slab of axis a, after the swap. A
   * ray that does not move along the axis is inside the slab for all t when its origin lies
   * strictly between the planes, and for no t when it lies strictly outside them.
   */
  function Slab(box: Aabb, r: Ray, a: int): (s: (Ext, Ext))
    ensures Index(r.direction, a) == 0.0 && Index(box.minimum, a) < Index(r.origin, a) < Index(box.maximum, a)
      ==> s == (NegInf, PosInf)
    ensures Index(r.direction, a) == 0.0 && Index(r.origin, a) < Index(box.minimum, a) ==> s.0 == PosInf
    ensures Index(r.direction, a) == 0.0 && Index(box.maximum, a) < Index(r.origin, a) ==> s.1 == NegInf
  {
    var inverse := Inverse(Index(r.direction, a));
    var t0 := Times(Index(box.minimum, a) - Index(r.origin, a), inverse);
    var t1 := Times(Index(box.maximum, a) - Index(r.origin, a), inverse);
    if Lt(inverse, Fin(0.0)) then (t1, t0) else (t0, t1)
  }

  /** One narrowing step: `t_min = t0 > t_min ? t0 : t_min`, `t_max = t1 < t_max ? t1 : t_max`. */
  function Narrow(i: Interval, t0: Ext, t1: Ext): (r: Interval)
    ensures Le(i.tMin, r.tMin) && Le(r.tMax, i.tMax)
  {
    Interval(if Lt(i.tMin, t0) then t0 else i.tMin, if Lt(t1, i.tMax) then t1 else i.tMax)
  }

  function AxisStep(box: Aabb, r: Ray, a: int, i: Interval): Interval
  {
    var (t0, t1) := Slab(box, r, a);
    Narrow(i, t0, t1)
  }

  /** The interval after narrowing by the slabs of the first n axes: it only ever shrinks. */
  function Narrowed(box: Aabb, r: Ray, i: Interval, n: nat): (res: Interval)
    ensures Le(i.tMin, res.tMin) && Le(res.tMax, i.tMax)
  {
    if n == 0 then i else AxisStep(box, r, n - 1, Narrowed(box, r, i, n - 1))
  }

  /**
   * The verdict of aabb::hit: the interval narrowed by all three slabs is not empty, which
   * needs a non-empty query interval.
   */
  predicate BoxHit(box: Aabb, r: Ray, tMin: real, tMax: Bound): (hit: bool)
    ensures hit ==> Lt(Fin(tMin), tMax)
  {
    !Empty(Narrowed(box, r, Interval(Fin(tMin), tMax), 3))
  }

  /** aabb::hit, with its loop over the three axes and its early return. */
  method Hit(box: Aabb, r: Ray, tMin: real, tMax: Bound) returns (hit: bool)
    ensures hit == BoxHit(box, r, tMin, tMax)
  {
    var start := Interval(Fin(tMin), tMax);
    var lo: Bound, hi: Bound := Fin(tMin), tMax;
    for a := 0 to 3
      invariant Interval(lo, hi) == Narrowed(box, r, start, a)
      invariant 0 < a ==> !Empty(Interval(lo, hi))
    {
      var inverse := Inverse(Index(r.direction, a));
      var t0 := Times(Index(box.minimum, a) - Index(r.origin, a), inverse);
      var t1 := Times(Index(box.maximum, a) - Index(r.origin, a), inverse);
      if Lt(inverse, Fin(0.0)) {
        t0, t1 := t1, t0;
      }
      assert (t0, t1) == Slab(box, r, a);
      ghost var next := Narrow(Interval(lo, hi), t0, t1);
      lo := if Lt(lo, t0) then t0 else lo;
      hi := if Lt(t1, hi) then t1 else hi;
      assert Interval(lo, hi) == next == Narrowed(box, r, start, a + 1);
      if Le(hi, lo) {
        EmptyStaysEmpty(box, r, start, a + 1, 3);
        return false;
      }
    }
    return true;
  }

  /** Once the interval is empty, narrowing by further slabs keeps it empty. */
  lemma {:induction false} EmptyStaysEmpty(box: Aabb, r: Ray, i: Interval, m: nat, n: nat)
    requires m <= n
    requires Empty(Narrowed(box, r, i, m))
    ensures Empty(Narrowed(box, r, i, n))
  {
    if m < n {
      EmptyStaysEmpty(box, r, i, m, n - 1);
      var before := Narrowed(box, r, i, n - 1);
      var after := Narrowed(box, r, i, n);
      LeTransitive(after.tMax, before.tMax, before.tMin);
      LeTransitive(after.tMax, before.tMin, after.tMin);
    }
  }

  lemma ScaleMonotone(x: real, y: real, k: real)
    requires x <= y && 0.0 < k
    ensures x * k <= y * k
  {
    var d := (y - x) * k;
    assert d == y * k - x * k;
    if x < y {
      ProductPositive(y - x, k, d);
    }
  }

  /**
   * On an axis where the box's minimum is at most its maximum, the entry distance is at most
   * the exit distance, unless one of them is NaN (a zero direction component with the origin
   * on a face of the slab).
   */
  lemma SlabOrdered(box: Aabb, r: Ray, a: int)
    requires Index(box.minimum, a) <= Index(box.maximum, a)
    requires !Slab(box, r, a).0.NaN? && !Slab(box, r, a).1.NaN?
    ensures Le(Slab(box, r, a).0, Slab(box, r, a).1)
  {
    var d := Index(r.direction, a);
    var lo := Index(box.minimum, a) - Index(r.origin, a);
    var hi := Index(box.maximum, a) - Index(r.origin, a);
    if d > 0.0 {
      ScaleMonotone(lo, hi, 1.0 / d);
    } else if d < 0.0 {
      var k := 1.0 / d;
      ScaleMonotone(lo, hi, -k);
      assert lo * (-k) == -(lo * k) && hi * (-k) == -(hi * k);
    }
  }

  /**
   * A zero direction component on axis a: a ray whose origin lies strictly outside that slab
   * misses the box.
   */
  lemma ZeroDirectionOutsideMisses(box: Aabb, r: Ray, a: nat, tMin: real, tMax: Bound)
    requires a < 3 && Index(r.direction, a) == 0.0
    requires Index(r.origin, a) < Index(box.minimum, a) || Index(box.maximum, a) < Index(r.origin, a)
    ensures !BoxHit(box, r, tMin, tMax)
  {
    var start := Interval(Fin(tMin), tMax);
    var after := Narrowed(box, r, start, a + 1);
    assert Empty(after);
    EmptyStaysEmpty(box, r, start, a + 1, 3);
  }

  /**
   * A zero direction component on axis a, with the origin strictly inside that slab: the axis
   * leaves the interval as it was.
   */
  lemma ZeroDirectionInsideKeeps(box: Aabb, r: Ray, a: int, i: Interval)
    requires Index(r.direction, a) == 0.0
    requires Index(box.minimum, a) < Index(r.origin, a) < Index(box.maximum, a)
    ensures AxisStep(box, r, a, i) == i
  {
  }

  /** The point p lies in the box, faces included. */
  predicate Encloses(box: Aabb, p: Vec3)
  {
    box.minimum.x <= p.x <= box.maximum.x && box.minimum.y <= p.y <= box.maximum.y
    && box.minimum.z <= p.z <= box.maximum.z
  }

  /** outer contains inner on every axis. */
  predicate Contains(outer: Aabb, inner: Aabb)
  {
    outer.minimum.x <= inner.minimum.x && outer.minimum.y <= inner.minimum.y
    && outer.minimum.z <= inner.minimum.z
    && inner.maximum.x <= outer.maximum.x && inner.maximum.y <= outer.maximum.y
    && inner.maximum.z <= outer.maximum.z
  }

  lemma ContainsTransitive(outer: Aabb, middle: Aabb, inner: Aabb)
    requires Contains(outer, middle) && Contains(middle, inner)
    ensures Contains(outer, inner)
  {
  }

  /** surrounding_box: the component-wise minimum of the minima and maximum of the maxima. */
  function SurroundingBox(box1: Aabb, box2: Aabb): (r: Aabb)
    ensures Contains(r, box1) && Contains(r, box2)
  {
    Aabb(Vec3(Min(box1.minimum.x, box2.minimum.x),
              Min(box1.minimum.y, box2.minimum.y),
              Min(box1.minimum.z, box2.minimum.z)),
         Vec3(Max(box1.maximum.x, box2.maximum.x),
              Max(box1.maximum.y, box2.maximum.y),
              Max(box1.maximum.z, box2.maximum.z)))
  }

  /** It is the least such box: any box containing both contains it. */
  lemma SurroundingBoxIsLeast(box1: Aabb, box2: Aabb, outer: Aabb)
    requires Contains(outer, box1) && Contains(outer, box2)
    ensures Contains(outer, SurroundingBox(box1, box2))
  {
  }

  lemma SurroundingBoxCommutative(box1: Aabb, box2: Aabb)
    ensures SurroundingBox(box1, box2) == SurroundingBox(box2, box1)
  {
  }

  lemma SurroundingBoxAssociative(box1: Aabb, box2: Aabb, box3: Aabb)
    ensures SurroundingBox(SurroundingBox(box1, box2), box3)
         == SurroundingBox(box1, SurroundingBox(box2, box3))
  {
  }

  lemma SurroundingBoxIdempotent(box: Aabb)
    ensures SurroundingBox(box, box) == box
  {
  }
}
