/**
 * The `hittable` hierarchy as one datatype: spheres, the three rectangles, hittable_list
 * (hittable_list.hpp) and bvh_node (bvh_node.hpp), with the virtual `test_hit` and
 * `bounding_box` as functions that match on the variant, and the in-place versions as
 * methods proved equal to them.
 *
 * `bounding_box` is called on spheres by the BVH code, but sphere.hpp does not define it;
 * the model takes it as the uninterpreted `SphereBoundingBox`.
 */
module Scene {
  import opened Outcomes
  import opened Vectors
  import opened Rays
  import opened Materials
  import opened BoundingBoxes
  import opened Hits
  import Spheres
  import Rectangles

  datatype Hittable =
    | SphereObject(sphere: Spheres.Sphere)
    | RectObject(rect: Rectangles.Rect)
    | List(objects: seq<Hittable>)
    | Node(left: Hittable, right: Hittable, box: Aabb)

  /** Every material in the scene is well formed. */
  predicate WellFormedScene(h: Hittable)
  {
    match h
    case SphereObject(s) => WellFormed(s.material)
    case RectObject(x) => WellFormed(x.material)
    case List(objects) => forall i :: 0 <= i < |objects| ==> WellFormedScene(objects[i])
    case Node(left, right, _) => WellFormedScene(left) && WellFormedScene(right)
  }

  /** The loop state of hittable_list::test_hit: hit_anything, closest_so_far, tmp_info, info. */
  datatype ScanState = ScanState(anything: bool, closest: Bound, tmp: Hit, info: Hit)

  /** test_hit of any hittable, on the caller's record `rec`, which a miss leaves as it was. */
  function Intersect(h: Hittable, r: Ray, tMin: real, tMax: Bound, rec: Hit): (res: Result<HitOutcome>)
    decreases h, 1
    ensures res.Ok? && !res.value.hit ==> res.value.record == rec
  {
    match h
    case SphereObject(s) => Spheres.Intersect(s, r, tMin, tMax, rec)
    case RectObject(x) => Rectangles.Intersect(x, r, tMin, tMax, rec)
    case List(objects) =>
      var scan := Scan(h, |objects|, r, tMin, tMax, rec);
      if scan.Err? then Err(scan.error) else Ok(HitOutcome(scan.value.anything, scan.value.info))
    case Node(left, right, box) =>
      if !BoxHit(box, r, tMin, tMax) then Ok(HitOutcome(false, rec))
      else
        var l := Intersect(left, r, tMin, tMax, rec);
        if l.Err? then Err(l.error)
        else
          var o := Intersect(right, r, tMin, if l.value.hit then Fin(l.value.record.parameter) else tMax, l.value.record);
          if o.Err? then Err(o.error) else Ok(HitOutcome(l.value.hit || o.value.hit, o.value.record))
  }

  /**
   * hittable_list::test_hit after its first n objects: each object is queried against the
   * closest parameter so far, writing into tmp_info, which is copied to info on a hit.
   * tmp_info starts indeterminate, modelled as DefaultHit.
   */
  function Scan(h: Hittable, n: nat, r: Ray, tMin: real, tMax: Bound, rec: Hit): (res: Result<ScanState>)
    requires h.List? && n <= |h.objects|
    decreases h, 0, n
    ensures res.Ok? && !res.value.anything ==> res.value.info == rec
  {
    if n == 0 then Ok(ScanState(false, tMax, DefaultHit, rec))
    else
      var prev := Scan(h, n - 1, r, tMin, tMax, rec);
      if prev.Err? then Err(prev.error)
      else Advance(prev.value, Intersect(h.objects[n - 1], r, tMin, prev.value.closest, prev.value.tmp))
  }

  /** One iteration of hittable_list::test_hit's loop, given the outcome of the object's test. */
  function Advance(st: ScanState, o: Result<HitOutcome>): Result<ScanState>
  {
    if o.Err? then Err(o.error)
    else if o.value.hit then Ok(ScanState(true, Fin(o.value.record.parameter), o.value.record, o.value.record))
    else Ok(st.(tmp := o.value.record))
  }

  /** The bounding box of a sphere, which sphere.hpp does not define; None when it returns false. */
  const SphereBoundingBox: (Spheres.Sphere, real, real) -> Option<Aabb>

  /** What a `bounding_box` call returns, and the caller's `output_box` after it. */
  datatype BoxOutcome = BoxOutcome(ok: bool, box: Aabb)

  /**
   * bounding_box of any hittable, with `out` the caller's output_box before the call:
   * rectangles and nodes always have a box, a node the one it stores; an empty list has
   * none and leaves output_box alone.
   */
  function BoundingBox(h: Hittable, t0: real, t1: real, out: Aabb): (b: BoxOutcome)
    decreases h, 1
    ensures h.RectObject? || h.Node? ==> b.ok
    ensures h.Node? ==> b.box == h.box
    ensures h.List? && |h.objects| == 0 ==> b == BoxOutcome(false, out)
  {
    match h
    case SphereObject(s) =>
      (match SphereBoundingBox(s, t0, t1)
       case None => BoxOutcome(false, out)
       case Some(b) => BoxOutcome(true, b))
    case RectObject(x) => BoxOutcome(true, Rectangles.BoundingBox(x))
    case List(objects) => if |objects| == 0 then BoxOutcome(false, out) else BoxFold(h, |objects|, t0, t1, out)
    case Node(_, _, box) => BoxOutcome(true, box)
  }

  /**
   * hittable_list::bounding_box after its first n objects: each child's box is computed
   * into a fresh default box; the first becomes output_box and the others are merged in
   * with surrounding_box. A child without a box ends the loop with false.
   */
  function BoxFold(h: Hittable, n: nat, t0: real, t1: real, out: Aabb): (b: BoxOutcome)
    requires h.List? && n <= |h.objects|
    decreases h, 0, n
    ensures !b.ok ==> exists k :: 0 <= k < n && !BoundingBox(h.objects[k], t0, t1, DefaultBox).ok
  {
    if n == 0 then BoxOutcome(true, out)
    else
      var prev := BoxFold(h, n - 1, t0, t1, out);
      if !prev.ok then prev
      else
        var child := BoundingBox(h.objects[n - 1], t0, t1, DefaultBox);
        if !child.ok then BoxOutcome(false, prev.box)
        else BoxOutcome(true, if n == 1 then child.box else SurroundingBox(prev.box, child.box))
  }

  /** The virtual test_hit, writing into the caller's record. */
  method TestHit(h: Hittable, r: Ray, tMin: real, tMax: Bound, rec: HitRecord) returns (result: Result<bool>)
    modifies rec
    decreases h, 1
    ensures result == Verdict(Intersect(h, r, tMin, tMax, old(rec.Value())))
    ensures result.Ok? ==> rec.Value() == Intersect(h, r, tMin, tMax, old(rec.Value())).value.record
  {
    match h
    case SphereObject(s) =>
      result := Spheres.TestHit(s, r, tMin, tMax, rec);
    case RectObject(x) =>
      result := Rectangles.TestHit(x, r, tMin, tMax, rec);
    case List(_) =>
      result := ListTestHit(h, r, tMin, tMax, rec);
    case Node(_, _, _) =>
      result := NodeTestHit(h, r, tMin, tMax, rec);
  }

  /** hittable_list::test_hit with its loop over the objects. */
  method ListTestHit(h: Hittable, r: Ray, tMin: real, tMax: Bound, rec: HitRecord) returns (result: Result<bool>)
    requires h.List?
    modifies rec
    decreases h, 0
    ensures result == Verdict(Intersect(h, r, tMin, tMax, old(rec.Value())))
    ensures result.Ok? ==> rec.Value() == Intersect(h, r, tMin, tMax, old(rec.Value())).value.record
  {
    hide Intersect;
    ghost var original := rec.Value();
    ListScan(h, r, tMin, tMax, original);
    var tmp := new HitRecord(DefaultHit);
    var anything := false;
    var closest: Bound := tMax;
    for i := 0 to |h.objects|
      invariant Scan(h, i, r, tMin, tMax, original) == Ok(ScanState(anything, closest, tmp.Value(), rec.Value()))
    {
      ghost var st := ScanState(anything, closest, tmp.Value(), rec.Value());
      var o := TestHit(h.objects[i], r, tMin, closest, tmp);
      assert Scan(h, i + 1, r, tMin, tMax, original) == Advance(st, Intersect(h.objects[i], r, tMin, closest, st.tmp));
      if o.Err? {
        ScanStopsAtError(h, i + 1, |h.objects|, r, tMin, tMax, original);
        return Err(o.error);
      }
      if o.value {
        anything := true;
        closest := Fin(tmp.parameter);
        rec.Assign(tmp.Value());
      }
    }
    return Ok(anything);
  }

  /** A list's box is its fold over all of its objects, and none when it is empty. */
  lemma ListFold(h: Hittable, t0: real, t1: real, out: Aabb)
    requires h.List?
    ensures BoundingBox(h, t0, t1, out)
         == if |h.objects| == 0 then BoxOutcome(false, out) else BoxFold(h, |h.objects|, t0, t1, out)
  {
  }

  /** A list's test is its scan over all of its objects. */
  lemma ListScan(h: Hittable, r: Ray, tMin: real, tMax: Bound, rec: Hit)
    requires h.List?
    ensures var scan := Scan(h, |h.objects|, r, tMin, tMax, rec);
      && (scan.Err? ==> Intersect(h, r, tMin, tMax, rec) == Err(scan.error))
      && (scan.Ok? ==> Intersect(h, r, tMin, tMax, rec) == Ok(HitOutcome(scan.value.anything, scan.value.info)))
  {
  }

  /** bvh_node::test_hit: the box test, then the left child, then the right child. */
  method NodeTestHit(h: Hittable, r: Ray, tMin: real, tMax: Bound, rec: HitRecord) returns (result: Result<bool>)
    requires h.Node?
    modifies rec
    decreases h, 0
    ensures result == Verdict(Intersect(h, r, tMin, tMax, old(rec.Value())))
    ensures result.Ok? ==> rec.Value() == Intersect(h, r, tMin, tMax, old(rec.Value())).value.record
  {
    var inBox := BoundingBoxes.Hit(h.box, r, tMin, tMax);
    if !inBox {
      return Ok(false);
    }
    var hitLeft := TestHit(h.left, r, tMin, tMax, rec);
    if hitLeft.Err? {
      return Err(hitLeft.error);
    }
    var hitRight := TestHit(h.right, r, tMin, if hitLeft.value then Fin(rec.parameter) else tMax, rec);
    if hitRight.Err? {
      return Err(hitRight.error);
    }
    return Ok(hitLeft.value || hitRight.value);
  }

  /** The virtual bounding_box, with `out` the caller's output_box before the call. */
  method BoundingBoxOf(h: Hittable, t0: real, t1: real, out: Aabb) returns (ok: bool, box: Aabb)
    decreases h, 1
    ensures BoxOutcome(ok, box) == BoundingBox(h, t0, t1, out)
  {
    match h
    case SphereObject(s) =>
      var b := SphereBoundingBox(s, t0, t1);
      if b.None? {
        return false, out;
      }
      return true, b.value;
    case RectObject(x) =>
      return true, Rectangles.BoundingBox(x);
    case List(_) =>
      ok, box := ListBoundingBox(h, t0, t1, out);
    case Node(_, _, nodeBox) =>
      return true, nodeBox;
  }

  /** hittable_list::bounding_box with its loop over the objects. */
  method ListBoundingBox(h: Hittable, t0: real, t1: real, out: Aabb) returns (ok: bool, box: Aabb)
    requires h.List?
    decreases h, 0
    ensures BoxOutcome(ok, box) == BoundingBox(h, t0, t1, out)
  {
    hide BoundingBox;
    ListFold(h, t0, t1, out);
    box := out;
    if |h.objects| == 0 {
      return false, box;
    }
    var first := true;
    for i := 0 to |h.objects|
      invariant BoxFold(h, i, t0, t1, out) == BoxOutcome(true, box)
      invariant first <==> i == 0
    {
      var childOk, childBox := BoundingBoxOf(h.objects[i], t0, t1, DefaultBox);
      if !childOk {
        FoldStopsAtFailure(h, i + 1, |h.objects|, t0, t1, out);
        return false, box;
      }
      box := if first then childBox else SurroundingBox(box, childBox);
      first := false;
    }
    return true, box;
  }

  /** Once a test errs, the list's scan ends with that error. */
  lemma {:induction false} ScanStopsAtError(h: Hittable, i: nat, n: nat, r: Ray, tMin: real, tMax: Bound, rec: Hit)
    requires h.List? && i <= n <= |h.objects|
    requires Scan(h, i, r, tMin, tMax, rec).Err?
    ensures Scan(h, n, r, tMin, tMax, rec) == Scan(h, i, r, tMin, tMax, rec)
    decreases n
  {
    hide Intersect;
    if i < n {
      ScanStopsAtError(h, i, n - 1, r, tMin, tMax, rec);
    }
  }

  /** Once a child has no box, the list's fold ends with false and the box it had. */
  lemma {:induction false} FoldStopsAtFailure(h: Hittable, i: nat, n: nat, t0: real, t1: real, out: Aabb)
    requires h.List? && i <= n <= |h.objects|
    requires !BoxFold(h, i, t0, t1, out).ok
    ensures BoxFold(h, n, t0, t1, out) == BoxFold(h, i, t0, t1, out)
    decreases n
  {
    if i < n {
      FoldStopsAtFailure(h, i, n - 1, t0, t1, out);
    }
  }

  /** The facts a test of any hittable guarantees about the record it leaves. */
  predicate Reports(h: Hittable, o: HitOutcome, tMin: real, tMax: Bound, rec: Hit)
  {
    && (!o.hit ==> o.record == rec)
    && (o.hit ==> InInterval(o.record.parameter, tMin, tMax) && o.record.material.Some?
                  && (WellFormedScene(h) ==> WellFormed(o.record.material.value)))
  }

  /**
   * Every test that does not err either misses and leaves the record as it was, or hits
   * within [t_min, t_max] with a material set; in a well-formed scene that material is
   * well formed.
   */
  lemma {:induction false} IntersectFacts(h: Hittable, r: Ray, tMin: real, tMax: Bound, rec: Hit)
    requires Intersect(h, r, tMin, tMax, rec).Ok?
    ensures Reports(h, Intersect(h, r, tMin, tMax, rec).value, tMin, tMax, rec)
    decreases h, 1
  {
    match h
    case SphereObject(s) =>
      if Intersect(h, r, tMin, tMax, rec).value.hit {
        Spheres.HitFacts(s, r, tMin, tMax, rec);
      }
    case RectObject(x) =>
      if Intersect(h, r, tMin, tMax, rec).value.hit {
        Rectangles.HitFacts(x, r, tMin, tMax, rec);
      }
    case List(objects) =>
      ScanFacts(h, |objects|, r, tMin, tMax, rec);
    case Node(left, right, box) =>
      if BoxHit(box, r, tMin, tMax) {
        IntersectFacts(left, r, tMin, tMax, rec);
        var l := Intersect(left, r, tMin, tMax, rec).value;
        var bound: Bound := if l.hit then Fin(l.record.parameter) else tMax;
        IntersectFacts(right, r, tMin, bound, l.record);
        var o := Intersect(right, r, tMin, bound, l.record).value;
        if o.hit {
          LeTransitive(Fin(o.record.parameter), bound, tMax);
        }
      }
  }

  /**
   * The scan's invariant: closest_so_far never exceeds t_max; before any hit it is t_max
   * and info is untouched; after one, it is the parameter of info, which lies in
   * [t_min, t_max] and carries a material.
   */
  lemma {:induction false} ScanFacts(h: Hittable, n: nat, r: Ray, tMin: real, tMax: Bound, rec: Hit)
    requires h.List? && n <= |h.objects|
    requires Scan(h, n, r, tMin, tMax, rec).Ok?
    ensures var st := Scan(h, n, r, tMin, tMax, rec).value;
      && Le(st.closest, tMax)
      && (!st.anything ==> st.closest == tMax)
      && (st.anything ==> st.closest == Fin(st.info.parameter))
      && Reports(h, HitOutcome(st.anything, st.info), tMin, tMax, rec)
    decreases h, 0, n
  {
    if n > 0 {
      ScanFacts(h, n - 1, r, tMin, tMax, rec);
      var st := Scan(h, n - 1, r, tMin, tMax, rec).value;
      var child := h.objects[n - 1];
      IntersectFacts(child, r, tMin, st.closest, st.tmp);
      var o := Intersect(child, r, tMin, st.closest, st.tmp).value;
      if o.hit {
        LeTransitive(Fin(o.record.parameter), st.closest, tMax);
        assert WellFormedScene(h) ==> WellFormedScene(child);
      }
    }
  }

  /** A sphere or a rectangle. */
  predicate Primitive(h: Hittable)
  {
    h.SphereObject? || h.RectObject?
  }

  /** For a primitive, lowering t_max to no less than a hit's parameter keeps that hit. */
  lemma PrimitiveNarrowing(h: Hittable, r: Ray, tMin: real, tMax: Bound, tMax2: Bound, rec: Hit, rec2: Hit)
    requires Primitive(h)
    requires Intersect(h, r, tMin, tMax, rec).Ok? && Intersect(h, r, tMin, tMax, rec).value.hit
    requires Le(Fin(Intersect(h, r, tMin, tMax, rec).value.record.parameter), tMax2) && Le(tMax2, tMax)
    ensures Intersect(h, r, tMin, tMax2, rec2).Ok? && Intersect(h, r, tMin, tMax2, rec2).value.hit
    ensures Intersect(h, r, tMin, tMax2, rec2).value.record.parameter
         == Intersect(h, r, tMin, tMax, rec).value.record.parameter
  {
    match h
    case SphereObject(s) => Spheres.Narrowing(s, r, tMin, tMax, tMax2, rec, rec2);
    case RectObject(x) => Rectangles.Narrowing(x, r, tMin, tMax, tMax2, rec, rec2);
  }

  /** The objects of a list are all primitives. */
  predicate Flat(h: Hittable)
    requires h.List?
  {
    forall i :: 0 <= i < |h.objects| ==> Primitive(h.objects[i])
  }

  /** c is at most the parameter at which `child`, queried alone on [t_min, t_max], is hit. */
  ghost predicate BelowHitOf(c: Bound, child: Hittable, r: Ray, tMin: real, tMax: Bound)
  {
    forall other: Hit ::
      Intersect(child, r, tMin, tMax, other).Ok? && Intersect(child, r, tMin, tMax, other).value.hit
      ==> Le(c, Fin(Intersect(child, r, tMin, tMax, other).value.record.parameter))
  }

  /** c is at most the parameter at which any of the first n objects is hit on [t_min, t_max]. */
  ghost predicate BelowHitsOf(c: Bound, h: Hittable, n: nat, r: Ray, tMin: real, tMax: Bound)
    requires h.List? && n <= |h.objects|
  {
    forall i :: 0 <= i < n ==> BelowHitOf(c, h.objects[i], r, tMin, tMax)
  }

  /**
   * One step of the scan over a primitive: the closest parameter after testing it against
   * `closest` is at most the parameter at which it is hit on [t_min, t_max].
   */
  lemma StepNearest(child: Hittable, r: Ray, tMin: real, tMax: Bound, closest: Bound, tmp: Hit)
    requires Primitive(child) && Le(closest, tMax)
    requires Intersect(child, r, tMin, closest, tmp).Ok?
    ensures var o := Intersect(child, r, tMin, closest, tmp).value;
      BelowHitOf(if o.hit then Fin(o.record.parameter) else closest, child, r, tMin, tMax)
  {
    IntersectFacts(child, r, tMin, closest, tmp);
    var o := Intersect(child, r, tMin, closest, tmp).value;
    var next: Bound := if o.hit then Fin(o.record.parameter) else closest;
    forall other: Hit |
      Intersect(child, r, tMin, tMax, other).Ok? && Intersect(child, r, tMin, tMax, other).value.hit
      ensures Le(next, Fin(Intersect(child, r, tMin, tMax, other).value.record.parameter))
    {
      var t := Intersect(child, r, tMin, tMax, other).value.record.parameter;
      if Le(Fin(t), closest) {
        PrimitiveNarrowing(child, r, tMin, tMax, closest, other, tmp);
      } else if o.hit {
        LeTransitive(next, closest, Fin(t));
      }
    }
  }

  /** A bound below the hits of some objects stays so when lowered, and extends by one object. */
  lemma ExtendBelow(c: Bound, prev: Bound, h: Hittable, n: nat, r: Ray, tMin: real, tMax: Bound)
    requires h.List? && 0 < n <= |h.objects|
    requires BelowHitsOf(prev, h, n - 1, r, tMin, tMax) && Le(c, prev)
    requires BelowHitOf(c, h.objects[n - 1], r, tMin, tMax)
    ensures BelowHitsOf(c, h, n, r, tMin, tMax)
  {
    hide Intersect;
    forall i | 0 <= i < n
      ensures BelowHitOf(c, h.objects[i], r, tMin, tMax)
    {
      if i < n - 1 {
        forall other: Hit |
          Intersect(h.objects[i], r, tMin, tMax, other).Ok?
          && Intersect(h.objects[i], r, tMin, tMax, other).value.hit
          ensures Le(c, Fin(Intersect(h.objects[i], r, tMin, tMax, other).value.record.parameter))
        {
          LeTransitive(c, prev, Fin(Intersect(h.objects[i], r, tMin, tMax, other).value.record.parameter));
        }
      }
    }
  }

  /** The scan's closest parameter after one more object, from the state before it. */
  lemma ScanStep(h: Hittable, n: nat, r: Ray, tMin: real, tMax: Bound, rec: Hit)
    requires h.List? && 0 < n <= |h.objects|
    requires Scan(h, n, r, tMin, tMax, rec).Ok?
    ensures Scan(h, n - 1, r, tMin, tMax, rec).Ok?
    ensures var st := Scan(h, n - 1, r, tMin, tMax, rec).value;
      && Intersect(h.objects[n - 1], r, tMin, st.closest, st.tmp).Ok?
      && var o := Intersect(h.objects[n - 1], r, tMin, st.closest, st.tmp).value;
         Scan(h, n, r, tMin, tMax, rec).value.closest
           == if o.hit then Fin(o.record.parameter) else st.closest
  {
  }

  /**
   * After n objects of a list of primitives, closest_so_far is at most the parameter at
   * which any of those objects, queried alone on [t_min, t_max], is hit.
   */
  lemma {:induction false} ScanNearest(h: Hittable, n: nat, r: Ray, tMin: real, tMax: Bound, rec: Hit)
    requires h.List? && Flat(h) && n <= |h.objects|
    requires Scan(h, n, r, tMin, tMax, rec).Ok?
    ensures BelowHitsOf(Scan(h, n, r, tMin, tMax, rec).value.closest, h, n, r, tMin, tMax)
  {
    hide Intersect;
    hide Scan;
    if n > 0 {
      ScanStep(h, n, r, tMin, tMax, rec);
      ScanNearest(h, n - 1, r, tMin, tMax, rec);
      ScanFacts(h, n - 1, r, tMin, tMax, rec);
      var st := Scan(h, n - 1, r, tMin, tMax, rec).value;
      var closest := Scan(h, n, r, tMin, tMax, rec).value.closest;
      StepNearest(h.objects[n - 1], r, tMin, tMax, st.closest, st.tmp);
      assert Le(closest, st.closest) by {
        IntersectFacts(h.objects[n - 1], r, tMin, st.closest, st.tmp);
      }
      ExtendBelow(closest, st.closest, h, n, r, tMin, tMax);
    }
  }

  /**
   * hittable_list::test_hit over primitives finds the nearest hit: its parameter is at most
   * the parameter at which any object, queried alone on [t_min, t_max], is hit.
   */
  lemma ListNearest(h: Hittable, r: Ray, tMin: real, tMax: Bound, rec: Hit)
    requires h.List? && Flat(h)
    requires Intersect(h, r, tMin, tMax, rec).Ok? && Intersect(h, r, tMin, tMax, rec).value.hit
    ensures forall i, other: Hit ::
      0 <= i < |h.objects| && Intersect(h.objects[i], r, tMin, tMax, other).Ok?
      && Intersect(h.objects[i], r, tMin, tMax, other).value.hit
      ==> Intersect(h, r, tMin, tMax, rec).value.record.parameter
          <= Intersect(h.objects[i], r, tMin, tMax, other).value.record.parameter
  {
    ScanFacts(h, |h.objects|, r, tMin, tMax, rec);
    ScanNearest(h, |h.objects|, r, tMin, tMax, rec);
    var closest := Scan(h, |h.objects|, r, tMin, tMax, rec).value.closest;
    forall i, other: Hit |
      0 <= i < |h.objects| && Intersect(h.objects[i], r, tMin, tMax, other).Ok?
      && Intersect(h.objects[i], r, tMin, tMax, other).value.hit
      ensures Intersect(h, r, tMin, tMax, rec).value.record.parameter
              <= Intersect(h.objects[i], r, tMin, tMax, other).value.record.parameter
    {
      assert BelowHitOf(closest, h.objects[i], r, tMin, tMax);
    }
  }

  /**
   * Ties go to the later object: in a list of two primitives hit at the same parameter, the
   * second is still hit when queried up to the first one's parameter, and its record is the
   * one reported.
   */
  lemma LaterWinsTies(a: Hittable, b: Hittable, r: Ray, tMin: real, tMax: Bound, rec: Hit, other: Hit)
    requires Primitive(a) && Primitive(b)
    requires Intersect(a, r, tMin, tMax, DefaultHit).Ok? && Intersect(a, r, tMin, tMax, DefaultHit).value.hit
    requires Intersect(b, r, tMin, tMax, other).Ok? && Intersect(b, r, tMin, tMax, other).value.hit
    requires Intersect(b, r, tMin, tMax, other).value.record.parameter
          == Intersect(a, r, tMin, tMax, DefaultHit).value.record.parameter
    ensures var first := Intersect(a, r, tMin, tMax, DefaultHit).value.record;
      var second := Intersect(b, r, tMin, Fin(first.parameter), first);
      && second.Ok? && second.value.hit && second.value.record.parameter == first.parameter
      && Intersect(List([a, b]), r, tMin, tMax, rec) == Ok(HitOutcome(true, second.value.record))
  {
    hide Intersect;
    var first := Intersect(a, r, tMin, tMax, DefaultHit).value.record;
    IntersectFacts(a, r, tMin, tMax, DefaultHit);
    PrimitiveNarrowing(b, r, tMin, tMax, Fin(first.parameter), other, first);
    var h := List([a, b]);
    assert Scan(h, 1, r, tMin, tMax, rec) == Ok(ScanState(true, Fin(first.parameter), first, first));
    ListScan(h, r, tMin, tMax, rec);
  }

  /** Lowering a bound keeps it below the hits of a child. */
  lemma LowerBelow(c: Bound, c2: Bound, child: Hittable, r: Ray, tMin: real, tMax: Bound)
    requires Le(c, c2) && BelowHitOf(c2, child, r, tMin, tMax)
    ensures BelowHitOf(c, child, r, tMin, tMax)
  {
    forall other: Hit |
      Intersect(child, r, tMin, tMax, other).Ok? && Intersect(child, r, tMin, tMax, other).value.hit
      ensures Le(c, Fin(Intersect(child, r, tMin, tMax, other).value.record.parameter))
    {
      LeTransitive(c, c2, Fin(Intersect(child, r, tMin, tMax, other).value.record.parameter));
    }
  }

  /**
   * bvh_node::test_hit over two primitives finds the nearer hit: the left child is queried
   * first and the right child only up to the left's parameter, so the result is at most the
   * parameter at which either child, queried alone on [t_min, t_max], is hit.
   */
  lemma NodeNearest(h: Hittable, r: Ray, tMin: real, tMax: Bound, rec: Hit)
    requires h.Node? && Primitive(h.left) && Primitive(h.right)
    requires Intersect(h, r, tMin, tMax, rec).Ok? && Intersect(h, r, tMin, tMax, rec).value.hit
    ensures var t := Fin(Intersect(h, r, tMin, tMax, rec).value.record.parameter);
      BelowHitOf(t, h.left, r, tMin, tMax) && BelowHitOf(t, h.right, r, tMin, tMax)
  {
    var l := Intersect(h.left, r, tMin, tMax, rec).value;
    IntersectFacts(h.left, r, tMin, tMax, rec);
    var bound: Bound := if l.hit then Fin(l.record.parameter) else tMax;
    var o := Intersect(h.right, r, tMin, bound, l.record).value;
    IntersectFacts(h.right, r, tMin, bound, l.record);
    var t: Bound := Fin(Intersect(h, r, tMin, tMax, rec).value.record.parameter);
    assert t == if o.hit then Fin(o.record.parameter) else bound;
    StepNearest(h.left, r, tMin, tMax, tMax, rec);
    LowerBelow(t, bound, h.left, r, tMin, tMax);
    StepNearest(h.right, r, tMin, tMax, bound, l.record);
  }

  /**
   * The fold over the first n objects succeeds exactly when each of them has a box; its box
   * then contains each of theirs and lies in any box that contains them all.
   */
  lemma {:induction false} FoldFacts(h: Hittable, n: nat, t0: real, t1: real, out: Aabb)
    requires h.List? && n <= |h.objects|
    ensures BoxFold(h, n, t0, t1, out).ok
            <==> forall i :: 0 <= i < n ==> BoundingBox(h.objects[i], t0, t1, DefaultBox).ok
    ensures 0 < n && BoxFold(h, n, t0, t1, out).ok ==>
      forall i :: 0 <= i < n ==>
        Contains(BoxFold(h, n, t0, t1, out).box, BoundingBox(h.objects[i], t0, t1, DefaultBox).box)
    ensures 0 < n && BoxFold(h, n, t0, t1, out).ok ==>
      forall outer: Aabb ::
        (forall i :: 0 <= i < n ==> Contains(outer, BoundingBox(h.objects[i], t0, t1, DefaultBox).box))
        ==> Contains(outer, BoxFold(h, n, t0, t1, out).box)
  {
    if n > 0 {
      FoldFacts(h, n - 1, t0, t1, out);
      var prev := BoxFold(h, n - 1, t0, t1, out);
      var child := BoundingBox(h.objects[n - 1], t0, t1, DefaultBox);
      if prev.ok && child.ok && n > 1 {
        forall outer: Aabb |
          forall i :: 0 <= i < n ==> Contains(outer, BoundingBox(h.objects[i], t0, t1, DefaultBox).box)
          ensures Contains(outer, BoxFold(h, n, t0, t1, out).box)
        {
          SurroundingBoxIsLeast(prev.box, child.box, outer);
        }
      }
    }
  }

  /**
   * hittable_list::bounding_box succeeds exactly when the list is not empty and every object
   * has a box; the box it writes is then the least box containing all of theirs.
   */
  lemma ListBox(h: Hittable, t0: real, t1: real, out: Aabb)
    requires h.List?
    ensures BoundingBox(h, t0, t1, out).ok <==>
      0 < |h.objects| && forall i :: 0 <= i < |h.objects| ==> BoundingBox(h.objects[i], t0, t1, DefaultBox).ok
    ensures BoundingBox(h, t0, t1, out).ok ==>
      forall i :: 0 <= i < |h.objects| ==>
        Contains(BoundingBox(h, t0, t1, out).box, BoundingBox(h.objects[i], t0, t1, DefaultBox).box)
    ensures BoundingBox(h, t0, t1, out).ok ==>
      forall outer: Aabb ::
        (forall i :: 0 <= i < |h.objects| ==> Contains(outer, BoundingBox(h.objects[i], t0, t1, DefaultBox).box))
        ==> Contains(outer, BoundingBox(h, t0, t1, out).box)
  {
    FoldFacts(h, |h.objects|, t0, t1, out);
  }

  /** A node whose box the ray misses reports a miss without testing its children. */
  lemma BoxMissSkipsChildren(h: Hittable, r: Ray, tMin: real, tMax: Bound, rec: Hit)
    requires h.Node? && !BoxHit(h.box, r, tMin, tMax)
    ensures Intersect(h, r, tMin, tMax, rec) == Ok(HitOutcome(false, rec))
  {
  }

  /**
   * The xz_rect of Rectangles.XzHitOutsideBox, alone and under a bvh_node built over it
   * (both children the rectangle, box the surrounding box of theirs): the rectangle reports
   * the hit, the node's box test rejects the ray, so the two disagree.
   */
  lemma XzNodeDisagrees(x: Rectangles.Rect, r: Ray, rec: Hit)
    requires IndexReadsComponents()
    requires x == Rectangles.Rect(Rectangles.Xz, 0.0, 0.0, 1.0, 5.0, 6.0, x.material)
    requires r == Ray(Vec3(5.5, 1.0, 0.5), Vec3(0.0, -1.0, 0.0), 0.0)
    ensures Intersect(RectObject(x), r, 0.01, PosInf, rec).Ok?
    ensures Intersect(RectObject(x), r, 0.01, PosInf, rec).value.hit
    ensures var box := Rectangles.BoundingBox(x);
      Intersect(Node(RectObject(x), RectObject(x), SurroundingBox(box, box)), r, 0.01, PosInf, rec)
        == Ok(HitOutcome(false, rec))
  {
    assert Intersect(RectObject(x), r, 0.01, PosInf, rec) == Rectangles.Intersect(x, r, 0.01, PosInf, rec);
    Rectangles.XzHitOutsideBox(x, r, rec);
    var box := Rectangles.BoundingBox(x);
    XzBoxMissed(x, r);
    BoxMissSkipsChildren(Node(RectObject(x), RectObject(x), SurroundingBox(box, box)), r, 0.01, PosInf, rec);
  }

  lemma XzBoxMissed(x: Rectangles.Rect, r: Ray)
    requires IndexReadsComponents()
    requires x == Rectangles.Rect(Rectangles.Xz, 0.0, 0.0, 1.0, 5.0, 6.0, x.material)
    requires r == Ray(Vec3(5.5, 1.0, 0.5), Vec3(0.0, -1.0, 0.0), 0.0)
    ensures var box := Rectangles.BoundingBox(x); !BoxHit(SurroundingBox(box, box), r, 0.01, PosInf)
  {
    var box := Rectangles.BoundingBox(x);
    var nodeBox := SurroundingBox(box, box);
    assert nodeBox == Aabb(Vec3(0.0, -0.001, 5.0), Vec3(1.0, 0.001, 6.0)) by {
      SurroundingBoxIdempotent(box);
    }
    assert Index(r.direction, 0) == 0.0 && Index(r.origin, 0) == 5.5;
    assert Index(nodeBox.maximum, 0) == 1.0;
    ZeroDirectionOutsideMisses(nodeBox, r, 0, 0.01, PosInf);
  }
}
