/**
 * bvh_node.hpp: the comparators and the recursive constructor of a bounding volume
 * hierarchy. Traversal (`bvh_node::test_hit`) and the node's `bounding_box` are the `Node`
 * cases of Scene.Intersect and Scene.BoundingBox.
 *
 * The constructor draws an axis with random_int(0, 2) at every node; the draws are the
 * parameter `axisDraw`, indexed by the node's range [start, end), which identifies it.
 * std::sort is modelled by an insertion sort on the comparator's key: it yields one of the
 * orders std::sort may produce.
 */
module Bvh {
  import opened Vectors
  import opened BoundingBoxes
  import opened Scene

  /** The comparator choice `axis == 0 ? x : axis == 1 ? y : z`. */
  function Axis(draw: int): (a: nat)
    ensures a < 3
    ensures draw == 0 ==> a == 0
    ensures draw == 1 ==> a == 1
    ensures draw != 0 && draw != 1 ==> a == 2
  {
    if draw == 0 then 0 else if draw == 1 then 1 else 2
  }

  /**
   * box_compare: both boxes start as default boxes and are computed at times (0, 0); the
   * second is not computed when the first fails. The result compares the minima on the axis.
   */
  function BoxCompare(a: Hittable, b: Hittable, axis: nat): (less: bool)
    ensures HasBox(a, 0.0, 0.0) && HasBox(b, 0.0, 0.0) ==> (less <==> Key(a, axis) < Key(b, axis))
  {
    var boxA := BoundingBox(a, 0.0, 0.0, DefaultBox);
    var boxB := if boxA.ok then BoundingBox(b, 0.0, 0.0, DefaultBox) else BoxOutcome(false, DefaultBox);
    Index(boxA.box.minimum, axis) < Index(boxB.box.minimum, axis)
  }

  /** The value box_compare compares for an object that has a box. */
  function Key(h: Hittable, axis: nat): (k: real)
    ensures IndexReadsComponents() && axis == 0 ==> k == BoundingBox(h, 0.0, 0.0, DefaultBox).box.minimum.x
    ensures IndexReadsComponents() && axis == 1 ==> k == BoundingBox(h, 0.0, 0.0, DefaultBox).box.minimum.y
    ensures IndexReadsComponents() && axis == 2 ==> k == BoundingBox(h, 0.0, 0.0, DefaultBox).box.minimum.z
  {
    Index(BoundingBox(h, 0.0, 0.0, DefaultBox).box.minimum, axis)
  }

  predicate HasBox(h: Hittable, t0: real, t1: real)
  {
    BoundingBox(h, t0, t1, DefaultBox).ok
  }

  /** Every object of a range has a bounding box over [t0, t1]. */
  ghost predicate Boxed(range: seq<Hittable>, t0: real, t1: real)
  {
    forall x :: x in range ==> HasBox(x, t0, t1)
  }

  /** box contains the bounding box of every object of a range. */
  ghost predicate Covers(box: Aabb, range: seq<Hittable>, t0: real, t1: real)
  {
    forall x :: x in range ==> Contains(box, BoundingBox(x, t0, t1, DefaultBox).box)
  }

  lemma BoxedSubset(range: seq<Hittable>, part: seq<Hittable>, t0: real, t1: real)
    requires Boxed(range, t0, t1)
    requires forall x :: x in part ==> x in range
    ensures Boxed(part, t0, t1)
  {
  }

  predicate SortedByKey(s: seq<Hittable>, axis: nat)
  {
    forall i, j :: 0 <= i < j < |s| ==> Key(s[i], axis) <= Key(s[j], axis)
  }

  /** Inserts x into a sorted sequence before the first element with a greater key. */
  function Insert(x: Hittable, s: seq<Hittable>, axis: nat): (r: seq<Hittable>)
    requires SortedByKey(s, axis)
    ensures multiset(r) == multiset(s) + multiset{x}
    ensures SortedByKey(r, axis)
  {
    hide Key;
    if |s| == 0 then [x]
    else if Key(x, axis) <= Key(s[0], axis) then [x] + s
    else
      var rest := Insert(x, s[1..], axis);
      assert s == [s[0]] + s[1..];
      HeadBelowRest(s, axis);
      KeysAbove(s[0], rest, multiset(s[1..]) + multiset{x}, axis);
      SortedCons(s[0], rest, axis);
      [s[0]] + rest
  }

  /** A sorted sequence stays sorted behind an element whose key is at most each of its keys. */
  lemma SortedCons(y: Hittable, rest: seq<Hittable>, axis: nat)
    requires SortedByKey(rest, axis)
    requires forall k :: 0 <= k < |rest| ==> Key(y, axis) <= Key(rest[k], axis)
    ensures SortedByKey([y] + rest, axis)
  {
    var s := [y] + rest;
    forall i, j | 0 <= i < j < |s|
      ensures Key(s[i], axis) <= Key(s[j], axis)
    {
      assert s[j] == rest[j - 1];
      if 0 < i {
        assert s[i] == rest[i - 1];
      }
    }
  }

  /** In a sorted sequence, no element after the head has a smaller key. */
  lemma HeadBelowRest(s: seq<Hittable>, axis: nat)
    requires SortedByKey(s, axis) && 0 < |s|
    ensures forall z :: z in multiset(s[1..]) ==> Key(s[0], axis) <= Key(z, axis)
  {
    forall z | z in multiset(s[1..])
      ensures Key(s[0], axis) <= Key(z, axis)
    {
      var j :| 0 <= j < |s[1..]| && s[1..][j] == z;
      assert s[j + 1] == z;
    }
  }

  /** Every element of a sequence drawn from a pool whose keys are at least y's has a key at least y's. */
  lemma KeysAbove(y: Hittable, rest: seq<Hittable>, pool: multiset<Hittable>, axis: nat)
    requires multiset(rest) == pool
    requires forall z :: z in pool ==> Key(y, axis) <= Key(z, axis)
    ensures forall k :: 0 <= k < |rest| ==> Key(y, axis) <= Key(rest[k], axis)
  {
    forall k | 0 <= k < |rest|
      ensures Key(y, axis) <= Key(rest[k], axis)
    {
      assert rest[k] in multiset(rest);
    }
  }

  /**
   * std::sort on the range with the comparator of the axis: a permutation of the range in
   * non-decreasing order of the key.
   */
  function SortByKey(s: seq<Hittable>, axis: nat): (r: seq<Hittable>)
    ensures multiset(r) == multiset(s)
    ensures SortedByKey(r, axis)
  {
    if |s| == 0 then []
    else
      assert s == [s[0]] + s[1..];
      Insert(s[0], SortByKey(s[1..], axis), axis)
  }

  /** The objects at the leaves of a hierarchy: a node's children are descended into. */
  ghost function Leaves(h: Hittable): set<Hittable>
  {
    match h
    case Node(left, right, _) => Leaves(left) + Leaves(right)
    case _ => {h}
  }

  ghost function LeavesOf(s: seq<Hittable>): set<Hittable>
  {
    if |s| == 0 then {} else Leaves(s[0]) + LeavesOf(s[1..])
  }

  /** A leaf of a sequence is a leaf of one of its elements. */
  lemma {:induction false} LeavesOfMembers(s: seq<Hittable>, o: Hittable)
    ensures o in LeavesOf(s) <==> exists x :: x in s && o in Leaves(x)
  {
    if |s| > 0 {
      LeavesOfMembers(s[1..], o);
      assert forall x :: x in s <==> x == s[0] || x in s[1..];
      if o in Leaves(s[0]) {
        assert s[0] in s;
      }
    }
  }

  /** Rearranging a sequence keeps its leaves. */
  lemma PermutationKeepsLeaves(s: seq<Hittable>, t: seq<Hittable>)
    requires multiset(s) == multiset(t)
    ensures LeavesOf(s) == LeavesOf(t)
  {
    forall o
      ensures o in LeavesOf(s) <==> o in LeavesOf(t)
    {
      LeavesOfMembers(s, o);
      LeavesOfMembers(t, o);
      assert forall x :: x in s <==> x in multiset(s);
      assert forall x :: x in t <==> x in multiset(t);
    }
  }

  /** The leaves of two consecutive ranges are the leaves of their union. */
  lemma SplitLeaves(s: seq<Hittable>, t: seq<Hittable>)
    ensures LeavesOf(s + t) == LeavesOf(s) + LeavesOf(t)
  {
    forall o
      ensures o in LeavesOf(s + t) <==> o in LeavesOf(s) + LeavesOf(t)
    {
      LeavesOfMembers(s + t, o);
      LeavesOfMembers(s, o);
      LeavesOfMembers(t, o);
      assert forall x :: x in s + t <==> x in s || x in t;
    }
  }

  /**
   * The box the constructor computes: both child boxes start as default boxes; the right
   * one is not computed when the left child has none; the node's box surrounds the two.
   */
  function NodeBox(left: Hittable, right: Hittable, t0: real, t1: real): (box: Aabb)
    ensures BoundingBox(left, t0, t1, DefaultBox).ok && BoundingBox(right, t0, t1, DefaultBox).ok ==>
      Contains(box, BoundingBox(left, t0, t1, DefaultBox).box)
      && Contains(box, BoundingBox(right, t0, t1, DefaultBox).box)
  {
    var boxLeft := BoundingBox(left, t0, t1, DefaultBox);
    var boxRight := if boxLeft.ok then BoundingBox(right, t0, t1, DefaultBox) else BoxOutcome(false, DefaultBox);
    SurroundingBox(boxLeft.box, boxRight.box)
  }

  /**
   * The constructor bvh_node(src_objects, start, end, t_min, t_max). An empty range recurses
   * without end in the source and is excluded; std::sort needs every object of a range of
   * more than two to have a box, or its comparator is not an order.
   */
  method Build(src: seq<Hittable>, start: nat, end: nat, t0: real, t1: real, axisDraw: (nat, nat) -> int)
    returns (node: Hittable)
    requires start < end <= |src|
    requires end - start > 2 ==> Boxed(src[start..end], 0.0, 0.0)
    decreases end - start, 2
    ensures node.Node?
    ensures Leaves(node) == LeavesOf(src[start..end])
    ensures node.box == NodeBox(node.left, node.right, t0, t1)
    ensures end - start == 1 ==> node.left == src[start] && node.right == src[start]
    ensures end - start == 2 ==>
      if BoxCompare(src[start], src[start + 1], Axis(axisDraw(start, end)))
      then node.left == src[start] && node.right == src[start + 1]
      else node.left == src[start + 1] && node.right == src[start]
    ensures end - start > 2 ==>
      var sorted := SortByKey(src[start..end], Axis(axisDraw(start, end)));
      var half := (start + end) / 2 - start;
      && node.left.Node? && node.right.Node?
      && Leaves(node.left) == LeavesOf(sorted[..half])
      && Leaves(node.right) == LeavesOf(sorted[half..])
    ensures Boxed(src[start..end], t0, t1) ==> Covers(node.box, src[start..end], t0, t1)
  {
    var left, right, lower, upper := Children(src, start, end, t0, t1, axisDraw);
    var okLeft, boxLeft := BoundingBoxOf(left, t0, t1, DefaultBox);
    var boxRight := DefaultBox;
    if okLeft {
      var okRight;
      okRight, boxRight := BoundingBoxOf(right, t0, t1, DefaultBox);
    }
    node := Node(left, right, SurroundingBox(boxLeft, boxRight));
    if Boxed(src[start..end], t0, t1) {
      NodeCovers(left, right, t0, t1, src[start..end], lower, upper);
    }
  }

  /**
   * The two children of the node over src[start..end]: the object itself twice for one
   * object, the two in comparator order for two, and otherwise the range sorted on the
   * drawn axis and split at its middle, each half built into a node. lower and upper are
   * the objects each child covers.
   */
  method Children(src: seq<Hittable>, start: nat, end: nat, t0: real, t1: real, axisDraw: (nat, nat) -> int)
    returns (left: Hittable, right: Hittable, ghost lower: seq<Hittable>, ghost upper: seq<Hittable>)
    requires start < end <= |src|
    requires end - start > 2 ==> Boxed(src[start..end], 0.0, 0.0)
    decreases end - start, 1
    ensures Leaves(left) + Leaves(right) == LeavesOf(src[start..end])
    ensures end - start == 1 ==> left == src[start] && right == src[start]
    ensures end - start == 2 ==>
      if BoxCompare(src[start], src[start + 1], Axis(axisDraw(start, end)))
      then left == src[start] && right == src[start + 1]
      else left == src[start + 1] && right == src[start]
    ensures end - start > 2 ==> MedianSplit(src[start..end], Axis(axisDraw(start, end)), start, end, left, right, lower, upper)
    ensures forall x :: x in src[start..end] ==> x in lower || x in upper
    ensures Boxed(src[start..end], t0, t1) ==>
      HasBox(left, t0, t1) && HasBox(right, t0, t1)
      && Covers(BoundingBox(left, t0, t1, DefaultBox).box, lower, t0, t1)
      && Covers(BoundingBox(right, t0, t1, DefaultBox).box, upper, t0, t1)
  {
    hide BoundingBox;
    hide Key;
    var objects := src;
    var axis := Axis(axisDraw(start, end));
    var size := end - start;
    if size == 1 {
      left, right := objects[start], objects[start];
      assert src[start..end] == [src[start]];
      assert LeavesOf([src[start]]) == Leaves(src[start]);
      lower, upper := [left], [right];
    } else if size == 2 {
      if BoxCompare(objects[start], objects[start + 1], axis) {
        left, right := objects[start], objects[start + 1];
      } else {
        left, right := objects[start + 1], objects[start];
      }
      assert src[start..end] == [src[start]] + [src[start + 1]];
      SplitLeaves([src[start]], [src[start + 1]]);
      assert LeavesOf([src[start]]) == Leaves(src[start]);
      assert LeavesOf([src[start + 1]]) == Leaves(src[start + 1]);
      lower, upper := [left], [right];
    } else {
      left, right, lower, upper := SortedChildren(src, start, end, t0, t1, axisDraw);
    }
  }

  /** Children for more than two objects: sort the range on the axis and build each half. */
  method SortedChildren(src: seq<Hittable>, start: nat, end: nat, t0: real, t1: real, axisDraw: (nat, nat) -> int)
    returns (left: Hittable, right: Hittable, ghost lower: seq<Hittable>, ghost upper: seq<Hittable>)
    requires start + 2 < end <= |src|
    requires Boxed(src[start..end], 0.0, 0.0)
    decreases end - start, 0
    ensures Leaves(left) + Leaves(right) == LeavesOf(src[start..end])
    ensures MedianSplit(src[start..end], Axis(axisDraw(start, end)), start, end, left, right, lower, upper)
    ensures forall x :: x in src[start..end] ==> x in lower || x in upper
    ensures Boxed(src[start..end], t0, t1) ==>
      HasBox(left, t0, t1) && HasBox(right, t0, t1)
      && Covers(BoundingBox(left, t0, t1, DefaultBox).box, lower, t0, t1)
      && Covers(BoundingBox(right, t0, t1, DefaultBox).box, upper, t0, t1)
  {
    hide BoundingBox;
    hide Key;
    hide SortByKey, Leaves, LeavesOf;
    var objects := src;
    var axis := Axis(axisDraw(start, end));
    var sorted := SortByKey(objects[start..end], axis);
    assert |sorted| == |multiset(sorted)| == end - start;
    objects := objects[..start] + sorted + objects[end..];
    assert objects[start..end] == sorted;
    var mid := (start + end) / 2;
    lower, upper := objects[start..mid], objects[mid..end];
    assert sorted == lower + upper;
    MembersOfHalves(src[start..end], lower, upper);
    left := Build(objects, start, mid, t0, t1, axisDraw);
    right := Build(objects, mid, end, t0, t1, axisDraw);
    SplitLeaves(lower, upper);
    PermutationKeepsLeaves(sorted, src[start..end]);
    HalvesCover(src[start..end], lower, upper, left, right, t0, t1);
    HalvesOrdered(lower, upper, axis);
  }

  /**
   * The split of a range of more than two objects: the range sorted on the axis, cut at
   * mid == (start + end) / 2, every key of the lower half at most every key of the upper
   * half, and each child a node over the objects of its half.
   */
  ghost predicate MedianSplit(range: seq<Hittable>, axis: nat, start: nat, end: nat,
                              left: Hittable, right: Hittable, lower: seq<Hittable>, upper: seq<Hittable>)
  {
    && lower + upper == SortByKey(range, axis)
    && |lower| == (start + end) / 2 - start
    && (forall a, b :: a in lower && b in upper ==> Key(a, axis) <= Key(b, axis))
    && left.Node? && right.Node?
    && Leaves(left) == LeavesOf(lower) && Leaves(right) == LeavesOf(upper)
  }

  /** The two halves of a sorted sequence are ordered: no key below exceeds a key above. */
  lemma HalvesOrdered(lower: seq<Hittable>, upper: seq<Hittable>, axis: nat)
    requires SortedByKey(lower + upper, axis)
    ensures forall a, b :: a in lower && b in upper ==> Key(a, axis) <= Key(b, axis)
  {
    forall a, b | a in lower && b in upper
      ensures Key(a, axis) <= Key(b, axis)
    {
      var i :| 0 <= i < |lower| && lower[i] == a;
      var j :| 0 <= j < |upper| && upper[j] == b;
      assert (lower + upper)[i] == a && (lower + upper)[|lower| + j] == b;
    }
  }

  /** Two halves of a rearranged range hold exactly the objects of the range. */
  lemma MembersOfHalves(range: seq<Hittable>, lower: seq<Hittable>, upper: seq<Hittable>)
    requires multiset(lower + upper) == multiset(range)
    ensures forall x :: x in range <==> x in lower || x in upper
  {
    forall x
      ensures x in range <==> x in lower || x in upper
    {
      assert x in range <==> x in multiset(range);
      assert x in lower + upper <==> x in multiset(lower + upper);
      assert x in lower + upper <==> x in lower || x in upper;
    }
  }

  /**
   * When every object of a range has a box, the nodes built over its two halves have boxes
   * that contain the boxes of their halves.
   */
  lemma HalvesCover(range: seq<Hittable>, lower: seq<Hittable>, upper: seq<Hittable>,
                    left: Hittable, right: Hittable, t0: real, t1: real)
    requires forall x :: x in range <==> x in lower || x in upper
    requires left.Node? && right.Node?
    requires Boxed(lower, t0, t1) ==> Covers(left.box, lower, t0, t1)
    requires Boxed(upper, t0, t1) ==> Covers(right.box, upper, t0, t1)
    ensures Boxed(range, t0, t1) ==>
      HasBox(left, t0, t1) && HasBox(right, t0, t1)
      && Covers(BoundingBox(left, t0, t1, DefaultBox).box, lower, t0, t1)
      && Covers(BoundingBox(right, t0, t1, DefaultBox).box, upper, t0, t1)
  {
    if Boxed(range, t0, t1) {
      BoxedSubset(range, lower, t0, t1);
      BoxedSubset(range, upper, t0, t1);
    }
  }



  /**
   * A node's box contains the box of everything below it: each object of the range lies
   * on one side, whose box contains the object's box.
   */
  lemma NodeCovers(left: Hittable, right: Hittable, t0: real, t1: real,
                   range: seq<Hittable>, lower: seq<Hittable>, upper: seq<Hittable>)
    requires HasBox(left, t0, t1) && HasBox(right, t0, t1)
    requires forall x :: x in range ==> x in lower || x in upper
    requires Covers(BoundingBox(left, t0, t1, DefaultBox).box, lower, t0, t1)
    requires Covers(BoundingBox(right, t0, t1, DefaultBox).box, upper, t0, t1)
    ensures Covers(NodeBox(left, right, t0, t1), range, t0, t1)
  {
    var box := NodeBox(left, right, t0, t1);
    forall x | x in range
      ensures Contains(box, BoundingBox(x, t0, t1, DefaultBox).box)
    {
      if x in lower {
        ContainsTransitive(box, BoundingBox(left, t0, t1, DefaultBox).box, BoundingBox(x, t0, t1, DefaultBox).box);
      } else {
        ContainsTransitive(box, BoundingBox(right, t0, t1, DefaultBox).box, BoundingBox(x, t0, t1, DefaultBox).box);
      }
    }
  }

  /** The constructor bvh_node(list, t_min, t_max): the whole list. */
  method BuildFromList(list: Hittable, t0: real, t1: real, axisDraw: (nat, nat) -> int) returns (node: Hittable)
    requires list.List? && 0 < |list.objects|
    requires |list.objects| > 2 ==> Boxed(list.objects, 0.0, 0.0)
    ensures node.Node?
    ensures Leaves(node) == LeavesOf(list.objects)
    ensures Boxed(list.objects, t0, t1) ==> Covers(node.box, list.objects, t0, t1)
  {
    assert list.objects[0..|list.objects|] == list.objects;
    node := Build(list.objects, 0, |list.objects|, t0, t1, axisDraw);
  }
}
