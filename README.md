# A verified model of a small C++ path tracer

This project models the intersection and shading core of a small "ray tracing in one weekend" style
path tracer written in C++. It covers:

- vector arithmetic and rays;
- the axis-aligned bounding box slab test and box union;
- the hit record and its normal-orientation rule;
- spheres and the three axis-aligned rectangles;
- the nearest-hit list and the bounding volume hierarchy (BVH);
- solid and checker textures and the Perlin noise tables;
- the Lambertian, metal and dielectric materials;
- the colour clamp;
- the depth-bounded recursive `ray_color`.

Coordinates are mathematical reals. Each random draw is an explicit input. Where the C++ code throws
(`unit_vector` of a zero vector), the model returns `Err(NullVector)`. Where it goes on computing with
an IEEE NaN, or with an infinity stored in a hit record, the model stops with `Err(NotANumber)`
(module `Outcomes`). Where an IEEE infinity has a
determined outcome, the model follows it: the slab test's `1 / 0`, and the world being queried up to
`INFINITY`.

The code is written in two styles, and the model keeps each where the source uses it:

- **Expression code** becomes functions: vector operators, `surrounding_box`, `reflectance`,
  `color_clamp`, textures and `ray_color`.
- **Code that writes through references or updates locals in loops** becomes methods:
  - the compound assignments of `vec3`;
  - `face_determination`;
  - every `test_hit`, which writes the caller's hit record (`Hits.HitRecord`);
  - the slab loop;
  - the list loops;
  - the BVH constructor;
  - the rejection samplers;
  - `make_permutation` on an array;
  - the Perlin lookups and `turbulence`.

  Each method is proved equal to a specification function, and the properties are proved about
  that function. The exception is the BVH constructor (`Bvh.Build`, `Bvh.Children`,
  `Bvh.SortedChildren`, `Bvh.BuildFromList`): its ensures state the median split, the leaves and
  the covering boxes directly.

Several members used by the shown code are defined in no file of the repository:
`vec3::operator[]`, `vec3::zero()`, `reflect`, a sphere's `bounding_box`, and the `bounding_box`
virtual of `hittable`. They are uninterpreted constants. `sqrt` and `sin` are uninterpreted too. The
only facts about them are named predicates (`Libm.SqrtIsRoot`, `Libm.SinShiftsByPi`,
`Vectors.IndexReadsComponents`), which lemmas take as hypotheses.

`xz_rect` is modelled as written. Its hit test reads the in-plane coordinates at `(plane + 1) % 3`
and `(plane + 2) % 3`, which for plane 1 are z and x. It checks them against `[left, right]` and
`[down, up]`. Its constructor, `calculate_uv` and `bounding_box` pair those extents with x and z
instead. `Rectangles.XzHitOutsideBox` and `Scene.XzNodeDisagrees` exhibit a concrete ray where this
matters:

- the rectangle reports a hit outside its own bounding box, with `u = 5.5`;
- a BVH node built over the rectangle rejects the same ray.

## Model

| member | source | states |
|---|---|---|
| Vectors.Neg | vec3.hpp:16-18 | -v is the additive inverse of v |
| Vectors.Sub | vec3.hpp:55-57 | u - v added to v gives back u |
| Vectors.Add | vec3.hpp:51-53 | the zero vector is the identity of + on either side |
| Vectors.Mul | vec3.hpp:59-61 | the components of the component-wise product sum to dot(u, v); (1, 1, 1) times v is v |
| Vectors.Scale | vec3.hpp:63-65 | 0 * v is the zero vector and 1 * v is v |
| Vectors.Div | vec3.hpp:71-73 | t * (v / t) == v for t != 0 |
| Vectors.Dot | vec3.hpp:75-77 | dot with the zero vector on either side is 0 |
| Vectors.Cross | vec3.hpp:79-83 | rotating the result's components to (y, z, x) gives a vector orthogonal to both arguments: the source's cross is the cross product with its components in rotated order |
| Vectors.Length | vec3.hpp:42-44 | the square root of length_squared; no contract of its own, its properties are stated through UnitVectorDefined and UnitVectorIsUnit |
| Vectors.LengthSquared | vec3.hpp:38-40 | the squared length is never negative, and is zero exactly for the zero vector |
| Vectors.UnitVector | vec3.hpp:85-90 | unit_vector throws (NullVector) exactly when the length is zero |
| Vectors.UnitVectorDefined | vec3.hpp:85-90 | with a true square root, unit_vector succeeds exactly on non-zero vectors |
| Vectors.UnitVectorIsUnit | vec3.hpp:85-90 | with a true square root, the vector unit_vector returns has squared length 1 |
| Vectors.DotSymmetric | vec3.hpp:75-77 | dot(u, v) == dot(v, u) |
| Vectors.DotSelf | vec3.hpp:75-77 | dot(v, v) is length_squared(v), so it is non-negative |
| Vectors.DotNeg | vec3.hpp:75-77 | negating either argument negates the dot product |
| Vectors.CrossSelf | vec3.hpp:79-83 | cross(u, u) is the zero vector |
| Vectors.CrossAntiCommutative | vec3.hpp:79-83 | cross(u, v) == -cross(v, u) |
| Vectors.CrossComponentOrder | vec3.hpp:79-83 | the first component is u.x*v.y - u.y*v.x, so cross(e_x, e_y) is e_x rather than e_z |
| Vectors.ScaleCommutes | vec3.hpp:67-69 | v * t == t * v |
| Vectors.DivIsScaleByInverse | vec3.hpp:71-73 | v / t == (1 / t) * v, and t * (v / t) == v |
| Vectors.DoubleNegation | vec3.hpp:16-18 | -(-v) == v |
| Vectors.Vec3Cell.constructor | vec3.hpp:13-14 | the three fields hold the given components |
| Vectors.Vec3Cell.AddAssign | vec3.hpp:20-25 | after v += w the receiver's value is old v + w |
| Vectors.Vec3Cell.MulAssign | vec3.hpp:27-32 | after v *= c the receiver's value is c * old v |
| Vectors.Vec3Cell.DivAssign | vec3.hpp:34-36 | after v /= c the receiver's value is old v / c |
| Rays.MakeRay | ray.hpp:11-13 | the constructor stores origin, direction and time unchanged |
| Rays.DefaultTime | ray.hpp:11-13 | a ray built without a time has time 0.0 |
| Rays.At | ray.hpp:15-17 | at(c) - origin == c * direction, and at(0) is the origin |
| Rays.AtDifference | ray.hpp:15-17 | at(c) - at(d) == (c - d) * direction |
| Utils.UnitMap | utils.hpp:7-11 | unit_map maps [-1, 1] into [0, 1], -1 to 0 and 1 to 1 |
| Utils.Vec3UnitMap | utils.hpp:23-25 | each component in [-1, 1] is mapped into [0, 1] by unit_map |
| Utils.Lerp | utils.hpp:27-29 | lerp at 0 is the origin and at 1 the destination |
| Utils.FirstInBall | utils.hpp:35-41 | the accepted point is a drawn point strictly inside the unit ball; none is accepted exactly when every draw is rejected |
| Utils.RandomInUnitSphere | utils.hpp:35-41 | the do-while loop returns the first drawn point with squared length below 1 |
| Utils.FirstInDisk | utils.hpp:43-50 | the accepted point is a flattened draw with z == 0 strictly inside the unit disk; none exactly when every flattened draw is rejected |
| Utils.RandomInUnitDisk | utils.hpp:43-50 | the do-while loop returns the first flattened draw with squared length below 1 |
| Utils.RandomUnitVector | utils.hpp:52-55 | throws on a zero sample, else returns the sample divided by its length |
| Utils.RandomUnitVectorIsUnit | utils.hpp:52-55 | with a true square root, fails exactly on the zero sample and otherwise has squared length 1 |
| Utils.RefractCosine | utils.hpp:58 | cos_theta is dot(-in, n) capped at 1, so it is at most 1 |
| Utils.Refract | utils.hpp:57-62 | the refracted direction minus its perpendicular part is parallel to n |
| Utils.RefractStraight | utils.hpp:57-62 | with ratio 1, a unit ray meeting a unit normal from the front leaves unbent |
| Libm.Abs | perlin.hpp:56 | fabs is non-negative and is x or -x |
| Libm.Min | aabb.hpp:38-40 | fmin is a lower bound equal to one of its arguments |
| Libm.Max | aabb.hpp:42-44 | fmax is an upper bound equal to one of its arguments |
| Libm.Pow5 | dielectric.hpp:37 | the fifth power maps [0, 1] into [0, 1], 0 to 0 and 1 to 1 |
| BoundingBoxes.Inverse | aabb.hpp:19 | 1 / d is +infinity exactly when d is 0, and negative exactly when d is |
| BoundingBoxes.Slab | aabb.hpp:18-24 | a ray not moving along the axis is in the slab for all t (entry -infinity, exit +infinity) when its origin is strictly between the planes, and for no t when it is strictly outside |
| BoundingBoxes.Narrow | aabb.hpp:26-27 | one narrowing step never lowers t_min and never raises t_max |
| BoundingBoxes.Hit | aabb.hpp:15-34 | the axis loop with its swap and early return computes the narrowed-interval verdict BoxHit |
| BoundingBoxes.Narrowed | aabb.hpp:17-27 | across the axis loop the running t_min never decreases and t_max never increases |
| BoundingBoxes.EmptyStaysEmpty | aabb.hpp:29-30 | once t_max <= t_min, later axes keep the interval empty, so touching intervals miss |
| BoundingBoxes.BoxHit | aabb.hpp:15-34 | the box can be hit only on a non-empty query interval: t_max <= t_min always misses |
| BoundingBoxes.SlabOrdered | aabb.hpp:19-24 | after the swap the entry distance is at most the exit distance unless one is NaN |
| BoundingBoxes.ZeroDirectionOutsideMisses | aabb.hpp:19-30 | a zero direction component with the origin strictly outside that slab misses |
| BoundingBoxes.ZeroDirectionInsideKeeps | aabb.hpp:19-27 | a zero direction component with the origin strictly inside that slab leaves the interval unchanged |
| BoundingBoxes.SurroundingBox | aabb.hpp:37-47 | surrounding_box contains both boxes |
| BoundingBoxes.SurroundingBoxIsLeast | aabb.hpp:37-47 | any box containing both boxes contains their surrounding box |
| BoundingBoxes.SurroundingBoxCommutative | aabb.hpp:38-44 | surrounding_box is commutative |
| BoundingBoxes.SurroundingBoxAssociative | aabb.hpp:38-44 | surrounding_box is associative |
| BoundingBoxes.SurroundingBoxIdempotent | aabb.hpp:38-44 | surrounding_box(a, a) == a |
| Hits.FaceDetermined | hittable.hpp:11-14 | front_face iff dot(direction, outward normal) < 0; the normal is the outward normal on a front face and its negation otherwise, never along the ray; no other field changes |
| Hits.HitRecord.constructor | hittable.hpp:5-15 | a record holding the given hit |
| Hits.HitRecord.FaceDetermination | hittable.hpp:11-14 | the record's new value is FaceDetermined of its old value |
| Hits.HitRecord.Assign | hittable_list.hpp:23 | the copy assignment info = tmp_info |
| Hits.AcceptsIsInInterval | sphere.hpp:32 | the rejection test !(t < t_min or t_max < t) accepts exactly [t_min, t_max], both ends included |
| Spheres.Coefficients | sphere.hpp:17-22 | the leading coefficient, length_squared of the direction, is non-negative |
| Spheres.Record | sphere.hpp:38-42 | the accepted root becomes the parameter and at(root) the point; unit_vector's error is passed on |
| Spheres.Intersect | sphere.hpp:16-45 | a miss returns the caller's record unchanged |
| Spheres.Solve | sphere.hpp:24-44 | the root selection on given coefficients; a miss returns the caller's record unchanged |
| Spheres.HitFacts | sphere.hpp:31-42 | a hit records the near root when it is in [t_min, t_max] and otherwise the far root, at(root) as the point, unit_vector(point - center) turned against the ray as the normal, the sphere's material, and u, v unchanged |
| Spheres.MissCases | sphere.hpp:24-36 | a negative discriminant, or both roots outside [t_min, t_max], is a miss that leaves the record untouched |
| Spheres.ErrorCases | sphere.hpp:20-40 | the test fails only with a non-negative discriminant: NotANumber exactly for a zero direction, else unit_vector's error |
| Spheres.Narrowing | sphere.hpp:31-36 | lowering t_max to no less than a hit's parameter keeps that hit, whatever record is passed |
| Spheres.TestHit | sphere.hpp:16-45 | the in-place test returns the verdict of Intersect and leaves the caller's record as Intersect says |
| Spheres.SolveInto | sphere.hpp:24-44 | the root selection writing the record returns the verdict of Solve and leaves its record |
| Spheres.RootsSolve | sphere.hpp:29-33 | with a true square root both roots solve a t^2 + 2 hb t + c = 0 |
| Spheres.RootsOnSphere | sphere.hpp:17-33 | the points of the ray at both roots lie on the sphere |
| Spheres.HitOnSurface | sphere.hpp:38-39 | the point a successful test records lies on the sphere |
| Spheres.HeadOnSolve | sphere.hpp:24-44 | a ray from (0, 0, 5) along -z meets the sphere of radius R at the origin at parameter 5 - R, with normal (0, 0, 1) facing the ray |
| Rectangles.AssignCorners | rectangles.hpp:14-23 | right - left == width and up - down == height, centred on the given point |
| Rectangles.NewXyRect | rectangles.hpp:53-57 | k is the centre's z and the extents span x and y around the centre |
| Rectangles.NewYzRect | rectangles.hpp:77-81 | k is the centre's x and the extents span y and z around the centre |
| Rectangles.NewXzRect | rectangles.hpp:101-105 | k is the centre's y and the extents span x and z around the centre |
| Rectangles.Uv | rectangles.hpp:25-28 | u and v are the relative positions in the extents, recovering the point from them; a zero width or height is NotANumber |
| Rectangles.UvInUnitRange | rectangles.hpp:25-28 | inside positive extents, u and v lie in [0, 1] |
| Rectangles.CalculateUv | rectangles.hpp:25-28 | writes exactly u and v, as Uv computes them |
| Rectangles.OutOfBounds | rectangles.hpp:30-48 | reports outside exactly when the crossing is rejected, and then writes nothing; otherwise writes exactly the parameter and point of the crossing |
| Rectangles.Cross | rectangles.hpp:30-48 | a reported crossing moves along the plane's axis, is in [t_min, t_max], is at(t), and has both in-plane coordinates within the extents; the only failure is NotANumber with no motion along the axis |
| Rectangles.Intersect | rectangles.hpp:59-67 | a miss returns the caller's record unchanged |
| Rectangles.TestHit | rectangles.hpp:59-67 | the in-place test of each kind returns the verdict of Intersect and leaves the record as Intersect says |
| Rectangles.HitFacts | rectangles.hpp:30-48 | a hit is the plane crossing in [t_min, t_max], with both in-plane coordinates within the extents, the axis normal turned against the ray, the rectangle's material, and the uv of the point |
| Rectangles.Narrowing | rectangles.hpp:31-34 | lowering t_max to no less than a hit's parameter keeps that hit |
| Rectangles.HitOnPlane | rectangles.hpp:31-36 | a recorded point lies in the rectangle's plane |
| Rectangles.ParallelNeverHits | rectangles.hpp:31-34 | a ray with no motion along the fixed axis never hits; it stops with NotANumber exactly where a NaN would reach the record |
| Rectangles.HitInsideBox | rectangles.hpp:59-72 | for xy_rect and yz_rect a recorded hit lies in the bounding box and has u, v in [0, 1] |
| Rectangles.XzExample | rectangles.hpp:101-105 | the xz_rect centred at (0.5, 0, 5.5) of size 1 spans x in [0, 1] and z in [5, 6] |
| Rectangles.XzHitOutsideBox | rectangles.hpp:107-118 | that xz_rect is hit at (5.5, 0, 0.5), outside its bounding box, with u = 5.5 |
| Rectangles.BoxProper | rectangles.hpp:69-72 | the box is strictly padded on the fixed axis and ordered on the others when the extents are |
| Rectangles.BoundingBox | rectangles.hpp:69-72 | the extents on the in-plane axes (xz_rect as written: x and z) and a slab 0.002 thick around k on the fixed axis; the same holds at rectangles.hpp:93-96 and 117-120 |
| Rectangles.CenterInBox | rectangles.hpp:14-23 | a rectangle of non-negative size contains its centre in its bounding box |
| Scene.TestHit | hittable.hpp:17-19 | the virtual test_hit on a record returns the verdict of Intersect and leaves the record as Intersect says |
| Scene.Intersect | hittable_list.hpp:14-28 | a test that misses, of any hittable, returns the caller's record unchanged |
| Scene.Scan | hittable_list.hpp:17-25 | until some object is hit, info is the caller's record |
| Scene.BoundingBox | hittable_list.hpp:30-32 | rectangles and nodes always have a box (a node the one it stores); an empty list has none and leaves output_box |
| Scene.BoxFold | hittable_list.hpp:34-45 | the fold fails only when some object has no box |
| Scene.ListTestHit | hittable_list.hpp:14-28 | the list's loop returns the verdict of Intersect and leaves info as Intersect says |
| Scene.NodeTestHit | bvh_node.hpp:79-87 | the node's box test then left then right child returns the verdict of Intersect |
| Scene.BoundingBoxOf | bvh_node.hpp:89-92 | the virtual bounding_box returns what BoundingBox computes |
| Scene.ListBoundingBox | hittable_list.hpp:30-46 | the list's loop returns what BoundingBox computes |
| Scene.IntersectFacts | hittable_list.hpp:14-28 | every test that does not fail misses with the record unchanged, or hits within [t_min, t_max] with a material, well formed in a well-formed scene |
| Scene.ScanFacts | hittable_list.hpp:17-24 | closest_so_far never exceeds t_max; before any hit it is t_max and info is untouched; after one it is info's parameter |
| Scene.ScanStopsAtError | hittable_list.hpp:19-25 | once an object's test fails, the list's test ends with that failure |
| Scene.ScanNearest | hittable_list.hpp:19-24 | after n primitives, closest_so_far is at most the parameter of any of them hit alone on [t_min, t_max] |
| Scene.ListNearest | hittable_list.hpp:19-24 | a list of primitives reports the nearest hit: at most the parameter of any member hit alone on [t_min, t_max] |
| Scene.LaterWinsTies | hittable_list.hpp:20-23 | of two primitives hit at the same parameter, the later one's record is reported |
| Scene.PrimitiveNarrowing | sphere.hpp:31-36 | for spheres and rectangles, lowering t_max to no less than a hit's parameter keeps that hit |
| Scene.NodeNearest | bvh_node.hpp:83-86 | a node over two primitives reports the nearer hit of its children |
| Scene.BoxMissSkipsChildren | bvh_node.hpp:80-81 | a node whose box the ray misses reports a miss without testing its children |
| Scene.FoldStopsAtFailure | hittable_list.hpp:37-39 | once a child has no box, the fold ends with false |
| Scene.FoldFacts | hittable_list.hpp:34-45 | the fold succeeds exactly when every object has a box; its box then contains each of theirs and lies in any box that contains them all |
| Scene.ListBox | hittable_list.hpp:30-46 | a list has a box exactly when it is non-empty and every object has one; the box is then the least box containing them all |
| Scene.XzNodeDisagrees | bvh_node.hpp:79-81 | the xz_rect of XzHitOutsideBox reports the hit alone, while a node over it rejects the ray by its box |
| Bvh.Axis | bvh_node.hpp:45-47 | draw 0 picks x, 1 picks y, anything else z |
| Bvh.BoxCompare | bvh_node.hpp:10-18 | between objects with boxes, box_compare is the strict order of their keys |
| Bvh.Key | bvh_node.hpp:17 | the key on axis 0, 1, 2 is the x, y, z of the minimum corner of the object's box |
| Bvh.Insert | bvh_node.hpp:64 | inserting into a sorted range keeps it sorted and adds exactly the element |
| Bvh.SortByKey | bvh_node.hpp:64 | the sort is a permutation of the range, ordered by the axis key |
| Bvh.PermutationKeepsLeaves | bvh_node.hpp:64-68 | rearranging a range keeps its leaves |
| Bvh.NodeBox | bvh_node.hpp:71-76 | with both child boxes present, the node's box is their surrounding box |
| Bvh.Build | bvh_node.hpp:42-77 | the built node's leaves are exactly the range's; one object is both children; two are ordered by the comparator; more than two are sorted on the drawn axis and split at (start + end) / 2, each child a node over one half; the box covers every object's box |
| Bvh.Children | bvh_node.hpp:49-69 | the children's leaves are the range's leaves; one and two objects as the source; more than two make the median split MedianSplit |
| Bvh.SortedChildren | bvh_node.hpp:63-69 | the halves concatenate to the range sorted on the drawn axis, the lower one of length (start + end) / 2 - start, no key below exceeding a key above, and each child a node over its half's leaves |
| Bvh.HalvesOrdered | bvh_node.hpp:64-66 | cutting a sorted range leaves no key of the lower half above a key of the upper half |
| Bvh.NodeCovers | bvh_node.hpp:71-76 | a node's box contains the box of everything below it |
| Bvh.BuildFromList | bvh_node.hpp:39-40 | a node over the whole list, with the list's leaves and a box covering every object's |
| Textures.SolidRgb | texture.hpp:18-19 | solid_color(r, g, b) holds vec3(r, g, b) |
| Textures.CheckerOfColors | texture.hpp:34-35 | a checker of two colours has solid children of those colours |
| Textures.Selected | texture.hpp:39-41 | the odd child where the product of sines is negative, the even child otherwise |
| Textures.Value | texture.hpp:37-41 | a texture's value is always the colour of one of its leaves |
| Textures.SolidIgnoresCoordinates | texture.hpp:18-23 | a solid colour ignores u, v and p, and both constructors agree |
| Textures.CheckerDelegates | texture.hpp:37-41 | the checker's value is the selected child's value at the same u, v and p |
| Textures.TwoColors | texture.hpp:34-41 | a checker of two colours yields odd where the product is negative and even otherwise, zero included |
| Textures.ShiftFlipsChild | texture.hpp:39-41 | shifting x by pi/10 switches the selected child wherever the product is non-zero |
| Noise.Iota | perlin.hpp:83-84 | the first loop leaves permutation[i] == i |
| Noise.Swap | perlin.hpp:87 | std::swap exchanges two entries and keeps the multiset of entries |
| Noise.Shuffle | perlin.hpp:86-87 | every step is a swap, so the shuffle keeps 256 entries and their multiset |
| Noise.ShuffleIsPermutation | perlin.hpp:80-90 | the shuffle of 0..255 is a permutation of 0..255, whatever the draws |
| Noise.PermutationInRange | perlin.hpp:80-90 | a permutation has 256 entries, each in [0, 255] |
| Noise.MakePermutation | perlin.hpp:80-90 | the array holds the shuffle of 0..255 and is a permutation of 0..255 |
| Noise.Mask | perlin.hpp:38-40 | n & 0xFF is in [0, 255] and congruent to n modulo 256, negatives included |
| Noise.XorBelow | perlin.hpp:38-40 | XOR never sets a bit above its operands' highest |
| Noise.Xor3 | perlin.hpp:38-40 | the XOR of three bytes is a byte, so the gradient lookup is in bounds |
| Noise.Fraction | perlin.hpp:25-27 | p - floor(p) lies in [0, 1) |
| Noise.SmoothInUnit | perlin.hpp:60-62 | the smoothstep weights map [0, 1] into [0, 1] |
| Noise.WeightBlend | perlin.hpp:71-73 | the weight of corner index i is i * s + (1 - i) * (1 - s) |
| Noise.TrilinearInterpolation | perlin.hpp:59-78 | the three nested loops compute the sum of the eight weighted terms |
| Noise.InterpolationAtCorner | perlin.hpp:59-78 | the interpolation vanishes at the cell's origin corner |
| Noise.Hash | perlin.hpp:38-40 | the hashed corner index is within the gradient table |
| Noise.CornerLookup | perlin.hpp:33-40 | corner (di, dj, dk) is the gradient at the XOR of the three permuted masked lattice coordinates |
| Noise.Noise | perlin.hpp:24-43 | the noise is zero at every lattice point |
| Noise.Octaves | perlin.hpp:50-54 | depth octaves, none for depth <= 0 |
| Noise.WeightedSumScale | perlin.hpp:45-57 | the weighted sum is linear in the starting weight |
| Noise.SelfSimilar | perlin.hpp:45-57 | n + 1 octaves at p are the noise at p plus half of n octaves at 2p |
| Noise.Perlin.constructor | perlin.hpp:13-22 | the generator holds the given tables |
| Noise.Perlin.GatherCorners | perlin.hpp:33-40 | the 2x2x2 array holds the gradients of the cell's corners |
| Noise.Perlin.At | perlin.hpp:24-43 | at returns the noise of the tables at p |
| Noise.Perlin.Turbulence | perlin.hpp:45-57 | turbulence (depth 7 by default) is the magnitude of the weighted octave sum: never negative, 0 without octaves |
| Noise.FillGradients | perlin.hpp:16-17 | each gradient is the unit vector of its sample; fails exactly when some sample is zero |
| Noise.NewPerlin | perlin.hpp:13-22 | the gradient table and three permutations of 0..255, or unit_vector's error |
| Lambertians.Direction | lambertian.hpp:16-18 | normal + unit vector, or the bare normal when that sum is degenerate |
| Lambertians.Scatter | lambertian.hpp:15-24 | always scatters, attenuates by the colour, from the hit point at the incoming time; fails only when random_unit_vector throws |
| Lambertians.OnlyTimeMatters | lambertian.hpp:15-21 | the incoming origin and direction play no part |
| Lambertians.ScatterInto | lambertian.hpp:15-24 | the out-parameters and verdict are those of Scatter |
| Metals.MakeMetal | metal.hpp:14 | the fuzz is min(fuzz, 1): kept below 1, with no lower clamp |
| Metals.FuzzedReflection | metal.hpp:17-19 | the direction departs from the reflection by fuzz times the sample, and is the bare reflection without fuzz |
| Metals.Scatter | metal.hpp:16-22 | attenuates by the colour, from the hit point at time 0 along the fuzzed reflection; scatters iff that direction has positive dot with the normal |
| Metals.TimeDropped | metal.hpp:19 | the incoming time plays no part |
| Metals.SharpMirror | metal.hpp:17-19 | with no fuzz the ray leaves along the reflection, whatever the sample |
| Metals.ScatterInto | metal.hpp:16-22 | the out-parameters and verdict are those of Scatter |
| Dielectrics.NormalReflectance | dielectric.hpp:35-36 | r0 is non-negative |
| Dielectrics.Schlick | dielectric.hpp:37 | the blend is r0 at normal incidence (cos 1) and 1 at grazing incidence (cos 0) |
| Dielectrics.Reflectance | dielectric.hpp:34-38 | reflectance is a number except at ratio -1 |
| Dielectrics.ReflectanceAtNormal | dielectric.hpp:34-38 | reflectance(1, r) == r0 |
| Dielectrics.ReflectanceGrazing | dielectric.hpp:34-38 | reflectance(0, r) == 1 |
| Dielectrics.NormalReflectanceBelowOne | dielectric.hpp:35-36 | for a positive ratio r0 < 1 |
| Dielectrics.ReflectanceBounds | dielectric.hpp:34-38 | for cos in [0, 1] and r > 0 the reflectance lies in [r0, 1] |
| Dielectrics.ReflectanceReciprocal | dielectric.hpp:34-38 | reflectance(c, r) == reflectance(c, 1 / r) |
| Dielectrics.RefractionRatio | dielectric.hpp:16 | 1 / index on a front face, the index otherwise |
| Dielectrics.CosTheta | dielectric.hpp:19 | cos_theta is at most 1 |
| Dielectrics.Direction | dielectric.hpp:22-25 | fails only on a front face of index 0 where sin_theta is not positive; otherwise reflects when ratio * sin_theta > 1, reflects when the reflectance exceeds the draw, and refracts when it does not or when the reflectance is NaN (ratio -1) |
| Dielectrics.Scatter | dielectric.hpp:15-31 | always scatters, unattenuated, from the hit point at the incoming time, along the direction Direction chooses; fails exactly when unit_vector fails on a zero direction or Direction fails (a front face of index 0) |
| Dielectrics.GrazingReflects | dielectric.hpp:19-25 | at cos_theta 0 the reflectance is 1, which exceeds every draw in range, so the ray is reflected |
| Dielectrics.TotalInternalReflection | dielectric.hpp:22-24 | when ratio * sin_theta > 1 the reflection is taken whatever the draw |
| Dielectrics.ScatterDefined | dielectric.hpp:15-31 | for an index other than 0 the scatter succeeds exactly on a non-zero direction |
| Dielectrics.MinusOneRefracts | dielectric.hpp:22-25 | glass of index -1 refracts wherever refraction is possible: its NaN reflectance exceeds no draw |
| Dielectrics.UnitRatioRefracts | dielectric.hpp:20-23 | with ratio 1 the total-internal-reflection test never fires |
| Dielectrics.IndexOneNeverTotal | dielectric.hpp:16-23 | glass of index 1 with a unit normal never reflects totally |
| Dielectrics.ScatterInto | dielectric.hpp:15-31 | the out-parameters and verdict are those of Scatter |
| Dielectrics.ChooseDirection | dielectric.hpp:22-25 | the branch the source computes is Direction |
| Image.ColorClamp | image.hpp:7-15 | the result is in [0, 255], the identity there, 0 below and 255 above |
| Image.ClampMonotone | image.hpp:7-15 | the clamp is monotone |
| Image.ClampIdempotent | image.hpp:7-15 | clamping twice is clamping once |
| Image.ClampNearest | image.hpp:7-15 | the clamp is the nearest value in [0, 255] |
| Integrator.Scatter | material.hpp:9 | the virtual scatter: the ray leaves from the hit point; only a metal may absorb; a well-formed material's attenuation is a colour in [0, 1] |
| Integrator.SampledDrawInRange | utils.hpp:35-41 | a draw made of random_in_unit_sphere's point and a random_double value in [0, 1) meets DrawInRange |
| Integrator.Sky | main.cpp:42-44 | the sky colour fails exactly when unit_vector of the direction throws |
| Integrator.SkyBetween | main.cpp:42-44 | the sky lies between white and light blue: red in [0.5, 1], green in [0.7, 1], blue 1 |
| Integrator.StraightUp | main.cpp:27-44 | a miss straight up is light blue |
| Integrator.StraightDown | main.cpp:27-44 | a miss straight down is white |
| Integrator.ZeroDirection | main.cpp:42 | a miss with a zero direction throws |
| Integrator.RayColor | main.cpp:26-45 | ray_color (depth 1 by default): with depth <= 0 the colour is black, without querying the world |
| Integrator.MissIsSky | main.cpp:33-44 | a miss of the world on [0.01, +infinity) is the sky, whatever the depth left and the draws |
| Integrator.EmptyWorldIsSky | main.cpp:33-44 | an empty world is all sky |
| Integrator.LastBounceIsBlack | main.cpp:30-38 | with one level left, a hit is black |
| Integrator.Level | main.cpp:33-44 | a level with depth left queries the world successfully; a miss is the sky; a hit carries a material |
| Integrator.HitLevel | main.cpp:35-39 | a hit is black when absorbed, and the attenuation times the next level's colour when it scatters |
| Integrator.ColorInUnitCube | main.cpp:26-45 | in a scene whose albedos are colours in [0, 1], every colour ray_color computes is in [0, 1] |

## Left out

- IEEE arithmetic: rounding, `float` narrowing (`vec3` stores `float`, `ray::at` takes `float`) and mixed precision. Coordinates are reals. NaN is an error outcome, and infinities appear only where the slab test and the world query use them.
- `sqrt`, `sin`, `pi`, `reflect`, `vec3::operator[]`, `vec3::zero()` and a sphere's `bounding_box`: uninterpreted. The repository defines none of `reflect`, `operator[]`, `zero()` or the sphere box. `sqrt` and `sin` cannot be computed exactly over the reals.
- The random generator (`random_double`, `random_int`, `vec3_random`): its draws are parameters. `Noise.MakePermutation` requires only that each draw lie in [0, 255], which includes the range [0, i] that `random_int(0, i)` is meant to give at step i. The model therefore does not state that step i swaps only within [0, i]; the function-local static distribution makes that range unprovable from the source.
- `write_color`, the PPM output, the render loop with its OpenMP parallelism, the camera and the scene assembly of main.cpp: I/O, concurrency and scene data.
- Memory management: `new[]`/`delete[]`, the Perlin destructor and `shared_ptr` reference counts. Arrays and datatype values stand for them.
- A texture-built `lambertian` and sphere velocity, used by the scene assembly but defined nowhere.
- `std::sort`'s own order among equal keys: `Bvh.SortByKey` is an insertion sort, one of the orders std::sort may yield. The properties proved about it (sorted, a permutation, leaves kept) hold for any such order.
- Vectors.Vec3Cell.DivAssign: requires c != 0; the source divides by zero and continues with infinities.
- Vectors.DivIsScaleByInverse: requires t != 0 for the same reason.
- Bvh.Build: requires start < end, where the source recurses without end, and requires a box for every object of a range of more than two, without which the comparator is not a strict weak order and std::sort is undefined.
- Dielectrics.NormalReflectance: requires a ratio other than -1, where the source divides by zero.
- Dielectrics.RefractionRatio: requires index != 0 on a front face, where the source computes 1 / 0; `Dielectrics.Direction` models that infinite ratio itself.
- Rectangles.Uv: a zero width or height stops the model with `NotANumber`, where the source stores a NaN or an infinite u or v and renders on (no material of the model reads u or v).
- Rectangles.Intersect: a zero direction component along the plane is taken as a positive zero when deciding the sign of the infinite crossing parameter.
- Integrator.RayColor: the draw of each bounce is `draws(depth)`, one per level, rather than the generator's running stream.
- Scene.NodeNearest: stated for a node whose two children are primitives, not for nested nodes.
- Scene.ListNearest: stated for a list of primitives, not for lists holding nodes or lists.
