/**
 * vec3.hpp: a three-component vector. The C++ struct stores `float`s; the model uses reals.
 * The free operators and `dot`, `cross`, `unit_vector` are functions on the value type
 * `Vec3`; the compound assignments, which update a vector's fields in place, are methods of
 * the class `Vec3Cell`.
 */
module Vectors {
  import opened Outcomes
  import opened Libm

  datatype Vec3 = Vec3(x: real, y: real, z: real)

  const Zero := Vec3(0.0, 0.0, 0.0)

  /** vec3::operator-() */
  function Neg(v: Vec3): (r: Vec3)
    ensures Add(v, r) == Zero
  {
    Vec3(-v.x, -v.y, -v.z)
  }

  /** operator+(vec3, vec3): the zero vector is its identity on either side. */
  function Add(u: Vec3, v: Vec3): (r: Vec3)
    ensures v == Zero ==> r == u
    ensures u == Zero ==> r == v
  {
    Vec3(u.x + v.x, u.y + v.y, u.z + v.z)
  }

  /** operator-(vec3, vec3) */
  function Sub(u: Vec3, v: Vec3): (r: Vec3)
    ensures Add(r, v) == u
  {
    Vec3(u.x - v.x, u.y - v.y, u.z - v.z)
  }

  /** operator*(vec3, vec3): the component-wise product, whose components sum to the dot product. */
  function Mul(u: Vec3, v: Vec3): (r: Vec3)
    ensures r.x + r.y + r.z == Dot(u, v)
    ensures u == Vec3(1.0, 1.0, 1.0) ==> r == v
  {
    Vec3(u.x * v.x, u.y * v.y, u.z * v.z)
  }

  /** operator*(float, vec3): the component-wise product with (t, t, t). */
  function Scale(t: real, v: Vec3): (r: Vec3)
    ensures t == 0.0 ==> r == Zero
    ensures t == 1.0 ==> r == v
  {
    Vec3(t * v.x, t * v.y, t * v.z)
  }

  /** operator*(vec3, float), which the source defines as `t * v`. */
  function ScaleRight(v: Vec3, t: real): Vec3
  {
    Scale(t, v)
  }

  /** operator/(vec3, float), which the source defines as `(1 / t) * v`. */
  function Div(v: Vec3, t: real): (r: Vec3)
    requires t != 0.0
    ensures Scale(t, r) == v
  {
    var r := Scale(1.0 / t, v);
    assert t * r.x == v.x && t * r.y == v.y && t * r.z == v.z;
    r
  }

  /** dot(u, v): zero with the zero vector on either side. */
  function Dot(u: Vec3, v: Vec3): (r: real)
    ensures u == Zero || v == Zero ==> r == 0.0
  {
    u.x * v.x + u.y * v.y + u.z * v.z
  }

  /**
   * cross(u, v), with the components in the order the source writes them: the source's
   * (x, y, z) are the (z, x, y) of the cross product, so it is the rotation (y, z, x) of
   * the result that is orthogonal to both arguments.
   */
  function Cross(u: Vec3, v: Vec3): (r: Vec3)
    ensures Dot(Vec3(r.y, r.z, r.x), u) == 0.0 && Dot(Vec3(r.y, r.z, r.x), v) == 0.0
  {
    Vec3(u.x * v.y - u.y * v.x,
         u.y * v.z - u.z * v.y,
         u.z * v.x - u.x * v.z)
  }

  function LengthSquared(v: Vec3): (r: real)
    ensures 0.0 <= r
    ensures r == 0.0 <==> v == Zero
  {
    var r := v.x * v.x + v.y * v.y + v.z * v.z;
    SquaresSumZero(v.x, v.y, v.z, r);
    r
  }

  /** length: the non-negative square root of length_squared. */
  function Length(v: Vec3): (r: real)
  {
    Sqrt(LengthSquared(v))
  }

  /**
   * unit_vector: throws `logic_error` when the length is zero, and divides by the length
   * otherwise.
   */
  function UnitVector(v: Vec3): (r: Result<Vec3>)
    ensures r.Err? <==> Length(v) == 0.0
    ensures r.Err? ==> r.error == NullVector
  {
    var length := Length(v);
    if length == 0.0 then Err(NullVector) else Ok(Div(v, length))
  }

  /**
   * vec3::operator[], which no file of the repository defines. It is left uninterpreted:
   * the lemmas that need it to read the x, y and z components say so with
   * IndexReadsComponents().
   */
  const Index: (Vec3, int) -> real

  ghost predicate IndexReadsComponents()
  {
    forall v: Vec3 :: Index(v, 0) == v.x && Index(v, 1) == v.y && Index(v, 2) == v.z
  }

  /** vec3::zero(), which no file of the repository defines; left uninterpreted. */
  const IsZero: Vec3 -> bool

  /** A sum of three squares is non-negative, and zero only when every term is. */
  lemma SquaresSumZero(a: real, b: real, c: real, s: real)
    requires s == a * a + b * b + c * c
    ensures 0.0 <= s
    ensures s == 0.0 <==> a == 0.0 && b == 0.0 && c == 0.0
  {
    var pa, pb, pc := a * a, b * b, c * c;
    assert 0.0 <= pa && 0.0 <= pb && 0.0 <= pc;
    if a != 0.0 { SquarePositive(a, pa); }
    if b != 0.0 { SquarePositive(b, pb); }
    if c != 0.0 { SquarePositive(c, pc); }
  }

  lemma DotSymmetric(u: Vec3, v: Vec3)
    ensures Dot(u, v) == Dot(v, u)
  {
  }

  lemma DotSelf(v: Vec3)
    ensures Dot(v, v) == LengthSquared(v) && 0.0 <= Dot(v, v)
  {
  }

  /** The dot product is linear in its second argument under negation. */
  lemma DotNeg(u: Vec3, v: Vec3)
    ensures Dot(u, Neg(v)) == -Dot(u, v) && Dot(Neg(u), v) == -Dot(u, v)
  {
  }

  lemma CrossSelf(u: Vec3)
    ensures Cross(u, u) == Zero
  {
  }

  lemma CrossAntiCommutative(u: Vec3, v: Vec3)
    ensures Cross(u, v) == Neg(Cross(v, u))
  {
  }

  /** The first component is `u.x*v.y - u.y*v.x`, which the textbook puts third. */
  lemma CrossComponentOrder(u: Vec3, v: Vec3)
    ensures Cross(u, v).x == u.x * v.y - u.y * v.x
    ensures Cross(Vec3(1.0, 0.0, 0.0), Vec3(0.0, 1.0, 0.0)) == Vec3(1.0, 0.0, 0.0)
  {
  }

  lemma ScaleCommutes(v: Vec3, t: real)
    ensures ScaleRight(v, t) == Scale(t, v)
  {
  }

  lemma DivIsScaleByInverse(v: Vec3, t: real)
    requires t != 0.0
    ensures Div(v, t) == Scale(1.0 / t, v)
    ensures Scale(t, Div(v, t)) == v
  {
  }

  lemma DoubleNegation(v: Vec3)
    ensures Neg(Neg(v)) == v
  {
  }

  /** Scaling a vector by k scales its squared length by k * k. */
  lemma ScaleLengthSquared(k: real, v: Vec3)
    ensures LengthSquared(Scale(k, v)) == k * k * LengthSquared(v)
  {
    assert (k * v.x) * (k * v.x) == k * k * (v.x * v.x);
    assert (k * v.y) * (k * v.y) == k * k * (v.y * v.y);
    assert (k * v.z) * (k * v.z) == k * k * (v.z * v.z);
  }

  /** Dividing a vector by a square root of its squared length gives squared length 1. */
  lemma ScaledToUnit(v: Vec3, l: real)
    requires l != 0.0 && l * l == LengthSquared(v)
    ensures LengthSquared(Scale(1.0 / l, v)) == 1.0
  {
    ScaleLengthSquared(1.0 / l, v);
    InverseSquare(l, LengthSquared(v), 1.0 / l);
  }

  lemma InverseSquare(l: real, ls: real, k: real)
    requires l != 0.0 && l * l == ls && k == 1.0 / l
    ensures k * k * ls == 1.0
  {
    assert k * l == 1.0;
    calc {
      k * k * ls;
      k * k * (l * l);
      (k * l) * (k * l);
    }
  }

  /** Over the reals, unit_vector succeeds exactly on the non-zero vectors. */
  lemma UnitVectorDefined(v: Vec3)
    requires SqrtIsRoot()
    ensures UnitVector(v).Ok? <==> v != Zero
  {
    SqrtZero(LengthSquared(v));
  }

  /** What unit_vector returns has squared length 1. */
  lemma UnitVectorIsUnit(v: Vec3)
    requires SqrtIsRoot() && UnitVector(v).Ok?
    ensures LengthSquared(UnitVector(v).value) == 1.0
  {
    var l := Length(v);
    assert l * l == LengthSquared(v) by {
      assert 0.0 <= LengthSquared(v);
    }
    assert l != 0.0;
    ScaledToUnit(v, l);
  }

  /**
   * A vector whose fields are updated in place by the compound assignments `+=`, `*=` and
   * `/=` of vec3.hpp.
   */
  class Vec3Cell {
    var x: real
    var y: real
    var z: real

    function Value(): Vec3
      reads this
    {
      Vec3(x, y, z)
    }

    constructor (v: Vec3)
      ensures Value() == v
    {
      x, y, z := v.x, v.y, v.z;
    }

    /** vec3::operator+= */
    method AddAssign(v: Vec3)
      modifies this
      ensures Value() == Add(old(Value()), v)
    {
      x := x + v.x;
      y := y + v.y;
      z := z + v.z;
    }

    /** vec3::operator*= */
    method MulAssign(c: real)
      modifies this
      ensures Value() == Scale(c, old(Value()))
    {
      x := x * c;
      y := y * c;
      z := z * c;
    }

    /** vec3::operator/=, which the source writes as `*this *= 1 / c`. */
    method DivAssign(c: real)
      requires c != 0.0
      modifies this
      ensures Value() == Div(old(Value()), c)
    {
      MulAssign(1.0 / c);
    }
  }
}
