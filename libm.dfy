/**
 * The C math library functions the core calls. `sqrt` and `sin` cannot be computed exactly
 * over the reals, so they are uninterpreted constants; the only facts about them are the
 * predicates below, which lemmas take as hypotheses where a proof needs them.
 * `fabs`, `fmin`, `fmax` and `pow(x, 5)` are defined exactly.
 */
module Libm {

  /** std::sqrt */
  const Sqrt: real -> real
  /** std::sin */
  const Sin: real -> real
  /** The constant pi, used only to state the checker texture's period. */
  const Pi: real

  /** sqrt returns the non-negative square root of a non-negative argument. */
  ghost predicate SqrtIsRoot()
  {
    forall x: real :: 0.0 <= x ==> 0.0 <= Sqrt(x) && Sqrt(x) * Sqrt(x) == x
  }

  /** sin is anti-periodic with half-period pi. */
  ghost predicate SinShiftsByPi()
  {
    0.0 < Pi && forall x: real :: Sin(x + Pi) == -Sin(x)
  }

  function Abs(x: real): (r: real)
    ensures 0.0 <= r && (r == x || r == -x)
  {
    if x < 0.0 then -x else x
  }

  function Min(a: real, b: real): (r: real)
    ensures r <= a && r <= b && (r == a || r == b)
  {
    if a <= b then a else b
  }

  function Max(a: real, b: real): (r: real)
    ensures a <= r && b <= r && (r == a || r == b)
  {
    if a <= b then b else a
  }

  /** pow(x, 5) */
  function Pow5(x: real): (r: real)
    ensures 0.0 <= x <= 1.0 ==> 0.0 <= r <= 1.0
    ensures x == 0.0 ==> r == 0.0
    ensures x == 1.0 ==> r == 1.0
  {
    if 0.0 <= x <= 1.0 then PowBounds(x, 5); Power(x, 5) else Power(x, 5)
  }

  function Power(x: real, n: nat): real
  {
    if n == 0 then 1.0 else x * Power(x, n - 1)
  }

  lemma {:induction false} PowBounds(x: real, n: nat)
    requires 0.0 <= x <= 1.0
    ensures 0.0 <= Power(x, n) <= 1.0
  {
    if n > 0 {
      PowBounds(x, n - 1);
      ProductBounds(x, Power(x, n - 1));
    }
  }

  lemma ProductBounds(a: real, b: real)
    requires 0.0 <= a <= 1.0 && 0.0 <= b <= 1.0
    ensures 0.0 <= a * b <= b
  {
  }

  /** A product of two positive numbers, named p, is positive. */
  lemma ProductPositive(a: real, b: real, p: real)
    requires 0.0 < a && 0.0 < b && p == a * b
    ensures 0.0 < p
  {
  }

  /** The square of a non-zero number is positive. */
  lemma SquarePositive(s: real, p: real)
    requires s != 0.0 && p == s * s
    ensures 0.0 < p
  {
    if s > 0.0 {
      ProductPositive(s, s, p);
    } else {
      ProductPositive(-s, -s, p);
    }
  }

  /** The square root of zero is zero, and only zero has square root zero. */
  lemma SqrtZero(x: real)
    requires SqrtIsRoot() && 0.0 <= x
    ensures Sqrt(x) == 0.0 <==> x == 0.0
  {
    var s := Sqrt(x);
    assert s * s == x;
    if s != 0.0 {
      SquarePositive(s, x);
    }
  }

  /** Two non-negative numbers with the same square are equal. */
  lemma SameSquare(s: real, a: real)
    requires 0.0 <= s && 0.0 <= a && s * s == a * a
    ensures s == a
  {
    var d := (s - a) * (s + a);
    assert d == s * s - a * a;
    if s > a {
      ProductPositive(s - a, s + a, d);
    } else if s < a {
      ProductPositive(a - s, a + s, -d);
    }
  }

  /** sqrt(c * c) == |c| */
  lemma SqrtOfSquare(c: real)
    requires SqrtIsRoot()
    ensures Sqrt(c * c) == Abs(c)
  {
    var a := Abs(c);
    assert a * a == c * c;
    SameSquare(Sqrt(c * c), a);
  }

  /** sqrt is at most 1 on [0, 1]. */
  lemma SqrtAtMostOne(x: real)
    requires SqrtIsRoot() && 0.0 <= x <= 1.0
    ensures 0.0 <= Sqrt(x) <= 1.0
  {
    var s := Sqrt(x);
    assert s * s == x;
    if s > 1.0 {
      ProductPositive(s - 1.0, s, s * s - s);
    }
  }
}
