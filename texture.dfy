/**
 * texture.hpp: a texture is a solid colour or a 3D checker that delegates to one of two
 * child textures. The shared pointers become a recursive datatype.
 */
module Textures {
  import opened Libm
  import opened Vectors

  datatype Texture =
    | SolidColor(color: Vec3)
    | Checker(even: Texture, odd: Texture)

  /** solid_color(red, green, blue): the colour constructor on three components. */
  function SolidRgb(red: real, green: real, blue: real): (t: Texture)
    ensures t.SolidColor? && t.color.x == red && t.color.y == green && t.color.z == blue
  {
    SolidColor(Vec3(red, green, blue))
  }

  /** checker_texture(even_color, odd_color): two solid children. */
  function CheckerOfColors(evenColor: Vec3, oddColor: Vec3): (t: Texture)
    ensures t.Checker? && t.even.SolidColor? && t.odd.SolidColor?
    ensures t.even.color == evenColor && t.odd.color == oddColor
  {
    Checker(SolidColor(evenColor), SolidColor(oddColor))
  }

  /** The colours at the leaves of a texture. */
  function Colors(t: Texture): set<Vec3>
  {
    match t
    case SolidColor(c) => {c}
    case Checker(even, odd) => Colors(even) + Colors(odd)
  }

  /** sin(10x) * sin(10y) * sin(10z), whose sign picks the checker's child. */
  function Sines(p: Vec3): real
  {
    Sin(10.0 * p.x) * Sin(10.0 * p.y) * Sin(10.0 * p.z)
  }

  /** The child the checker delegates to: odd where the product is negative, else even. */
  function Selected(t: Texture, p: Vec3): (child: Texture)
    requires t.Checker?
    ensures child == t.odd <==> (Sines(p) < 0.0 || t.odd == t.even)
    ensures child == t.even || child == t.odd
  {
    if Sines(p) < 0.0 then t.odd else t.even
  }

  /** texture::value: whatever the coordinates, the colour of one of the texture's leaves. */
  function Value(t: Texture, u: real, v: real, p: Vec3): (c: Vec3)
    ensures c in Colors(t)
  {
    match t
    case SolidColor(color) => color
    case Checker(even, odd) => if Sines(p) < 0.0 then Value(odd, u, v, p) else Value(even, u, v, p)
  }

  /** A solid colour ignores u, v and the point, and the two constructors agree. */
  lemma SolidIgnoresCoordinates(red: real, green: real, blue: real, u: real, v: real, p: Vec3,
                                u2: real, v2: real, p2: Vec3)
    ensures Value(SolidRgb(red, green, blue), u, v, p) == Value(SolidColor(Vec3(red, green, blue)), u2, v2, p2)
    ensures Value(SolidRgb(red, green, blue), u, v, p) == Vec3(red, green, blue)
  {
  }

  /**
   * The checker's value is its selected child's value at the same u, v and point: only p
   * decides which child, and u and v are passed through unchanged.
   */
  lemma CheckerDelegates(t: Texture, u: real, v: real, p: Vec3)
    requires t.Checker?
    ensures Value(t, u, v, p) == Value(Selected(t, p), u, v, p)
  {
  }

  /**
   * A checker of two colours takes exactly one of them: the odd colour where the product of
   * sines is negative, the even colour otherwise (a zero product included).
   */
  lemma TwoColors(evenColor: Vec3, oddColor: Vec3, u: real, v: real, p: Vec3)
    ensures var c := Value(CheckerOfColors(evenColor, oddColor), u, v, p);
      (c == evenColor || c == oddColor)
      && (Sines(p) < 0.0 ==> c == oddColor)
      && (Sines(p) >= 0.0 ==> c == evenColor)
  {
  }

  /** sin(10 (x + pi/10)) == -sin(10 x). */
  lemma ShiftedSine(x: real)
    requires SinShiftsByPi()
    ensures Sin(10.0 * (x + Pi / 10.0)) == -Sin(10.0 * x)
  {
    assert 10.0 * (x + Pi / 10.0) == 10.0 * x + Pi;
  }

  /** Negating one factor negates the product. */
  lemma NegatedFactor(a: real, b: real, c: real)
    ensures (-a) * b * c == -(a * b * c)
  {
  }

  /**
   * Moving the point by pi/10 along x negates the product of sines, so wherever the product
   * is not zero the checker switches to its other child.
   */
  lemma ShiftFlipsChild(t: Texture, p: Vec3)
    requires SinShiftsByPi()
    requires t.Checker? && t.even != t.odd && Sines(p) != 0.0
    ensures Selected(t, p.(x := p.x + Pi / 10.0)) != Selected(t, p)
  {
    var q := p.(x := p.x + Pi / 10.0);
    ShiftedSine(p.x);
    NegatedFactor(Sin(10.0 * p.x), Sin(10.0 * p.y), Sin(10.0 * p.z));
    assert Sines(q) == -Sines(p);
  }
}
