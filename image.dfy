/** image.hpp: the clamp of a colour channel to a byte. */
module Image {

  /** color_clamp: negatives to 0, anything above 255 to 255, the rest unchanged. */
  function ColorClamp(x: int): (r: int)
    ensures 0 <= r <= 255
    ensures 0 <= x <= 255 ==> r == x
    ensures x < 0 ==> r == 0
    ensures x > 255 ==> r == 255
  {
    if x < 0 then 0 else if x > 255 then 255 else x
  }

  /** The clamp never reorders two channel values. */
  lemma ClampMonotone(x: int, y: int)
    requires x <= y
    ensures ColorClamp(x) <= ColorClamp(y)
  {
  }

  /** Clamping a clamped value changes nothing. */
  lemma ClampIdempotent(x: int)
    ensures ColorClamp(ColorClamp(x)) == ColorClamp(x)
  {
  }

  /** The clamp is the nearest value in [0, 255]. */
  lemma ClampNearest(x: int, y: int)
    requires 0 <= y <= 255
    ensures (if x < ColorClamp(x) then ColorClamp(x) - x else x - ColorClamp(x))
         <= (if x < y then y - x else x - y)
  {
  }
}
