/** The arena, the geometry the update uses, and the range contract of
    raylib's random draws. */
module Arena {

  const ScreenWidth: int := 800
  const ScreenHeight: int := 450

  /** A raylib `Vector2`, in exact arithmetic. */
  datatype Vec = Vec(x: real, y: real)

  /** The wall rule for ships, one axis at a time: a coordinate past the far
      wall `limit` is put on that wall, one more than `shipHeight` before the
      near wall is put back to 0 (not onto the allowance), any other is left. */
  function Clamp(v: real, limit: real, shipHeight: real): (r: real)
    requires 0.0 < shipHeight && 0.0 <= limit
    ensures -shipHeight <= r <= limit
    ensures -shipHeight <= v <= limit ==> r == v
    ensures r != v ==> (v > limit && r == limit) || (v < -shipHeight && r == 0.0)
  {
    if v > limit then limit
    else if v < -shipHeight then 0.0
    else v
  }

  /** Where the wall rule leaves a ship: at most `shipHeight` before the near
      walls and never past the far walls. */
  predicate InBox(p: Vec, shipHeight: real)
  {
    -shipHeight <= p.x <= ScreenWidth as real && -shipHeight <= p.y <= ScreenHeight as real
  }

  /** Both axes of the wall rule. */
  function ClampToBox(p: Vec, shipHeight: real): (r: Vec)
    requires 0.0 < shipHeight
    ensures InBox(r, shipHeight)
    ensures InBox(p, shipHeight) ==> r == p
  {
    Vec(Clamp(p.x, ScreenWidth as real, shipHeight), Clamp(p.y, ScreenHeight as real, shipHeight))
  }

  /** raylib's CheckCollisionCircles (the distance of the centres is at most
      the sum of the radii), with the square root squared away; the two
      agree whenever the sum of the radii is non-negative, as it is at
      every call. */
  predicate CirclesOverlap(c1: Vec, r1: real, c2: Vec, r2: real)
  {
    var dx := c2.x - c1.x;
    var dy := c2.y - c1.y;
    dx * dx + dy * dy <= (r1 + r2) * (r1 + r2)
  }

  lemma SquareNonNegative(t: real)
    ensures t * t >= 0.0
  {
    if t < 0.0 {
      assert t * t == (-t) * (-t);
    }
  }

  /** Concentric circles always overlap. */
  lemma ConcentricOverlap(c: Vec, r1: real, r2: real)
    ensures CirclesOverlap(c, r1, c, r2)
  {
    SquareNonNegative(r1 + r2);
  }

  /** The test does not depend on which circle comes first. */
  lemma OverlapSymmetric(c1: Vec, r1: real, c2: Vec, r2: real)
    ensures CirclesOverlap(c1, r1, c2, r2) == CirclesOverlap(c2, r2, c1, r1)
  {
    var dx := c2.x - c1.x;
    var dy := c2.y - c1.y;
    assert (c1.x - c2.x) * (c1.x - c2.x) == dx * dx;
    assert (c1.y - c2.y) * (c1.y - c2.y) == dy * dy;
    assert (r2 + r1) * (r2 + r1) == (r1 + r2) * (r1 + r2);
  }

  /** raylib's GetRandomValue(min, max) applied to one raw draw of the
      generator: a value in [min, max]. */
  function RandomValue(roll: nat, min: int, max: int): (v: int)
    requires min <= max
    ensures min <= v <= max
    ensures roll < max - min + 1 ==> v == min + roll
  {
    min + roll % (max - min + 1)
  }
}
