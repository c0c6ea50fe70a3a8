/**
 Geometry used by the canvas entities: a 2D point, a sprite-sheet sub-rectangle
 and the mutable bounding rectangle every entity owns.

 The repository's own `Vector` and `Rectangle` classes are not part of this
 model; `Rectangle` here is the smallest stand-in that the player entity needs:
 an origin, a width and a height that can be replaced in place, and a
 half-open point-containment test.
 */
module Geometry {

  /** A point or pointer coordinate. Coordinates are `real` so that halving a width is exact. */
  datatype Vector = Vector(x: real, y: real)

  /** A region of the sprite sheet (`IRect`): where a sprite sits and how large it is. */
  datatype SpriteRect = SpriteRect(x: real, y: real, w: real, h: real)

  /** The value held by a `Rectangle` at one moment. */
  datatype Box = Box(x: real, y: real, width: real, height: real)

  /** Point containment over `[x, x + width) × [y, y + height)`. */
  predicate Contains(b: Box, p: Vector)
  {
    b.x <= p.x < b.x + b.width && b.y <= p.y < b.y + b.height
  }

  /** A box of the same size as `b`, whose centre is `p`. */
  function CenteredOn(b: Box, p: Vector): (r: Box)
    ensures r.width == b.width && r.height == b.height
    ensures r.x + r.width / 2.0 == p.x && r.y + r.height / 2.0 == p.y
  {
    b.(x := p.x - b.width / 2.0, y := p.y - b.height / 2.0)
  }

  /** A box with a positive area contains its own centre, whatever the point. */
  lemma CenteredContains(b: Box, p: Vector)
    requires b.width > 0.0 && b.height > 0.0
    ensures Contains(CenteredOn(b, p), p)
  {
  }

  /** The entity's on-canvas bounds, mutated in place by its owner. */
  class Rectangle {
    var x: real
    var y: real
    var width: real
    var height: real

    function Bounds(): Box
      reads this
    {
      Box(x, y, width, height)
    }

    predicate IsPointInside(p: Vector)
      reads this
    {
      Contains(Bounds(), p)
    }

    constructor (origin: Vector, width: real, height: real)
      ensures Bounds() == Box(origin.x, origin.y, width, height)
    {
      this.x := origin.x;
      this.y := origin.y;
      this.width := width;
      this.height := height;
    }

    /** Moves the origin; the size is kept. */
    method SetPosition(x: real, y: real)
      modifies this
      ensures Bounds() == old(Bounds()).(x := x, y := y)
    {
      this.x := x;
      this.y := y;
    }

    /** Resizes; the origin is kept. */
    method SetDimensions(width: real, height: real)
      modifies this
      ensures Bounds() == old(Bounds()).(width := width, height := height)
    {
      this.width := width;
      this.height := height;
    }
  }
}
