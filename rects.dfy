/** pygame's integer rectangle `Rect(x, y, w, h)`, restricted to the attributes
    the movement, collision and camera code read and assign.

    The attributes are written once per axis: on the Horizontal axis
    `Start` is `left`/`x`, `End` is `right`, `Size` is `width` and `Center` is
    `centerx`; on the Vertical axis they are `top`/`y`, `bottom`, `height` and
    `centery`.  Assigning one of them moves the rectangle and keeps its size,
    as pygame does. */
module Rects {

  datatype Axis = Horizontal | Vertical

  function Other(axis: Axis): Axis
  {
    match axis
    case Horizontal => Vertical
    case Vertical => Horizontal
  }

  /** C's `n / 2`, which truncates toward zero (pygame computes centres in C). */
  function Half(n: int): (r: int)
    ensures n >= 0 ==> 0 <= r && r + r <= n < r + r + 2
    ensures n < 0 ==> r <= 0 && n <= r + r && r + r - 2 < n
  {
    if n >= 0 then n / 2 else -((-n) / 2)
  }

  datatype Rect = Rect(x: int, y: int, w: int, h: int)
  {
    /** Both sides are positive: the only rectangles the game builds. */
    predicate Positive()
    {
      w > 0 && h > 0
    }

    /** `left` / `top` */
    function Start(axis: Axis): int
    {
      match axis
      case Horizontal => x
      case Vertical => y
    }

    /** `width` / `height` */
    function Size(axis: Axis): int
    {
      match axis
      case Horizontal => w
      case Vertical => h
    }

    /** `right` / `bottom` */
    function End(axis: Axis): int
    {
      Start(axis) + Size(axis)
    }

    /** `centerx` / `centery` */
    function Center(axis: Axis): int
    {
      Start(axis) + Half(Size(axis))
    }

    /** Assigning `left` / `top`. */
    function WithStart(axis: Axis, s: int): (r: Rect)
      ensures r.Start(axis) == s
      ensures r.Start(Other(axis)) == Start(Other(axis))
      ensures r.w == w && r.h == h
    {
      match axis
      case Horizontal => this.(x := s)
      case Vertical => this.(y := s)
    }

    /** Assigning `right` / `bottom`. */
    function WithEnd(axis: Axis, e: int): (r: Rect)
      ensures r.End(axis) == e
      ensures r.Start(Other(axis)) == Start(Other(axis))
      ensures r.w == w && r.h == h
    {
      WithStart(axis, e - Size(axis))
    }

    /** Assigning `centerx` / `centery`. */
    function WithCenter(axis: Axis, c: int): (r: Rect)
      ensures r.Center(axis) == c
      ensures r.Start(Other(axis)) == Start(Other(axis))
      ensures r.w == w && r.h == h
    {
      WithStart(axis, c - Half(Size(axis)))
    }

    /** `colliderect`: the interiors overlap; rectangles that only share an
        edge do not collide. */
    predicate Collides(other: Rect)
    {
      x < other.x + other.w && y < other.y + other.h &&
      x + w > other.x && y + h > other.y
    }

    /** `inflate(dx, dy)`: grows the rectangle by `dx` and `dy` (shrinks it
        for negative amounts) and moves its corner back by half of each, as
        C truncates it; `InflateCenter` says where the centre ends up. */
    function Inflate(dx: int, dy: int): Rect
    {
      Rect(x - Half(dx), y - Half(dy), w + dx, h + dy)
    }
  }

  /** `inflate` keeps the centre when the size changes by an even amount.
      An odd change moves the centre by one pixel, because pygame halves the
      amount and the size separately, truncating each: growing moves it
      forward when the old size is odd, shrinking moves it back when the old
      size is even. */
  lemma {:induction false} InflateCenter(r: Rect, dx: int, dy: int, axis: Axis)
    requires r.w >= 0 && r.h >= 0 && r.w + dx >= 0 && r.h + dy >= 0
    ensures var d := r.Inflate(dx, dy).Size(axis) - r.Size(axis);
            d % 2 == 0 ==> r.Inflate(dx, dy).Center(axis) == r.Center(axis)
    ensures var d := r.Inflate(dx, dy).Size(axis) - r.Size(axis);
            d % 2 == 1 && d > 0 ==>
              r.Inflate(dx, dy).Center(axis) == r.Center(axis) + (if r.Size(axis) % 2 == 1 then 1 else 0)
    ensures var d := r.Inflate(dx, dy).Size(axis) - r.Size(axis);
            d % 2 == 1 && d < 0 ==>
              r.Inflate(dx, dy).Center(axis) == r.Center(axis) - (if r.Size(axis) % 2 == 0 then 1 else 0)
  {
  }

  /** Two rectangles that are apart, or only touch, on one axis do not
      collide, whatever they do on the other. */
  lemma ApartOnAxis(a: Rect, b: Rect, axis: Axis)
    requires a.End(axis) <= b.Start(axis) || b.End(axis) <= a.Start(axis)
    ensures !a.Collides(b) && !b.Collides(a)
  {
  }

  /** Collision means overlap on both axes: the strict inequalities the
      collision pass relies on, stated per axis. */
  lemma CollidesOnAxis(a: Rect, b: Rect, axis: Axis)
    requires a.Collides(b)
    ensures a.Start(axis) < b.End(axis) && b.Start(axis) < a.End(axis)
  {
  }
}
