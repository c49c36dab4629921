/** Food pieces: a position that may be dragged, and a value that fixes the drawn size. */
module Foods {
  import opened Geometry

  /** The drawing boundary kept free along every edge of the field. */
  const MARGIN: int := 5

  /** Food types (the list a piece belongs to). */
  const DISTANCE: int := 0
  const ENERGY: int := 1

  /** The constructor's boundary rule for one coordinate: a value below the margin is raised
      to it, then a value beyond `extent - MARGIN` is lowered to that. */
  function KeepInside(v: real, extent: int): (r: real)
    requires 2 * MARGIN <= extent
    ensures MARGIN as real <= r <= (extent - MARGIN) as real
    ensures MARGIN as real <= v <= (extent - MARGIN) as real ==> r == v
    ensures v < MARGIN as real ==> r == MARGIN as real
    ensures (extent - MARGIN) as real < v ==> r == (extent - MARGIN) as real
  {
    var v' := if v < MARGIN as real then MARGIN as real else v;
    if v' > (extent - MARGIN) as real then (extent - MARGIN) as real else v'
  }

  class Food {
    /** Upper-left corner. */
    var x: real
    var y: real
    const width: int
    const height: int
    const value: int
    const foodType: int
    /** The rectangle around the drawn image. */
    var area: Rect

    /** The area is the rectangle at the current corner with the food's size. */
    ghost predicate Valid()
      reads this
    {
      area == Rect(x, y, width as real, height as real)
    }

    /** The placeholder piece: every field zero. */
    constructor Default()
      ensures x == 0.0 && y == 0.0
      ensures width == 0 && height == 0 && value == 0 && foodType == 0
      ensures Valid()
    {
      x, y := 0.0, 0.0;
      width, height, value, foodType := 0, 0, 0, 0;
      area := Rect(0.0, 0.0, 0.0, 0.0);
    }

    /** A piece whose corner is kept inside the drawing boundary, drawn three times its value. */
    constructor (x0: real, y0: real, value: int, foodType: int)
      ensures x == KeepInside(x0, WINDOW_WIDTH) && y == KeepInside(y0, WINDOW_HEIGHT)
      ensures width == 3 * value && height == 3 * value
      ensures this.value == value && this.foodType == foodType
      ensures area == Rect(x, y, width as real, height as real)
      ensures Valid()
    {
      var cx := if x0 < MARGIN as real then MARGIN as real else x0;
      if cx > (WINDOW_WIDTH - MARGIN) as real { cx := (WINDOW_WIDTH - MARGIN) as real; }
      var cy := if y0 < MARGIN as real then MARGIN as real else y0;
      if cy > (WINDOW_HEIGHT - MARGIN) as real { cy := (WINDOW_HEIGHT - MARGIN) as real; }
      x, y := cx, cy;
      width, height := value * 3, value * 3;
      this.value, this.foodType := value, foodType;
      area := Rect(cx, cy, (value * 3) as real, (value * 3) as real);
    }

    /** Moves the corner to (nx, ny) without the boundary rule and rebuilds the area there. */
    method ResetPos(nx: real, ny: real)
      modifies this`x, this`y, this`area
      ensures x == nx && y == ny
      ensures area == Rect(nx, ny, width as real, height as real)
      ensures Valid()
    {
      x, y := nx, ny;
      area := Rect(nx, ny, width as real, height as real);
    }

    function CenterX(): (c: real)
      reads this
      ensures c == x + width as real / 2.0
      ensures 0 <= width ==> x <= c <= x + width as real
    {
      (x + (x + width as real)) / 2.0
    }

    function CenterY(): (c: real)
      reads this
      ensures c == y + height as real / 2.0
      ensures 0 <= height ==> y <= c <= y + height as real
    {
      (y + (y + height as real)) / 2.0
    }

    /** The anchor the food sensors and distance vehicles aim at: the upper-left corner. */
    function Corner(): Point
      reads this
    {
      Point(x, y)
    }

    function Center(): Point
      reads this
    {
      Point(CenterX(), CenterY())
    }
  }
}
