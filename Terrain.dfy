/** Circular patches of costly terrain. */
module Terrains {
  import opened Geometry
  import opened Foods
  import Lists

  datatype Color = Green | Yellow | Red

  /** The colour of each terrain class, and the cost of travelling over it. */
  const COLOR_INDEX: seq<Color> := [Green, Yellow, Red]
  const TERRAIN_COSTS: seq<int> := [10, 15, 20]
  /** The cost of open ground. */
  const FLAT_TERRAIN_COST: int := 1

  class Terrain {
    /** Upper-left corner of the circle's bounding square. */
    var x: real
    var y: real
    const radius: real
    const color: Color

    /** A terrain patch of class `terrainType`; the colour lookup rejects any other index. */
    constructor (x0: real, y0: real, radius: real, terrainType: int)
      requires 0 <= terrainType < |COLOR_INDEX|
      ensures x == x0 && y == y0 && this.radius == radius
      ensures color == COLOR_INDEX[terrainType]
      ensures TerrainCost() == TERRAIN_COSTS[terrainType]
    {
      x, y := x0, y0;
      this.radius := radius;
      color := COLOR_INDEX[terrainType];
    }

    /** The cost of the patch's class, found back through its colour; always dearer than
        open ground. */
    function TerrainCost(): (c: int)
      ensures FLAT_TERRAIN_COST < c
      ensures c == 10 || c == 15 || c == 20
      ensures color == Green ==> c == 10
      ensures color == Yellow ==> c == 15
      ensures color == Red ==> c == 20
    {
      assert COLOR_INDEX[0] == Green && COLOR_INDEX[1] == Yellow && COLOR_INDEX[2] == Red;
      assert color == Green || color == Yellow || color == Red;
      TERRAIN_COSTS[Lists.IndexOf(COLOR_INDEX, color)]
    }

    /** The circle of diameter 2 * radius whose bounding square is anchored at (x, y). */
    function Circle(): Ellipse
      reads this
    {
      Ellipse(x, y, radius * 2.0, radius * 2.0)
    }

    function CenterX(): (c: real)
      reads this
      ensures c == x + radius
    {
      Circle().CenterX()
    }

    function CenterY(): (c: real)
      reads this
      ensures c == y + radius
    {
      Circle().CenterY()
    }

    function Center(): Point
      reads this
    {
      Point(CenterX(), CenterY())
    }

    /** Whether the circle contains the whole of the food's area. */
    predicate Contains(geo: Oracle, food: Food)
      reads this, food
    {
      geo.EllipseContainsRect(Circle(), food.area)
    }

    /** Moves the circle's anchor; radius and colour (hence cost) stay. */
    method ResetPos(nx: real, ny: real)
      modifies this`x, this`y
      ensures x == nx && y == ny
      ensures Center() == Point(nx + radius, ny + radius)
    {
      x, y := nx, ny;
    }
  }

  /** For a food whose area is current, containment is the circle containing the rectangle
      at the food's corner with the food's size. */
  lemma ContainsFoodRect(geo: Oracle, t: Terrain, food: Food)
    requires food.Valid()
    ensures t.Contains(geo, food) <==>
              geo.EllipseContainsRect(Ellipse(t.x, t.y, 2.0 * t.radius, 2.0 * t.radius),
                                      Rect(food.x, food.y, food.width as real, food.height as real))
  {
  }
}
