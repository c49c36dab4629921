/** The field and the vehicles on it. The two refer to each other (every vehicle knows its
    field, the field lists its vehicles), so they share one module. */
module World {
  import opened Geometry
  import opened JavaMath
  import opened Wrappers
  import opened Lists
  import opened Selection
  import opened Foods
  import opened Terrains
  import opened EnergyBars
  import opened Planning
  import opened Kinematics

  /** The energy a vehicle starts with. */
  const INITIAL_ENERGY: real := 50.0
  /** Food values are drawn from [MIN_FOOD_VALUE, MAX_FOOD_VALUE). */
  const MIN_FOOD_VALUE: int := 5
  const MAX_FOOD_VALUE: int := 10

  /** The random values one food refill draws: a corner for each of the two pieces and their
      common value. */
  datatype FoodDraw = FoodDraw(x1: int, y1: int, x2: int, y2: int, value: int)
  {
    predicate InRange()
    {
      && 0 <= x1 < WINDOW_WIDTH && 0 <= y1 < WINDOW_HEIGHT
      && 0 <= x2 < WINDOW_WIDTH && 0 <= y2 < WINDOW_HEIGHT
      && MIN_FOOD_VALUE <= value < MAX_FOOD_VALUE
    }
  }

  /** The random values a replacement vehicle is placed with: its corner and its heading in
      whole degrees. */
  datatype SpawnDraw = SpawnDraw(x: int, y: int, degrees: int)

  /** What a vehicle's step starts from: its pose, speed and energy, its target with the
      target's area, its crossing plan, the field's eaten list, and its trail state. */
  datatype Snapshot = Snapshot(x: real, y: real, orient: real, speed: real, energy: real,
                               target: Food?, targetArea: Rect, plan: seq<Terrain>, eaten: seq<Food>,
                               stepCounter: int, pathPoints: seq<Point>)

  /** The food a selection index designates, or null. */
  function Pick(foods: seq<Food>, k: Option<nat>): (f: Food?)
    ensures f == null || f in foods
    ensures k.None? ==> f == null
    ensures k.Some? && k.value < |foods| ==> f == foods[k.value]
  {
    if k.Some? && k.value < |foods| then foods[k.value] else null
  }

  /** A target and the plan that goes with it. */
  datatype Choice = Choice(target: Food?, plan: seq<Terrain>)

  /** What target selection picks from `from`: the food of the own list with the largest
      positive net gain (the earliest on a tie) or null and, for an energy vehicle, the
      picked food's crossing list, or the plan held before (`oldPlan`) when none is picked. */
  function BestChoice(geo: Oracle, kind: VehicleType, from: Point, distanceFoods: seq<Food>,
                      energyFoods: seq<Food>, terrains: seq<Terrain>, oldPlan: seq<Terrain>): (c: Choice)
    reads distanceFoods, energyFoods, terrains
    ensures c.target == null || c.target in (if kind == Distance then distanceFoods else energyFoods)
  {
    if kind == Distance then
      Choice(Pick(distanceFoods, RunningBest(DistanceGains(geo, from, distanceFoods)).index), oldPlan)
    else
      Choice(Pick(energyFoods, EnergyPick(geo, from, energyFoods, terrains)),
             if EnergyPick(geo, from, energyFoods, terrains).None? then oldPlan
             else EstimateAlong(geo, from, energyFoods[EnergyPick(geo, from, energyFoods, terrains).value], terrains).toCross)
  }

  /** The index an energy vehicle's scan picks, if any. */
  function EnergyPick(geo: Oracle, from: Point, energyFoods: seq<Food>, terrains: seq<Terrain>): (k: Option<nat>)
    reads energyFoods, terrains
    ensures k.Some? ==> k.value < |energyFoods|
  {
    RunningBest(EnergyGains(geo, from, energyFoods, terrains)).index
  }

  /** Nothing target selection depends on changed between two states. */
  twostate lemma BestChoiceFrame(new geo: Oracle, new kind: VehicleType, new from: Point, distanceFoods: seq<Food>,
                                 new energyFoods: seq<Food>, new terrains: seq<Terrain>, new oldPlan: seq<Terrain>)
    requires old(allocated(energyFoods)) && old(allocated(terrains)) && old(allocated(oldPlan))
    requires forall f :: f in distanceFoods ==> unchanged(f)
    requires forall e :: e in energyFoods ==> unchanged(e)
    requires forall t :: t in terrains ==> unchanged(t)
    ensures old(BestChoice(geo, kind, from, distanceFoods, energyFoods, terrains, oldPlan))
            == BestChoice(geo, kind, from, distanceFoods, energyFoods, terrains, oldPlan)
  {
    if kind == Distance {
      DistanceGainsFrame(geo, from, distanceFoods);
    } else {
      EnergyGainsFrame(geo, from, energyFoods, terrains);
      if EnergyPick(geo, from, energyFoods, terrains).Some? {
        EstimateAlongFrameAt(geo, from, energyFoods, terrains, EnergyPick(geo, from, energyFoods, terrains).value);
      }
    }
  }

  /** A food sensor reads the distance to the target's corner, 0 with no target. */
  function FoodSensorReading(geo: Oracle, sensor: Point, target: Food?): (r: real)
    reads target
    ensures 0.0 <= r
    ensures target == null ==> r == 0.0
  {
    if target != null then geo.Distance(sensor, target.Corner()) else 0.0
  }

  // ----- Which shapes contain a pressed point -----

  function VehicleHits(geo: Oracle, p: Point, vs: seq<Vehicle>): (h: seq<bool>)
    reads vs
    ensures |h| == |vs|
    ensures forall i :: 0 <= i < |vs| ==> h[i] == geo.PolygonContains(vs[i].layout.Corners(), p)
    decreases |vs|
  {
    if |vs| == 0 then []
    else
      var n := |vs| - 1;
      VehicleHits(geo, p, vs[..n]) + [geo.PolygonContains(vs[n].layout.Corners(), p)]
  }

  function FoodHits(geo: Oracle, p: Point, fs: seq<Food>): (h: seq<bool>)
    reads fs
    ensures |h| == |fs|
    ensures forall i :: 0 <= i < |fs| ==> h[i] == geo.RectContains(fs[i].area, p)
    decreases |fs|
  {
    if |fs| == 0 then []
    else
      var n := |fs| - 1;
      FoodHits(geo, p, fs[..n]) + [geo.RectContains(fs[n].area, p)]
  }

  function TerrainHits(geo: Oracle, p: Point, ts: seq<Terrain>): (h: seq<bool>)
    reads ts
    ensures |h| == |ts|
    ensures forall i :: 0 <= i < |ts| ==> h[i] == geo.EllipseContains(ts[i].Circle(), p)
    decreases |ts|
  {
    if |ts| == 0 then []
    else
      var n := |ts| - 1;
      TerrainHits(geo, p, ts[..n]) + [geo.EllipseContains(ts[n].Circle(), p)]
  }

  /** The two pieces one refill draw yields: distinct, of the drawn value, a distance and an
      energy piece at the drawn corners kept inside the window, each with its area in place. */
  ghost predicate RefillPair(df: Food, ef: Food, d: FoodDraw)
    reads df, ef
  {
    && df != ef
    && df.value == d.value && ef.value == d.value
    && df.foodType == DISTANCE && ef.foodType == ENERGY
    && df.x == KeepInside(d.x1 as real, WINDOW_WIDTH) && df.y == KeepInside(d.y1 as real, WINDOW_HEIGHT)
    && ef.x == KeepInside(d.x2 as real, WINDOW_WIDTH) && ef.y == KeepInside(d.y2 as real, WINDOW_HEIGHT)
    && df.Valid() && ef.Valid()
  }

  class Field {
    var vehicles: seq<Vehicle>
    var energyFoods: seq<Food>
    var distanceFoods: seq<Food>
    var terrains: seq<Terrain>
    var eatenFoods: seq<Food>
    /** Index of the selected entity in its list, -1 when none is selected. */
    var chosenVehicleNo: int
    var chosenDistanceFoodNo: int
    var chosenEnergyFoodNo: int
    var chosenTerrainNo: int
    var deadVehicleCount: int

    /** An empty field with nothing selected. */
    constructor ()
      ensures vehicles == [] && energyFoods == [] && distanceFoods == [] && terrains == []
      ensures eatenFoods == [] && deadVehicleCount == 0
      ensures Selected() == NONE_CHOSEN
    {
      vehicles, energyFoods, distanceFoods, terrains, eatenFoods := [], [], [], [], [];
      deadVehicleCount := 0;
      new;
      ClearSelection();
    }

    function Selected(): Chosen
      reads this
    {
      Chosen(chosenVehicleNo, chosenDistanceFoodNo, chosenEnergyFoodNo, chosenTerrainNo)
    }

    /** Whether every vehicle has died, as counted by the deaths so far. */
    function AllDead(): (b: bool)
      reads this
      ensures b <==> deadVehicleCount == |vehicles|
    {
      if deadVehicleCount == |vehicles| then true else false
    }

    method ClearSelection()
      modifies this`chosenVehicleNo, this`chosenDistanceFoodNo, this`chosenEnergyFoodNo, this`chosenTerrainNo
      ensures Selected() == NONE_CHOSEN
    {
      chosenVehicleNo := -1;
      chosenEnergyFoodNo := -1;
      chosenDistanceFoodNo := -1;
      chosenTerrainNo := -1;
    }

    /** A press at (px, py) selects the first vehicle whose body contains the point, else the
        first distance food, else the first energy food, else the first terrain patch. */
    method MousePressed(geo: Oracle, px: int, py: int)
      modifies this`chosenVehicleNo, this`chosenDistanceFoodNo, this`chosenEnergyFoodNo, this`chosenTerrainNo
      ensures var p := Point(px as real, py as real);
              Selected() == PressChoice(old(VehicleHits(geo, p, vehicles)), old(FoodHits(geo, p, distanceFoods)),
                                        old(FoodHits(geo, p, energyFoods)), old(TerrainHits(geo, p, terrains)))
    {
      var point := Point(px as real, py as real);
      ghost var vh, dh := VehicleHits(geo, point, vehicles), FoodHits(geo, point, distanceFoods);
      ghost var eh, th := FoodHits(geo, point, energyFoods), TerrainHits(geo, point, terrains);
      ClearSelection();
      var found := false;

      if !found {
        var i := 0;
        while i < |vehicles|
          invariant 0 <= i <= |vehicles|
          invariant forall j :: 0 <= j < i ==> !vh[j]
          invariant Selected() == NONE_CHOSEN
        {
          if geo.PolygonContains(vehicles[i].layout.Corners(), point) {
            chosenVehicleNo := i;
            found := true;
            break;
          }
          i := i + 1;
        }
      }
      assert found ==> Selected() == Chosen(FirstHit(vh), -1, -1, -1);
      assert !found ==> NoHit(vh) && Selected() == NONE_CHOSEN;

      if !found {
        var i := 0;
        while i < |distanceFoods|
          invariant 0 <= i <= |distanceFoods|
          invariant forall j :: 0 <= j < i ==> !dh[j]
          invariant Selected() == NONE_CHOSEN
        {
          if geo.RectContains(distanceFoods[i].area, point) {
            chosenDistanceFoodNo := i;
            found := true;
            break;
          }
          i := i + 1;
        }
        assert found ==> Selected() == Chosen(-1, FirstHit(dh), -1, -1);
        assert !found ==> NoHit(dh) && Selected() == NONE_CHOSEN;
      }

      if !found {
        var i := 0;
        while i < |energyFoods|
          invariant 0 <= i <= |energyFoods|
          invariant forall j :: 0 <= j < i ==> !eh[j]
          invariant Selected() == NONE_CHOSEN
        {
          if geo.RectContains(energyFoods[i].area, point) {
            chosenEnergyFoodNo := i;
            found := true;
            break;
          }
          i := i + 1;
        }
        assert found ==> Selected() == Chosen(-1, -1, FirstHit(eh), -1);
        assert !found ==> NoHit(eh) && Selected() == NONE_CHOSEN;
      }

      if !found {
        var i := 0;
        while i < |terrains|
          invariant 0 <= i <= |terrains|
          invariant forall j :: 0 <= j < i ==> !th[j]
          invariant Selected() == NONE_CHOSEN
        {
          if geo.EllipseContains(terrains[i].Circle(), point) {
            chosenTerrainNo := i;
            found := true;
            break;
          }
          i := i + 1;
        }
        assert Selected() == Chosen(-1, -1, -1, FirstHit(th));
      }
      assert Selected() == PressChoice(vh, dh, eh, th);
    }

    /** What a drag may move: the pose and derived geometry of the selected vehicle, the
        position of the selected food pieces and of the selected patch, and nothing else. */
    function DraggedVehicles(): set<Vehicle>
      requires chosenVehicleNo < |vehicles|
      reads this
    {
      if 0 <= chosenVehicleNo then {vehicles[chosenVehicleNo]} else {}
    }

    function DraggedFoods(): set<Food>
      requires chosenDistanceFoodNo < |distanceFoods| && chosenEnergyFoodNo < |energyFoods|
      reads this
    {
      (if 0 <= chosenDistanceFoodNo then {distanceFoods[chosenDistanceFoodNo]} else {})
      + (if 0 <= chosenEnergyFoodNo then {energyFoods[chosenEnergyFoodNo]} else {})
    }

    function DraggedTerrains(): set<Terrain>
      requires chosenTerrainNo < |terrains|
      reads this
    {
      if 0 <= chosenTerrainNo then {terrains[chosenTerrainNo]} else {}
    }

    /** A drag to (ex, ey) moves every selected entity there; the lists themselves, every
        unselected entity and everything but a selected entity's position stay as they were.
        The selected indices must lie within their lists, as the list lookups demand. */
    method MouseDragged(geo: Oracle, ex: int, ey: int)
      requires chosenVehicleNo < |vehicles| && chosenDistanceFoodNo < |distanceFoods|
      requires chosenEnergyFoodNo < |energyFoods| && chosenTerrainNo < |terrains|
      modifies DraggedVehicles()`positionX, DraggedVehicles()`positionY, DraggedVehicles()`layout
      modifies DraggedVehicles()`centerX, DraggedVehicles()`centerY
      modifies DraggedFoods()`x, DraggedFoods()`y, DraggedFoods()`area
      modifies DraggedTerrains()`x, DraggedTerrains()`y
      ensures 0 <= chosenVehicleNo ==>
                var v := vehicles[chosenVehicleNo];
                v.positionX == ex as real && v.positionY == ey as real && v.LayoutIsCurrent(geo)
      ensures 0 <= chosenDistanceFoodNo ==>
                var f := distanceFoods[chosenDistanceFoodNo];
                f.x == ex as real && f.y == ey as real && f.Valid()
      ensures 0 <= chosenEnergyFoodNo ==>
                var f := energyFoods[chosenEnergyFoodNo];
                f.x == ex as real && f.y == ey as real && f.Valid()
      ensures 0 <= chosenTerrainNo ==>
                var t := terrains[chosenTerrainNo];
                t.x == ex as real && t.y == ey as real
    {
      if chosenVehicleNo >= 0 {
        var chosenVehicle := vehicles[chosenVehicleNo];
        chosenVehicle.ResetPos(geo, ex as real, ey as real);
      }
      if chosenDistanceFoodNo >= 0 {
        var chosenFood := distanceFoods[chosenDistanceFoodNo];
        chosenFood.ResetPos(ex as real, ey as real);
      }
      if chosenEnergyFoodNo >= 0 {
        var chosenFood := energyFoods[chosenEnergyFoodNo];
        chosenFood.ResetPos(ex as real, ey as real);
      }
      if chosenTerrainNo >= 0 {
        var chosenTerrain := terrains[chosenTerrainNo];
        chosenTerrain.ResetPos(ex as real, ey as real);
      }
    }

    /** One refill: a distance piece and an energy piece of the same value. */
    method AddFood(d: FoodDraw)
      modifies this`distanceFoods, this`energyFoods
      ensures |distanceFoods| == |old(distanceFoods)| + 1 && distanceFoods[..|old(distanceFoods)|] == old(distanceFoods)
      ensures |energyFoods| == |old(energyFoods)| + 1 && energyFoods[..|old(energyFoods)|] == old(energyFoods)
      ensures var df, ef := distanceFoods[|distanceFoods| - 1], energyFoods[|energyFoods| - 1];
              fresh(df) && fresh(ef) && RefillPair(df, ef, d)
      ensures d.InRange() ==> MIN_FOOD_VALUE <= distanceFoods[|distanceFoods| - 1].value <= 9
    {
      var df := new Food(d.x1 as real, d.y1 as real, d.value, DISTANCE);
      distanceFoods := distanceFoods + [df];
      var ef := new Food(d.x2 as real, d.y2 as real, d.value, ENERGY);
      energyFoods := energyFoods + [ef];
    }

    /** A timed refill: `refillAmount` calls of AddFood, one per draw, none when the amount
        is not positive. */
    method FoodDrop(refillAmount: int, draws: seq<FoodDraw>)
      requires refillAmount <= |draws|
      modifies this`distanceFoods, this`energyFoods
      ensures var n := if refillAmount < 0 then 0 else refillAmount;
              && |distanceFoods| == |old(distanceFoods)| + n
              && |energyFoods| == |old(energyFoods)| + n
              && distanceFoods[..|old(distanceFoods)|] == old(distanceFoods)
              && energyFoods[..|old(energyFoods)|] == old(energyFoods)
              && (forall i :: 0 <= i < n ==>
                    var df, ef := distanceFoods[|old(distanceFoods)| + i], energyFoods[|old(energyFoods)| + i];
                    fresh(df) && fresh(ef) && RefillPair(df, ef, draws[i]))
    {
      var i := 0;
      while i < refillAmount
        invariant 0 <= i <= (if refillAmount < 0 then 0 else refillAmount)
        invariant |distanceFoods| == |old(distanceFoods)| + i && |energyFoods| == |old(energyFoods)| + i
        invariant distanceFoods[..|old(distanceFoods)|] == old(distanceFoods)
        invariant energyFoods[..|old(energyFoods)|] == old(energyFoods)
        invariant forall k :: 0 <= k < i ==>
                    var df, ef := distanceFoods[|old(distanceFoods)| + k], energyFoods[|old(energyFoods)| + k];
                    fresh(df) && fresh(ef) && RefillPair(df, ef, draws[k])
      {
        ghost var ds, es := distanceFoods, energyFoods;
        AddFood(draws[i]);
        assert forall j :: 0 <= j < |ds| ==> distanceFoods[j] == ds[j];
        assert forall j :: 0 <= j < |es| ==> energyFoods[j] == es[j];
        i := i + 1;
      }
    }
  }

  class Vehicle {
    const field: Field
    const energyBar: EnergyBar
    const vehicleType: VehicleType
    const vehicleSize: int
    const bodyWidth: int
    const bodyHeight: int
    /** Left sensor position and heading: the pose everything else is derived from. */
    var positionX: real
    var positionY: real
    var orientInRadians: real
    /** Sensors, wheels and body corners, and the body's centre. */
    var layout: Layout
    var centerX: real
    var centerY: real
    var speed: real
    var energy: real
    var targetFood: Food?
    var deceased: bool
    /** The patches the current plan crosses rather than avoids. */
    var terrainToCross: seq<Terrain>
    /** The trail, a point every PATH_POINT_INTERVAL steps. */
    var pathPoints: seq<Point>
    var stepCounter: int
    var recordPoint: bool

    /** Between steps the counter is within the interval and no point is pending. */
    ghost predicate Valid()
      reads this`stepCounter, this`recordPoint
    {
      0 <= stepCounter < PATH_POINT_INTERVAL && !recordPoint
    }

    /** The derived geometry matches the pose. */
    ghost predicate LayoutIsCurrent(geo: Oracle)
      reads this`layout, this`positionX, this`positionY, this`orientInRadians, this`centerX, this`centerY
    {
      && layout == LayoutAt(geo, positionX, positionY, orientInRadians, bodyWidth, bodyHeight)
      && Point(centerX, centerY) == layout.Centre()
    }

    /** A new vehicle with its left sensor at (x, y), heading `orient`, full speed and the
        initial energy, its bar floating a third of its size above and left of the sensor. */
    constructor (geo: Oracle, x: real, y: real, orient: real, vehicleType: VehicleType, field: Field, size: int)
      ensures positionX == x && positionY == y && orientInRadians == orient
      ensures this.vehicleType == vehicleType && this.field == field && vehicleSize == size
      ensures bodyWidth == IntCast(size as real * 0.5) && bodyHeight == IntCast(size as real * 0.75)
      ensures speed == DEFAULT_SPEED && energy == INITIAL_ENERGY
      ensures targetFood == null && !deceased && terrainToCross == [] && pathPoints == []
      ensures fresh(energyBar) && energyBar.value == INITIAL_ENERGY
      ensures energyBar.x == x - IntDiv(size, 3) as real && energyBar.y == y - IntDiv(size, 3) as real
      ensures stepCounter == 0 && Valid() && LayoutIsCurrent(geo)
    {
      positionX, positionY, orientInRadians := x, y, orient;
      this.vehicleType, this.field, vehicleSize := vehicleType, field, size;
      speed := DEFAULT_SPEED;
      energy := INITIAL_ENERGY;
      energyBar := new EnergyBar(x - IntDiv(size, 3) as real, y - IntDiv(size, 3) as real, INITIAL_ENERGY);
      var w, h := IntCast(size as real * 0.5), IntCast(size as real * 0.75);
      bodyWidth, bodyHeight := w, h;
      var l := LayoutAt(geo, x, y, orient, w, h);
      layout := l;
      centerX, centerY := l.Centre().x, l.Centre().y;
      targetFood := null;
      deceased := false;
      terrainToCross := [];
      pathPoints := [];
      stepCounter := 0;
      recordPoint := false;
    }

    /** Recomputes sensors, wheels, body corners and centre from the pose. */
    method UpdateLayout(geo: Oracle)
      modifies this`layout, this`centerX, this`centerY
      ensures LayoutIsCurrent(geo)
    {
      layout := LayoutAt(geo, positionX, positionY, orientInRadians, bodyWidth, bodyHeight);
      centerX := layout.Centre().x;
      centerY := layout.Centre().y;
    }

    /** Moves the left sensor to (x, y) keeping the heading. */
    method ResetPos(geo: Oracle, x: real, y: real)
      modifies this`positionX, this`positionY, this`layout, this`centerX, this`centerY
      ensures positionX == x && positionY == y
      ensures LayoutIsCurrent(geo)
    {
      positionX := x;
      positionY := y;
      UpdateLayout(geo);
    }

    // ----- Target selection -----

    /** Picks, in the vehicle's own food list, the piece with the largest positive net gain
        (the earliest on a tie), or none. An energy vehicle adopts the crossing plan of the
        piece it picks; when it picks nothing it keeps its old plan. */
    method SetTargetFood(geo: Oracle)
      modifies this`targetFood, this`terrainToCross
      ensures var from := Point(centerX, centerY);
              vehicleType == Distance ==>
                && targetFood == Pick(field.distanceFoods, RunningBest(old(DistanceGains(geo, from, field.distanceFoods))).index)
                && terrainToCross == old(terrainToCross)
      ensures var from := Point(centerX, centerY);
              var best := RunningBest(old(EnergyGains(geo, from, field.energyFoods, field.terrains))).index;
              vehicleType == Energy ==>
                && targetFood == Pick(field.energyFoods, best)
                && terrainToCross == (if best.None? then old(terrainToCross)
                                      else old(EstimateAlong(geo, from, field.energyFoods[best.value], field.terrains)).toCross)
      ensures Choice(targetFood, terrainToCross)
              == old(BestChoice(geo, vehicleType, Point(centerX, centerY), field.distanceFoods, field.energyFoods,
                                field.terrains, terrainToCross))
    {
      var from := Point(centerX, centerY);
      ghost var choice := BestChoice(geo, vehicleType, from, field.distanceFoods, field.energyFoods,
                                     field.terrains, terrainToCross);
      var target: Food?;
      if vehicleType == Distance {
        target := BestDistanceFood(geo, from);
        assert target == choice.target;
      } else {
        var plan;
        target, plan := BestEnergyFood(geo, from);
        if plan.Some? {
          terrainToCross := plan.value;
        }
        assert Choice(target, terrainToCross) == choice;
      }
      targetFood := target;
    }

    /** The distance vehicle's scan: net gain is value minus the open-ground cost of the
        straight line to the food's corner. */
    method BestDistanceFood(geo: Oracle, from: Point) returns (target: Food?)
      ensures target == Pick(field.distanceFoods, RunningBest(DistanceGains(geo, from, field.distanceFoods)).index)
    {
      target := null;
      var largestGain := 0.0;
      var foodList := field.distanceFoods;
      ghost var gains := DistanceGains(geo, from, foodList);
      DistanceGainsAreValueMinusCost(geo, from, foodList);
      var i := 0;
      while i < |foodList|
        invariant 0 <= i <= |foodList|
        invariant var b := RunningBest(gains[..i]);
                  largestGain == b.largest && target == Pick(foodList, b.index)
      {
        var curFood := foodList[i];
        var netGain := curFood.value as real - EnergyExpenditure(geo.Distance(from, curFood.Corner()), FLAT_TERRAIN_COST);
        assert gains[i] == netGain;
        RunningBestPrefixStep(gains, i);
        if netGain > largestGain {
          largestGain := netGain;
          target := curFood;
        }
        i := i + 1;
      }
      assert gains[..|foodList|] == gains;
    }

    /** The energy vehicle's scan: net gain is value minus the terrain-aware estimate; the
        plan is the crossing list of the piece picked, none when nothing is picked. */
    method BestEnergyFood(geo: Oracle, from: Point) returns (target: Food?, plan: Option<seq<Terrain>>)
      ensures var best := RunningBest(old(EnergyGains(geo, from, field.energyFoods, field.terrains))).index;
              && target == Pick(field.energyFoods, best)
              && (best.None? <==> plan.None?)
              && (best.Some? ==> plan == Some(old(EstimateAlong(geo, from, field.energyFoods[best.value], field.terrains)).toCross))
    {
      target, plan := null, None;
      var largestGain := 0.0;
      var foodList := field.energyFoods;
      var terrainList := field.terrains;
      ghost var gains := EnergyGains(geo, from, foodList, terrainList);
      forall k | 0 <= k < |foodList|
        ensures gains[k] == foodList[k].value as real - old(EstimateAlong(geo, from, foodList[k], terrainList)).cost
      {
        EnergyGainAt(geo, from, foodList, terrainList, k);
      }
      var i := 0;
      while i < |foodList|
        invariant 0 <= i <= |foodList|
        invariant var b := RunningBest(gains[..i]);
                  && largestGain == b.largest && target == Pick(foodList, b.index)
                  && (b.index.None? <==> plan.None?)
                  && (b.index.Some? ==> plan == Some(old(EstimateAlong(geo, from, foodList[b.index.value], terrainList)).toCross))
      {
        var curFood := foodList[i];
        var pathCost, pathDistance, tempTerrainToCross := EstimatePath(geo, from, curFood);
        assert EstimateAlong(geo, from, curFood, terrainList) == old(EstimateAlong(geo, from, curFood, terrainList));
        var netGain := curFood.value as real - pathCost;
        assert gains[i] == netGain;
        RunningBestPrefixStep(gains, i);
        if netGain > largestGain {
          largestGain := netGain;
          target := curFood;
          plan := Some(tempTerrainToCross);
        }
        i := i + 1;
      }
      assert gains[..|foodList|] == gains;
    }

    /** The energy vehicle's estimate for one food: start from the straight line on open
        ground, then, patch by patch in list order, account for every patch the line passes
        within the radius of, crossing it (and listing it) or going around it. */
    method EstimatePath(geo: Oracle, from: Point, curFood: Food)
      returns (pathCost: real, pathDistance: real, tempTerrainToCross: seq<Terrain>)
      ensures Estimate(pathCost, pathDistance, tempTerrainToCross) == EstimateAlong(geo, from, curFood, field.terrains)
    {
      var terrainList := field.terrains;
      tempTerrainToCross := [];
      pathDistance := geo.Distance(from, curFood.Center());
      pathCost := EnergyExpenditure(pathDistance, FLAT_TERRAIN_COST);
      var j := 0;
      while j < |terrainList|
        invariant 0 <= j <= |terrainList|
        invariant Estimate(pathCost, pathDistance, tempTerrainToCross) == EstimateAlong(geo, from, curFood, terrainList[..j])
      {
        pathCost, pathDistance, tempTerrainToCross := ScanPatch(geo, from, curFood, terrainList, j, pathCost, pathDistance, tempTerrainToCross);
        j := j + 1;
      }
      assert terrainList[..|terrainList|] == terrainList;
    }

    /** The estimate after patch `j` of `ts`, from the one before it. */
    static method ScanPatch(geo: Oracle, from: Point, curFood: Food, ts: seq<Terrain>, j: int,
                            pathCost: real, pathDistance: real, toCross: seq<Terrain>)
      returns (cost: real, distance: real, tempTerrainToCross: seq<Terrain>)
      requires 0 <= j < |ts|
      requires Estimate(pathCost, pathDistance, toCross) == EstimateAlong(geo, from, curFood, ts[..j])
      ensures Estimate(cost, distance, tempTerrainToCross) == EstimateAlong(geo, from, curFood, ts[..j + 1])
    {
      var curTerr := ts[j];
      var p := PatchOnPath(geo, from, curFood, curTerr);
      cost, distance, tempTerrainToCross := AccountFor(pathCost, pathDistance, toCross, curTerr, p);
      EstimateAlongStep(geo, from, curFood, ts, j);
    }

    /** One pass of the selection's inner loop: the patch is crossed (and listed), gone
        around, or left alone. */
    static method AccountFor(pathCost: real, pathDistance: real, toCross: seq<Terrain>, curTerr: Terrain, p: Patch)
      returns (cost: real, distance: real, tempTerrainToCross: seq<Terrain>)
      ensures Estimate(cost, distance, tempTerrainToCross) == Account(Estimate(pathCost, pathDistance, toCross), curTerr, p)
    {
      cost, distance, tempTerrainToCross := pathCost, pathDistance, toCross;
      if p.onPath {
        if p.holdsFood {
          cost := cost - EnergyExpenditure(p.chord, FLAT_TERRAIN_COST);
          cost := cost + EnergyExpenditure(p.chord, p.cost);
          tempTerrainToCross := tempTerrainToCross + [curTerr];
        } else if EnergyExpenditure(p.chord, p.cost) > EnergyExpenditure(p.arc, FLAT_TERRAIN_COST) {
          distance := distance - p.chord;
          distance := distance + p.arc;
          cost := cost - EnergyExpenditure(p.chord, FLAT_TERRAIN_COST);
          cost := cost + EnergyExpenditure(p.arc, FLAT_TERRAIN_COST);
        } else {
          cost := cost - EnergyExpenditure(p.chord, FLAT_TERRAIN_COST);
          cost := cost + EnergyExpenditure(p.chord, p.cost);
          tempTerrainToCross := tempTerrainToCross + [curTerr];
        }
      }
    }

    // ----- Sensors and wheels -----

    /** Scans the terrain list for the first patch not planned to be crossed whose boundary
        lies within range of the sensor. */
    method GetTerrainSensorReading(geo: Oracle, sensor: Point) returns (reading: real)
      ensures reading == TerrainReading(geo, sensor, field.terrains, terrainToCross)
    {
      reading := 0.0;
      var distance := 0.0;
      var terrainList := field.terrains;
      ghost var hits := SensedHits(geo, sensor, terrainList, terrainToCross);
      var i := 0;
      while i < |terrainList|
        invariant 0 <= i <= |terrainList|
        invariant forall j :: 0 <= j < i ==> !hits[j]
        invariant reading == 0.0
      {
        var curTerr := terrainList[i];
        if curTerr !in terrainToCross {
          distance := geo.Distance(sensor, curTerr.Center()) - curTerr.radius;
          if distance < TERRAIN_SENSING_RANGE {
            reading := distance * TERRAIN_READING_GAIN;
            assert FirstHit(hits) == i;
            break;
          }
        }
        i := i + 1;
      }
    }

    /** Left wheel: left food sensor, and for an energy vehicle also the right terrain sensor. */
    method CalculateLeftWheelSpeed(geo: Oracle) returns (leftSpeed: real)
      ensures leftSpeed == WheelSpeed(vehicleType, FoodSensorReading(geo, layout.leftSensor, targetFood),
                                      TerrainReading(geo, layout.rightSensor, field.terrains, terrainToCross))
      ensures vehicleType == Distance && targetFood == null ==> leftSpeed == 0.0
    {
      leftSpeed := 0.0;
      if vehicleType == Distance {
        var leftFoodReading := FoodSensorReading(geo, layout.leftSensor, targetFood);
        leftSpeed := leftFoodReading / SENSOR_DIVISOR;
      } else {
        var leftFoodReading := FoodSensorReading(geo, layout.leftSensor, targetFood);
        var rightTerrainReading := GetTerrainSensorReading(geo, layout.rightSensor);
        leftSpeed := (leftFoodReading + rightTerrainReading) / SENSOR_DIVISOR;
      }
    }

    /** Right wheel: right food sensor, and for an energy vehicle also the left terrain sensor. */
    method CalculateRightWheelSpeed(geo: Oracle) returns (rightSpeed: real)
      ensures rightSpeed == WheelSpeed(vehicleType, FoodSensorReading(geo, layout.rightSensor, targetFood),
                                       TerrainReading(geo, layout.leftSensor, field.terrains, terrainToCross))
      ensures vehicleType == Distance && targetFood == null ==> rightSpeed == 0.0
    {
      rightSpeed := 0.0;
      if vehicleType == Distance {
        var rightFoodReading := FoodSensorReading(geo, layout.rightSensor, targetFood);
        rightSpeed := rightFoodReading / SENSOR_DIVISOR;
      } else {
        var rightFoodReading := FoodSensorReading(geo, layout.rightSensor, targetFood);
        var leftTerrainReading := GetTerrainSensorReading(geo, layout.leftSensor);
        rightSpeed := (leftTerrainReading + rightFoodReading) / SENSOR_DIVISOR;
      }
    }

    /** The cost of the first listed patch that contains any body corner, 1 if none does. */
    method TerrainCostUnderBody(geo: Oracle) returns (terrainCost: int)
      ensures terrainCost == UnderfootCost(geo, layout.Corners(), field.terrains)
    {
      var terrainList := field.terrains;
      var corners := layout.Corners();
      terrainCost := FLAT_TERRAIN_COST;
      var i := 0;
      while i < |terrainList|
        invariant 0 <= i <= |terrainList|
        invariant forall k :: 0 <= k < i ==> !CoversCorner(geo, terrainList[k], corners)
        invariant terrainCost == FLAT_TERRAIN_COST
      {
        var circle := terrainList[i].Circle();
        var j := 0;
        while j < |corners|
          invariant 0 <= j <= |corners|
          invariant forall m :: 0 <= m < j ==> !geo.EllipseContains(circle, corners[m])
        {
          if geo.EllipseContains(circle, corners[j]) {
            terrainCost := terrainList[i].TerrainCost();
            assert CoversCorner(geo, terrainList[i], corners);
            break break;
          }
          j := j + 1;
        }
        i := i + 1;
      }
    }

    // ----- Eating and dying -----

    /** Takes in the food's value, records the food as eaten, and removes it from the
        vehicle's own-type list; the vehicle stops and restarts at the default speed. */
    method Eat(food: Food)
      modifies this`speed, this`energy, energyBar`value
      modifies field`eatenFoods, field`distanceFoods, field`energyFoods
      ensures energy == old(energy) + food.value as real
      ensures energyBar.value == Clamp(energy)
      ensures speed == DEFAULT_SPEED
      ensures field.eatenFoods == old(field.eatenFoods) + [food]
      ensures vehicleType == Distance ==>
                field.distanceFoods == RemoveFirst(old(field.distanceFoods), food) && field.energyFoods == old(field.energyFoods)
      ensures vehicleType == Energy ==>
                field.energyFoods == RemoveFirst(old(field.energyFoods), food) && field.distanceFoods == old(field.distanceFoods)
    {
      speed := 0.0;
      energy := energy + food.value as real;
      energyBar.SetValue(energy);
      field.eatenFoods := field.eatenFoods + [food];
      if vehicleType == Distance {
        field.distanceFoods := RemoveFirst(field.distanceFoods, food);
      } else {
        field.energyFoods := RemoveFirst(field.energyFoods, food);
      }
      speed := DEFAULT_SPEED;
    }

    /** With no energy left: stops, is marked dead and counted, is replaced by a new vehicle
        of the same type and size when auto-respawn is on, and reports whether the
        simulation must pause because every vehicle is dead. Otherwise changes nothing. */
    method CheckForDeath(geo: Oracle, autoRespawn: bool, spawn: SpawnDraw) returns (died: bool, pause: bool)
      modifies this`speed, this`deceased, field`deadVehicleCount, field`vehicles
      ensures died <==> energy <= 0.0
      ensures !died ==> && speed == old(speed) && deceased == old(deceased) && !pause
                        && field.deadVehicleCount == old(field.deadVehicleCount)
                        && field.vehicles == old(field.vehicles)
      ensures died ==> && speed == 0.0 && deceased
                       && field.deadVehicleCount == old(field.deadVehicleCount) + 1
                       && pause == field.AllDead()
      ensures died && !autoRespawn ==> field.vehicles == old(field.vehicles)
      ensures died && autoRespawn ==>
                && |field.vehicles| == |old(field.vehicles)| + 1
                && field.vehicles[..|old(field.vehicles)|] == old(field.vehicles)
                && var v := field.vehicles[|old(field.vehicles)|];
                   && fresh(v) && v.vehicleType == vehicleType && v.vehicleSize == vehicleSize && v.field == field
                   && v.positionX == spawn.x as real && v.positionY == spawn.y as real
                   && v.orientInRadians == geo.ToRadians(spawn.degrees as real)
                   && v.energy == INITIAL_ENERGY && !v.deceased && v.Valid()
    {
      died, pause := false, false;
      if energy <= 0.0 {
        speed := 0.0;
        deceased := true;
        field.deadVehicleCount := field.deadVehicleCount + 1;
        if autoRespawn {
          var v := new Vehicle(geo, spawn.x as real, spawn.y as real, geo.ToRadians(spawn.degrees as real),
                               vehicleType, field, vehicleSize);
          field.vehicles := field.vehicles + [v];
        }
        pause := field.AllDead();
        died := true;
      }
    }

    // ----- One step -----

    /** The state a step starts from. */
    function Snap(): (b: Snapshot)
      reads this`positionX, this`positionY, this`orientInRadians, this`speed, this`energy, this`targetFood
      reads this`terrainToCross, this`stepCounter, this`pathPoints, field`eatenFoods, targetFood
      ensures b.x == positionX && b.y == positionY && b.orient == orientInRadians && b.speed == speed
      ensures b.energy == energy && b.target == targetFood && b.plan == terrainToCross
      ensures b.eaten == field.eatenFoods && b.stepCounter == stepCounter && b.pathPoints == pathPoints
      ensures targetFood != null ==> b.targetArea == targetFood.area
    {
      Snapshot(positionX, positionY, orientInRadians, speed, energy, targetFood,
               if targetFood != null then targetFood.area else Rect(0.0, 0.0, 0.0, 0.0),
               terrainToCross, field.eatenFoods, stepCounter, pathPoints)
    }

    /** One step of the simulation: a vehicle out of energy dies (see CheckForDeath) and does
        nothing else; a live one takes a live step. Reports whether the simulation must pause. */
    method Step(geo: Oracle, autoRespawn: bool, spawn: SpawnDraw)
      returns (pause: bool, ghost ate: bool, ghost lspeed: real, ghost rspeed: real, ghost move: Move)
      requires Valid()
      modifies this`layout, this`centerX, this`centerY, this`speed, this`energy, energyBar`value
      modifies field`eatenFoods, field`distanceFoods, field`energyFoods, this`targetFood, this`terrainToCross
      modifies this`positionX, this`positionY, this`orientInRadians, this`stepCounter, this`recordPoint, this`pathPoints
      modifies this`deceased, field`deadVehicleCount, field`vehicles
      ensures Valid()
      ensures old(energy) <= 0.0 ==>
                && speed == 0.0 && deceased && field.deadVehicleCount == old(field.deadVehicleCount) + 1
                && pause == field.AllDead() && !ate
                && positionX == old(positionX) && positionY == old(positionY) && orientInRadians == old(orientInRadians)
                && layout == old(layout) && centerX == old(centerX) && centerY == old(centerY)
                && energy == old(energy) && energyBar.value == old(energyBar.value)
                && targetFood == old(targetFood) && terrainToCross == old(terrainToCross)
                && pathPoints == old(pathPoints) && stepCounter == old(stepCounter)
                && field.eatenFoods == old(field.eatenFoods)
                && field.distanceFoods == old(field.distanceFoods) && field.energyFoods == old(field.energyFoods)
      ensures old(energy) <= 0.0 && !autoRespawn ==> field.vehicles == old(field.vehicles)
      ensures old(energy) <= 0.0 && autoRespawn ==>
                && |field.vehicles| == |old(field.vehicles)| + 1
                && field.vehicles[..|old(field.vehicles)|] == old(field.vehicles)
                && var v := field.vehicles[|old(field.vehicles)|];
                   && fresh(v) && v.vehicleType == vehicleType && v.vehicleSize == vehicleSize && v.field == field
                   && v.positionX == spawn.x as real && v.positionY == spawn.y as real
                   && v.orientInRadians == geo.ToRadians(spawn.degrees as real)
                   && v.energy == INITIAL_ENERGY && !v.deceased && v.Valid()
      ensures 0.0 < old(energy) ==>
                && !pause && field.vehicles == old(field.vehicles)
                && field.deadVehicleCount == old(field.deadVehicleCount) && deceased == old(deceased)
                && LiveStepFrom(geo, old(Snap()), ate, lspeed, rspeed, move)
                && (!ate ==> field.distanceFoods == old(field.distanceFoods) && field.energyFoods == old(field.energyFoods))
    {
      ate, lspeed, rspeed, move := false, 0.0, 0.0, Move(0.0, 0.0, positionX, positionY);
      // CheckForDeath changes nothing and reports no death while energy is left, so its
      // test decides the branch.
      if energy <= 0.0 {
        var died;
        died, pause := CheckForDeath(geo, autoRespawn, spawn);
      } else {
        pause := false;
        ate, lspeed, rspeed, move := LiveStep(geo);
      }
    }

    /** What a live step from `b` did: refreshed the layout, ate the target if the body touched
        it, kept an uneaten target, read the wheels, travelled and paid for it. */
    ghost predicate LiveStepFrom(geo: Oracle, b: Snapshot, ate: bool, lspeed: real, rspeed: real, move: Move)
      reads this, energyBar, field, targetFood, field.terrains
    {
      // The layout was refreshed from the pose the step began with.
      && layout == LayoutAt(geo, b.x, b.y, b.orient, bodyWidth, bodyHeight)
      && Point(centerX, centerY) == layout.Centre()
      // The target was eaten exactly when the body touched it.
      && (ate <==> b.target != null && geo.PolygonIntersects(layout.Corners(), b.targetArea))
      && (ate ==> field.eatenFoods == b.eaten + [b.target] && speed == DEFAULT_SPEED)
      && (!ate ==> field.eatenFoods == b.eaten && speed == b.speed)
      // A target that is still uneaten is kept with its plan; otherwise a new one is chosen
      // from the vehicle's own list.
      && (b.target != null && !ate && b.target !in b.eaten ==> targetFood == b.target && terrainToCross == b.plan)
      && (targetFood == null || targetFood in (if vehicleType == Distance then field.distanceFoods else field.energyFoods)
          || targetFood == b.target)
      // Wheels read the refreshed sensors with the final target and plan.
      && lspeed == WheelSpeed(vehicleType, FoodSensorReading(geo, layout.leftSensor, targetFood),
                              TerrainReading(geo, layout.rightSensor, field.terrains, terrainToCross))
      && rspeed == WheelSpeed(vehicleType, FoodSensorReading(geo, layout.rightSensor, targetFood),
                              TerrainReading(geo, layout.leftSensor, field.terrains, terrainToCross))
      // Motion, trail and the energy ledger.
      && move == Displace(geo, b.orient, lspeed, rspeed, speed, b.x, b.y)
      && Pose(positionX, positionY, orientInRadians)
           == NextPose(geo, move, b.orient, lspeed, rspeed, speed, bodyWidth, layout.Corners())
      && stepCounter == NextStepCounter(b.stepCounter)
      && pathPoints == b.pathPoints + (if RecordsPoint(b.stepCounter) then [Point(move.x, move.y)] else [])
      && energy == b.energy + (if ate && b.target != null then b.target.value as real else 0.0)
                   - StepDebit(geo.Sqrt(move.dx * move.dx + move.dy * move.dy),
                               UnderfootCost(geo, layout.Corners(), field.terrains))
      && energyBar.value == Clamp(IntCast(energy) as real)
    }

    /** The body of a live step: forage, then drive. */
    method LiveStep(geo: Oracle) returns (ghost ate: bool, ghost lspeed: real, ghost rspeed: real, ghost move: Move)
      requires Valid()
      modifies this`layout, this`centerX, this`centerY, this`speed, this`energy, energyBar`value
      modifies field`eatenFoods, field`distanceFoods, field`energyFoods, this`targetFood, this`terrainToCross
      modifies this`positionX, this`positionY, this`orientInRadians, this`stepCounter, this`recordPoint, this`pathPoints
      ensures Valid()
      ensures LiveStepFrom(geo, old(Snap()), ate, lspeed, rspeed, move)
      ensures !ate ==> field.distanceFoods == old(field.distanceFoods) && field.energyFoods == old(field.energyFoods)
    {
      ghost var b := Snap();
      ate := Forage(geo);
      assert positionX == b.x && positionY == b.y && orientInRadians == b.orient;
      assert stepCounter == b.stepCounter && pathPoints == b.pathPoints;
      lspeed, rspeed, move := Drive(geo);
    }

    /** The second half of a live step: read the wheels with the current target and plan,
        then advance by them. */
    method Drive(geo: Oracle) returns (ghost lspeed: real, ghost rspeed: real, ghost move: Move)
      requires Valid()
      modifies this`energy, energyBar`value
      modifies this`positionX, this`positionY, this`orientInRadians, this`stepCounter, this`recordPoint, this`pathPoints
      ensures Valid()
      ensures lspeed == WheelSpeed(vehicleType, FoodSensorReading(geo, layout.leftSensor, targetFood),
                                   TerrainReading(geo, layout.rightSensor, field.terrains, terrainToCross))
      ensures rspeed == WheelSpeed(vehicleType, FoodSensorReading(geo, layout.rightSensor, targetFood),
                                   TerrainReading(geo, layout.leftSensor, field.terrains, terrainToCross))
      ensures move == Displace(geo, old(orientInRadians), lspeed, rspeed, speed, old(positionX), old(positionY))
      ensures Pose(positionX, positionY, orientInRadians)
                == NextPose(geo, move, old(orientInRadians), lspeed, rspeed, speed, bodyWidth, layout.Corners())
      ensures stepCounter == NextStepCounter(old(stepCounter))
      ensures pathPoints == old(pathPoints) + (if RecordsPoint(old(stepCounter)) then [Point(move.x, move.y)] else [])
      ensures energy == old(energy) - StepDebit(geo.Sqrt(move.dx * move.dx + move.dy * move.dy),
                                                UnderfootCost(geo, layout.Corners(), field.terrains))
      ensures energyBar.value == Clamp(IntCast(energy) as real)
    {
      var l, r := ReadWheels(geo);
      lspeed, rspeed := l, r;
      label Sensed:
      ghost var lay, ts, plan := layout, field.terrains, terrainToCross;
      move := Advance(geo, l, r);
      TerrainReadingFrame@Sensed(geo, lay.leftSensor, ts, plan);
      TerrainReadingFrame@Sensed(geo, lay.rightSensor, ts, plan);
    }

    /** Both wheel speeds, read from the current sensors, target and plan. */
    method ReadWheels(geo: Oracle) returns (l: real, r: real)
      ensures l == WheelSpeed(vehicleType, FoodSensorReading(geo, layout.leftSensor, targetFood),
                              TerrainReading(geo, layout.rightSensor, field.terrains, terrainToCross))
      ensures r == WheelSpeed(vehicleType, FoodSensorReading(geo, layout.rightSensor, targetFood),
                              TerrainReading(geo, layout.leftSensor, field.terrains, terrainToCross))
    {
      l := CalculateLeftWheelSpeed(geo);
      r := CalculateRightWheelSpeed(geo);
    }

    /** Travels by the wheel speeds `l` and `r` and pays for it. */
    method Advance(geo: Oracle, l: real, r: real) returns (move: Move)
      requires Valid()
      modifies this`energy, energyBar`value
      modifies this`positionX, this`positionY, this`orientInRadians, this`stepCounter, this`recordPoint, this`pathPoints
      ensures Valid()
      ensures move == Displace(geo, old(orientInRadians), l, r, speed, old(positionX), old(positionY))
      ensures Pose(positionX, positionY, orientInRadians)
                == NextPose(geo, move, old(orientInRadians), l, r, speed, bodyWidth, layout.Corners())
      ensures stepCounter == NextStepCounter(old(stepCounter))
      ensures pathPoints == old(pathPoints) + (if RecordsPoint(old(stepCounter)) then [Point(move.x, move.y)] else [])
      ensures energy == old(energy) - StepDebit(geo.Sqrt(move.dx * move.dx + move.dy * move.dy),
                                                UnderfootCost(geo, layout.Corners(), field.terrains))
      ensures energyBar.value == Clamp(IntCast(energy) as real)
    {
      move := Travel(geo, l, r);
      label Moved:
      ghost var lay, ts := layout, field.terrains;
      Debit(geo, move);
      UnderfootCostFrame@Moved(geo, lay.Corners(), ts);
    }

    /** The first half of a live step: refresh the layout from the pose, eat the target when
        the body touches it, and choose a new target when there is none or it has been eaten. */
    method Forage(geo: Oracle) returns (ghost ate: bool)
      modifies this`layout, this`centerX, this`centerY, this`speed, this`energy, energyBar`value
      modifies field`eatenFoods, field`distanceFoods, field`energyFoods, this`targetFood, this`terrainToCross
      ensures LayoutIsCurrent(geo)
      ensures ate <==> old(targetFood) != null && geo.PolygonIntersects(layout.Corners(), old(targetFood.area))
      ensures ate ==> && energy == old(energy) + old(targetFood.value) as real && speed == DEFAULT_SPEED
                      && energyBar.value == Clamp(energy)
                      && field.eatenFoods == old(field.eatenFoods) + [old(targetFood)]
      ensures !ate ==> && energy == old(energy) && speed == old(speed) && energyBar.value == old(energyBar.value)
                       && field.eatenFoods == old(field.eatenFoods)
                       && field.distanceFoods == old(field.distanceFoods) && field.energyFoods == old(field.energyFoods)
      ensures old(targetFood) != null && !ate && old(targetFood) !in old(field.eatenFoods) ==>
                targetFood == old(targetFood) && terrainToCross == old(terrainToCross)
      ensures targetFood == null || targetFood in (if vehicleType == Distance then field.distanceFoods else field.energyFoods)
              || targetFood == old(targetFood)
    {
      ate := Feed(geo);
      Retarget(geo);
    }

    /** Refreshes the layout from the pose and eats the target when the body touches it. */
    method Feed(geo: Oracle) returns (ghost ate: bool)
      modifies this`layout, this`centerX, this`centerY, this`speed, this`energy, energyBar`value
      modifies field`eatenFoods, field`distanceFoods, field`energyFoods
      ensures LayoutIsCurrent(geo)
      ensures ate <==> targetFood != null && geo.PolygonIntersects(layout.Corners(), targetFood.area)
      ensures ate ==> && energy == old(energy) + targetFood.value as real && speed == DEFAULT_SPEED
                      && energyBar.value == Clamp(energy)
                      && field.eatenFoods == old(field.eatenFoods) + [targetFood]
                      && (vehicleType == Distance ==>
                            && field.distanceFoods == RemoveFirst<Food>(old(field.distanceFoods), targetFood)
                            && field.energyFoods == old(field.energyFoods))
                      && (vehicleType == Energy ==>
                            && field.energyFoods == RemoveFirst<Food>(old(field.energyFoods), targetFood)
                            && field.distanceFoods == old(field.distanceFoods))
      ensures !ate ==> && energy == old(energy) && speed == old(speed) && energyBar.value == old(energyBar.value)
                       && field.eatenFoods == old(field.eatenFoods)
                       && field.distanceFoods == old(field.distanceFoods) && field.energyFoods == old(field.energyFoods)
    {
      UpdateLayout(geo);
      ate := false;
      if targetFood != null {
        if geo.PolygonIntersects(layout.Corners(), targetFood.area) {
          Eat(targetFood);
          ate := true;
        }
      }
    }

    /** Chooses a new target when there is none or the current one has been eaten; keeps the
        target and its plan otherwise. */
    method Retarget(geo: Oracle)
      modifies this`targetFood, this`terrainToCross
      ensures old(targetFood) != null && old(targetFood) !in field.eatenFoods ==>
                targetFood == old(targetFood) && terrainToCross == old(terrainToCross)
      ensures old(targetFood) == null || old(targetFood) in field.eatenFoods ==>
                Choice(targetFood, terrainToCross)
                == old(BestChoice(geo, vehicleType, Point(centerX, centerY), field.distanceFoods, field.energyFoods,
                                  field.terrains, terrainToCross))
      ensures targetFood == null || targetFood in (if vehicleType == Distance then field.distanceFoods else field.energyFoods)
              || targetFood == old(targetFood)
    {
      if targetFood == null || targetFood in field.eatenFoods {
        SetTargetFood(geo);
      }
    }

    /** Translation by the wheel speeds, the trail, rotation and the boundary. */
    method Travel(geo: Oracle, l: real, r: real) returns (move: Move)
      requires Valid()
      modifies this`positionX, this`positionY, this`orientInRadians, this`stepCounter, this`recordPoint, this`pathPoints
      ensures Valid()
      ensures move == Displace(geo, old(orientInRadians), l, r, old(speed), old(positionX), old(positionY))
      ensures Pose(positionX, positionY, orientInRadians)
                == NextPose(geo, move, old(orientInRadians), l, r, old(speed), bodyWidth, old(layout).Corners())
      ensures stepCounter == NextStepCounter(old(stepCounter))
      ensures pathPoints == old(pathPoints) + (if RecordsPoint(old(stepCounter)) then [Point(move.x, move.y)] else [])
    {
      // The oracle is consulted before any field changes, on copies of the fields it reads.
      var orient, sp, corners := orientInRadians, speed, layout.Corners();
      move := Displace(geo, orient, l, r, sp, positionX, positionY);
      var ds := Abs(l - r) * sp;
      var dorient := geo.AtanOfRatio(ds, bodyWidth) * TURN_MULTIPLIER;
      var inField := geo.PolygonIntersects(corners, FieldRect());
      NextPoseFrom(geo, move, orient, l, r, sp, bodyWidth, corners, dorient, inField);
      positionX, positionY := move.x, move.y;

      stepCounter := stepCounter + 1;
      if stepCounter >= PATH_POINT_INTERVAL {
        stepCounter := 0;
        recordPoint := true;
      }
      if recordPoint {
        pathPoints := pathPoints + [Point(positionX, positionY)];
        recordPoint := false;
      }

      orientInRadians := Rotate(orientInRadians, l, r, dorient);

      if !inField {
        var p := FaceInward(geo.pi, Pose(positionX, positionY, orientInRadians));
        positionX, positionY, orientInRadians := p.x, p.y, p.orient;
      }
    }

    /** The energy debit for having moved by `move`: the idle cost when it did not move,
        otherwise the travel cost over the terrain under the body. */
    method Debit(geo: Oracle, move: Move)
      modifies this`energy, energyBar`value
      ensures energy == old(energy) - StepDebit(geo.Sqrt(move.dx * move.dx + move.dy * move.dy),
                                                old(UnderfootCost(geo, layout.Corners(), field.terrains)))
      ensures energyBar.value == Clamp(IntCast(energy) as real)
    {
      var distanceTraveled := geo.Sqrt(move.dx * move.dx + move.dy * move.dy);
      if distanceTraveled == 0.0 {
        energy := energy - IDLE_COST;
      } else {
        var terrainCost := TerrainCostUnderBody(geo);
        UnderfootCostFrame(geo, layout.Corners(), field.terrains);
        energy := energy - EnergyExpenditure(distanceTraveled, terrainCost);
      }
      energyBar.SetValue(IntCast(energy) as real);
    }
  }
}
