/** Sensing, steering and the per-step energy debit of a vehicle, as functions of its pose and
    the world it reads. */
module Kinematics {
  import opened Geometry
  import opened Terrains
  import opened Planning
  import opened Selection
  import JavaMath

  datatype VehicleType = Distance | Energy

  /** Normalises a sensor reading to a wheel speed. */
  const SENSOR_DIVISOR: real := 750.0
  /** Strengthens the terrain sensor's reading. */
  const TERRAIN_READING_GAIN: real := 2.5
  /** A terrain patch is sensed once its boundary is closer than this. */
  const TERRAIN_SENSING_RANGE: real := 1.0
  /** Energy spent in a step without movement. */
  const IDLE_COST: real := 0.000005
  /** Relative to how far the vehicle moves per step. */
  const DEFAULT_SPEED: real := 0.05
  /** Widens the turning radius. */
  const TURN_MULTIPLIER: real := 3.0
  /** One trail point is recorded every this many steps. */
  const PATH_POINT_INTERVAL: int := 100

  // ----- Body layout -----

  /** The sensor and wheel centres; the body rectangle has the sensors as its top corners and
      the wheels as its bottom corners. */
  datatype Layout = Layout(leftSensor: Point, rightSensor: Point, leftWheel: Point, rightWheel: Point)
  {
    /** Top-left, top-right, bottom-right, bottom-left. */
    function Corners(): (c: seq<Point>)
      ensures |c| == 4
    {
      [leftSensor, rightSensor, rightWheel, leftWheel]
    }

    /** The midpoint of the midpoints of the two sides: the centroid of the four corners. */
    function Centre(): (p: Point)
      ensures p.x == (Corners()[0].x + Corners()[1].x + Corners()[2].x + Corners()[3].x) / 4.0
      ensures p.y == (Corners()[0].y + Corners()[1].y + Corners()[2].y + Corners()[3].y) / 4.0
    {
      var c := Corners();
      Point(((c[0].x + c[3].x) / 2.0 + (c[1].x + c[2].x) / 2.0) / 2.0,
            ((c[0].y + c[3].y) / 2.0 + (c[1].y + c[2].y) / 2.0) / 2.0)
    }
  }

  /** The layout of a vehicle whose left sensor is at (x, y), heading `orient`. */
  function LayoutAt(geo: Oracle, x: real, y: real, orient: real, bodyWidth: int, bodyHeight: int): Layout
  {
    var cos, sin := geo.Cos(orient), geo.Sin(orient);
    var leftSensor := Point(x, y);
    var rightSensor := Point(x + bodyWidth as real * cos, y - bodyWidth as real * sin);
    var leftWheel := Point(leftSensor.x + bodyHeight as real * sin, leftSensor.y + bodyHeight as real * cos);
    var rightWheel := Point(leftWheel.x + bodyWidth as real * cos, leftWheel.y - bodyWidth as real * sin);
    Layout(leftSensor, rightSensor, leftWheel, rightWheel)
  }

  /** The body is a parallelogram anchored at the left sensor: the sensor side and the wheel
      side are the same vector, so are the two flanks, and the centre is the midpoint of
      both diagonals. */
  lemma LayoutAtShape(geo: Oracle, x: real, y: real, orient: real, bodyWidth: int, bodyHeight: int)
    ensures var l := LayoutAt(geo, x, y, orient, bodyWidth, bodyHeight);
            var c := l.Corners();
            && c[0] == Point(x, y)
            && c[1].x - c[0].x == c[2].x - c[3].x && c[1].y - c[0].y == c[2].y - c[3].y
            && c[3].x - c[0].x == c[2].x - c[1].x && c[3].y - c[0].y == c[2].y - c[1].y
            && l.Centre() == Point((c[0].x + c[2].x) / 2.0, (c[0].y + c[2].y) / 2.0)
            && l.Centre() == Point((c[1].x + c[3].x) / 2.0, (c[1].y + c[3].y) / 2.0)
  {
  }

  // ----- Terrain sensor: first listed patch in range that is not planned to be crossed -----

  /** Distance from a sensor to a patch's boundary (negative inside the patch). */
  function BoundaryGap(geo: Oracle, sensor: Point, t: Terrain): real
    reads t
  {
    geo.Distance(sensor, t.Center()) - t.radius
  }

  /** A patch the sensor reacts to: not planned to be crossed, boundary within range. */
  predicate Sensed(geo: Oracle, sensor: Point, t: Terrain, toCross: seq<Terrain>)
    reads t
  {
    t !in toCross && BoundaryGap(geo, sensor, t) < TERRAIN_SENSING_RANGE
  }

  function SensedHits(geo: Oracle, sensor: Point, ts: seq<Terrain>, toCross: seq<Terrain>): (h: seq<bool>)
    reads ts
    ensures |h| == |ts|
    ensures forall i :: 0 <= i < |ts| ==>
              h[i] == Sensed(geo, sensor, ts[i], toCross)
    decreases |ts|
  {
    if |ts| == 0 then []
    else
      var n := |ts| - 1;
      SensedHits(geo, sensor, ts[..n], toCross)
        + [Sensed(geo, sensor, ts[n], toCross)]
  }

  /** The terrain reading: 2.5 times the boundary gap of the first sensed patch, or 0. */
  function TerrainReading(geo: Oracle, sensor: Point, ts: seq<Terrain>, toCross: seq<Terrain>): (r: real)
    reads ts
    ensures r < TERRAIN_READING_GAIN * TERRAIN_SENSING_RANGE
  {
    var k := FirstHit(SensedHits(geo, sensor, ts, toCross));
    if k < 0 then 0.0 else TERRAIN_READING_GAIN * BoundaryGap(geo, sensor, ts[k])
  }

  /** The reading comes from the first listed patch that is not to be crossed and whose
      boundary is within range, and is 0 when there is no such patch. */
  lemma TerrainReadingIsFirstSensed(geo: Oracle, sensor: Point, ts: seq<Terrain>, toCross: seq<Terrain>)
    ensures (forall i :: 0 <= i < |ts| ==> !Sensed(geo, sensor, ts[i], toCross))
            ==> TerrainReading(geo, sensor, ts, toCross) == 0.0
    ensures forall k :: 0 <= k < |ts| && Sensed(geo, sensor, ts[k], toCross)
                        && (forall j :: 0 <= j < k ==> !Sensed(geo, sensor, ts[j], toCross))
                        ==> TerrainReading(geo, sensor, ts, toCross) == TERRAIN_READING_GAIN * BoundaryGap(geo, sensor, ts[k])
  {
    var hits := SensedHits(geo, sensor, ts, toCross);
    var k := FirstHit(hits);
    forall k' | 0 <= k' < |ts| && Sensed(geo, sensor, ts[k'], toCross)
                && (forall j :: 0 <= j < k' ==> !Sensed(geo, sensor, ts[j], toCross))
      ensures k == k'
    {
      assert hits[k'];
    }
  }

  // ----- Terrain underfoot: first listed patch containing any body corner -----

  predicate CoversCorner(geo: Oracle, t: Terrain, corners: seq<Point>)
    reads t
  {
    exists j :: 0 <= j < |corners| && geo.EllipseContains(t.Circle(), corners[j])
  }

  function UnderfootHits(geo: Oracle, corners: seq<Point>, ts: seq<Terrain>): (h: seq<bool>)
    reads ts
    ensures |h| == |ts|
    ensures forall i :: 0 <= i < |ts| ==> h[i] == CoversCorner(geo, ts[i], corners)
    decreases |ts|
  {
    if |ts| == 0 then []
    else
      var n := |ts| - 1;
      UnderfootHits(geo, corners, ts[..n]) + [CoversCorner(geo, ts[n], corners)]
  }

  /** The cost of the first listed patch containing a body corner, or open ground. */
  function UnderfootCost(geo: Oracle, corners: seq<Point>, ts: seq<Terrain>): (c: int)
    reads ts
    ensures c == FLAT_TERRAIN_COST || c == 10 || c == 15 || c == 20
  {
    var k := FirstHit(UnderfootHits(geo, corners, ts));
    if k < 0 then FLAT_TERRAIN_COST else ts[k].TerrainCost()
  }

  /** Open ground when no patch contains a corner; otherwise the cost of the first listed
      patch that does. */
  lemma UnderfootCostIsFirstCovering(geo: Oracle, corners: seq<Point>, ts: seq<Terrain>)
    ensures (forall i :: 0 <= i < |ts| ==> !CoversCorner(geo, ts[i], corners))
            ==> UnderfootCost(geo, corners, ts) == FLAT_TERRAIN_COST
    ensures forall k :: 0 <= k < |ts| && CoversCorner(geo, ts[k], corners)
                        && (forall j :: 0 <= j < k ==> !CoversCorner(geo, ts[j], corners))
                        ==> UnderfootCost(geo, corners, ts) == ts[k].TerrainCost()
  {
    var hits := UnderfootHits(geo, corners, ts);
    var k := FirstHit(hits);
    forall k' | 0 <= k' < |ts| && CoversCorner(geo, ts[k'], corners)
                && (forall j :: 0 <= j < k' ==> !CoversCorner(geo, ts[j], corners))
      ensures k == k'
    {
      assert hits[k'];
    }
  }

  // ----- Energy debit of one step -----

  /** The idle cost when the vehicle did not move, otherwise the travel cost over the
      terrain underfoot. */
  function StepDebit(travelled: Length, underfoot: int): (d: real)
    ensures 0 <= underfoot ==> 0.0 <= d
  {
    if travelled == 0.0 then IDLE_COST else EnergyExpenditure(travelled, underfoot)
  }

  /** A step that went nowhere costs the idle cost; one that moved costs distance times
      terrain cost over the divisor, which is positive on any positive terrain cost. */
  lemma StepDebitCases(travelled: Length, underfoot: int)
    ensures travelled == 0.0 ==> StepDebit(travelled, underfoot) == IDLE_COST
    ensures travelled != 0.0 ==> StepDebit(travelled, underfoot) * ENERGY_DIVISOR == travelled * underfoot as real
    ensures travelled != 0.0 && 0 < underfoot ==> 0.0 < StepDebit(travelled, underfoot)
  {
  }

  // ----- Wheels -----

  /** A wheel's speed from the same-side food sensor and, for an energy vehicle, the
      opposite-side terrain sensor. */
  function WheelSpeed(kind: VehicleType, foodReading: real, oppositeTerrainReading: real): real
  {
    match kind
    case Distance => foodReading / SENSOR_DIVISOR
    case Energy => (foodReading + oppositeTerrainReading) / SENSOR_DIVISOR
  }

  /** A distance vehicle's wheel follows its food sensor alone, and stands still with no
      target; an energy vehicle's wheel adds the opposite terrain sensor. */
  lemma WheelSpeedReadings(kind: VehicleType, foodReading: real, oppositeTerrainReading: real)
    ensures kind == Distance ==> WheelSpeed(kind, foodReading, oppositeTerrainReading) * SENSOR_DIVISOR == foodReading
    ensures kind == Energy ==>
              WheelSpeed(kind, foodReading, oppositeTerrainReading) * SENSOR_DIVISOR == foodReading + oppositeTerrainReading
    ensures kind == Distance && foodReading == 0.0 ==> WheelSpeed(kind, foodReading, oppositeTerrainReading) == 0.0
  {
  }

  // ----- Translation, by quadrant of the heading -----

  /** The displacement and the new anchor position. */
  datatype Move = Move(dx: real, dy: real, x: real, y: real)

  function Displace(geo: Oracle, orient: real, lspeed: real, rspeed: real, speed: real,
                    x: real, y: real): Move
  {
    var deg := geo.ToDegrees(orient);
    var q := JavaRemainder(deg);
    var step := (lspeed + rspeed) / 2.0;
    if q <= 90.0 then
      var a := geo.ToRadians(90.0 - deg);
      var dx, dy := geo.Cos(a) * step * speed, geo.Sin(a) * step * speed;
      Move(dx, dy, x - dx, y - dy)
    else if 90.0 < q <= 180.0 then
      var a := geo.ToRadians(90.0 - (180.0 - deg));
      var dx, dy := geo.Cos(a) * step * speed, geo.Sin(a) * step * speed;
      Move(dx, dy, x - dx, y + dy)
    else if 180.0 < q <= 270.0 then
      var a := geo.ToRadians(360.0 - (deg + 90.0));
      var dx, dy := geo.Cos(a) * step * speed, geo.Sin(a) * step * speed;
      Move(dx, dy, x + dx, y + dy)
    else if 270.0 < q <= 360.0 then
      var a := geo.ToRadians(90.0 - (360.0 - deg));
      var dx, dy := geo.Cos(a) * step * speed, geo.Sin(a) * step * speed;
      Move(dx, dy, x + dx, y - dy)
    else
      Move(0.0, 0.0, x, y)
  }

  /** The anchor moves by the displacement, each coordinate in one direction or the other;
      with both wheels cancelling out, or no speed, it stays where it was. */
  lemma DisplaceMovesByDelta(geo: Oracle, orient: real, lspeed: real, rspeed: real, speed: real, x: real, y: real)
    ensures var m := Displace(geo, orient, lspeed, rspeed, speed, x, y);
            && (m.x == x - m.dx || m.x == x + m.dx)
            && (m.y == y - m.dy || m.y == y + m.dy)
    ensures lspeed + rspeed == 0.0 || speed == 0.0 ==>
              Displace(geo, orient, lspeed, rspeed, speed, x, y) == Move(0.0, 0.0, x, y)
  {
  }

  /** Every heading falls in one of the four quadrants, since its remainder is below a
      full turn: the displacement is always a step of `(lspeed + rspeed) / 2 * speed` along
      some angle, never the zero move the chain of tests would leave when none matched. */
  lemma DisplaceIsAStep(geo: Oracle, orient: real, lspeed: real, rspeed: real, speed: real, x: real, y: real)
    ensures var q := JavaRemainder(geo.ToDegrees(orient));
            q <= 90.0 || 90.0 < q <= 180.0 || 180.0 < q <= 270.0 || 270.0 < q <= 360.0
    ensures var m := Displace(geo, orient, lspeed, rspeed, speed, x, y);
            exists a :: && m.dx == geo.Cos(a) * ((lspeed + rspeed) / 2.0) * speed
                        && m.dy == geo.Sin(a) * ((lspeed + rspeed) / 2.0) * speed
  {
    var deg := geo.ToDegrees(orient);
    var q := JavaRemainder(deg);
    var m := Displace(geo, orient, lspeed, rspeed, speed, x, y);
    var a := if q <= 90.0 then geo.ToRadians(90.0 - deg)
             else if q <= 180.0 then geo.ToRadians(90.0 - (180.0 - deg))
             else if q <= 270.0 then geo.ToRadians(360.0 - (deg + 90.0))
             else geo.ToRadians(90.0 - (360.0 - deg));
    assert m.dx == geo.Cos(a) * ((lspeed + rspeed) / 2.0) * speed;
  }

  /** `deg % 360` on doubles: of the sign of `deg` and less than a full turn in magnitude. */
  function JavaRemainder(deg: real): (q: real)
    ensures 0.0 <= deg ==> 0.0 <= q < 360.0
    ensures deg < 0.0 ==> -360.0 < q <= 0.0
  {
    JavaMath.Remainder(deg, 360.0)
  }

  // ----- Rotation -----

  /** Turns toward the slower wheel's side by `dorient`. */
  function Rotate(orient: real, lspeed: real, rspeed: real, dorient: real): real
  {
    if rspeed > lspeed then orient + dorient
    else if lspeed > rspeed then orient - dorient
    else orient
  }

  /** A faster right wheel increases the heading, a faster left wheel decreases it, equal
      speeds keep it. */
  lemma RotateTowardSlowerWheel(orient: real, lspeed: real, rspeed: real, dorient: real)
    ensures lspeed == rspeed ==> Rotate(orient, lspeed, rspeed, dorient) == orient
    ensures rspeed > lspeed ==> Rotate(orient, lspeed, rspeed, dorient) == orient + dorient
    ensures lspeed > rspeed ==> Rotate(orient, lspeed, rspeed, dorient) == orient - dorient
    ensures 0.0 <= dorient && rspeed > lspeed ==> orient <= Rotate(orient, lspeed, rspeed, dorient)
    ensures 0.0 <= dorient && lspeed > rspeed ==> Rotate(orient, lspeed, rspeed, dorient) <= orient
  {
  }

  function Abs(r: real): (a: real)
    ensures 0.0 <= a && (a == r || a == -r)
  {
    if r < 0.0 then -r else r
  }

  // ----- Boundary -----

  datatype Pose = Pose(x: real, y: real, orient: real)

  /** Puts a vehicle whose body left the field back on the nearest edge, facing inward. */
  function FaceInward(pi: real, p: Pose): (r: Pose)
    ensures 0.0 <= r.x <= WINDOW_WIDTH as real && 0.0 <= r.y <= WINDOW_HEIGHT as real
  {
    var w, h := WINDOW_WIDTH as real, WINDOW_HEIGHT as real;
    var a := if p.x <= 0.0 then Pose(0.0, p.y, (3.0 * pi) / 2.0) else p;
    var b := if a.x >= w then Pose(w, a.y, pi / 2.0) else a;
    var c := if b.y <= 0.0 then Pose(b.x, 0.0, pi) else b;
    if c.y >= h then Pose(c.x, h, 0.0) else c
  }

  /** The edges and headings FaceInward chooses: left edge 3*pi/2, right edge pi/2, top edge
      pi, bottom edge 0, a top or bottom edge deciding the heading over a side edge; a
      coordinate within the field is kept, and a pose inside the field is left alone. */
  lemma FaceInwardEdges(pi: real, p: Pose)
    ensures var r := FaceInward(pi, p);
            && (0.0 < p.x < WINDOW_WIDTH as real ==> r.x == p.x)
            && (0.0 < p.y < WINDOW_HEIGHT as real ==> r.y == p.y)
            && (p.x <= 0.0 ==> r.x == 0.0)
            && (WINDOW_WIDTH as real <= p.x ==> r.x == WINDOW_WIDTH as real)
            && (p.y <= 0.0 ==> r.y == 0.0)
            && (WINDOW_HEIGHT as real <= p.y ==> r.y == WINDOW_HEIGHT as real)
            && (p.y <= 0.0 ==> r.orient == pi)
            && (WINDOW_HEIGHT as real <= p.y ==> r.orient == 0.0)
            && (0.0 < p.y < WINDOW_HEIGHT as real && p.x <= 0.0 ==> r.orient == 3.0 * pi / 2.0)
            && (0.0 < p.y < WINDOW_HEIGHT as real && WINDOW_WIDTH as real <= p.x ==> r.orient == pi / 2.0)
            && (0.0 < p.x < WINDOW_WIDTH as real && 0.0 < p.y < WINDOW_HEIGHT as real ==> r == p)
  {
  }

  /** The pose at the end of a step: the anchor moved by `move`, the heading turned toward the
      slower wheel by three times the angle the speed difference subtends across the body and,
      when the body (whose corners are given) no longer touched the field, put back on the edge
      facing inward. */
  function NextPose(geo: Oracle, move: Move, orient: real, lspeed: real, rspeed: real, speed: real,
                    bodyWidth: int, corners: seq<Point>): Pose
  {
    var dorient := geo.AtanOfRatio(Abs(lspeed - rspeed) * speed, bodyWidth) * TURN_MULTIPLIER;
    var turned := Pose(move.x, move.y, Rotate(orient, lspeed, rspeed, dorient));
    if geo.PolygonIntersects(corners, FieldRect()) then turned else FaceInward(geo.pi, turned)
  }

  /** The pose `NextPose` gives, from the turn and the in-field test computed beforehand. */
  lemma NextPoseFrom(geo: Oracle, move: Move, orient: real, lspeed: real, rspeed: real, speed: real,
                     bodyWidth: int, corners: seq<Point>, dorient: real, inField: bool)
    requires dorient == geo.AtanOfRatio(Abs(lspeed - rspeed) * speed, bodyWidth) * TURN_MULTIPLIER
    requires inField == geo.PolygonIntersects(corners, FieldRect())
    ensures var turned := Pose(move.x, move.y, Rotate(orient, lspeed, rspeed, dorient));
            NextPose(geo, move, orient, lspeed, rspeed, speed, bodyWidth, corners)
              == if inField then turned else FaceInward(geo.pi, turned)
  {
  }

  /** A body still touching the field lands where the move put it, and keeps its heading
      when the wheels were equal; one that left it ends up inside the window. */
  lemma NextPoseLanding(geo: Oracle, move: Move, orient: real, lspeed: real, rspeed: real, speed: real,
                        bodyWidth: int, corners: seq<Point>)
    ensures var p := NextPose(geo, move, orient, lspeed, rspeed, speed, bodyWidth, corners);
            && (geo.PolygonIntersects(corners, FieldRect()) ==> p.x == move.x && p.y == move.y)
            && (geo.PolygonIntersects(corners, FieldRect()) && lspeed == rspeed ==> p.orient == orient)
            && (!geo.PolygonIntersects(corners, FieldRect()) ==>
                  0.0 <= p.x <= WINDOW_WIDTH as real && 0.0 <= p.y <= WINDOW_HEIGHT as real)
  {
  }


  /** Nothing a terrain reading depends on changed between two states. */
  twostate lemma TerrainReadingFrame(new geo: Oracle, new sensor: Point, ts: seq<Terrain>, new toCross: seq<Terrain>)
    requires old(allocated(toCross))
    requires forall t :: t in ts ==> unchanged(t)
    ensures old(TerrainReading(geo, sensor, ts, toCross)) == TerrainReading(geo, sensor, ts, toCross)
  {
    SensedHitsFrame(geo, sensor, ts, toCross);
    var k := FirstHit(SensedHits(geo, sensor, ts, toCross));
    if 0 <= k {
      assert ts[k] in ts;
    }
  }

  twostate lemma SensedHitsFrame(new geo: Oracle, new sensor: Point, ts: seq<Terrain>, new toCross: seq<Terrain>)
    requires old(allocated(toCross))
    requires forall t :: t in ts ==> unchanged(t)
    ensures old(SensedHits(geo, sensor, ts, toCross)) == SensedHits(geo, sensor, ts, toCross)
    decreases |ts|
  {
    if |ts| > 0 {
      var n := |ts| - 1;
      assert ts[n] in ts;
      assert forall t :: t in ts[..n] ==> t in ts;
      SensedHitsFrame(geo, sensor, ts[..n], toCross);
      assert old(BoundaryGap(geo, sensor, ts[n])) == BoundaryGap(geo, sensor, ts[n]);
    }
  }

  /** Nothing the cost underfoot depends on changed between two states. */
  twostate lemma UnderfootCostFrame(new geo: Oracle, new corners: seq<Point>, ts: seq<Terrain>)
    requires forall t :: t in ts ==> unchanged(t)
    ensures old(UnderfootCost(geo, corners, ts)) == UnderfootCost(geo, corners, ts)
  {
    UnderfootHitsFrame(geo, corners, ts);
  }

  twostate lemma UnderfootHitsFrame(new geo: Oracle, new corners: seq<Point>, ts: seq<Terrain>)
    requires forall t :: t in ts ==> unchanged(t)
    ensures old(UnderfootHits(geo, corners, ts)) == UnderfootHits(geo, corners, ts)
    decreases |ts|
  {
    if |ts| > 0 {
      var n := |ts| - 1;
      assert ts[n] in ts;
      assert forall t :: t in ts[..n] ==> t in ts;
      UnderfootHitsFrame(geo, corners, ts[..n]);
      assert old(ts[n].Circle()) == ts[n].Circle();
      assert old(CoversCorner(geo, ts[n], corners)) == CoversCorner(geo, ts[n], corners);
    }
  }

  // ----- Trail sampling -----

  /** The step counter after one step: incremented, and reset to 0 when it reaches the
      interval, which is when a trail point is recorded. */
  function NextStepCounter(c: int): (r: int)
    ensures 0 <= c < PATH_POINT_INTERVAL ==> 0 <= r < PATH_POINT_INTERVAL
    ensures 0 <= c < PATH_POINT_INTERVAL ==> (r == 0 <==> c == PATH_POINT_INTERVAL - 1)
    ensures 0 <= c < PATH_POINT_INTERVAL - 1 ==> r == c + 1
  {
    if c + 1 >= PATH_POINT_INTERVAL then 0 else c + 1
  }

  predicate RecordsPoint(c: int)
  {
    c + 1 >= PATH_POINT_INTERVAL
  }

  /** The counter and the number of trail points after `n` steps from a new vehicle. */
  function CounterAfter(n: nat): int
  {
    if n == 0 then 0 else NextStepCounter(CounterAfter(n - 1))
  }

  function PointsAfter(n: nat): nat
  {
    if n == 0 then 0 else PointsAfter(n - 1) + (if RecordsPoint(CounterAfter(n - 1)) then 1 else 0)
  }

  /** After `n` steps the counter is `n mod 100` and exactly `n div 100` points were recorded:
      one on every 100th step. */
  lemma {:induction false} TrailEveryHundredSteps(n: nat)
    ensures CounterAfter(n) == n % PATH_POINT_INTERVAL
    ensures PointsAfter(n) == n / PATH_POINT_INTERVAL
  {
    if n > 0 {
      TrailEveryHundredSteps(n - 1);
    }
  }
}
