# Braitenberg vehicles with distance- and energy-scaled foraging

This project models the simulation engine of a small Java simulator (src/thesis). Vehicles
forage for food on a field scattered with circular terrain patches. A *distance* vehicle
aims for the food with the best value minus straight-line cost on open ground. An *energy*
vehicle plans each candidate path. It decides patch by patch whether to cross or go around,
and it keeps a list of the patches it plans to cross.

Each step, a vehicle does the following:
- dies if it is out of energy;
- otherwise refreshes its sensors and body;
- eats its target if its body touches it;
- picks a new target when it has none or the old one has been eaten;
- reads its wheels from its food and terrain sensors;
- moves, then records a trail point at the new position every 100 steps;
- turns toward the slower wheel and is put back on the field edge if its body left the field;
- pays for the step according to the terrain under its body.

The field keeps the food, terrain and vehicle lists and the eaten list. It also counts the
dead and handles mouse selection and dragging.

Modules:
- `Geometry` holds points, rectangles, ellipses and the `Oracle`. The Oracle is a value whose
  fields are the floating-point and AWT computations the Java code delegates to the platform
  (sqrt, asin, atan, cos, sin, toDegrees, toRadians, pi, `Point2D.distance`,
  `Line2D.ptSegDist` and the `contains`/`intersects` predicates). They are uninterpreted, and
  the only fact assumed of them is that distances and square roots are non-negative.
- `JavaMath` holds Java's truncating double-to-int cast, integer division and `%` on doubles.
- `Lists` holds `List.remove(Object)` and `List.indexOf` on sequences.
- `Foods`, `Terrains` and `EnergyBars` hold the three small entity classes.
- `Selection` holds the reference definitions of the two kinds of scan:
  - the running argmax of target selection, where a strict `>` against a threshold starting
    at 0 means the earliest of tied candidates wins;
  - the first-hit scans, and the priority order in which a mouse press searches the lists.
- `Planning` holds the cost model:
  - the linear energy cost `distance / 200 * terrainCost`;
  - one patch's effect on an energy vehicle's estimate;
  - the estimate along the terrain list, with a closed form as straight cost plus surcharges;
  - the net gains of the candidate foods.
- `Kinematics` holds the rest of a step as functions of the pose:
  - body layout, sensor readings, wheel speeds;
  - displacement, rotation and the boundary rule;
  - the step's energy debit and trail sampling.
- `World` holds the `Field` and `Vehicle` classes. They refer to each other, so they share
  one module. Their methods keep the source's loops and field updates, and each is proved
  against the functions above.

## Model

| member | source | states |
|---|---|---|
| EnergyBars.Clamp | src/thesis/EnergyBar.java:60-64 | The stored value lies in [0, 100]. A value already in range is stored unchanged, one below is raised to 0 and one above is lowered to 100. |
| EnergyBars.ClampIdempotent | src/thesis/EnergyBar.java:60-64 | Clamping a clamped value changes nothing, so setting a value twice stores what setting it once does. |
| EnergyBars.EnergyBar.constructor | src/thesis/EnergyBar.java:24-34 | The bar sits at the given corner, stores the clamped value, and is 50 wide and 5 high. |
| EnergyBars.EnergyBar.SetPos | src/thesis/EnergyBar.java:55-58 | Only the corner changes, to the given point. Value, width and height are untouched. |
| EnergyBars.EnergyBar.SetValue | src/thesis/EnergyBar.java:60-64 | Only the value changes, to the clamped argument, which lies in [0, 100]. |
| Foods.KeepInside | src/thesis/Food.java:47-55 | A coordinate ends in [5, extent - 5]. It is unchanged when already there, raised to 5 from below and lowered to extent - 5 from above. |
| Foods.Food.Default | src/thesis/Food.java:30-37 | Corner, width, height, value and type are all 0. |
| Foods.Food.constructor | src/thesis/Food.java:46-64 | The corner is the clamped position. Width and height are 3 x value. Value and type are as given, and the area is exactly the rectangle at the corner with that size. |
| Foods.Food.ResetPos | src/thesis/Food.java:74-78 | The corner moves to the given point without clamping and the area is rebuilt there. Size, value and type are untouched. |
| Foods.Food.CenterX | src/thesis/Food.java:80-82 | The centre's x is x + width / 2, which lies within the piece. |
| Foods.Food.CenterY | src/thesis/Food.java:84-86 | The centre's y is y + height / 2, which lies within the piece. |
| Terrains.Terrain.constructor | src/thesis/Terrain.java:34-39 | It takes only a terrain type that is a valid index 0..2 into the colour list. The patch keeps the given corner and radius, and its cost is the table entry of its type: 10, 15 or 20. |
| Terrains.Terrain.TerrainCost | src/thesis/Terrain.java:52-54 | Green costs 10, yellow 15 and red 20, found back through the colour list. Every patch costs more than open ground (1). |
| Terrains.Terrain.CenterX | src/thesis/Terrain.java:87-89 | The centre's x is x + radius: (x, y) is the corner of the circle's 2r-wide bounding square. |
| Terrains.Terrain.CenterY | src/thesis/Terrain.java:91-93 | The centre's y is y + radius. |
| Terrains.Terrain.ResetPos | src/thesis/Terrain.java:62-65 | Only x and y change, and the centre moves with them. Radius and colour, hence cost, are constants. |
| Terrains.ContainsFoodRect | src/thesis/Terrain.java:56-60 | A patch contains a food exactly when its circle contains the whole rectangle at the food's corner with the food's size. |
| Lists.RemoveFirst | src/thesis/Vehicle.java:555-560 | Removing a food that is absent changes nothing. Removing one that is present shortens the list by one. |
| Lists.RemoveFirstMultiset | src/thesis/Vehicle.java:555-560 | Removal takes exactly one occurrence out of the list's contents, if there is one. |
| Lists.RemoveFirstSplits | src/thesis/Vehicle.java:555-560 | Removal keeps everything before the first occurrence and everything after it, in order. |
| Lists.IndexOf | src/thesis/Terrain.java:53 | The index found holds the element, and no earlier index does. |
| JavaMath.Truncate | src/thesis/Vehicle.java:334 | The result rounds toward zero, a different direction for negative and non-negative values. |
| JavaMath.IntCast | src/thesis/Vehicle.java:334 | `(int)` of a double saturates at the int range and truncates within it. |
| JavaMath.IntDiv | src/thesis/Vehicle.java:79 | Java's `/` on ints is the real quotient rounded toward zero, whatever the signs of the operands. |
| Kinematics.Layout.Corners | src/thesis/Vehicle.java:168-173 | The body polygon has exactly four corners. |
| Kinematics.LayoutAtShape | src/thesis/Vehicle.java:152-181 | The body is a parallelogram anchored at the left sensor: the sensor side and the wheel side are the same vector, so are the two flanks, and the centre is the midpoint of both diagonals. |
| Kinematics.Layout.Centre | src/thesis/Vehicle.java:179-180 | The midpoint of the side midpoints is the average of the four corners. |
| Kinematics.TerrainReading | src/thesis/Vehicle.java:524-539 | A terrain reading is always below 2.5. |
| Kinematics.TerrainReadingIsFirstSensed | src/thesis/Vehicle.java:524-539 | With no patch sensed, the reading is 0. Otherwise it is 2.5 x the boundary gap of the first listed patch that is not planned to be crossed and whose boundary is within 1. |
| Kinematics.UnderfootCost | src/thesis/Vehicle.java:321-332 | The cost underfoot is 1, 10, 15 or 20. |
| Kinematics.UnderfootCostIsFirstCovering | src/thesis/Vehicle.java:321-332 | With no patch containing a body corner, the cost is 1. Otherwise it is the cost of the first listed patch that contains any body corner. |
| Kinematics.StepDebit | src/thesis/Vehicle.java:313-335 | The debit of a step is never negative on a non-negative terrain cost. |
| Kinematics.StepDebitCases | src/thesis/Vehicle.java:313-335 | A step that went nowhere costs exactly 0.000005. One that moved costs distance x cost / 200, which is positive on a positive cost. |
| Kinematics.WheelSpeedReadings | src/thesis/Vehicle.java:470-504 | A distance vehicle's wheel is its food reading / 750, and 0 with a zero reading. An energy vehicle's wheel is (food + opposite terrain reading) / 750. |
| Kinematics.JavaRemainder | src/thesis/Vehicle.java:241-259 | The heading's remainder in degrees has the sign of the heading and is less than a full turn in magnitude. |
| Kinematics.DisplaceIsAStep | src/thesis/Vehicle.java:237-264 | The heading's remainder always passes one of the four quadrant tests, so the fallthrough of no move is never taken. The displacement is a step of the mean wheel speed x speed along some angle. |
| Kinematics.DisplaceMovesByDelta | src/thesis/Vehicle.java:237-264 | Each coordinate moves by the displacement, in one direction or the other. Wheels that cancel out, or zero speed, leave the vehicle where it was. |
| Kinematics.RotateTowardSlowerWheel | src/thesis/Vehicle.java:280-289 | A faster right wheel adds the turn and a faster left wheel subtracts it. Equal wheels keep the heading. |
| Kinematics.FaceInward | src/thesis/Vehicle.java:291-310 | After the boundary rule, the position lies within the window. |
| Kinematics.FaceInwardEdges | src/thesis/Vehicle.java:291-310 | A vehicle that left the window is put exactly on the edge it crossed (0 or the window's extent), with the inward heading for that edge: left 3pi/2, right pi/2, top pi, bottom 0. A top or bottom edge decides the heading over a side edge, and an in-range coordinate is kept. |
| Kinematics.NextPoseLanding | src/thesis/Vehicle.java:278-310 | A body still touching the field lands where the move put it, and keeps its heading when the wheels were equal. One that left the field ends inside the window. |
| Kinematics.NextStepCounter | src/thesis/Vehicle.java:266-271 | From within [0, 99] the counter stays within [0, 99]. It wraps to 0 exactly after 99 and otherwise increments. |
| Kinematics.TrailEveryHundredSteps | src/thesis/Vehicle.java:266-276 | After n steps from a new vehicle, the counter is n mod 100 and exactly n div 100 trail points were recorded. |
| Planning.EnergyExpenditureScales | src/thesis/Vehicle.java:461-464 | The energy of a stretch is distance x cost / 200. It is non-negative, and positive on a positive distance and cost. |
| Planning.PatchOnPath | src/thesis/Vehicle.java:413-421 | A patch matters exactly when the straight path passes the patch's centre closer than its radius. It carries the patch's cost and whether it contains the food, and its chord is non-negative. |
| Planning.EstimateAlongStep | src/thesis/Vehicle.java:412-443 | Scanning one more patch folds that patch into the estimate. |
| Planning.AccountAddsSurcharge | src/thesis/Vehicle.java:416-441 | A patch off the path changes nothing. One holding the food adds chord x (cost - 1) / 200 and is crossed. Any other patch on the path is detoured, adding (arc - chord) / 200 and staying off the list, exactly when chord x cost / 200 > arc / 200; otherwise it is crossed and listed. The cheaper option is taken, crossing on a tie. |
| Planning.EstimateIsStraightPlusSurcharges | src/thesis/Vehicle.java:405-443 | The estimate is the straight-line cost on open ground plus every patch's surcharge. The crossing list is exactly the crossed patches, in terrain-list order. |
| Planning.CrossedPatchesMembers | src/thesis/Vehicle.java:412-443 | A patch is in the crossing list exactly when it is listed and crossed, and the list is no longer than the terrain list. |
| Planning.NoDetourNoDiscount | src/thesis/Vehicle.java:409-443 | Without detours, the estimate never undercuts the open-ground cost of the straight path. |
| Planning.DistanceCost | src/thesis/Vehicle.java:389-393 | A distance vehicle's estimated cost is the straight distance to the food's corner / 200, and is non-negative. |
| Planning.DistanceGains | src/thesis/Vehicle.java:387-393 | There is one gain per food of the list. |
| Planning.EnergyGains | src/thesis/Vehicle.java:403-444 | There is one gain per food of the list. |
| Planning.DistanceGainsAreValueMinusCost | src/thesis/Vehicle.java:387-393 | Each distance gain is the food's value minus that cost. |
| Planning.EnergyGainAt | src/thesis/Vehicle.java:403-444 | Each energy gain is the food's value minus its terrain-aware estimate. |
| Selection.RunningBest | src/thesis/Vehicle.java:394-397 | The running pick is an index into the gains, and the running largest gain is never negative. |
| Selection.RunningBestSnoc | src/thesis/Vehicle.java:394-397 | One more candidate becomes the pick exactly when its gain is strictly larger than the largest so far. |
| Selection.RunningBestIsFirstPositiveMax | src/thesis/Vehicle.java:377-399 | Nothing is picked exactly when no gain is positive. Otherwise the pick is the earliest index of the maximum gain, that gain is positive, and any such index is the one picked. |
| Selection.FirstHit | src/thesis/Field.java:47-55 | A scan stops at the lowest index that hits, and gives -1 exactly when nothing hits. |
| Selection.PressChoice | src/thesis/Field.java:40-91 | Every index is -1 or a hit, and at most one is not -1. Nothing is chosen exactly when no shape contains the point. Vehicles come first, then distance food, then energy food, then terrain, each at its lowest hit, and a list is chosen from whenever it has a hit and no earlier list has. |
| World.BestChoice | src/thesis/Vehicle.java:377-453 | The target selection picks is null or a food of the vehicle's own list. |
| World.EnergyPick | src/thesis/Vehicle.java:401-451 | The energy scan's pick, when there is one, is an index into the energy list. |
| World.FoodSensorReading | src/thesis/Vehicle.java:511-517 | A food sensor reads a non-negative distance, and 0 with no target. |
| World.Field.constructor | src/thesis/Field.java:36-39 | The field starts with empty lists, no deaths and nothing selected. |
| World.Field.AllDead | src/thesis/Field.java:230-233 | All are dead exactly when the dead count equals the number of vehicles. |
| World.Field.ClearSelection | src/thesis/Field.java:235-240 | All four chosen indices become -1. |
| World.Field.MousePressed | src/thesis/Field.java:40-91 | The selection after a press is the press choice for the hits of the point in the four lists. |
| World.Field.MouseDragged | src/thesis/Field.java:94-114 | Every selected entity moves to the mouse position: a vehicle with its layout refreshed, a food with its area rebuilt, and a patch. Only the selected entities may change, and only their position, layout and area fields. |
| World.Field.AddFood | src/thesis/Simulator.java:530-538 | One distance piece and one energy piece of the drawn value are appended at their clamped corners. With in-range draws the value lies in 5..9. |
| World.Field.FoodDrop | src/thesis/Field.java:220-224 | Both lists grow by exactly the refill amount (none when it is not positive), and the old entries are kept. The i-th new pair is two fresh, distinct pieces of the i-th draw's value: a distance piece and an energy piece, at the drawn corners kept inside the window, each with its area in place. |
| World.Vehicle.constructor | src/thesis/Vehicle.java:67-93 | The new vehicle has the given pose, type, field and size, with body width at half the size and height at three quarters (truncated). It has default speed and 50 energy, and its bar is a third of its size above and left of the sensor. It has no target, no plan and no trail, and its layout is current. |
| World.Vehicle.UpdateLayout | src/thesis/Vehicle.java:152-180 | Sensors, wheels, corners and centre are recomputed from the pose. |
| World.Vehicle.ResetPos | src/thesis/Vehicle.java:567-574 | The vehicle moves to the given left-sensor position, keeping its heading, and its layout is current. |
| World.Vehicle.SetTargetFood | src/thesis/Vehicle.java:377-453 | The target is the food of the vehicle's own list with the largest positive net gain, earliest on a tie, and null when none is positive. An energy vehicle takes the crossing list of the food it picks, and keeps its old list when it picks nothing. Together this is the BestChoice of the state it began in. |
| World.Vehicle.BestDistanceFood | src/thesis/Vehicle.java:385-399 | The distance scan picks by the running argmax of value minus straight cost to the corner. |
| World.Vehicle.BestEnergyFood | src/thesis/Vehicle.java:401-451 | The energy scan picks by the running argmax of value minus the estimate. It yields a plan exactly when it picks, and the plan is that food's crossing list. |
| World.Vehicle.ScanPatch | src/thesis/Vehicle.java:412-443 | One pass of the loop over the terrain list extends the estimate of the scanned prefix by one patch. |
| World.Vehicle.EstimatePath | src/thesis/Vehicle.java:405-443 | The loop over the terrain list computes the estimate along the whole list. |
| World.Vehicle.AccountFor | src/thesis/Vehicle.java:416-441 | One pass of the inner loop folds the patch into the running estimate. |
| World.Vehicle.GetTerrainSensorReading | src/thesis/Vehicle.java:524-539 | The loop with its early exit returns the terrain reading. |
| World.Vehicle.CalculateLeftWheelSpeed | src/thesis/Vehicle.java:470-484 | The left wheel reads the left food sensor, and for an energy vehicle also the right terrain sensor. A distance vehicle with no target stands still. |
| World.Vehicle.CalculateRightWheelSpeed | src/thesis/Vehicle.java:490-504 | The right wheel reads the right food sensor, and for an energy vehicle also the left terrain sensor. A distance vehicle with no target stands still. |
| World.Vehicle.TerrainCostUnderBody | src/thesis/Vehicle.java:321-332 | The nested loop with its labelled break returns the cost underfoot. |
| World.Vehicle.Eat | src/thesis/Vehicle.java:545-565 | Energy rises by exactly the food's value, shown clamped on the bar, and speed ends at the default. The food is appended to the eaten list and removed from the vehicle's own-type list only. |
| World.Vehicle.CheckForDeath | src/thesis/Vehicle.java:343-371 | A death happens exactly when energy is at most 0. A dead vehicle has speed 0 and is marked dead. The dead count grows by exactly one, and exactly one new same-type, same-size, same-field vehicle is appended iff auto-respawn is on. It reports a pause iff all are dead. With energy left, nothing changes. |
| World.Vehicle.Step | src/thesis/Vehicle.java:209-337 | A vehicle out of energy dies and does nothing else. Its speed becomes 0, it is marked dead and the dead count grows by one; its pose, layout, energy, bar, target, plan, trail, counter and the food lists are untouched. With auto-respawn on, exactly one fresh vehicle of the same type, size and field is appended at the drawn pose with initial energy; with it off, the vehicle list is unchanged. A live vehicle takes a live step, and nothing dies or is added; when it eats nothing, both food lists are unchanged. |
| World.Vehicle.LiveStep | src/thesis/Vehicle.java:212-335 | Measured from the state it began in, the live step refreshes the layout, eats the target exactly when the body touches it and keeps an uneaten target with its plan. It reads the wheels with the final target and plan, moves by the displacement and lands on the next pose. It advances the trail counter, adding a point on every 100th step. When nothing is eaten, both food lists are unchanged. Its energy is the start energy plus the value eaten minus the step's debit, and the bar shows it truncated and clamped. |
| World.Vehicle.Feed | src/thesis/Vehicle.java:213-222 | The layout is refreshed. The target is eaten exactly when the refreshed body touches its area: energy rises by its value, it is appended to the eaten list and removed from the own-type list only. Without eating, energy, speed, bar and food lists are untouched. |
| World.Vehicle.Forage | src/thesis/Vehicle.java:213-227 | The layout is refreshed. The target is eaten exactly when the refreshed body touches its area, crediting its value. Without eating, the food lists are untouched. An uneaten target is kept with its plan; any other target is null or a food of the own list. |
| World.Vehicle.Retarget | src/thesis/Vehicle.java:224-227 | A target that is present and uneaten is kept with its plan. A missing or eaten one is replaced by the BestChoice of the state it began in. |
| World.Vehicle.Drive | src/thesis/Vehicle.java:229-335 | The wheels are read from the refreshed sensors, then the vehicle advances by them and pays for the step. |
| World.Vehicle.ReadWheels | src/thesis/Vehicle.java:229-231 | Both wheel speeds are read from the current sensors, target and plan. |
| World.Vehicle.Advance | src/thesis/Vehicle.java:233-335 | The vehicle travels by the given wheel speeds, then pays the debit for the terrain under its body. |
| World.Vehicle.Travel | src/thesis/Vehicle.java:233-310 | The vehicle moves by the displacement, samples the trail, turns toward the slower wheel, and is put back on the edge when its body no longer touches the field. |
| World.Vehicle.Debit | src/thesis/Vehicle.java:312-335 | Energy drops by the idle cost when the vehicle did not move, and otherwise by the travel cost over the terrain under the body. The bar shows the truncated, clamped energy. |

## Left out

- Painting is not modelled: `paint`, images, gradients, the sensor-wheel connection curves, and the wheel and sensor sizes that only drawing uses. Nor are double buffering, `repaint()` or the Swing listeners; the press and drag handlers become methods taking the mouse position.
- The simulator shell is reduced to parameters. The clock, the animation thread and `java.util.Random` are replaced as follows:
  - Simulator.addFood becomes `AddFood`, taking a `FoodDraw` of the random values.
  - generateNewVehicle becomes the `SpawnDraw` that CheckForDeath receives.
  - The auto-respawn check box becomes the `autoRespawn` parameter.
  - The refill amount becomes a parameter of FoodDrop, whose `draws` must supply one draw per call.
- The cemetery counters and the pause request are not modelled. The simulator owns them; CheckForDeath and Step report the pause as a result instead.
- Floating point is modelled as `real`, so rounding, NaN and infinities are not. The transcendental and AWT computations are uninterpreted Oracle functions. The quadrant-wise displacement is modelled branch for branch, but it is not related to a polar form.
- The body polygon and the terrain circle are not stored. The source rebuilds both only when painting. Here the body is the current layout's corners and the circle is derived from the patch's current corner.
- Java int overflow is not modelled, except where an int cast is written out (`IntCast`, which saturates like `(int)` of a double). Sizes, counters and food values are unbounded integers.
- `JavaMath.Remainder` requires a non-zero divisor. It is only ever used with 360.
- VehicleType has only the two values the simulator constructs. The source's int type would let other values through, and those would get zero wheel speeds.
- The default Food constructor leaves the area null in the source. The model gives it the zero rectangle.
- Food values: the source comment says "5 to 10", but the code draws 5..9, and the model follows the code.
- Terrains.Terrain.constructor requires a type in 0..2, where the source's `COLOR_INDEX.get` would throw.
- World.Field.MouseDragged requires the chosen indices to lie within their lists, where the source's list lookups would throw.
- List aliasing is not modelled. The source shares the winning candidate's crossing list with the vehicle; the model copies the value, which is the same because neither list changes afterwards.
- World.Vehicle.Step: for a new target, the live case states only that it comes from the own list or is the old target. The exact pick is stated by SetTargetFood, and the removal from the own list by Eat.
- World.Vehicle.LiveStep: states only membership for a new target, and after eating only the eaten list, for the same reason. The removal from the own list is stated by Feed and Eat, the exact pick by Retarget and SetTargetFood.
- World.Vehicle.Forage: states the new target only as membership and, after eating, only the eaten list. Forage is Feed then Retarget; Feed states the exact removal from the own list and Retarget the exact pick, but restating both on Forage would make every caller's proof, up to the whole live step, too costly for the verifier.
- World.Vehicle.Step: the source calls checkForDeath first. Here Step tests `energy <= 0` itself and calls CheckForDeath only then, which is the same because CheckForDeath changes nothing while energy is left.
