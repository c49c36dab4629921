/** The cost model behind target selection: what reaching a piece of food is estimated to
    cost, and which terrain patches on the way an energy vehicle plans to cross. */
module Planning {
  import opened Geometry
  import opened Foods
  import opened Terrains

  /** Keeps the energy spent comparable with the energy food contains. */
  const ENERGY_DIVISOR: real := 200.0

  /** The energy spent covering `distance` over ground of cost `terrainCost`. */
  function EnergyExpenditure(distance: real, terrainCost: int): real
  {
    (distance / ENERGY_DIVISOR) * terrainCost as real
  }

  /** The energy of a stretch is proportional to its length and to the terrain's cost, and
      never negative on a real stretch of real terrain. */
  lemma EnergyExpenditureScales(distance: real, terrainCost: int)
    ensures EnergyExpenditure(distance, terrainCost) * ENERGY_DIVISOR == distance * terrainCost as real
    ensures 0.0 <= distance && 0 <= terrainCost ==> 0.0 <= EnergyExpenditure(distance, terrainCost)
    ensures 0.0 < distance && 0 < terrainCost ==> 0.0 < EnergyExpenditure(distance, terrainCost)
  {
  }

  /** What the straight path from the vehicle's centre to the food's centre does with one
      patch: passes within its radius or not, the chord it cuts and the arc around it. */
  datatype Patch = Patch(onPath: bool, chord: real, arc: real, cost: int, holdsFood: bool)

  function PatchOnPath(geo: Oracle, from: Point, food: Food, t: Terrain): (p: Patch)
    reads food, t
    ensures p.cost == t.TerrainCost() && p.holdsFood == t.Contains(geo, food)
    ensures p.onPath <==> geo.SegmentDistance(from, food.Center(), t.Center()) < t.radius
    ensures 0.0 <= p.chord
  {
    var d := geo.SegmentDistance(from, food.Center(), t.Center());
    var r := t.radius;
    if d < r then
      var chordLength := 2.0 * geo.Sqrt(r * r - d * d);
      var theta := 2.0 * geo.Asin(chordLength / (2.0 * r));
      Patch(true, chordLength, r * theta, t.TerrainCost(), t.Contains(geo, food))
    else
      Patch(false, 0.0, 0.0, t.TerrainCost(), t.Contains(geo, food))
  }

  /** Miss: the path stays clear of the patch. MustCross: the food lies inside it. Detour:
      going round the arc on open ground is cheaper than crossing the chord. Cross: otherwise. */
  datatype Decision = Miss | MustCross | Detour | Cross

  function Decide(p: Patch): Decision
  {
    if !p.onPath then Miss
    else if p.holdsFood then MustCross
    else if EnergyExpenditure(p.chord, p.cost) > EnergyExpenditure(p.arc, FLAT_TERRAIN_COST) then Detour
    else Cross
  }

  /** The running estimate of one food: cost, path length and the patches to cross. */
  datatype Estimate = Estimate(cost: real, distance: real, toCross: seq<Terrain>)

  /** Folds one patch into the estimate, as the inner loop of the selection does. */
  function Account(e: Estimate, t: Terrain, p: Patch): Estimate
  {
    match Decide(p)
    case Miss => e
    case Detour =>
      Estimate(e.cost - EnergyExpenditure(p.chord, FLAT_TERRAIN_COST)
                      + EnergyExpenditure(p.arc, FLAT_TERRAIN_COST),
               e.distance - p.chord + p.arc, e.toCross)
    case _ =>
      Estimate(e.cost - EnergyExpenditure(p.chord, FLAT_TERRAIN_COST)
                      + EnergyExpenditure(p.chord, p.cost),
               e.distance, e.toCross + [t])
  }

  /** The straight-line estimate the energy vehicle starts from. */
  function Straight(geo: Oracle, from: Point, food: Food): Estimate
    reads food
  {
    var s := geo.Distance(from, food.Center());
    Estimate(EnergyExpenditure(s, FLAT_TERRAIN_COST), s, [])
  }

  /** The estimate after the patches `ts`, folded in list order. */
  function EstimateAlong(geo: Oracle, from: Point, food: Food, ts: seq<Terrain>): Estimate
    reads food, ts
    decreases |ts|
  {
    if |ts| == 0 then Straight(geo, from, food)
    else
      var t := ts[|ts| - 1];
      Account(EstimateAlong(geo, from, food, ts[..|ts| - 1]), t, PatchOnPath(geo, from, food, t))
  }

  /** Extending the scanned prefix by one patch folds that patch into the estimate. */
  lemma EstimateAlongStep(geo: Oracle, from: Point, food: Food, ts: seq<Terrain>, j: int)
    requires 0 <= j < |ts|
    ensures EstimateAlong(geo, from, food, ts[..j + 1])
         == Account(EstimateAlong(geo, from, food, ts[..j]), ts[j], PatchOnPath(geo, from, food, ts[j]))
  {
    assert ts[..j + 1][..j] == ts[..j];
  }

  // ----- Reference definitions: what each patch adds, and which ones are crossed -----

  /** The closed form of what a patch adds to the estimated cost. */
  function Surcharge(p: Patch): real
  {
    match Decide(p)
    case Miss => 0.0
    case Detour => (p.arc - p.chord) / ENERGY_DIVISOR
    case _ => p.chord * (p.cost - FLAT_TERRAIN_COST) as real / ENERGY_DIVISOR
  }

  predicate Crossed(p: Patch)
  {
    Decide(p) == MustCross || Decide(p) == Cross
  }

  /** The patches crossed, in list order. */
  function CrossedPatches(geo: Oracle, from: Point, food: Food, ts: seq<Terrain>): seq<Terrain>
    reads food, ts
  {
    if |ts| == 0 then []
    else (if Crossed(PatchOnPath(geo, from, food, ts[0])) then [ts[0]] else [])
         + CrossedPatches(geo, from, food, ts[1..])
  }

  /** The surcharges of all patches. */
  function TotalSurcharge(geo: Oracle, from: Point, food: Food, ts: seq<Terrain>): real
    reads food, ts
  {
    if |ts| == 0 then 0.0
    else Surcharge(PatchOnPath(geo, from, food, ts[0])) + TotalSurcharge(geo, from, food, ts[1..])
  }

  // ----- Properties of the estimate -----

  /** A patch off the path changes nothing. A patch holding the food adds chord * (cost - 1)
      / 200 and is crossed. Any other patch on the path is detoured, adding (arc - chord) / 200
      and not crossed, exactly when crossing (chord * cost / 200) costs more than the arc
      does (arc / 200); otherwise it is crossed. Either way the estimate moves by the closed
      form, and the smaller of the two options is taken, crossing on a tie. */
  lemma {:induction false} AccountAddsSurcharge(e: Estimate, t: Terrain, p: Patch)
    ensures Account(e, t, p).cost == e.cost + Surcharge(p)
    ensures Account(e, t, p).toCross == e.toCross + (if Crossed(p) then [t] else [])
    ensures !p.onPath ==> Account(e, t, p) == e
    ensures p.onPath && p.holdsFood ==>
              Crossed(p) && Surcharge(p) == p.chord * (p.cost - 1) as real / ENERGY_DIVISOR
    ensures p.onPath && !p.holdsFood ==>
              (Decide(p) == Detour <==> p.chord * p.cost as real / ENERGY_DIVISOR > p.arc / ENERGY_DIVISOR)
    ensures p.onPath && !p.holdsFood ==>
              var crossing := p.chord * (p.cost - 1) as real / ENERGY_DIVISOR;
              var detour := (p.arc - p.chord) / ENERGY_DIVISOR;
              Surcharge(p) == (if detour < crossing then detour else crossing)
  {
    var crossAll := EnergyExpenditure(p.chord, p.cost);
    var flatChord := EnergyExpenditure(p.chord, FLAT_TERRAIN_COST);
    var flatArc := EnergyExpenditure(p.arc, FLAT_TERRAIN_COST);
    assert crossAll == p.chord * p.cost as real / ENERGY_DIVISOR;
    assert flatChord == p.chord / ENERGY_DIVISOR;
    assert flatArc == p.arc / ENERGY_DIVISOR;
    assert crossAll - flatChord == p.chord * (p.cost - 1) as real / ENERGY_DIVISOR;
  }

  /** The estimated cost is the straight-line cost on open ground plus every patch's
      surcharge, and the patches to cross are exactly the crossed ones in list order. */
  lemma {:induction false} EstimateIsStraightPlusSurcharges(geo: Oracle, from: Point, food: Food,
                                                           ts: seq<Terrain>)
    ensures EstimateAlong(geo, from, food, ts).cost
            == Straight(geo, from, food).cost + TotalSurcharge(geo, from, food, ts)
    ensures EstimateAlong(geo, from, food, ts).toCross == CrossedPatches(geo, from, food, ts)
    decreases |ts|
  {
    if |ts| > 0 {
      var n := |ts| - 1;
      var t := ts[n];
      var p := PatchOnPath(geo, from, food, t);
      EstimateIsStraightPlusSurcharges(geo, from, food, ts[..n]);
      AccountAddsSurcharge(EstimateAlong(geo, from, food, ts[..n]), t, p);
      SplitLast(geo, from, food, ts);
    }
  }

  /** The front-recursive reference definitions split off their last patch. */
  lemma {:induction false} SplitLast(geo: Oracle, from: Point, food: Food, ts: seq<Terrain>)
    requires |ts| > 0
    ensures var n := |ts| - 1;
            var p := PatchOnPath(geo, from, food, ts[n]);
            && TotalSurcharge(geo, from, food, ts) == TotalSurcharge(geo, from, food, ts[..n]) + Surcharge(p)
            && CrossedPatches(geo, from, food, ts)
               == CrossedPatches(geo, from, food, ts[..n]) + (if Crossed(p) then [ts[n]] else [])
    decreases |ts|
  {
    if |ts| > 1 {
      var n := |ts| - 1;
      SplitLast(geo, from, food, ts[1..]);
      assert ts[1..][..n - 1] == ts[..n][1..];
      assert ts[1..][n - 1] == ts[n];
    }
  }

  /** A patch is planned to be crossed exactly when it is listed and crossed. */
  lemma {:induction false} CrossedPatchesMembers(geo: Oracle, from: Point, food: Food,
                                                 ts: seq<Terrain>, t: Terrain)
    ensures t in CrossedPatches(geo, from, food, ts) <==>
              t in ts && Crossed(PatchOnPath(geo, from, food, t))
    ensures |CrossedPatches(geo, from, food, ts)| <= |ts|
    decreases |ts|
  {
    if |ts| > 0 {
      CrossedPatchesMembers(geo, from, food, ts[1..], t);
      assert ts == [ts[0]] + ts[1..];
    }
  }

  /** Without detours the estimate never undercuts the straight path on open ground, since
      every patch costs more than open ground. */
  lemma {:induction false} NoDetourNoDiscount(geo: Oracle, from: Point, food: Food, ts: seq<Terrain>)
    requires forall i :: 0 <= i < |ts| ==> Decide(PatchOnPath(geo, from, food, ts[i])) != Detour
    ensures Straight(geo, from, food).cost <= EstimateAlong(geo, from, food, ts).cost
  {
    SurchargesNonNegative(geo, from, food, ts);
    EstimateIsStraightPlusSurcharges(geo, from, food, ts);
  }

  lemma {:induction false} SurchargesNonNegative(geo: Oracle, from: Point, food: Food, ts: seq<Terrain>)
    requires forall i :: 0 <= i < |ts| ==> Decide(PatchOnPath(geo, from, food, ts[i])) != Detour
    ensures 0.0 <= TotalSurcharge(geo, from, food, ts)
    decreases |ts|
  {
    if |ts| > 0 {
      var p := PatchOnPath(geo, from, food, ts[0]);
      assert Decide(p) != Detour;
      SurchargeNonNegative(p);
      var rest := ts[1..];
      assert forall i :: 0 <= i < |rest| ==> rest[i] == ts[i + 1];
      SurchargesNonNegative(geo, from, food, rest);
    }
  }

  /** A patch that is missed or crossed never lowers the estimate. */
  lemma SurchargeNonNegative(p: Patch)
    requires Decide(p) != Detour && 0.0 <= p.chord && FLAT_TERRAIN_COST <= p.cost
    ensures 0.0 <= Surcharge(p)
  {
    assert 0.0 <= p.chord * (p.cost - FLAT_TERRAIN_COST) as real;
  }

  // ----- Net gains of the candidate foods -----

  /** A distance vehicle assumes open ground all the way to the food's corner. */
  function DistanceCost(geo: Oracle, from: Point, food: Food): (c: real)
    reads food
    ensures 0.0 <= c
    ensures c * ENERGY_DIVISOR == geo.Distance(from, food.Corner())
  {
    EnergyExpenditure(geo.Distance(from, food.Corner()), FLAT_TERRAIN_COST)
  }

  /** Value minus estimated cost, for each food of a distance vehicle's list. */
  function DistanceGains(geo: Oracle, from: Point, foods: seq<Food>): (g: seq<real>)
    reads foods
    ensures |g| == |foods|
    decreases |foods|
  {
    if |foods| == 0 then []
    else
      var n := |foods| - 1;
      DistanceGains(geo, from, foods[..n]) + [foods[n].value as real - DistanceCost(geo, from, foods[n])]
  }

  /** Value minus estimated cost, for each food of an energy vehicle's list. */
  function EnergyGains(geo: Oracle, from: Point, foods: seq<Food>, ts: seq<Terrain>): (g: seq<real>)
    reads foods, ts
    ensures |g| == |foods|
    decreases |foods|
  {
    if |foods| == 0 then []
    else
      var n := |foods| - 1;
      EnergyGains(geo, from, foods[..n], ts)
        + [foods[n].value as real - EstimateAlong(geo, from, foods[n], ts).cost]
  }

  /** Each entry is the food's value minus the open-ground cost of the straight line. */
  lemma {:induction false} DistanceGainsAreValueMinusCost(geo: Oracle, from: Point, foods: seq<Food>)
    ensures forall i :: 0 <= i < |foods| ==>
              DistanceGains(geo, from, foods)[i] == foods[i].value as real - DistanceCost(geo, from, foods[i])
    decreases |foods|
  {
    if |foods| > 0 {
      var n := |foods| - 1;
      DistanceGainsAreValueMinusCost(geo, from, foods[..n]);
      assert forall i :: 0 <= i < n ==> foods[..n][i] == foods[i];
    }
  }

  /** Each entry is the food's value minus its terrain-aware estimate. */
  lemma {:induction false} EnergyGainAt(geo: Oracle, from: Point, foods: seq<Food>, ts: seq<Terrain>, i: nat)
    requires i < |foods|
    ensures EnergyGains(geo, from, foods, ts)[i] == foods[i].value as real - EstimateAlong(geo, from, foods[i], ts).cost
    decreases |foods|
  {
    var n := |foods| - 1;
    if i < n {
      EnergyGainAt(geo, from, foods[..n], ts, i);
    }
  }

  // ----- Frames: the estimates depend only on the foods and patches they are given -----

  twostate lemma EstimateAlongFrame(new geo: Oracle, new from: Point, new food: Food, ts: seq<Terrain>)
    requires old(allocated(food)) && unchanged(food)
    requires forall t :: t in ts ==> unchanged(t)
    ensures old(EstimateAlong(geo, from, food, ts)) == EstimateAlong(geo, from, food, ts)
    decreases |ts|
  {
    if |ts| > 0 {
      var n := |ts| - 1;
      assert ts[n] in ts;
      assert forall t :: t in ts[..n] ==> t in ts;
      EstimateAlongFrame(geo, from, food, ts[..n]);
      assert old(PatchOnPath(geo, from, food, ts[n])) == PatchOnPath(geo, from, food, ts[n]);
    }
  }

  twostate lemma DistanceGainsFrame(new geo: Oracle, new from: Point, foods: seq<Food>)
    requires forall f :: f in foods ==> unchanged(f)
    ensures old(DistanceGains(geo, from, foods)) == DistanceGains(geo, from, foods)
    decreases |foods|
  {
    if |foods| > 0 {
      var n := |foods| - 1;
      assert foods[n] in foods;
      assert forall f :: f in foods[..n] ==> f in foods;
      DistanceGainsFrame(geo, from, foods[..n]);
      assert old(DistanceCost(geo, from, foods[n])) == DistanceCost(geo, from, foods[n]);
    }
  }

  twostate lemma EnergyGainsFrame(new geo: Oracle, new from: Point, foods: seq<Food>, new ts: seq<Terrain>)
    requires old(allocated(ts))
    requires forall f :: f in foods ==> unchanged(f)
    requires forall t :: t in ts ==> unchanged(t)
    ensures old(EnergyGains(geo, from, foods, ts)) == EnergyGains(geo, from, foods, ts)
    decreases |foods|
  {
    if |foods| > 0 {
      var n := |foods| - 1;
      assert old(EnergyGains(geo, from, foods[..n], ts)) == EnergyGains(geo, from, foods[..n], ts) by {
        assert forall f :: f in foods[..n] ==> f in foods;
        EnergyGainsFrame(geo, from, foods[..n], ts);
      }
      assert old(EstimateAlong(geo, from, foods[n], ts)) == EstimateAlong(geo, from, foods[n], ts) by {
        assert foods[n] in foods;
        EstimateAlongFrame(geo, from, foods[n], ts);
      }
    }
  }

  /** The same, for the i-th food of a list. */
  twostate lemma EstimateAlongFrameAt(new geo: Oracle, new from: Point, foods: seq<Food>, new ts: seq<Terrain>, new i: nat)
    requires old(allocated(ts))
    requires i < |foods|
    requires forall f :: f in foods ==> unchanged(f)
    requires forall t :: t in ts ==> unchanged(t)
    ensures old(EstimateAlong(geo, from, foods[i], ts)) == EstimateAlong(geo, from, foods[i], ts)
  {
    assert foods[i] in foods;
    EstimateAlongFrame(geo, from, foods[i], ts);
  }
}
