/** The two selection policies of the simulator, stated over plain sequences: the running
    maximum that picks a target food, and the first-match scans that pick the terrain patch
    a sensor reacts to, the terrain underfoot, and the entity a mouse press selects. */
module Selection {
  import opened Wrappers

  // ----- Running maximum above a zero threshold (Vehicle.setTargetFood) -----

  /** The state of the loop after a prefix of gains: the index of the target so far and the
      largest gain so far (0 before anything beats it). A candidate replaces the current one
      only when its gain is strictly larger. */
  datatype Best = Best(index: Option<nat>, largest: real)

  function RunningBest(gains: seq<real>): (b: Best)
    ensures b.index.Some? ==> b.index.value < |gains|
    ensures 0.0 <= b.largest
  {
    if |gains| == 0 then Best(None, 0.0)
    else
      var prev := RunningBest(gains[..|gains| - 1]);
      if gains[|gains| - 1] > prev.largest then Best(Some(|gains| - 1), gains[|gains| - 1])
      else prev
  }

  /** One more candidate: it becomes the best exactly when it beats the largest gain so far. */
  lemma RunningBestSnoc(gains: seq<real>, g: real)
    ensures RunningBest(gains + [g]) ==
              if g > RunningBest(gains).largest then Best(Some(|gains|), g) else RunningBest(gains)
  {
    assert (gains + [g])[..|gains|] == gains;
  }

  /** The same step read on prefixes of one list of gains. */
  lemma RunningBestPrefixStep(gains: seq<real>, i: nat)
    requires i < |gains|
    ensures RunningBest(gains[..i + 1]) ==
              if gains[i] > RunningBest(gains[..i]).largest then Best(Some(i), gains[i]) else RunningBest(gains[..i])
  {
    assert gains[..i + 1] == gains[..i] + [gains[i]];
    RunningBestSnoc(gains[..i], gains[i]);
  }

  /** `k` holds the largest gain, that gain is positive, and every earlier gain is smaller. */
  ghost predicate IsFirstPositiveMax(gains: seq<real>, k: nat)
  {
    && k < |gains|
    && 0.0 < gains[k]
    && (forall j :: 0 <= j < |gains| ==> gains[j] <= gains[k])
    && (forall j :: 0 <= j < k ==> gains[j] < gains[k])
  }

  /** The loop picks exactly the earliest index of a positive maximum gain (and any such index
      is the one it picks), and picks nothing exactly when no gain is positive. */
  lemma {:induction false} RunningBestIsFirstPositiveMax(gains: seq<real>)
    ensures RunningBest(gains).index.None? <==> (forall j :: 0 <= j < |gains| ==> gains[j] <= 0.0)
    ensures RunningBest(gains).index.None? ==> RunningBest(gains).largest == 0.0
    ensures RunningBest(gains).index.Some? ==>
              && IsFirstPositiveMax(gains, RunningBest(gains).index.value)
              && RunningBest(gains).largest == gains[RunningBest(gains).index.value]
    ensures forall k: nat :: IsFirstPositiveMax(gains, k) ==> RunningBest(gains).index == Some(k)
  {
    if |gains| > 0 {
      var n := |gains| - 1;
      var init := gains[..n];
      RunningBestIsFirstPositiveMax(init);
      assert forall j :: 0 <= j < n ==> init[j] == gains[j];
    }
  }

  // ----- First match (loops with `break`) -----

  /** The index of the first `true`, or -1 (the "nothing chosen" value of the source) if none. */
  function FirstHit(hits: seq<bool>): (k: int)
    ensures -1 <= k < |hits|
    ensures k == -1 <==> (forall j :: 0 <= j < |hits| ==> !hits[j])
    ensures 0 <= k ==> hits[k] && forall j :: 0 <= j < k ==> !hits[j]
  {
    if |hits| == 0 then -1
    else if hits[0] then 0
    else
      var k := FirstHit(hits[1..]);
      assert forall j :: 1 <= j < |hits| ==> hits[j] == hits[1..][j - 1];
      if k == -1 then -1 else k + 1
  }

  ghost predicate NoHit(hits: seq<bool>)
  {
    forall j :: 0 <= j < |hits| ==> !hits[j]
  }

  // ----- Mouse press: vehicles first, then distance food, energy food, terrain (Field) -----

  /** The four chosen indices of the field; -1 means "not chosen". */
  datatype Chosen = Chosen(vehicle: int, distanceFood: int, energyFood: int, terrain: int)
  {
    ghost predicate AtMostOne()
    {
      && (0 <= vehicle ==> distanceFood == -1 && energyFood == -1 && terrain == -1)
      && (0 <= distanceFood ==> vehicle == -1 && energyFood == -1 && terrain == -1)
      && (0 <= energyFood ==> vehicle == -1 && distanceFood == -1 && terrain == -1)
      && (0 <= terrain ==> vehicle == -1 && distanceFood == -1 && energyFood == -1)
    }
  }

  const NONE_CHOSEN: Chosen := Chosen(-1, -1, -1, -1)

  /** What a press selects, given which shapes of each list contain the point. */
  function PressChoice(vehicleHits: seq<bool>, distanceHits: seq<bool>,
                       energyHits: seq<bool>, terrainHits: seq<bool>): (c: Chosen)
    ensures c.AtMostOne()
    ensures c == NONE_CHOSEN <==>
              NoHit(vehicleHits) && NoHit(distanceHits) && NoHit(energyHits) && NoHit(terrainHits)
    ensures 0 <= c.vehicle ==> c.vehicle == FirstHit(vehicleHits)
    ensures 0 <= c.distanceFood ==> NoHit(vehicleHits) && c.distanceFood == FirstHit(distanceHits)
    ensures 0 <= c.energyFood ==>
              NoHit(vehicleHits) && NoHit(distanceHits) && c.energyFood == FirstHit(energyHits)
    ensures 0 <= c.terrain ==>
              NoHit(vehicleHits) && NoHit(distanceHits) && NoHit(energyHits)
              && c.terrain == FirstHit(terrainHits)
    ensures -1 <= c.vehicle && -1 <= c.distanceFood && -1 <= c.energyFood && -1 <= c.terrain
    ensures !NoHit(vehicleHits) ==> 0 <= c.vehicle
    ensures NoHit(vehicleHits) && !NoHit(distanceHits) ==> 0 <= c.distanceFood
    ensures NoHit(vehicleHits) && NoHit(distanceHits) && !NoHit(energyHits) ==> 0 <= c.energyFood
    ensures NoHit(vehicleHits) && NoHit(distanceHits) && NoHit(energyHits) && !NoHit(terrainHits) ==> 0 <= c.terrain
  {
    var v := FirstHit(vehicleHits);
    if v != -1 then Chosen(v, -1, -1, -1)
    else
      var d := FirstHit(distanceHits);
      if d != -1 then Chosen(-1, d, -1, -1)
      else
        var e := FirstHit(energyHits);
        if e != -1 then Chosen(-1, -1, e, -1)
        else Chosen(-1, -1, -1, FirstHit(terrainHits))
  }
}
