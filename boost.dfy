/**
 * Boost management (`should_collect_boost`, `find_closest_boost` in
 * SamBot.py): whether to detour for boost, and which active pad is nearest.
 */
module Boost {
  import opened Vectors
  import opened Wrappers
  import opened Game

  /**
   * Go for boost only when low (below 30), on the ground, and not the car
   * defending a close ball near its own goal. The early "more than 50"
   * return never changes the answer.
   */
  function ShouldCollectBoost(g: Geometry, w: World): (r: bool)
    ensures r <==>
      w.me.boost < 30 && !w.me.airborne
      && !(g.magnitude(Sub(w.me.location, w.ball.location)) < 1500.0
           && g.magnitude(Sub(w.ball.location, w.friendGoal)) < 3500.0)
  {
    if w.me.boost > 50 then false
    else if g.magnitude(Sub(w.me.location, w.ball.location)) < 1500.0
            && g.magnitude(Sub(w.ball.location, w.friendGoal)) < 3500.0 then false
    else if w.me.airborne then false
    else w.me.boost < 30
  }

  function PadDistance(g: Geometry, w: World, pad: BoostPad): real {
    g.magnitude(Sub(w.me.location, pad.location))
  }

  /**
   * The index of the pad `find_closest_boost` settles on after looking at the
   * first `n` pads: none when airborne or none of them is active, otherwise
   * an active pad no farther than any other active one and strictly nearer
   * than every active pad before it.
   */
  function ClosestBoostIndex(g: Geometry, w: World, n: nat): (r: Option<nat>)
    requires n <= |w.boosts|
    ensures r.None? <==> w.me.airborne || forall j :: 0 <= j < n ==> !w.boosts[j].active
    ensures r.Some? ==> r.value < n && w.boosts[r.value].active && !w.me.airborne
    ensures r.Some? ==> forall j :: 0 <= j < n && w.boosts[j].active ==>
      PadDistance(g, w, w.boosts[r.value]) <= PadDistance(g, w, w.boosts[j])
    ensures r.Some? ==> forall j :: 0 <= j < r.value && w.boosts[j].active ==>
      PadDistance(g, w, w.boosts[r.value]) < PadDistance(g, w, w.boosts[j])
  {
    if n == 0 then None
    else
      var prev := ClosestBoostIndex(g, w, n - 1);
      var boost := w.boosts[n - 1];
      if boost.active && !w.me.airborne
         && (prev.None? || PadDistance(g, w, boost) < PadDistance(g, w, w.boosts[prev.value]))
      then Some(n - 1)
      else prev
  }

  function ClosestBoost(g: Geometry, w: World): Option<BoostPad> {
    match ClosestBoostIndex(g, w, |w.boosts|)
    case None => None
    case Some(i) => Some(w.boosts[i])
  }

  /** A distance or the `float('inf')` the search starts from. */
  datatype Distance = Finite(value: real) | Infinity

  function Below(d: real, e: Distance): bool {
    e.Infinity? || d < e.value
  }

  method FindClosestBoost(g: Geometry, w: World) returns (closestBoost: Option<BoostPad>)
    ensures closestBoost == ClosestBoost(g, w)
    ensures closestBoost.None? <==> w.me.airborne || forall j :: 0 <= j < |w.boosts| ==> !w.boosts[j].active
    ensures closestBoost.Some? ==> closestBoost.value in w.boosts && closestBoost.value.active
    ensures closestBoost.Some? ==> forall j :: 0 <= j < |w.boosts| && w.boosts[j].active ==>
      PadDistance(g, w, closestBoost.value) <= PadDistance(g, w, w.boosts[j])
  {
    closestBoost := None;
    var closestDistance := Infinity;
    for i := 0 to |w.boosts|
      invariant closestBoost.None? <==> ClosestBoostIndex(g, w, i).None?
      invariant closestBoost.Some? ==> closestBoost.value == w.boosts[ClosestBoostIndex(g, w, i).value]
      invariant closestBoost.None? <==> closestDistance.Infinity?
      invariant closestBoost.Some? ==> closestDistance == Finite(PadDistance(g, w, closestBoost.value))
    {
      var boost := w.boosts[i];
      ghost var prev := ClosestBoostIndex(g, w, i);
      assert ClosestBoostIndex(g, w, i + 1) ==
        if boost.active && !w.me.airborne
           && (prev.None? || PadDistance(g, w, boost) < PadDistance(g, w, w.boosts[prev.value]))
        then Some(i) else prev;
      if boost.active && !w.me.airborne {
        var dist := g.magnitude(Sub(w.me.location, boost.location));
        if Below(dist, closestDistance) {
          closestDistance := Finite(dist);
          closestBoost := Some(boost);
        }
      }
    }
    ghost var k := ClosestBoostIndex(g, w, |w.boosts|);
    assert k.Some? ==> w.boosts[k.value] in w.boosts;
  }
}
