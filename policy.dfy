/**
 * The per-tick decision of `SamBot.run`: when the action stack is empty,
 * push the kickoff, or a boost detour, or the head of the shots sorted by
 * quality, or a defensive or offensive reposition (the latter followed by a
 * short shot when the ball is within 500).
 */
module Policy {
  import opened Vectors
  import opened Wrappers
  import opened Game
  import opened Sequences
  import opened Shots
  import opened Boost
  import opened Positioning

  /** The pad of the boost detour, if the tick takes one: boost is wanted and some pad qualifies. */
  function BoostTarget(g: Geometry, w: World): (r: Option<BoostPad>)
    ensures r.Some? <==> ShouldCollectBoost(g, w) && ClosestBoost(g, w).Some?
    ensures r.Some? ==> r == ClosestBoost(g, w)
  {
    if ShouldCollectBoost(g, w) then ClosestBoost(g, w) else None
  }

  /**
   * The fallback when there is nothing to shoot: go to the defensive spot
   * facing the opponent goal, or to the offensive spot facing the ball and,
   * when the ball is within 500, follow with a short shot at the opponent goal.
   */
  function Reposition(g: Geometry, w: World): (r: seq<Action>)
    ensures 1 <= |r| <= 2 && r[0].Goto?
    ensures DefensivePositioningNeeded(g, w) ==>
      r == [Goto(DefensiveTarget(g, w), Sub(w.foeGoal, w.me.location))] && -800.0 <= r[0].target.x <= 800.0
    ensures !DefensivePositioningNeeded(g, w) ==>
      && r[0] == Goto(OffensiveTarget(g, w), Sub(w.ball.location, w.me.location))
      && -3000.0 <= r[0].target.x <= 3000.0 && -4000.0 <= r[0].target.y <= 4000.0
    ensures |r| == 2 <==> !DefensivePositioningNeeded(g, w) && g.magnitude(Sub(w.me.location, w.ball.location)) < 500.0
    ensures |r| == 2 ==> r[1] == TakeShot(ShortShot(w.foeGoal))
  {
    if DefensivePositioningNeeded(g, w) then
      [Goto(DefensiveTarget(g, w), Sub(w.foeGoal, w.me.location))]
    else
      [Goto(OffensiveTarget(g, w), Sub(w.ball.location, w.me.location))]
      + (if g.magnitude(Sub(w.me.location, w.ball.location)) < 500.0 then [TakeShot(ShortShot(w.foeGoal))] else [])
  }

  /**
   * The actions one tick pushes onto an empty stack, in push order, given the
   * shots `find_shots` returned. The shot taken is the head of the ascending
   * sort by quality: the earliest shot of LEAST quality.
   */
  function Decide(g: Geometry, w: World, shots: seq<Shot>): (r: seq<Action>)
    requires forall i :: 0 <= i < |shots| ==> !shots[i].ShortShot?
    ensures 1 <= |r| <= 2
    ensures w.kickoffFlag ==> r == [Kickoff]
    ensures r[0].GotoBoost? <==> !w.kickoffFlag && BoostTarget(g, w).Some?
    ensures r[0].GotoBoost? ==>
      && r == [GotoBoost(BoostTarget(g, w).value, r[0].waypoint)]
      && (r[0].waypoint.Some? <==> shots != [])
      && (r[0].waypoint.Some? ==> r[0].waypoint.value == shots[0].ballLocation)
    ensures r[0].TakeShot? <==> !w.kickoffFlag && BoostTarget(g, w).None? && shots != []
    ensures r[0].TakeShot? ==> shots != [] && r == [TakeShot(shots[ArgMin(shots, QualityKey(g, w))])]
    ensures r[0].Goto? <==> !w.kickoffFlag && BoostTarget(g, w).None? && shots == []
    ensures r[0].Goto? ==> r == Reposition(g, w)
  {
    if w.kickoffFlag then [Kickoff]
    else
      var closestBoost := BoostTarget(g, w);
      if closestBoost.Some? then
        if |shots| > 0 then [GotoBoost(closestBoost.value, Some(shots[0].ballLocation))]
        else [GotoBoost(closestBoost.value, None)]
      else if |shots| > 0 then
        SortHeadIsArgMin(shots, QualityKey(g, w));
        [TakeShot(InsertionSort(shots, QualityKey(g, w))[0])]
      else Reposition(g, w)
  }

  /**
   * With two valid shots, the better listed first, `Decide` takes the worse:
   * the ascending sort puts the lower score at the head.
   */
  lemma DecideTakesLeastQualityShot(g: Geometry, w: World, low: Shot, high: Shot)
    requires !w.kickoffFlag && BoostTarget(g, w).None?
    requires !low.ShortShot? && !high.ShortShot?
    requires ShotQuality(g, w, low) < ShotQuality(g, w, high)
    ensures Decide(g, w, [high, low]) == [TakeShot(low)]
  {
    var shots := [high, low];
    assert ArgMin(shots, QualityKey(g, w)) == 1;
  }

  /**
   * The shot the scorer's comments ask for: the head of the stable sort by
   * DESCENDING quality, which is the earliest shot of greatest quality.
   */
  function IntendedShot(g: Geometry, w: World, shots: seq<Shot>): (s: Shot)
    requires shots != []
    ensures s in shots
    ensures forall i :: 0 <= i < |shots| ==> ShotQuality(g, w, shots[i]) <= ShotQuality(g, w, s)
    ensures s == shots[ArgMax(shots, QualityKey(g, w))]
  {
    DescendingSortHeadIsArgMax(shots, QualityKey(g, w));
    InsertionSort(shots, Negated(QualityKey(g, w)))[0]
  }

  /** On the same two shots the descending selection takes the better one. */
  lemma IntendedShotTakesBest(g: Geometry, w: World, low: Shot, high: Shot)
    requires ShotQuality(g, w, low) < ShotQuality(g, w, high)
    ensures IntendedShot(g, w, [high, low]) == high
  {
  }

  /**
   * The bot. Only its action stack changes from tick to tick; the game state,
   * the ball prediction, the vector primitives and the routines' validity
   * test are handed to `Run` each tick.
   */
  class SamBot {
    var stack: seq<Action>

    constructor ()
      ensures stack == []
    {
      stack := [];
    }

    method Push(action: Action)
      modifies this
      ensures stack == old(stack) + [action]
    {
      stack := stack + [action];
    }

    /** Decides only when the stack is empty, and then pushes exactly `Decide`'s actions. */
    method Run(g: Geometry, valid: Shot -> bool, w: World, prediction: seq<Slice>)
      requires |prediction| > 354
      modifies this
      ensures old(stack) != [] ==> stack == old(stack)
      ensures old(stack) == [] ==> stack == Decide(g, w, ValidShots(g, valid, w, prediction))
    {
      if |stack| < 1 {
        if w.kickoffFlag {
          Push(Kickoff);
        } else {
          var ballPrediction := prediction;
          var shots := FindShots(g, valid, w, ballPrediction);

          if ShouldCollectBoost(g, w) {
            var closestBoost := FindClosestBoost(g, w);
            if closestBoost.Some? {
              if |shots| > 0 {
                Push(GotoBoost(closestBoost.value, Some(shots[0].ballLocation)));
              } else {
                Push(GotoBoost(closestBoost.value, None));
              }
              return;
            }
          }

          if |shots| > 0 {
            shots := InsertionSort(shots, QualityKey(g, w));
            var bestShot := shots[0];
            Push(TakeShot(bestShot));
            return;
          }

          if DefensivePositioningNeeded(g, w) {
            var targetPos := DefensivePosition(g, w);
            Push(Goto(targetPos, Sub(w.foeGoal, w.me.location)));
          } else {
            var targetPos := OffensivePosition(g, w);
            Push(Goto(targetPos, Sub(w.ball.location, w.me.location)));
            if g.magnitude(Sub(w.me.location, w.ball.location)) < 500.0 {
              Push(TakeShot(ShortShot(w.foeGoal)));
            }
          }
        }
      }
    }
  }
}
