/**
 * Positional play when there is no shot (`defensive_positioning_needed`,
 * `defensive_position`, `offensive_position` in SamBot.py).
 */
module Positioning {
  import opened Vectors
  import opened Game

  /** Defend when the ball is nearer the own goal than the opponent's, or moves toward the own goal faster than 500. */
  function DefensivePositioningNeeded(g: Geometry, w: World): (r: bool)
    ensures r <==>
      g.magnitude(Sub(w.friendGoal, w.ball.location)) < g.magnitude(Sub(w.foeGoal, w.ball.location))
      || Dot(w.ball.velocity, g.normalize(Sub(w.friendGoal, w.ball.location))) > 500.0
  {
    var ballToOurGoal := g.magnitude(Sub(w.friendGoal, w.ball.location));
    var ballToTheirGoal := g.magnitude(Sub(w.foeGoal, w.ball.location));
    if ballToOurGoal < ballToTheirGoal then true
    else
      var ballVelocity := w.ball.velocity;
      var goalDirection := g.normalize(Sub(w.friendGoal, w.ball.location));
      var velocityTowardGoal := Dot(ballVelocity, goalDirection);
      if velocityTowardGoal > 500.0 then true else false
  }

  /** How far out of the own goal the defender stands: half the ball's distance, at most 1000. */
  function DefensiveOffset(g: Geometry, w: World): (d: real)
    ensures d <= 1000.0
    ensures d <= g.magnitude(Sub(w.ball.location, w.friendGoal)) * 0.5
    ensures d == 1000.0 || d == g.magnitude(Sub(w.ball.location, w.friendGoal)) * 0.5
  {
    Min(1000.0, g.magnitude(Sub(w.ball.location, w.friendGoal)) * 0.5)
  }

  /** The point `DefensiveOffset` out of the own goal toward the ball, with x clamped into [-800, 800]. */
  function DefensiveTarget(g: Geometry, w: World): (t: Vec)
    ensures -800.0 <= t.x <= 800.0
  {
    var goalToBall := g.normalize(Sub(w.ball.location, w.friendGoal));
    var target := Add(w.friendGoal, Scale(goalToBall, DefensiveOffset(g, w)));
    target.(x := Cap(target.x, -800.0, 800.0))
  }

  method DefensivePosition(g: Geometry, w: World) returns (targetPos: Vec)
    ensures targetPos == DefensiveTarget(g, w)
    ensures -800.0 <= targetPos.x <= 800.0
    ensures var u := g.normalize(Sub(w.ball.location, w.friendGoal));
      var d := DefensiveOffset(g, w);
      && targetPos.y == w.friendGoal.y + u.y * d
      && targetPos.z == w.friendGoal.z + u.z * d
      && (-800.0 <= w.friendGoal.x + u.x * d <= 800.0 ==> targetPos.x == w.friendGoal.x + u.x * d)
  {
    var ballLoc := w.ball.location;
    var goalLoc := w.friendGoal;
    var goalToBall := g.normalize(Sub(ballLoc, goalLoc));
    var distanceFromGoal := Min(1000.0, g.magnitude(Sub(ballLoc, goalLoc)) * 0.5);
    targetPos := Add(goalLoc, Scale(goalToBall, distanceFromGoal));
    targetPos := targetPos.(x := Cap(targetPos.x, -800.0, 800.0));
  }

  /** The point 1000 behind the ball on the line from the opponent goal, with x in [-3000, 3000] and y in [-4000, 4000]. */
  function OffensiveTarget(g: Geometry, w: World): (t: Vec)
    ensures -3000.0 <= t.x <= 3000.0 && -4000.0 <= t.y <= 4000.0
  {
    var ballToGoal := g.normalize(Sub(w.foeGoal, w.ball.location));
    var target := Add(w.ball.location, Scale(ballToGoal, -1000.0));
    target.(x := Cap(target.x, -3000.0, 3000.0), y := Cap(target.y, -4000.0, 4000.0))
  }

  method OffensivePosition(g: Geometry, w: World) returns (targetPos: Vec)
    ensures targetPos == OffensiveTarget(g, w)
    ensures -3000.0 <= targetPos.x <= 3000.0 && -4000.0 <= targetPos.y <= 4000.0
    ensures var u := g.normalize(Sub(w.foeGoal, w.ball.location));
      && targetPos.z == w.ball.location.z - 1000.0 * u.z
      && (-3000.0 <= w.ball.location.x - 1000.0 * u.x <= 3000.0 ==> targetPos.x == w.ball.location.x - 1000.0 * u.x)
      && (-4000.0 <= w.ball.location.y - 1000.0 * u.y <= 4000.0 ==> targetPos.y == w.ball.location.y - 1000.0 * u.y)
  {
    var ballLoc := w.ball.location;
    var goalLoc := w.foeGoal;
    var ballToGoal := g.normalize(Sub(goalLoc, ballLoc));
    targetPos := Add(ballLoc, Scale(ballToGoal, -1000.0));
    targetPos := targetPos.(x := Cap(targetPos.x, -3000.0, 3000.0));
    targetPos := targetPos.(y := Cap(targetPos.y, -4000.0, 4000.0));
  }
}
