/**
 * Finding and rating shots (`find_shots`, `determine_approach_direction`,
 * `shot_quality` in SamBot.py). The prediction is sampled every sixth slice
 * from slice 60 to slice 354; each sample is classified by the ball's height
 * into a jump shot, an aerial or nothing; a short shot is added when the ball
 * is close now; the candidates without a ball location or that fail the
 * routines' validity test are dropped.
 */
module Shots {
  import opened Vectors
  import opened Wrappers
  import opened Game
  import opened Sequences

  /** Approach backwards (-1) when the ball lies more than 2.8 radians off the car's nose, else forwards (1). */
  function DetermineApproachDirection(g: Geometry, w: World, ballLocation: Vec): (d: int)
    ensures d == 1 || d == -1
    ensures d == -1 <==> g.angle(g.normalize(w.me.forward), g.normalize(Sub(ballLocation, w.me.location))) > 2.8
  {
    var carToBall := Sub(ballLocation, w.me.location);
    var carToBallDirection := g.normalize(carToBall);
    var forwardDirection := g.normalize(w.me.forward);
    var angle := g.angle(forwardDirection, carToBallDirection);
    if angle > 2.8 then -1 else 1
  }

  /** How well a hit from `from` through `ball` points at `goal`: the dot product of the two directions. */
  function Alignment(g: Geometry, from: Vec, ball: Vec, goal: Vec): real {
    Dot(g.normalize(Sub(ball, from)), g.normalize(Sub(goal, ball)))
  }

  /** The prediction slice read at step `k` of the scan. */
  function SampleIndex(k: int): int {
    6 * k
  }

  /** The candidate, if any, that one prediction sample yields. */
  function Classify(g: Geometry, w: World, pred: Slice): (r: Option<Shot>)
    ensures r.Some? ==> Abs(pred.location.y) <= 5120.0 && r.value.HasBallLocation()
    ensures r.Some? ==> r.value.ballLocation == pred.location && r.value.interceptTime == pred.gameSeconds
    ensures r.Some? ==> r.value.ratio == Alignment(g, w.me.location, pred.location, w.foeGoal)
    ensures r.Some? ==> r.value.shotVector == g.normalize(Sub(w.foeGoal, pred.location))
    ensures r.Some? && r.value.JumpShot? ==>
      pred.location.z < 300.0 && r.value.ratio > 0.5
      && r.value.direction == DetermineApproachDirection(g, w, pred.location)
    ensures r.Some? && r.value.AerialShot? ==>
      300.0 < pred.location.z < 750.0 && w.me.boost > 30 && r.value.ratio > 0.7
    ensures pred.location.z == 300.0 || pred.location.z >= 750.0 ==> r.None?
    ensures Abs(pred.location.y) <= 5120.0 && pred.location.z < 300.0
            && Alignment(g, w.me.location, pred.location, w.foeGoal) > 0.5
            ==> r.Some? && r.value.JumpShot?
    ensures Abs(pred.location.y) <= 5120.0 && 300.0 < pred.location.z < 750.0 && w.me.boost > 30
            && Alignment(g, w.me.location, pred.location, w.foeGoal) > 0.7
            ==> r.Some? && r.value.AerialShot?
  {
    var ballLocation := pred.location;
    var time := pred.gameSeconds - w.time;
    if Abs(ballLocation.y) > 5120.0 then None
    else if ballLocation.z < 300.0 then
      var shotVector := g.normalize(Sub(w.foeGoal, ballLocation));
      var carToBall := g.normalize(Sub(ballLocation, w.me.location));
      var alignment := Dot(carToBall, shotVector);
      if alignment > 0.5 then
        Some(JumpShot(ballLocation, w.time + time, shotVector, alignment,
                      DetermineApproachDirection(g, w, ballLocation)))
      else None
    else if ballLocation.z > 300.0 && ballLocation.z < 750.0 && w.me.boost > 30 then
      var shotVector := g.normalize(Sub(w.foeGoal, ballLocation));
      var carToBall := g.normalize(Sub(ballLocation, w.me.location));
      var alignment := Dot(carToBall, shotVector);
      if alignment > 0.7 then Some(AerialShot(ballLocation, w.time + time, shotVector, alignment))
      else None
    else None
  }

  /** The candidates from scan steps 10 up to (not including) `n`, in scan order. */
  function Scan(g: Geometry, w: World, prediction: seq<Slice>, n: int): (r: seq<Shot>)
    requires 10 <= n <= 60 && |prediction| > 354
    ensures |r| <= n - 10
    ensures forall s :: s in r ==> s.HasBallLocation()
    decreases n
  {
    if n == 10 then []
    else Scan(g, w, prediction, n - 1) + OptionToSeq(Classify(g, w, prediction[SampleIndex(n - 1)]))
  }

  /** The prediction index each candidate of `Scan(g, w, prediction, n)` was read from. */
  ghost function ScanOrigins(g: Geometry, w: World, prediction: seq<Slice>, n: int): seq<int>
    requires 10 <= n <= 60 && |prediction| > 354
    decreases n
  {
    if n == 10 then []
    else
      ScanOrigins(g, w, prediction, n - 1)
      + (if Classify(g, w, prediction[SampleIndex(n - 1)]).Some? then [SampleIndex(n - 1)] else [])
  }

  /**
   * The scan reads only the slices 60, 66, ..., 354 and emits its candidates
   * in increasing slice order, each the classification of its slice.
   */
  lemma {:induction false} ScanReadsSampledSlicesInOrder(g: Geometry, w: World, prediction: seq<Slice>, n: int)
    requires 10 <= n <= 60 && |prediction| > 354
    ensures |ScanOrigins(g, w, prediction, n)| == |Scan(g, w, prediction, n)|
    ensures forall i :: 0 <= i < |ScanOrigins(g, w, prediction, n)| ==>
      var o := ScanOrigins(g, w, prediction, n)[i];
      o % 6 == 0 && 60 <= o <= 354 && Classify(g, w, prediction[o]) == Some(Scan(g, w, prediction, n)[i])
    ensures forall i, j :: 0 <= i < j < |ScanOrigins(g, w, prediction, n)| ==>
      ScanOrigins(g, w, prediction, n)[i] < ScanOrigins(g, w, prediction, n)[j]
    ensures forall i :: 0 <= i < |ScanOrigins(g, w, prediction, n)| ==>
      ScanOrigins(g, w, prediction, n)[i] < SampleIndex(n)
    decreases n
  {
    if n > 10 {
      ScanReadsSampledSlicesInOrder(g, w, prediction, n - 1);
    }
  }

  /** Every sampled slice the classifier accepts puts its shot into the scan. */
  lemma {:induction false} ScanComplete(g: Geometry, w: World, prediction: seq<Slice>, n: int, k: int)
    requires 10 <= k < n <= 60 && |prediction| > 354
    requires Classify(g, w, prediction[SampleIndex(k)]).Some?
    ensures SampleIndex(k) in ScanOrigins(g, w, prediction, n)
    ensures Classify(g, w, prediction[SampleIndex(k)]).value in Scan(g, w, prediction, n)
    decreases n
  {
    if k < n - 1 {
      ScanComplete(g, w, prediction, n - 1, k);
    }
  }

  /** Two predictions that agree on the sampled slices give the same scan. */
  lemma {:induction false} ScanDependsOnlyOnSamples(g: Geometry, w: World, p1: seq<Slice>, p2: seq<Slice>, n: int)
    requires 10 <= n <= 60 && |p1| > 354 && |p2| > 354
    requires forall k :: 10 <= k < 60 ==> p1[SampleIndex(k)] == p2[SampleIndex(k)]
    ensures Scan(g, w, p1, n) == Scan(g, w, p2, n)
    decreases n
  {
    if n > 10 {
      ScanDependsOnlyOnSamples(g, w, p1, p2, n - 1);
      assert p1[SampleIndex(n - 1)] == p2[SampleIndex(n - 1)];
    }
  }

  /** The short shot offered when the ball is close and low now and the alignment exceeds 0.3. */
  function ImmediateShot(g: Geometry, w: World): (r: seq<Shot>)
    ensures |r| <= 1
    ensures forall s :: s in r ==> s == ShortShot(w.foeGoal)
    ensures r != [] <==>
      g.magnitude(Sub(w.me.location, w.ball.location)) < 1500.0 && w.ball.location.z < 300.0
      && Alignment(g, w.me.location, w.ball.location, w.foeGoal) > 0.3
  {
    if g.magnitude(Sub(w.me.location, w.ball.location)) < 1500.0 && w.ball.location.z < 300.0 then
      var shotVector := g.normalize(Sub(w.foeGoal, w.ball.location));
      var carToBall := g.normalize(Sub(w.ball.location, w.me.location));
      var alignment := Dot(carToBall, shotVector);
      if alignment > 0.3 then [ShortShot(w.foeGoal)] else []
    else []
  }

  /** Every shot `find_shots` builds before filtering, in the order it appends them. */
  function Candidates(g: Geometry, w: World, prediction: seq<Slice>): seq<Shot>
    requires |prediction| > 354
  {
    Scan(g, w, prediction, 60) + ImmediateShot(g, w)
  }

  /** The filter's test: the shot has a ball location and the routines call it valid. */
  function Keeps(valid: Shot -> bool): Shot -> bool {
    (s: Shot) => s.HasBallLocation() && valid(s)
  }

  /** What `find_shots` returns. */
  function ValidShots(g: Geometry, valid: Shot -> bool, w: World, prediction: seq<Slice>): (r: seq<Shot>)
    requires |prediction| > 354
    ensures forall s :: s in r ==> s.HasBallLocation() && valid(s)
    ensures forall i :: 0 <= i < |r| ==> !r[i].ShortShot?
  {
    var kept := Filter(Keeps(valid), Candidates(g, w, prediction));
    assert forall i :: 0 <= i < |kept| ==> kept[i] in kept;
    kept
  }

  /** The filtering loop at the end of `find_shots`: keeps the shots with a ball location that are valid. */
  method KeepValidShots(valid: Shot -> bool, shots: seq<Shot>) returns (validShots: seq<Shot>)
    ensures validShots == Filter(Keeps(valid), shots)
  {
    validShots := [];
    for j := 0 to |shots|
      invariant validShots == Filter(Keeps(valid), shots[..j])
    {
      var shot := shots[j];
      FilterSnoc(Keeps(valid), shots, j);
      assert Keeps(valid)(shot) == (shot.HasBallLocation() && valid(shot));
      if shot.HasBallLocation() && valid(shot) {
        validShots := validShots + [shot];
      }
    }
    assert shots[..|shots|] == shots;
  }

  /** The scanning loop of `find_shots`: classifies slices 60, 66, ..., 354 in turn. */
  method ScanPrediction(g: Geometry, w: World, prediction: seq<Slice>) returns (shots: seq<Shot>)
    requires |prediction| > 354
    ensures shots == Scan(g, w, prediction, 60)
    ensures forall s :: s in shots ==> s.HasBallLocation()
  {
    shots := [];
    for i := 10 to 60
      invariant shots == Scan(g, w, prediction, i)
    {
      var pred := prediction[SampleIndex(i)];
      var ballLocation := pred.location;
      var time := pred.gameSeconds - w.time;
      if Abs(ballLocation.y) > 5120.0 {
        continue;
      }
      if ballLocation.z < 300.0 {
        var shotVector := g.normalize(Sub(w.foeGoal, ballLocation));
        var carToBall := g.normalize(Sub(ballLocation, w.me.location));
        var alignment := Dot(carToBall, shotVector);
        if alignment > 0.5 {
          shots := shots + [JumpShot(ballLocation, w.time + time, shotVector, alignment,
                                     DetermineApproachDirection(g, w, ballLocation))];
        }
      } else if ballLocation.z > 300.0 && ballLocation.z < 750.0 && w.me.boost > 30 {
        var shotVector := g.normalize(Sub(w.foeGoal, ballLocation));
        var carToBall := g.normalize(Sub(ballLocation, w.me.location));
        var alignment := Dot(carToBall, shotVector);
        if alignment > 0.7 {
          shots := shots + [AerialShot(ballLocation, w.time + time, shotVector, alignment)];
        }
      }
    }
  }

  method FindShots(g: Geometry, valid: Shot -> bool, w: World, prediction: seq<Slice>) returns (validShots: seq<Shot>)
    requires |prediction| > 354
    ensures validShots == ValidShots(g, valid, w, prediction)
    ensures IsSubsequence(validShots, Candidates(g, w, prediction))
    ensures forall s :: s in validShots <==> s in Candidates(g, w, prediction) && s.HasBallLocation() && valid(s)
  {
    var shots := ScanPrediction(g, w, prediction);

    if g.magnitude(Sub(w.me.location, w.ball.location)) < 1500.0 && w.ball.location.z < 300.0 {
      var shotVector := g.normalize(Sub(w.foeGoal, w.ball.location));
      var carToBall := g.normalize(Sub(w.ball.location, w.me.location));
      var alignment := Dot(carToBall, shotVector);
      if alignment > 0.3 {
        shots := shots + [ShortShot(w.foeGoal)];
      }
    }
    assert shots == Candidates(g, w, prediction);

    validShots := KeepValidShots(valid, shots);
    FilterIsSubsequence(Keeps(valid), shots);
  }

  /** The immediate short shot never survives the filter: the result is the filtered scan alone. */
  lemma ShortShotNeverSurvives(g: Geometry, valid: Shot -> bool, w: World, prediction: seq<Slice>)
    requires |prediction| > 354
    ensures ValidShots(g, valid, w, prediction) == Filter(Keeps(valid), Scan(g, w, prediction, 60))
    ensures forall s :: s in ValidShots(g, valid, w, prediction) ==> !s.ShortShot?
  {
    var immediate := ImmediateShot(g, w);
    FilterConcat(Keeps(valid), Scan(g, w, prediction, 60), immediate);
    assert immediate == [] || immediate == [ShortShot(w.foeGoal)];
    assert Filter(Keeps(valid), immediate) == [];
  }

  /**
   * `find_shots` misses no shot: the jump shot or aerial a sampled slice
   * yields is returned whenever the routines call it valid.
   */
  lemma FindShotsComplete(g: Geometry, valid: Shot -> bool, w: World, prediction: seq<Slice>, k: int)
    requires 10 <= k < 60 && |prediction| > 354
    requires Classify(g, w, prediction[SampleIndex(k)]).Some?
    requires valid(Classify(g, w, prediction[SampleIndex(k)]).value)
    ensures Classify(g, w, prediction[SampleIndex(k)]).value in ValidShots(g, valid, w, prediction)
  {
    var shot := Classify(g, w, prediction[SampleIndex(k)]).value;
    ScanComplete(g, w, prediction, 60, k);
    assert shot in Candidates(g, w, prediction);
    assert Keeps(valid)(shot);
  }

  /** `find_shots` depends on the prediction only through slices 60, 66, ..., 354. */
  lemma FindShotsReadsOnlySamples(g: Geometry, valid: Shot -> bool, w: World, p1: seq<Slice>, p2: seq<Slice>)
    requires |p1| > 354 && |p2| > 354
    requires forall k :: 10 <= k < 60 ==> p1[SampleIndex(k)] == p2[SampleIndex(k)]
    ensures ValidShots(g, valid, w, p1) == ValidShots(g, valid, w, p2)
  {
    ScanDependsOnlyOnSamples(g, w, p1, p2, 60);
  }

  /**
   * The score a shot is ranked by: -10 for a shot without a ball location;
   * otherwise twice the alignment, less half the time to intercept, plus 1.5
   * times how centred the ball is on the opponent goal (1 at the goal's x,
   * falling by 1 every 800 units), less a ten-thousandth of the distance, plus
   * 1.5 when the car could cover that distance at 2300 units per second.
   */
  function ShotQuality(g: Geometry, w: World, shot: Shot): (q: real)
    ensures !shot.HasBallLocation() ==> q == -10.0
    ensures shot.HasBallLocation() ==>
      var dist := g.magnitude(Sub(w.me.location, shot.ballLocation));
      var t := shot.interceptTime - w.time;
      q == 2.0 * shot.ratio - 0.5 * t + 1.5 * (1.0 - Abs(shot.ballLocation.x - w.foeGoal.x) / 800.0)
           - dist / 10000.0 + (if 2300.0 * t >= dist then 1.5 else 0.0)
  {
    if !shot.HasBallLocation() then -10.0
    else
      var ballDist := g.magnitude(Sub(w.me.location, shot.ballLocation));
      var timeFactor := shot.interceptTime - w.time;
      var goalCenter := w.foeGoal;
      var shotOnTarget := 1.0 - (Abs(shot.ballLocation.x - goalCenter.x) / 800.0);
      var timeToBall := timeFactor;
      var distancePossible := 2300.0 * timeToBall;
      var speedFactor := if distancePossible >= ballDist then 1.5 else 0.0;
      var q1 := shot.ratio * 2.0;
      var q2 := q1 - timeFactor * 0.5;
      var q3 := q2 + shotOnTarget * 1.5;
      var q4 := q3 - ballDist / 10000.0;
      q4 + speedFactor
  }

  /** The sort key `run` uses. */
  function QualityKey(g: Geometry, w: World): Shot -> real {
    (s: Shot) => ShotQuality(g, w, s)
  }

  /** Of two shots that differ only in alignment, the better aligned one scores higher. */
  lemma QualityRewardsAlignment(g: Geometry, w: World, s1: Shot, s2: Shot)
    requires s1.HasBallLocation() && s2.HasBallLocation() && s2 == s1.(ratio := s2.ratio)
    requires s1.ratio < s2.ratio
    ensures ShotQuality(g, w, s1) < ShotQuality(g, w, s2)
  {
  }

  /**
   * A jump shot or aerial with the ball at most 4096 units across from the
   * goal's x and at most 20000 units away, intercepted no more than 3 seconds
   * ahead, scores above the -10 of a short shot. The 3-second bound is a
   * premise: intercept times come from the prediction and are not bounded by
   * the model. `run` never makes this comparison, since the short shot is
   * filtered out before the sort (`ShortShotNeverSurvives`).
   */
  lemma RealShotsOutscoreShortShot(g: Geometry, w: World, shot: Shot)
    requires shot.HasBallLocation() && shot.ratio > 0.5
    requires 0.0 <= shot.interceptTime - w.time <= 3.0
    requires Abs(shot.ballLocation.x - w.foeGoal.x) <= 4096.0
    requires 0.0 <= g.magnitude(Sub(w.me.location, shot.ballLocation)) <= 20000.0
    ensures ShotQuality(g, w, shot) > ShotQuality(g, w, ShortShot(w.foeGoal))
  {
  }
}
