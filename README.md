# SamBot decision core, modelled in Dafny

SamBot is a GoslingUtils-based bot for a car-soccer game. It runs once per tick.
When its action stack is empty it pushes one decision, in this order of priority:

1. the kickoff routine, when the kickoff flag is set;
2. a detour for boost, when boost is low and some active pad exists;
3. the best-ranked shot from a scan of the ball prediction;
4. otherwise, a defensive or offensive reposition.

This project models that decision logic (`SamBot.py`) and proves what it
guarantees:

- which prediction slices the shot scan reads, and in what order;
- the height bands and alignment thresholds that admit jump shots and aerials;
- that the shot filter keeps an order-preserving subsequence;
- the exact shot-quality score;
- that the closest-boost search is an arg-min with earliest-wins ties;
- the clamping boxes of the two positions;
- what `run` pushes in each case.

Layout, one module per file:

- `vectors.dfy` (`Vectors`): real 3-vectors and `Cap`. Magnitude, normalisation and angle come in as a `Geometry` of caller-supplied functions.
- `wrappers.dfy` (`Wrappers`): `Option`.
- `game.dfy` (`Game`): the tick's world snapshot, prediction slices, the `Shot` routines and the `Action`s pushed.
- `sequences.dfy` (`Sequences`):
  - list filtering and the subsequence relation;
  - Python's stable ascending `list.sort(key=...)` as an insertion sort;
  - the earliest arg-min that the head of that sort equals.
- `shots.dfy` (`Shots`): `find_shots`, `determine_approach_direction`, `shot_quality`.
- `boost.dfy` (`Boost`): `should_collect_boost`, `find_closest_boost`.
- `positioning.dfy` (`Positioning`): `defensive_positioning_needed`, `defensive_position`, `offensive_position`.
- `policy.dfy` (`Policy`): the pure decision `Decide`, and the class `SamBot`, whose `Run` appends `Decide`'s actions to the `stack` field.

How the two ends of the code map onto the model:

- The loops of `find_shots` and `find_closest_boost` are methods. Each is proved equal to a specification function, and the properties are proved about those functions.
- `Run` follows `run` statement by statement and is proved to push exactly `Decide(g, w, ValidShots(...))`.

`run` sorts the shots ascending by `shot_quality` and takes `shots[0]`, so the shot it
pushes is the one of LEAST quality, the earliest on ties. `Decide` states
exactly that. The scorer's own comments treat a higher score as better
(short shots get -10 as "lower priority"), so the selection runs against the
scorer's stated intent. The model keeps the code's behaviour in `Decide` and
`Run`; the intended selection is defined beside it (see Findings).

The scan indexes `slices[6*i]` for `i` in 10..59 directly, so it needs a
prediction of at least 355 slices; the model requires that. It does not stop
early on a shorter prediction.

## Model

| member | source | states |
|---|---|---|
| `Shots.Classify` | SamBot.py:80-118 | a sample with abs(y) > 5120 gives nothing; a jump shot only from height < 300 with alignment > 0.5, with the approach direction; an aerial only from 300 < height < 750 with boost > 30 and alignment > 0.7; height exactly 300 or ≥ 750 gives nothing; conversely every sample meeting a band's conditions gives that shot; the shot carries the sample's location, its time, the alignment as ratio and the unit vector from the ball to the opponent goal |
| `Shots.Scan` | SamBot.py:76-118 | the candidates of scan steps 10..n-1, at most one per step, all with a ball location |
| `Shots.ScanPrediction` | SamBot.py:73-118 | the scanning loop produces exactly `Scan` over steps 10..59 |
| `Shots.ScanReadsSampledSlicesInOrder` | SamBot.py:76-81 | every scanned candidate comes from a slice index that is a multiple of 6 in [60, 354], equals that slice's classification, and the slice indices strictly increase along the result |
| `Shots.ScanComplete` | SamBot.py:76-118 | every sampled slice 6k (10 ≤ k < n) that the classifier accepts contributes its slice index and its shot to the scan |
| `Shots.ScanDependsOnlyOnSamples` | SamBot.py:76-81 | two predictions that agree on slices 60, 66, ..., 354 give the same scan |
| `Shots.FindShotsReadsOnlySamples` | SamBot.py:71-135 | the result of `find_shots` depends on the prediction only through slices 60, 66, ..., 354 |
| `Shots.ImmediateShot` | SamBot.py:120-127 | a short shot at the opponent goal is offered exactly when the car is within 1500 of the ball, the ball is below 300 and the alignment exceeds 0.3 |
| `Shots.ValidShots` | SamBot.py:129-135 | every shot `find_shots` returns has a ball location and passes the validity test |
| `Shots.KeepValidShots` | SamBot.py:129-135 | the filtering loop yields exactly the candidates that have a ball location and are valid, in order |
| `Shots.FindShots` | SamBot.py:71-135 | the result is an order-preserving subsequence of the candidates; a shot is in it iff it is a candidate with a ball location that passes the validity test |
| `Shots.FindShotsComplete` | SamBot.py:76-135 | every shot a sampled slice 60, 66, ..., 354 yields and the validity test accepts is among the shots `find_shots` returns |
| `Shots.ShortShotNeverSurvives` | SamBot.py:120-135 | the immediate short shot never survives the filter: the result equals the filtered scan alone and holds no short shot |
| `Shots.DetermineApproachDirection` | SamBot.py:138-151 | returns ±1, and -1 exactly when the angle between the car's facing and the direction to the ball exceeds 2.8 |
| `Shots.ShotQuality` | SamBot.py:154-185 | -10 for a shot without a ball location; otherwise 2·ratio − 0.5·t + 1.5·(1 − abs(x − goal.x)/800) − dist/10000, plus 1.5 exactly when 2300·t ≥ dist |
| `Shots.QualityRewardsAlignment` | SamBot.py:179 | of two shots differing only in alignment, the better aligned scores strictly higher |
| `Shots.RealShotsOutscoreShortShot` | SamBot.py:157-158 | a jump shot or aerial with ratio > 0.5, intercepted no more than 3 seconds ahead (a premise the model does not establish), with the ball within 4096 across of the goal's x and within 20000 of the car, scores above a short shot's -10; `run` never makes this comparison, because the filter drops the short shot first |
| `Boost.ShouldCollectBoost` | SamBot.py:52-68 | true exactly when boost < 30, the car is grounded, and not (car–ball < 1500 and ball–own-goal < 3500); the boost > 50 early return never changes the answer |
| `Boost.ClosestBoostIndex` | SamBot.py:188-200 | none iff airborne or no active pad; otherwise an active pad no farther than any active pad and strictly nearer than every earlier active pad (earliest wins ties) |
| `Boost.FindClosestBoost` | SamBot.py:188-200 | the loop returns the pad `ClosestBoostIndex` picks: none iff airborne or no active pad, else an active pad of the list no farther than every active pad |
| `Positioning.DefensivePositioningNeeded` | SamBot.py:203-220 | defend exactly when the ball is nearer the own goal than the opponent's, or its velocity toward the own goal exceeds 500 |
| `Positioning.DefensiveOffset` | SamBot.py:230 | the defender's distance from goal is at most 1000 and at most half the ball's distance, and equal to one of them |
| `Positioning.DefensiveTarget` | SamBot.py:223-236 | the defensive point's x lies in [-800, 800] |
| `Positioning.DefensivePosition` | SamBot.py:223-236 | the point lies the offset out of the own goal toward the ball in y and z; x is clamped into [-800, 800] and left unchanged when already inside |
| `Positioning.OffensiveTarget` | SamBot.py:239-252 | the offensive point lies in x ∈ [-3000, 3000], y ∈ [-4000, 4000] |
| `Positioning.OffensivePosition` | SamBot.py:239-252 | the point is 1000 behind the ball away from the opponent goal, with x clamped into [-3000, 3000] and y into [-4000, 4000], each left unchanged when already inside |
| `Sequences.Filter` | SamBot.py:130-133 | the filtered list is no longer than its input, and holds exactly the input's elements that pass the test |
| `Sequences.FilterIsSubsequence` | SamBot.py:130-133 | filtering keeps an order-preserving subsequence |
| `Sequences.InsertionSort` | SamBot.py:33 | the sort is a permutation of its input |
| `Sequences.InsertionSortIsSorted` | SamBot.py:33 | the sort is ascending by key |
| `Sequences.ArgMin` | SamBot.py:33-34 | the earliest index whose key is least |
| `Sequences.SortHeadIsArgMin` | SamBot.py:33-34 | the head of the stable ascending sort is the earliest element of least key |
| `Sequences.ArgMax` | SamBot.py:33-34 | the earliest index whose key is greatest |
| `Sequences.DescendingSortHeadIsArgMax` | SamBot.py:33-34 | the head of the stable descending sort is the earliest element of greatest key |
| `Policy.BoostTarget` | SamBot.py:20-22 | a detour pad exists exactly when boost is wanted and the closest-boost search finds a pad, and then it is that pad |
| `Policy.Reposition` | SamBot.py:39-49 | defensive: one go-to to a point with x in [-800, 800] facing the opponent goal; offensive: a go-to inside the ±3000/±4000 box facing the ball, followed by a short shot exactly when the ball is within 500 |
| `Policy.Decide` | SamBot.py:10-49 | kickoff flag: only the kickoff; otherwise exactly one boost detour iff boost is wanted and a pad exists, waypoint = first unsorted shot's location iff shots exist; otherwise, with shots, the single shot of least quality, earliest on ties; otherwise the reposition |
| `Policy.DecideTakesLeastQualityShot` | SamBot.py:33-35 | with no kickoff and no boost detour, of two valid shots the lower-scoring one is taken even when listed second |
| `Policy.IntendedShot` | SamBot.py:33-34 | the shot of greatest quality, the earliest on ties, taken from the list |
| `Policy.IntendedShotTakesBest` | SamBot.py:33-34 | on the same two shots the descending selection takes the higher-scoring one |
| `Policy.SamBot.Run` | SamBot.py:7-49 | a non-empty stack is left untouched; on an empty stack exactly `Decide`'s actions for the shots `find_shots` returns are pushed |

## Findings

| source | as written | input that shows it | evidently intended | confidence | as-written member | corrected member |
|---|---|---|---|---|---|---|
| SamBot.py:33-34 | `shots.sort(key=shot_quality)` sorts ascending and `shots[0]` is pushed, so the shot of least quality is taken | no kickoff, no boost detour, two valid shots listed as [high, low] with quality(low) < quality(high): `low` is pushed | take the shot of greatest quality (the scorer's comments at SamBot.py:158-176 call higher scores better), e.g. by sorting with `reverse=True` | not executed; medium (the comments state the intent, the code is unambiguous) | `Policy.DecideTakesLeastQualityShot` | `Policy.IntendedShot`, `Policy.IntendedShotTakesBest` |

`Decide` and `Run` keep the selection as written; `IntendedShot` is the
corrected selection, proved to be the earliest shot of greatest quality.

## Left out

- Magnitude, normalisation and angle from the vector library are not part of this model. They come in as arbitrary functions (`Geometry`). So the model does not capture their floating-point behaviour, the zero-length normalisation, or the fact that alignments lie in [-1, 1].
- All arithmetic is exact real arithmetic. In particular `agent.time + (game_seconds - agent.time)` is exactly the slice's time here, with no rounding.
- The routine classes (`kickoff`, `jump_shot`, `aerial_shot`, `short_shot`, `goto`, `goto_boost`) are not part of this model: they are constructors of `Shot` and `Action`, and their execution is not modelled.
- `shot_valid` is not part of this model: it is an arbitrary test passed in.
- The game-engine connection is a parameter: `get_ball_prediction_struct` becomes the `prediction` argument, and the per-tick refresh of the agent's state becomes the `World` argument. `push` only appends to the stack; running and popping actions are not modelled.
- The in-place `shots.sort(...)` in `run` is modelled as a stable insertion sort on a sequence, not Python's in-place sort of the list. Only the head of the sorted list is observable.
- `cap` is taken to be the usual clamp into [low, high].
