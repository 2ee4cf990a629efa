# SprintLottery race model

A Dafny model of the core of SprintLottery, a browser race simulator. Up to
100 numbered runners race two laps of a stadium track, and the finishing
order is the draw. The model covers three parts of the program.

- **The race engine of `App.tsx`** (`engine.dfy`, module `RaceEngine`).
  - Building a field.
  - The runner-count input.
  - Starting a race.
  - The 30 ms tick. It moves every runner, runs the booster and lane
    strategy, records crossings in the finish ledger (`finishOrderRef`) and
    puts finished runners to rest.
  - The 10 s commentary refresh.
  - The results board.

  `Race` is a class whose methods update its fields. The tick's loop over
  the field is the method `StepField`, proved against the function
  `Advance`. The class keeps the invariant `RaceState` across every event:
  - the count is in range;
  - every runner has a lane on the track, a lane offset in [-0.4, 0.4] and
    progress within its cap;
  - a runner rests only after it finishes;
  - a runner has a rank exactly when it has finished;
  - the ledger names the runner of rank k at position k;
  - a finished race has every runner at rest.

  The results board is proved to list the ledger in order, ranked
  1, 2, 3, ….
- **The scene director of `components/RaceScene.tsx`** (`path.dfy`, module
  `TrackPath`; `camera.dfy`, module `CameraDirector`).
  - `getPathData`: the stadium geometry mapping progress to a point and a
    direction of travel.
  - Per frame:
    - the camera target;
    - the finish-cam flag;
    - the choice of shot;
    - each figure's sprite set and height;
    - the smoothing of figures and camera toward their targets.

  `Director` is a class holding the camera's position and look-at point and
  the runner figures, keyed by id.
- **The commentary service `services/geminiService.ts`** (`commentary.dfy`,
  module `Commentary`).
  - The line chosen for a snapshot of the field.
  - The placeholder names `Athlete n`.

`types.dfy` (module `RaceTypes`) holds the runner record of `types.ts`. It
also holds JavaScript's `x || d` on optional numbers and the stable sort
that the engine, the camera and the commentary use to order runners.

Clock readings, `Math.random`, `Math.sin`, `Math.cos` and `Math.PI` are
parameters:
- `TickInput` carries a tick's readings.
- `Draws` carries the random draws of a new field.
- `Trig` carries the trigonometry.

Where a proof needs a property of them, such as draws lying in [0, 1) or
sin 0 = 0, it is stated as a `requires`.

The camera target follows components/RaceScene.tsx:164-169. The variable
there is named `lastToRest`, but `sorted.find(r => !r.isResting)` picks:
- the first runner still moving in descending-progress order, the one
  furthest ahead; the sort is stable, so among tied movers it is the first
  in array order;
- when every runner rests, `sorted[sorted.length - 1]`, the one furthest
  behind; among ties it is the last in array order.

`CameraDirector.CameraTargetChoice` states both cases.

## Model

| member | source | states |
|---|---|---|
| RaceTypes.OrDefault | App.tsx:123 | `v \|\| d`: the value when present and non-zero, otherwise the default (0 is falsy) |
| RaceTypes.SortBy | services/geminiService.ts:15 | the sorted copy is a permutation of the input (same length, same multiset) and is ordered by the key |
| RaceTypes.SortHeadIsFirstMinimum | services/geminiService.ts:15-16 | the sort is stable at its head: the first element is the earliest element of smallest key |
| RaceTypes.LastMaxIndex | components/RaceScene.tsx:169 | the position of the last element of largest key: nothing has a larger key, and every later element a strictly smaller one |
| RaceTypes.SortTailIsLastMaximum | components/RaceScene.tsx:164-168 | the sort is stable at its tail: the last element is the latest element of largest key |
| RaceTypes.Leader | services/geminiService.ts:15-16 | there is a leader exactly when the field is non-empty |
| RaceTypes.LeaderIsFirstAhead | services/geminiService.ts:15-16 | the leader is the first runner in array order with the greatest progress, and no runner is ahead of it |
| RaceTypes.PermutationKeepsDistinct | App.tsx:171-173 | reordering a field with distinct ids keeps the ids distinct, so the sorted board names no runner twice |
| RaceEngine.TruncRem | App.tsx:111 | JavaScript `%` on integers: the remainder lies strictly between -b and b, equals Euclidean `%` for a non-negative dividend, and is non-positive for a non-positive one |
| RaceEngine.LineOrderOffset | App.tsx:111 | the id-derived target offset lies in (-0.3, 0.1), and in [-0.1, 0.098] for non-negative ids |
| RaceTypes.GlideBetween | App.tsx:106-112 | closing a fraction α in [0, 1] of the gap to a target lands between the old value and the target, and leaves a gap of (1 - α) times the old one; the lane and offset blends of the tick and the lerps of the scene are this step |
| RaceEngine.Cap | App.tsx:123 | `stopProgress \|\| 1.1`: the default 1.1, or the runner's own non-zero stop point |
| RaceEngine.RestPoint | App.tsx:137 | `stopProgress \|\| 1.05`: either the cap itself, or 1.05 when the cap is the default 1.1; never above the cap |
| RaceEngine.WaveSpeed | App.tsx:95 | where sin lies in [-1, 1] the speed lies within 0.00005 of the base speed |
| RaceEngine.BoosterActive | App.tsx:101 | `boosterEndTime && boosterEndTime > now`: for a non-negative clock, active exactly when the end time (0 when absent) lies after now |
| RaceEngine.Strategy | App.tsx:95-120 | the speed is the base speed plus the wave, times 1.85 under an active booster after 4 s, times 0.92 once finished, otherwise as is; boosted runners close 10% of the gap to lane 1.2 and offset 0.1; unboosted runners close 6% of the gap to lane 0 and their id offset, and a draw below 0.007 sets the booster to end 5000 ms later; before 4 s or after the finish lane, offset and booster are untouched; a lane in [0, 9] stays in [0, 9] and an offset in [-0.4, 0.4] stays in [-0.4, 0.4] |
| RaceEngine.StepRunner | App.tsx:92-153 | a resting runner and the ledger are returned untouched; otherwise progress is min(cap, progress + speed), and it does not decrease while the runner is within its cap and its speed is non-negative; the runner finishes on this tick exactly when it was unfinished and reaches 1.0, and then its id is appended to the ledger, its rank is the new ledger length and its finish time is stamped; otherwise the ledger, rank and finish time are unchanged; a finished runner rests exactly when it reaches `stopProgress \|\| 1.05` or its speed drops below 0.00004; a moving runner takes the strategy's speed, offset and booster end, and the strategy's lane clamped to [0, 9]; identity fields never change |
| RaceEngine.SpeedIsRecomputed | App.tsx:95-119 | the tick's motion ignores the speed the runner carried in, so the 0.92 post-finish decay is applied once per tick and never compounds |
| RaceEngine.FinishedRunnerRestsAtRestPoint | App.tsx:119-139 | a moving finished runner with base speed at least 0.0007 runs at least 0.000598, above the 0.00004 floor, so it comes to rest exactly when its progress reaches its rest point |
| RaceEngine.Advance | App.tsx:92-153 | every runner of the field becomes a successor of itself (identity kept, flags one-way, rank and finish time changed only by crossing, lane on the track, progress capped), and the ledger grows by the ids of this tick's crossers in array order |
| RaceEngine.AdvanceFollowsStrategy | App.tsx:92-153 | every moving runner of the field takes the strategy's speed, offset and booster end, and its clamped lane, for its own position in the field; it comes to rest exactly when it has finished and reaches its rest point or runs below 0.00004 |
| RaceEngine.ReplaceKeepsRanked | App.tsx:130-135 | replacing one runner by a successor that either keeps its finish state or crosses and is appended to the ledger keeps the field ranked |
| RaceEngine.StepKeepsRanked | App.tsx:130-135 | stepping one runner against the shared ledger keeps the field ranked |
| RaceEngine.AdvanceKeepsRanked | App.tsx:130-135 | stepping a prefix of the field in order keeps the whole field ranked against the grown ledger |
| RaceEngine.AdvanceKeepsWellFormed | App.tsx:122-139 | a tick keeps ids distinct, lanes in [0, 9], offsets in [-0.4, 0.4], rest only after the finish and progress within the cap |
| RaceEngine.FieldLapsArePositive | components/RaceScene.tsx:18-21 | in a well-formed field every runner's lane and offset give a lap longer than two straights, so the lap position is always defined |
| RaceEngine.AdvanceKeepsConsistent | App.tsx:92-153 | a tick keeps the race invariant: well formed and ranked against the ledger |
| RaceEngine.LedgerNamesRanks | App.tsx:130-135 | the ledger names every finished runner at the position of its rank, and names no runner twice |
| RaceEngine.NewRunner | App.tsx:27-43 | runner i has id i + 1, colour i mod 15 of the 15-colour palette, lane i mod 10, no progress, speed, finish, rest, rank or active booster; draws in [0, 1) give a base speed in [0.0007, 0.00105), an offset in [-0.4, 0.4), a cap in [1.01, 1.06) that is also its rest point, and a bob offset in [0, 2π) |
| RaceEngine.InitialRunners | App.tsx:27-44 | a new field of n runners: runner i is `NewRunner` i with draw i, so ids 1..n, lane i mod 10, no progress, not finished, not resting, no rank |
| RaceEngine.FreshFieldConsistent | App.tsx:27-44 | a new field satisfies the race invariant with an empty ledger; base speeds lie in [0.0007, 0.00105), offsets in [-0.4, 0.4) and caps in [1.01, 1.06) |
| RaceEngine.Restarted | App.tsx:59-68 | the restarted runner keeps its identity, lane and offset, has no progress, finish, rest, rank or finish time, runs at its base speed and has no booster |
| RaceEngine.RestartField | App.tsx:59-68 | the field keeps its length and runner i is runner i restarted |
| RaceEngine.RestartKeepsConsistent | App.tsx:59-69 | a restart wipes every result and satisfies the race invariant with an empty ledger |
| RaceEngine.ClampCount | App.tsx:202 | the count lies in [1, 100]; a parsed value in range is kept; NaN, 0 and values below 1 give 1; values at or above 100 give 100 |
| RaceEngine.WithRank | App.tsx:172 | keeps exactly the runners that hold a rank |
| RaceEngine.AllResults | App.tsx:171-173 | the board is a permutation of the ranked runners, sorted by `rank \|\| 0` |
| RaceEngine.StandingsFollowLedger | App.tsx:171-173 | for a consistent field the board has one entry per ledger entry, and entry k is the runner the ledger names at k, with rank k + 1 |
| RaceEngine.BoardRanksCount | App.tsx:171-173 | for a consistent field the board's ranks are exactly 1, 2, …, the ledger's length, in order |
| RaceEngine.StepField | App.tsx:92-153 | the loop over the field, pushing to the ledger as it goes, computes `Advance` |
| RaceEngine.TickUpdate | App.tsx:83-154 | the race is declared finished exactly when every runner rests, and then field and ledger are untouched; otherwise it stays racing and the field advances |
| RaceEngine.TickStep | App.tsx:83-154 | the updater computes `TickUpdate` and keeps the race invariant |
| RaceEngine.TickKeepsRaceState | App.tsx:83-154 | from any racing state a tick leads to a valid state: racing with a consistent field, or finished with everyone at rest |
| RaceEngine.Race.constructor | App.tsx:14-53 | the app mounts with 40 runners, idle, an empty ledger and a fresh field |
| RaceEngine.Race.InitRace | App.tsx:26-49 | the field is rebuilt for the current count, the status is idle and the ledger is empty |
| RaceEngine.Race.SetParticipantCount | App.tsx:197-204 | ignored while racing; otherwise the clamped count is stored and, if it changed, the field is rebuilt |
| RaceEngine.Race.StartRace | App.tsx:55-72 | ignored while racing; otherwise the start time is stamped, every runner is restarted, the ledger is cleared and the race is on |
| RaceEngine.Race.Tick | App.tsx:79-155 | status, field and ledger become `TickUpdate` of the old ones, with elapsed time measured from the start; count, start time and banner are unchanged; the invariant holds |
| RaceEngine.Race.CommentaryTick | App.tsx:158-163 | a non-empty field gets the commentary line of the current field; nothing else changes |
| RaceEngine.Race.Results | App.tsx:171-173 | the board lists the ledger in order, entry k holding rank k + 1 |
| TrackPath.LaneRadius | components/RaceScene.tsx:18-19 | the radius exceeds the curve radius by the lane width times (lane + 0.5 + 0.7 · offset), and lies in [61.32, 118.68] for a lane in [0, 9] and an offset in [-0.4, 0.4] |
| TrackPath.LapLength | components/RaceScene.tsx:20-21 | for a positive radius (and π > 0) the lap is longer than two straights |
| TrackPath.JsRemRange | components/RaceScene.tsx:25 | JavaScript `%`: a non-negative dividend gives a remainder in [0, b) |
| TrackPath.JsRemPeriodic | components/RaceScene.tsx:25 | adding the divisor to a non-negative dividend leaves the remainder unchanged |
| TrackPath.JsRemSmall | components/RaceScene.tsx:25 | a dividend in [0, b) is its own remainder |
| TrackPath.PathData | components/RaceScene.tsx:17-45 | the lap is 2L + 2πR for the lane's radius, the lap position is the progress over two laps shifted by L/2 modulo the lap, the point and direction are those of the piece holding that position, all at height 0; the second-turn tangent is corrected |
| TrackPath.PathDataAsWritten | components/RaceScene.tsx:38-41 | the function as written: same position and lap position as `PathData`, and the same tangent everywhere but the second turn, where the tangent is (-sin θ, 0, sin θ) |
| TrackPath.LapGrowsWithLane | components/RaceScene.tsx:18-21 | an outer lane has a strictly longer lap |
| TrackPath.TrackRadiusPositive | components/RaceScene.tsx:18-21 | a runner on the track (lane in [0, 9], offset in [-0.4, 0.4]) follows a radius of at least 61.32, and its lap is longer than two straights |
| TrackPath.LapPositionInRange | components/RaceScene.tsx:24-25 | the lap position lies in [0, lap) |
| TrackPath.LapPositionPeriodic | components/RaceScene.tsx:22-25 | progress p and p + 1/2 (one lap apart) give the same lap position |
| TrackPath.HalfRaceIsOneLap | components/RaceScene.tsx:17-45 | progress p and p + 1/2 give the same point and direction |
| TrackPath.StartAndFinishCoincide | components/RaceScene.tsx:24-31 | progress 0 and progress 1 both place the runner at x = 0 on its lane's radius, mid first straight, heading +x; the two give the same point and direction |
| TrackPath.FirstStraightShape | components/RaceScene.tsx:30-31 | the first straight runs along +x at z = R over x in [-60, 60) |
| TrackPath.SecondStraightShape | components/RaceScene.tsx:36-37 | the second straight runs along -x at z = -R over x in (-60, 60], with direction (-1, 0, 0) in both versions |
| TrackPath.PiecesJoin | components/RaceScene.tsx:30-41 | each piece ends where the next begins, and with the corrected rule the direction is continuous at the four joins |
| TrackPath.SecondTurnTangentIsUnit | components/RaceScene.tsx:38-41 | where sin² + cos² = 1 the corrected second-turn tangent is a unit vector |
| TrackPath.SecondTurnEntry | components/RaceScene.tsx:36-41 | at the start of the second turn the as-written tangent is the zero vector, while the corrected one continues the straight's (-1, 0, 0) |
| TrackPath.AsWrittenTangentVanishesAt | components/RaceScene.tsx:36-41 | the same through `getPathData`, for any progress that lands at that position |
| TrackPath.AsWrittenTangentVanishes | components/RaceScene.tsx:36-41 | for every lane of positive radius, at its second-turn entry progress, `getPathData` as written returns the zero tangent and the corrected version (-1, 0, 0) |
| TrackPath.ProgressForLapPosition | components/RaceScene.tsx:24-25 | every lap position in [L/2, lap) is reached by some progress on the first lap |
| CameraDirector.LerpIsConvex | components/RaceScene.tsx:226-236 | one lerp step puts every coordinate between the old value and the target and shrinks the gap by the factor 1 - α |
| CameraDirector.ApproachGap | components/RaceScene.tsx:226-236 | after n frames toward a fixed target the gap in each coordinate is (1 - α)ⁿ times the first gap |
| CameraDirector.FirstAwake | components/RaceScene.tsx:168 | the position of the first runner not at rest, or none when all rest |
| CameraDirector.FirstMover | components/RaceScene.tsx:168 | the first runner not at rest: a moving runner of the sequence, or none exactly when all rest |
| CameraDirector.SortedFirstMover | components/RaceScene.tsx:164-168 | the sort is stable among movers: the first mover of the sorted field is the first runner in array order with the greatest progress among the moving ones, and there is none exactly when all rest |
| CameraDirector.CameraTarget | components/RaceScene.tsx:164-169 | there is a target exactly when the field is non-empty |
| CameraDirector.CameraTargetChoice | components/RaceScene.tsx:164-169 | the target is a runner of the field; while anyone moves it is a moving runner with the greatest progress among the moving ones, and it is the leader whenever the leader moves; when everyone rests it is a runner with the least progress; ties go as the stable sort leaves them: the first such mover in array order, or, when all rest, the last runner in array order with the least progress |
| CameraDirector.ShotFor | components/RaceScene.tsx:172-218 | the start shot exactly below 3%; the finish shot exactly for a moving target at 90% or more; the pursuit shot otherwise |
| CameraDirector.TargetPose | components/RaceScene.tsx:212-224 | the start shot stands 50 back along x and 100 out along z from the figure at height 30, and looks at a point 80 further along x and 110 back toward the track, at height 15; the finish shot stands at (40, 25, 170) looking at the finish line (0, 10, 90); the pursuit shot looks 15 above the figure and stands 70 back along the tangent and 40 up, so 70 away horizontally for a level unit tangent |
| CameraDirector.PursuitFollowsTangent | components/RaceScene.tsx:210-224 | the pursuit camera stands 70 behind the figure when heading +x and directly above it at the zero tangent; the as-written and corrected tangents give the same look-at and cameras 70 × (corrected - as-written tangent) apart, equal off the second turn |
| CameraDirector.IdlePose | components/RaceScene.tsx:232-234 | the idle shot stands at (-180, 50, 240) looking at (-60, 10, 90), 150 out from the finish line it looks at |
| CameraDirector.SpriteFor | components/RaceScene.tsx:181-201 | resting set exactly for resting runners, at height 5.8, otherwise 7.2; side set exactly for moving runners below 3% or at 90% and above; front set exactly for moving runners in [80%, 90%) under the finish cam |
| CameraDirector.FrontOnlyUnderFinishCam | components/RaceScene.tsx:172-196 | a figure faces the camera only under the finish cam, and the runner the finish cam follows is drawn from the side |
| CameraDirector.MoveFigures | components/RaceScene.tsx:174-179 | moving the figures keeps exactly the same set of figures |
| CameraDirector.UntouchedFigureStays | components/RaceScene.tsx:174-176 | the figure of a runner not in the field does not move |
| CameraDirector.EachFigureMovesOnce | components/RaceScene.tsx:174-201 | with distinct ids each runner's figure takes exactly one glide toward its path position and shows its runner's sprite |
| CameraDirector.MoveAll | components/RaceScene.tsx:174-204 | the forEach over the runners computes `MoveFigures` |
| CameraDirector.MovedFigure | components/RaceScene.tsx:178-201 | the figure shows its runner's sprite, and each coordinate moves a quarter of the way to the runner's path position: between the two, with the gap cut to 0.75 of the old |
| CameraDirector.Director.constructor | components/RaceScene.tsx:135-152 | the camera starts at (0, 100, 300) looking at the origin, and each runner gets one figure at the origin showing a running side frame |
| CameraDirector.Director.Frame | components/RaceScene.tsx:157-239 | while racing or finished: an empty field skips the frame; otherwise the figures move, and camera and look-at glide 4% and 6% toward the target's shot, framed on its moved figure, with the pursuit shot along the corrected tangent; any other status glides both 2% toward the idle shot; the set of figures never changes |
| Commentary.Round | services/geminiService.ts:17 | `Math.round`: the result is within half a unit of x, halves rounding up |
| Commentary.LeaderProgress | services/geminiService.ts:15-17 | `leader?.progress \|\| 0`: the greatest progress in the field, held by one of its runners, or 0 for an empty field |
| Commentary.RaceCommentary | services/geminiService.ts:12-41 | the waiting line exactly when not racing; when racing, the early line exactly below 29.5% (30% after rounding) and the final-stretch line exactly from 84.5%; a mid-race or final line quotes the leader's id and takes phrase ⌊5 · rnd⌋ |
| Commentary.Decimal | services/geminiService.ts:9 | `${n}` for n below 10^21, which covers every n the names reach (at most 2^32 - 1): digits only, no leading zero, and reading them back gives n |
| Commentary.AthleteName | services/geminiService.ts:9 | `Athlete ${n}`: the prefix followed by digits that read back as n |
| Commentary.RunnerNames | services/geminiService.ts:8-10 | none exactly when the count exceeds 2^32 - 1, where `new Array` throws a RangeError; otherwise one name per count (none for a negative count); name i is `Athlete ` followed by i + 1 in decimal, and no two names are equal |

## Left out

- Floating point is modelled with exact reals. Rounding, NaN and infinities
  are not modelled, and neither is the drift of repeated smoothing.
- Math.random, Math.sin, Math.cos, Math.PI and Date.now() are parameters.
  Lemmas that need their ranges or particular values require them.
- RaceEngine.StepRunner: every runner crossing in one tick gets the same
  finish stamp. The source calls Date.now() once per finisher, and those
  readings can differ by a millisecond.
- The React scheduling is not modelled: the effect that starts and clears
  the intervals, the `runnersRef` copy, and the batching of `setStatus`
  inside the updater. Each method is one event applied to the state.
- RaceEngine.Race.CommentaryTick: the source awaits the commentary, so a
  line computed for an older field can arrive after the field has moved on.
  The model applies it at once.
- RaceEngine.Race.InitRace: requires a count in [1, 100], which the input's
  clamp and the initial 40 always give. The model does not cover the
  source's behaviour for other counts.
- The rendering is not modelled: the Three.js scene set-up, lights, track
  meshes, the renderer, resizing and clean-up
  (components/RaceScene.tsx:58-134, 240-265), the on-screen overlay of
  App.tsx, and the sprite drawing of components/RunnerSprite.tsx.
  components/RunnerSprite.tsx is not part of this model. Figures keep their
  position and sprite set but not the texture object.
- CameraDirector.SpriteFor: chooses the texture set, not the animation
  frame index within it (components/RaceScene.tsx:185). That index depends
  on the wall clock and the bob offset.
- CameraDirector.Director.Frame: requires the camera target to have a
  figure. The source dereferences the target's figure unchecked, and
  without one it throws.
- CameraDirector.Director.Frame: the pursuit shot uses the corrected
  second-turn tangent (see Findings) over the whole second turn. There the
  source's camera target differs by 70 × (corrected - as-written tangent):
  directly above the runner at the turn's entry, and 70 units off sideways
  at θ = π/2 (`PursuitFollowsTangent`). Elsewhere the two agree.
- TrackPath.JsRem: with a zero divisor it returns the dividend, where
  JavaScript gives NaN. Lap lengths are positive for every runner of a
  well-formed field (`FieldLapsArePositive`).
- TrackPath.TurnAngle: divides by the radius, so a zero radius is not
  meaningful. It does not arise on the track.
- Commentary.RunnerNames: the count is an integer. JavaScript's handling of
  fractional array lengths is not modelled, and a negative count gives no
  names. The RangeError for a count above 2^32 - 1 is returned as None, not
  as a rejected promise.
- The commentary phrase texts are not modelled. `Line` names which of the
  five phrases is shown and the id it quotes.
- The `Preparing` status is declared in types.ts and never entered. The
  race invariant excludes it.

## Findings

| source | as written | input that shows it | evidently intended | confidence | as-written member | corrected member |
|---|---|---|---|---|---|---|
| components/RaceScene.tsx:41 | on the second turn the tangent's x component is `-Math.sin(theta)`, so the tangent is (-sin θ, 0, sin θ) | any runner with positive radius at lap position 2L + πR, where it leaves the second straight (θ = 0): the tangent is (0, 0, 0). The pursuit camera then stands directly above the runner, not 70 behind it. At θ = π/2 it is (-1, 0, 1), which is not a unit vector | (-cos θ, 0, sin θ), the derivative of the turn's position (x = -L/2 - R sin θ, z = -R cos θ): a unit vector that continues (-1, 0, 0) from the second straight and becomes (1, 0, 0) at the first straight | high, not executed | TrackPath.AsWrittenTangentVanishes | TrackPath.PathData (with TrackPath.PiecesJoin and TrackPath.SecondTurnTangentIsUnit) |
