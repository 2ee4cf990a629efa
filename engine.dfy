/** The race simulation of App.tsx: building the field, starting a race, and
    the 30 ms tick that advances every runner and keeps the finish ledger.
    Clock readings, the speed wave and the booster coin flips are inputs. */
module RaceEngine {
  import opened RaceTypes
  import Commentary
  import TrackPath

  const COLORS: seq<string> := [
    "#ff4d4d", "#ff944d", "#ffdb4d", "#4dff4d", "#4dffff",
    "#4d94ff", "#944dff", "#db4dff", "#ff4db8", "#ff4d4d",
    "#c0c0c0", "#ffd700", "#cd7f32", "#00ff7f", "#00bfff"]

  const STRATEGY_DELAY_MS: real := 4000.0
  const BOOST_FACTOR: real := 1.85
  const BOOST_LANE: real := 1.2
  const BOOST_OFFSET: real := 0.1
  const BOOST_BLEND: real := 0.1
  const INSIDE_LANE: real := 0.0
  const MERGE_BLEND: real := 0.06
  const BOOST_CHANCE: real := 0.007
  const BOOST_DURATION_MS: real := 5000.0
  const FINISH_DECAY: real := 0.92
  const MAX_LANE: real := 9.0
  const FINISH_LINE: real := 1.0
  const DEFAULT_CAP: real := 1.1
  const DEFAULT_REST: real := 1.05
  const SPEED_FLOOR: real := 0.00004
  const WAVE_AMPLITUDE: real := 0.00005
  const WAVE_RATE: real := 0.0012
  /** The widest lateral offset a new runner draws, in lane widths. */
  const MAX_OFFSET: real := 0.4

  function Min(a: real, b: real): real { if a <= b then a else b }
  function Max(a: real, b: real): real { if a >= b then a else b }

  /** The readings one tick takes from its environment: `Date.now()` at the
      top of the tick, the time since the start, the `Date.now()` stamped on a
      finisher, `Math.sin`, and the `Math.random()` value runner i draws. */
  datatype TickInput = TickInput(
    now: real,
    elapsed: real,
    stamp: real,
    sin: real -> real,
    random: nat -> real)

  /** A runner's personal ceiling `stopProgress || 1.1` (App.tsx:123): its
      own stop point when it has a non-zero one, otherwise 1.1. */
  function Cap(r: Runner): (c: real)
    ensures c == DEFAULT_CAP || (r.stopProgress == Some(c) && c != 0.0)
  {
    OrDefault(r.stopProgress, DEFAULT_CAP)
  }

  /** The threshold at which a finished runner comes to rest,
      `stopProgress || 1.05` (App.tsx:137). A runner with its own stop point
      rests at its ceiling; one without rests at 1.05, short of the 1.1
      ceiling. */
  function RestPoint(r: Runner): (p: real)
    ensures p == Cap(r) || (p == DEFAULT_REST && Cap(r) == DEFAULT_CAP)
    ensures p <= Cap(r)
  {
    OrDefault(r.stopProgress, DEFAULT_REST)
  }

  /** The speed of this tick before any strategy (App.tsx:95): the base
      speed plus a wave of amplitude 0.00005. */
  function WaveSpeed(r: Runner, t: TickInput): (v: real)
    ensures -1.0 <= t.sin(t.now * WAVE_RATE + r.id as real) <= 1.0 ==>
      r.baseSpeed - WAVE_AMPLITUDE <= v <= r.baseSpeed + WAVE_AMPLITUDE
  {
    r.baseSpeed + t.sin(t.now * WAVE_RATE + r.id as real) * WAVE_AMPLITUDE
  }

  /** `boosterEndTime && boosterEndTime > now` (App.tsx:101): absent and 0
      both mean "none", so from time 0 on this is `(boosterEndTime || 0) > now`. */
  predicate BoosterActive(r: Runner, now: real)
    ensures now >= 0.0 ==> (BoosterActive(r, now) <==> OrDefault(r.boosterEndTime, 0.0) > now)
  {
    r.boosterEndTime.Some? && r.boosterEndTime.value != 0.0 && r.boosterEndTime.value > now
  }

  /** JavaScript's `%` on integers truncates toward zero. */
  function TruncRem(a: int, b: int): (m: int)
    requires b > 0
    ensures -b < m < b
    ensures a >= 0 ==> m == a % b
    ensures a <= 0 ==> m <= 0
  {
    if a >= 0 then a % b else -((-a) % b)
  }

  /** The inside-track offset derived from a runner's id (App.tsx:111), so that
      runners funnelling to lane 0 do not stack exactly. */
  function LineOrderOffset(id: int): (o: real)
    ensures -0.3 < o < 0.1
    ensures id >= 0 ==> -0.1 <= o <= 0.098
  {
    ((TruncRem(id * 7, 100) as real) / 100.0 - 0.5) * 0.2
  }

  /** What one tick decides for a runner before clamping and advancing. */
  datatype Motion = Motion(speed: real, lane: real, laneOffset: real, boosterEndTime: Option<real>)

  predicate InStrategyPhase(r: Runner, t: TickInput)
  {
    t.elapsed > STRATEGY_DELAY_MS && !r.finished
  }

  /** Speed, lane and booster rules of App.tsx:95-120. */
  function Strategy(r: Runner, idx: nat, t: TickInput): (m: Motion)
    ensures m.speed == WaveSpeed(r, t) *
      (if InStrategyPhase(r, t) && BoosterActive(r, t.now) then BOOST_FACTOR
       else if r.finished then FINISH_DECAY else 1.0)
    ensures !InStrategyPhase(r, t) ==>
      m.lane == r.lane && m.laneOffset == r.laneOffset && m.boosterEndTime == r.boosterEndTime
    ensures InStrategyPhase(r, t) && BoosterActive(r, t.now) ==>
      m.lane - BOOST_LANE == 0.9 * (r.lane - BOOST_LANE) &&
      m.laneOffset - BOOST_OFFSET == 0.9 * (r.laneOffset - BOOST_OFFSET) &&
      m.boosterEndTime == r.boosterEndTime
    ensures InStrategyPhase(r, t) && !BoosterActive(r, t.now) ==>
      m.lane == 0.94 * r.lane &&
      m.laneOffset - LineOrderOffset(r.id) == 0.94 * (r.laneOffset - LineOrderOffset(r.id)) &&
      m.boosterEndTime ==
        (if t.random(idx) < BOOST_CHANCE then Some(t.now + BOOST_DURATION_MS) else r.boosterEndTime)
    ensures 0.0 <= r.lane <= MAX_LANE ==> 0.0 <= m.lane <= MAX_LANE
    ensures -MAX_OFFSET <= r.laneOffset <= MAX_OFFSET ==> -MAX_OFFSET <= m.laneOffset <= MAX_OFFSET
  {
    var v := WaveSpeed(r, t);
    if InStrategyPhase(r, t) then
      if BoosterActive(r, t.now) then
        Motion(v * BOOST_FACTOR, Glide(r.lane, BOOST_LANE, BOOST_BLEND),
               Glide(r.laneOffset, BOOST_OFFSET, BOOST_BLEND), r.boosterEndTime)
      else
        Motion(v, Glide(r.lane, INSIDE_LANE, MERGE_BLEND),
               Glide(r.laneOffset, LineOrderOffset(r.id), MERGE_BLEND),
               if t.random(idx) < BOOST_CHANCE then Some(t.now + BOOST_DURATION_MS)
               else r.boosterEndTime)
    else if r.finished then
      Motion(v * FINISH_DECAY, r.lane, r.laneOffset, r.boosterEndTime)
    else
      Motion(v, r.lane, r.laneOffset, r.boosterEndTime)
  }

  /** The fields a tick never touches. */
  predicate SameIdentity(r: Runner, r2: Runner)
  {
    r2.id == r.id && r2.color == r.color && r2.baseSpeed == r.baseSpeed &&
    r2.stopProgress == r.stopProgress && r2.bobOffset == r.bobOffset
  }

  /** What every tick promises about one runner, whatever the ledger holds:
      resting runners are frozen, flags and rank are one-way, rank and finish
      time change only on the tick that crosses the line, the lane stays on
      the track, progress is capped and only finishing crosses the line. */
  predicate Successor(r: Runner, r2: Runner)
  {
    && (r.isResting ==> r2 == r)
    && SameIdentity(r, r2)
    && (r.finished ==> r2.finished && r2.rank == r.rank && r2.finishTime == r.finishTime)
    && (!(!r.finished && r2.finished) ==> r2.rank == r.rank && r2.finishTime == r.finishTime)
    && (r.isResting ==> r2.isResting)
    && (r2.isResting && !r.isResting ==> r2.finished)
    && (-MAX_OFFSET <= r.laneOffset <= MAX_OFFSET ==> -MAX_OFFSET <= r2.laneOffset <= MAX_OFFSET)
    && (!r.isResting ==>
          0.0 <= r2.lane <= MAX_LANE &&
          r2.progress == Min(Cap(r), r.progress + r2.speed))
    && (r2.finished && !r.finished ==> r2.progress >= FINISH_LINE)
    && (!r.isResting && r2.progress >= FINISH_LINE ==> r2.finished)
  }

  /** A moving runner takes the speed, the clamped lane, the offset and the
      booster end time its strategy decides. */
  predicate FollowsStrategy(r: Runner, r2: Runner, idx: nat, t: TickInput)
  {
    !r.isResting ==>
      && r2.speed == Strategy(r, idx, t).speed
      && r2.lane == Max(0.0, Min(MAX_LANE, Strategy(r, idx, t).lane))
      && r2.laneOffset == Strategy(r, idx, t).laneOffset
      && r2.boosterEndTime == Strategy(r, idx, t).boosterEndTime
  }

  /** A moving runner comes to rest exactly when it has finished and has
      reached its rest point or run slower than the floor (App.tsx:137-139). */
  predicate RestsByRule(r: Runner, r2: Runner)
  {
    !r.isResting ==>
      r2.isResting == (r2.finished && (r2.progress >= RestPoint(r) || r2.speed < SPEED_FLOOR))
  }

  /** True when this tick is the one on which r crosses the line. */
  predicate FinishesNow(r: Runner, r2: Runner)
  {
    !r.finished && r2.finished
  }

  /** The record rebuild of App.tsx:92-153 for the runner at position idx,
      threading the finish ledger. */
  function StepRunner(r: Runner, idx: nat, t: TickInput, ledger: seq<int>): (res: (Runner, seq<int>))
    ensures Successor(r, res.0)
    ensures r.isResting ==> res == (r, ledger)
    ensures FinishesNow(r, res.0) <==> !r.isResting && !r.finished && res.0.progress >= FINISH_LINE
    ensures FinishesNow(r, res.0) ==>
      res.1 == ledger + [r.id] && res.0.rank == Some(|res.1|) && res.0.finishTime == Some(t.stamp)
    ensures !FinishesNow(r, res.0) ==> res.1 == ledger
    ensures !r.isResting ==>
      res.0.isResting == (res.0.finished && (res.0.progress >= RestPoint(r) || res.0.speed < SPEED_FLOOR))
    ensures !r.isResting ==> res.0.speed == Strategy(r, idx, t).speed && res.0.progress <= Cap(r)
    ensures FollowsStrategy(r, res.0, idx, t) && RestsByRule(r, res.0)
    ensures !r.isResting && r.progress <= Cap(r) && res.0.speed >= 0.0 ==> res.0.progress >= r.progress
  {
    if r.isResting then (r, ledger)
    else
      var m := Strategy(r, idx, t);
      var lane := Max(0.0, Min(MAX_LANE, m.lane));
      var progress := Min(Cap(r), r.progress + m.speed);
      var crossing := progress >= FINISH_LINE && !r.finished;
      var ledger' := if crossing then ledger + [r.id] else ledger;
      var finished := r.finished || crossing;
      var resting := finished && (progress >= RestPoint(r) || m.speed < SPEED_FLOOR);
      (r.(progress := progress, speed := m.speed, lane := lane, laneOffset := m.laneOffset,
          finished := finished, isResting := resting,
          rank := if crossing then Some(|ledger'|) else r.rank,
          finishTime := if crossing then Some(t.stamp) else r.finishTime,
          boosterEndTime := m.boosterEndTime),
       ledger')
  }

  /** The speed of a tick is recomputed from the base speed: whatever speed
      the runner carried in, the tick decides the same motion, so the
      post-finish decay of 0.92 is applied once and never compounds. */
  lemma SpeedIsRecomputed(r: Runner, carried: real, idx: nat, t: TickInput)
    ensures Strategy(r.(speed := carried), idx, t) == Strategy(r, idx, t)
    ensures !r.isResting ==> StepRunner(r.(speed := carried), idx, t, []).0.speed == StepRunner(r, idx, t, []).0.speed
  {
  }

  /** A finished runner still moving runs at no less than 0.92 of its base
      speed less the wave, well above the 0.00004 floor. So it comes to rest by
      reaching its rest point, never by slowing below the floor. */
  lemma FinishedRunnerRestsAtRestPoint(r: Runner, idx: nat, t: TickInput, ledger: seq<int>)
    requires r.finished && !r.isResting && r.baseSpeed >= 0.0007
    requires -1.0 <= t.sin(t.now * WAVE_RATE + r.id as real) <= 1.0
    ensures StepRunner(r, idx, t, ledger).0.speed >= 0.000598 > SPEED_FLOOR
    ensures StepRunner(r, idx, t, ledger).0.isResting <==>
              StepRunner(r, idx, t, ledger).0.progress >= RestPoint(r)
  {
    var w := t.sin(t.now * WAVE_RATE + r.id as real);
    assert WaveSpeed(r, t) >= 0.00065;
    assert Strategy(r, idx, t).speed == WaveSpeed(r, t) * FINISH_DECAY;
  }

  /** Ids of the runners that cross the line between rs and out, in array order. */
  function NewFinishers(rs: seq<Runner>, out: seq<Runner>): seq<int>
    requires |rs| == |out|
  {
    if rs == [] then []
    else
      var n := |rs| - 1;
      NewFinishers(rs[..n], out[..n]) + (if FinishesNow(rs[n], out[n]) then [out[n].id] else [])
  }

  /** The whole-field map of one tick: runners are stepped in array order and
      each crossing appends to the ledger before the next runner is stepped. */
  function Advance(rs: seq<Runner>, t: TickInput, ledger: seq<int>): (res: (seq<Runner>, seq<int>))
    ensures |res.0| == |rs|
    ensures forall i :: 0 <= i < |rs| ==> Successor(rs[i], res.0[i])
    ensures res.1 == ledger + NewFinishers(rs, res.0)
  {
    if rs == [] then ([], ledger)
    else
      var n := |rs| - 1;
      var prev := Advance(rs[..n], t, ledger);
      var step := StepRunner(rs[n], n, t, prev.1);
      assert (prev.0 + [step.0])[..n] == prev.0;
      (prev.0 + [step.0], step.1)
  }

  /** What a tick does to each moving runner: runner i takes the speed,
      the clamped lane, the offset and the booster end time its strategy
      decides, with its own position i as the random draw's index, and comes
      to rest by the rest rule. */
  lemma {:induction false} AdvanceFollowsStrategy(rs: seq<Runner>, t: TickInput, ledger: seq<int>)
    ensures forall i :: 0 <= i < |rs| ==>
      FollowsStrategy(rs[i], Advance(rs, t, ledger).0[i], i, t) && RestsByRule(rs[i], Advance(rs, t, ledger).0[i])
  {
    if rs != [] {
      var n := |rs| - 1;
      AdvanceFollowsStrategy(rs[..n], t, ledger);
      var prev := Advance(rs[..n], t, ledger);
      var step := StepRunner(rs[n], n, t, prev.1);
      var out := Advance(rs, t, ledger).0;
      assert out == prev.0 + [step.0];
      forall i | 0 <= i < |rs|
        ensures FollowsStrategy(rs[i], out[i], i, t) && RestsByRule(rs[i], out[i])
      {
        if i < n {
          assert rs[..n][i] == rs[i] && out[i] == prev.0[i];
        }
      }
    }
  }

  predicate NoDuplicates(s: seq<int>)
  {
    forall k, m :: 0 <= k < m < |s| ==> s[k] != s[m]
  }

  /** The ledger is the source of truth for ranks: a runner has a rank and a
      finish time exactly when it has finished, finished runners hold distinct
      ranks in 1..|ledger|, and ledger entry k is the id of the runner ranked
      k + 1. */
  predicate Ranked(rs: seq<Runner>, ledger: seq<int>)
  {
    && (forall i :: 0 <= i < |rs| ==>
          (rs[i].finished <==> rs[i].rank.Some?) && (rs[i].finished <==> rs[i].finishTime.Some?))
    && (forall i :: 0 <= i < |rs| && rs[i].finished ==>
          rs[i].rank.Some? && 1 <= rs[i].rank.value <= |ledger|)
    && (forall i, j :: 0 <= i < |rs| && 0 <= j < |rs| && i != j && rs[i].finished && rs[j].finished ==>
          rs[i].rank != rs[j].rank)
    && (forall k :: 0 <= k < |ledger| ==> HoldsRank(rs, ledger, k))
  }

  /** Some finished runner holds rank k + 1 and its id is ledger entry k. */
  predicate HoldsRank(rs: seq<Runner>, ledger: seq<int>, k: nat)
    requires k < |ledger|
  {
    exists i :: 0 <= i < |rs| && rs[i].finished && rs[i].id == ledger[k] && rs[i].rank == Some(k + 1)
  }

  /** Distinct ids, lanes and offsets on the track, rest only after the
      finish, and progress within the runner's cap. */
  predicate WellFormedField(rs: seq<Runner>)
  {
    && DistinctIds(rs)
    && (forall i :: 0 <= i < |rs| ==> 0.0 <= rs[i].lane <= MAX_LANE)
    && (forall i :: 0 <= i < |rs| ==> -MAX_OFFSET <= rs[i].laneOffset <= MAX_OFFSET)
    && (forall i :: 0 <= i < |rs| ==> rs[i].isResting ==> rs[i].finished)
    && (forall i :: 0 <= i < |rs| ==> FINISH_LINE <= Cap(rs[i]) && rs[i].progress <= Cap(rs[i]))
  }

  /** The invariant the race keeps between ticks. */
  predicate Consistent(rs: seq<Runner>, ledger: seq<int>)
  {
    WellFormedField(rs) && Ranked(rs, ledger)
  }

  /** Replacing runner j by a successor that either keeps its finish state
      or crosses the line and is appended to the ledger keeps the field ranked. */
  lemma ReplaceKeepsRanked(w: seq<Runner>, j: nat, x: Runner, ledger: seq<int>, ledger': seq<int>)
    requires j < |w| && Ranked(w, ledger) && x.id == w[j].id
    requires FinishesNow(w[j], x) ==>
      ledger' == ledger + [x.id] && x.rank == Some(|ledger'|) && x.finishTime.Some?
    requires !FinishesNow(w[j], x) ==>
      ledger' == ledger && x.finished == w[j].finished &&
      x.rank == w[j].rank && x.finishTime == w[j].finishTime
    ensures Ranked(w[j := x], ledger')
  {
    var w' := w[j := x];
    forall i | 0 <= i < |w'|
      ensures (w'[i].finished <==> w'[i].rank.Some?) && (w'[i].finished <==> w'[i].finishTime.Some?)
      ensures w'[i].finished ==> w'[i].rank.Some? && 1 <= w'[i].rank.value <= |ledger'|
    {
      if i != j { assert w'[i] == w[i]; }
    }
    forall i, i' | 0 <= i < |w'| && 0 <= i' < |w'| && i != i' && w'[i].finished && w'[i'].finished
      ensures w'[i].rank != w'[i'].rank
    {
      if i != j && i' != j {
        assert w'[i] == w[i] && w'[i'] == w[i'];
      } else if i == j {
        assert w'[i'] == w[i'];
      } else {
        assert w'[i] == w[i];
      }
    }
    forall k | 0 <= k < |ledger'|
      ensures HoldsRank(w', ledger', k)
    {
      if k < |ledger| {
        assert HoldsRank(w, ledger, k);
        var i :| 0 <= i < |w| && w[i].finished && w[i].id == ledger[k] && w[i].rank == Some(k + 1);
        if i == j {
          assert w'[j].finished && w'[j].id == ledger'[k] && w'[j].rank == Some(k + 1);
        } else {
          assert w'[i] == w[i];
        }
      } else {
        assert w'[j].finished && w'[j].id == ledger'[k] && w'[j].rank == Some(k + 1);
      }
    }
  }

  /** Stepping one runner of a ranked field keeps it ranked. */
  lemma StepKeepsRanked(w: seq<Runner>, j: nat, t: TickInput, ledger: seq<int>)
    requires j < |w| && Ranked(w, ledger)
    ensures Ranked(w[j := StepRunner(w[j], j, t, ledger).0], StepRunner(w[j], j, t, ledger).1)
  {
    var (x, ledger') := StepRunner(w[j], j, t, ledger);
    ReplaceKeepsRanked(w, j, x, ledger, ledger');
  }

  /** Splitting off the last element of a prefix. */
  lemma SplitLast(p: seq<Runner>, q: seq<Runner>)
    requires p != []
    ensures p + q == p[..|p| - 1] + ([p[|p| - 1]] + q)
  {
  }

  /** Overwriting the joint of a + [x] + q. */
  lemma ReplaceJoint(a: seq<Runner>, x: Runner, q: seq<Runner>, y: Runner)
    ensures |a| < |a + ([x] + q)| && (a + ([x] + q))[|a|] == x
    ensures (a + ([x] + q))[|a| := y] == (a + [y]) + q
  {
  }

  /** Advance on a non-empty field: the prefix, then the last runner. */
  lemma AdvanceLast(p: seq<Runner>, t: TickInput, ledger: seq<int>)
    requires p != []
    ensures var n := |p| - 1;
            var prev := Advance(p[..n], t, ledger);
            var step := StepRunner(p[n], n, t, prev.1);
            Advance(p, t, ledger) == (prev.0 + [step.0], step.1)
  {
  }

  /** Advancing a prefix of the field, in order, keeps the whole field ranked. */
  lemma {:induction false} AdvanceKeepsRanked(p: seq<Runner>, q: seq<Runner>, t: TickInput, ledger: seq<int>)
    requires Ranked(p + q, ledger)
    ensures Ranked(Advance(p, t, ledger).0 + q, Advance(p, t, ledger).1)
  {
    if p != [] {
      var n := |p| - 1;
      var x := p[n];
      SplitLast(p, q);
      AdvanceKeepsRanked(p[..n], [x] + q, t, ledger);
      var prev := Advance(p[..n], t, ledger);
      var w := prev.0 + ([x] + q);
      ReplaceJoint(prev.0, x, q, StepRunner(x, n, t, prev.1).0);
      StepKeepsRanked(w, n, t, prev.1);
      AdvanceLast(p, t, ledger);
    }
  }

  /** Every runner of a well-formed field is on the track proper, so its lap
      is longer than the two straights and `getPathData`'s remainder is
      taken modulo a positive length. */
  lemma FieldLapsArePositive(rs: seq<Runner>, tr: TrackPath.Trig)
    requires WellFormedField(rs) && tr.pi > 0.0
    ensures forall i :: 0 <= i < |rs| ==>
      TrackPath.LapLength(TrackPath.LaneRadius(rs[i].lane, rs[i].laneOffset), tr) > 2.0 * TrackPath.STRAIGHT_LEN
  {
    forall i | 0 <= i < |rs|
      ensures TrackPath.LapLength(TrackPath.LaneRadius(rs[i].lane, rs[i].laneOffset), tr) > 2.0 * TrackPath.STRAIGHT_LEN
    {
      TrackPath.TrackRadiusPositive(rs[i].lane, rs[i].laneOffset, tr);
    }
  }

  /** A tick keeps the field well formed. */
  lemma AdvanceKeepsWellFormed(rs: seq<Runner>, t: TickInput, ledger: seq<int>)
    requires WellFormedField(rs)
    ensures WellFormedField(Advance(rs, t, ledger).0)
  {
    var out := Advance(rs, t, ledger).0;
    forall i | 0 <= i < |out|
      ensures out[i].id == rs[i].id && 0.0 <= out[i].lane <= MAX_LANE
      ensures -MAX_OFFSET <= out[i].laneOffset <= MAX_OFFSET
      ensures out[i].isResting ==> out[i].finished
      ensures FINISH_LINE <= Cap(out[i]) && out[i].progress <= Cap(out[i])
    {
      assert Successor(rs[i], out[i]);
    }
  }

  /** A tick that runs over the field keeps the race's invariant. */
  lemma AdvanceKeepsConsistent(rs: seq<Runner>, t: TickInput, ledger: seq<int>)
    requires Consistent(rs, ledger)
    ensures Consistent(Advance(rs, t, ledger).0, Advance(rs, t, ledger).1)
  {
    AdvanceKeepsWellFormed(rs, t, ledger);
    assert rs + [] == rs && Advance(rs, t, ledger).0 + [] == Advance(rs, t, ledger).0;
    AdvanceKeepsRanked(rs, [], t, ledger);
  }

  /** Rank order is ledger order: the ledger names every finished runner at
      the position of its rank, and names no runner twice. */
  lemma LedgerNamesRanks(rs: seq<Runner>, ledger: seq<int>)
    requires DistinctIds(rs) && Ranked(rs, ledger)
    ensures forall i :: 0 <= i < |rs| && rs[i].finished ==>
              rs[i].rank.Some? && 1 <= rs[i].rank.value <= |ledger| &&
              ledger[rs[i].rank.value - 1] == rs[i].id
    ensures NoDuplicates(ledger)
  {
    forall i | 0 <= i < |rs| && rs[i].finished
      ensures ledger[rs[i].rank.value - 1] == rs[i].id
    {
      var k := rs[i].rank.value - 1;
      assert HoldsRank(rs, ledger, k);
      var i' :| 0 <= i' < |rs| && rs[i'].finished && rs[i'].id == ledger[k] && rs[i'].rank == Some(k + 1);
    }
    forall k, m | 0 <= k < m < |ledger|
      ensures ledger[k] != ledger[m]
    {
      assert HoldsRank(rs, ledger, k) && HoldsRank(rs, ledger, m);
      var a :| 0 <= a < |rs| && rs[a].finished && rs[a].id == ledger[k] && rs[a].rank == Some(k + 1);
      var b :| 0 <= b < |rs| && rs[b].finished && rs[b].id == ledger[m] && rs[b].rank == Some(m + 1);
      assert a != b;
    }
  }

  predicate AllResting(rs: seq<Runner>)
  {
    forall i :: 0 <= i < |rs| ==> rs[i].isResting
  }

  /** The per-runner draws of `initRace`, in the order Math.random is called. */
  datatype Draws = Draws(speed: real, offset: real, stop: real, bob: real)

  ghost predicate UnitDraws(draws: nat -> Draws)
  {
    forall i: nat :: 0.0 <= draws(i).speed < 1.0 && 0.0 <= draws(i).offset < 1.0 &&
                     0.0 <= draws(i).stop < 1.0 && 0.0 <= draws(i).bob < 1.0
  }

  /** Runner i of a fresh field (App.tsx:27-43); `pi` stands for Math.PI. */
  function NewRunner(i: nat, d: Draws, pi: real): (r: Runner)
    ensures r.id == i + 1 && r.color == COLORS[i % |COLORS|] && r.lane == (i % 10) as real
    ensures r.progress == 0.0 && r.speed == 0.0 && !r.finished && !r.isResting
    ensures r.rank.None? && r.finishTime.None? && !BoosterActive(r, 0.0)
    ensures 0.0 <= d.speed < 1.0 ==> 0.0007 <= r.baseSpeed < 0.00105
    ensures 0.0 <= d.offset < 1.0 ==> -MAX_OFFSET <= r.laneOffset < MAX_OFFSET
    ensures 0.0 <= d.stop < 1.0 ==> 1.01 <= Cap(r) < 1.06 && RestPoint(r) == Cap(r)
    ensures 0.0 <= d.bob < 1.0 && pi > 0.0 ==> 0.0 <= r.bobOffset < 2.0 * pi
  {
    Runner(
      id := i + 1,
      color := COLORS[i % |COLORS|],
      progress := 0.0,
      lane := (i % 10) as real,
      laneOffset := (d.offset - 0.5) * 0.8,
      speed := 0.0,
      baseSpeed := 0.0007 + d.speed * 0.00035,
      finished := false,
      finishTime := None,
      rank := None,
      bobOffset := d.bob * pi * 2.0,
      isResting := false,
      stopProgress := Some(1.01 + d.stop * 0.05),
      boosterEndTime := Some(0.0))
  }

  function InitialRunners(n: nat, draws: nat -> Draws, pi: real): (rs: seq<Runner>)
    ensures |rs| == n
    ensures forall i :: 0 <= i < n ==>
      rs[i].id == i + 1 && rs[i].lane == (i % 10) as real && rs[i].progress == 0.0 &&
      !rs[i].finished && !rs[i].isResting && rs[i].rank.None?
    ensures forall i :: 0 <= i < n ==> rs[i] == NewRunner(i, draws(i), pi)
  {
    var rs := seq(n, i requires 0 <= i < n => NewRunner(i, draws(i), pi));
    assert forall i :: 0 <= i < n ==> rs[i] == NewRunner(i, draws(i), pi);
    rs
  }

  /** A fresh field satisfies the race invariant with an empty ledger, and the
      drawn quantities lie in the ranges the source's formulas give. */
  lemma FreshFieldConsistent(n: nat, draws: nat -> Draws, pi: real)
    requires UnitDraws(draws)
    ensures Consistent(InitialRunners(n, draws, pi), [])
    ensures forall i :: 0 <= i < n ==>
      0.0007 <= InitialRunners(n, draws, pi)[i].baseSpeed < 0.00105 &&
      -0.4 <= InitialRunners(n, draws, pi)[i].laneOffset < 0.4 &&
      1.01 <= Cap(InitialRunners(n, draws, pi)[i]) < 1.06
  {
    var rs := InitialRunners(n, draws, pi);
    forall i | 0 <= i < n
      ensures 0.0007 <= rs[i].baseSpeed < 0.00105 && -0.4 <= rs[i].laneOffset < 0.4
      ensures 1.01 <= Cap(rs[i]) < 1.06
    {
      assert rs[i] == NewRunner(i, draws(i), pi);
      var d := draws(i);
      assert 0.0 <= d.speed < 1.0 && 0.0 <= d.offset < 1.0 && 0.0 <= d.stop < 1.0;
    }
  }

  /** The restart of App.tsx:59-68. */
  function Restarted(r: Runner): (r2: Runner)
    ensures SameIdentity(r, r2) && r2.lane == r.lane && r2.laneOffset == r.laneOffset
    ensures r2.progress == 0.0 && !r2.finished && !r2.isResting
    ensures r2.rank.None? && r2.finishTime.None?
    ensures r2.speed == r.baseSpeed && r2.boosterEndTime == Some(0.0)
  {
    r.(progress := 0.0, finished := false, isResting := false, rank := None,
       finishTime := None, speed := r.baseSpeed, boosterEndTime := Some(0.0))
  }

  /** The field after `startRace` maps every runner through Restarted. */
  function RestartField(rs: seq<Runner>): (out: seq<Runner>)
    ensures |out| == |rs|
    ensures forall i :: 0 <= i < |rs| ==> out[i] == Restarted(rs[i])
  {
    seq(|rs|, i requires 0 <= i < |rs| => Restarted(rs[i]))
  }

  /** A restart wipes the results and keeps the race's invariant with an
      empty ledger. */
  lemma RestartKeepsConsistent(rs: seq<Runner>, ledger: seq<int>)
    requires Consistent(rs, ledger)
    ensures Consistent(RestartField(rs), [])
    ensures forall i :: 0 <= i < |rs| ==> !RestartField(rs)[i].finished && RestartField(rs)[i].rank.None?
  {
    var out := RestartField(rs);
    forall i | 0 <= i < |rs|
      ensures FINISH_LINE <= Cap(out[i]) && 0.0 <= out[i].lane <= MAX_LANE
    {
      assert Cap(out[i]) == Cap(rs[i]);
    }
  }

  /** The runner-count input (App.tsx:202): `parseInt` gives None for NaN, and
      both NaN and 0 fall back to 1 before clamping to [1, 100]. */
  function ClampCount(parsed: Option<int>): (n: int)
    ensures 1 <= n <= 100
    ensures parsed.Some? && 1 <= parsed.value <= 100 ==> n == parsed.value
    ensures parsed.None? || parsed.value <= 1 ==> n == 1
    ensures parsed.Some? && parsed.value >= 100 ==> n == 100
  {
    var v := if parsed.None? || parsed.value == 0 then 1 else parsed.value;
    if v < 1 then 1 else if v > 100 then 100 else v
  }

  /** `rank || 0`, the sort key of the results board. */
  function RankKey(): Runner -> real
  {
    (r: Runner) => (if r.rank.Some? then r.rank.value else 0) as real
  }

  /** The runners with a rank, in array order. */
  function WithRank(rs: seq<Runner>): (out: seq<Runner>)
    ensures forall x :: x in out <==> x in rs && x.rank.Some?
    ensures DistinctIds(rs) ==> DistinctIds(out)
  {
    if rs == [] then []
    else
      assert rs == [rs[0]] + rs[1..];
      (if rs[0].rank.Some? then [rs[0]] else []) + WithRank(rs[1..])
  }

  /** The results board `allResults` (App.tsx:171-173): runners with a rank,
      sorted by `rank || 0`. */
  function AllResults(rs: seq<Runner>): (board: seq<Runner>)
    ensures multiset(board) == multiset(WithRank(rs))
    ensures SortedBy(board, RankKey())
  {
    SortBy(WithRank(rs), RankKey())
  }

  /** A strictly increasing sequence of values in 1..n that hits every one of
      them is 1, 2, ..., n. */
  lemma {:induction false} IncreasingCoverAt(r: seq<int>, n: nat, a: nat)
    requires forall x, y :: 0 <= x < y < |r| ==> r[x] < r[y]
    requires forall x :: 0 <= x < |r| ==> 1 <= r[x] <= n
    requires forall v :: 1 <= v <= n ==> v in r
    requires a < |r|
    ensures r[a] == a + 1
    decreases a
  {
    if a > 0 {
      IncreasingCoverAt(r, n, a - 1);
      assert r[a - 1] < r[a];
    }
    assert a + 1 <= r[a] <= n;
    assert a + 1 in r;
    var m :| 0 <= m < |r| && r[m] == a + 1;
  }

  lemma IncreasingCover(r: seq<int>, n: nat)
    requires forall x, y :: 0 <= x < y < |r| ==> r[x] < r[y]
    requires forall x :: 0 <= x < |r| ==> 1 <= r[x] <= n
    requires forall v :: 1 <= v <= n ==> v in r
    ensures |r| == n
    ensures forall a :: 0 <= a < |r| ==> r[a] == a + 1
  {
    forall a | 0 <= a < |r| ensures r[a] == a + 1 {
      IncreasingCoverAt(r, n, a);
    }
    if n >= 1 {
      assert n in r;
    }
    if |r| > 0 {
      assert r[|r| - 1] == |r|;
    }
  }

  /** Every runner of s that holds a rank holds one in 1..|ledger|, and the
      ledger names it at that rank. */
  predicate NamedByLedger(s: seq<Runner>, ledger: seq<int>)
  {
    forall a :: 0 <= a < |s| && s[a].rank.Some? ==>
      1 <= s[a].rank.value <= |ledger| && ledger[s[a].rank.value - 1] == s[a].id
  }

  lemma RankedNamedByLedger(rs: seq<Runner>, ledger: seq<int>)
    requires DistinctIds(rs) && Ranked(rs, ledger)
    ensures NamedByLedger(rs, ledger)
  {
    LedgerNamesRanks(rs, ledger);
  }

  /** Naming by the ledger is a property of the elements, not their order. */
  lemma NamedByLedgerMembers(s: seq<Runner>, r: seq<Runner>, ledger: seq<int>)
    requires NamedByLedger(s, ledger)
    requires forall x :: x in r ==> x in s
    ensures NamedByLedger(r, ledger)
  {
    forall a | 0 <= a < |r| && r[a].rank.Some?
      ensures 1 <= r[a].rank.value <= |ledger| && ledger[r[a].rank.value - 1] == r[a].id
    {
      assert r[a] in s;
      var i :| 0 <= i < |s| && s[i] == r[a];
    }
  }

  lemma BoardNamedByLedger(rs: seq<Runner>, ledger: seq<int>)
    requires DistinctIds(rs) && Ranked(rs, ledger)
    ensures NamedByLedger(AllResults(rs), ledger)
    ensures forall a :: 0 <= a < |AllResults(rs)| ==> AllResults(rs)[a].rank.Some?
  {
    RankedNamedByLedger(rs, ledger);
    var board := AllResults(rs);
    forall x | x in board
      ensures x in rs && x.rank.Some?
    {
      assert x in multiset(board);
      assert x in WithRank(rs);
    }
    NamedByLedgerMembers(rs, board, ledger);
  }

  function RanksOf(board: seq<Runner>): (ranks: seq<int>)
    requires forall a :: 0 <= a < |board| ==> board[a].rank.Some?
    ensures |ranks| == |board|
    ensures forall a :: 0 <= a < |board| ==> Some(ranks[a]) == board[a].rank
  {
    seq(|board|, a requires 0 <= a < |board| => board[a].rank.value)
  }

  lemma RanksIncrease(board: seq<Runner>, ledger: seq<int>)
    requires forall a :: 0 <= a < |board| ==> board[a].rank.Some?
    requires NamedByLedger(board, ledger) && DistinctIds(board)
    requires SortedBy(board, RankKey())
    ensures forall x, y :: 0 <= x < y < |board| ==> RanksOf(board)[x] < RanksOf(board)[y]
  {
    var ranks := RanksOf(board);
    forall x, y | 0 <= x < y < |board|
      ensures ranks[x] < ranks[y]
    {
      assert RankKey()(board[x]) <= RankKey()(board[y]);
      assert board[x].id != board[y].id;
    }
  }

  /** Every runner holding a rank is on the board. */
  lemma RankedRunnerOnBoard(rs: seq<Runner>, x: Runner)
    requires x in rs && x.rank.Some?
    ensures x in AllResults(rs)
  {
    assert x in WithRank(rs);
    assert x in multiset(AllResults(rs));
  }

  /** Each rank the ledger has handed out appears on the board. */
  lemma RankOnBoard(rs: seq<Runner>, ledger: seq<int>, v: int) returns (a: nat)
    requires Ranked(rs, ledger) && 1 <= v <= |ledger|
    ensures a < |AllResults(rs)| && AllResults(rs)[a].rank == Some(v)
  {
    assert HoldsRank(rs, ledger, v - 1);
    var i :| 0 <= i < |rs| && rs[i].finished && rs[i].id == ledger[v - 1] && rs[i].rank == Some(v);
    var x := rs[i];
    RankedRunnerOnBoard(rs, x);
    var board := AllResults(rs);
    a :| 0 <= a < |board| && board[a] == x;
  }

  lemma RanksCover(rs: seq<Runner>, ledger: seq<int>)
    requires Ranked(rs, ledger)
    requires forall a :: 0 <= a < |AllResults(rs)| ==> AllResults(rs)[a].rank.Some?
    ensures forall v :: 1 <= v <= |ledger| ==> v in RanksOf(AllResults(rs))
  {
    var ranks := RanksOf(AllResults(rs));
    forall v | 1 <= v <= |ledger|
      ensures v in ranks
    {
      var a := RankOnBoard(rs, ledger, v);
      assert ranks[a] == v;
    }
  }

  /** The final standings list the ledger: entry k of the board is the runner
      the ledger names at position k, holding rank k + 1. */
  lemma StandingsFollowLedger(rs: seq<Runner>, ledger: seq<int>)
    requires Consistent(rs, ledger)
    ensures |AllResults(rs)| == |ledger|
    ensures forall k :: 0 <= k < |ledger| ==>
              AllResults(rs)[k].id == ledger[k] && AllResults(rs)[k].rank == Some(k + 1)
  {
    BoardRanksCount(rs, ledger);
    BoardNamedByLedger(rs, ledger);
  }

  /** A board sorted by rank, naming distinct runners the ledger ranks, and
      showing every rank the ledger handed out, ranks them 1, 2, ..., in
      order. */
  lemma RanksInOrder(board: seq<Runner>, ledger: seq<int>)
    requires forall a :: 0 <= a < |board| ==> board[a].rank.Some?
    requires NamedByLedger(board, ledger) && DistinctIds(board)
    requires SortedBy(board, RankKey())
    requires forall v :: 1 <= v <= |ledger| ==> v in RanksOf(board)
    ensures |board| == |ledger|
    ensures forall k :: 0 <= k < |ledger| ==> board[k].rank == Some(k + 1)
  {
    var ranks := RanksOf(board);
    RanksIncrease(board, ledger);
    assert forall x :: 0 <= x < |ranks| ==> 1 <= ranks[x] <= |ledger|;
    IncreasingCover(ranks, |ledger|);
  }

  /** The board's ranks are exactly 1, 2, ..., |ledger| in order. */
  lemma BoardRanksCount(rs: seq<Runner>, ledger: seq<int>)
    requires Consistent(rs, ledger)
    ensures |AllResults(rs)| == |ledger|
    ensures forall k :: 0 <= k < |ledger| ==> AllResults(rs)[k].rank == Some(k + 1)
  {
    var board := AllResults(rs);
    BoardNamedByLedger(rs, ledger);
    PermutationKeepsDistinct(WithRank(rs), board);
    RanksCover(rs, ledger);
    RanksInOrder(board, ledger);
  }

  /** The `prev.map(...)` of one tick as the loop it runs: runner i is
      rebuilt, and a crossing pushes onto the ledger before runner i + 1 is
      looked at. */
  method StepField(rs: seq<Runner>, t: TickInput, ledger: seq<int>) returns (next: seq<Runner>, led: seq<int>)
    ensures (next, led) == Advance(rs, t, ledger)
  {
    next := [];
    led := ledger;
    var i := 0;
    while i < |rs|
      invariant 0 <= i <= |rs|
      invariant (next, led) == Advance(rs[..i], t, ledger)
    {
      assert rs[..i + 1][..i] == rs[..i];
      var step := StepRunner(rs[i], i, t, led);
      next := next + [step.0];
      led := step.1;
      i := i + 1;
    }
    assert rs[..i] == rs;
  }

  /** What holds between events: the count is in range and matches the
      field, the field is consistent with the ledger, a fresh field has no
      results, and a finished race has every runner at rest. */
  predicate RaceState(count: int, rs: seq<Runner>, status: RaceStatus, ledger: seq<int>)
  {
    && 1 <= count <= 100
    && |rs| == count
    && Consistent(rs, ledger)
    && status != Preparing
    && (status == Idle ==> ledger == [])
    && (status == Finished ==> AllResting(rs))
  }

  /** The `setRunners` updater of one tick: when every runner rests the race
      is declared finished and the field is left alone; otherwise every
      runner is stepped in array order against the shared ledger. */
  function TickUpdate(rs: seq<Runner>, t: TickInput, ledger: seq<int>): (res: (RaceStatus, seq<Runner>, seq<int>))
    ensures res.0 == Finished <==> AllResting(rs)
    ensures res.0 == Finished ==> res.1 == rs && res.2 == ledger
    ensures res.0 != Finished ==> res.0 == Racing && (res.1, res.2) == Advance(rs, t, ledger)
  {
    if AllResting(rs) then (Finished, rs, ledger)
    else (Racing, Advance(rs, t, ledger).0, Advance(rs, t, ledger).1)
  }

  /** The body of the updater: the finish check, then the loop over the
      field. */
  method TickStep(count: int, rs: seq<Runner>, t: TickInput, ledger: seq<int>) returns (st: RaceStatus, next: seq<Runner>, led: seq<int>)
    requires RaceState(count, rs, Racing, ledger)
    ensures (st, next, led) == TickUpdate(rs, t, ledger)
    ensures RaceState(count, next, st, led)
  {
    TickKeepsRaceState(count, rs, t, ledger);
    if AllResting(rs) {
      st, next, led := Finished, rs, ledger;
    } else {
      next, led := StepField(rs, t, ledger);
      st := Racing;
    }
  }

  /** A tick keeps the race's invariant, whichever way it goes. */
  lemma TickKeepsRaceState(count: int, rs: seq<Runner>, t: TickInput, ledger: seq<int>)
    requires RaceState(count, rs, Racing, ledger)
    ensures RaceState(count, TickUpdate(rs, t, ledger).1, TickUpdate(rs, t, ledger).0, TickUpdate(rs, t, ledger).2)
  {
    AdvanceKeepsConsistent(rs, t, ledger);
  }

  /** What the commentary banner shows. */
  datatype Banner =
    | Welcome   // the text before the first field is built
    | LinedUp   // after a field is built
    | StartGun  // after the start
    | Live(line: Commentary.Line)

  /** The App component's race state: the participant count, the field, the
      status, the finish ledger (`finishOrderRef`), the start time and the
      banner. */
  class Race {
    var participantCount: int
    var runners: seq<Runner>
    var status: RaceStatus
    var finishOrder: seq<int>
    var raceStart: real
    var banner: Banner

    /** What holds between events: the count is in range and matches the
        field, the field is consistent with the ledger, a fresh field has no
        results, and a finished race has every runner at rest. */
    predicate Valid()
      reads this
    {
      RaceState(participantCount, runners, status, finishOrder)
    }

    /** Mounting the component: the count starts at 40 and the mount effect
        builds the first field. */
    constructor (draws: nat -> Draws, pi: real)
      requires UnitDraws(draws)
      ensures Valid()
      ensures participantCount == 40 && status == Idle && finishOrder == []
      ensures runners == InitialRunners(40, draws, pi) && banner == LinedUp
    {
      participantCount := 40;
      runners := InitialRunners(40, draws, pi);
      status := Idle;
      finishOrder := [];
      raceStart := 0.0;
      banner := LinedUp;
      FreshFieldConsistent(40, draws, pi);
    }

    /** initRace (App.tsx:26-49). */
    method InitRace(draws: nat -> Draws, pi: real)
      requires 1 <= participantCount <= 100 && UnitDraws(draws)
      modifies this
      ensures Valid()
      ensures runners == InitialRunners(participantCount, draws, pi)
      ensures status == Idle && finishOrder == [] && banner == LinedUp
      ensures participantCount == old(participantCount) && raceStart == old(raceStart)
    {
      runners := InitialRunners(participantCount, draws, pi);
      status := Idle;
      banner := LinedUp;
      finishOrder := [];
      FreshFieldConsistent(participantCount, draws, pi);
    }

    /** The runner-count input (App.tsx:197-204) and the effect that rebuilds
        the field when the count changes (App.tsx:51-53). The input is
        disabled during a race. */
    method SetParticipantCount(parsed: Option<int>, draws: nat -> Draws, pi: real)
      requires Valid() && UnitDraws(draws)
      modifies this
      ensures Valid()
      ensures old(status) == Racing ==> unchanged(this)
      ensures old(status) != Racing && ClampCount(parsed) == old(participantCount) ==> unchanged(this)
      ensures old(status) != Racing && ClampCount(parsed) != old(participantCount) ==>
        participantCount == ClampCount(parsed) &&
        runners == InitialRunners(participantCount, draws, pi) &&
        status == Idle && finishOrder == [] && banner == LinedUp && raceStart == old(raceStart)
    {
      if status == Racing {
        return;
      }
      var n := ClampCount(parsed);
      if n != participantCount {
        participantCount := n;
        InitRace(draws, pi);
      }
    }

    /** startRace (App.tsx:55-72). */
    method StartRace(now: real)
      requires Valid()
      modifies this
      ensures Valid()
      ensures old(status) == Racing ==> unchanged(this)
      ensures old(status) != Racing ==>
        raceStart == now && runners == RestartField(old(runners)) && finishOrder == [] &&
        status == Racing && banner == StartGun && participantCount == old(participantCount)
    {
      if status == Racing {
        return;
      }
      RestartKeepsConsistent(runners, finishOrder);
      raceStart := now;
      runners := RestartField(runners);
      finishOrder := [];
      status := Racing;
      banner := StartGun;
    }

    /** One firing of the 30 ms interval (App.tsx:79-155), which runs only
        while racing. */
    method Tick(now: real, stamp: real, sin: real -> real, random: nat -> real)
      requires Valid() && status == Racing
      modifies this
      ensures Valid()
      ensures participantCount == old(participantCount) && raceStart == old(raceStart)
      ensures banner == old(banner)
      ensures (status, runners, finishOrder) ==
        TickUpdate(old(runners), TickInput(now, now - old(raceStart), stamp, sin, random), old(finishOrder))
    {
      var t := TickInput(now, now - raceStart, stamp, sin, random);
      status, runners, finishOrder := TickStep(participantCount, runners, t, finishOrder);
    }

    /** The 10 s commentary interval (App.tsx:158-163), which runs only while
        racing; `rnd` is the phrase draw. */
    method CommentaryTick(rnd: real)
      requires Valid() && status == Racing && 0.0 <= rnd < 1.0
      modifies this
      ensures Valid()
      ensures runners == old(runners) && status == old(status) && finishOrder == old(finishOrder)
      ensures participantCount == old(participantCount) && raceStart == old(raceStart)
      ensures |runners| > 0 ==> banner == Live(Commentary.RaceCommentary(runners, Racing, rnd))
      ensures |runners| == 0 ==> banner == old(banner)
    {
      if |runners| > 0 {
        banner := Live(Commentary.RaceCommentary(runners, Racing, rnd));
      }
    }

    /** The results board of the current field (App.tsx:171-173). */
    function Results(): (board: seq<Runner>)
      requires Valid()
      reads this
      ensures |board| == |finishOrder|
      ensures forall k :: 0 <= k < |board| ==> board[k].id == finishOrder[k] && board[k].rank == Some(k + 1)
    {
      StandingsFollowLedger(runners, finishOrder);
      AllResults(runners)
    }
  }
}
