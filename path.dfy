/** The track geometry of components/RaceScene.tsx (`getPathData`): a stadium
    of two 120-unit straights joined by two half-circles, ten lanes wide,
    run twice per race. Progress along the race maps to a point on the centre
    line of the runner's lane and to the direction of travel there. Math.PI,
    Math.sin and Math.cos are parameters. */
module TrackPath {

  datatype Vec3 = Vec3(x: real, y: real, z: real)

  /** The trigonometry the geometry uses: the value of pi and the sine and
      cosine functions. */
  datatype Trig = Trig(pi: real, sin: real -> real, cos: real -> real)

  const STRAIGHT_LEN: real := 120.0
  const CURVE_RADIUS: real := 60.0
  const LANE_WIDTH: real := 6.0
  const LAPS: real := 2.0
  const LANE_COUNT: real := 10.0

  /** The radius of the centre line a runner follows (RaceScene.tsx:18-19):
      the lane's centre plus 70% of the runner's lateral offset, in lane
      widths. On the track proper (lanes 0 to 9, offsets within 0.4) it lies
      between the inner edge plus 1.32 and the outer edge less 1.32. */
  function LaneRadius(lane: real, laneOffset: real): (r: real)
    ensures 0.0 <= lane <= 9.0 && -0.4 <= laneOffset <= 0.4 ==> 61.32 <= r <= 118.68
    ensures r - CURVE_RADIUS == LANE_WIDTH * (lane + 0.5 + 0.7 * laneOffset)
  {
    CURVE_RADIUS + (lane * LANE_WIDTH + LANE_WIDTH * 0.5) + laneOffset * LANE_WIDTH * 0.7
  }

  /** One lap (RaceScene.tsx:20-21): two straights and a full circle of the
      lane's radius, so longer than the two straights for any positive
      radius. */
  function LapLength(r: real, tr: Trig): (l: real)
    ensures tr.pi > 0.0 && r > 0.0 ==> l > 2.0 * STRAIGHT_LEN
  {
    2.0 * STRAIGHT_LEN + 2.0 * tr.pi * r
  }

  /** The z of the finish line's centre (RaceScene.tsx:129): the middle of
      the track on the first straight. */
  function FinishLineZ(): real
  {
    CURVE_RADIUS + LANE_COUNT * LANE_WIDTH / 2.0
  }

  /** JavaScript's conversion toward zero. */
  function Trunc(x: real): (n: int)
    ensures x >= 0.0 ==> n as real <= x < n as real + 1.0
    ensures x < 0.0 ==> n as real - 1.0 < x <= n as real
  {
    if x >= 0.0 then x.Floor else -((-x).Floor)
  }

  /** JavaScript's `a % b` on numbers: the remainder of the quotient truncated
      toward zero, which keeps the sign of a. A zero divisor gives NaN in the
      source; here it leaves a unreduced. */
  function JsRem(a: real, b: real): real
  {
    if b == 0.0 then a else a - b * Trunc(a / b) as real
  }

  lemma MulLess(a: real, b: real, c: real)
    requires a < b && c > 0.0
    ensures a * c < b * c
  {
  }

  lemma MulAtMost(a: real, b: real, c: real)
    requires a <= b && c > 0.0
    ensures a * c <= b * c
  {
  }

  /** Division by a non-zero b undoes multiplication by b. */
  lemma DivUnique(x: real, b: real, q: real)
    requires b != 0.0 && q * b == x
    ensures x / b == q
  {
    var d := x / b;
    assert d * b == x;
    assert (d - q) * b == 0.0;
  }

  /** For a non-negative dividend and positive divisor the remainder lies in
      [0, b). */
  lemma JsRemRange(a: real, b: real)
    requires a >= 0.0 && b > 0.0
    ensures 0.0 <= JsRem(a, b) < b
  {
    var q := a / b;
    var n := Trunc(q);
    assert q >= 0.0;
    assert q * b == a;
    MulAtMost(n as real, q, b);
    MulLess(q, n as real + 1.0, b);
  }

  /** Adding one divisor to a non-negative dividend leaves the remainder as
      it was. */
  lemma JsRemPeriodic(a: real, b: real)
    requires a >= 0.0 && b > 0.0
    ensures JsRem(a + b, b) == JsRem(a, b)
  {
    var q := a / b;
    assert q * b == a;
    assert (q + 1.0) * b == a + b;
    DivUnique(a + b, b, q + 1.0);
    assert q >= 0.0;
    var n := Trunc(q);
    assert Trunc(q + 1.0) == n + 1;
    assert b * ((n + 1) as real) == b * (n as real) + b;
  }

  /** A dividend in [0, b) is its own remainder. */
  lemma JsRemSmall(a: real, b: real)
    requires 0.0 <= a < b
    ensures JsRem(a, b) == a
  {
    var q := a / b;
    assert q * b == a;
    if q >= 1.0 {
      MulAtMost(1.0, q, b);
      assert false;
    }
    if q < 0.0 {
      MulLess(q, 0.0, b);
      assert false;
    }
    assert 0.0 <= q < 1.0;
    var n := Trunc(q);
    assert n as real <= q < n as real + 1.0;
    assert n == 0;
  }

  /** The result of `getPathData`. */
  datatype PathInfo = PathInfo(position: Vec3, tangent: Vec3, s: real, lap: real)

  /** Which of the four pieces of the lap a lap position falls in. */
  datatype Segment = FirstStraight | FirstTurn | SecondStraight | SecondTurn

  function SegmentOf(s: real, r: real, tr: Trig): Segment
  {
    if s < STRAIGHT_LEN then FirstStraight
    else if s < STRAIGHT_LEN + tr.pi * r then FirstTurn
    else if s < 2.0 * STRAIGHT_LEN + tr.pi * r then SecondStraight
    else SecondTurn
  }

  /** The lap position: the distance run, shifted so that progress 0 sits in
      the middle of the first straight, modulo the lap. */
  function LapPosition(progress: real, lap: real): real
  {
    JsRem(progress * lap * LAPS + STRAIGHT_LEN / 2.0, lap)
  }

  /** The angle turned so far on the half-circle of radius r that begins
      at lap position `start`. */
  function TurnAngle(s: real, start: real, r: real): real
  {
    if r == 0.0 then 0.0 else (s - start) / r
  }

  /** Where the first and second turns begin. */
  function FirstTurnStart(): real { STRAIGHT_LEN }
  function SecondTurnStart(r: real, tr: Trig): real { 2.0 * STRAIGHT_LEN + tr.pi * r }

  function FirstStraightPoint(s: real, r: real): Vec3
  {
    Vec3(-STRAIGHT_LEN / 2.0 + s, 0.0, r)
  }

  function FirstTurnPoint(theta: real, r: real, tr: Trig): Vec3
  {
    Vec3(STRAIGHT_LEN / 2.0 + r * tr.sin(theta), 0.0, r * tr.cos(theta))
  }

  function SecondStraightPoint(s: real, r: real, tr: Trig): Vec3
  {
    Vec3(STRAIGHT_LEN / 2.0 - (s - (STRAIGHT_LEN + tr.pi * r)), 0.0, -r)
  }

  function SecondTurnPoint(theta: real, r: real, tr: Trig): Vec3
  {
    Vec3(-STRAIGHT_LEN / 2.0 - r * tr.sin(theta), 0.0, -r * tr.cos(theta))
  }

  function FirstTurnTangent(theta: real, tr: Trig): Vec3
  {
    Vec3(tr.cos(theta), 0.0, -tr.sin(theta))
  }

  /** The direction of travel on the second turn, the derivative of
      SecondTurnPoint: (-cos theta, 0, sin theta). */
  function SecondTurnTangent(theta: real, tr: Trig): Vec3
  {
    Vec3(-tr.cos(theta), 0.0, tr.sin(theta))
  }

  /** The second-turn tangent as RaceScene.tsx:41 computes it:
      (-sin theta, 0, sin theta). */
  function SecondTurnTangentAsWritten(theta: real, tr: Trig): Vec3
  {
    Vec3(-tr.sin(theta), 0.0, tr.sin(theta))
  }

  /** Point and tangent at lap position s, given the second-turn tangent
      rule to use. */
  function PointAt(s: real, r: real, tr: Trig, asWritten: bool): (pt: (Vec3, Vec3))
  {
    if SegmentOf(s, r, tr) == FirstStraight then
      (FirstStraightPoint(s, r), Vec3(1.0, 0.0, 0.0))
    else if SegmentOf(s, r, tr) == FirstTurn then
      (FirstTurnPoint(TurnAngle(s, FirstTurnStart(), r), r, tr),
       FirstTurnTangent(TurnAngle(s, FirstTurnStart(), r), tr))
    else if SegmentOf(s, r, tr) == SecondStraight then
      (SecondStraightPoint(s, r, tr), Vec3(-1.0, 0.0, 0.0))
    else if asWritten then
      (SecondTurnPoint(TurnAngle(s, SecondTurnStart(r, tr), r), r, tr),
       SecondTurnTangentAsWritten(TurnAngle(s, SecondTurnStart(r, tr), r), tr))
    else
      (SecondTurnPoint(TurnAngle(s, SecondTurnStart(r, tr), r), r, tr),
       SecondTurnTangent(TurnAngle(s, SecondTurnStart(r, tr), r), tr))
  }

  /** `getPathData` (RaceScene.tsx:17-45) with the second-turn tangent
      corrected; this is the version the camera uses. */
  function PathData(progress: real, lane: real, laneOffset: real, tr: Trig): (info: PathInfo)
    ensures info.lap == LapLength(LaneRadius(lane, laneOffset), tr)
    ensures info.s == LapPosition(progress, info.lap)
    ensures (info.position, info.tangent) == PointAt(info.s, LaneRadius(lane, laneOffset), tr, false)
    ensures info.position.y == 0.0 && info.tangent.y == 0.0
  {
    var r := LaneRadius(lane, laneOffset);
    var lap := LapLength(r, tr);
    var s := LapPosition(progress, lap);
    var pt := PointAt(s, r, tr, false);
    PathInfo(pt.0, pt.1, s, lap)
  }

  /** `getPathData` exactly as written, with the tangent of RaceScene.tsx:41. */
  function PathDataAsWritten(progress: real, lane: real, laneOffset: real, tr: Trig): (info: PathInfo)
    ensures info.position == PathData(progress, lane, laneOffset, tr).position
    ensures info.s == PathData(progress, lane, laneOffset, tr).s
    ensures info.tangent == PointAt(info.s, LaneRadius(lane, laneOffset), tr, true).1
    ensures SegmentOf(info.s, LaneRadius(lane, laneOffset), tr) != SecondTurn ==>
      info.tangent == PathData(progress, lane, laneOffset, tr).tangent
  {
    var r := LaneRadius(lane, laneOffset);
    var lap := LapLength(r, tr);
    var s := LapPosition(progress, lap);
    var pt := PointAt(s, r, tr, true);
    PathInfo(pt.0, pt.1, s, lap)
  }

  // ---------------------------------------------------------------------------
  // Properties of the geometry.
  // ---------------------------------------------------------------------------

  /** Outer lanes are longer: for a fixed offset the lap grows strictly with
      the lane. */
  lemma LapGrowsWithLane(lane1: real, lane2: real, laneOffset: real, tr: Trig)
    requires tr.pi > 0.0 && lane1 < lane2
    ensures LapLength(LaneRadius(lane1, laneOffset), tr) < LapLength(LaneRadius(lane2, laneOffset), tr)
  {
    var r1 := LaneRadius(lane1, laneOffset);
    var r2 := LaneRadius(lane2, laneOffset);
    assert r1 < r2;
    MulLess(r1, r2, 2.0 * tr.pi);
    assert 2.0 * tr.pi * r1 == r1 * (2.0 * tr.pi);
    assert 2.0 * tr.pi * r2 == r2 * (2.0 * tr.pi);
  }

  /** A runner on the track proper (lane in [0, 9], offset in [-0.4, 0.4])
      follows a radius of at least 61.32, so its lap is longer than two
      straights. */
  lemma TrackRadiusPositive(lane: real, laneOffset: real, tr: Trig)
    requires 0.0 <= lane <= 9.0 && -0.4 <= laneOffset <= 0.4 && tr.pi > 0.0
    ensures LaneRadius(lane, laneOffset) >= 61.32
    ensures LapLength(LaneRadius(lane, laneOffset), tr) > STRAIGHT_LEN * 2.0
  {
    var r := LaneRadius(lane, laneOffset);
    MulLess(0.0, r, tr.pi);
  }

  /** For progress >= 0 the lap position lies in [0, lap). */
  lemma LapPositionInRange(progress: real, lap: real)
    requires progress >= 0.0 && lap > 0.0
    ensures 0.0 <= LapPosition(progress, lap) < lap
  {
    assert progress * lap >= 0.0;
    JsRemRange(progress * lap * LAPS + STRAIGHT_LEN / 2.0, lap);
  }

  /** Half a race is one lap: progress p and p + 1/2 give the same lap
      position. */
  lemma LapPositionPeriodic(progress: real, lap: real)
    requires progress >= 0.0 && lap > 0.0
    ensures LapPosition(progress + 0.5, lap) == LapPosition(progress, lap)
  {
    var d := progress * lap;
    assert (progress + 0.5) * lap == d + 0.5 * lap;
    var a := d * LAPS + STRAIGHT_LEN / 2.0;
    assert (progress + 0.5) * lap * LAPS + STRAIGHT_LEN / 2.0 == a + lap;
    assert d >= 0.0 by {
      MulAtMost(0.0, progress, lap);
    }
    JsRemPeriodic(a, lap);
  }

  /** ... and so the same point and direction. */
  lemma HalfRaceIsOneLap(progress: real, lane: real, laneOffset: real, tr: Trig)
    requires progress >= 0.0
    requires LapLength(LaneRadius(lane, laneOffset), tr) > 0.0
    ensures PathData(progress + 0.5, lane, laneOffset, tr) == PathData(progress, lane, laneOffset, tr)
  {
    LapPositionPeriodic(progress, LapLength(LaneRadius(lane, laneOffset), tr));
  }

  /** The start and the finish are the same spot: progress 0 and progress 1
      both put the runner in the middle of the first straight, at x = 0, on
      its lane's radius, heading +x. */
  lemma StartAndFinishCoincide(lane: real, laneOffset: real, tr: Trig)
    requires LapLength(LaneRadius(lane, laneOffset), tr) > STRAIGHT_LEN / 2.0
    ensures PathData(0.0, lane, laneOffset, tr).position == Vec3(0.0, 0.0, LaneRadius(lane, laneOffset))
    ensures PathData(1.0, lane, laneOffset, tr).position == Vec3(0.0, 0.0, LaneRadius(lane, laneOffset))
    ensures PathData(0.0, lane, laneOffset, tr).tangent == Vec3(1.0, 0.0, 0.0)
    ensures PathData(1.0, lane, laneOffset, tr).tangent == Vec3(1.0, 0.0, 0.0)
    ensures PathData(1.0, lane, laneOffset, tr) == PathData(0.0, lane, laneOffset, tr)
  {
    var lap := LapLength(LaneRadius(lane, laneOffset), tr);
    JsRemSmall(STRAIGHT_LEN / 2.0, lap);
    assert 1.0 * lap * LAPS + STRAIGHT_LEN / 2.0 == (lap + STRAIGHT_LEN / 2.0) + lap;
    JsRemPeriodic(lap + STRAIGHT_LEN / 2.0, lap);
    JsRemPeriodic(STRAIGHT_LEN / 2.0, lap);
    HalfRaceIsOneLap(0.0, lane, laneOffset, tr);
    HalfRaceIsOneLap(0.5, lane, laneOffset, tr);
  }

  /** On the first straight the runner moves along +x at the lane's radius,
      and the straight spans x in [-60, 60). */
  lemma FirstStraightShape(s: real, r: real, tr: Trig)
    requires 0.0 <= s < STRAIGHT_LEN
    ensures SegmentOf(s, r, tr) == FirstStraight
    ensures PointAt(s, r, tr, false).0.z == r
    ensures -STRAIGHT_LEN / 2.0 <= PointAt(s, r, tr, false).0.x < STRAIGHT_LEN / 2.0
    ensures PointAt(s, r, tr, false).1 == Vec3(1.0, 0.0, 0.0)
  {
  }

  /** On the second straight the runner moves along -x at minus the lane's
      radius, over x in (-60, 60]. */
  lemma SecondStraightShape(s: real, r: real, tr: Trig)
    requires tr.pi * r >= 0.0
    requires STRAIGHT_LEN + tr.pi * r <= s < 2.0 * STRAIGHT_LEN + tr.pi * r
    ensures SegmentOf(s, r, tr) == SecondStraight
    ensures PointAt(s, r, tr, false).0.z == -r
    ensures -STRAIGHT_LEN / 2.0 < PointAt(s, r, tr, false).0.x <= STRAIGHT_LEN / 2.0
    ensures PointAt(s, r, tr, false).1 == Vec3(-1.0, 0.0, 0.0)
    ensures PointAt(s, r, tr, true) == PointAt(s, r, tr, false)
  {
  }

  /** What a trigonometry must satisfy at the ends of a half-turn. */
  predicate TurnEnds(tr: Trig)
  {
    tr.sin(0.0) == 0.0 && tr.cos(0.0) == 1.0 && tr.sin(tr.pi) == 0.0 && tr.cos(tr.pi) == -1.0
  }

  /** The lap is closed and continuous: each piece ends where the next one
      begins, in position and, with the corrected rule, in direction. */
  lemma PiecesJoin(r: real, tr: Trig)
    requires TurnEnds(tr) && r > 0.0
    ensures FirstStraightPoint(STRAIGHT_LEN, r) == FirstTurnPoint(0.0, r, tr)
    ensures FirstTurnPoint(tr.pi, r, tr) == SecondStraightPoint(STRAIGHT_LEN + tr.pi * r, r, tr)
    ensures SecondStraightPoint(2.0 * STRAIGHT_LEN + tr.pi * r, r, tr) == SecondTurnPoint(0.0, r, tr)
    ensures SecondTurnPoint(tr.pi, r, tr) == FirstStraightPoint(0.0, r)
    ensures FirstTurnTangent(0.0, tr) == Vec3(1.0, 0.0, 0.0)
    ensures FirstTurnTangent(tr.pi, tr) == Vec3(-1.0, 0.0, 0.0)
    ensures SecondTurnTangent(0.0, tr) == Vec3(-1.0, 0.0, 0.0)
    ensures SecondTurnTangent(tr.pi, tr) == Vec3(1.0, 0.0, 0.0)
    ensures TurnAngle(STRAIGHT_LEN + tr.pi * r, STRAIGHT_LEN, r) == tr.pi
  {
  }

  /** With sin^2 + cos^2 = 1 the corrected tangent is a unit vector. */
  lemma SecondTurnTangentIsUnit(theta: real, tr: Trig)
    requires tr.sin(theta) * tr.sin(theta) + tr.cos(theta) * tr.cos(theta) == 1.0
    ensures var v := SecondTurnTangent(theta, tr); v.x * v.x + v.y * v.y + v.z * v.z == 1.0
  {
  }

  /** The as-written tangent vanishes where the second turn begins: with
      sin 0 = 0 the lap position 2L + pi R gets the zero vector, where the
      second straight it leaves has direction (-1, 0, 0) and the corrected
      rule continues it. */
  lemma SecondTurnEntry(r: real, tr: Trig)
    requires TurnEnds(tr) && tr.pi > 0.0 && r > 0.0
    ensures PointAt(SecondTurnStart(r, tr), r, tr, true).1 == Vec3(0.0, 0.0, 0.0)
    ensures PointAt(SecondTurnStart(r, tr), r, tr, false).1 == Vec3(-1.0, 0.0, 0.0)
    ensures PointAt(SecondTurnStart(r, tr), r, tr, false).0 == SecondTurnPoint(0.0, r, tr)
  {
    var s0 := SecondTurnStart(r, tr);
    MulLess(0.0, r, tr.pi);
    assert SegmentOf(s0, r, tr) == SecondTurn;
    DivUnique(0.0, r, 0.0);
    assert TurnAngle(s0, s0, r) == 0.0;
  }

  /** The same through `getPathData`, for a runner whose lap position is the
      start of the second turn. */
  lemma AsWrittenTangentVanishesAt(progress: real, lane: real, laneOffset: real, tr: Trig)
    requires TurnEnds(tr) && tr.pi > 0.0 && LaneRadius(lane, laneOffset) > 0.0
    requires PathData(progress, lane, laneOffset, tr).s == SecondTurnStart(LaneRadius(lane, laneOffset), tr)
    ensures PathDataAsWritten(progress, lane, laneOffset, tr).tangent == Vec3(0.0, 0.0, 0.0)
    ensures PathData(progress, lane, laneOffset, tr).tangent == Vec3(-1.0, 0.0, 0.0)
  {
    SecondTurnEntry(LaneRadius(lane, laneOffset), tr);
  }

  /** The progress at which a runner of the given lane and offset enters
      the second turn on its first lap. */
  function SecondTurnEntryProgress(lane: real, laneOffset: real, tr: Trig): real
  {
    var r := LaneRadius(lane, laneOffset);
    if LapLength(r, tr) == 0.0 then 0.0
    else (SecondTurnStart(r, tr) - STRAIGHT_LEN / 2.0) / (LapLength(r, tr) * LAPS)
  }

  /** A concrete input on which the source's tangent is wrong: every runner
      of positive radius, at the progress where it enters the second turn,
      gets the zero vector. */
  lemma AsWrittenTangentVanishes(lane: real, laneOffset: real, tr: Trig)
    requires TurnEnds(tr) && tr.pi > 0.0 && LaneRadius(lane, laneOffset) > 0.0
    ensures PathDataAsWritten(SecondTurnEntryProgress(lane, laneOffset, tr), lane, laneOffset, tr).tangent
              == Vec3(0.0, 0.0, 0.0)
    ensures PathData(SecondTurnEntryProgress(lane, laneOffset, tr), lane, laneOffset, tr).tangent
              == Vec3(-1.0, 0.0, 0.0)
  {
    var r := LaneRadius(lane, laneOffset);
    var lap := LapLength(r, tr);
    var s0 := SecondTurnStart(r, tr);
    assert tr.pi * r > 0.0 by {
      MulLess(0.0, r, tr.pi);
    }
    assert lap == 2.0 * STRAIGHT_LEN + 2.0 * (tr.pi * r);
    ProgressForLapPosition(s0, lap);
    AsWrittenTangentVanishesAt(SecondTurnEntryProgress(lane, laneOffset, tr), lane, laneOffset, tr);
  }

  /** The progress that lands at lap position s0 on the first lap. */
  lemma ProgressForLapPosition(s0: real, lap: real)
    requires STRAIGHT_LEN / 2.0 <= s0 < lap
    ensures LapPosition((s0 - STRAIGHT_LEN / 2.0) / (lap * LAPS), lap) == s0
  {
    var p := (s0 - STRAIGHT_LEN / 2.0) / (lap * LAPS);
    assert p * (lap * LAPS) == s0 - STRAIGHT_LEN / 2.0;
    assert p * lap * LAPS == p * (lap * LAPS);
    JsRemSmall(s0, lap);
  }
}
