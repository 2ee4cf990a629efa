/** The per-frame director of components/RaceScene.tsx: which runner the
    camera follows, which shot it takes, which sprite set each runner shows,
    and the smoothing that moves figures and camera toward their targets.
    Scene objects are reduced to the values the frame reads and writes:
    a position and a sprite per runner figure, and the camera's position and
    look-at point. */
module CameraDirector {
  import opened RaceTypes
  import opened TrackPath

  // ---------------------------------------------------------------------------
  // Smoothing: THREE.Vector3.lerp.
  // ---------------------------------------------------------------------------

  /** `a.lerp(b, alpha)`: each coordinate moves the fraction alpha of the way
      to b. */
  function Lerp(a: Vec3, b: Vec3, alpha: real): Vec3
  {
    Vec3(Glide(a.x, b.x, alpha), Glide(a.y, b.y, alpha), Glide(a.z, b.z, alpha))
  }

  /** A convex step: every coordinate of the result lies between the old
      value and the target, and the gap to the target shrinks by the factor
      1 - alpha. */
  lemma LerpIsConvex(a: Vec3, b: Vec3, alpha: real)
    requires 0.0 <= alpha <= 1.0
    ensures Between(a.x, Lerp(a, b, alpha).x, b.x)
    ensures Between(a.y, Lerp(a, b, alpha).y, b.y)
    ensures Between(a.z, Lerp(a, b, alpha).z, b.z)
    ensures Lerp(a, b, alpha).x - b.x == (1.0 - alpha) * (a.x - b.x)
    ensures Lerp(a, b, alpha).y - b.y == (1.0 - alpha) * (a.y - b.y)
    ensures Lerp(a, b, alpha).z - b.z == (1.0 - alpha) * (a.z - b.z)
  {
    GlideBetween(a.x, b.x, alpha);
    GlideBetween(a.y, b.y, alpha);
    GlideBetween(a.z, b.z, alpha);
  }

  /** n frames of smoothing toward a fixed target. */
  function Approach(a: Vec3, b: Vec3, alpha: real, n: nat): Vec3
  {
    if n == 0 then a else Lerp(Approach(a, b, alpha, n - 1), b, alpha)
  }

  /** One coordinate of Approach. */
  function ApproachCoordinate(x: real, b: real, alpha: real, n: nat): real
  {
    if n == 0 then x else
      Glide(ApproachCoordinate(x, b, alpha, n - 1), b, alpha)
  }

  lemma {:induction false} ApproachByCoordinate(a: Vec3, b: Vec3, alpha: real, n: nat)
    ensures Approach(a, b, alpha, n) ==
      Vec3(ApproachCoordinate(a.x, b.x, alpha, n), ApproachCoordinate(a.y, b.y, alpha, n),
           ApproachCoordinate(a.z, b.z, alpha, n))
  {
    if n > 0 {
      var prev := Approach(a, b, alpha, n - 1);
      ApproachByCoordinate(a, b, alpha, n - 1);
      assert Approach(a, b, alpha, n) == Lerp(prev, b, alpha);
    }
  }

  function Pow(x: real, n: nat): real
  {
    if n == 0 then 1.0 else x * Pow(x, n - 1)
  }

  lemma {:induction false} PowUnit(x: real, n: nat)
    requires 0.0 <= x <= 1.0
    ensures 0.0 <= Pow(x, n) <= 1.0
  {
    if n > 0 {
      PowUnit(x, n - 1);
      MulNonneg(x, Pow(x, n - 1));
      MulNonneg(1.0 - x, Pow(x, n - 1));
    }
  }

  /** One more frame: a gap p * d becomes (1 - alpha) * p * d. */
  lemma CoordinateGap(x: real, b: real, alpha: real, p: real, d: real)
    requires x - b == p * d
    ensures x + (b - x) * alpha - b == ((1.0 - alpha) * p) * d
  {
    calc {
      x + (b - x) * alpha - b;
      (x - b) * (1.0 - alpha);
      (p * d) * (1.0 - alpha);
      ((1.0 - alpha) * p) * d;
    }
  }

  lemma {:induction false} ApproachCoordinateGap(x: real, b: real, alpha: real, n: nat)
    ensures ApproachCoordinate(x, b, alpha, n) - b == Pow(1.0 - alpha, n) * (x - b)
  {
    if n > 0 {
      var prev := ApproachCoordinate(x, b, alpha, n - 1);
      var p := Pow(1.0 - alpha, n - 1);
      var d := x - b;
      assert ApproachCoordinate(x, b, alpha, n) == Glide(prev, b, alpha);
      assert Pow(1.0 - alpha, n) == (1.0 - alpha) * p;
      ApproachCoordinateGap(x, b, alpha, n - 1);
      assert prev - b == p * d;
      CoordinateGap(prev, b, alpha, p, d);
    }
  }

  /** After n frames toward a fixed target the gap is (1 - alpha)^n times the
      starting gap in every coordinate, so it never grows: the camera glides
      and never cuts. */
  lemma ApproachGap(a: Vec3, b: Vec3, alpha: real, n: nat)
    requires 0.0 <= alpha <= 1.0
    ensures Approach(a, b, alpha, n).x - b.x == Pow(1.0 - alpha, n) * (a.x - b.x)
    ensures Approach(a, b, alpha, n).y - b.y == Pow(1.0 - alpha, n) * (a.y - b.y)
    ensures Approach(a, b, alpha, n).z - b.z == Pow(1.0 - alpha, n) * (a.z - b.z)
  {
    ApproachByCoordinate(a, b, alpha, n);
    var c := Approach(a, b, alpha, n);
    ApproachCoordinateGap(a.x, b.x, alpha, n);
    ApproachCoordinateGap(a.y, b.y, alpha, n);
    ApproachCoordinateGap(a.z, b.z, alpha, n);
    assert c.x == ApproachCoordinate(a.x, b.x, alpha, n);
    assert c.y == ApproachCoordinate(a.y, b.y, alpha, n);
    assert c.z == ApproachCoordinate(a.z, b.z, alpha, n);
  }

  // ---------------------------------------------------------------------------
  // Whom to follow.
  // ---------------------------------------------------------------------------

  /** Position of the first runner not at rest, if any. */
  function FirstAwake(s: seq<Runner>): (k: Option<nat>)
    ensures k.Some? ==> k.value < |s| && !s[k.value].isResting &&
                        forall j :: 0 <= j < k.value ==> s[j].isResting
    ensures k.None? ==> forall j :: 0 <= j < |s| ==> s[j].isResting
  {
    if s == [] then None
    else if !s[0].isResting then Some(0)
    else match FirstAwake(s[1..])
      case None => None
      case Some(k) => Some(k + 1)
  }

  /** The first runner of s not at rest, if any. */
  function FirstMover(s: seq<Runner>): (m: Option<Runner>)
    ensures m.Some? ==> m.value in s && !m.value.isResting
    ensures m.None? <==> forall j :: 0 <= j < |s| ==> s[j].isResting
  {
    if s == [] then None
    else if !s[0].isResting then Some(s[0])
    else FirstMover(s[1..])
  }

  /** `FirstAwake` finds the position of `FirstMover`. */
  lemma {:induction false} FirstAwakeFindsMover(s: seq<Runner>)
    ensures FirstMover(s) == match FirstAwake(s) case Some(k) => Some(s[k]) case None => None
  {
    if s != [] && s[0].isResting {
      FirstAwakeFindsMover(s[1..]);
    }
  }

  /** Index i holds a moving runner with the greatest progress among the
      moving ones, and no earlier moving runner ties it. */
  predicate FirstAheadMoving(s: seq<Runner>, i: int)
  {
    && 0 <= i < |s| && !s[i].isResting
    && (forall j :: 0 <= j < |s| && !s[j].isResting ==> s[j].progress <= s[i].progress)
    && (forall j :: 0 <= j < i && !s[j].isResting ==> s[j].progress < s[i].progress)
  }

  /** Inserting a runner into a field sorted by descending progress: a
      resting runner leaves the first mover as it was; a moving one becomes
      the first mover unless an earlier mover is strictly ahead of it. */
  lemma {:induction false} InsertFirstMover(x: Runner, t: seq<Runner>)
    requires SortedBy(t, DescendingProgress())
    ensures FirstMover(InsertBy(x, t, DescendingProgress())) ==
      if x.isResting then FirstMover(t)
      else if FirstMover(t).None? || x.progress >= FirstMover(t).value.progress then Some(x)
      else FirstMover(t)
    decreases |t|
  {
    var key := DescendingProgress();
    if t == [] || key(x) <= key(t[0]) {
      assert InsertBy(x, t, key) == [x] + t;
      assert ([x] + t)[1..] == t;
      if t != [] && FirstMover(t).Some? {
        var m := FirstMover(t).value;
        var k :| 0 <= k < |t| && t[k] == m;
        if k > 0 {
          assert key(t[0]) <= key(t[k]);
        }
      }
    } else {
      InsertFirstMover(x, t[1..]);
      var r := InsertBy(x, t[1..], key);
      assert InsertBy(x, t, key) == [t[0]] + r;
      assert ([t[0]] + r)[1..] == r;
      if t[0].isResting {
        assert FirstMover(t) == FirstMover(t[1..]);
      }
    }
  }

  /** Extends a first mover of s[1..] to one of s. */
  lemma FirstAheadMovingCons(s: seq<Runner>, j: int)
    requires s != [] && FirstAheadMoving(s[1..], j)
    ensures s[0].isResting ==> FirstAheadMoving(s, j + 1)
    ensures !s[0].isResting && s[0].progress >= s[j + 1].progress ==> FirstAheadMoving(s, 0)
    ensures !s[0].isResting && s[0].progress < s[j + 1].progress ==> FirstAheadMoving(s, j + 1)
  {
    assert forall m :: 0 < m < |s| ==> s[m] == s[1..][m - 1];
  }

  /** What the sorted field's first mover says about the field: none when
      every runner rests, otherwise the first runner in array order with the
      greatest progress among the moving ones. */
  predicate MoverOf(s: seq<Runner>, m: Option<Runner>)
  {
    && (m.None? <==> forall j :: 0 <= j < |s| ==> s[j].isResting)
    && (m.Some? ==> exists i :: 0 <= i < |s| && FirstAheadMoving(s, i) && m == Some(s[i]))
  }

  /** One insertion step of the sort keeps `MoverOf`. */
  lemma FirstMoverStep(s: seq<Runner>, rest: seq<Runner>)
    requires s != [] && SortedBy(rest, DescendingProgress())
    requires MoverOf(s[1..], FirstMover(rest))
    ensures MoverOf(s, FirstMover(InsertBy(s[0], rest, DescendingProgress())))
  {
    var sorted := InsertBy(s[0], rest, DescendingProgress());
    InsertFirstMover(s[0], rest);
    if FirstMover(rest).None? {
      assert forall m :: 0 < m < |s| ==> s[m] == s[1..][m - 1];
      if !s[0].isResting {
        assert FirstAheadMoving(s, 0) && FirstMover(sorted) == Some(s[0]);
      }
    } else {
      var j :| FirstAheadMoving(s[1..], j) && FirstMover(rest) == Some(s[1..][j]);
      FirstAheadMovingCons(s, j);
      if !s[0].isResting && s[0].progress >= s[j + 1].progress {
        assert FirstMover(sorted) == Some(s[0]);
      } else {
        assert FirstMover(sorted) == Some(s[j + 1]);
      }
    }
  }

  /** The sort is stable among the moving runners: the first mover of the
      sorted field is the first runner in array order with the greatest
      progress among the moving ones. */
  lemma {:induction false} SortedFirstMover(s: seq<Runner>)
    ensures MoverOf(s, FirstMover(SortBy(s, DescendingProgress())))
    decreases |s|
  {
    if s != [] {
      var rest := SortBy(s[1..], DescendingProgress());
      assert SortBy(s, DescendingProgress()) == InsertBy(s[0], rest, DescendingProgress());
      SortedFirstMover(s[1..]);
      FirstMoverStep(s, rest);
    }
  }

  /** The camera target of RaceScene.tsx:164-169: the leader of the
      descending-progress order, unless it rests; then the first runner of
      that order still moving, or the last one if every runner rests. */
  function CameraTarget(rs: seq<Runner>): (target: Option<Runner>)
    ensures target.None? <==> rs == []
  {
    if rs == [] then None
    else
      var sorted := SortBy(rs, DescendingProgress());
      var leader := sorted[0];
      var lastToRest := match FirstAwake(sorted)
        case Some(k) => sorted[k]
        case None => sorted[|sorted| - 1];
      Some(if leader.isResting then lastToRest else leader)
  }

  /** In a field sorted by descending progress, the first moving runner is
      ahead of every other moving runner. */
  lemma FirstAwakeIsAhead(sorted: seq<Runner>, k: nat)
    requires SortedBy(sorted, DescendingProgress())
    requires FirstAwake(sorted) == Some(k)
    ensures forall m :: 0 <= m < |sorted| && !sorted[m].isResting ==> sorted[m].progress <= sorted[k].progress
  {
    forall m | 0 <= m < |sorted| && !sorted[m].isResting
      ensures sorted[m].progress <= sorted[k].progress
    {
      assert k <= m;
      if k < m {
        assert DescendingProgress()(sorted[k]) <= DescendingProgress()(sorted[m]);
      }
    }
  }

  /** In a field sorted by descending progress, the last runner is behind
      everyone. */
  lemma LastIsBehind(sorted: seq<Runner>)
    requires sorted != [] && SortedBy(sorted, DescendingProgress())
    ensures forall m :: 0 <= m < |sorted| ==> sorted[|sorted| - 1].progress <= sorted[m].progress
  {
    forall m | 0 <= m < |sorted|
      ensures sorted[|sorted| - 1].progress <= sorted[m].progress
    {
      if m < |sorted| - 1 {
        assert DescendingProgress()(sorted[m]) <= DescendingProgress()(sorted[|sorted| - 1]);
      }
    }
  }

  /** Every runner of the field has a place in its sorted copy. */
  lemma PlaceInSorted(rs: seq<Runner>, i: nat) returns (m: nat)
    requires i < |rs|
    ensures m < |rs| && SortBy(rs, DescendingProgress())[m] == rs[i]
  {
    var sorted := SortBy(rs, DescendingProgress());
    assert rs[i] in multiset(sorted);
    m :| 0 <= m < |sorted| && sorted[m] == rs[i];
  }

  /** Who the camera follows. It is a runner of the field. While anyone is
      still moving, it is a moving runner with the greatest progress among
      the moving ones, the first such in array order, and it is the leader
      whenever the leader moves. When everyone rests, it is a runner with
      the least progress, the last such in array order. */
  lemma CameraTargetChoice(rs: seq<Runner>)
    requires rs != []
    ensures CameraTarget(rs).value in rs
    ensures !Leader(rs).value.isResting ==> CameraTarget(rs) == Leader(rs)
    ensures (exists i :: 0 <= i < |rs| && !rs[i].isResting) ==>
      !CameraTarget(rs).value.isResting &&
      forall i :: 0 <= i < |rs| && !rs[i].isResting ==> rs[i].progress <= CameraTarget(rs).value.progress
    ensures (forall i :: 0 <= i < |rs| ==> rs[i].isResting) ==>
      forall i :: 0 <= i < |rs| ==> CameraTarget(rs).value.progress <= rs[i].progress
    ensures (exists i :: 0 <= i < |rs| && !rs[i].isResting) ==>
      exists i :: FirstAheadMoving(rs, i) && CameraTarget(rs) == Some(rs[i])
    ensures (forall i :: 0 <= i < |rs| ==> rs[i].isResting) ==>
      exists i :: LastMaximum(rs, DescendingProgress(), i) && CameraTarget(rs) == Some(rs[i])
  {
    var sorted := SortBy(rs, DescendingProgress());
    var t := CameraTarget(rs).value;
    assert t in multiset(sorted);
    match FirstAwake(sorted)
    case Some(k) =>
      assert t == sorted[k];
      FirstAwakeFindsMover(sorted);
      SortedFirstMover(rs);
      FirstAwakeIsAhead(sorted, k);
      forall i | 0 <= i < |rs| && !rs[i].isResting
        ensures rs[i].progress <= t.progress
      {
        var m := PlaceInSorted(rs, i);
      }
    case None =>
      assert t == sorted[|sorted| - 1];
      LastIsBehind(sorted);
      SortTailIsLastMaximum(rs, DescendingProgress());
      assert LastMaximum(rs, DescendingProgress(), LastMaxIndex(rs, DescendingProgress()));
      forall i | 0 <= i < |rs|
        ensures t.progress <= rs[i].progress
      {
        var m := PlaceInSorted(rs, i);
      }
      forall i | 0 <= i < |rs|
        ensures rs[i].isResting
      {
        var m := PlaceInSorted(rs, i);
      }
  }

  const FINISH_CAM_PROGRESS: real := 0.90
  const START_SHOT_PROGRESS: real := 0.03
  const FRONT_SPRITE_PROGRESS: real := 0.80

  /** The finish cam (RaceScene.tsx:172). */
  predicate FinishCam(target: Runner)
  {
    target.progress >= FINISH_CAM_PROGRESS && !target.isResting
  }

  // ---------------------------------------------------------------------------
  // The shot.
  // ---------------------------------------------------------------------------

  datatype Shot = StartShot | FinishShot | PursuitShot

  /** A camera position and the point it looks at. */
  datatype Pose = Pose(position: Vec3, lookAt: Vec3)

  function ShotFor(target: Runner): (shot: Shot)
    ensures shot == StartShot <==> target.progress < START_SHOT_PROGRESS
    ensures shot == FinishShot <==> target.progress >= FINISH_CAM_PROGRESS && !target.isResting
    ensures shot == PursuitShot <==>
      START_SHOT_PROGRESS <= target.progress && (target.progress < FINISH_CAM_PROGRESS || target.isResting)
  {
    if target.progress < START_SHOT_PROGRESS then StartShot
    else if FinishCam(target) then FinishShot
    else PursuitShot
  }

  const CAM_DIST: real := 70.0
  const CAM_HEIGHT: real := 40.0
  const LOOK_HEIGHT: real := 15.0

  /** The target pose of RaceScene.tsx:212-224, from the target runner, the
      smoothed position of its figure and its path tangent. The start shot
      stands 50 back and 100 out from the figure at height 30, looking 80 on
      and 110 in, down to height 15. The finish shot is fixed at
      (40, 25, 170) on the centre of the finish line (0, 10, 90), whatever
      the figure and tangent. The pursuit shot looks 15 above the figure from
      70 back along the tangent and 25 higher; with a level unit tangent it
      stands 70 away across the ground. */
  function TargetPose(target: Runner, figure: Vec3, tangent: Vec3): (p: Pose)
    ensures ShotFor(target) == StartShot ==>
      p.position.x == figure.x - 50.0 && p.position.y == 30.0 && p.position.z == figure.z + 100.0 &&
      p.lookAt.x - p.position.x == 80.0 && p.position.z - p.lookAt.z == 110.0 && p.lookAt.y == 15.0
    ensures ShotFor(target) == FinishShot ==>
      p == Pose(Vec3(40.0, 25.0, 170.0), Vec3(0.0, 10.0, 90.0))
    ensures ShotFor(target) == PursuitShot ==>
      p.lookAt == Vec3(figure.x, figure.y + LOOK_HEIGHT, figure.z) &&
      p.position.x - p.lookAt.x == -CAM_DIST * tangent.x &&
      p.position.y - p.lookAt.y == CAM_HEIGHT - LOOK_HEIGHT - CAM_DIST * tangent.y &&
      p.position.z - p.lookAt.z == -CAM_DIST * tangent.z
    ensures ShotFor(target) == PursuitShot && tangent.y == 0.0 &&
            tangent.x * tangent.x + tangent.z * tangent.z == 1.0 ==>
      (p.position.x - p.lookAt.x) * (p.position.x - p.lookAt.x) +
      (p.position.z - p.lookAt.z) * (p.position.z - p.lookAt.z) == CAM_DIST * CAM_DIST
  {
    match ShotFor(target)
    case StartShot =>
      Pose(Vec3(figure.x - 50.0, 30.0, figure.z + 100.0), Vec3(figure.x + 30.0, 15.0, figure.z - 10.0))
    case FinishShot =>
      Pose(Vec3(40.0, 25.0, FinishLineZ() + 80.0), Vec3(0.0, 10.0, FinishLineZ()))
    case PursuitShot =>
      Pose(Vec3(figure.x - tangent.x * CAM_DIST, figure.y - tangent.y * CAM_DIST + CAM_HEIGHT,
                figure.z - tangent.z * CAM_DIST),
           Vec3(figure.x, figure.y + LOOK_HEIGHT, figure.z))
  }

  /** How the pursuit shot follows the tangent it is given. On the first
      straight, heading +x, it stands 70 behind in x and 40 up. Where the
      tangent is the zero vector, as the source's second-turn rule gives at
      the turn's entry, it stands 40 straight above the figure. Given the
      source's tangent instead of the corrected one, the camera moves by 70
      times the difference of the two tangents and looks at the same point;
      the tangents differ only on the second turn. */
  lemma PursuitFollowsTangent(target: Runner, figure: Vec3, progress: real, lane: real, laneOffset: real, tr: Trig)
    requires ShotFor(target) == PursuitShot
    ensures TargetPose(target, figure, Vec3(1.0, 0.0, 0.0)).position ==
      Vec3(figure.x - CAM_DIST, figure.y + CAM_HEIGHT, figure.z)
    ensures TargetPose(target, figure, Vec3(0.0, 0.0, 0.0)).position ==
      Vec3(figure.x, figure.y + CAM_HEIGHT, figure.z)
    ensures var fixed := PathData(progress, lane, laneOffset, tr).tangent;
            var written := PathDataAsWritten(progress, lane, laneOffset, tr).tangent;
            var a := TargetPose(target, figure, written);
            var b := TargetPose(target, figure, fixed);
            && a.lookAt == b.lookAt
            && a.position.x - b.position.x == CAM_DIST * (fixed.x - written.x)
            && a.position.z - b.position.z == CAM_DIST * (fixed.z - written.z)
            && a.position.y == b.position.y
            && (SegmentOf(PathData(progress, lane, laneOffset, tr).s, LaneRadius(lane, laneOffset), tr) != SecondTurn ==>
                  a == b)
  {
  }

  // ---------------------------------------------------------------------------
  // Sprites.
  // ---------------------------------------------------------------------------

  /** The four texture sets of a runner figure. */
  datatype SpriteSet = RestingSet | SideSet | FrontSet | BackSet

  /** The texture set shown and the height the sprite stands at. */
  datatype Sprite = Sprite(textures: SpriteSet, height: real)

  const RESTING_HEIGHT: real := 5.8
  const RUNNING_HEIGHT: real := 7.2

  /** RaceScene.tsx:181-201. */
  function SpriteFor(r: Runner, finishCam: bool): (sp: Sprite)
    ensures sp.textures == RestingSet <==> r.isResting
    ensures sp.height == if r.isResting then RESTING_HEIGHT else RUNNING_HEIGHT
    ensures sp.textures == SideSet <==>
      !r.isResting && (r.progress < START_SHOT_PROGRESS || r.progress >= FINISH_CAM_PROGRESS)
    ensures sp.textures == FrontSet <==>
      !r.isResting && finishCam && FRONT_SPRITE_PROGRESS <= r.progress < FINISH_CAM_PROGRESS
  {
    if r.isResting then Sprite(RestingSet, RESTING_HEIGHT)
    else if r.progress < START_SHOT_PROGRESS then Sprite(SideSet, RUNNING_HEIGHT)
    else if r.progress >= FINISH_CAM_PROGRESS then Sprite(SideSet, RUNNING_HEIGHT)
    else if finishCam && r.progress >= FRONT_SPRITE_PROGRESS then Sprite(FrontSet, RUNNING_HEIGHT)
    else Sprite(BackSet, RUNNING_HEIGHT)
  }

  /** Runners face the camera only during the finish shot, and the runner the
      finish shot follows is itself seen from the side. */
  lemma FrontOnlyUnderFinishCam(rs: seq<Runner>, i: nat)
    requires i < |rs|
    ensures SpriteFor(rs[i], rs != [] && FinishCam(CameraTarget(rs).value)).textures == FrontSet ==>
      FinishCam(CameraTarget(rs).value)
    ensures rs != [] && FinishCam(CameraTarget(rs).value) ==>
      SpriteFor(CameraTarget(rs).value, true).textures == SideSet
  {
  }

  // ---------------------------------------------------------------------------
  // The frame.
  // ---------------------------------------------------------------------------

  /** A runner's figure in the scene: its group's position and its sprite. */
  datatype Figure = Figure(position: Vec3, sprite: Sprite)

  const FIGURE_BLEND: real := 0.25
  const POSITION_BLEND: real := 0.04
  const LOOK_BLEND: real := 0.06
  const IDLE_BLEND: real := 0.02

  /** The idle shot of RaceScene.tsx:232-234: from (-180, 50, 240) it looks
      at (-60, 10, 90), a point on the finish line's z, from 150 further out. */
  function IdlePose(): (p: Pose)
    ensures p.lookAt.z == FinishLineZ() && p.position.z - p.lookAt.z == 150.0
    ensures p == Pose(Vec3(-180.0, 50.0, 240.0), Vec3(-60.0, 10.0, 90.0))
  {
    Pose(Vec3(-180.0, 50.0, FinishLineZ() + 150.0), Vec3(-60.0, 10.0, FinishLineZ()))
  }

  /** One figure's update (RaceScene.tsx:178-201): it takes the sprite its
      runner calls for, and its position glides toward the runner's path
      position, staying between the two and closing a quarter of the gap. */
  function MovedFigure(f: Figure, r: Runner, finishCam: bool, tr: Trig): (g: Figure)
    ensures g.sprite == SpriteFor(r, finishCam)
    ensures var target := PathData(r.progress, r.lane, r.laneOffset, tr).position;
            && Between(f.position.x, g.position.x, target.x)
            && Between(f.position.y, g.position.y, target.y)
            && Between(f.position.z, g.position.z, target.z)
            && g.position.x - target.x == 0.75 * (f.position.x - target.x)
            && g.position.y - target.y == 0.75 * (f.position.y - target.y)
            && g.position.z - target.z == 0.75 * (f.position.z - target.z)
  {
    var target := PathData(r.progress, r.lane, r.laneOffset, tr).position;
    LerpIsConvex(f.position, target, FIGURE_BLEND);
    Figure(Lerp(f.position, target, FIGURE_BLEND), SpriteFor(r, finishCam))
  }

  /** The forEach of RaceScene.tsx:174-204 over the runners, in order; a
      runner without a figure is skipped. */
  function MoveFigures(figures: map<int, Figure>, rs: seq<Runner>, finishCam: bool, tr: Trig): (out: map<int, Figure>)
    ensures out.Keys == figures.Keys
  {
    if rs == [] then figures
    else
      var n := |rs| - 1;
      var prev := MoveFigures(figures, rs[..n], finishCam, tr);
      if rs[n].id in prev then prev[rs[n].id := MovedFigure(prev[rs[n].id], rs[n], finishCam, tr)]
      else prev
  }

  /** The figure of a runner that is not in the field does not move. */
  lemma {:induction false} UntouchedFigureStays(figures: map<int, Figure>, rs: seq<Runner>, finishCam: bool, tr: Trig, id: int)
    requires id in figures
    requires forall i :: 0 <= i < |rs| ==> rs[i].id != id
    ensures MoveFigures(figures, rs, finishCam, tr)[id] == figures[id]
  {
    if rs != [] {
      var n := |rs| - 1;
      assert forall i :: 0 <= i < n ==> rs[..n][i] == rs[i];
      UntouchedFigureStays(figures, rs[..n], finishCam, tr, id);
    }
  }

  /** With distinct ids, each runner's figure takes exactly one glide step
      from where it stood toward the runner's path position, and shows the
      runner's sprite. */
  lemma {:induction false} EachFigureMovesOnce(figures: map<int, Figure>, rs: seq<Runner>, finishCam: bool, tr: Trig, i: nat)
    requires DistinctIds(rs) && i < |rs| && rs[i].id in figures
    ensures MoveFigures(figures, rs, finishCam, tr)[rs[i].id] == MovedFigure(figures[rs[i].id], rs[i], finishCam, tr)
  {
    var n := |rs| - 1;
    assert forall k :: 0 <= k < n ==> rs[..n][k] == rs[k];
    if i == n {
      UntouchedFigureStays(figures, rs[..n], finishCam, tr, rs[n].id);
    } else {
      assert DistinctIds(rs[..n]);
      EachFigureMovesOnce(figures, rs[..n], finishCam, tr, i);
      assert rs[n].id != rs[i].id;
    }
  }

  /** The forEach over the runners, as the frame runs it. */
  method MoveAll(figures: map<int, Figure>, rs: seq<Runner>, finishCam: bool, tr: Trig) returns (moved: map<int, Figure>)
    ensures moved == MoveFigures(figures, rs, finishCam, tr)
  {
    moved := figures;
    var i := 0;
    while i < |rs|
      invariant 0 <= i <= |rs|
      invariant moved == MoveFigures(figures, rs[..i], finishCam, tr)
    {
      assert rs[..i + 1][..i] == rs[..i];
      var r := rs[i];
      if r.id in moved {
        moved := moved[r.id := MovedFigure(moved[r.id], r, finishCam, tr)];
      }
      i := i + 1;
    }
    assert rs[..i] == rs;
  }

  /** The scene's per-frame state: the camera pose refs and the figures,
      keyed by runner id. */
  class Director {
    var camPos: Vec3
    var lookAt: Vec3
    var figures: map<int, Figure>

    /** Mounting the scene (RaceScene.tsx:52-53, 135-152): the camera starts
        at (0, 100, 300) looking at the origin, and every runner gets a
        figure at the origin showing a running side frame. */
    constructor (rs: seq<Runner>)
      ensures camPos == Vec3(0.0, 100.0, 300.0) && lookAt == Vec3(0.0, 0.0, 0.0)
      ensures figures.Keys == set i | 0 <= i < |rs| :: rs[i].id
      ensures forall id :: id in figures ==> figures[id] == Figure(Vec3(0.0, 0.0, 0.0), Sprite(SideSet, RUNNING_HEIGHT))
    {
      camPos := Vec3(0.0, 100.0, 300.0);
      lookAt := Vec3(0.0, 0.0, 0.0);
      figures := map i | 0 <= i < |rs| :: rs[i].id := Figure(Vec3(0.0, 0.0, 0.0), Sprite(SideSet, RUNNING_HEIGHT));
    }

    /** One animation frame (RaceScene.tsx:157-239). While racing or
        finished, every figure glides toward its runner and the camera glides
        toward the target's shot; an empty field skips the frame. Otherwise
        the camera drifts toward the idle shot. The source dereferences the
        target's figure unchecked, so the target must have one. */
    method Frame(status: RaceStatus, rs: seq<Runner>, tr: Trig)
      requires (status == Racing || status == Finished) && rs != [] ==> CameraTarget(rs).value.id in figures
      modifies this
      ensures figures.Keys == old(figures).Keys
      ensures (status == Racing || status == Finished) && rs == [] ==> unchanged(this)
      ensures (status == Racing || status == Finished) && rs != [] ==>
        var target := CameraTarget(rs).value;
        var fc := FinishCam(target);
        var pose := TargetPose(target, figures[target.id].position,
                               PathData(target.progress, target.lane, target.laneOffset, tr).tangent);
        && figures == MoveFigures(old(figures), rs, fc, tr)
        && camPos == Lerp(old(camPos), pose.position, POSITION_BLEND)
        && lookAt == Lerp(old(lookAt), pose.lookAt, LOOK_BLEND)
      ensures status != Racing && status != Finished ==>
        figures == old(figures) &&
        camPos == Lerp(old(camPos), IdlePose().position, IDLE_BLEND) &&
        lookAt == Lerp(old(lookAt), IdlePose().lookAt, IDLE_BLEND)
    {
      if status == Racing || status == Finished {
        if rs == [] {
          return;
        }
        var target := CameraTarget(rs).value;
        var fc := FinishCam(target);
        var moved := MoveAll(figures, rs, fc, tr);
        var info := PathData(target.progress, target.lane, target.laneOffset, tr);
        var pose := TargetPose(target, moved[target.id].position, info.tangent);
        figures := moved;
        camPos := Lerp(camPos, pose.position, POSITION_BLEND);
        lookAt := Lerp(lookAt, pose.lookAt, LOOK_BLEND);
      } else {
        camPos := Lerp(camPos, IdlePose().position, IDLE_BLEND);
        lookAt := Lerp(lookAt, IdlePose().lookAt, IDLE_BLEND);
      }
    }
  }
}
