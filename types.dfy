/** The runner record and race status shared by the race engine, the camera
    director and the commentary (types.ts), plus the ordering helper that the
    three of them use to rank runners. */
module RaceTypes {

  datatype Option<T> = None | Some(value: T)

  /** RaceStatus (types.ts:19-24). Preparing is declared but never entered. */
  datatype RaceStatus = Idle | Preparing | Racing | Finished

  /** One competitor (types.ts:2-17). The optional fields of the source are
      Options; `isResting?` is a plain bool because an absent value reads as
      false and every constructor of a runner sets it. */
  datatype Runner = Runner(
    id: int,
    color: string,
    progress: real,
    lane: real,
    laneOffset: real,
    speed: real,
    baseSpeed: real,
    finished: bool,
    finishTime: Option<real>,
    rank: Option<int>,
    bobOffset: real,
    isResting: bool,
    stopProgress: Option<real>,
    boosterEndTime: Option<real>)

  /** JavaScript's `v || d` on an optional number: both an absent value and 0
      are falsy and give the default. */
  function OrDefault(v: Option<real>, d: real): (r: real)
    ensures r == d || (v.Some? && r == v.value && r != 0.0)
    ensures v.Some? && v.value != 0.0 ==> r == v.value
  {
    if v.Some? && v.value != 0.0 then v.value else d
  }

  /** The product of two non-negative reals is non-negative. */
  lemma MulNonneg(a: real, b: real)
    requires a >= 0.0 && b >= 0.0
    ensures a * b >= 0.0
  {
  }

  // ---------------------------------------------------------------------------
  // Exponential smoothing, as both the tick (lane and offset) and the scene
  // (THREE.Vector3.lerp) use it.
  // ---------------------------------------------------------------------------

  /** One smoothing step: v moves the fraction alpha of the way to b. The
      source writes it as `v * (1 - alpha) + b * alpha` or as a lerp. */
  function Glide(v: real, b: real, alpha: real): real
  {
    v + (b - v) * alpha
  }

  predicate Between(lo: real, v: real, hi: real)
  {
    (lo <= v <= hi) || (hi <= v <= lo)
  }

  /** A step with a weight in [0, 1] never overshoots: it lands between the
      old value and the target, and the gap to the target shrinks by the
      factor 1 - alpha. */
  lemma GlideBetween(a: real, b: real, alpha: real)
    requires 0.0 <= alpha <= 1.0
    ensures Between(a, Glide(a, b, alpha), b)
    ensures Glide(a, b, alpha) - b == (1.0 - alpha) * (a - b)
  {
    if a <= b {
      MulNonneg(b - a, alpha);
      MulNonneg(b - a, 1.0 - alpha);
    } else {
      MulNonneg(a - b, alpha);
      MulNonneg(a - b, 1.0 - alpha);
    }
  }

  predicate DistinctIds(rs: seq<Runner>)
  {
    forall i, j :: 0 <= i < |rs| && 0 <= j < |rs| && i != j ==> rs[i].id != rs[j].id
  }

  // ---------------------------------------------------------------------------
  // Ordering. `Array.prototype.sort` with a numeric comparator is modelled as a
  // stable insertion sort by a real-valued key, ascending.
  // ---------------------------------------------------------------------------

  predicate SortedBy(s: seq<Runner>, key: Runner -> real)
  {
    forall i, j :: 0 <= i < j < |s| ==> key(s[i]) <= key(s[j])
  }

  /** Inserts x in front of the first element whose key is not smaller. */
  function InsertBy(x: Runner, t: seq<Runner>, key: Runner -> real): (r: seq<Runner>)
    ensures |r| == |t| + 1
    ensures multiset(r) == multiset(t) + multiset{x}
    ensures r[0] == x || (t != [] && r[0] == t[0])
    decreases |t|
  {
    if t == [] || key(x) <= key(t[0]) then [x] + t
    else
      assert t == [t[0]] + t[1..];
      [t[0]] + InsertBy(x, t[1..], key)
  }

  /** Inserting into a sorted sequence keeps it sorted. */
  lemma {:induction false} InsertKeepsSorted(x: Runner, t: seq<Runner>, key: Runner -> real)
    requires SortedBy(t, key)
    ensures SortedBy(InsertBy(x, t, key), key)
    decreases |t|
  {
    if t != [] && key(x) > key(t[0]) {
      var rest := InsertBy(x, t[1..], key);
      InsertKeepsSorted(x, t[1..], key);
      var r := [t[0]] + rest;
      assert InsertBy(x, t, key) == r;
      if rest[0] != x {
        assert rest[0] == t[1];
      }
      assert key(t[0]) <= key(rest[0]);
      forall i, j | 0 <= i < j < |r|
        ensures key(r[i]) <= key(r[j])
      {
        if i == 0 {
          assert r[j] == rest[j - 1];
        } else {
          assert r[i] == rest[i - 1] && r[j] == rest[j - 1];
        }
      }
    }
  }

  /** The sorted copy `[...s].sort(...)`: ordered by key and a permutation of s. */
  function SortBy(s: seq<Runner>, key: Runner -> real): (r: seq<Runner>)
    ensures |r| == |s|
    ensures multiset(r) == multiset(s)
    ensures SortedBy(r, key)
    decreases |s|
  {
    if s == [] then []
    else
      assert s == [s[0]] + s[1..];
      InsertKeepsSorted(s[0], SortBy(s[1..], key), key);
      InsertBy(s[0], SortBy(s[1..], key), key)
  }

  /** The comparator `(a, b) => b.progress - a.progress`: descending progress. */
  function DescendingProgress(): Runner -> real
  {
    (r: Runner) => -r.progress
  }

  /** Index i holds the smallest key of s, and no earlier element ties it. */
  predicate FirstMinimum(s: seq<Runner>, key: Runner -> real, i: int)
  {
    && 0 <= i < |s|
    && (forall j :: 0 <= j < |s| ==> key(s[i]) <= key(s[j]))
    && (forall j :: 0 <= j < i ==> key(s[i]) < key(s[j]))
  }

  /** The first minimum of a sequence, from the first minimum of its tail. */
  lemma FirstMinimumCons(s: seq<Runner>, key: Runner -> real, j: int)
    requires s != [] && FirstMinimum(s[1..], key, j)
    ensures key(s[0]) <= key(s[j + 1]) ==> FirstMinimum(s, key, 0)
    ensures key(s[0]) > key(s[j + 1]) ==> FirstMinimum(s, key, j + 1)
  {
    assert forall m :: 0 < m < |s| ==> s[m] == s[1..][m - 1];
  }

  /** The sort is stable at its head: it starts with the first element of
      smallest key. */
  lemma {:induction false} SortHeadIsFirstMinimum(s: seq<Runner>, key: Runner -> real)
    requires s != []
    ensures exists i :: FirstMinimum(s, key, i) && SortBy(s, key)[0] == s[i]
    decreases |s|
  {
    var rest := SortBy(s[1..], key);
    assert SortBy(s, key) == InsertBy(s[0], rest, key);
    if rest == [] {
      assert FirstMinimum(s, key, 0);
    } else {
      SortHeadIsFirstMinimum(s[1..], key);
      var j :| FirstMinimum(s[1..], key, j) && rest[0] == s[1..][j];
      FirstMinimumCons(s, key, j);
      if key(s[0]) <= key(rest[0]) {
        assert SortBy(s, key)[0] == s[0];
      } else {
        assert SortBy(s, key)[0] == s[j + 1];
      }
    }
  }

  /** Index i holds the largest key of s, and no later element ties it. */
  predicate LastMaximum(s: seq<Runner>, key: Runner -> real, i: int)
  {
    && 0 <= i < |s|
    && (forall j :: 0 <= j < |s| ==> key(s[j]) <= key(s[i]))
    && (forall j :: i < j < |s| ==> key(s[j]) < key(s[i]))
  }

  /** Extends a last maximum of s[1..] to one of s. */
  lemma LastMaximumCons(s: seq<Runner>, key: Runner -> real, j: int)
    requires s != [] && LastMaximum(s[1..], key, j)
    ensures key(s[0]) > key(s[j + 1]) ==> LastMaximum(s, key, 0)
    ensures key(s[0]) <= key(s[j + 1]) ==> LastMaximum(s, key, j + 1)
  {
    assert forall m :: 0 < m < |s| ==> s[m] == s[1..][m - 1];
  }

  /** Inserting into a sorted sequence puts x last exactly when its key
      exceeds the last key. */
  lemma {:induction false} InsertByLast(x: Runner, t: seq<Runner>, key: Runner -> real)
    requires t != [] && SortedBy(t, key)
    ensures InsertBy(x, t, key)[|t|] == if key(x) > key(t[|t| - 1]) then x else t[|t| - 1]
    decreases |t|
  {
    var last := t[|t| - 1];
    if key(x) <= key(t[0]) {
      assert InsertBy(x, t, key) == [x] + t;
      assert key(t[0]) <= key(last);
    } else if |t| == 1 {
      assert InsertBy(x, t, key) == [t[0]] + [x];
    } else {
      var u := t[1..];
      assert SortedBy(u, key) by {
        forall i, j | 0 <= i < j < |u|
          ensures key(u[i]) <= key(u[j])
        {
          assert u[i] == t[i + 1] && u[j] == t[j + 1];
        }
      }
      assert u[|u| - 1] == last;
      InsertByLast(x, u, key);
      assert InsertBy(x, t, key) == [t[0]] + InsertBy(x, u, key);
    }
  }

  /** The position of the last element of s of largest key. */
  function LastMaxIndex(s: seq<Runner>, key: Runner -> real): (i: nat)
    requires s != []
    ensures LastMaximum(s, key, i)
    decreases |s|
  {
    if |s| == 1 then 0
    else
      var j := LastMaxIndex(s[1..], key);
      LastMaximumCons(s, key, j);
      if key(s[0]) > key(s[j + 1]) then 0 else j + 1
  }

  /** r, a reordering of s, ends with the last element of s of largest key. */
  predicate EndsWithLastMaximum(s: seq<Runner>, key: Runner -> real, r: seq<Runner>)
  {
    s != [] && |r| == |s| && r[|s| - 1] == s[LastMaxIndex(s, key)]
  }

  /** One insertion step of the sort keeps the last maximum at the end. */
  lemma SortTailStep(s: seq<Runner>, rest: seq<Runner>, key: Runner -> real)
    requires s != [] && |rest| == |s| - 1 && SortedBy(rest, key)
    requires rest != [] ==> EndsWithLastMaximum(s[1..], key, rest)
    ensures EndsWithLastMaximum(s, key, InsertBy(s[0], rest, key))
  {
    if rest != [] {
      var j := LastMaxIndex(s[1..], key);
      assert s[1..][j] == s[j + 1];
      assert LastMaxIndex(s, key) == if key(s[0]) > key(s[j + 1]) then 0 else j + 1;
      InsertByLast(s[0], rest, key);
    }
  }

  /** The sort is stable at its tail: it ends with the last element of
      largest key. */
  lemma {:induction false} SortTailIsLastMaximum(s: seq<Runner>, key: Runner -> real)
    requires s != []
    ensures EndsWithLastMaximum(s, key, SortBy(s, key))
    decreases |s|
  {
    var rest := SortBy(s[1..], key);
    assert SortBy(s, key) == InsertBy(s[0], rest, key);
    if rest != [] {
      SortTailIsLastMaximum(s[1..], key);
    }
    SortTailStep(s, rest, key);
  }

  /** The leader: the head of the field sorted by descending progress. */
  function Leader(rs: seq<Runner>): (leader: Option<Runner>)
    ensures leader.None? <==> rs == []
  {
    if rs == [] then None else Some(SortBy(rs, DescendingProgress())[0])
  }

  /** The leader is the first runner, in array order, of greatest progress. */
  lemma LeaderIsFirstAhead(rs: seq<Runner>)
    requires rs != []
    ensures exists i :: FirstMinimum(rs, DescendingProgress(), i) && Leader(rs) == Some(rs[i])
    ensures forall x :: x in rs ==> x.progress <= Leader(rs).value.progress
  {
    SortHeadIsFirstMinimum(rs, DescendingProgress());
    var i :| FirstMinimum(rs, DescendingProgress(), i) && SortBy(rs, DescendingProgress())[0] == rs[i];
    forall x | x in rs
      ensures x.progress <= Leader(rs).value.progress
    {
      var j :| 0 <= j < |rs| && rs[j] == x;
      assert DescendingProgress()(rs[i]) <= DescendingProgress()(rs[j]);
    }
  }

  /** With distinct ids no runner occurs twice. */
  lemma {:induction false} CountedOnce(s: seq<Runner>, v: Runner)
    requires DistinctIds(s)
    ensures multiset(s)[v] <= 1
    decreases |s|
  {
    if s != [] {
      var n := |s| - 1;
      assert s == s[..n] + [s[n]];
      CountedOnce(s[..n], v);
      if v == s[n] {
        assert v !in s[..n];
      }
    }
  }

  /** A value at two positions is counted twice. */
  lemma CountedTwice(r: seq<Runner>, i: nat, j: nat)
    requires i < j < |r| && r[i] == r[j]
    ensures multiset(r)[r[i]] >= 2
  {
    assert r == r[..j] + [r[j]] + r[j + 1..];
    assert r[i] in r[..j];
  }

  /** A permutation of a sequence with distinct ids has distinct ids. */
  lemma PermutationKeepsDistinct(s: seq<Runner>, r: seq<Runner>)
    requires multiset(r) == multiset(s) && DistinctIds(s)
    ensures DistinctIds(r)
  {
    forall i, j | 0 <= i < j < |r|
      ensures r[i].id != r[j].id
    {
      if r[i].id == r[j].id {
        assert r[i] in multiset(s) && r[j] in multiset(s);
        var a :| 0 <= a < |s| && s[a] == r[i];
        var b :| 0 <= b < |s| && s[b] == r[j];
        CountedTwice(r, i, j);
        CountedOnce(s, r[i]);
        assert false;
      }
    }
  }
}
