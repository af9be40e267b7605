/**
  The player page: cubic ease-in-out, the roster derived from the first
  scene (with metadata decoded from player ids when a pose carries none),
  per-id interpolation between consecutive scenes, and the playback cursor
  advanced by a pure `Tick(cursor, sceneCount, now)` in place of the
  animation-frame callback.
 */
module Playback {
  import opened Wrappers
  import opened Types
  import opened Text
  import opened Numeric

  /* ---------------- easing ---------------- */

  function Cube(x: real): real {
    x * x * x
  }

  /**
    `easeInOutCubic`: 4t³ below one half, 1 − (2 − 2t)³/2 from one half on.
    On [0,1] it stays in [0,1], covering the first half of the distance in
    the first half of the time.
   */
  function Ease(t: real): (r: real)
    ensures 0.0 <= t <= 1.0 ==> 0.0 <= r <= 1.0
    ensures 0.0 <= t < 0.5 ==> r <= 0.5
    ensures 0.5 <= t <= 1.0 ==> 0.5 <= r
  {
    CubeUnit(t);
    CubeUnit(-2.0 * t + 2.0);
    if t < 0.5 then 4.0 * Cube(t) else 1.0 - Cube(-2.0 * t + 2.0) / 2.0
  }

  /** On [0,1] a cube stays in [0,1], and on [0,½] it is at most ⅛. */
  lemma CubeUnit(x: real)
    ensures 0.0 <= x <= 1.0 ==> 0.0 <= Cube(x) <= 1.0
    ensures 0.0 <= x <= 0.5 ==> Cube(x) <= 0.125
  {
    if 0.0 <= x <= 1.0 {
      CubeMonotone(0.0, x);
      CubeMonotone(x, 1.0);
      if x <= 0.5 {
        CubeMonotone(x, 0.5);
      }
    }
  }

  lemma EaseFixedPoints()
    ensures Ease(0.0) == 0.0 && Ease(0.5) == 0.5 && Ease(1.0) == 1.0
  {
    assert Cube(0.0) == 0.0;
    assert Cube(1.0) == 1.0;
  }

  /** The curve is point-symmetric about (½, ½), for every real t. */
  lemma EaseSymmetric(t: real)
    ensures Ease(1.0 - t) == 1.0 - Ease(t)
  {
    if t < 0.5 {
      assert -2.0 * (1.0 - t) + 2.0 == 2.0 * t;
      CubeDouble(t);
    } else if t > 0.5 {
      assert -2.0 * t + 2.0 == 2.0 * (1.0 - t);
      CubeDouble(1.0 - t);
    }
  }

  lemma CubeDouble(x: real)
    ensures Cube(2.0 * x) == 8.0 * Cube(x)
  {
  }

  lemma CubeMonotone(a: real, b: real)
    requires 0.0 <= a <= b
    ensures Cube(a) <= Cube(b)
  {
    assert a * a <= a * b <= b * b;
    assert a * a * a <= b * b * a <= b * b * b;
  }

  /** On [0,1] the curve never goes down. */
  lemma EaseMonotone(s: real, t: real)
    requires 0.0 <= s <= t <= 1.0
    ensures Ease(s) <= Ease(t)
  {
    if t < 0.5 {
      CubeMonotone(s, t);
    } else if s >= 0.5 {
      CubeMonotone(-2.0 * t + 2.0, -2.0 * s + 2.0);
    } else {
      CubeMonotone(s, 0.5);
      CubeMonotone(-2.0 * t + 2.0, 1.0);
    }
  }

  /** On [0,1] the curve stays in [0,1]. */
  lemma EaseRange(t: real)
    requires 0.0 <= t <= 1.0
    ensures 0.0 <= Ease(t) <= 1.0
  {
    EaseMonotone(0.0, t);
    EaseMonotone(t, 1.0);
  }

  /* ---------------- roster ---------------- */

  /** Team, jersey number and label of a rostered player. */
  datatype Meta = Meta(team: Side, number: int, name: string)

  /**
    `Number(token)` where a non-finite result falls back to 0: an all-digit
    token (the empty one included) is its value, anything else or a missing
    token is 0.
   */
  function NumberOf(token: Option<string>): (n: nat)
    ensures token.Some? && AllDigits(token.value) ==> n == DigitsValue(token.value)
    ensures token.None? || !AllDigits(token.value) ==> n == 0
  {
    if token.Some? && AllDigits(token.value) then DigitsValue(token.value) else 0
  }

  /** The label `P${number || ""}`: "P" alone for 0. */
  function Label(n: nat): string {
    if n == 0 then "P" else "P" + Decimal(n)
  }

  /**
    `inferMetaFromId`: the team from the "top_"/"bottom_" prefix (top when
    neither), the number from the second "_"-separated token, the label from
    the number.
   */
  function InferMetaFromId(id: string): (m: Meta)
    ensures m.team == Bottom <==> StartsWith(id, "bottom_")
    ensures m.number >= 0 && (m.name == "P" <==> m.number == 0)
  {
    var team := if StartsWith(id, "top_") then Top else if StartsWith(id, "bottom_") then Bottom else Top;
    var parts := Split(id, '_');
    var n := NumberOf(if |parts| > 1 then Some(parts[1]) else None);
    assert n != 0 ==> |"P" + Decimal(n)| > 1;
    Meta(team, n, Label(n))
  }

  /**
    Decoding is the inverse of the editor's id scheme: an id made of a side
    name, "_", a number and either nothing or "_" and anything, decodes to
    that side and number and the matching label.
   */
  lemma InferMetaOfEncodedId(side: Side, n: nat, tail: string)
    requires tail == "" || tail[0] == '_'
    ensures InferMetaFromId(SideName(side) + "_" + Decimal(n) + tail) == Meta(side, n, Label(n))
  {
    var d := Decimal(n);
    var id := SideName(side) + "_" + d + tail;
    DecimalHasNoSeparator(n);
    EncodedIdToken(side, d, tail);
    DecimalRoundTrip(n);
    assert id == SideName(side) + "_" + (d + tail);
    EncodedIdTeam(side, d + tail);
    var m := InferMetaFromId(id);
    assert m.number == n;
  }

  lemma DecimalHasNoSeparator(n: nat)
    ensures '_' !in Decimal(n)
  {
    var d := Decimal(n);
    forall i | 0 <= i < |d|
      ensures d[i] != '_'
    {
      assert IsDigit(d[i]);
    }
  }

  /**
    Decoding in general: for an id whose first "_"-separated token is `t`
    and whose second is `d`, the team is bottom exactly when the id starts
    with "bottom_", and the number and label come from `d` alone.
   */
  lemma InferMetaOfTokens(t: string, d: string, tail: string)
    requires '_' !in t && '_' !in d
    requires tail == "" || tail[0] == '_'
    ensures var id := t + "_" + d + tail;
      InferMetaFromId(id) == Meta(if StartsWith(id, "bottom_") then Bottom else Top, NumberOf(Some(d)), Label(NumberOf(Some(d))))
  {
    SecondToken(t, d, tail);
  }

  /** An id without any "_" decodes to top, number 0, label "P". */
  lemma InferMetaNoSeparator(id: string)
    requires '_' !in id
    ensures InferMetaFromId(id) == Meta(Top, 0, "P")
  {
    SplitNoSeparator(id, '_');
    assert !StartsWith(id, "bottom_") by {
      if |id| >= 7 {
        assert id[..7][6] == id[6] && id[6] in id;
      }
    }
  }

  /** The second "_"-separated token of `side_<d><tail>` is `d`. */
  lemma EncodedIdToken(side: Side, d: string, tail: string)
    requires '_' !in d
    requires tail == "" || tail[0] == '_'
    ensures |Split(SideName(side) + "_" + d + tail, '_')| > 1
    ensures Split(SideName(side) + "_" + d + tail, '_')[1] == d
  {
    SecondToken(SideName(side), d, tail);
  }

  lemma SecondToken(name: string, d: string, tail: string)
    requires '_' !in name && '_' !in d
    requires tail == "" || tail[0] == '_'
    ensures |Split(name + "_" + d + tail, '_')| > 1
    ensures Split(name + "_" + d + tail, '_')[1] == d
  {
    assert name + "_" + d + tail == name + ['_'] + (d + tail);
    SplitHead(name, '_', d + tail);
    FirstToken(d, tail);
  }

  /** The piece before a separator (or the end) is the first token. */
  lemma FirstToken(d: string, tail: string)
    requires '_' !in d
    requires tail == "" || tail[0] == '_'
    ensures Split(d + tail, '_')[0] == d
  {
    if tail == "" {
      assert d + tail == d;
      SplitNoSeparator(d, '_');
    } else {
      assert d + tail == d + ['_'] + tail[1..];
      SplitHead(d, '_', tail[1..]);
    }
  }

  /** The prefix test picks the side an id starts with. */
  lemma EncodedIdTeam(side: Side, rest: string)
    ensures InferMetaFromId(SideName(side) + "_" + rest).team == side
  {
    var id := SideName(side) + "_" + rest;
    if side == Top {
      assert id[..4] == "top_";
    } else {
      assert id[..7] == "bottom_";
      assert id[..4] != "top_" by {
        assert id[0] == 'b';
      }
    }
  }

  /** A pose's metadata: its own fields when it names a team (number 0 and label "P" by default), else decoded from the id. */
  function MetaOf(p: Pose): (m: Meta)
    ensures p.tags.team.Some? ==> m == Meta(p.tags.team.value, p.tags.number.GetOr(0), p.tags.name.GetOr("P"))
    ensures p.tags.team.None? ==> m == InferMetaFromId(p.id)
  {
    if p.tags.team.Some? then Meta(p.tags.team.value, p.tags.number.GetOr(0), p.tags.name.GetOr("P"))
    else InferMetaFromId(p.id)
  }

  /** The roster: the first scene's players, in order, with their metadata and first-scene positions. */
  function Roster(scene0: SceneFrame): (roster: seq<Player>)
    ensures |roster| == |scene0.players|
    ensures forall i :: 0 <= i < |roster| ==>
      var p, m := scene0.players[i], MetaOf(scene0.players[i]);
      roster[i] == Player(p.id, m.team, m.number, m.name, p.nx, p.ny)
  {
    seq(|scene0.players|, i requires 0 <= i < |scene0.players| =>
      var p := scene0.players[i];
      var m := MetaOf(p);
      Player(p.id, m.team, m.number, m.name, p.nx, p.ny))
  }

  /* ---------------- interpolation ---------------- */

  /** `k` is the position of the first pose with that id. */
  predicate FirstWithId(poses: seq<Pose>, id: string, k: int) {
    && 0 <= k < |poses|
    && poses[k].id == id
    && forall j :: 0 <= j < k ==> poses[j].id != id
  }

  /** `players.find(x => x.id === id)`: the first pose with that id. */
  function Find(poses: seq<Pose>, id: string): (r: Option<Pose>)
    ensures r.Some? ==> r.value.id == id && exists k :: FirstWithId(poses, id, k) && poses[k] == r.value
    ensures r.None? <==> forall k :: 0 <= k < |poses| ==> poses[k].id != id
    decreases |poses|
  {
    if |poses| == 0 then None
    else if poses[0].id == id then Some(poses[0])
    else
      var r := Find(poses[1..], id);
      if r.Some? then
        ghost var k :| FirstWithId(poses[1..], id, k) && poses[1..][k] == r.value;
        assert FirstWithId(poses, id, k + 1);
        r
      else
        assert forall k :: 1 <= k < |poses| ==> poses[k].id == poses[1..][k - 1].id;
        r
  }

  /** In a scene whose ids are distinct, the search for a player's id finds that player. */
  lemma FindUnique(poses: seq<Pose>, i: nat)
    requires i < |poses|
    requires forall a, b :: 0 <= a < b < |poses| ==> poses[a].id != poses[b].id
    ensures Find(poses, poses[i].id) == Some(poses[i])
  {
  }

  /** Where a rostered player stands in a scene: its pose there, or its first-scene position when absent. */
  function Endpoint(poses: seq<Pose>, base: Player): (pt: Point)
    ensures Find(poses, base.id).Some? ==> pt == Point(Find(poses, base.id).value.nx, Find(poses, base.id).value.ny)
    ensures Find(poses, base.id).None? ==> pt == Point(base.nx, base.ny)
  {
    match Find(poses, base.id)
    case Some(p) => Point(p.nx, p.ny)
    case None => Point(base.nx, base.ny)
  }

  function Lerp(a: real, b: real, e: real): real {
    a + (b - a) * e
  }

  /** The rostered players at eased progress `e` between two scenes, each axis interpolated on its own. */
  function InterpPlayers(roster: seq<Player>, from: SceneFrame, to: SceneFrame, e: real): (ps: seq<Player>)
    ensures |ps| == |roster|
    ensures forall i :: 0 <= i < |ps| ==>
      && ps[i].id == roster[i].id && ps[i].team == roster[i].team
      && ps[i].number == roster[i].number && ps[i].name == roster[i].name
  {
    seq(|roster|, i requires 0 <= i < |roster| =>
      var a := Endpoint(from.players, roster[i]);
      var b := Endpoint(to.players, roster[i]);
      roster[i].(nx := Lerp(a.nx, b.nx, e), ny := Lerp(a.ny, b.ny, e)))
  }

  /** The interpolated ball: at `from` for 0, at `to` for 1, and between the two in between. */
  function InterpBall(from: SceneFrame, to: SceneFrame, e: real): (b: Point)
    ensures e == 0.0 ==> b == from.ball
    ensures e == 1.0 ==> b == to.ball
    ensures 0.0 <= e <= 1.0 ==> PointBetween(from.ball, b, to.ball)
  {
    var b := Point(Lerp(from.ball.nx, to.ball.nx, e), Lerp(from.ball.ny, to.ball.ny, e));
    if 0.0 <= e <= 1.0 then
      LerpBetween(from.ball.nx, to.ball.nx, e);
      LerpBetween(from.ball.ny, to.ball.ny, e);
      b
    else b
  }

  /** `x` lies on the segment from `a` to `b`, whichever way round. */
  predicate Between(a: real, x: real, b: real) {
    Min(a, b) <= x <= Max(a, b)
  }

  predicate PointBetween(a: Point, p: Point, b: Point) {
    Between(a.nx, p.nx, b.nx) && Between(a.ny, p.ny, b.ny)
  }

  function Pos(p: Player): Point {
    Point(p.nx, p.ny)
  }

  lemma MulNonNegative(x: real, y: real)
    requires x >= 0.0 && y >= 0.0
    ensures x * y >= 0.0
  {
  }

  /** A fraction of the way from `a` to `b` lies between them. */
  lemma LerpBetween(a: real, b: real, e: real)
    requires 0.0 <= e <= 1.0
    ensures Between(a, Lerp(a, b, e), b)
  {
    var x := Lerp(a, b, e);
    if a <= b {
      MulNonNegative(b - a, e);
      MulNonNegative(b - a, 1.0 - e);
      assert x - a == (b - a) * e;
      assert b - x == (b - a) * (1.0 - e);
      assert Min(a, b) == a && Max(a, b) == b;
    } else {
      MulNonNegative(a - b, e);
      MulNonNegative(a - b, 1.0 - e);
      assert a - x == (a - b) * e;
      assert x - b == (a - b) * (1.0 - e);
      assert Min(a, b) == b && Max(a, b) == a;
    }
  }

  /** A larger fraction is nearer `b`: it lies between the smaller fraction's point and `b`. */
  lemma LerpToward(a: real, b: real, e1: real, e2: real)
    requires 0.0 <= e1 <= e2 <= 1.0
    ensures Between(Lerp(a, b, e1), Lerp(a, b, e2), b)
  {
    var x1, x2 := Lerp(a, b, e1), Lerp(a, b, e2);
    if a <= b {
      MulNonNegative(b - a, e2 - e1);
      MulNonNegative(b - a, 1.0 - e2);
      assert x2 - x1 == (b - a) * (e2 - e1);
      assert b - x2 == (b - a) * (1.0 - e2);
      assert x1 <= x2 <= b;
    } else {
      MulNonNegative(a - b, e2 - e1);
      MulNonNegative(a - b, 1.0 - e2);
      assert x1 - x2 == (a - b) * (e2 - e1);
      assert x2 - b == (a - b) * (1.0 - e2);
      assert b <= x2 <= x1;
    }
  }

  /**
    At eased progress 0 every player stands at its `from` position and the
    ball at the `from` ball; at eased progress 1 both stand at their `to`
    positions. A player absent from a scene uses its first-scene position there.
   */
  lemma InterpEndpoints(roster: seq<Player>, from: SceneFrame, to: SceneFrame)
    ensures forall i :: 0 <= i < |roster| ==>
      var p := InterpPlayers(roster, from, to, 0.0)[i];
      Point(p.nx, p.ny) == Endpoint(from.players, roster[i])
    ensures forall i :: 0 <= i < |roster| ==>
      var p := InterpPlayers(roster, from, to, 1.0)[i];
      Point(p.nx, p.ny) == Endpoint(to.players, roster[i])
    ensures InterpBall(from, to, 0.0) == from.ball
    ensures InterpBall(from, to, 1.0) == to.ball
  {
  }

  /** For eased progress in [0,1] every player stands between its two endpoints, on each axis. */
  lemma InterpBetween(roster: seq<Player>, from: SceneFrame, to: SceneFrame, e: real)
    requires 0.0 <= e <= 1.0
    ensures forall i :: 0 <= i < |roster| ==>
      PointBetween(Endpoint(from.players, roster[i]), Pos(InterpPlayers(roster, from, to, e)[i]), Endpoint(to.players, roster[i]))
  {
    forall i | 0 <= i < |roster|
      ensures PointBetween(Endpoint(from.players, roster[i]), Pos(InterpPlayers(roster, from, to, e)[i]), Endpoint(to.players, roster[i]))
    {
      var a, b := Endpoint(from.players, roster[i]), Endpoint(to.players, roster[i]);
      LerpBetween(a.nx, b.nx, e);
      LerpBetween(a.ny, b.ny, e);
    }
  }

  /**
    Players move monotonically towards their `to` positions: at a larger
    eased progress each player lies between where it was at the smaller one
    and its `to` position, on each axis.
   */
  lemma InterpToward(roster: seq<Player>, from: SceneFrame, to: SceneFrame, e1: real, e2: real)
    requires 0.0 <= e1 <= e2 <= 1.0
    ensures forall i :: 0 <= i < |roster| ==>
      PointBetween(Pos(InterpPlayers(roster, from, to, e1)[i]), Pos(InterpPlayers(roster, from, to, e2)[i]), Endpoint(to.players, roster[i]))
    ensures PointBetween(InterpBall(from, to, e1), InterpBall(from, to, e2), to.ball)
  {
    forall i | 0 <= i < |roster|
      ensures PointBetween(Pos(InterpPlayers(roster, from, to, e1)[i]), Pos(InterpPlayers(roster, from, to, e2)[i]), Endpoint(to.players, roster[i]))
    {
      var a, b := Endpoint(from.players, roster[i]), Endpoint(to.players, roster[i]);
      LerpToward(a.nx, b.nx, e1, e2);
      LerpToward(a.ny, b.ny, e1, e2);
    }
    LerpToward(from.ball.nx, to.ball.nx, e1, e2);
    LerpToward(from.ball.ny, to.ball.ny, e1, e2);
  }

  /**
    A player of the first scene who is missing from the second scene, in a
    first scene with distinct ids, holds its first-scene position throughout
    the first segment.
   */
  lemma MissingPlayerHoldsStill(scene0: SceneFrame, scene1: SceneFrame, i: nat, e: real)
    requires i < |scene0.players|
    requires forall a, b :: 0 <= a < b < |scene0.players| ==> scene0.players[a].id != scene0.players[b].id
    requires forall k :: 0 <= k < |scene1.players| ==> scene1.players[k].id != scene0.players[i].id
    ensures var p := InterpPlayers(Roster(scene0), scene0, scene1, e)[i];
      p.nx == scene0.players[i].nx && p.ny == scene0.players[i].ny
  {
    var roster := Roster(scene0);
    var base := roster[i];
    assert base.id == scene0.players[i].id && base.nx == scene0.players[i].nx && base.ny == scene0.players[i].ny;
    FindUnique(scene0.players, i);
    assert Endpoint(scene0.players, base) == Point(base.nx, base.ny);
    assert Find(scene1.players, base.id).None?;
    assert Endpoint(scene1.players, base) == Point(base.nx, base.ny);
    var p := InterpPlayers(roster, scene0, scene1, e)[i];
    assert p.nx == Lerp(base.nx, base.nx, e) && p.ny == Lerp(base.ny, base.ny, e);
  }

  /* ---------------- the playback cursor ---------------- */

  /** Milliseconds per segment. */
  const Duration: real := 1500.0

  /**
    Scene index, progress through the current segment, whether playing,
    and the timestamp the current segment started at (unset until the
    segment's first tick).
   */
  datatype Cursor = Cursor(sceneIndex: int, progress: real, playing: bool, segmentStart: Option<real>)

  const Initial: Cursor := Cursor(0, 0.0, false, None)

  /** A tick's new cursor, and whether it asks the video capture to stop. */
  datatype Step = Step(cursor: Cursor, stopRequested: bool)

  /**
    One animation-frame callback at time `now`. While paused nothing happens.
    Otherwise the segment's first tick fixes its start; progress is
    min(1, elapsed/1500); a complete segment moves to the next pair of scenes
    or, after the last pair, stops at progress 1 and requests the capture stop.
   */
  function Tick(c: Cursor, sceneCount: int, now: real): (s: Step)
    ensures !c.playing ==> s == Step(c, false)
    ensures s.stopRequested ==> !s.cursor.playing && s.cursor.progress == 1.0
    ensures c.playing && s.cursor.playing && s.cursor.sceneIndex == c.sceneIndex ==>
      s.cursor.segmentStart == Some(c.segmentStart.GetOr(now))
      && s.cursor.progress == (now - c.segmentStart.GetOr(now)) / Duration < 1.0
  {
    if !c.playing then Step(c, false)
    else
      var start := c.segmentStart.GetOr(now);
      var t := Min(1.0, (now - start) / Duration);
      if t < 1.0 then Step(c.(progress := t, segmentStart := Some(start)), false)
      else if c.sceneIndex < sceneCount - 2 then Step(Cursor(c.sceneIndex + 1, 0.0, true, None), false)
      else Step(Cursor(c.sceneIndex, 1.0, false, None), true)
  }

  /** `onPlay`: rewind from the end, restart the segment, play. */
  function OnPlay(c: Cursor, sceneCount: int): (c': Cursor)
    ensures c'.playing && c'.progress == 0.0
    ensures c.sceneIndex >= sceneCount - 1 ==> c'.sceneIndex == 0
    ensures c.sceneIndex < sceneCount - 1 ==> c'.sceneIndex == c.sceneIndex
    ensures !c.playing ==> c'.segmentStart.None?
  {
    var index := if c.sceneIndex >= sceneCount - 1 then 0 else c.sceneIndex;
    // The animation effect restarts (forgetting the segment start) unless it was
    // already running for the same scene index.
    var start := if c.playing && index == c.sceneIndex then c.segmentStart else None;
    Cursor(index, 0.0, true, start)
  }

  /**
    A finished run: the cursor is past the last pair, which is the case
    `onPlay` tests for, or it rests at the end of the last pair, which is
    where the ticks actually leave it.
   */
  predicate Finished(c: Cursor, sceneCount: int) {
    c.sceneIndex >= sceneCount - 1 || (c.sceneIndex == sceneCount - 2 && c.progress == 1.0)
  }

  /** `onPlay` as evidently intended: a finished run starts over from scene 0; otherwise as `OnPlay`. */
  function OnPlayIntended(c: Cursor, sceneCount: int): (c': Cursor)
    ensures c'.playing && c'.progress == 0.0
    ensures Finished(c, sceneCount) ==> c'.sceneIndex == 0
    ensures !Finished(c, sceneCount) ==> c' == OnPlay(c, sceneCount)
  {
    var index := if Finished(c, sceneCount) then 0 else c.sceneIndex;
    var start := if c.playing && index == c.sceneIndex then c.segmentStart else None;
    Cursor(index, 0.0, true, start)
  }

  /**
    The rewind branch of `onPlay` never fires: the cursor invariant keeps
    the index at most `n - 2`, so play always resumes at the current index.
   */
  lemma OnPlayNeverRewinds(c: Cursor, n: int)
    requires Valid(c, n)
    ensures OnPlay(c, n).sceneIndex == c.sceneIndex
  {
  }

  /**
    Once the last segment has played out, `onPlay` replays only that last
    segment from index `n - 2`, while the intended version starts over at
    scene 0.
   */
  lemma PlayAfterFinish(c: Cursor, n: int, now: real)
    requires Valid(c, n) && c.playing && c.segmentStart.Some? && ClockAfterStart(c, now)
    requires now - c.segmentStart.value >= Duration && c.sceneIndex == n - 2
    ensures Tick(c, n, now).stopRequested
    ensures OnPlay(Tick(c, n, now).cursor, n).sceneIndex == n - 2
    ensures OnPlayIntended(Tick(c, n, now).cursor, n).sceneIndex == 0
  {
  }

  /** `onPause`: only `playing` changes. */
  function OnPause(c: Cursor): (c': Cursor)
    ensures !c'.playing
    ensures c'.sceneIndex == c.sceneIndex && c'.progress == c.progress && c'.segmentStart == c.segmentStart
  {
    c.(playing := false)
  }

  /** `onRestart`: back to the first scene, progress 0, paused, whatever the state was. */
  function OnRestart(c: Cursor): (c': Cursor)
    ensures c'.sceneIndex == 0 && c'.progress == 0.0 && !c'.playing
  {
    Initial
  }

  /**
    The cursor invariant for a recording of `n >= 2` scenes: `from` and `to`
    (scenes `sceneIndex` and `sceneIndex + 1`) exist and progress is in [0,1].
   */
  predicate Valid(c: Cursor, n: int) {
    && n >= 2
    && 0 <= c.sceneIndex <= n - 2
    && 0.0 <= c.progress <= 1.0
  }

  /** The clock never runs backwards past the current segment's start. */
  predicate ClockAfterStart(c: Cursor, now: real) {
    c.segmentStart.Some? ==> c.segmentStart.value <= now
  }

  lemma InitialValid(n: int)
    requires n >= 2
    ensures Valid(Initial, n)
  {
  }

  /** A tick keeps the invariant and never runs the index past the last pair. */
  lemma TickValid(c: Cursor, n: int, now: real)
    requires Valid(c, n) && ClockAfterStart(c, now)
    ensures Valid(Tick(c, n, now).cursor, n)
    ensures ClockAfterStart(Tick(c, n, now).cursor, now)
    ensures Tick(c, n, now).cursor.sceneIndex - c.sceneIndex in {0, 1}
  {
  }

  /** Play, pause and restart keep the invariant. */
  lemma ControlsValid(c: Cursor, n: int)
    requires Valid(c, n)
    ensures Valid(OnPlay(c, n), n) && Valid(OnPause(c), n) && Valid(OnRestart(c), n)
    ensures Valid(OnPlayIntended(c, n), n)
  {
  }

  /** The first tick of a segment fixes its start at `now` and shows progress 0. */
  lemma FirstTickOfSegment(c: Cursor, n: int, now: real)
    requires c.playing && c.segmentStart.None?
    ensures Tick(c, n, now) == Step(c.(progress := 0.0, segmentStart := Some(now)), false)
  {
  }

  /**
    A segment that has run its full duration ends: before the last pair the
    index advances by one and play continues from progress 0; at the last
    pair play stops at progress 1 and the capture stop is requested.
   */
  lemma SegmentEnds(c: Cursor, n: int, now: real)
    requires c.playing && c.segmentStart.Some? && now - c.segmentStart.value >= Duration
    ensures c.sceneIndex < n - 2 ==> Tick(c, n, now) == Step(Cursor(c.sceneIndex + 1, 0.0, true, None), false)
    ensures c.sceneIndex >= n - 2 ==>
      Tick(c, n, now) == Step(Cursor(c.sceneIndex, 1.0, false, None), true)
  {
  }

  /** Within a segment, a later tick shows at least as much progress. */
  lemma ProgressMonotone(c: Cursor, n: int, t1: real, t2: real)
    requires c.playing && c.segmentStart.Some? && t1 <= t2 && t2 - c.segmentStart.value < Duration
    ensures Tick(c, n, t1).cursor.progress <= Tick(c, n, t2).cursor.progress
  {
  }

  /** A run of ticks at the given timestamps; `stopped` records whether any tick requested the stop. */
  function Ticks(c: Cursor, n: int, times: seq<real>): Step
    decreases |times|
  {
    if |times| == 0 then Step(c, false)
    else
      var s := Tick(c, n, times[0]);
      var rest := Ticks(s.cursor, n, times[1..]);
      Step(rest.cursor, s.stopRequested || rest.stopRequested)
  }

  /**
    Scenario: with three scenes, pressing play and ticking at 0, 1500, 1500
    and 3000 ms plays both segments back to back and comes to rest at
    scene 1, progress 1, paused, with the capture stop requested.
   */
  lemma ThreeScenesPlayThrough()
    ensures Ticks(OnPlay(Initial, 3), 3, [0.0, 1500.0, 1500.0, 3000.0]) ==
      Step(Cursor(1, 1.0, false, None), true)
  {
    var c0 := OnPlay(Initial, 3);
    assert c0 == Cursor(0, 0.0, true, None);
    var c1 := Tick(c0, 3, 0.0).cursor;
    assert c1 == Cursor(0, 0.0, true, Some(0.0));
    var c2 := Tick(c1, 3, 1500.0).cursor;
    assert c2 == Cursor(1, 0.0, true, None);
    var c3 := Tick(c2, 3, 1500.0).cursor;
    assert c3 == Cursor(1, 0.0, true, Some(1500.0));
    assert Tick(c3, 3, 3000.0) == Step(Cursor(1, 1.0, false, None), true);
    assert [0.0, 1500.0, 1500.0, 3000.0][1..] == [1500.0, 1500.0, 3000.0];
    assert [1500.0, 1500.0, 3000.0][1..] == [1500.0, 3000.0];
    assert [1500.0, 3000.0][1..] == [3000.0];
  }

  /** After that three-scene run, Play as written shows only the second segment again. */
  lemma ReplayAfterThreeScenes()
    ensures var end := Ticks(OnPlay(Initial, 3), 3, [0.0, 1500.0, 1500.0, 3000.0]).cursor;
      OnPlay(end, 3) == Cursor(1, 0.0, true, None) && OnPlayIntended(end, 3) == Cursor(0, 0.0, true, None)
  {
    ThreeScenesPlayThrough();
  }

  /* ---------------- the page ---------------- */

  /** The page: the "no recording" fallback, or a playback session. */
  datatype Page = NoRecording | Session(scenes: seq<SceneFrame>, arrows: seq<Arrow>, roster: seq<Player>)

  /** Opening the player route with an optional payload; fewer than two scenes shows the fallback. */
  function Open(state: Option<LocationState>): (page: Page)
    ensures page.Session? <==> state.Some? && |state.value.scenes| >= 2
    ensures page.Session? ==>
      && page.scenes == state.value.scenes
      && page.arrows == state.value.arrows.GetOr([])
      && page.roster == Roster(state.value.scenes[0])
  {
    var scenes := if state.Some? then state.value.scenes else [];
    var arrows := if state.Some? then state.value.arrows.GetOr([]) else [];
    if |scenes| < 2 then NoRecording else Session(scenes, arrows, Roster(scenes[0]))
  }

  /** What the board draws for one cursor position. */
  datatype Frame = Frame(players: seq<Player>, ball: Point, arrows: seq<Arrow>)

  /**
    The board contents at a cursor: the roster interpolated between scenes
    `sceneIndex` and `sceneIndex + 1` at the eased progress, the interpolated
    ball, and the arrows unchanged.
   */
  function Render(page: Page, c: Cursor): (f: Frame)
    requires page.Session? && Valid(c, |page.scenes|)
    ensures |f.players| == |page.roster| && f.arrows == page.arrows
    ensures forall i :: 0 <= i < |f.players| ==> f.players[i].id == page.roster[i].id
    ensures forall i :: 0 <= i < |f.players| ==>
      PointBetween(Endpoint(page.scenes[c.sceneIndex].players, page.roster[i]), Pos(f.players[i]),
        Endpoint(page.scenes[c.sceneIndex + 1].players, page.roster[i]))
    ensures PointBetween(page.scenes[c.sceneIndex].ball, f.ball, page.scenes[c.sceneIndex + 1].ball)
    ensures c.progress == 0.0 ==>
      && f.ball == page.scenes[c.sceneIndex].ball
      && forall i :: 0 <= i < |f.players| ==> Pos(f.players[i]) == Endpoint(page.scenes[c.sceneIndex].players, page.roster[i])
    ensures c.progress == 1.0 ==>
      && f.ball == page.scenes[c.sceneIndex + 1].ball
      && forall i :: 0 <= i < |f.players| ==> Pos(f.players[i]) == Endpoint(page.scenes[c.sceneIndex + 1].players, page.roster[i])
  {
    var from, to := page.scenes[c.sceneIndex], page.scenes[c.sceneIndex + 1];
    var e := Ease(c.progress);
    EaseFixedPoints();
    InterpEndpoints(page.roster, from, to);
    InterpBetween(page.roster, from, to, e);
    Frame(InterpPlayers(page.roster, from, to, e), InterpBall(from, to, e), page.arrows)
  }

  /**
    Within a segment the picture only moves forward: at more progress every
    player and the ball lie between where they were and their `to` positions.
   */
  lemma RenderToward(page: Page, c1: Cursor, c2: Cursor)
    requires page.Session? && Valid(c1, |page.scenes|) && Valid(c2, |page.scenes|)
    requires c1.sceneIndex == c2.sceneIndex && c1.progress <= c2.progress
    ensures var f1, f2 := Render(page, c1), Render(page, c2);
      var to := page.scenes[c1.sceneIndex + 1];
      && (forall i :: 0 <= i < |page.roster| ==>
        PointBetween(Pos(f1.players[i]), Pos(f2.players[i]), Endpoint(to.players, page.roster[i])))
      && PointBetween(f1.ball, f2.ball, to.ball)
  {
    EaseMonotone(c1.progress, c2.progress);
    var from, to := page.scenes[c1.sceneIndex], page.scenes[c1.sceneIndex + 1];
    InterpToward(page.roster, from, to, Ease(c1.progress), Ease(c2.progress));
  }
}
