/**
  The board's geometry and its arrow-drawing machine: the canvas size fitted
  to the space available, the scale and the sizes derived from it, the clamp
  that keeps a dragged piece on the canvas, and the two-click creation of an
  arrow.

  Positions on the canvas are pixels; positions in the model of the editor
  are normalised by the canvas size. Sizes are positive (a canvas of zero
  width or height is not modelled).
 */
module Board {
  import opened Wrappers
  import opened Types
  import opened Numeric

  /** The canvas's width over its height. */
  const Ratio: real := 9.0 / 16.0

  /** The canvas size in pixels. */
  datatype Dims = Dims(w: real, h: real)

  /** The size before the first measurement. */
  const InitialDims: Dims := Dims(300.0, 300.0)

  predicate Positive(d: Dims) {
    d.w > 0.0 && d.h > 0.0
  }

  /** A pixel position on the canvas. */
  datatype Pixel = Pixel(x: real, y: real)

  /* ---------------- sizing ---------------- */

  /** The height available: the container's height (the viewport's when that is 0), at most the viewport's. */
  function AvailableHeight(clientHeight: real, viewportHeight: real): (ch: real)
    ensures ch <= viewportHeight
    ensures clientHeight != 0.0 ==> ch == Min(clientHeight, viewportHeight)
    ensures clientHeight == 0.0 ==> ch == viewportHeight
  {
    Min(if clientHeight != 0.0 then clientHeight else viewportHeight, viewportHeight)
  }

  /**
    `compute`: the full container width and the height of that width at the
    board's ratio, unless that height does not fit, in which case the full
    available height and the width of that height.
   */
  function Fit(clientWidth: real, clientHeight: real, viewportHeight: real): (d: Dims)
    ensures d.h <= AvailableHeight(clientHeight, viewportHeight)
    ensures d.w == clientWidth || d.h == AvailableHeight(clientHeight, viewportHeight)
  {
    var ch := AvailableHeight(clientHeight, viewportHeight);
    var h := Round(clientWidth / Ratio) as real;
    if h > ch then Dims(Round(ch * Ratio) as real, ch) else Dims(clientWidth, h)
  }

  /** When the width-derived height fits, the width is the container's and the height keeps the ratio to a pixel. */
  lemma FitKeepsRatio(clientWidth: real, clientHeight: real, viewportHeight: real)
    ensures var d := Fit(clientWidth, clientHeight, viewportHeight);
      var ch := AvailableHeight(clientHeight, viewportHeight);
      && (Round(clientWidth / Ratio) as real <= ch ==> d.w == clientWidth && d.h == Round(clientWidth * 16.0 / 9.0) as real)
      && (Round(clientWidth / Ratio) as real > ch ==> d.h == ch && d.w == Round(ch * 9.0 / 16.0) as real)
  {
    assert clientWidth / Ratio == clientWidth * 16.0 / 9.0;
    var ch := AvailableHeight(clientHeight, viewportHeight);
    assert ch * Ratio == ch * 9.0 / 16.0;
  }

  /** `scale`: the width relative to 390 pixels, kept within 0.75..1.6. */
  function Scale(w: real): (s: real)
    ensures 0.75 <= s <= 1.6
  {
    Max(0.75, Min(1.6, w / 390.0))
  }

  /** The scale follows the width exactly between 292.5 and 624 pixels, and only there. */
  lemma ScaleFollowsWidth(w: real)
    ensures Scale(w) == w / 390.0 <==> 292.5 <= w <= 624.0
    ensures w <= 292.5 ==> Scale(w) == 0.75
    ensures w >= 624.0 ==> Scale(w) == 1.6
  {
  }

  /** The player radius: 14 scaled, never below 14. */
  function PlayerRadius(scale: real): (r: int)
    requires 0.75 <= scale <= 1.6
    ensures 14 <= r <= 22
  {
    Round(Max(14.0, 14.0 * scale))
  }

  /** The ball radius: 10 scaled, never below 10. */
  function BallRadius(scale: real): (r: int)
    requires 0.75 <= scale <= 1.6
    ensures 10 <= r <= 16
  {
    Round(Max(10.0, 10.0 * scale))
  }

  /** The stroke width of a drawn arrow: 4 scaled and rounded, at least 3. */
  function ArrowStroke(scale: real): (s: int)
    requires 0.75 <= scale <= 1.6
    ensures 3 <= s <= 6
  {
    var r := Round(4.0 * scale);
    if 3 >= r then 3 else r
  }

  /** The stroke width of the arrow being drawn: 3 scaled and rounded, at least 2. */
  function GhostStroke(scale: real): (s: int)
    requires 0.75 <= scale <= 1.6
    ensures 2 <= s <= 5
  {
    var r := Round(3.0 * scale);
    if 2 >= r then 2 else r
  }

  /** Before the first measurement the canvas is 300 by 300, and pieces have their base radii. */
  lemma InitialSizes()
    ensures Scale(InitialDims.w) == 300.0 / 390.0
    ensures PlayerRadius(Scale(InitialDims.w)) == 14 && BallRadius(Scale(InitialDims.w)) == 10
  {
    RoundInteger(14);
    RoundInteger(10);
  }

  /** Sizes grow with the canvas: a wider canvas never has smaller pieces or strokes. */
  lemma SizesMonotone(w1: real, w2: real)
    requires w1 <= w2
    ensures Scale(w1) <= Scale(w2)
    ensures PlayerRadius(Scale(w1)) <= PlayerRadius(Scale(w2))
    ensures BallRadius(Scale(w1)) <= BallRadius(Scale(w2))
    ensures ArrowStroke(Scale(w1)) <= ArrowStroke(Scale(w2))
    ensures GhostStroke(Scale(w1)) <= GhostStroke(Scale(w2))
  {
    var s1, s2 := Scale(w1), Scale(w2);
    assert s1 <= s2;
    RoundMonotone(Max(14.0, 14.0 * s1), Max(14.0, 14.0 * s2));
    RoundMonotone(Max(10.0, 10.0 * s1), Max(10.0, 10.0 * s2));
    RoundMonotone(4.0 * s1, 4.0 * s2);
    RoundMonotone(3.0 * s1, 3.0 * s2);
  }

  /* ---------------- dragging ---------------- */

  /** `boundGeneric(pad)`: each coordinate clamped to `pad` from the canvas's edges; the far edge wins when they cross. */
  function BoundGeneric(d: Dims, pad: real, pos: Pixel): (q: Pixel)
    ensures q.x <= d.w - pad && q.y <= d.h - pad
    ensures 2.0 * pad <= d.w ==> pad <= q.x
    ensures 2.0 * pad <= d.h ==> pad <= q.y
  {
    Pixel(Min(Max(pos.x, pad), d.w - pad), Min(Max(pos.y, pad), d.h - pad))
  }

  /** The clamp leaves a point alone exactly when it already lies inside the band, and clamping twice is clamping once. */
  lemma BoundFacts(d: Dims, pad: real, pos: Pixel)
    requires 2.0 * pad <= d.w && 2.0 * pad <= d.h
    ensures BoundGeneric(d, pad, pos) == pos <==> pad <= pos.x <= d.w - pad && pad <= pos.y <= d.h - pad
    ensures BoundGeneric(d, pad, BoundGeneric(d, pad, pos)) == BoundGeneric(d, pad, pos)
  {
  }

  /** The clamp moves a point no further than to the nearest point of the band. */
  lemma BoundNearest(d: Dims, pad: real, pos: Pixel, inside: Pixel)
    requires pad <= inside.x <= d.w - pad && pad <= inside.y <= d.h - pad
    ensures var q := BoundGeneric(d, pad, pos);
      Abs(q.x - pos.x) <= Abs(inside.x - pos.x) && Abs(q.y - pos.y) <= Abs(inside.y - pos.y)
  {
  }

  function Abs(x: real): real {
    if x < 0.0 then -x else x
  }

  /** The normalised position a drag reports: the clamped pixel divided by the canvas size. */
  function Normalise(d: Dims, p: Pixel): (pt: Point)
    requires Positive(d)
    ensures pt.nx * d.w == p.x && pt.ny * d.h == p.y
  {
    Point(p.x / d.w, p.y / d.h)
  }

  /** Normalising a pixel and placing it again gives the pixel back. */
  lemma PlaceNormalise(d: Dims, p: Pixel)
    requires Positive(d)
    ensures Place(d, Normalise(d, p)) == p
  {
  }

  /** Where the board draws the ball or an arrow end: the normalised point scaled, unrounded. */
  function Place(d: Dims, pt: Point): (q: Pixel)
    ensures Positive(d) ==> Normalise(d, q) == pt
  {
    Pixel(pt.nx * d.w, pt.ny * d.h)
  }

  /** Where the board draws a player: each scaled coordinate rounded to a whole pixel. */
  function PlayerPixel(d: Dims, pt: Point): (q: Pixel)
    ensures Abs(q.x - pt.nx * d.w) <= 0.5 && Abs(q.y - pt.ny * d.h) <= 0.5
    ensures q.x == (q.x.Floor as real) && q.y == (q.y.Floor as real)
  {
    Pixel(Round(pt.nx * d.w) as real, Round(pt.ny * d.h) as real)
  }

  /** A dragged player: `onMovePlayer` receives its clamped position, normalised. */
  function DragPlayer(d: Dims, pos: Pixel): (pt: Point)
    requires Positive(d)
    ensures Place(d, pt) == BoundGeneric(d, PlayerRadius(Scale(d.w)) as real + 2.0, pos)
  {
    var pad := PlayerRadius(Scale(d.w)) as real + 2.0;
    var q := BoundGeneric(d, pad, pos);
    PlaceNormalise(d, q);
    Normalise(d, q)
  }

  /** A dragged ball: `onMoveBall` receives its clamped position, normalised. */
  function DragBall(d: Dims, pos: Pixel): (pt: Point)
    requires Positive(d)
    ensures Place(d, pt) == BoundGeneric(d, BallRadius(Scale(d.w)) as real + 2.0, pos)
  {
    var pad := BallRadius(Scale(d.w)) as real + 2.0;
    var q := BoundGeneric(d, pad, pos);
    PlaceNormalise(d, q);
    Normalise(d, q)
  }

  /**
    On a canvas big enough for a piece, wherever a player or the ball is
    dragged the editor stores a point strictly inside the pitch. The board
    draws the ball back exactly at the clamped pixel, and a player within
    half a pixel of it on each axis, since player positions are rounded.
   */
  lemma DragStaysOnPitch(d: Dims, pos: Pixel)
    requires Positive(d) && d.w >= 48.0 && d.h >= 48.0
    ensures var pt := DragPlayer(d, pos);
      0.0 < pt.nx < 1.0 && 0.0 < pt.ny < 1.0
    ensures var pt := DragBall(d, pos);
      0.0 < pt.nx < 1.0 && 0.0 < pt.ny < 1.0
    ensures Place(d, DragBall(d, pos)) == BoundGeneric(d, BallRadius(Scale(d.w)) as real + 2.0, pos)
    ensures var q := PlayerPixel(d, DragPlayer(d, pos));
      var b := BoundGeneric(d, PlayerRadius(Scale(d.w)) as real + 2.0, pos);
      Abs(q.x - b.x) <= 0.5 && Abs(q.y - b.y) <= 0.5
  {
    var s := Scale(d.w);
    var pr := PlayerRadius(s);
    var br := BallRadius(s);
    assert 0.0 < pr as real + 2.0 <= 24.0;
    assert 0.0 < br as real + 2.0 <= 24.0;
    ClampedInsideUnit(d, pr as real + 2.0, pos);
    ClampedInsideUnit(d, br as real + 2.0, pos);
    RoundedNear(d, DragPlayer(d, pos), BoundGeneric(d, pr as real + 2.0, pos));
  }

  /** A player whose point places at pixel `b` is drawn within half a pixel of `b` on each axis. */
  lemma RoundedNear(d: Dims, pt: Point, b: Pixel)
    requires Place(d, pt) == b
    ensures Abs(PlayerPixel(d, pt).x - b.x) <= 0.5 && Abs(PlayerPixel(d, pt).y - b.y) <= 0.5
  {
  }

  lemma ClampedInsideUnit(d: Dims, pad: real, pos: Pixel)
    requires Positive(d) && 0.0 < pad && 2.0 * pad <= d.w && 2.0 * pad <= d.h
    ensures var pt := Normalise(d, BoundGeneric(d, pad, pos));
      0.0 < pt.nx < 1.0 && 0.0 < pt.ny < 1.0
    ensures Place(d, Normalise(d, BoundGeneric(d, pad, pos))) == BoundGeneric(d, pad, pos)
  {
    var q := BoundGeneric(d, pad, pos);
    UnitFraction(q.x, d.w);
    UnitFraction(q.y, d.h);
    PlaceNormalise(d, q);
  }

  lemma UnitFraction(a: real, w: real)
    requires 0.0 < a < w
    ensures 0.0 < a / w < 1.0
  {
    var r := a / w;
    assert r * w == a;
    assert (1.0 - r) * w == w - a;
    PositiveFactor(1.0 - r, w);
    PositiveQuotient(a, w);
  }

  lemma PositiveFactor(x: real, y: real)
    requires y > 0.0 && x * y > 0.0
    ensures x > 0.0
  {
    assert x == (x * y) / y;
    PositiveQuotient(x * y, y);
  }

  lemma PositiveQuotient(x: real, y: real)
    requires x > 0.0 && y > 0.0
    ensures x / y > 0.0
  {
  }

  /* ---------------- drawing arrows ---------------- */

  /** `tempStart` and `tempPos`: the first click of an arrow in progress and the pointer since. */
  datatype Drawing = Drawing(start: Option<Pixel>, pos: Option<Pixel>)

  const Idle: Drawing := Drawing(None, None)

  /** An arrow is in progress exactly when both are set. */
  predicate Consistent(s: Drawing) {
    s.start.None? <==> s.pos.None?
  }

  /** A click's new drawing state and the arrow it hands to `onAddArrow`, if any. */
  datatype Click = Click(drawing: Drawing, arrow: Option<Arrow>)

  /**
    `handleStageClick`: with no mode or no pointer nothing happens; the first
    click starts an arrow at the pointer; the second emits the arrow from the
    start to the pointer and goes back to idle. `arrowId` is the clock- and
    random-based id.
   */
  function StageClick(s: Drawing, mode: DrawMode, pointer: Option<Pixel>, d: Dims, runCurved: bool, arrowId: string): (c: Click)
    requires Positive(d)
    ensures mode == NoMode || pointer.None? ==> c == Click(s, None)
    ensures mode != NoMode && pointer.Some? && s.start.None? ==>
      c == Click(Drawing(pointer, pointer), None)
    ensures c.arrow.Some? <==> mode != NoMode && pointer.Some? && s.start.Some?
    ensures c.arrow.Some? ==>
      && c.drawing == Idle
      && c.arrow.value.id == arrowId
      && Place(d, c.arrow.value.from) == s.start.value
      && Place(d, c.arrow.value.to) == pointer.value
      && (c.arrow.value.kind == PassArrow <==> mode == PassMode)
      && c.arrow.value.curved == (mode == RunMode && runCurved)
  {
    if mode == NoMode || pointer.None? then Click(s, None)
    else if s.start.None? then Click(Drawing(pointer, pointer), None)
    else
      var from := Normalise(d, s.start.value);
      var to := Normalise(d, pointer.value);
      var kind := if mode == PassMode then PassArrow else RunArrow;
      var curved := if mode == RunMode then runCurved else false;
      Click(Idle, Some(Arrow(arrowId, kind, from, to, curved)))
  }

  /** `handleMouseMove`: the pointer is followed only while an arrow is in progress. */
  function MouseMove(s: Drawing, pointer: Option<Pixel>): (s': Drawing)
    ensures s'.start == s.start
    ensures s.start.Some? && pointer.Some? ==> s'.pos == pointer
    ensures s.start.None? || pointer.None? ==> s' == s
  {
    if s.start.None? || pointer.None? then s else s.(pos := pointer)
  }

  /** Clicks and moves keep the two temporary points set together. */
  lemma DrawingConsistent(s: Drawing, mode: DrawMode, pointer: Option<Pixel>, d: Dims, runCurved: bool, arrowId: string)
    requires Positive(d) && Consistent(s)
    ensures Consistent(StageClick(s, mode, pointer, d, runCurved, arrowId).drawing)
    ensures Consistent(MouseMove(s, pointer))
  {
  }

  /**
    From idle, two clicks in the same mode emit one arrow from the first
    pointer to the second, and only the second click emits anything.
   */
  lemma TwoClicksDrawOneArrow(mode: DrawMode, p1: Pixel, p2: Pixel, d: Dims, runCurved: bool, id1: string, id2: string)
    requires Positive(d) && mode != NoMode
    ensures var c1 := StageClick(Idle, mode, Some(p1), d, runCurved, id1);
      var c2 := StageClick(c1.drawing, mode, Some(p2), d, runCurved, id2);
      && c1.arrow.None? && c2.arrow.Some? && c2.drawing == Idle
      && GhostVisible(c1.drawing, mode) && !GhostVisible(c2.drawing, mode)
      && Place(d, c2.arrow.value.from) == p1 && Place(d, c2.arrow.value.to) == p2
  {
  }

  /** Moves in between the two clicks change the ghost line only, never the arrow. */
  lemma MovesDoNotShiftArrow(mode: DrawMode, p1: Pixel, m: Option<Pixel>, p2: Pixel, d: Dims, runCurved: bool, id1: string, id2: string)
    requires Positive(d) && mode != NoMode
    ensures var c1 := StageClick(Idle, mode, Some(p1), d, runCurved, id1);
      StageClick(MouseMove(c1.drawing, m), mode, Some(p2), d, runCurved, id2)
        == StageClick(c1.drawing, mode, Some(p2), d, runCurved, id2)
  {
  }

  /** The dashed ghost line is drawn while a mode is armed and an arrow is in progress. */
  predicate GhostVisible(s: Drawing, mode: DrawMode) {
    mode != NoMode && s.start.Some? && s.pos.Some?
  }
}
