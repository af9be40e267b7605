/**
  The draw toolbar: two toggle buttons arm the pass or the run arrow, a
  third disarms both, and a "clear arrows" button is offered only when the
  editor supplies a handler for it.
 */
module DrawToolbar {
  import opened Wrappers
  import opened Types
  import Board

  /** The Pass button: pressing it while armed for passes disarms, otherwise it arms for passes. */
  function PressPass(m: DrawMode): (m': DrawMode)
    ensures m == PassMode ==> m' == NoMode
    ensures m != PassMode ==> m' == PassMode
  {
    if m == PassMode then NoMode else PassMode
  }

  /** The Run button: pressing it while armed for runs disarms, otherwise it arms for runs. */
  function PressRun(m: DrawMode): (m': DrawMode)
    ensures m == RunMode ==> m' == NoMode
    ensures m != RunMode ==> m' == RunMode
  {
    if m == RunMode then NoMode else RunMode
  }

  /** "Close mode": disarm, from any mode. */
  function CloseMode(m: DrawMode): (m': DrawMode)
    ensures m' == NoMode
  {
    NoMode
  }

  /** What the toolbar shows: the two buttons' pressed state and whether "clear" is there. */
  datatype ToolbarView = ToolbarView(passPressed: bool, runPressed: bool, clearShown: bool)

  function View(m: DrawMode, hasClearHandler: bool): (v: ToolbarView)
    ensures v.passPressed <==> m == PassMode
    ensures v.runPressed <==> m == RunMode
    ensures v.clearShown <==> hasClearHandler
  {
    ToolbarView(m == PassMode, m == RunMode, hasClearHandler)
  }

  /** The two toggles are never shown pressed together, and neither is when disarmed. */
  lemma NeverBothPressed(m: DrawMode, hasClearHandler: bool)
    ensures !(View(m, hasClearHandler).passPressed && View(m, hasClearHandler).runPressed)
    ensures m == NoMode <==> !View(m, hasClearHandler).passPressed && !View(m, hasClearHandler).runPressed
  {
  }

  /**
    Pressing a toggle flips its own pressed state and releases the other
    one; pressing the same toggle twice returns to where it started unless
    the other toggle was armed, in which case it ends disarmed.
   */
  lemma TogglesFlip(m: DrawMode)
    ensures View(PressPass(m), false).passPressed == !View(m, false).passPressed
    ensures View(PressRun(m), false).runPressed == !View(m, false).runPressed
    ensures !View(PressPass(m), false).runPressed && !View(PressRun(m), false).passPressed
    ensures PressPass(PressPass(m)) == (if m == RunMode then NoMode else m)
    ensures PressRun(PressRun(m)) == (if m == PassMode then NoMode else m)
  {
  }

  /**
    With the Pass button pressed once from a disarmed toolbar, the next
    arrow drawn on the board is a straight pass; with the Run button, it is
    a run, curved exactly when the curve box is ticked.
   */
  lemma ToolbarDrivesBoard(p1: Board.Pixel, p2: Board.Pixel, d: Board.Dims, runCurved: bool, id1: string, id2: string)
    requires Board.Positive(d)
    ensures var m := PressPass(NoMode);
      var c1 := Board.StageClick(Board.Idle, m, Some(p1), d, runCurved, id1);
      var a := Board.StageClick(c1.drawing, m, Some(p2), d, runCurved, id2).arrow;
      a.Some? && a.value.kind == PassArrow && !a.value.curved
    ensures var m := PressRun(NoMode);
      var c1 := Board.StageClick(Board.Idle, m, Some(p1), d, runCurved, id1);
      var a := Board.StageClick(c1.drawing, m, Some(p2), d, runCurved, id2).arrow;
      a.Some? && a.value.kind == RunArrow && a.value.curved == runCurved
    ensures var m := CloseMode(PressRun(NoMode));
      Board.StageClick(Board.Idle, m, Some(p1), d, runCurved, id1).drawing == Board.Idle
  {
  }
}
