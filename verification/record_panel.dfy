/**
  The recording panel: which of its four buttons (undo, clear, save scene,
  finish) are enabled for a given recorder, and what pressing an enabled
  button does to the recorder.
 */
module RecordPanel {
  import opened Types
  import opened Recorder

  /** The enabled state of the panel's buttons and its counter. */
  datatype PanelView = PanelView(count: nat, capacity: nat, undo: bool, clear: bool, save: bool, finish: bool)

  function View(r: Recorder): (v: PanelView)
    ensures v.count == |r.scenes| && v.capacity == r.maxScenes
    ensures v.save <==> |r.scenes| < r.maxScenes
    ensures v.undo <==> |r.scenes| != 0
    ensures v.clear <==> |r.scenes| != 0
    ensures v.finish <==> |r.scenes| >= 2
  {
    var n := |r.scenes|;
    PanelView(n, r.maxScenes, !(n == 0), !(n == 0), !(n >= r.maxScenes), !(n < 2))
  }

  /** Whenever "save scene" is enabled, the append it leads to grows the list by exactly one. */
  lemma SaveEnabledGrows(r: Recorder, frame: SceneFrame)
    requires View(r).save
    ensures |AddScene(r, frame).scenes| == |r.scenes| + 1
    ensures AddScene(r, frame).scenes[|r.scenes|] == frame
  {
  }

  /** When "save scene" is disabled, an append would change nothing. */
  lemma SaveDisabledInert(r: Recorder, frame: SceneFrame)
    requires !View(r).save
    ensures AddScene(r, frame) == r
  {
  }

  /** Whenever "undo" is enabled, it shortens the list by exactly one; when disabled it would change nothing. */
  lemma UndoMatchesButton(r: Recorder)
    ensures View(r).undo ==> |RemoveLast(r).scenes| == |r.scenes| - 1
    ensures !View(r).undo ==> RemoveLast(r) == r
  {
  }

  /** "Clear" is disabled exactly when clearing would change nothing. */
  lemma ClearMatchesButton(r: Recorder)
    ensures !View(r).clear <==> ClearScenes(r) == r
  {
  }
}
