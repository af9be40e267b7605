/**
  The scene recorder: an ordered list of captured scenes with a capacity
  fixed when the provider is created. Appending at capacity is silently
  ignored; clearing empties the list; undo drops the newest scene.
 */
module Recorder {
  import opened Wrappers
  import opened Types

  const DefaultMaxScenes: nat := 10

  datatype Recorder = Recorder(scenes: seq<SceneFrame>, maxScenes: nat)

  /** The provider's initial state; `max` is the optional `max` prop. */
  function NewRecorder(max: Option<nat>): (r: Recorder)
    ensures r.scenes == []
    ensures max.None? ==> r.maxScenes == 10
    ensures max.Some? ==> r.maxScenes == max.value
  {
    Recorder([], max.GetOr(DefaultMaxScenes))
  }

  /** The recorder never holds more scenes than its capacity. */
  predicate Bounded(r: Recorder) {
    |r.scenes| <= r.maxScenes
  }

  /** `addScene(frame)`: append below capacity, otherwise change nothing. */
  function AddScene(r: Recorder, frame: SceneFrame): (r': Recorder)
    ensures r'.maxScenes == r.maxScenes
    ensures |r.scenes| < r.maxScenes ==> r'.scenes == r.scenes + [frame]
    ensures |r.scenes| >= r.maxScenes ==> r' == r
  {
    if |r.scenes| >= r.maxScenes then r else r.(scenes := r.scenes + [frame])
  }

  /** `clearScenes()`: the list becomes empty, the capacity stays. */
  function ClearScenes(r: Recorder): (r': Recorder)
    ensures r'.scenes == [] && r'.maxScenes == r.maxScenes
  {
    r.(scenes := [])
  }

  /** JavaScript's `s.slice(0, -1)`: the end index is `max(|s| - 1, 0)`. */
  function DropLast<T>(s: seq<T>): seq<T> {
    s[..if |s| == 0 then 0 else |s| - 1]
  }

  /** `removeLast()`: drops exactly the newest scene; on an empty list nothing changes. */
  function RemoveLast(r: Recorder): (r': Recorder)
    ensures r'.maxScenes == r.maxScenes
    ensures |r.scenes| == 0 ==> r' == r
    ensures |r.scenes| > 0 ==> r'.scenes + [r.scenes[|r.scenes| - 1]] == r.scenes
  {
    r.(scenes := DropLast(r.scenes))
  }

  /** The operations the context exposes. */
  datatype Op = Add(frame: SceneFrame) | Clear | Undo

  function Apply(r: Recorder, op: Op): Recorder {
    match op
    case Add(f) => AddScene(r, f)
    case Clear => ClearScenes(r)
    case Undo => RemoveLast(r)
  }

  function Run(r: Recorder, ops: seq<Op>): Recorder
    decreases |ops|
  {
    if |ops| == 0 then r else Run(Apply(r, ops[0]), ops[1..])
  }

  /** Every operation keeps the capacity and the bound. */
  lemma ApplyBounded(r: Recorder, op: Op)
    requires Bounded(r)
    ensures Bounded(Apply(r, op)) && Apply(r, op).maxScenes == r.maxScenes
  {
  }

  /** From a fresh provider, no sequence of operations exceeds the capacity, which never changes. */
  lemma {:induction false} RunBounded(r: Recorder, ops: seq<Op>)
    requires Bounded(r)
    ensures Bounded(Run(r, ops)) && Run(r, ops).maxScenes == r.maxScenes
    decreases |ops|
  {
    if |ops| > 0 {
      ApplyBounded(r, ops[0]);
      RunBounded(Apply(r, ops[0]), ops[1..]);
    }
  }

  /** Undo right after a successful append restores the previous list. */
  lemma AddThenRemoveLast(r: Recorder, frame: SceneFrame)
    requires |r.scenes| < r.maxScenes
    ensures RemoveLast(AddScene(r, frame)) == r
  {
    assert (r.scenes + [frame])[..|r.scenes|] == r.scenes;
  }

  /** Scenario: ten appends at capacity ten fill the recorder and an eleventh changes nothing. */
  lemma EleventhAppendIgnored(frames: seq<SceneFrame>, extra: SceneFrame)
    requires |frames| == 10
    ensures var full := Run(NewRecorder(None), seq(10, i requires 0 <= i < 10 => Add(frames[i])));
      full.scenes == frames && AddScene(full, extra) == full
  {
    var ops := seq(10, i requires 0 <= i < 10 => Add(frames[i]));
    AppendsFill(Recorder([], 10), frames, ops);
    assert [] + frames == frames;
  }

  /** Appending k frames below capacity appends them all, in order. */
  lemma {:induction false} AppendsFill(r: Recorder, frames: seq<SceneFrame>, ops: seq<Op>)
    requires |ops| == |frames| && |r.scenes| + |frames| <= r.maxScenes
    requires forall i :: 0 <= i < |ops| ==> ops[i] == Add(frames[i])
    ensures Run(r, ops) == r.(scenes := r.scenes + frames)
    decreases |ops|
  {
    if |ops| > 0 {
      var r1 := Apply(r, ops[0]);
      assert r1 == r.(scenes := r.scenes + [frames[0]]);
      AppendsFill(r1, frames[1..], ops[1..]);
      assert r.scenes + [frames[0]] + frames[1..] == r.scenes + frames;
    } else {
      assert r.scenes + frames == r.scenes;
    }
  }

  /** The failure `useRecorder` throws outside a provider. */
  const OutsideProvider: string := "useRecorder must be used within SceneRecorderProvider"

  /** `useRecorder()`: the enclosing provider's recorder, or the error when there is none. */
  function UseRecorder(context: Option<Recorder>): (res: Result<Recorder, string>)
    ensures context.Some? <==> res.Success?
    ensures context.Some? ==> res.value == context.value
    ensures context.None? ==> res.error == OutsideProvider
  {
    match context
    case Some(r) => Success(r)
    case None => Failure(OutsideProvider)
  }
}
