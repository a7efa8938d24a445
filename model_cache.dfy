/** The two memo tables of client/src/ai/utils/frameworkSwitcher.js. Each of
    `createSelfieSegmenter` and `createFaceLandmarker` closes over its own
    `models` object, keyed by framework name. The backend factories are
    opaque: the object a factory would return (or null when it fails) is
    handed in, and a call log records which factory actually ran. */
module ModelCache {
  import opened Json

  /** A loaded model object, as an opaque handle. */
  datatype Model = Model(handle: nat)

  /** `models[framework]`: undefined (never stored), null (a factory failed)
      or a model object. */
  datatype Entry = Missing | NullModel | Loaded(model: Model)

  /** What a factory resolves to: a model, or null after it caught an error
      (client/src/ai/mediapipe.js:98-101 and its tfjs/onnx counterparts). */
  datatype Created = Failed | Made(model: Model)

  datatype Factory =
    | SelfieSegmenterMediapipe
    | SelfieSegmenterTF
    | SelfieSegmenterONNX
    | FaceLandmarkerMediapipe

  /** One call of a memoised creator: the table afterwards, the factory it
      ran (if any) and what it returned. */
  datatype Step = Step(models: map<string, Entry>, called: Option<Factory>, result: Entry)

  function Lookup(models: map<string, Entry>, framework: string): Entry {
    if framework in models then models[framework] else Missing
  }

  /** Whether `models[framework]` is truthy: only a model object is. */
  predicate IsModel(e: Entry) {
    e.Loaded?
  }

  function Stored(c: Created): Entry {
    match c
    case Failed => NullModel
    case Made(m) => Loaded(m)
  }

  /** The `switch (framework)` of lines 10-22. */
  function SegmenterFactory(framework: string): (f: Option<Factory>)
    ensures f.Some? <==> framework in {"mediapipe", "tfjs", "onnx"}
  {
    if framework == "mediapipe" then Some(SelfieSegmenterMediapipe)
    else if framework == "tfjs" then Some(SelfieSegmenterTF)
    else if framework == "onnx" then Some(SelfieSegmenterONNX)
    else None
  }

  /** `createSelfieSegmenter(framework)` (lines 8-26), on the table's value. */
  function SegmenterStep(models: map<string, Entry>, framework: string, created: Created): (s: Step)
    ensures s.called.Some? ==> !IsModel(Lookup(models, framework))
    ensures forall k :: k != framework ==> Lookup(s.models, k) == Lookup(models, k)
    ensures s.result == Lookup(s.models, framework)
  {
    if !IsModel(Lookup(models, framework)) && SegmenterFactory(framework).Some? then
      var m := models[framework := Stored(created)];
      Step(m, SegmenterFactory(framework), Lookup(m, framework))
    else
      Step(models, None, Lookup(models, framework))
  }

  /** `createFaceLandmarker(framework)` (lines 32-38), on the table's value. */
  function LandmarkerStep(models: map<string, Entry>, framework: string, created: Created): (s: Step)
    ensures s.called.Some? ==> !IsModel(Lookup(models, "mediapipe"))
    ensures forall k :: k != "mediapipe" ==> Lookup(s.models, k) == Lookup(models, k)
  {
    if !IsModel(Lookup(models, framework)) && framework == "mediapipe" then
      var m := models[framework := Stored(created)];
      Step(m, Some(FaceLandmarkerMediapipe), Lookup(m, "mediapipe"))
    else
      Step(models, None, Lookup(models, "mediapipe"))
  }

  /** A cached model object is returned as it is and no factory runs. */
  lemma SegmenterHit(models: map<string, Entry>, framework: string, created: Created)
    requires IsModel(Lookup(models, framework))
    ensures SegmenterStep(models, framework, created) == Step(models, None, models[framework])
  {
  }

  /** On a miss for a known framework exactly the matching factory runs, and
      what it returns is stored under that framework and returned; no other
      entry changes. */
  lemma SegmenterMiss(models: map<string, Entry>, framework: string, created: Created)
    requires !IsModel(Lookup(models, framework))
    requires framework in {"mediapipe", "tfjs", "onnx"}
    ensures var s := SegmenterStep(models, framework, created);
      && s.called == SegmenterFactory(framework)
      && s.models == models[framework := Stored(created)]
      && s.result == Stored(created)
      && (framework == "mediapipe" <==> s.called == Some(SelfieSegmenterMediapipe))
      && (framework == "tfjs" <==> s.called == Some(SelfieSegmenterTF))
      && (framework == "onnx" <==> s.called == Some(SelfieSegmenterONNX))
  {
  }

  /** An unknown framework runs no factory, stores nothing and returns
      whatever the table holds under that name. */
  lemma SegmenterUnknown(models: map<string, Entry>, framework: string, created: Created)
    requires framework !in {"mediapipe", "tfjs", "onnx"}
    ensures SegmenterStep(models, framework, created) == Step(models, None, Lookup(models, framework))
  {
  }

  /** A failed factory leaves null in the table, which is falsy, so the next
      call for the same framework runs the factory again. */
  lemma SegmenterRetriesAfterFailure(models: map<string, Entry>, framework: string,
                                     next: Created)
    requires framework in {"mediapipe", "tfjs", "onnx"}
    requires !IsModel(Lookup(models, framework))
    ensures var first := SegmenterStep(models, framework, Failed);
      && first.result == NullModel
      && first.called.Some?
      && SegmenterStep(first.models, framework, next).called == first.called
      && SegmenterStep(first.models, framework, next).result == Stored(next)
  {
    var first := SegmenterStep(models, framework, Failed);
    assert first.models == models[framework := NullModel];
    assert Lookup(first.models, framework) == NullModel;
  }

  /** Once a model object is stored, later calls return it without creating. */
  lemma SegmenterMemoises(models: map<string, Entry>, framework: string,
                          m: Model, next: Created)
    requires framework in {"mediapipe", "tfjs", "onnx"}
    requires !IsModel(Lookup(models, framework))
    ensures var first := SegmenterStep(models, framework, Made(m));
      && first.result == Loaded(m)
      && SegmenterStep(first.models, framework, next) == Step(first.models, None, Loaded(m))
  {
    var first := SegmenterStep(models, framework, Made(m));
    assert Lookup(first.models, framework) == Loaded(m);
  }

  /** Whatever the argument, the face landmarker returned is the entry under
      "mediapipe"; it creates only for "mediapipe" on a miss, and otherwise
      leaves its table as it was. */
  lemma LandmarkerAlwaysMediapipe(models: map<string, Entry>, framework: string, created: Created)
    ensures var s := LandmarkerStep(models, framework, created);
      && s.result == Lookup(s.models, "mediapipe")
      && (s.called.Some? <==> framework == "mediapipe" && !IsModel(Lookup(models, "mediapipe")))
      && (s.called.Some? ==> s.called == Some(FaceLandmarkerMediapipe) &&
                              s.models == models["mediapipe" := Stored(created)] &&
                              s.result == Stored(created))
      && (s.called.None? ==> s.models == models && s.result == Lookup(models, "mediapipe"))
  {
  }

  /** `createSelfieSegmenter`'s closure: its `models` object and the
      factories it has run. */
  class SegmenterCache {
    var models: map<string, Entry>
    var calls: seq<Factory>

    constructor ()
      ensures models == map[] && calls == []
    {
      models, calls := map[], [];
    }

    method Create(framework: string, created: Created) returns (r: Entry)
      modifies this
      ensures var s := SegmenterStep(old(models), framework, created);
        && models == s.models && r == s.result
        && calls == old(calls) + (if s.called.Some? then [s.called.value] else [])
    {
      if !IsModel(Lookup(models, framework)) {
        var factory := SegmenterFactory(framework);
        match factory
        case Some(f) =>
          models := models[framework := Stored(created)];
          calls := calls + [f];
        case None =>
          // unknown framework: nothing stored
      }
      r := Lookup(models, framework);
    }
  }

  /** `createFaceLandmarker`'s closure, with a table of its own. */
  class LandmarkerCache {
    var models: map<string, Entry>
    var calls: seq<Factory>

    constructor ()
      ensures models == map[] && calls == []
    {
      models, calls := map[], [];
    }

    method Create(framework: string, created: Created) returns (r: Entry)
      modifies this
      ensures var s := LandmarkerStep(old(models), framework, created);
        && models == s.models && r == s.result
        && calls == old(calls) + (if s.called.Some? then [s.called.value] else [])
    {
      if !IsModel(Lookup(models, framework)) && framework == "mediapipe" {
        models := models[framework := Stored(created)];
        calls := calls + [FaceLandmarkerMediapipe];
      }
      r := Lookup(models, "mediapipe");
    }
  }

  /** The two tables are separate objects: creating a landmarker leaves the
      segmenter table and its call log untouched, and the other way round. */
  method InitializeBoth(segmenters: SegmenterCache, landmarkers: LandmarkerCache, framework: string,
                        landmarker: Created, segmenter: Created)
    returns (l: Entry, s: Entry)
    modifies segmenters, landmarkers
    ensures var ls := LandmarkerStep(old(landmarkers.models), framework, landmarker);
      landmarkers.models == ls.models && l == ls.result
    ensures var ss := SegmenterStep(old(segmenters.models), framework, segmenter);
      segmenters.models == ss.models && s == ss.result
  {
    l := landmarkers.Create(framework, landmarker);
    s := segmenters.Create(framework, segmenter);
  }
}
