/** The parameter record of the interactive tuner, its JSON dictionary form
    (`asdict` and `DetectionParams(**data)`), and the tuner's state: each
    slider move re-runs detection with parameters read from the sliders and
    stores the parameters and the blobs together, the Accept button finishes,
    and `run` returns the stored blobs and parameters. The image and its
    OpenCV processing are the `Segmenter` of the threshold optimizer. */
module Tuner {
  import opened Common
  import opened Config
  import opened Detection
  import opened Filtering
  import opened ThresholdOptimizer

  /** A Python number as `json` writes and reads it: an int (`5`) or a float
      (`5.0`). The float fields of `DetectionParams` hold whichever they were
      given: the int defaults 5 and 200, a slider's float position, or the
      number a JSON file stored. */
  datatype JsonNumber = JsonInt(i: int) | JsonFloat(f: real)

  function NumericValue(v: JsonNumber): real {
    match v
    case JsonInt(i) => i as real
    case JsonFloat(f) => f
  }

  /** The `DetectionParams` dataclass. */
  datatype DetectionParams = DetectionParams(
    claheClip: JsonNumber,
    tophatKernel: int,
    medianKernel: int,
    threshold: int,
    morphIter: int,
    minDiam: JsonNumber,
    maxDiam: JsonNumber)

  /** `DetectionParams()`: the field defaults; `min_diam` and `max_diam`
      default to the ints 5 and 200, `clahe_clip` to the float 2.0. */
  function DefaultParams(): (p: DetectionParams)
    ensures NumericValue(p.minDiam) <= NumericValue(p.maxDiam)
    ensures p.minDiam.JsonInt? && p.maxDiam.JsonInt? && p.claheClip.JsonFloat?
    ensures ValidKernel(p.tophatKernel) && ValidKernel(p.medianKernel)
    ensures 1 <= p.threshold <= 255
  {
    DetectionParams(JsonFloat(2.0), 15, 3, 80, 2, JsonInt(5), JsonInt(200))
  }

  // ---------------------------------------------------------------------------
  // The dictionary form written by `save_params` and read by `load_params`

  const FloatKeys: set<string> := {"clahe_clip", "min_diam", "max_diam"}
  const IntKeys: set<string> := {"tophat_kernel", "median_kernel", "threshold", "morph_iter"}
  const ParamKeys: set<string> := FloatKeys + IntKeys

  /** Why `DetectionParams(**data)` cannot build a record. */
  datatype ParamsError =
    | UnexpectedKeywords(keys: set<string>)
    | NotAnInteger(key: string)

  /** `asdict(params)`: one entry per field, the int fields written as ints
      and each float field as the number it holds. */
  function AsDict(p: DetectionParams): (d: map<string, JsonNumber>)
    ensures d.Keys == ParamKeys
    ensures forall k :: k in IntKeys ==> d[k].JsonInt?
  {
    map[
      "clahe_clip" := p.claheClip,
      "tophat_kernel" := JsonInt(p.tophatKernel),
      "median_kernel" := JsonInt(p.medianKernel),
      "threshold" := JsonInt(p.threshold),
      "morph_iter" := JsonInt(p.morphIter),
      "min_diam" := p.minDiam,
      "max_diam" := p.maxDiam]
  }

  /** A float field: the stored number as it is, or its default. */
  function FloatField(d: map<string, JsonNumber>, key: string, default: JsonNumber): JsonNumber {
    if key in d then d[key] else default
  }

  /** An integer field: present and integral, or its default. */
  function IntField(d: map<string, JsonNumber>, key: string, default: int): Result<int, ParamsError> {
    if key !in d then Ok(default)
    else match d[key]
      case JsonInt(i) => Ok(i)
      case JsonFloat(_) => Err(NotAnInteger(key))
  }

  /** `DetectionParams(**data)`: an unknown key is a TypeError, a missing key
      takes the field's default. */
  function FromDict(d: map<string, JsonNumber>): (r: Result<DetectionParams, ParamsError>)
    ensures r.Ok? <==> d.Keys <= ParamKeys && forall k :: k in IntKeys && k in d ==> d[k].JsonInt?
    ensures !(d.Keys <= ParamKeys) ==> r == Err(UnexpectedKeywords(d.Keys - ParamKeys))
  {
    if !(d.Keys <= ParamKeys) then Err(UnexpectedKeywords(d.Keys - ParamKeys))
    else
      var dp := DefaultParams();
      var tophat := IntField(d, "tophat_kernel", dp.tophatKernel);
      var median := IntField(d, "median_kernel", dp.medianKernel);
      var threshold := IntField(d, "threshold", dp.threshold);
      var morph := IntField(d, "morph_iter", dp.morphIter);
      if tophat.Err? then Err(tophat.error)
      else if median.Err? then Err(median.error)
      else if threshold.Err? then Err(threshold.error)
      else if morph.Err? then Err(morph.error)
      else Ok(DetectionParams(
        FloatField(d, "clahe_clip", dp.claheClip),
        tophat.value,
        median.value,
        threshold.value,
        morph.value,
        FloatField(d, "min_diam", dp.minDiam),
        FloatField(d, "max_diam", dp.maxDiam)))
  }

  /** Saving and loading gives back the same record. */
  lemma LoadSaved(p: DetectionParams)
    ensures FromDict(AsDict(p)) == Ok(p)
  {
    assert AsDict(p).Keys <= ParamKeys;
  }

  /** An empty dictionary loads as the defaults. */
  lemma LoadEmpty()
    ensures FromDict(map[]) == Ok(DefaultParams())
  {
  }

  /** Loading and saving again writes back exactly the entries that were
      read, ints as ints and floats as floats, with the defaults for the
      absent keys. */
  lemma LoadReadsEntries(d: map<string, JsonNumber>)
    requires FromDict(d).Ok?
    ensures AsDict(FromDict(d).value) == AsDict(DefaultParams()) + d
  {
    var dp := DefaultParams();
    var p := FromDict(d).value;
    assert p.claheClip == FloatField(d, "clahe_clip", dp.claheClip);
    assert p.minDiam == FloatField(d, "min_diam", dp.minDiam);
    assert p.maxDiam == FloatField(d, "max_diam", dp.maxDiam);
    assert Ok(p.tophatKernel) == IntField(d, "tophat_kernel", dp.tophatKernel);
    assert Ok(p.medianKernel) == IntField(d, "median_kernel", dp.medianKernel);
    assert Ok(p.threshold) == IntField(d, "threshold", dp.threshold);
    assert Ok(p.morphIter) == IntField(d, "morph_iter", dp.morphIter);
    var saved := AsDict(p);
    var merged := AsDict(dp) + d;
    assert saved.Keys == merged.Keys;
    forall k | k in saved.Keys ensures saved[k] == merged[k] {
      assert k in ParamKeys;
    }
  }

  /** Parameters accepted with the Min and Max sliders untouched are saved
      with the ints 5 and 200, as the dataclass defaults hold them. */
  lemma DefaultsSavedAsInts()
    ensures AsDict(DefaultParams())["min_diam"] == JsonInt(5)
    ensures AsDict(DefaultParams())["max_diam"] == JsonInt(200)
    ensures AsDict(DefaultParams())["clahe_clip"] == JsonFloat(2.0)
  {
  }

  // ---------------------------------------------------------------------------
  // Parameters read from the sliders

  /** The six slider positions. A slider holds its `valinit` until it is
      moved and a float afterwards; the values read without `int()` keep that
      kind. */
  datatype SliderValues = SliderValues(clahe: JsonNumber, tophat: real, threshold: real, minDiam: JsonNumber, maxDiam: JsonNumber, morph: real)

  /** `valinit` of each slider. */
  function InitialSliders(p: DetectionParams): SliderValues {
    SliderValues(p.claheClip, p.tophatKernel as real, p.threshold as real, p.minDiam, p.maxDiam, p.morphIter as real)
  }

  /** The record `_update_preview` builds: threshold, tophat and morph are
      truncated to integers and the median kernel, which has no slider, is
      carried over from the previous parameters. */
  function ParamsFromSliders(s: SliderValues, previous: DetectionParams): (p: DetectionParams)
    ensures p.medianKernel == previous.medianKernel
    ensures p.claheClip == s.clahe && p.minDiam == s.minDiam && p.maxDiam == s.maxDiam
    ensures s.threshold >= 0.0 ==> p.threshold as real <= s.threshold < p.threshold as real + 1.0
    ensures s.tophat >= 0.0 ==> p.tophatKernel as real <= s.tophat < p.tophatKernel as real + 1.0
    ensures s.morph >= 0.0 ==> p.morphIter as real <= s.morph < p.morphIter as real + 1.0
  {
    DetectionParams(s.clahe, Trunc(s.tophat), previous.medianKernel, Trunc(s.threshold), Trunc(s.morph), s.minDiam, s.maxDiam)
  }

  /** Sliders left at their initial positions reproduce the parameters they
      were initialised from. */
  lemma UntouchedSliders(p: DetectionParams)
    ensures ParamsFromSliders(InitialSliders(p), p) == p
  {
    assert Trunc(p.tophatKernel as real) == p.tophatKernel;
    assert Trunc(p.threshold as real) == p.threshold;
    assert Trunc(p.morphIter as real) == p.morphIter;
  }

  /** The blobs the preview shows for `p`: the material preset with three
      preprocessing fields replaced, the detection defaults with four entries
      replaced, detection and then the `max_blobs` largest. */
  function PreviewBlobs(segment: Segmenter, preset: MaterialPreset, maxBlobs: int, p: DetectionParams): seq<Blob> {
    var proc := WithPreprocessing(preset, NumericValue(p.claheClip), p.tophatKernel, p.medianKernel);
    var config := DetectionFor(p.threshold, p.morphIter, NumericValue(p.minDiam), NumericValue(p.maxDiam));
    FilterBlobs(AcceptedBlobs(segment(proc, config), config.minDiam, config.maxDiam), maxBlobs)
  }

  /** The preview is sorted by decreasing diameter, keeps at most `max_blobs`
      blobs, and every blob lies in the diameter range of `p`. */
  lemma PreviewBounds(segment: Segmenter, preset: MaterialPreset, maxBlobs: int, p: DetectionParams)
    ensures SortedByDiamDesc(PreviewBlobs(segment, preset, maxBlobs, p))
    ensures maxBlobs >= 0 ==> |PreviewBlobs(segment, preset, maxBlobs, p)| <= maxBlobs
    ensures forall b :: b in PreviewBlobs(segment, preset, maxBlobs, p) ==> NumericValue(p.minDiam) <= b.diam <= NumericValue(p.maxDiam)
  {
    var proc := WithPreprocessing(preset, NumericValue(p.claheClip), p.tophatKernel, p.medianKernel);
    var config := DetectionFor(p.threshold, p.morphIter, NumericValue(p.minDiam), NumericValue(p.maxDiam));
    var detected := AcceptedBlobs(segment(proc, config), config.minDiam, config.maxDiam);
    FilterSortedSelection(detected, maxBlobs);
    FilterKeepsInputBlobs(detected, maxBlobs);
    AcceptedInRange(segment(proc, config), config.minDiam, config.maxDiam);
  }

  // ---------------------------------------------------------------------------
  // The tuner's state

  datatype TunerEvent = MoveSliders(values: SliderValues) | AcceptClick | CloseWindow

  datatype TunerState = TunerState(
    params: Option<DetectionParams>,
    finalBlobs: Option<seq<Blob>>,
    finished: bool,
    open: bool,
    sliders: SliderValues)

  /** `_update_preview`: a missing previous record or an unknown material
      raises inside the `try`, and the state stays as it was; otherwise the
      new parameters and their blobs are stored together. */
  function Update(segment: Segmenter, material: string, maxBlobs: int, st: TunerState): TunerState {
    var preset := MaterialPresets(material);
    if st.params.None? || preset.None? then st
    else
      var p := ParamsFromSliders(st.sliders, st.params.value);
      st.(params := Some(p), finalBlobs := Some(PreviewBlobs(segment, preset.value, maxBlobs, p)))
  }

  function OnEvent(segment: Segmenter, material: string, maxBlobs: int, st: TunerState, e: TunerEvent): TunerState {
    match e
    case MoveSliders(v) => Update(segment, material, maxBlobs, st.(sliders := v))
    case AcceptClick => st.(finished := true, open := false)
    case CloseWindow => st.(open := false)
  }

  function Replay(segment: Segmenter, material: string, maxBlobs: int, st: TunerState, events: seq<TunerEvent>): TunerState
    decreases |events|
  {
    if events == [] || st.finished || !st.open then st
    else Replay(segment, material, maxBlobs, OnEvent(segment, material, maxBlobs, st, events[0]), events[1..])
  }

  /** The state right after construction, which runs one preview. */
  function StartState(segment: Segmenter, material: string, maxBlobs: int): TunerState {
    var dp := DefaultParams();
    Update(segment, material, maxBlobs, TunerState(Some(dp), Some([]), false, true, InitialSliders(dp)))
  }

  /** What `run` returns after the events: stored blobs or [], stored
      parameters or the defaults. */
  function Outcome(st: TunerState): (seq<Blob>, DetectionParams) {
    (st.finalBlobs.GetOr([]), st.params.GetOr(DefaultParams()))
  }

  /** `InteractiveTuner(img, material, max_blobs).run()` as a function of the
      events it receives. */
  function TuneOutcome(segment: Segmenter, material: string, maxBlobs: int, events: seq<TunerEvent>): (seq<Blob>, DetectionParams) {
    Outcome(Replay(segment, material, maxBlobs, StartState(segment, material, maxBlobs), events))
  }

  /** The stored blobs are the preview of the stored parameters. */
  ghost predicate InSync(segment: Segmenter, material: string, maxBlobs: int, st: TunerState) {
    st.params.Some? && st.finalBlobs.Some? &&
    (MaterialPresets(material).Some? ==>
      st.finalBlobs.value == PreviewBlobs(segment, MaterialPresets(material).value, maxBlobs, st.params.value))
  }

  class InteractiveTuner {
    const segment: Segmenter
    const material: string
    const maxBlobs: int
    var params: Option<DetectionParams>
    var finalBlobs: Option<seq<Blob>>
    var finished: bool
    /** Whether the figure still exists (`plt.fignum_exists`). */
    var figureOpen: bool
    /** The slider positions. */
    var sliders: SliderValues

    function State(): TunerState
      reads this
    {
      TunerState(params, finalBlobs, finished, figureOpen, sliders)
    }

    /** Starts from the defaults with every slider at its default, then
        previews once. */
    constructor(segment: Segmenter, material: string, maxBlobs: int)
      ensures this.segment == segment && this.material == material && this.maxBlobs == maxBlobs
      ensures State() == StartState(segment, material, maxBlobs)
    {
      this.segment := segment;
      this.material := material;
      this.maxBlobs := maxBlobs;
      params := Some(DefaultParams());
      finalBlobs := Some([]);
      finished := false;
      figureOpen := true;
      sliders := InitialSliders(DefaultParams());
      new;
      UpdatePreview();
    }

    /** `_update_preview` */
    method UpdatePreview()
      modifies this`params, this`finalBlobs
      ensures State() == Update(segment, material, maxBlobs, old(State()))
    {
      if params.None? {
        return;
      }
      var found := MaterialPresets(material);
      if found.None? {
        return;
      }
      var p := ParamsFromSliders(sliders, params.value);
      var preset := WithPreprocessing(found.value, NumericValue(p.claheClip), p.tophatKernel, p.medianKernel);
      var config := DetectionFor(p.threshold, p.morphIter, NumericValue(p.minDiam), NumericValue(p.maxDiam));
      var blobs := DetectBlobs(segment(preset, config), config);
      blobs := FilterBlobs(blobs, maxBlobs);
      finalBlobs := Some(blobs);
      params := Some(p);
    }

    /** `finish`: the Accept button. */
    method Finish()
      modifies this`finished, this`figureOpen
      ensures finished && !figureOpen
    {
      finished := true;
      figureOpen := false;
    }

    /** `run`: handles events until accepted or closed, then replaces missing
        values by the defaults and returns the blobs and the parameters. */
    method Run(events: seq<TunerEvent>) returns (blobs: seq<Blob>, p: DetectionParams)
      modifies this
      ensures var final := Replay(segment, material, maxBlobs, old(State()), events);
        && (blobs, p) == Outcome(final)
        && State() == final.(params := Some(p), finalBlobs := Some(blobs))
    {
      var i := 0;
      while i < |events| && !finished && figureOpen
        invariant 0 <= i <= |events|
        invariant Replay(segment, material, maxBlobs, old(State()), events) == Replay(segment, material, maxBlobs, State(), events[i..])
        decreases |events| - i
      {
        assert events[i..][1..] == events[i + 1..];
        match events[i] {
          case MoveSliders(v) =>
            sliders := v;
            UpdatePreview();
          case AcceptClick => Finish();
          case CloseWindow => figureOpen := false;
        }
        i := i + 1;
      }
      if params.None? {
        params := Some(DefaultParams());
      }
      if finalBlobs.None? {
        finalBlobs := Some([]);
      }
      blobs, p := finalBlobs.value, params.value;
    }
  }

  /** `InteractiveTuner(img, material, max_blobs).run()` */
  method Tune(segment: Segmenter, material: string, maxBlobs: int, events: seq<TunerEvent>) returns (blobs: seq<Blob>, p: DetectionParams)
    ensures (blobs, p) == TuneOutcome(segment, material, maxBlobs, events)
  {
    var tuner := new InteractiveTuner(segment, material, maxBlobs);
    blobs, p := tuner.Run(events);
  }

  // ---------------------------------------------------------------------------
  // What the tuner guarantees

  /** Right after construction, the defaults and their preview are stored. */
  lemma StartsInSync(segment: Segmenter, material: string, maxBlobs: int)
    ensures InSync(segment, material, maxBlobs, StartState(segment, material, maxBlobs))
    ensures StartState(segment, material, maxBlobs).params == Some(DefaultParams())
  {
    UntouchedSliders(DefaultParams());
  }

  lemma {:induction false} ReplayInSync(segment: Segmenter, material: string, maxBlobs: int, st: TunerState, events: seq<TunerEvent>)
    requires InSync(segment, material, maxBlobs, st)
    ensures InSync(segment, material, maxBlobs, Replay(segment, material, maxBlobs, st, events))
    decreases |events|
  {
    if !(events == [] || st.finished || !st.open) {
      ReplayInSync(segment, material, maxBlobs, OnEvent(segment, material, maxBlobs, st, events[0]), events[1..]);
    }
  }

  /** Whatever the user does, the tuner returns blobs that are exactly the
      preview of the parameters it returns (for a known material), sorted
      by decreasing diameter and at most `max_blobs` of them; for an unknown
      material every preview fails and it returns no blobs with the defaults. */
  lemma TuneIsConsistent(segment: Segmenter, material: string, maxBlobs: int, events: seq<TunerEvent>)
    ensures var (blobs, p) := TuneOutcome(segment, material, maxBlobs, events);
      && (MaterialPresets(material).Some? ==> blobs == PreviewBlobs(segment, MaterialPresets(material).value, maxBlobs, p))
      && (MaterialPresets(material).None? ==> blobs == [] && p == DefaultParams())
      && SortedByDiamDesc(blobs)
      && (maxBlobs >= 0 ==> |blobs| <= maxBlobs)
  {
    StartsInSync(segment, material, maxBlobs);
    var start := StartState(segment, material, maxBlobs);
    ReplayInSync(segment, material, maxBlobs, start, events);
    var final := Replay(segment, material, maxBlobs, start, events);
    if MaterialPresets(material).Some? {
      PreviewBounds(segment, MaterialPresets(material).value, maxBlobs, final.params.value);
    } else {
      UnknownMaterialFrozen(segment, material, maxBlobs, start, events);
    }
  }

  /** With an unknown material no event changes the stored values. */
  lemma {:induction false} UnknownMaterialFrozen(segment: Segmenter, material: string, maxBlobs: int, st: TunerState, events: seq<TunerEvent>)
    requires MaterialPresets(material).None?
    ensures Replay(segment, material, maxBlobs, st, events).params == st.params
    ensures Replay(segment, material, maxBlobs, st, events).finalBlobs == st.finalBlobs
    decreases |events|
  {
    if !(events == [] || st.finished || !st.open) {
      UnknownMaterialFrozen(segment, material, maxBlobs, OnEvent(segment, material, maxBlobs, st, events[0]), events[1..]);
    }
  }

  /** Accepting without touching a slider returns the defaults and their preview. */
  lemma AcceptAtOnce(segment: Segmenter, material: string, maxBlobs: int, after: seq<TunerEvent>)
    requires MaterialPresets(material).Some?
    ensures TuneOutcome(segment, material, maxBlobs, [AcceptClick] + after)
      == (PreviewBlobs(segment, MaterialPresets(material).value, maxBlobs, DefaultParams()), DefaultParams())
  {
    StartsInSync(segment, material, maxBlobs);
    var start := StartState(segment, material, maxBlobs);
    var evs := [AcceptClick] + after;
    assert evs[1..] == after;
    assert start.open && !start.finished;
    var closed := start.(finished := true, open := false);
    assert Replay(segment, material, maxBlobs, start, evs) == Replay(segment, material, maxBlobs, closed, after);
    assert Replay(segment, material, maxBlobs, closed, after) == closed;
  }
}
