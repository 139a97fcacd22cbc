/** `optimize_threshold`: a bounded bisection-style search over thresholds
    1..255 for a target blob count. The search sees one evaluation (preprocess,
    detect, filter) as an `Evaluator`, which need not be monotonic in the
    threshold; `Evaluate` builds it from the OpenCV steps (`Segmenter`), the
    contour loop and `filter_blobs`.
    `Search` is the loop as a function of its state; `RunSearch` is the loop
    itself and is proved to compute `Optimize`, and `OptimizeThreshold` looks
    up and merges the preset before running it. */
module ThresholdOptimizer {
  import opened Common
  import opened Config
  import opened Detection
  import opened Filtering

  const MaxIterations: nat := 12
  const LowestThreshold: int := 1
  const HighestThreshold: int := 255
  /** The threshold reported when no probe beats the unevaluated starting best. */
  const InitialThreshold: int := 128

  /** {'threshold', 'count', 'distance'} */
  datatype HistoryEntry = HistoryEntry(threshold: int, count: nat, distance: nat)

  /** best_threshold, best_count, best_blobs */
  datatype Candidate = Candidate(threshold: int, count: nat, blobs: seq<Blob>)

  /** The returned dictionary. */
  datatype OptimizationResult = OptimizationResult(
    threshold: int,
    blobCount: nat,
    blobs: seq<Blob>,
    history: seq<HistoryEntry>,
    exactMatch: bool)

  /** The loop variables: min_threshold, max_threshold, iterations, the best
      candidate and the history. */
  datatype SearchState = SearchState(lo: int, hi: int, iterations: nat, best: Candidate, history: seq<HistoryEntry>)

  /** The KeyError raised by `MATERIAL_PRESETS[material]`. */
  datatype OptimizerError = UnknownMaterial(material: string)

  /** The keyword arguments of `optimize_threshold` besides the image and the target. */
  datatype OptimizerOptions = OptimizerOptions(
    material: string,
    maxBlobs: int,
    minDiam: real,
    maxDiam: real,
    morphIter: int,
    claheClip: real,
    tophatKernel: int,
    medianKernel: int)

  /** The keyword defaults of `optimize_threshold`. */
  function DefaultOptions(): OptimizerOptions {
    OptimizerOptions("glass", 8, 5.0, 200.0, 2, 2.0, 15, 3)
  }

  /** Preprocessing, closing, binarisation and contour extraction of the
      image, with contour geometry: everything OpenCV does for one detection. */
  type Segmenter = (MaterialPreset, DetectionConfig) -> seq<Contour>

  /** The filtered blobs found at a threshold. */
  type Evaluator = int -> seq<Blob>

  /** The detection dictionary of one probe. */
  function ProbeConfig(threshold: int, opts: OptimizerOptions): DetectionConfig {
    DetectionFor(threshold, opts.morphIter, opts.minDiam, opts.maxDiam)
  }

  /** `filter_blobs(detect_blobs(preprocess(img, preset), config), max_blobs)` at one threshold. */
  function Evaluate(segment: Segmenter, preset: MaterialPreset, opts: OptimizerOptions, threshold: int): seq<Blob> {
    var config := ProbeConfig(threshold, opts);
    FilterBlobs(AcceptedBlobs(segment(preset, config), config.minDiam, config.maxDiam), opts.maxBlobs)
  }

  /** The keyword defaults agree with config.py: the preprocessing values are
      the glass preset's, so the merged preset is that preset unchanged, and a
      probe's dictionary differs from DETECTION_DEFAULTS in its threshold only;
      `max_blobs` is the default "max_blobs" as well. */
  lemma DefaultOptionsAgree(threshold: int)
    ensures var o := DefaultOptions();
      && MaterialPresets(o.material) == Some(GlassPreset)
      && WithPreprocessing(GlassPreset, o.claheClip, o.tophatKernel, o.medianKernel) == GlassPreset
      && ProbeConfig(threshold, o) == DetectionDefaults().(threshold := threshold)
      && o.maxBlobs == DetectionDefaults().maxBlobs
  {
  }

  function EvaluatorFor(segment: Segmenter, preset: MaterialPreset, opts: OptimizerOptions): Evaluator {
    t => Evaluate(segment, preset, opts, t)
  }

  /** Bounds [1, 255], no iteration yet, and the unevaluated best (128, 0, []). */
  function InitialState(): SearchState {
    SearchState(LowestThreshold, HighestThreshold, 0, Candidate(InitialThreshold, 0, []), [])
  }

  /** One pass of the loop body from state `s`: the new state, and whether
      the loop breaks (exact hit, or the bounds crossed). */
  function Step(eval: Evaluator, target: int, s: SearchState): (r: (SearchState, bool))
    ensures r.0.iterations == s.iterations + 1
  {
    var mid := (s.lo + s.hi) / 2;
    var blobs := eval(mid);
    var count := |blobs|;
    var best := if Abs(count - target) < Abs(s.best.count - target) then Candidate(mid, count, blobs) else s.best;
    var next := SearchState(s.lo, s.hi, s.iterations + 1, best, s.history + [HistoryEntry(mid, count, Abs(count - target))]);
    if count == target then (next, true)
    else
      var narrowed := if count < target then next.(hi := mid - 1) else next.(lo := mid + 1);
      (narrowed, narrowed.lo > narrowed.hi)
  }

  /** `Step` field by field: the probe at the midpoint is appended to the
      history, the best candidate is replaced only by a strictly closer count,
      and the bound on the side of the target moves past the midpoint. */
  lemma StepParts(eval: Evaluator, target: int, s: SearchState, blobs: seq<Blob>)
    requires blobs == eval((s.lo + s.hi) / 2)
    ensures var mid := (s.lo + s.hi) / 2;
      var count := |blobs|;
      var st := Step(eval, target, s);
      && st.0.iterations == s.iterations + 1
      && st.0.history == s.history + [HistoryEntry(mid, count, Abs(count - target))]
      && st.0.best == (if Abs(count - target) < Abs(s.best.count - target) then Candidate(mid, count, blobs) else s.best)
      && st.0.lo == (if count > target then mid + 1 else s.lo)
      && st.0.hi == (if count < target then mid - 1 else s.hi)
      && st.1 == (count == target || st.0.lo > st.0.hi)
  {
  }

  /** The remaining iterations of the loop, from state `s`. */
  function Search(eval: Evaluator, target: int, s: SearchState): SearchState
    decreases MaxIterations - s.iterations
  {
    if s.iterations >= MaxIterations then s
    else
      var step := Step(eval, target, s);
      if step.1 then step.0 else Search(eval, target, step.0)
  }

  /** The result the search returns. */
  function Optimize(eval: Evaluator, target: int): OptimizationResult {
    var s := Search(eval, target, InitialState());
    OptimizationResult(s.best.threshold, s.best.count, s.best.blobs, s.history, s.best.count == target)
  }

  /** `eval` gives, at every threshold, the blobs one probe finds there. */
  ghost predicate ProbesWith(eval: Evaluator, segment: Segmenter, preset: MaterialPreset, opts: OptimizerOptions) {
    forall t {:trigger Evaluate(segment, preset, opts, t)} :: eval(t) == Evaluate(segment, preset, opts, t)
  }

  /** One probe of the loop: detect at `threshold`, then keep the largest
      `max_blobs`; `eval` names the result of every probe. */
  method Probe(segment: Segmenter, preset: MaterialPreset, opts: OptimizerOptions, threshold: int, ghost eval: Evaluator)
    returns (blobs: seq<Blob>)
    requires ProbesWith(eval, segment, preset, opts)
    ensures blobs == eval(threshold)
  {
    var config := DetectionFor(threshold, opts.morphIter, opts.minDiam, opts.maxDiam);
    var detected := DetectBlobs(segment(preset, config), config);
    blobs := FilterBlobs(detected, opts.maxBlobs);
    assert blobs == Evaluate(segment, preset, opts, threshold);
  }

  /** `optimize_threshold`: the preset lookup (a KeyError for an unknown
      material), the merge of the preprocessing overrides, then the search. */
  method OptimizeThreshold(segment: Segmenter, targetCount: int, opts: OptimizerOptions)
    returns (r: Result<OptimizationResult, OptimizerError>)
    ensures MaterialPresets(opts.material).None? ==> r == Err(UnknownMaterial(opts.material))
    ensures MaterialPresets(opts.material).Some? ==>
      var preset := WithPreprocessing(MaterialPresets(opts.material).value, opts.claheClip, opts.tophatKernel, opts.medianKernel);
      r == Ok(Optimize(EvaluatorFor(segment, preset, opts), targetCount))
  {
    var found := MaterialPresets(opts.material);
    if found.None? {
      return Err(UnknownMaterial(opts.material));
    }
    var preset := WithPreprocessing(found.value, opts.claheClip, opts.tophatKernel, opts.medianKernel);
    var result := RunSearch(segment, preset, opts, targetCount, EvaluatorFor(segment, preset, opts));
    r := Ok(result);
  }

  /** The loop of `optimize_threshold` with the merged preset; `eval` names
      what one probe computes. */
  method RunSearch(segment: Segmenter, preset: MaterialPreset, opts: OptimizerOptions, targetCount: int, ghost eval: Evaluator)
    returns (result: OptimizationResult)
    requires ProbesWith(eval, segment, preset, opts)
    ensures result == Optimize(eval, targetCount)
  {
    var bestThreshold, bestCount: nat, bestBlobs := InitialThreshold, 0, [];
    var history: seq<HistoryEntry> := [];
    var minThreshold, maxThreshold := LowestThreshold, HighestThreshold;
    var iterations := 0;
    ghost var goal := Search(eval, targetCount, InitialState());

    while iterations < MaxIterations
      invariant iterations <= MaxIterations
      invariant Search(eval, targetCount, SearchState(minThreshold, maxThreshold, iterations, Candidate(bestThreshold, bestCount, bestBlobs), history))
             == goal
      decreases MaxIterations - iterations
    {
      ghost var before := SearchState(minThreshold, maxThreshold, iterations, Candidate(bestThreshold, bestCount, bestBlobs), history);
      ghost var step := Step(eval, targetCount, before);
      iterations := iterations + 1;
      var midThreshold := (minThreshold + maxThreshold) / 2;

      var blobs := Probe(segment, preset, opts, midThreshold, eval);
      var blobCount := |blobs|;

      history := history + [HistoryEntry(midThreshold, blobCount, Abs(blobCount - targetCount))];

      if Abs(blobCount - targetCount) < Abs(bestCount - targetCount) {
        bestCount, bestThreshold, bestBlobs := blobCount, midThreshold, blobs;
      }
      assert step.0.history == history && step.0.iterations == iterations
          && step.0.best == Candidate(bestThreshold, bestCount, bestBlobs)
          && step.0.lo == (if blobCount > targetCount then midThreshold + 1 else minThreshold)
          && step.0.hi == (if blobCount < targetCount then midThreshold - 1 else maxThreshold)
          && step.1 == (blobCount == targetCount || step.0.lo > step.0.hi) by {
        assert midThreshold == (before.lo + before.hi) / 2;
        StepParts(eval, targetCount, before, blobs);
      }

      if blobCount == targetCount {
        assert step.1 && step.0.lo == minThreshold && step.0.hi == maxThreshold;
        break;
      }

      if blobCount < targetCount {
        maxThreshold := midThreshold - 1;
      } else {
        minThreshold := midThreshold + 1;
      }
      assert step.0.lo == minThreshold && step.0.hi == maxThreshold;

      if minThreshold > maxThreshold {
        break;
      }
      assert step.0 == SearchState(minThreshold, maxThreshold, iterations, Candidate(bestThreshold, bestCount, bestBlobs), history);
      assert Search(eval, targetCount, before) == Search(eval, targetCount, step.0) by {
        assert !step.1 && before.iterations < MaxIterations;
      }
    }

    assert goal == SearchState(minThreshold, maxThreshold, iterations, Candidate(bestThreshold, bestCount, bestBlobs), history);
    result := OptimizationResult(bestThreshold, bestCount, bestBlobs, history, bestCount == targetCount);
  }

  // ---------------------------------------------------------------------------
  // What the search guarantees

  /** A history entry records a probed threshold in [1, 255], the number of
      blobs found there and that number's distance to the target. */
  ghost predicate EntryFaithful(eval: Evaluator, target: int, e: HistoryEntry) {
    && LowestThreshold <= e.threshold <= HighestThreshold
    && e.count == |eval(e.threshold)|
    && e.distance == Abs(e.count - target)
  }

  ghost predicate HistoryFaithful(eval: Evaluator, target: int, h: seq<HistoryEntry>) {
    forall i :: 0 <= i < |h| ==> EntryFaithful(eval, target, h[i])
  }

  /** Threshold `t` lies on the side probe `e` sent the search to: below it
      when it found too few blobs, above it when it found too many. */
  ghost predicate Consistent(e: HistoryEntry, t: int, target: int) {
    && (e.count < target ==> t < e.threshold)
    && (e.count > target ==> t > e.threshold)
  }

  /** Every probe lies on the side every earlier probe pointed to. */
  ghost predicate ProbesNarrow(h: seq<HistoryEntry>, target: int) {
    forall i, j :: 0 <= i < j < |h| ==> Consistent(h[i], h[j].threshold, target)
  }

  /** Threshold `t` was probed already or lies on the side a probe ruled out. */
  ghost predicate Excluded(h: seq<HistoryEntry>, target: int, t: int) {
    exists i :: 0 <= i < |h| && (h[i].threshold == t || !Consistent(h[i], t, target))
  }

  /** Entry `k` is the first of the entries closest to the target, and strictly
      closer than the unevaluated start, whose distance is |0 - target|. */
  ghost predicate FirstClosest(h: seq<HistoryEntry>, k: int, target: int) {
    && 0 <= k < |h|
    && h[k].distance < Abs(target)
    && (forall j :: 0 <= j < k ==> h[j].distance > h[k].distance)
    && (forall j :: 0 <= j < |h| ==> h[j].distance >= h[k].distance)
  }

  /** The best candidate is the starting one when no entry beat it, and the
      first closest entry, with the blobs found at its threshold, otherwise. */
  ghost predicate BestTracked(eval: Evaluator, target: int, h: seq<HistoryEntry>, best: Candidate) {
    || (best == Candidate(InitialThreshold, 0, []) && forall i :: 0 <= i < |h| ==> h[i].distance >= Abs(target))
    || (exists k :: FirstClosest(h, k, target) && best == Candidate(h[k].threshold, h[k].count, eval(h[k].threshold)))
  }

  /** What holds at the top of every iteration that the loop enters. */
  ghost predicate Running(eval: Evaluator, target: int, s: SearchState) {
    && s.iterations == |s.history| <= MaxIterations
    && LowestThreshold <= s.lo <= s.hi <= HighestThreshold
    && HistoryFaithful(eval, target, s.history)
    && (forall i :: 0 <= i < |s.history| ==> s.history[i].count != target)
    && (forall i, t :: 0 <= i < |s.history| && s.lo <= t <= s.hi ==> Consistent(s.history[i], t, target))
    && ProbesNarrow(s.history, target)
    && (forall t :: LowestThreshold <= t <= HighestThreshold && !(s.lo <= t <= s.hi) ==> Excluded(s.history, target, t))
    && BestTracked(eval, target, s.history, s.best)
  }

  /** What holds when the loop has ended. */
  ghost predicate Finished(eval: Evaluator, target: int, s: SearchState) {
    && s.iterations == |s.history|
    && 1 <= |s.history| <= MaxIterations
    && HistoryFaithful(eval, target, s.history)
    && (forall i :: 0 <= i < |s.history| - 1 ==> s.history[i].count != target)
    && ProbesNarrow(s.history, target)
    && BestTracked(eval, target, s.history, s.best)
    && (|| |s.history| == MaxIterations
        || s.history[|s.history| - 1].count == target
        || forall t :: LowestThreshold <= t <= HighestThreshold ==> Excluded(s.history, target, t))
  }

  lemma InitialRunning(eval: Evaluator, target: int)
    ensures Running(eval, target, InitialState())
  {
  }

  /** Replacing the best only on a strictly smaller distance keeps the first closest entry. */
  lemma BestStep(eval: Evaluator, target: int, h: seq<HistoryEntry>, best: Candidate, mid: int)
    requires BestTracked(eval, target, h, best)
    requires HistoryFaithful(eval, target, h)
    ensures
      var blobs := eval(mid);
      var count := |blobs|;
      var e := HistoryEntry(mid, count, Abs(count - target));
      BestTracked(eval, target, h + [e],
        if Abs(count - target) < Abs(best.count - target) then Candidate(mid, count, blobs) else best)
  {
    var blobs := eval(mid);
    var count := |blobs|;
    var e := HistoryEntry(mid, count, Abs(count - target));
    var h' := h + [e];
    if best == Candidate(InitialThreshold, 0, []) && forall i :: 0 <= i < |h| ==> h[i].distance >= Abs(target) {
      if Abs(count - target) < Abs(best.count - target) {
        assert FirstClosest(h', |h|, target);
      } else {
        assert forall i :: 0 <= i < |h'| ==> h'[i].distance >= Abs(target) by {
          forall i | 0 <= i < |h'| ensures h'[i].distance >= Abs(target) {
            if i < |h| { assert h'[i] == h[i]; }
          }
        }
      }
    } else {
      var k :| FirstClosest(h, k, target) && best == Candidate(h[k].threshold, h[k].count, eval(h[k].threshold));
      assert Abs(best.count - target) == h[k].distance;
      if Abs(count - target) < Abs(best.count - target) {
        assert FirstClosest(h', |h|, target) by {
          forall j | 0 <= j < |h| ensures h'[j].distance > e.distance {
            assert h'[j] == h[j];
          }
        }
      } else {
        assert FirstClosest(h', k, target) by {
          forall j | 0 <= j < |h'| ensures h'[j].distance >= h'[k].distance {
            if j < |h| { assert h'[j] == h[j]; }
          }
          forall j | 0 <= j < k ensures h'[j].distance > h'[k].distance {
            assert h'[j] == h[j];
          }
        }
      }
    }
  }

  /** Appending a faithful probe taken inside the bounds keeps the history
      faithful and narrowing. */
  lemma AppendProbe(eval: Evaluator, target: int, s: SearchState, mid: int)
    requires Running(eval, target, s)
    requires s.lo <= mid <= s.hi
    ensures var count := |eval(mid)|;
      var h' := s.history + [HistoryEntry(mid, count, Abs(count - target))];
      && HistoryFaithful(eval, target, h')
      && ProbesNarrow(h', target)
      && (forall i :: 0 <= i < |h'| - 1 ==> h'[i].count != target)
  {
    var h := s.history;
    var count := |eval(mid)|;
    var h' := h + [HistoryEntry(mid, count, Abs(count - target))];
    forall i | 0 <= i < |h'| ensures EntryFaithful(eval, target, h'[i]) {
      if i < |h| { assert h'[i] == h[i]; }
    }
    forall i, j | 0 <= i < j < |h'| ensures Consistent(h'[i], h'[j].threshold, target) {
      assert h'[i] == h[i];
      if j < |h| { assert h'[j] == h[j]; }
    }
    forall i | 0 <= i < |h'| - 1 ensures h'[i].count != target {
      assert h'[i] == h[i];
    }
  }

  /** After a miss, the thresholds the narrowed bounds leave out are ruled out. */
  lemma NarrowExcludes(eval: Evaluator, target: int, s: SearchState, mid: int, lo: int, hi: int)
    requires Running(eval, target, s)
    requires s.lo <= mid <= s.hi
    requires |eval(mid)| != target
    requires (|eval(mid)| < target && lo == s.lo && hi == mid - 1) || (|eval(mid)| > target && lo == mid + 1 && hi == s.hi)
    ensures var count := |eval(mid)|;
      var h' := s.history + [HistoryEntry(mid, count, Abs(count - target))];
      && (forall t :: LowestThreshold <= t <= HighestThreshold && !(lo <= t <= hi) ==> Excluded(h', target, t))
      && (forall i, t :: 0 <= i < |h'| && lo <= t <= hi ==> Consistent(h'[i], t, target))
      && (forall i :: 0 <= i < |h'| ==> h'[i].count != target)
  {
    var h := s.history;
    var count := |eval(mid)|;
    var e := HistoryEntry(mid, count, Abs(count - target));
    var h' := h + [e];
    forall t | LowestThreshold <= t <= HighestThreshold && !(lo <= t <= hi)
      ensures Excluded(h', target, t)
    {
      if s.lo <= t <= s.hi {
        assert h'[|h|] == e;
        assert e.threshold == t || !Consistent(e, t, target);
      } else {
        assert Excluded(h, target, t);
        var i :| 0 <= i < |h| && (h[i].threshold == t || !Consistent(h[i], t, target));
        assert h'[i] == h[i];
      }
    }
    forall i, t | 0 <= i < |h'| && lo <= t <= hi ensures Consistent(h'[i], t, target) {
      if i < |h| { assert h'[i] == h[i]; }
    }
    forall i | 0 <= i < |h'| ensures h'[i].count != target {
      if i < |h| { assert h'[i] == h[i]; }
    }
  }

  /** Every pass counts one iteration, appends a faithful probe that lies on
      the side every earlier probe pointed to, and keeps the best tracked. */
  lemma StepRecords(eval: Evaluator, target: int, s: SearchState)
    requires Running(eval, target, s) && s.iterations < MaxIterations
    ensures var st := Step(eval, target, s).0;
      && st.iterations == |st.history| <= MaxIterations
      && HistoryFaithful(eval, target, st.history)
      && ProbesNarrow(st.history, target)
      && (forall i :: 0 <= i < |st.history| - 1 ==> st.history[i].count != target)
      && BestTracked(eval, target, st.history, st.best)
  {
    var mid := (s.lo + s.hi) / 2;
    var count := |eval(mid)|;
    var st := Step(eval, target, s).0;
    StepParts(eval, target, s, eval((s.lo + s.hi) / 2));
    assert st.history == s.history + [HistoryEntry(mid, count, Abs(count - target))];
    AppendProbe(eval, target, s, mid);
    BestStep(eval, target, s.history, s.best, mid);
  }

  /** A pass that hits the target leaves a finished state. */
  lemma HitFinishes(eval: Evaluator, target: int, s: SearchState)
    requires Running(eval, target, s) && s.iterations < MaxIterations
    requires |eval((s.lo + s.hi) / 2)| == target
    ensures Finished(eval, target, Step(eval, target, s).0)
  {
    StepRecords(eval, target, s);
    StepParts(eval, target, s, eval((s.lo + s.hi) / 2));
  }

  /** A pass that misses and crosses the bounds leaves a finished state. */
  lemma CrossFinishes(eval: Evaluator, target: int, s: SearchState)
    requires Running(eval, target, s) && s.iterations < MaxIterations
    requires |eval((s.lo + s.hi) / 2)| != target
    requires Step(eval, target, s).1
    ensures Finished(eval, target, Step(eval, target, s).0)
  {
    var mid := (s.lo + s.hi) / 2;
    var st := Step(eval, target, s).0;
    StepRecords(eval, target, s);
    StepParts(eval, target, s, eval((s.lo + s.hi) / 2));
    assert st.lo > st.hi;
    NarrowExcludes(eval, target, s, mid, st.lo, st.hi);
  }

  /** A pass that does not break keeps every threshold outside the new
      bounds ruled out and every one inside them consistent with the probes. */
  lemma ContinuesNarrowed(eval: Evaluator, target: int, s: SearchState)
    requires Running(eval, target, s) && s.iterations < MaxIterations
    requires !Step(eval, target, s).1
    ensures var st := Step(eval, target, s).0;
      && LowestThreshold <= st.lo <= st.hi <= HighestThreshold
      && (forall i :: 0 <= i < |st.history| ==> st.history[i].count != target)
      && (forall i, t :: 0 <= i < |st.history| && st.lo <= t <= st.hi ==> Consistent(st.history[i], t, target))
      && (forall t :: LowestThreshold <= t <= HighestThreshold && !(st.lo <= t <= st.hi) ==> Excluded(st.history, target, t))
  {
    var mid := (s.lo + s.hi) / 2;
    var st := Step(eval, target, s).0;
    StepParts(eval, target, s, eval((s.lo + s.hi) / 2));
    NarrowExcludes(eval, target, s, mid, st.lo, st.hi);
  }

  /** A pass that does not break leaves a running state. */
  lemma StepContinues(eval: Evaluator, target: int, s: SearchState)
    requires Running(eval, target, s) && s.iterations < MaxIterations
    requires !Step(eval, target, s).1
    ensures Running(eval, target, Step(eval, target, s).0)
  {
    StepRecords(eval, target, s);
    ContinuesNarrowed(eval, target, s);
  }

  /** From a running state the loop ends in a finished state. */
  lemma {:induction false} SearchCorrect(eval: Evaluator, target: int, s: SearchState)
    requires Running(eval, target, s)
    ensures Finished(eval, target, Search(eval, target, s))
    decreases MaxIterations - s.iterations
  {
    if s.iterations >= MaxIterations {
      return;
    }
    var step := Step(eval, target, s);
    if |eval((s.lo + s.hi) / 2)| == target {
      HitFinishes(eval, target, s);
    } else if step.1 {
      CrossFinishes(eval, target, s);
    } else {
      StepContinues(eval, target, s);
      SearchCorrect(eval, target, step.0);
    }
  }

  /** The loop only ever appends to the history. */
  lemma {:induction false} SearchExtends(eval: Evaluator, target: int, s: SearchState)
    ensures |s.history| <= |Search(eval, target, s).history|
    ensures Search(eval, target, s).history[..|s.history|] == s.history
    decreases MaxIterations - s.iterations
  {
    if s.iterations < MaxIterations {
      var step := Step(eval, target, s);
      assert step.0.history[..|s.history|] == s.history;
      if !step.1 {
        SearchExtends(eval, target, step.0);
        var h := Search(eval, target, step.0).history;
        assert h[..|step.0.history|] == step.0.history;
        assert h[..|s.history|] == step.0.history[..|s.history|];
      }
    }
  }

  /** At most 12 evaluations and at least one, one history entry per
      iteration, each a threshold in [1, 255] with its count and its distance
      |count - target|; the first probe is the midpoint 128 of [1, 255]. */
  lemma OptimizeHistory(eval: Evaluator, target: int)
    ensures var r := Optimize(eval, target);
      && 1 <= |r.history| <= MaxIterations
      && HistoryFaithful(eval, target, r.history)
      && r.history[0].threshold == InitialThreshold
  {
    InitialRunning(eval, target);
    SearchCorrect(eval, target, InitialState());
    var s0 := InitialState();
    assert (s0.lo + s0.hi) / 2 == 128;
    var step := Step(eval, target, s0);
    assert step.0.history[0].threshold == 128;
    if !step.1 {
      SearchExtends(eval, target, step.0);
      assert Search(eval, target, step.0).history[..1] == step.0.history[..1];
    }
  }

  /** The loop stops right after the first probe that hits the target; when it
      stops earlier than 12 iterations without a hit, the bounds have crossed,
      so every threshold in [1, 255] was probed or ruled out by a probe. */
  lemma OptimizeStops(eval: Evaluator, target: int)
    ensures var h := Optimize(eval, target).history;
      && 1 <= |h|
      && (forall i :: 0 <= i < |h| - 1 ==> h[i].count != target)
      && (|| |h| == MaxIterations
          || h[|h| - 1].count == target
          || forall t :: LowestThreshold <= t <= HighestThreshold ==> Excluded(h, target, t))
  {
    InitialRunning(eval, target);
    SearchCorrect(eval, target, InitialState());
  }

  /** Narrowing: after a probe with too few blobs every later probe is at a
      lower threshold (max_threshold := mid - 1), after one with too many at a
      higher one (min_threshold := mid + 1). */
  lemma OptimizeNarrows(eval: Evaluator, target: int)
    ensures var h := Optimize(eval, target).history;
      forall i, j :: 0 <= i < j < |h| ==>
        && (h[i].count < target ==> h[j].threshold < h[i].threshold)
        && (h[i].count > target ==> h[j].threshold > h[i].threshold)
  {
    InitialRunning(eval, target);
    SearchCorrect(eval, target, InitialState());
    var h := Optimize(eval, target).history;
    assert ProbesNarrow(h, target);
    forall i, j | 0 <= i < j < |h|
      ensures h[i].count < target ==> h[j].threshold < h[i].threshold
      ensures h[i].count > target ==> h[j].threshold > h[i].threshold
    {
      assert Consistent(h[i], h[j].threshold, target);
    }
  }

  /** The returned candidate: the unevaluated (128, 0, []) when no probe came
      strictly closer than |0 - target|, otherwise the first of the closest
      probes with the blobs found there (ties keep the earlier probe);
      `blob_count` is the number of returned blobs and `exact_match` says
      whether it equals the target. */
  lemma OptimizeBest(eval: Evaluator, target: int)
    ensures var r := Optimize(eval, target);
      && ((forall i :: 0 <= i < |r.history| ==> r.history[i].distance >= Abs(target)) ==>
            r.threshold == InitialThreshold && r.blobCount == 0 && r.blobs == [])
      && ((exists i :: 0 <= i < |r.history| && r.history[i].distance < Abs(target)) ==>
            exists k :: FirstClosest(r.history, k, target)
              && r.threshold == r.history[k].threshold
              && r.blobCount == r.history[k].count
              && r.blobs == eval(r.history[k].threshold))
      && r.blobCount == |r.blobs|
      && (r.exactMatch <==> r.blobCount == target)
  {
    InitialRunning(eval, target);
    SearchCorrect(eval, target, InitialState());
    var s := Search(eval, target, InitialState());
    assert BestTracked(eval, target, s.history, s.best);
    assert HistoryFaithful(eval, target, s.history);
    if !(s.best == Candidate(InitialThreshold, 0, []) && forall i :: 0 <= i < |s.history| ==> s.history[i].distance >= Abs(target)) {
      var k :| FirstClosest(s.history, k, target) && s.best == Candidate(s.history[k].threshold, s.history[k].count, eval(s.history[k].threshold));
      assert EntryFaithful(eval, target, s.history[k]);
      assert s.history[k].distance < Abs(target);
    }
  }

  /** The unevaluated start (128, 0, []) is returned as it is when no probe
      beats it (every count c has |c - target| >= |target|, for instance a
      target of 4 and 8 blobs at every threshold). When threshold 128 yields
      blobs, the result then pairs threshold 128 with blob_count 0 while the
      history's first entry records another count at 128. */
  lemma UnbeatenStartMisreportsCount(eval: Evaluator, target: int)
    requires forall t :: LowestThreshold <= t <= HighestThreshold ==> Abs(|eval(t)| - target) >= Abs(target)
    requires |eval(InitialThreshold)| != 0
    ensures var r := Optimize(eval, target);
      && 1 <= |r.history|
      && r.threshold == r.history[0].threshold == InitialThreshold
      && r.blobCount == 0
      && r.history[0].count != r.blobCount
  {
    OptimizeHistory(eval, target);
    OptimizeBest(eval, target);
    var r := Optimize(eval, target);
    forall i | 0 <= i < |r.history| ensures r.history[i].distance >= Abs(target) {
      assert EntryFaithful(eval, target, r.history[i]);
    }
    assert EntryFaithful(eval, target, r.history[0]);
  }

  /** The loop calls a probe an exact match only when that probe's own count
      equals the target, but `exact_match` compares best_count: for a target
      of 0 the unevaluated start already has distance 0, so exact_match is
      true even when every probe found blobs. */
  lemma ExactMatchWithoutHit(eval: Evaluator)
    requires forall t :: LowestThreshold <= t <= HighestThreshold ==> |eval(t)| > 0
    ensures var r := Optimize(eval, 0);
      && r.exactMatch
      && forall i :: 0 <= i < |r.history| ==> r.history[i].count != 0
  {
    OptimizeHistory(eval, 0);
    OptimizeBest(eval, 0);
    var r := Optimize(eval, 0);
    forall i | 0 <= i < |r.history| ensures r.history[i].count != 0 {
      assert EntryFaithful(eval, 0, r.history[i]);
    }
  }
}
