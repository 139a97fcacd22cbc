# Laser spot analyzer: a verified model of its control logic

The laser spot analyzer finds bright laser spots ("blobs") in microscope
images of glass or aluminium samples. Image processing is done by OpenCV.
This project models, in Dafny, the deterministic logic wrapped around it:

- **Contour acceptance** (`detection.dfy`, module `Detection`): the contour loop of `detect_blobs`.
  - Contours with area below 20 are dropped.
  - A contour with at least five points gets an ellipse fit; otherwise it gets an enclosing circle.
  - A blob is kept when its diameter lies in `[min_diam, max_diam]`, in discovery order.
  - Each contour arrives as a record holding its area, its point count and both fits. The ellipse diameter `(MA*ma)**0.5` is given as a field, because Dafny has no square root.
- **Blob ranking** (`filtering.dfy`, module `Filtering`): `filter_blobs`, a stable sort by decreasing `diam_px`, then the slice `[:max_blobs]` with Python's slice semantics, including negative bounds.
- **Threshold search** (`threshold_optimizer.dfy`, module `ThresholdOptimizer`): `optimize_threshold`.
  - It is a bisection-style search over thresholds 1..255 for a target blob count: at most 12 probes, a history log, and the best candidate replaced only on a strictly smaller distance.
  - It stops on an exact hit or when the bounds cross.
  - The OpenCV steps of one evaluation (preprocessing, closing, thresholding, contour extraction and contour geometry) are an oracle, `Segmenter`. `Evaluate` applies the contour loop of `detect_blobs` and `filter_blobs` to its contours.
  - The search sees one evaluation as an `Evaluator`, which need not be monotonic in the threshold.
  - `Search` is the loop as a function of its state. The method `RunSearch` is the loop itself, proved to compute it. `OptimizeThreshold` looks up and merges the preset, then runs it.
- **Manual review** (`interaction.dfy`, module `Interaction`): the selection state of `ManualReviewInterface`.
  - Clicks toggle the first blob under the cursor. A / D select or deselect all, Enter accepts, Escape restores all and cancels.
  - `manual_select` returns its input unchanged when that input is empty.
- **Region of interest** (`roi.dfy`, module `RegionOfInterest`): the `ROI` record, its dictionary round trip, `crop_image`, and the `ROISelector` state.
- **Column splitting** (`regions.dfy`, module `Regions`): `split_columns`.
- **Parameters** (`config.dfy` and `interactive_tuner.dfy`, modules `Config` and `Tuner`):
  - the presets and detection defaults;
  - the `DetectionParams` record and its JSON dictionary form;
  - the preset and defaults merge done on every preview;
  - the `InteractiveTuner` state.
- `common.dfy` (module `Common`) holds Python's `abs`, `int(float)` (truncation toward zero), slice-bound normalisation, and 2-D array column slicing.

The matplotlib event loops (`while not finished and fignum_exists: pause`)
are modelled as a finite sequence of events. Each event goes to the
handlers while the window is open and the interface unfinished. A functional
`Replay` states the result, and the classes' `Run` methods are proved to
follow it. When the events run out while the window is still open and the
interface unfinished, the model returns; the program would go on waiting in
`plt.pause` for further events.

Three behaviours of the code are kept as written, although its own messages
suggest otherwise:

- **The unevaluated start.** `optimize_threshold` starts from a best candidate that no probe produced: threshold 128, count 0, no blobs (`core/threshold_optimizer.py:44-46`).
  - A probe replaces it only when strictly closer to the target (line 89); otherwise it is returned as it is (lines 116-120).
  - So when no probe comes strictly closer than `|0 - target|` and threshold 128 yields blobs, the result pairs threshold 128 with `blob_count` 0, while the history's first entry records the count found at 128 (`UnbeatenStartMisreportsCount`). When 128 yields no blobs, the two agree.
- **`exact_match`.** The loop calls a probe an exact match only when that probe's own count equals the target (line 85, and the "FOUND!" break at lines 95-97). The returned `exact_match` is `best_count == target_count` (line 121). For a target of 0 the unevaluated start already satisfies it, so `exact_match` is true even when every probe found blobs (`ExactMatchWithoutHit`).
- **Failing fits.** `detect_blobs` calls `cv2.fitEllipse` and `cv2.minEnclosingCircle` with no `try`/`except` around them (`core/detection.py:18-25`), so an exception from a fit ends the whole detection. The model takes the fits' results as given, so no fit fails in it.

## Model

| member | source | states |
|---|---|---|
| Common.Trunc | core/roi.py:74-77 | `int()` of a float: for non-negative x, r <= x < r + 1; for negative x, r - 1 < x <= r |
| Common.TruncMonotone | core/roi.py:74-77 | truncation keeps the order of its arguments, so min/max corners stay ordered |
| Common.SliceBound | core/filtering.py:3 | a slice bound is clamped to [0, n], and a negative bound counts from the end |
| Common.PySlice | core/roi.py:36 | a slice never exceeds its sequence and is the plain subrange when the bounds are in range |
| Common.ColumnSlice | core/regions.py:8 | `img[:, x0:x1]` keeps every row and slices each row the same way |
| Common.ColumnSliceInside | core/regions.py:8 | inside the grid, a column slice is h rows of x1 - x0 samples, sample (y, x) being image sample (y, x0 + x) |
| Config.MaterialPresets | config.py:1-16 | exactly "glass" and "aluminum" are known; only aluminium inverts; scratch removal goes with inversion; kernels are odd and >= 3; the clip limit is positive |
| Config.DetectionDefaults | config.py:18-24 | min_diam <= max_diam, threshold in [0, 255], morph_iter >= 1, max_blobs >= 0 |
| Config.WithPreprocessing | core/interactive_tuner.py:86-89 | the copied preset differs from the preset in the three preprocessing fields only; invert and scratch removal are kept |
| Config.DetectionFor | core/interactive_tuner.py:94-100 | the four overridden entries take the given values and max_blobs keeps its default |
| Detection.Measure | core/detection.py:18-25 | the blob of a contour: ellipse centre, diameter (MA * ma) ** 0.5 and the ellipse with >= 5 points, else circle centre, 2r and no ellipse; its properties are BlobGeometry's |
| Detection.Accepts | core/detection.py:15-27 | a contour is kept iff its area is at least 20 and its blob's diameter lies in [min_diam, max_diam]; SmallContoursDropped and AcceptedIsSubsequence state what follows |
| Detection.AcceptedBlobs | core/detection.py:13-30 | the blobs of the kept contours in discovery order, the value DetectBlobs is proved to return |
| Detection.DetectBlobs | core/detection.py:13-30 | the loop returns exactly the blobs of the accepted contours, in discovery order |
| Detection.AcceptedInRange | core/detection.py:27-28 | every emitted blob has min_diam <= diam_px <= max_diam, inclusive at both ends |
| Detection.AcceptedIsSubsequence | core/detection.py:13-28 | the output is the order-preserving subsequence of the contours that pass the area floor and the range, so it is no longer than the input |
| Detection.Large | core/detection.py:15-16 | a contour passes the area floor when its area is at least 20 |
| Detection.LargeContours | core/detection.py:4-16 | no more contours than the input, each of area at least 20 |
| Detection.LargeContoursInOrder | core/detection.py:14-16 | the kept contours are exactly the input's contours of area at least 20, at strictly increasing positions, so in input order |
| Detection.SmallContoursDropped | core/detection.py:4-16 | the `continue` is the same as dropping every contour of area below 20 first; area exactly 20 is judged on its diameter only |
| Detection.BlobGeometry | core/detection.py:18-28 | with >= 5 points the blob keeps the ellipse and its centre, and diam squared is MA * ma; otherwise there is no ellipse, and the blob has the circle's centre and diameter 2r |
| Filtering.Insert | core/filtering.py:2 | one insertion step of the stable descending sort; InsertPermutes, InsertSorted and InsertWithDiam state its properties |
| Filtering.InsertPermutes | core/filtering.py:2 | inserting adds exactly one element to the multiset |
| Filtering.InsertSorted | core/filtering.py:2 | inserting into a sorted sequence keeps it sorted by decreasing diameter |
| Filtering.SortByDiamDescSorts | core/filtering.py:2 | the sort is a permutation of its input, non-increasing in diam_px |
| Filtering.InsertWithDiam | core/filtering.py:2 | inserting a blob puts it ahead of the earlier blobs of equal diameter |
| Filtering.SortByDiamDesc | core/filtering.py:2 | `sorted(blobs, key=diam_px, reverse=True)`; SortByDiamDescSorts and SortIsStable state that it is a stable descending permutation |
| Filtering.SortIsStable | core/filtering.py:2 | for every diameter, the blobs of that diameter keep their original relative order |
| Filtering.PrefixIsTop | core/filtering.py:3 | a prefix of a sorted sequence is sorted, drawn from it, and no smaller than what it leaves out |
| Filtering.FilterBlobs | core/filtering.py:2-3 | length min(max_blobs, n) for max_blobs >= 0, and max(0, n + max_blobs) for a negative max_blobs |
| Filtering.FilterSortedSelection | core/filtering.py:2-3 | the kept blobs are sorted by decreasing diameter and form a sub-multiset of the input |
| Filtering.FilterKeepsLargest | core/filtering.py:2-3 | top-k: every dropped blob is no larger than every kept blob |
| Filtering.FilterIsStable | core/filtering.py:2-3 | among blobs of equal diameter, the kept ones are the earliest in the input |
| Filtering.FilterKeepsInputBlobs | core/filtering.py:2-3 | every kept blob comes from the input; with max_blobs >= n the output is a permutation of the input |
| ThresholdOptimizer.DefaultOptions | core/threshold_optimizer.py:13-15 | the keyword defaults: glass, max_blobs 8, diameters 5 to 200, morph_iter 2, clahe_clip 2.0, kernels 15 and 3 |
| ThresholdOptimizer.DefaultOptionsAgree | core/threshold_optimizer.py:13-15 | the default keywords leave the glass preset unchanged and give probe dictionaries that differ from DETECTION_DEFAULTS in the threshold only |
| ThresholdOptimizer.Evaluate | core/threshold_optimizer.py:59-71 | one probe: the contours of the merged preset and dictionary, the contour loop, then filter_blobs; Probe is proved to compute it |
| ThresholdOptimizer.InitialState | core/threshold_optimizer.py:44-52 | bounds 1 and 255, no iteration, the unevaluated best (128, 0, []) and an empty history; InitialRunning states that the loop invariant holds there |
| ThresholdOptimizer.Step | core/threshold_optimizer.py:55-56 | each loop pass counts one iteration |
| ThresholdOptimizer.Probe | core/threshold_optimizer.py:60-71 | one probe returns the filtered detection at that threshold, with the merged preset and the detection dictionary |
| ThresholdOptimizer.OptimizeThreshold | core/threshold_optimizer.py:13-41 | an unknown material is the KeyError; otherwise the result is the search over the merged preset's probes |
| ThresholdOptimizer.RunSearch | core/threshold_optimizer.py:44-122 | the loop returns exactly the result of `Search` from bounds [1, 255] and the unevaluated best |
| ThresholdOptimizer.InitialRunning | core/threshold_optimizer.py:44-52 | the initial bounds 1..255, empty history and start candidate satisfy the loop invariant |
| ThresholdOptimizer.BestStep | core/threshold_optimizer.py:88-92 | replacing the best only on a strictly smaller distance keeps the first closest probe (ties keep the earlier one) |
| ThresholdOptimizer.AppendProbe | core/threshold_optimizer.py:73-79 | appending the probe at the midpoint keeps the history faithful and each probe on the side earlier probes pointed to |
| ThresholdOptimizer.NarrowExcludes | core/threshold_optimizer.py:99-105 | after a miss, every threshold the new bounds drop was probed or ruled out by a probe |
| ThresholdOptimizer.StepParts | core/threshold_optimizer.py:55-105 | one pass appends the midpoint's probe, replaces the best only when strictly closer, moves the bound on the target's side past the midpoint, and breaks on a hit or crossed bounds |
| ThresholdOptimizer.Search | core/threshold_optimizer.py:55-110 | the remaining loop passes from a state, stopping after 12 iterations or when a pass breaks; RunSearch is proved to compute it and SearchCorrect states what it ends with |
| ThresholdOptimizer.Optimize | core/threshold_optimizer.py:116-122 | the returned dictionary built from the final state; OptimizeHistory, OptimizeStops, OptimizeNarrows and OptimizeBest state its properties |
| ThresholdOptimizer.StepRecords | core/threshold_optimizer.py:73-92 | each pass counts one iteration, appends a faithful probe on the side earlier probes pointed to, and keeps the best tracked |
| ThresholdOptimizer.HitFinishes | core/threshold_optimizer.py:94-97 | a pass that hits the target ends the search with a complete record |
| ThresholdOptimizer.CrossFinishes | core/threshold_optimizer.py:99-110 | a pass whose narrowed bounds cross ends the search with every threshold probed or ruled out |
| ThresholdOptimizer.ContinuesNarrowed | core/threshold_optimizer.py:99-105 | after a miss that keeps the bounds open, the bounds stay in [1, 255], no probe has hit, every threshold inside is consistent with all probes, and every threshold outside is ruled out |
| ThresholdOptimizer.StepContinues | core/threshold_optimizer.py:55-110 | a pass that does not break keeps the loop invariant |
| ThresholdOptimizer.SearchCorrect | core/threshold_optimizer.py:55-110 | from any state satisfying the invariant, the loop ends with a faithful, narrowing history of at most 12 probes that tracks the best |
| ThresholdOptimizer.SearchExtends | core/threshold_optimizer.py:79 | the loop only appends to the history |
| ThresholdOptimizer.OptimizeHistory | core/threshold_optimizer.py:52-79 | 1 to 12 entries, each a threshold in [1, 255] with its count and distance \|count - target\|; the first probe is 128 |
| ThresholdOptimizer.OptimizeStops | core/threshold_optimizer.py:94-110 | no probe before the last hit the target; the loop ends after 12 probes, on a hit, or once every threshold is probed or ruled out |
| ThresholdOptimizer.OptimizeNarrows | core/threshold_optimizer.py:99-105 | after too few blobs every later probe is lower, after too many every later probe is higher |
| ThresholdOptimizer.OptimizeBest | core/threshold_optimizer.py:44-46 | result (128, 0, []) if no probe beat \|target\|, else the first closest probe with its blobs; blob_count = \|blobs\|; exact_match iff blob_count = target |
| ThresholdOptimizer.UnbeatenStartMisreportsCount | core/threshold_optimizer.py:116-122 | when no probe beats the start, threshold 128 is returned with count 0 although history recorded another count there |
| ThresholdOptimizer.ExactMatchWithoutHit | core/threshold_optimizer.py:121 | with target 0, exact_match holds even though no probe found 0 blobs |
| Interaction.AllFlags | core/interaction.py:13 | `[v] * n` has n entries, all v |
| Interaction.CountTrue | core/interaction.py:49 | the selected count never exceeds the number of blobs |
| Interaction.SelectedBlobs | core/interaction.py:119 | the result has as many blobs as there are set flags, all from the input |
| Interaction.FirstHit | core/interaction.py:61-68 | finds a hit iff some patch contains the click, and it is the first such patch |
| Interaction.Replay | core/interaction.py:112-113 | handling events never changes the number of flags |
| Interaction.ClickEffect | core/interaction.py:55-68 | a click outside the axes or without xdata changes nothing; otherwise the first hit patch's flag flips; ClickChangesOneFlag and ToggleCount state its effect |
| Interaction.KeyEffect | core/interaction.py:75-102 | a, d, enter and escape as in the handler, other keys ignored; OnKeyPress is proved to compute it |
| Interaction.OnEvent | core/interaction.py:44-45 | routes a click to the click handler and a key to the key handler, and a window close closes the figure |
| Interaction.ReviewOutcome | core/interaction.py:124-141 | the blobs manual_select returns after the events; ManualSelect is proved to compute it, CancelKeepsAll and AcceptKeepsSelection state its cases |
| Interaction.ManualReviewInterface.constructor | core/interaction.py:10-16 | one flag per blob, all True; not finished; the window is open |
| Interaction.ManualReviewInterface.TitleCounts | core/interaction.py:47-51 | the title shows selected <= total = len(blobs), the selected count being the number of blobs run would return |
| Interaction.ManualReviewInterface.OnClick | core/interaction.py:55-68 | outside the axes or without xdata nothing changes; otherwise exactly the first patch containing the click flips |
| Interaction.ManualReviewInterface.OnKeyPress | core/interaction.py:75-102 | a selects all, d deselects all, enter finishes and closes with the selection kept, escape selects all, closes and leaves the review unfinished; other keys change nothing |
| Interaction.ManualReviewInterface.Run | core/interaction.py:104-121 | the state after the loop is the replay of the events, and the result is the selected blobs |
| Interaction.ManualSelect | core/interaction.py:124-141 | an empty list comes back unchanged; otherwise the blobs selected after the events |
| Interaction.IndicesFromExact | core/interaction.py:119 | the selected positions are in range, strictly increasing, and exactly those with a set flag |
| Interaction.SelectedAtIndices | core/interaction.py:119 | the k-th selected blob is the blob at the k-th selected position |
| Interaction.SelectedIsSubsequence | core/interaction.py:119 | the result is exactly the blobs whose flag is True, in their original order |
| Interaction.SelectAllOrNone | core/interaction.py:77-91 | all flags set returns every blob; none set returns [] |
| Interaction.ToggleCount | core/interaction.py:49-64 | a toggle changes the selected count by exactly one |
| Interaction.CountAllSelected | core/interaction.py:49-50 | the count equals the total iff every blob is selected |
| Interaction.ClickChangesOneFlag | core/interaction.py:57-68 | a click keeps the length and changes no flag except that of the first hit patch |
| Interaction.CancelKeepsAll | core/interaction.py:98-102 | escape during the review returns every blob, whatever came before or after |
| Interaction.AcceptKeepsSelection | core/interaction.py:93-96 | enter during the review returns the blobs selected at that moment; later events are ignored |
| Interaction.ReplaySplit | core/interaction.py:112-113 | handling two runs of events one after the other is the same as handling them in sequence |
| RegionOfInterest.ToDict | core/roi.py:27-28 | the dictionary has exactly the keys x1, y1, x2, y2 |
| RegionOfInterest.FromDict | core/roi.py:30-32 | succeeds iff all four keys are present; otherwise reports the first missing key in reading order |
| RegionOfInterest.FromToDict | core/roi.py:27-32 | from_dict(to_dict(r)) == r |
| RegionOfInterest.ToFromDict | core/roi.py:27-32 | to_dict(from_dict(d)) is d restricted to the four coordinate keys |
| RegionOfInterest.Roi.Width | core/roi.py:19-21 | x2 - x1; CropInside states that it is the crop's number of columns |
| RegionOfInterest.Roi.Height | core/roi.py:23-25 | y2 - y1; CropInside states that it is the crop's number of rows |
| RegionOfInterest.Crop | core/roi.py:34-36 | `img[y1:y2, x1:x2].copy()` with Python's slice bounds; CropInside and CropRows state its shape and samples |
| RegionOfInterest.CropInside | core/roi.py:34-36 | inside the image the crop is height x width and sample (i, j) is image sample (y1 + i, x1 + j) |
| RegionOfInterest.CropRows | core/roi.py:36 | the crop never has more rows than the image |
| RegionOfInterest.Normalize | core/roi.py:72-79 | the selected rectangle has x1 <= x2 and y1 <= y2, hence non-negative width and height |
| RegionOfInterest.NormalizeIsSymmetric | core/roi.py:74-77 | drag direction does not matter; for non-negative coordinates the corners bracket both points |
| RegionOfInterest.Outcome | core/roi.py:122-127 | the ROI is returned iff accepted and present |
| RegionOfInterest.OnEvent | core/roi.py:72-104 | routes a drag to on_select, a key to the key handler, and a window close closes the figure; OnSelect and OnKeyPress are proved to compute it |
| RegionOfInterest.Replay | core/roi.py:117-118 | the events handled while the selector is unfinished and its window open; ReplayCoherent and ReplaySplit state its properties |
| RegionOfInterest.SelectionOutcome | core/roi.py:130-133 | what select_roi returns after the events; SelectionIsAccepted, EscapeCancels and DragThenEnter state its cases |
| RegionOfInterest.RoiSelector.constructor | core/roi.py:45-67 | no ROI, not accepted, not finished, window open |
| RegionOfInterest.RoiSelector.OnSelect | core/roi.py:72-79 | stores the normalised rectangle of the drag |
| RegionOfInterest.RoiSelector.OnKeyPress | core/roi.py:91-104 | enter with an ROI accepts and closes; enter without one changes nothing; escape rejects and closes; other keys change nothing |
| RegionOfInterest.RoiSelector.Run | core/roi.py:106-127 | the state after the loop is the replay of the events and the result follows the return rule |
| RegionOfInterest.SelectRoi | core/roi.py:130-133 | select_roi returns the outcome of the events |
| RegionOfInterest.ReplayCoherent | core/roi.py:72-104 | the selector never finishes by itself, acceptance always has an ROI, and every stored ROI is normalised |
| RegionOfInterest.SelectionIsAccepted | core/roi.py:122-127 | a rectangle is returned iff accepted, and it has x1 <= x2, y1 <= y2 |
| RegionOfInterest.ReplaySplit | core/roi.py:117-118 | handling two runs of events one after the other is the same as handling them in sequence |
| RegionOfInterest.EscapeCancels | core/roi.py:101-104 | escape while open makes the selector return None, whatever was drawn |
| RegionOfInterest.EnterWithoutRoiIgnored | core/roi.py:93-99 | enter before any drag leaves the selector open and unaccepted |
| RegionOfInterest.DragThenEnter | core/roi.py:93-97 | a drag followed by enter returns that drag's normalised rectangle |
| Regions.Degrees | core/regions.py:2 | labels deg_start, deg_start - 1, ..., deg_end; max(0, deg_start - deg_end + 1) of them |
| Regions.DegreesAreTheLabels | core/regions.py:2 | the labels are exactly the integers in [deg_end, deg_start], strictly decreasing, so distinct |
| Regions.SplitColumns | core/regions.py:1-10 | the keys are exactly [deg_end, deg_start]; label d maps to the band of index deg_start - d |
| Regions.Band | core/regions.py:6-8 | `img[:, i * width : i * width + width]`; BandInside, ColumnOwner and BandsCoverColumns state its shape and coverage |
| Regions.BandInside | core/regions.py:5-8 | inside the image a band has every row and exactly width columns, column x being image column i * width + x |
| Regions.ColumnOwner | core/regions.py:5-8 | bands are disjoint: a column belongs to one band index and one offset only |
| Regions.BandsCoverColumns | core/regions.py:5-8 | when the bands fit, every column left of count * width is in band c / width at offset c % width, with the image's samples |
| Tuner.DefaultParams | core/interactive_tuner.py:16-24 | defaults have min_diam <= max_diam, both ints, clahe_clip a float, odd kernels >= 3, threshold in [1, 255] |
| Tuner.AsDict | core/interactive_tuner.py:188-194 | asdict has exactly the seven field keys, integers for the integer fields; each float field is written as the int or float it holds |
| Tuner.FromDict | core/interactive_tuner.py:197-203 | loading succeeds iff there is no unknown key and no JSON float in an integer field; unknown keys give the TypeError |
| Tuner.LoadSaved | core/interactive_tuner.py:189-203 | DetectionParams(**asdict(p)) == p |
| Tuner.LoadEmpty | core/interactive_tuner.py:16-24 | an empty dictionary loads as the defaults |
| Tuner.LoadReadsEntries | core/interactive_tuner.py:197-203 | saving a loaded record writes back exactly the entries read, ints as ints and floats as floats, and the defaults for the absent keys |
| Tuner.DefaultsSavedAsInts | core/interactive_tuner.py:18-24 | the defaults are saved with min_diam 5 and max_diam 200 as ints and clahe_clip 2.0 as a float |
| Tuner.ParamsFromSliders | core/interactive_tuner.py:75-83 | threshold, tophat and morph are the slider values truncated; median kernel carried over; the other fields copied |
| Tuner.UntouchedSliders | core/interactive_tuner.py:48-53 | sliders at their initial positions reproduce the parameters they came from |
| Tuner.PreviewBounds | core/interactive_tuner.py:85-103 | preview blobs are sorted by decreasing diameter, at most max_blobs, in the diameter range |
| Tuner.PreviewBlobs | core/interactive_tuner.py:85-103 | the preview of a parameter record: the merged preset and dictionary, the contour loop, then filter_blobs; PreviewBounds states its bounds |
| Tuner.Update | core/interactive_tuner.py:71-137 | on an unknown material nothing changes; otherwise the parameters read from the sliders and their preview are stored together; UpdatePreview is proved to compute it |
| Tuner.StartState | core/interactive_tuner.py:31-68 | the defaults with the sliders at their defaults, after one preview; StartsInSync states what it stores |
| Tuner.OnEvent | core/interactive_tuner.py:57-65 | a slider move stores the new positions and re-runs the preview; Accept finishes and closes, as `finish` at lines 139-151; a window close closes the figure |
| Tuner.Replay | core/interactive_tuner.py:162-164 | the events handled while the tuner is unfinished and its window open; ReplayInSync and UnknownMaterialFrozen state what it keeps |
| Tuner.Outcome | core/interactive_tuner.py:175-184 | the stored blobs or [], and the stored parameters or the defaults |
| Tuner.TuneOutcome | core/interactive_tuner.py:27-184 | what the tuner returns after the events; TuneIsConsistent and AcceptAtOnce state its properties |
| Tuner.InteractiveTuner.constructor | core/interactive_tuner.py:27-68 | starts from the defaults with sliders at their defaults, then previews once |
| Tuner.InteractiveTuner.UpdatePreview | core/interactive_tuner.py:71-137 | on an exception nothing changes; otherwise new params and their blobs are stored together |
| Tuner.InteractiveTuner.Finish | core/interactive_tuner.py:139-151 | Accept sets finished and closes the window |
| Tuner.InteractiveTuner.Run | core/interactive_tuner.py:153-184 | the new state is the replay of the events with None params replaced by the defaults and None blobs by [], and the result is that pair |
| Tuner.Tune | core/interactive_tuner.py:27-184 | constructing the tuner and running it gives the outcome of the events |
| Tuner.StartsInSync | core/interactive_tuner.py:31-68 | after construction the defaults and their preview are stored |
| Tuner.ReplayInSync | core/interactive_tuner.py:126-137 | the stored blobs are always the preview of the stored parameters |
| Tuner.TuneIsConsistent | core/interactive_tuner.py:127-184 | the returned blobs are the preview of the returned params, sorted and at most max_blobs; unknown material gives [] and the defaults |
| Tuner.UnknownMaterialFrozen | core/interactive_tuner.py:86-137 | with an unknown material every preview raises, so params and blobs never change |
| Tuner.AcceptAtOnce | core/interactive_tuner.py:139-184 | accepting without moving a slider returns the defaults and their preview |

## Left out

- Pixel processing is not modelled: `core/preprocessing.py` (CLAHE, black-hat, median blur, normalisation) and the OpenCV calls in `detect_blobs` (closing, threshold, `findContours`, `contourArea`, `fitEllipse`, `minEnclosingCircle`). These are foreign numeric code. Their combined result is the `Segmenter` oracle, which is assumed total, so the empty-image `ValueError` of preprocessing is not modelled.
- Detection.Measure: the ellipse diameter `(MA * ma) ** 0.5` is taken as a given field, because Dafny has no square root. `RootIsExact` states what it should satisfy. Floating-point rounding is not modelled; floats are exact reals.
- `core/statistics.py` (mean, standard deviation, Student-t interval) is floating-point numerics through SciPy.
- File and GUI I/O are not modelled: CZI reading, PNG and CSV writing, JSON files in `save_params`, `load_params`, `save_roi` and `load_roi`, the Qt window and `main.py`. Only the record-to-dictionary conversions are modelled.
- Matplotlib rendering is not modelled: patches, colours, legends, title text, `draw_idle`, and the timing of `plt.pause`. The title is modelled by its two counts.
- Logging is not modelled: `print` and `traceback`, and the optional `callback` of `optimize_threshold`, which only observes each probe.
- Slider ranges and `valstep` are not modelled: slider values are arbitrary numbers. The 5-pixel minimum span of the rectangle selector is also left out: every drag is reported.
- `ROI.__str__` is display only.
- RegionOfInterest.FromDict: dictionary values are integers. JSON values of other types, which the dataclass would store unchecked, are not modelled.
- Tuner.FromDict: any JSON float in an integer field, even an integral one such as 80.0, is reported as `NotAnInteger`. The dataclass would store the float unchecked. JSON values that are not numbers (strings, null, booleans, lists, objects), which the dataclass would also store unchecked, are not modelled.
- Regions.SplitColumns: NumPy slices are views that share memory with the image. The model works on values, so aliasing between regions and the image is not captured.
- The dictionaries of presets and detection settings are records with exactly their declared fields. Missing or extra keys in hand-built dictionaries are not modelled.

