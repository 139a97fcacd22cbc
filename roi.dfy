/** The `ROI` record (an integer rectangle, its dictionary form and the crop
    it selects) and the state of `ROISelector`: a dragged rectangle is
    normalised to integer corners, Enter accepts it only once one exists,
    Escape cancels, and the selector returns the rectangle only when it was
    accepted. */
module RegionOfInterest {
  import opened Common

  datatype Roi = Roi(x1: int, y1: int, x2: int, y2: int) {
    function Width(): int {
      x2 - x1
    }

    function Height(): int {
      y2 - y1
    }
  }

  /** The keys of `to_dict`, in the order `from_dict` reads them. */
  const RoiKeys: seq<string> := ["x1", "y1", "x2", "y2"]

  /** The KeyError of `from_dict` for the first key it cannot find. */
  datatype RoiError = MissingKey(key: string)

  function ToDict(r: Roi): (d: map<string, int>)
    ensures d.Keys == {"x1", "y1", "x2", "y2"}
  {
    map["x1" := r.x1, "y1" := r.y1, "x2" := r.x2, "y2" := r.y2]
  }

  /** `ROI(d['x1'], d['y1'], d['x2'], d['y2'])`: the keys are read in that
      order, the first missing one raises, and other keys are ignored. */
  function FromDict(d: map<string, int>): (r: Result<Roi, RoiError>)
    ensures r.Ok? <==> forall k :: k in RoiKeys ==> k in d
    ensures r.Err? ==> exists i :: 0 <= i < |RoiKeys| && r.error.key == RoiKeys[i]
                                  && RoiKeys[i] !in d && (forall j :: 0 <= j < i ==> RoiKeys[j] in d)
  {
    if "x1" !in d then assert RoiKeys[0] == "x1"; Err(MissingKey("x1"))
    else if "y1" !in d then assert RoiKeys[1] == "y1"; Err(MissingKey("y1"))
    else if "x2" !in d then assert RoiKeys[2] == "x2"; Err(MissingKey("x2"))
    else if "y2" !in d then assert RoiKeys[3] == "y2"; Err(MissingKey("y2"))
    else Ok(Roi(d["x1"], d["y1"], d["x2"], d["y2"]))
  }

  /** `from_dict(to_dict(r)) == r`, field for field. */
  lemma FromToDict(r: Roi)
    ensures FromDict(ToDict(r)) == Ok(r)
  {
  }

  /** Reading a dictionary and writing it back keeps exactly its four
      coordinate entries. */
  lemma ToFromDict(d: map<string, int>)
    requires FromDict(d).Ok?
    ensures ToDict(FromDict(d).value) == map k | k in d && k in {"x1", "y1", "x2", "y2"} :: d[k]
  {
    assert "x1" in RoiKeys && "y1" in RoiKeys && "x2" in RoiKeys && "y2" in RoiKeys;
  }

  /** `img[y1:y2, x1:x2].copy()`: the slice is a new value, so the source
      image is unchanged. */
  function Crop<T>(r: Roi, img: Image<T>): Image<T> {
    ColumnSlice(PySlice(img, r.y1, r.y2), r.x1, r.x2)
  }

  /** Inside the image, the crop is `height` rows of `width` samples, and
      sample (i, j) of the crop is sample (y1 + i, x1 + j) of the image. */
  lemma CropInside<T>(r: Roi, img: Image<T>, h: nat, w: nat)
    requires IsGrid(img, h, w)
    requires 0 <= r.x1 <= r.x2 <= w && 0 <= r.y1 <= r.y2 <= h
    ensures IsGrid(Crop(r, img), r.Height(), r.Width())
    ensures forall i, j :: 0 <= i < r.Height() && 0 <= j < r.Width() ==> Crop(r, img)[i][j] == img[r.y1 + i][r.x1 + j]
  {
    var rows := PySlice(img, r.y1, r.y2);
    assert rows == img[r.y1..r.y2];
    assert IsGrid(rows, r.Height(), w);
    ColumnSliceInside(rows, r.Height(), w, r.x1, r.x2);
  }

  /** A crop never has more rows than the image. */
  lemma CropRows<T>(r: Roi, img: Image<T>)
    ensures |Crop(r, img)| <= |img|
  {
  }

  /** `on_select`: the rectangle spanned by the press and the release, its
      corners truncated to integers. */
  function Normalize(px: real, py: real, qx: real, qy: real): (r: Roi)
    ensures r.x1 <= r.x2 && r.y1 <= r.y2
    ensures r.Width() >= 0 && r.Height() >= 0
  {
    TruncMonotone(Min(px, qx), Max(px, qx));
    TruncMonotone(Min(py, qy), Max(py, qy));
    Roi(Trunc(Min(px, qx)), Trunc(Min(py, qy)), Trunc(Max(px, qx)), Trunc(Max(py, qy)))
  }

  /** The direction of the drag does not matter, and with non-negative
      coordinates each corner is the floor of the corresponding extreme, so
      the rectangle brackets both points in x and in y. */
  lemma NormalizeIsSymmetric(px: real, py: real, qx: real, qy: real)
    ensures Normalize(px, py, qx, qy) == Normalize(qx, qy, px, py)
    ensures px >= 0.0 && qx >= 0.0 ==>
      var r := Normalize(px, py, qx, qy);
      r.x1 as real <= px && r.x1 as real <= qx && (px < r.x2 as real + 1.0 && qx < r.x2 as real + 1.0)
    ensures py >= 0.0 && qy >= 0.0 ==>
      var r := Normalize(px, py, qx, qy);
      r.y1 as real <= py && r.y1 as real <= qy && (py < r.y2 as real + 1.0 && qy < r.y2 as real + 1.0)
  {
  }

  /** A mouse position in data coordinates. */
  datatype MousePosition = MousePosition(xdata: real, ydata: real)

  /** What reaches the selector window while it is shown. */
  datatype RoiEvent = Drag(press: MousePosition, release: MousePosition) | KeyPress(key: string) | CloseWindow

  datatype SelectorState = SelectorState(roi: Option<Roi>, accepted: bool, finished: bool, open: bool)

  const InitialSelector: SelectorState := SelectorState(None, false, false, true)

  function OnEvent(st: SelectorState, e: RoiEvent): SelectorState {
    match e
    case Drag(p, q) => st.(roi := Some(Normalize(p.xdata, p.ydata, q.xdata, q.ydata)))
    case KeyPress(k) =>
      if k == "enter" then (if st.roi.Some? then st.(accepted := true, open := false) else st)
      else if k == "escape" then st.(accepted := false, open := false)
      else st
    case CloseWindow => st.(open := false)
  }

  function Replay(st: SelectorState, events: seq<RoiEvent>): SelectorState
    decreases |events|
  {
    if events == [] || st.finished || !st.open then st
    else Replay(OnEvent(st, events[0]), events[1..])
  }

  /** The return rule of `run`: the rectangle when accepted and present. */
  function Outcome(st: SelectorState): (r: Option<Roi>)
    ensures r.Some? <==> st.accepted && st.roi.Some?
    ensures r.Some? ==> r == st.roi
  {
    if st.accepted && st.roi.Some? then st.roi else None
  }

  /** `select_roi` as a function of the events it receives. */
  function SelectionOutcome(events: seq<RoiEvent>): Option<Roi> {
    Outcome(Replay(InitialSelector, events))
  }

  class RoiSelector {
    var roi: Option<Roi>
    var accepted: bool
    /** Never set by the selector itself: only closing the figure ends `run`. */
    var finished: bool
    var figureOpen: bool

    function State(): SelectorState
      reads this
    {
      SelectorState(roi, accepted, finished, figureOpen)
    }

    constructor()
      ensures State() == InitialSelector
    {
      roi := None;
      accepted := false;
      finished := false;
      figureOpen := true;
    }

    /** `on_select`: stores the normalised rectangle of the drag. */
    method OnSelect(press: MousePosition, release: MousePosition)
      modifies this`roi
      ensures roi == Some(Normalize(press.xdata, press.ydata, release.xdata, release.ydata))
    {
      var x1 := Trunc(Min(press.xdata, release.xdata));
      var y1 := Trunc(Min(press.ydata, release.ydata));
      var x2 := Trunc(Max(press.xdata, release.xdata));
      var y2 := Trunc(Max(press.ydata, release.ydata));
      roi := Some(Roi(x1, y1, x2, y2));
    }

    /** `_on_key_press`: Enter accepts and closes only when a rectangle was
        drawn; Escape rejects and closes; other keys change nothing. */
    method OnKeyPress(key: string)
      modifies this`accepted, this`figureOpen
      ensures key == "enter" && old(roi).Some? ==> accepted && !figureOpen
      ensures key == "enter" && old(roi).None? ==> unchanged(this)
      ensures key == "escape" ==> !accepted && !figureOpen
      ensures key != "enter" && key != "escape" ==> unchanged(this)
    {
      if key == "enter" {
        if roi.Some? {
          accepted := true;
          figureOpen := false;
        }
      } else if key == "escape" {
        accepted := false;
        figureOpen := false;
      }
    }

    /** `run`: handles events while the window is open, then applies the
        return rule. */
    method Run(events: seq<RoiEvent>) returns (r: Option<Roi>)
      modifies this
      ensures State() == Replay(old(State()), events)
      ensures r == Outcome(State())
    {
      var i := 0;
      while i < |events| && !finished && figureOpen
        invariant 0 <= i <= |events|
        invariant Replay(old(State()), events) == Replay(State(), events[i..])
        decreases |events| - i
      {
        assert events[i..][1..] == events[i + 1..];
        match events[i] {
          case Drag(p, q) => OnSelect(p, q);
          case KeyPress(k) => OnKeyPress(k);
          case CloseWindow => figureOpen := false;
        }
        i := i + 1;
      }
      if accepted && roi.Some? {
        r := roi;
      } else {
        r := None;
      }
    }
  }

  /** `select_roi`. */
  method SelectRoi(events: seq<RoiEvent>) returns (r: Option<Roi>)
    ensures r == SelectionOutcome(events)
  {
    var selector := new RoiSelector();
    r := selector.Run(events);
  }

  // ---------------------------------------------------------------------------
  // What the selector guarantees

  /** The selector never finishes by itself, acceptance needs a rectangle, and every stored rectangle is normalised. */
  ghost predicate Coherent(st: SelectorState) {
    && !st.finished
    && (st.accepted ==> st.roi.Some?)
    && (st.roi.Some? ==> st.roi.value.x1 <= st.roi.value.x2 && st.roi.value.y1 <= st.roi.value.y2)
  }

  lemma {:induction false} ReplayCoherent(st: SelectorState, events: seq<RoiEvent>)
    requires Coherent(st)
    ensures Coherent(Replay(st, events))
    decreases |events|
  {
    if !(events == [] || st.finished || !st.open) {
      ReplayCoherent(OnEvent(st, events[0]), events[1..]);
    }
  }

  /** The selector returns a rectangle exactly when it was accepted, and the
      rectangle it returns has x1 <= x2 and y1 <= y2. */
  lemma SelectionIsAccepted(events: seq<RoiEvent>)
    ensures SelectionOutcome(events).Some? <==> Replay(InitialSelector, events).accepted
    ensures SelectionOutcome(events).Some? ==>
      SelectionOutcome(events).value.x1 <= SelectionOutcome(events).value.x2
      && SelectionOutcome(events).value.y1 <= SelectionOutcome(events).value.y2
  {
    ReplayCoherent(InitialSelector, events);
  }

  /** Replaying two runs of events one after the other. */
  lemma {:induction false} ReplaySplit(st: SelectorState, a: seq<RoiEvent>, b: seq<RoiEvent>)
    ensures Replay(st, a + b) == Replay(Replay(st, a), b)
    decreases |a|
  {
    if a == [] {
      assert a + b == b;
    } else if st.finished || !st.open {
      assert Replay(st, a) == st;
    } else {
      assert (a + b)[1..] == a[1..] + b;
      ReplaySplit(OnEvent(st, a[0]), a[1..], b);
    }
  }

  /** An open selector handles the first event, then the rest. */
  lemma ReplayCons(st: SelectorState, e: RoiEvent, rest: seq<RoiEvent>)
    requires st.open && !st.finished
    ensures Replay(st, [e] + rest) == Replay(OnEvent(st, e), rest)
  {
    assert ([e] + rest)[1..] == rest;
  }

  /** A closed selector ignores every further event. */
  lemma ReplayClosed(st: SelectorState, events: seq<RoiEvent>)
    requires !st.open
    ensures Replay(st, events) == st
  {
  }

  /** Escape while the window is open cancels the selection, whatever was
      drawn or pressed before and after it. */
  lemma EscapeCancels(before: seq<RoiEvent>, after: seq<RoiEvent>)
    requires Replay(InitialSelector, before).open
    ensures SelectionOutcome(before + [KeyPress("escape")] + after) == None
  {
    assert before + [KeyPress("escape")] + after == before + ([KeyPress("escape")] + after);
    ReplaySplit(InitialSelector, before, [KeyPress("escape")] + after);
    ReplayCoherent(InitialSelector, before);
    var st := Replay(InitialSelector, before);
    var cancelled := st.(accepted := false, open := false);
    ReplayCons(st, KeyPress("escape"), after);
    assert OnEvent(st, KeyPress("escape")) == cancelled;
    ReplayClosed(cancelled, after);
  }

  /** Enter before any rectangle is drawn is ignored: the window stays open. */
  lemma EnterWithoutRoiIgnored(st: SelectorState, after: seq<RoiEvent>)
    requires st.open && !st.finished && st.roi.None?
    ensures Replay(st, [KeyPress("enter")] + after) == Replay(st, after)
  {
    assert ([KeyPress("enter")] + after)[1..] == after;
  }

  /** Enter after a drag accepts the normalised rectangle of the last drag. */
  lemma DragThenEnter(p: MousePosition, q: MousePosition, after: seq<RoiEvent>)
    ensures SelectionOutcome([Drag(p, q), KeyPress("enter")] + after) == Some(Normalize(p.xdata, p.ydata, q.xdata, q.ydata))
  {
    var dragged := InitialSelector.(roi := Some(Normalize(p.xdata, p.ydata, q.xdata, q.ydata)));
    var accepted := dragged.(accepted := true, open := false);
    assert [Drag(p, q), KeyPress("enter")] + after == [Drag(p, q)] + ([KeyPress("enter")] + after);
    ReplayCons(InitialSelector, Drag(p, q), [KeyPress("enter")] + after);
    assert OnEvent(InitialSelector, Drag(p, q)) == dragged;
    ReplayCons(dragged, KeyPress("enter"), after);
    assert OnEvent(dragged, KeyPress("enter")) == accepted;
    ReplayClosed(accepted, after);
  }
}
