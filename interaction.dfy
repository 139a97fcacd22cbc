/** `ManualReviewInterface` without drawing: one flag per blob says whether
    the blob is kept, mouse clicks toggle the first blob patch under the
    cursor, keys select all, deselect all, accept or cancel, and the review
    returns the kept blobs in their original order. The event loop of
    matplotlib is an explicit sequence of events. */
module Interaction {
  import opened Common
  import opened Detection

  /** `[v] * n` */
  function AllFlags(n: nat, v: bool): (r: seq<bool>)
    ensures |r| == n && forall i :: 0 <= i < n ==> r[i] == v
  {
    seq(n, _ => v)
  }

  /** `sum(selected)`: the number of True flags. */
  function CountTrue(s: seq<bool>): (r: nat)
    ensures r <= |s|
  {
    if s == [] then 0 else (if s[0] then 1 else 0) + CountTrue(s[1..])
  }

  /** `[b for i, b in enumerate(blobs) if selected[i]]` */
  function SelectedBlobs(blobs: seq<Blob>, selected: seq<bool>): (r: seq<Blob>)
    requires |selected| == |blobs|
    ensures |r| == CountTrue(selected)
    ensures forall b :: b in r ==> b in blobs
  {
    if blobs == [] then []
    else (if selected[0] then [blobs[0]] else []) + SelectedBlobs(blobs[1..], selected[1..])
  }

  /** The index of the first of the `n` patches that contains the click, if
      any; `hits` is the set of indices whose `contains(event)` is true. */
  function FirstHit(hits: set<nat>, i: nat, n: nat): (r: Option<nat>)
    ensures r.Some? <==> exists j :: i <= j < n && j in hits
    ensures r.Some? ==> i <= r.value < n && r.value in hits && forall j :: i <= j < r.value ==> j !in hits
    decreases n - i
  {
    if i >= n then None
    else if i in hits then Some(i)
    else FirstHit(hits, i + 1, n)
  }

  /** A mouse press: whether it fell inside the image axes, its x coordinate
      in data units (None off the data area) and the patches containing it. */
  datatype ClickEvent = ClickEvent(inAxes: bool, xdata: Option<real>, hits: set<nat>)

  /** What reaches the review window while it is shown. */
  datatype ReviewEvent = Click(click: ClickEvent) | KeyPress(key: string) | CloseWindow

  /** The selection flags, the `finished` flag and whether the figure is open. */
  datatype ReviewState = ReviewState(selected: seq<bool>, finished: bool, open: bool)

  /** The state right after construction. */
  function InitialReview(n: nat): ReviewState {
    ReviewState(AllFlags(n, true), false, true)
  }

  /** The flags after a click: the first patch under the cursor flips, and a
      click outside the axes or without data coordinates changes nothing. */
  function ClickEffect(selected: seq<bool>, e: ClickEvent): seq<bool> {
    if !e.inAxes || e.xdata.None? then selected
    else
      match FirstHit(e.hits, 0, |selected|)
      case None => selected
      case Some(k) => selected[k := !selected[k]]
  }

  /** The state after a key press. */
  function KeyEffect(st: ReviewState, key: string): ReviewState {
    if key == "a" then st.(selected := AllFlags(|st.selected|, true))
    else if key == "d" then st.(selected := AllFlags(|st.selected|, false))
    else if key == "enter" then st.(finished := true, open := false)
    else if key == "escape" then ReviewState(AllFlags(|st.selected|, true), false, false)
    else st
  }

  function OnEvent(st: ReviewState, e: ReviewEvent): ReviewState {
    match e
    case Click(c) => st.(selected := ClickEffect(st.selected, c))
    case KeyPress(k) => KeyEffect(st, k)
    case CloseWindow => st.(open := false)
  }

  /** `while not self.finished and plt.fignum_exists(...)`: events are handled
      until the review is finished or its window is gone. */
  function Replay(st: ReviewState, events: seq<ReviewEvent>): (r: ReviewState)
    ensures |r.selected| == |st.selected|
    decreases |events|
  {
    if events == [] || st.finished || !st.open then st
    else Replay(OnEvent(st, events[0]), events[1..])
  }

  /** `manual_select` as a function of the events it receives. */
  function ReviewOutcome(blobs: seq<Blob>, events: seq<ReviewEvent>): seq<Blob> {
    if blobs == [] then blobs
    else
      SelectedBlobs(blobs, Replay(InitialReview(|blobs|), events).selected)
  }

  class ManualReviewInterface {
    const blobs: seq<Blob>
    var selected: seq<bool>
    var finished: bool
    /** Whether the figure still exists (`plt.fignum_exists`). */
    var figureOpen: bool

    ghost predicate Valid()
      reads this
    {
      |selected| == |blobs|
    }

    function State(): ReviewState
      reads this
    {
      ReviewState(selected, finished, figureOpen)
    }

    /** Every blob starts selected, the review is not finished. */
    constructor(blobs: seq<Blob>)
      ensures Valid()
      ensures this.blobs == blobs
      ensures selected == AllFlags(|blobs|, true)
      ensures !finished && figureOpen
    {
      this.blobs := blobs;
      selected := AllFlags(|blobs|, true);
      finished := false;
      figureOpen := true;
    }

    /** The two numbers of the title: selected count and total count. */
    function TitleCounts(): (r: (nat, nat))
      reads this
      requires Valid()
      ensures r.0 <= r.1 == |blobs|
      ensures r.0 == |SelectedBlobs(blobs, selected)|
    {
      (CountTrue(selected), |blobs|)
    }

    /** `_on_click`: flips the flag of the first patch containing the click. */
    method OnClick(e: ClickEvent)
      requires Valid()
      modifies this`selected
      ensures Valid()
      ensures !e.inAxes || e.xdata.None? ==> selected == old(selected)
      ensures e.inAxes && e.xdata.Some? ==>
        match FirstHit(e.hits, 0, |blobs|)
        case None => selected == old(selected)
        case Some(k) => selected == old(selected)[k := !old(selected)[k]]
    {
      if !e.inAxes || e.xdata.None? {
        return;
      }
      for i := 0 to |blobs|
        invariant selected == old(selected)
        invariant FirstHit(e.hits, 0, |blobs|) == FirstHit(e.hits, i, |blobs|)
      {
        if i in e.hits {
          selected := selected[i := !selected[i]];
          break;
        }
      }
    }

    /** `_on_key_press`: "a" selects every blob, "d" deselects every blob,
        "enter" accepts and closes, "escape" restores every blob and closes
        without finishing; any other key changes nothing. */
    method OnKeyPress(key: string)
      requires Valid()
      modifies this
      ensures Valid()
      ensures key == "a" ==> selected == AllFlags(|blobs|, true) && unchanged(this`finished, this`figureOpen)
      ensures key == "d" ==> selected == AllFlags(|blobs|, false) && unchanged(this`finished, this`figureOpen)
      ensures key == "enter" ==> selected == old(selected) && finished && !figureOpen
      ensures key == "escape" ==> selected == AllFlags(|blobs|, true) && !finished && !figureOpen
      ensures key !in {"a", "d", "enter", "escape"} ==> unchanged(this)
    {
      if key == "a" {
        selected := AllFlags(|blobs|, true);
      } else if key == "d" {
        selected := AllFlags(|blobs|, false);
      } else if key == "enter" {
        finished := true;
        figureOpen := false;
      } else if key == "escape" {
        selected := AllFlags(|blobs|, true);
        finished := false;
        figureOpen := false;
      }
    }

    /** `run`: handles events while the review is open and unfinished, then
        returns the selected blobs in their original order. */
    method Run(events: seq<ReviewEvent>) returns (r: seq<Blob>)
      requires Valid()
      modifies this
      ensures Valid()
      ensures State() == Replay(old(State()), events)
      ensures r == SelectedBlobs(blobs, selected)
    {
      var i := 0;
      while i < |events| && !finished && figureOpen
        invariant 0 <= i <= |events|
        invariant Valid()
        invariant Replay(old(State()), events) == Replay(State(), events[i..])
        decreases |events| - i
      {
        assert events[i..][1..] == events[i + 1..];
        match events[i] {
          case Click(c) => OnClick(c);
          case KeyPress(k) => OnKeyPress(k);
          case CloseWindow => figureOpen := false;
        }
        i := i + 1;
      }
      r := SelectedBlobs(blobs, selected);
    }
  }

  /** `manual_select`: an empty list is returned as it is, without a review. */
  method ManualSelect(blobs: seq<Blob>, events: seq<ReviewEvent>) returns (r: seq<Blob>)
    ensures r == ReviewOutcome(blobs, events)
  {
    if blobs == [] {
      return blobs;
    }
    var reviewer := new ManualReviewInterface(blobs);
    r := reviewer.Run(events);
  }

  // ---------------------------------------------------------------------------
  // What the review guarantees

  /** The positions, counted from `base`, of the set flags. */
  function IndicesFrom(selected: seq<bool>, base: nat): seq<nat> {
    if selected == [] then []
    else (if selected[0] then [base] else []) + IndicesFrom(selected[1..], base + 1)
  }

  /** The positions are increasing, lie in range and are exactly the set flags. */
  lemma {:induction false} IndicesFromExact(selected: seq<bool>, base: nat)
    ensures var idx := IndicesFrom(selected, base);
      && (forall k :: 0 <= k < |idx| ==> base <= idx[k] < base + |selected|)
      && (forall k, l :: 0 <= k < l < |idx| ==> idx[k] < idx[l])
      && (forall i :: 0 <= i < |selected| ==> (selected[i] <==> base + i in idx))
  {
    if selected != [] {
      var tail := IndicesFrom(selected[1..], base + 1);
      IndicesFromExact(selected[1..], base + 1);
      var head: seq<nat> := if selected[0] then [base] else [];
      var idx := head + tail;
      assert IndicesFrom(selected, base) == idx;
      forall k | 0 <= k < |idx| ensures base <= idx[k] < base + |selected| {
        if k >= |head| { assert idx[k] == tail[k - |head|]; }
      }
      forall k, l | 0 <= k < l < |idx| ensures idx[k] < idx[l] {
        assert idx[l] == tail[l - |head|];
        if k >= |head| { assert idx[k] == tail[k - |head|]; }
      }
      forall i | 0 <= i < |selected| ensures selected[i] <==> base + i in idx {
        if i > 0 {
          assert selected[i] == selected[1..][i - 1];
          assert base + i in idx <==> base + i in tail;
        }
      }
    }
  }

  /** The k-th selected blob sits at the k-th position. */
  lemma {:induction false} SelectedAtIndices(blobs: seq<Blob>, selected: seq<bool>, base: nat)
    requires |selected| == |blobs|
    ensures |IndicesFrom(selected, base)| == |SelectedBlobs(blobs, selected)|
    ensures forall k :: 0 <= k < |IndicesFrom(selected, base)| ==>
      base <= IndicesFrom(selected, base)[k] < base + |blobs|
      && SelectedBlobs(blobs, selected)[k] == blobs[IndicesFrom(selected, base)[k] - base]
  {
    if blobs != [] {
      var tail := IndicesFrom(selected[1..], base + 1);
      var rest := SelectedBlobs(blobs[1..], selected[1..]);
      SelectedAtIndices(blobs[1..], selected[1..], base + 1);
      var head: seq<nat> := if selected[0] then [base] else [];
      var idx := head + tail;
      var r := (if selected[0] then [blobs[0]] else []) + rest;
      assert IndicesFrom(selected, base) == idx && SelectedBlobs(blobs, selected) == r;
      forall k | 0 <= k < |idx| ensures base <= idx[k] < base + |blobs| && r[k] == blobs[idx[k] - base] {
        if k >= |head| {
          var j := k - |head|;
          assert idx[k] == tail[j] && r[k] == rest[j];
          assert blobs[1..][tail[j] - (base + 1)] == blobs[idx[k] - base];
        }
      }
    }
  }

  /** The result lists exactly the blobs whose flag is set, in their order:
      `idx` holds their positions, increasing. */
  lemma SelectedIsSubsequence(blobs: seq<Blob>, selected: seq<bool>) returns (idx: seq<nat>)
    requires |selected| == |blobs|
    ensures |idx| == |SelectedBlobs(blobs, selected)|
    ensures forall k :: 0 <= k < |idx| ==> idx[k] < |blobs| && SelectedBlobs(blobs, selected)[k] == blobs[idx[k]]
    ensures forall k, l :: 0 <= k < l < |idx| ==> idx[k] < idx[l]
    ensures forall i :: 0 <= i < |blobs| ==> (selected[i] <==> i in idx)
  {
    idx := IndicesFrom(selected, 0);
    IndicesFromExact(selected, 0);
    SelectedAtIndices(blobs, selected, 0);
  }

  /** Selecting all returns the blobs unchanged; deselecting all returns none. */
  lemma {:induction false} SelectAllOrNone(blobs: seq<Blob>)
    ensures SelectedBlobs(blobs, AllFlags(|blobs|, true)) == blobs
    ensures SelectedBlobs(blobs, AllFlags(|blobs|, false)) == []
  {
    if blobs != [] {
      SelectAllOrNone(blobs[1..]);
      assert AllFlags(|blobs|, true)[1..] == AllFlags(|blobs| - 1, true);
      assert AllFlags(|blobs|, false)[1..] == AllFlags(|blobs| - 1, false);
    }
  }

  /** Toggling one flag moves the title's selected count by exactly one. */
  lemma {:induction false} ToggleCount(s: seq<bool>, k: nat)
    requires k < |s|
    ensures CountTrue(s[k := !s[k]]) == if s[k] then CountTrue(s) - 1 else CountTrue(s) + 1
  {
    if k > 0 {
      ToggleCount(s[1..], k - 1);
      assert s[k := !s[k]][1..] == s[1..][k - 1 := !s[k]];
    }
  }

  /** The selected count is the total exactly when every blob is selected. */
  lemma {:induction false} CountAllSelected(s: seq<bool>)
    ensures CountTrue(s) == |s| <==> forall i :: 0 <= i < |s| ==> s[i]
  {
    if s != [] {
      CountAllSelected(s[1..]);
      if forall i :: 0 <= i < |s| - 1 ==> s[1..][i] {
        assert forall i :: 1 <= i < |s| ==> s[i] == s[1..][i - 1];
      }
    }
  }

  /** A click changes at most one flag, and only inside the axes. */
  lemma ClickChangesOneFlag(selected: seq<bool>, e: ClickEvent)
    ensures |ClickEffect(selected, e)| == |selected|
    ensures forall i :: 0 <= i < |selected| && ClickEffect(selected, e)[i] != selected[i] ==>
      e.inAxes && e.xdata.Some? && FirstHit(e.hits, 0, |selected|) == Some(i)
  {
  }

  /** An open, unfinished review handles the first event, then the rest. */
  lemma ReplayCons(st: ReviewState, e: ReviewEvent, rest: seq<ReviewEvent>)
    requires st.open && !st.finished
    ensures Replay(st, [e] + rest) == Replay(OnEvent(st, e), rest)
  {
    assert ([e] + rest)[1..] == rest;
  }

  /** A closed review ignores every further event. */
  lemma ReplayClosed(st: ReviewState, events: seq<ReviewEvent>)
    requires !st.open
    ensures Replay(st, events) == st
  {
  }

  /** Escape ends the review with every blob kept, whatever happened before. */
  lemma CancelKeepsAll(blobs: seq<Blob>, before: seq<ReviewEvent>, after: seq<ReviewEvent>)
    requires blobs != []
    requires var st := Replay(InitialReview(|blobs|), before); !st.finished && st.open
    ensures ReviewOutcome(blobs, before + [KeyPress("escape")] + after) == blobs
  {
    assert before + [KeyPress("escape")] + after == before + ([KeyPress("escape")] + after);
    ReplaySplit(InitialReview(|blobs|), before, [KeyPress("escape")] + after);
    var st := Replay(InitialReview(|blobs|), before);
    var cancelled := ReviewState(AllFlags(|blobs|, true), false, false);
    ReplayCons(st, KeyPress("escape"), after);
    assert OnEvent(st, KeyPress("escape")) == cancelled;
    ReplayClosed(cancelled, after);
    SelectAllOrNone(blobs);
  }

  /** Enter ends the review with the selection as it stood. */
  lemma AcceptKeepsSelection(blobs: seq<Blob>, before: seq<ReviewEvent>, after: seq<ReviewEvent>)
    requires blobs != []
    requires var st := Replay(InitialReview(|blobs|), before); !st.finished && st.open
    ensures ReviewOutcome(blobs, before + [KeyPress("enter")] + after)
        == SelectedBlobs(blobs, Replay(InitialReview(|blobs|), before).selected)
  {
    assert before + [KeyPress("enter")] + after == before + ([KeyPress("enter")] + after);
    ReplaySplit(InitialReview(|blobs|), before, [KeyPress("enter")] + after);
    var st := Replay(InitialReview(|blobs|), before);
    var done := st.(finished := true, open := false);
    ReplayCons(st, KeyPress("enter"), after);
    assert OnEvent(st, KeyPress("enter")) == done;
    ReplayClosed(done, after);
  }

  /** Replaying two runs of events one after the other. */
  lemma {:induction false} ReplaySplit(st: ReviewState, a: seq<ReviewEvent>, b: seq<ReviewEvent>)
    ensures Replay(st, a + b) == Replay(Replay(st, a), b)
    decreases |a|
  {
    if a == [] {
      assert a + b == b;
    } else if st.finished || !st.open {
      assert Replay(st, a) == st;
      if b != [] {
        assert a + b != [];
      }
    } else {
      assert (a + b)[1..] == a[1..] + b;
      ReplaySplit(OnEvent(st, a[0]), a[1..], b);
    }
  }
}
