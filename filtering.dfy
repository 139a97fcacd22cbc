/** `filter_blobs`: Python's stable `sorted(..., key=diam_px, reverse=True)`
    followed by the slice `[:max_blobs]`. */
module Filtering {
  import opened Common
  import opened Detection

  /** Non-increasing in `diam_px`. */
  ghost predicate SortedByDiamDesc(s: seq<Blob>) {
    forall i, j :: 0 <= i < j < |s| ==> s[i].diam >= s[j].diam
  }

  /** The blobs of `s` whose diameter is `d`, in their order in `s`. A sort is
      stable when it leaves this subsequence unchanged for every `d`. */
  function WithDiam(s: seq<Blob>, d: real): seq<Blob> {
    if s == [] then []
    else (if s[0].diam == d then [s[0]] else []) + WithDiam(s[1..], d)
  }

  lemma {:induction false} WithDiamAppend(a: seq<Blob>, b: seq<Blob>, d: real)
    ensures WithDiam(a + b, d) == WithDiam(a, d) + WithDiam(b, d)
  {
    if a == [] {
      assert a + b == b;
    } else {
      var head := if a[0].diam == d then [a[0]] else [];
      assert (a + b)[0] == a[0] && (a + b)[1..] == a[1..] + b;
      assert WithDiam(a + b, d) == head + WithDiam(a[1..] + b, d);
      WithDiamAppend(a[1..], b, d);
      assert head + (WithDiam(a[1..], d) + WithDiam(b, d)) == (head + WithDiam(a[1..], d)) + WithDiam(b, d);
    }
  }

  /** Puts `b` in front of the first blob that is not strictly larger, so `b`
      stays ahead of the blobs of equal diameter that followed it. */
  function Insert(b: Blob, s: seq<Blob>): seq<Blob> {
    if s == [] || b.diam >= s[0].diam then [b] + s
    else [s[0]] + Insert(b, s[1..])
  }

  lemma {:induction false} InsertPermutes(b: Blob, s: seq<Blob>)
    ensures multiset(Insert(b, s)) == multiset(s) + multiset{b}
    ensures forall x :: x in Insert(b, s) <==> x == b || x in s
  {
    if s != [] && b.diam < s[0].diam {
      InsertPermutes(b, s[1..]);
      assert s == [s[0]] + s[1..];
    }
  }

  lemma {:induction false} InsertSorted(b: Blob, s: seq<Blob>)
    requires SortedByDiamDesc(s)
    ensures SortedByDiamDesc(Insert(b, s))
  {
    if s != [] && b.diam < s[0].diam {
      var tail := Insert(b, s[1..]);
      InsertSorted(b, s[1..]);
      InsertPermutes(b, s[1..]);
      var r := [s[0]] + tail;
      forall i, j | 0 <= i < j < |r| ensures r[i].diam >= r[j].diam {
        if i > 0 {
          assert r[i] == tail[i - 1] && r[j] == tail[j - 1];
        } else {
          assert r[j] in tail;
          assert r[j] == b || r[j] in s[1..];
        }
      }
    }
  }

  /** `sorted(blobs, key=lambda b: b["diam_px"], reverse=True)`, as an
      insertion sort. */
  function SortByDiamDesc(s: seq<Blob>): seq<Blob> {
    if s == [] then []
    else Insert(s[0], SortByDiamDesc(s[1..]))
  }

  /** The sort is a non-increasing permutation of its input. */
  lemma {:induction false} SortByDiamDescSorts(s: seq<Blob>)
    ensures multiset(SortByDiamDesc(s)) == multiset(s)
    ensures SortedByDiamDesc(SortByDiamDesc(s))
  {
    if s != [] {
      var tail := SortByDiamDesc(s[1..]);
      SortByDiamDescSorts(s[1..]);
      InsertPermutes(s[0], tail);
      InsertSorted(s[0], tail);
      assert s == [s[0]] + s[1..];
    }
  }

  lemma {:induction false} InsertWithDiam(b: Blob, s: seq<Blob>, d: real)
    ensures WithDiam(Insert(b, s), d) == if b.diam == d then [b] + WithDiam(s, d) else WithDiam(s, d)
  {
    if s == [] || b.diam >= s[0].diam {
      assert ([b] + s)[1..] == s;
    } else {
      InsertWithDiam(b, s[1..], d);
      assert ([s[0]] + Insert(b, s[1..]))[1..] == Insert(b, s[1..]);
    }
  }

  /** The sort is stable: for every diameter, the blobs of that diameter keep
      their original relative order. */
  lemma {:induction false} SortIsStable(s: seq<Blob>, d: real)
    ensures WithDiam(SortByDiamDesc(s), d) == WithDiam(s, d)
  {
    if s != [] {
      var tail := SortByDiamDesc(s[1..]);
      assert SortByDiamDesc(s) == Insert(s[0], tail);
      SortIsStable(s[1..], d);
      InsertWithDiam(s[0], tail, d);
    }
  }

  /** A prefix of a sorted sequence is sorted and made of its elements, and
      nothing after the prefix is larger than anything in it. */
  lemma PrefixIsTop(s: seq<Blob>, m: nat)
    requires m <= |s| && SortedByDiamDesc(s)
    ensures SortedByDiamDesc(s[..m])
    ensures multiset(s[..m]) <= multiset(s)
    ensures multiset(s) - multiset(s[..m]) == multiset(s[m..])
    ensures forall x, y :: x in multiset(s) - multiset(s[..m]) && y in s[..m] ==> x.diam <= y.diam
  {
    assert s == s[..m] + s[m..];
    forall x, y | x in multiset(s[m..]) && y in s[..m] ensures x.diam <= y.diam {
      assert x in s[m..];
    }
  }

  /** `filter_blobs(blobs, max_blobs)`: the first `max_blobs` of the sorted
      blobs (for a negative `max_blobs` the slice drops that many from the end). */
  function FilterBlobs(blobs: seq<Blob>, maxBlobs: int): (r: seq<Blob>)
    ensures maxBlobs >= 0 ==> |r| == if maxBlobs < |blobs| then maxBlobs else |blobs|
    ensures maxBlobs < 0 ==> |r| == if |blobs| + maxBlobs < 0 then 0 else |blobs| + maxBlobs
  {
    var sorted := SortByDiamDesc(blobs);
    SortByDiamDescSorts(blobs);
    assert |sorted| == |multiset(sorted)| == |multiset(blobs)| == |blobs|;
    sorted[..SliceBound(maxBlobs, |sorted|)]
  }

  /** The kept blobs are in non-increasing diameter order and are drawn from
      the input (as a multiset: no blob is kept more often than it occurs). */
  lemma FilterSortedSelection(blobs: seq<Blob>, maxBlobs: int)
    ensures SortedByDiamDesc(FilterBlobs(blobs, maxBlobs))
    ensures multiset(FilterBlobs(blobs, maxBlobs)) <= multiset(blobs)
  {
    var sorted := SortByDiamDesc(blobs);
    SortByDiamDescSorts(blobs);
    PrefixIsTop(sorted, SliceBound(maxBlobs, |sorted|));
  }

  /** Top-k: every blob the slice drops is no larger than any blob it keeps. */
  lemma FilterKeepsLargest(blobs: seq<Blob>, maxBlobs: int)
    ensures forall x, y :: x in multiset(blobs) - multiset(FilterBlobs(blobs, maxBlobs)) && y in FilterBlobs(blobs, maxBlobs) ==> x.diam <= y.diam
  {
    var sorted := SortByDiamDesc(blobs);
    SortByDiamDescSorts(blobs);
    PrefixIsTop(sorted, SliceBound(maxBlobs, |sorted|));
  }

  /** Filtering keeps, for every diameter, a prefix of the input's blobs of that
      diameter: among equal blobs, the earlier ones are kept. */
  lemma FilterIsStable(blobs: seq<Blob>, maxBlobs: int, d: real)
    ensures exists rest :: WithDiam(blobs, d) == WithDiam(FilterBlobs(blobs, maxBlobs), d) + rest
  {
    var sorted := SortByDiamDesc(blobs);
    var m := SliceBound(maxBlobs, |sorted|);
    assert sorted == sorted[..m] + sorted[m..];
    WithDiamAppend(sorted[..m], sorted[m..], d);
    SortIsStable(blobs, d);
  }

  /** No input blob is lost by sorting, and filtering never invents a blob. */
  lemma FilterKeepsInputBlobs(blobs: seq<Blob>, maxBlobs: int)
    ensures forall b :: b in FilterBlobs(blobs, maxBlobs) ==> b in blobs
    ensures maxBlobs >= |blobs| ==> multiset(FilterBlobs(blobs, maxBlobs)) == multiset(blobs)
  {
    var r := FilterBlobs(blobs, maxBlobs);
    FilterSortedSelection(blobs, maxBlobs);
    forall b | b in r ensures b in blobs {
      assert b in multiset(r);
    }
    if maxBlobs >= |blobs| {
      var sorted := SortByDiamDesc(blobs);
      SortByDiamDescSorts(blobs);
      assert sorted[..|sorted|] == sorted;
    }
  }
}
