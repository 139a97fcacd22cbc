/** Shared vocabulary of the model: optional values and results (Python's `None`
    and raised exceptions), Python's `abs` and `int(float)`, and the semantics
    of a Python/NumPy slice `s[start:stop]`, which clamps its bounds and counts
    negative bounds from the end. */
module Common {

  datatype Option<+T> = None | Some(value: T) {
    /** The value, or `default` when there is none. */
    function GetOr(default: T): T {
      match this
      case Some(v) => v
      case None => default
    }
  }

  datatype Result<+T, +E> = Ok(value: T) | Err(error: E)

  /** Python's `abs` on integers. */
  function Abs(x: int): nat {
    if x < 0 then -x else x
  }

  function Min(a: real, b: real): real {
    if a <= b then a else b
  }

  function Max(a: real, b: real): real {
    if a <= b then b else a
  }

  /** Python's `int(x)` on a float: truncation toward zero. */
  function Trunc(x: real): (r: int)
    ensures x >= 0.0 ==> r as real <= x < r as real + 1.0
    ensures x < 0.0 ==> r as real - 1.0 < x <= r as real
  {
    if x >= 0.0 then x.Floor else -((-x).Floor)
  }

  /** `int(...)` keeps the order of its arguments. */
  lemma TruncMonotone(x: real, y: real)
    requires x <= y
    ensures Trunc(x) <= Trunc(y)
  {
  }

  /** How Python normalises one bound of a slice of a sequence of length `n`. */
  function SliceBound(i: int, n: nat): (r: nat)
    ensures r <= n
    ensures 0 <= i <= n ==> r == i
    ensures i > n ==> r == n
    ensures i < 0 ==> r == if i + n < 0 then 0 else i + n
  {
    if i < 0 then (if i + n < 0 then 0 else i + n)
    else if i > n then n
    else i
  }

  /** `s[start:stop]` (step 1). */
  function PySlice<T>(s: seq<T>, start: int, stop: int): (r: seq<T>)
    ensures |r| <= |s|
    ensures 0 <= start <= stop <= |s| ==> r == s[start..stop]
  {
    var a := SliceBound(start, |s|);
    var b := SliceBound(stop, |s|);
    if a < b then s[a..b] else []
  }

  /** A 2-D NumPy array, row by row. */
  type Image<T> = seq<seq<T>>

  /** `img` has `h` rows of `w` samples each. */
  ghost predicate IsGrid<T>(img: Image<T>, h: nat, w: nat) {
    |img| == h && forall y :: 0 <= y < |img| ==> |img[y]| == w
  }

  /** `img[:, x0:x1]`: every row, the columns of one slice. */
  function ColumnSlice<T>(img: Image<T>, x0: int, x1: int): (r: Image<T>)
    ensures |r| == |img|
    ensures forall y :: 0 <= y < |r| ==> r[y] == PySlice(img[y], x0, x1)
  {
    seq(|img|, y requires 0 <= y < |img| => PySlice(img[y], x0, x1))
  }

  /** A column slice taken inside the grid has the requested shape and samples. */
  lemma ColumnSliceInside<T>(img: Image<T>, h: nat, w: nat, x0: int, x1: int)
    requires IsGrid(img, h, w)
    requires 0 <= x0 <= x1 <= w
    ensures IsGrid(ColumnSlice(img, x0, x1), h, x1 - x0)
    ensures forall y, x :: 0 <= y < h && 0 <= x < x1 - x0 ==> ColumnSlice(img, x0, x1)[y][x] == img[y][x0 + x]
  {
  }
}
