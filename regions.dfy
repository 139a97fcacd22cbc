/** `split_columns`: the degree labels deg_start, deg_start - 1, ..., deg_end
    are given consecutive column bands of a fixed width, left to right, each
    band keeping every row of the image. */
module Regions {
  import opened Common

  /** `list(range(deg_start, deg_end - 1, -1))` */
  function Degrees(degStart: int, degEnd: int): (r: seq<int>)
    ensures |r| == if degStart < degEnd then 0 else degStart - degEnd + 1
    ensures forall i :: 0 <= i < |r| ==> r[i] == degStart - i
  {
    var n := if degStart < degEnd then 0 else degStart - degEnd + 1;
    seq(n, i requires 0 <= i < n => degStart - i)
  }

  /** The labels are exactly the integers from deg_end up to deg_start, each once. */
  lemma DegreesAreTheLabels(degStart: int, degEnd: int)
    ensures forall d :: d in Degrees(degStart, degEnd) <==> degEnd <= d <= degStart
    ensures forall i, j :: 0 <= i < j < |Degrees(degStart, degEnd)| ==> Degrees(degStart, degEnd)[i] > Degrees(degStart, degEnd)[j]
  {
    var ds := Degrees(degStart, degEnd);
    forall d | degEnd <= d <= degStart ensures d in ds {
      assert ds[degStart - d] == d;
    }
  }

  /** `img[:, i * width : i * width + width]`: the band of the i-th label. */
  function Band<T>(img: Image<T>, i: int, width: int): Image<T> {
    ColumnSlice(img, i * width, i * width + width)
  }

  /** `split_columns(img, deg_start, deg_end, width)` */
  method SplitColumns<T>(img: Image<T>, degStart: int, degEnd: int, width: int) returns (regions: map<int, Image<T>>)
    ensures forall d :: d in regions <==> degEnd <= d <= degStart
    ensures forall d :: d in regions ==> regions[d] == Band(img, degStart - d, width)
  {
    var degrees := Degrees(degStart, degEnd);
    regions := map[];
    for i := 0 to |degrees|
      invariant forall d :: d in regions <==> degStart - i < d <= degStart
      invariant forall d :: d in regions ==> regions[d] == Band(img, degStart - d, width)
    {
      var d := degrees[i];
      var x0 := i * width;
      var x1 := x0 + width;
      regions := regions[d := ColumnSlice(img, x0, x1)];
    }
  }

  /** Inside the image every band has all the rows and exactly `width`
      columns, and column x of the band is column i * width + x of the image. */
  lemma BandInside<T>(img: Image<T>, h: nat, w: nat, i: nat, width: nat)
    requires IsGrid(img, h, w)
    requires (i + 1) * width <= w
    ensures IsGrid(Band(img, i, width), h, width)
    ensures forall y, x :: 0 <= y < h && 0 <= x < width ==> Band(img, i, width)[y][x] == img[y][i * width + x]
  {
    assert i * width + width == (i + 1) * width;
    ColumnSliceInside(img, h, w, i * width, i * width + width);
  }

  /** A positive multiple of a non-negative width is at least the width. */
  lemma {:induction false} MulAtLeast(k: nat, width: nat)
    requires k >= 1
    ensures k * width >= width
    decreases k
  {
    if k > 1 {
      MulAtLeast(k - 1, width);
      assert k * width == (k - 1) * width + width;
    }
  }

  /** Bands are disjoint: a column at offset x of band i, with 0 <= x < width,
      is column c only for band c / width and offset c % width. */
  lemma ColumnOwner(width: int, c: int, i: int, x: int)
    requires width > 0 && 0 <= x < width && i * width + x == c
    ensures i == c / width && x == c % width
  {
    var q, m := c / width, c % width;
    assert q * width + m == c;
    var k := i - q;
    assert k * width == i * width - q * width;
    assert k * width == m - x;
    if k >= 1 {
      MulAtLeast(k, width);
    }
  }

  /** When `n` bands fit in the image, every column c left of n * width lies
      in band c / width, one of the n, at offset c % width, and the band
      holds the image's sample there. */
  lemma BandsCoverColumns<T>(img: Image<T>, h: nat, w: nat, n: nat, width: nat, c: nat)
    requires IsGrid(img, h, w) && width > 0
    requires n * width <= w && c < n * width
    ensures c / width < n
    ensures IsGrid(Band(img, c / width, width), h, width)
    ensures forall y :: 0 <= y < h ==> Band(img, c / width, width)[y][c % width] == img[y][c]
  {
    var i := c / width;
    assert i * width + c % width == c;
    assert i < n;
    if n - (i + 1) >= 1 {
      MulAtLeast(n - (i + 1), width);
    }
    assert n * width == (i + 1) * width + (n - (i + 1)) * width;
    BandInside(img, h, w, i, width);
  }
}
