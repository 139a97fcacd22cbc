/** The per-contour acceptance loop of `detect_blobs`. Everything before it
    (morphological closing, binarisation, contour extraction) and the geometry
    OpenCV computes for a contour are given: each contour arrives as a record
    holding its area, its number of points and the results of both fits. */
module Detection {
  import opened Common
  import opened Config

  /** MIN_CONTOUR_AREA */
  const MinContourArea: real := 20.0

  /** A contour needs this many points before an ellipse is fitted. */
  const MinEllipsePoints: nat := 5

  datatype Point = Point(x: real, y: real)

  /** `cv2.fitEllipse`: ((x, y), (MA, ma), angle). */
  datatype Ellipse = Ellipse(center: Point, major: real, minor: real, angle: real)

  /** `cv2.minEnclosingCircle`: ((x, y), r). */
  datatype Circle = Circle(center: Point, radius: real)

  /** One external contour with what OpenCV reports about it. `rootAxes` is the
      float `(MA * ma) ** 0.5` of its fitted ellipse (Dafny has no square root). */
  datatype Contour = Contour(area: real, points: nat, ellipse: Ellipse, circle: Circle, rootAxes: real)

  /** The blob dictionary {"center", "diam_px", "ellipse"}. */
  datatype Blob = Blob(center: Point, diam: real, ellipse: Option<Ellipse>)

  /** `rootAxes` is the non-negative square root of the product of the axes. */
  ghost predicate RootIsExact(c: Contour) {
    c.rootAxes >= 0.0 && c.rootAxes * c.rootAxes == c.ellipse.major * c.ellipse.minor
  }

  /** The blob a contour would give: the ellipse fit with at least five
      points, the enclosing circle otherwise. */
  function Measure(c: Contour): Blob {
    if c.points >= MinEllipsePoints then Blob(c.ellipse.center, c.rootAxes, Some(c.ellipse))
    else Blob(c.circle.center, 2.0 * c.circle.radius, None)
  }

  /** The contour is large enough and its diameter lies in the inclusive range. */
  predicate Accepts(c: Contour, minDiam: real, maxDiam: real) {
    c.area >= MinContourArea && minDiam <= Measure(c).diam <= maxDiam
  }

  /** The blobs of the accepted contours, in discovery order. */
  function AcceptedBlobs(cs: seq<Contour>, minDiam: real, maxDiam: real): seq<Blob> {
    if cs == [] then []
    else
      var rest := AcceptedBlobs(cs[..|cs| - 1], minDiam, maxDiam);
      var c := cs[|cs| - 1];
      if Accepts(c, minDiam, maxDiam) then rest + [Measure(c)] else rest
  }

  /** The contour loop of `detect_blobs`, reading "min_diam" and "max_diam" from `params`. */
  method DetectBlobs(contours: seq<Contour>, params: DetectionConfig) returns (blobs: seq<Blob>)
    ensures blobs == AcceptedBlobs(contours, params.minDiam, params.maxDiam)
  {
    blobs := [];
    for i := 0 to |contours|
      invariant blobs == AcceptedBlobs(contours[..i], params.minDiam, params.maxDiam)
    {
      assert contours[..i + 1][..i] == contours[..i];
      var c := contours[i];
      if c.area < MinContourArea {
        continue;
      }
      var center: Point;
      var d: real;
      var ell: Option<Ellipse>;
      if c.points >= MinEllipsePoints {
        center, d, ell := c.ellipse.center, c.rootAxes, Some(c.ellipse);
      } else {
        center, d, ell := c.circle.center, 2.0 * c.circle.radius, None;
      }
      if params.minDiam <= d <= params.maxDiam {
        blobs := blobs + [Blob(center, d, ell)];
      }
    }
    assert contours[..|contours|] == contours;
  }

  /** Every emitted blob satisfies min_diam <= diam_px <= max_diam. */
  lemma {:induction false} AcceptedInRange(cs: seq<Contour>, minDiam: real, maxDiam: real)
    ensures forall b :: b in AcceptedBlobs(cs, minDiam, maxDiam) ==> minDiam <= b.diam <= maxDiam
  {
    if cs != [] {
      AcceptedInRange(cs[..|cs| - 1], minDiam, maxDiam);
    }
  }

  /** The output is the order-preserving subsequence of the accepted contours:
      `idx` lists, in increasing order, exactly the positions of the contours
      that pass the area floor and the diameter range, and the k-th blob is
      measured from contour `idx[k]`. */
  lemma {:induction false} AcceptedIsSubsequence(cs: seq<Contour>, minDiam: real, maxDiam: real) returns (idx: seq<nat>)
    ensures |idx| == |AcceptedBlobs(cs, minDiam, maxDiam)| <= |cs|
    ensures forall k :: 0 <= k < |idx| ==> idx[k] < |cs|
    ensures forall k, l :: 0 <= k < l < |idx| ==> idx[k] < idx[l]
    ensures forall k :: 0 <= k < |idx| ==> AcceptedBlobs(cs, minDiam, maxDiam)[k] == Measure(cs[idx[k]])
    ensures forall i :: 0 <= i < |cs| ==> (Accepts(cs[i], minDiam, maxDiam) <==> i in idx)
  {
    if cs == [] {
      idx := [];
    } else {
      var n := |cs| - 1;
      var front := cs[..n];
      var prev := AcceptedIsSubsequence(front, minDiam, maxDiam);
      var rest := AcceptedBlobs(front, minDiam, maxDiam);
      assert forall i :: 0 <= i < n ==> cs[i] == front[i];
      if Accepts(cs[n], minDiam, maxDiam) {
        idx := prev + [n];
        assert AcceptedBlobs(cs, minDiam, maxDiam) == rest + [Measure(cs[n])];
        forall k | 0 <= k < |idx|
          ensures AcceptedBlobs(cs, minDiam, maxDiam)[k] == Measure(cs[idx[k]])
        {
          if k < |prev| {
            assert idx[k] == prev[k];
          }
        }
        forall i | 0 <= i < |cs|
          ensures Accepts(cs[i], minDiam, maxDiam) <==> i in idx
        {
          if i < n {
            assert i in idx <==> i in prev;
          }
        }
      } else {
        idx := prev;
        assert AcceptedBlobs(cs, minDiam, maxDiam) == rest;
        assert n !in prev;
      }
    }
  }

  /** The contour passes the area floor and reaches the fits. */
  predicate Large(c: Contour) {
    c.area >= MinContourArea
  }

  /** The contours that reach the fits: those of area at least 20, in order. */
  function LargeContours(cs: seq<Contour>): (r: seq<Contour>)
    ensures |r| <= |cs|
    ensures forall k :: 0 <= k < |r| ==> Large(r[k])
  {
    if cs == [] then []
    else
      var c := cs[|cs| - 1];
      var rest := LargeContours(cs[..|cs| - 1]);
      if Large(c) then rest + [c] else rest
  }

  /** `LargeContours` keeps the large contours in their order: `idx` lists,
      in increasing order, exactly the positions of the contours of area at
      least 20, and the k-th kept contour is the one at `idx[k]`. */
  lemma {:induction false} LargeContoursInOrder(cs: seq<Contour>) returns (idx: seq<nat>)
    ensures |idx| == |LargeContours(cs)|
    ensures forall k :: 0 <= k < |idx| ==> idx[k] < |cs| && LargeContours(cs)[k] == cs[idx[k]]
    ensures forall k, l :: 0 <= k < l < |idx| ==> idx[k] < idx[l]
    ensures forall i :: 0 <= i < |cs| ==> (Large(cs[i]) <==> i in idx)
  {
    if cs == [] {
      idx := [];
    } else {
      var n := |cs| - 1;
      var front := cs[..n];
      var prev := LargeContoursInOrder(front);
      assert forall i :: 0 <= i < n ==> cs[i] == front[i];
      if Large(cs[n]) {
        idx := prev + [n];
        var large := LargeContours(front) + [cs[n]];
        assert LargeContours(cs) == large;
        forall k | 0 <= k < |idx|
          ensures idx[k] < |cs| && LargeContours(cs)[k] == cs[idx[k]]
        {
          if k < |prev| {
            assert idx[k] == prev[k] && large[k] == LargeContours(front)[k];
          }
        }
        forall k, l | 0 <= k < l < |idx|
          ensures idx[k] < idx[l]
        {
          assert idx[k] == prev[k] && prev[k] < n;
          if l < |prev| {
            assert idx[l] == prev[l];
          }
        }
        forall i | 0 <= i < |cs|
          ensures Large(cs[i]) <==> i in idx
        {
          if i < n {
            assert cs[i] == front[i];
            assert i in idx <==> i in prev;
          } else {
            assert idx[|prev|] == n;
          }
        }
      } else {
        idx := prev;
        assert LargeContours(cs) == LargeContours(front);
        assert n !in prev;
      }
    }
  }

  /** The `continue` on small contours is the same as dropping them first:
      contours of area below 20 contribute nothing, while a contour of area
      exactly 20 is judged on its diameter alone. */
  lemma {:induction false} SmallContoursDropped(cs: seq<Contour>, minDiam: real, maxDiam: real)
    ensures AcceptedBlobs(cs, minDiam, maxDiam) == AcceptedBlobs(LargeContours(cs), minDiam, maxDiam)
    ensures forall c: Contour :: c.area == 20.0 ==> (Accepts(c, minDiam, maxDiam) <==> minDiam <= Measure(c).diam <= maxDiam)
  {
    if cs != [] {
      var front := cs[..|cs| - 1];
      var c := cs[|cs| - 1];
      SmallContoursDropped(front, minDiam, maxDiam);
      if c.area >= MinContourArea {
        var large := LargeContours(front) + [c];
        assert large[..|large| - 1] == LargeContours(front);
      }
    }
  }

  /** The geometry of a blob: an ellipse blob keeps its fitted ellipse and
      centre and its diameter squared is MA * ma; a circle blob has no ellipse,
      the circle's centre and twice its radius as diameter. */
  lemma BlobGeometry(c: Contour)
    ensures c.points >= 5 ==> Measure(c).ellipse == Some(c.ellipse) && Measure(c).center == c.ellipse.center
    ensures c.points >= 5 && RootIsExact(c) ==>
      Measure(c).diam >= 0.0 && Measure(c).diam * Measure(c).diam == c.ellipse.major * c.ellipse.minor
    ensures c.points < 5 ==>
      Measure(c).ellipse == None && Measure(c).center == c.circle.center && Measure(c).diam == 2.0 * c.circle.radius
  {
  }
}
