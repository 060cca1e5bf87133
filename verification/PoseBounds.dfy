/** The bounding box exported for a pose (crates/labello-domain/src/export.rs).

    Either the linked box is exported or one is derived from the extent of the placed keypoints, widened to a
    pixel and moved into the image. `DerivedBoundsFaithful` says that the derived box depends on the set of
    points only and covers each of them within EPSILON. */
module PoseBounds {
  import opened Domain
  import opened Geometry

  datatype ExportError = InvalidGeometry | PoseWithoutBounds

  /** `derived` tells a box computed from the keypoints from a linked one. */
  datatype Outcome = Bounds(bounds: BoundingBox, derived: bool) | Error(error: ExportError)

  datatype Extent = Extent(left: real, top: real, right: real, bottom: real)

  /** The placed points of a skeleton, in order. */
  function Points(keypoints: seq<Keypoint>): seq<Point> {
    if keypoints == [] then []
    else
      (if keypoints[0].point.Some? then [keypoints[0].point.value] else []) + Points(keypoints[1..])
  }

  /** Start and width of one axis: at least one pixel wide, at most the whole image, centred on the extent and
      shifted inside the image. */
  function Axis(low: real, high: real, pixels: nat): (axis: (real, real))
    requires pixels > 0
    ensures 0.0 < axis.1 <= 1.0 && 0.0 <= axis.0 && axis.0 + axis.1 <= 1.0
    ensures axis.1 == Min(Max(high - low, 1.0 / pixels as real), 1.0)
  {
    PixelWidth(pixels);
    var width := Min(Max(high - low, 1.0 / pixels as real), 1.0);
    (Clamp((low + high - width) / 2.0, 0.0, 1.0 - width), width)
  }

  lemma PixelWidth(pixels: nat)
    requires pixels > 0
    ensures 0.0 < 1.0 / pixels as real <= 1.0
  {
    DivideUpTo(1.0, pixels as real);
  }

  /** An axis covers its extent up to the epsilon by which points may leave the image, and exactly when they
      do not leave it. */
  lemma AxisCovers(low: real, high: real, pixels: nat, p: real)
    requires pixels > 0 && -EPSILON <= low <= p <= high <= 1.0 + EPSILON
    ensures var (start, width) := Axis(low, high, pixels);
            && start - EPSILON <= p <= start + width + EPSILON
            && (0.0 <= low && high <= 1.0 ==> start <= p <= start + width)
            && width >= 1.0 / pixels as real
  {
    PixelWidth(pixels);
  }

  function BoxOf(e: Extent, width: nat, height: nat): BoundingBox
    requires width > 0 && height > 0
  {
    var (x, w) := Axis(e.left, e.right, width);
    var (y, h) := Axis(e.top, e.bottom, height);
    BoundingBox(x, y, w, h)
  }

  /** `e` is the smallest rectangle around the points. */
  ghost predicate IsExtent(points: seq<Point>, e: Extent) {
    && (forall p :: p in points ==> e.left <= p.x <= e.right && e.top <= p.y <= e.bottom)
    && (exists p :: p in points && p.x == e.left) && (exists p :: p in points && p.x == e.right)
    && (exists p :: p in points && p.y == e.top) && (exists p :: p in points && p.y == e.bottom)
  }

  /** The extent depends on which points there are, not on their order or number. */
  lemma ExtentOrderIndependent(s: seq<Point>, t: seq<Point>, d: Extent, e: Extent)
    requires forall p :: p in s <==> p in t
    requires IsExtent(s, d) && IsExtent(t, e)
    ensures d == e
  {
    var l :| l in s && l.x == d.left;
    var r :| r in s && r.x == d.right;
    var u :| u in s && u.y == d.top;
    var b :| b in s && b.y == d.bottom;
    var l2 :| l2 in t && l2.x == e.left;
    var r2 :| r2 in t && r2.x == e.right;
    var u2 :| u2 in t && u2.y == e.top;
    var b2 :| b2 in t && b2.y == e.bottom;
  }

  /** An axis is centred on its extent where the image leaves room, and else set against the nearer edge. */
  lemma AxisCentred(low: real, high: real, pixels: nat)
    requires pixels > 0
    ensures var (start, width) := Axis(low, high, pixels);
            var middle := (low + high) / 2.0;
            && (width / 2.0 <= middle <= 1.0 - width / 2.0 ==> start + width / 2.0 == middle)
            && (middle < width / 2.0 ==> start == 0.0)
            && (middle > 1.0 - width / 2.0 ==> start + width == 1.0)
  {
    PixelWidth(pixels);
  }

  /** So the derived box keeps the middle of the pose, as far as the image allows, and is no wider or higher than the
      pose or a pixel needs. */
  lemma DerivedBoxCentred(e: Extent, width: nat, height: nat)
    requires width > 0 && height > 0 && e.left <= e.right && e.top <= e.bottom
    ensures var b := BoxOf(e, width, height);
            && (b.width / 2.0 <= (e.left + e.right) / 2.0 <= 1.0 - b.width / 2.0 ==>
                  b.x + b.width / 2.0 == (e.left + e.right) / 2.0)
            && (b.height / 2.0 <= (e.top + e.bottom) / 2.0 <= 1.0 - b.height / 2.0 ==>
                  b.y + b.height / 2.0 == (e.top + e.bottom) / 2.0)
            && (b.width == 1.0 / width as real || b.width == e.right - e.left || b.width == 1.0)
            && (b.height == 1.0 / height as real || b.height == e.bottom - e.top || b.height == 1.0)
            && (b.width <= e.right - e.left || b.width == 1.0 / width as real)
            && (b.height <= e.bottom - e.top || b.height == 1.0 / height as real)
  {
    AxisCentred(e.left, e.right, width);
    AxisCentred(e.top, e.bottom, height);
    PixelWidth(width);
    PixelWidth(height);
  }

  /** A derived box validates, lies in the unit square and is at least one pixel wide and high. */
  lemma DerivedBoxValid(e: Extent, width: nat, height: nat)
    requires width > 0 && height > 0
    ensures var b := BoxOf(e, width, height);
            && b.Valid() && 0.0 <= b.x && 0.0 <= b.y && b.Right() <= 1.0 && b.Bottom() <= 1.0
            && b.width >= 1.0 / width as real && b.height >= 1.0 / height as real
  {
    PixelWidth(width);
    PixelWidth(height);
  }

  /** It covers every point, up to the epsilon that validation allows points to leave the image by. */
  lemma DerivedBoxCovers(points: seq<Point>, e: Extent, width: nat, height: nat, p: Point)
    requires width > 0 && height > 0 && IsExtent(points, e) && p in points
    requires forall q :: q in points ==> q.Valid()
    ensures var b := BoxOf(e, width, height);
            && b.x - EPSILON <= p.x <= b.Right() + EPSILON && b.y - EPSILON <= p.y <= b.Bottom() + EPSILON
            && ((forall q :: q in points ==> 0.0 <= q.x <= 1.0 && 0.0 <= q.y <= 1.0) ==> b.Covers(p))
  {
    var l :| l in points && l.x == e.left;
    var r :| r in points && r.x == e.right;
    var u :| u in points && u.y == e.top;
    var d :| d in points && d.y == e.bottom;
    assert l.Valid() && r.Valid() && u.Valid() && d.Valid();
    AxisCovers(e.left, e.right, width, p.x);
    AxisCovers(e.top, e.bottom, height, p.y);
  }

  /** The points are those of the placed keypoints, visible or hidden. */
  lemma {:induction false} PointsMean(keypoints: seq<Keypoint>, p: Point)
    ensures p in Points(keypoints) <==> exists k :: k in keypoints && k.point == Some(p)
  {
    if keypoints != [] {
      PointsMean(keypoints[1..], p);
      assert keypoints == [keypoints[0]] + keypoints[1..];
    }
  }

  lemma {:induction false} PointsValid(keypoints: seq<Keypoint>)
    requires ValidSkeleton(keypoints)
    ensures forall p :: p in Points(keypoints) ==> p.Valid()
  {
    if keypoints != [] {
      assert keypoints[0].Valid();
      forall i | 0 <= i < |keypoints[1..]| ensures keypoints[1..][i].Valid() {
        assert keypoints[1..][i] == keypoints[i + 1];
      }
      PointsValid(keypoints[1..]);
    }
  }

  method ExtentOf(points: seq<Point>) returns (e: Extent)
    requires points != []
    ensures IsExtent(points, e)
  {
    var first := points[0];
    var left, top, right, bottom := first.x, first.y, first.x, first.y;
    ghost var l, t, r, b := 0, 0, 0, 0;
    for i := 1 to |points|
      invariant 0 <= l < i && 0 <= t < i && 0 <= r < i && 0 <= b < i
      invariant points[l].x == left && points[r].x == right && points[t].y == top && points[b].y == bottom
      invariant forall k :: 0 <= k < i ==> left <= points[k].x <= right && top <= points[k].y <= bottom
    {
      var point := points[i];
      if point.x < left { l := i; }
      if point.y < top { t := i; }
      if point.x > right { r := i; }
      if point.y > bottom { b := i; }
      left, top := Min(left, point.x), Min(top, point.y);
      right, bottom := Max(right, point.x), Max(bottom, point.y);
    }
    e := Extent(left, top, right, bottom);
    assert points[l] in points && points[t] in points && points[r] in points && points[b] in points;
  }

  /** A valid linked box is passed through; otherwise the box comes from the placed keypoints. The closing
      validation of a derived box never fails. */
  method ExportPoseBounds(keypoints: seq<Keypoint>, width: nat, height: nat, linked: Option<BoundingBox>)
    returns (outcome: Outcome)
    ensures outcome == Error(InvalidGeometry) <==>
              width == 0 || height == 0 || !ValidSkeleton(keypoints) || (linked.Some? && !linked.value.Valid())
    ensures outcome == Error(PoseWithoutBounds) <==>
              width > 0 && height > 0 && ValidSkeleton(keypoints) && linked.None? && Points(keypoints) == []
    ensures outcome.Bounds? && !outcome.derived ==> linked == Some(outcome.bounds)
    ensures outcome.Bounds? && outcome.derived ==>
              && width > 0 && height > 0 && linked.None?
              && exists e :: IsExtent(Points(keypoints), e) && outcome.bounds == BoxOf(e, width, height)
  {
    if width == 0 || height == 0 || !ValidSkeleton(keypoints) {
      return Error(InvalidGeometry);
    }
    if linked.Some? {
      return if linked.value.Valid() then Bounds(linked.value, false) else Error(InvalidGeometry);
    }
    var points := Points(keypoints);
    if points == [] {
      return Error(PoseWithoutBounds);
    }
    var e := ExtentOf(points);
    var bounds := BoxOf(e, width, height);
    DerivedBoxValid(e, width, height);
    if !bounds.Valid() {
      return Error(InvalidGeometry);
    }
    outcome := Bounds(bounds, true);
  }

  /** Reordering the keypoints of a pose never changes its derived box, which covers every placed keypoint. */
  lemma DerivedBoundsFaithful(s: seq<Keypoint>, t: seq<Keypoint>, width: nat, height: nat, d: Extent, e: Extent)
    requires width > 0 && height > 0 && ValidSkeleton(s) && multiset(Points(s)) == multiset(Points(t))
    requires IsExtent(Points(s), d) && IsExtent(Points(t), e)
    ensures BoxOf(d, width, height) == BoxOf(e, width, height)
    ensures forall p :: p in Points(t) ==>
              var b := BoxOf(e, width, height);
              b.x - EPSILON <= p.x <= b.Right() + EPSILON && b.y - EPSILON <= p.y <= b.Bottom() + EPSILON
  {
    forall p ensures p in Points(s) <==> p in Points(t) {
      assert p in multiset(Points(s)) <==> p in multiset(Points(t));
    }
    ExtentOrderIndependent(Points(s), Points(t), d, e);
    PointsValid(s);
    forall p | p in Points(t)
      ensures var b := BoxOf(e, width, height);
              b.x - EPSILON <= p.x <= b.Right() + EPSILON && b.y - EPSILON <= p.y <= b.Bottom() + EPSILON
    {
      DerivedBoxCovers(Points(s), d, width, height, p);
    }
  }
}
