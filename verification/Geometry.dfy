/** Normalized boxes and points over the reals (crates/labello-domain/src/geometry.rs).

    The overlap of two boxes is the intersection over their union. It is tied to the boxes themselves: which
    points both contain, when it is one and when it is positive. Rounding of the source's floating point
    arithmetic is not modelled. */
module Geometry {
  import opened Domain

  const EPSILON: real := 0.000001

  function Min(a: real, b: real): real { if a <= b then a else b }
  function Max(a: real, b: real): real { if a >= b then a else b }

  function Clamp(value: real, low: real, high: real): real
    requires low <= high
  {
    if value < low then low else if value > high then high else value
  }

  predicate IsUnit(value: real) {
    -EPSILON <= value <= 1.0 + EPSILON
  }

  datatype Point = Point(x: real, y: real) {
    predicate Valid() { IsUnit(x) && IsUnit(y) }
  }

  /** Length of the common part of two intervals given by start and width. */
  function Shared(start: real, width: real, otherStart: real, otherWidth: real): real {
    Max(Min(start + width, otherStart + otherWidth) - Max(start, otherStart), 0.0)
  }

  datatype GeometryError = NotNormalized(field: string) | NotPositive | OutsideImage

  datatype Verdict = Accepted | Refused(error: GeometryError)

  datatype BoundingBox = BoundingBox(x: real, y: real, width: real, height: real) {
    function Right(): real { x + width }
    function Bottom(): real { y + height }

    function Validate(): Verdict {
      if !IsUnit(x) then Refused(NotNormalized("x"))
      else if !IsUnit(y) then Refused(NotNormalized("y"))
      else if width <= 0.0 || height <= 0.0 then Refused(NotPositive)
      else if !IsUnit(width) then Refused(NotNormalized("width"))
      else if !IsUnit(height) then Refused(NotNormalized("height"))
      else if Right() > 1.0 + EPSILON || Bottom() > 1.0 + EPSILON then Refused(OutsideImage)
      else Accepted
    }

    predicate Valid() { Validate() == Accepted }

    predicate Covers(p: Point) { x <= p.x <= Right() && y <= p.y <= Bottom() }

    function Area(): real { Max(width, 0.0) * Max(height, 0.0) }

    function Intersection(other: BoundingBox): real {
      Shared(x, width, other.x, other.width) * Shared(y, height, other.y, other.height)
    }

    function Union(other: BoundingBox): real {
      Area() + other.Area() - Intersection(other)
    }

    function Iou(other: BoundingBox): real {
      if Union(other) <= 0.0 then 0.0
      else Clamp(Intersection(other) / Union(other), 0.0, 1.0)
    }
  }

  /** A box is accepted exactly when it is positive and all of it lies in the unit square up to the epsilon. */
  lemma ValidExactly(b: BoundingBox)
    ensures b.Valid() <==>
              && b.width > 0.0 && b.height > 0.0
              && -0.000001 <= b.x && -0.000001 <= b.y
              && b.x + b.width <= 1.000001 && b.y + b.height <= 1.000001
              && b.width <= 1.000001 && b.height <= 1.000001
  {
  }

  /** A refusal names a side that leaves the unit square, or says what else is wrong. */
  lemma RefusalTells(b: BoundingBox)
    ensures match b.Validate()
            case Accepted => true
            case Refused(NotPositive) => b.width <= 0.0 || b.height <= 0.0
            case Refused(OutsideImage) => b.Right() > 1.0 + EPSILON || b.Bottom() > 1.0 + EPSILON
            case Refused(NotNormalized(field)) =>
              || (field == "x" && !(-EPSILON <= b.x <= 1.0 + EPSILON))
              || (field == "y" && !(-EPSILON <= b.y <= 1.0 + EPSILON))
              || (field == "width" && b.width > 1.0 + EPSILON)
              || (field == "height" && b.height > 1.0 + EPSILON)
  {
  }

  // ---- areas --------------------------------------------------------------------------------

  lemma ProductMonotone(a: real, b: real, c: real, d: real)
    requires 0.0 <= a <= b && 0.0 <= c <= d
    ensures 0.0 <= a * c <= b * d
  {
    assert a * c <= b * c;
    assert b * c <= b * d;
  }

  lemma PositiveProduct(a: real, b: real)
    requires 0.0 < a && 0.0 < b
    ensures 0.0 < a * b
  {
  }

  lemma ProductStrict(a: real, b: real, c: real, d: real)
    requires 0.0 <= a <= b && 0.0 <= c <= d && 0.0 < b && 0.0 < d && (a < b || c < d)
    ensures a * c < b * d
  {
    if a < b {
      ProductMonotone(a, a, c, d);
      assert b * d - a * d == (b - a) * d;
      PositiveProduct(b - a, d);
    } else {
      assert b * d - b * c == b * (d - c);
      PositiveProduct(b, d - c);
    }
  }

  lemma SharedBounded(start: real, width: real, otherStart: real, otherWidth: real)
    ensures var shared := Shared(start, width, otherStart, otherWidth);
            && shared == Shared(otherStart, otherWidth, start, width)
            && 0.0 <= shared <= Max(width, 0.0) && shared <= Max(otherWidth, 0.0)
            && (shared == width == otherWidth && width > 0.0 ==> start == otherStart)
  {
  }

  lemma IntersectionSymmetric(a: BoundingBox, b: BoundingBox)
    ensures a.Intersection(b) == b.Intersection(a)
  {
    SharedBounded(a.x, a.width, b.x, b.width);
    SharedBounded(a.y, a.height, b.y, b.height);
  }

  lemma IntersectionWithinArea(a: BoundingBox, b: BoundingBox)
    ensures 0.0 <= a.Intersection(b) <= a.Area()
  {
    SharedBounded(a.x, a.width, b.x, b.width);
    SharedBounded(a.y, a.height, b.y, b.height);
    ProductMonotone(Shared(a.x, a.width, b.x, b.width), Max(a.width, 0.0),
                    Shared(a.y, a.height, b.y, b.height), Max(a.height, 0.0));
  }

  lemma IntersectionBounded(a: BoundingBox, b: BoundingBox)
    ensures a.Intersection(b) == b.Intersection(a)
    ensures 0.0 <= a.Intersection(b) <= a.Area()
    ensures a.Intersection(b) <= b.Area()
  {
    IntersectionSymmetric(a, b);
    IntersectionWithinArea(a, b);
    IntersectionWithinArea(b, a);
  }

  lemma IntersectionBelowArea(a: BoundingBox, b: BoundingBox)
    requires a.width > 0.0 && a.height > 0.0
    requires Shared(a.x, a.width, b.x, b.width) < a.width || Shared(a.y, a.height, b.y, b.height) < a.height
    ensures a.Intersection(b) < a.Area()
  {
    SharedBounded(a.x, a.width, b.x, b.width);
    SharedBounded(a.y, a.height, b.y, b.height);
    ProductStrict(Shared(a.x, a.width, b.x, b.width), a.width,
                  Shared(a.y, a.height, b.y, b.height), a.height);
  }

  /** The box between the later starts and the earlier ends of two boxes. */
  function Common(a: BoundingBox, b: BoundingBox): BoundingBox {
    var left, top := Max(a.x, b.x), Max(a.y, b.y);
    BoundingBox(left, top, Min(a.Right(), b.Right()) - left, Min(a.Bottom(), b.Bottom()) - top)
  }

  /** The intersection is the area of the box that covers exactly the points both boxes cover, and is positive only
      if there are any. */
  lemma IntersectionCoversCommonPoints(a: BoundingBox, b: BoundingBox, p: Point)
    ensures a.Covers(p) && b.Covers(p) <==> Common(a, b).Covers(p)
    ensures a.Intersection(b) == Common(a, b).Area()
    ensures a.Intersection(b) > 0.0 ==> exists q :: a.Covers(q) && b.Covers(q)
  {
    SharedBounded(a.x, a.width, b.x, b.width);
    SharedBounded(a.y, a.height, b.y, b.height);
    if a.Intersection(b) > 0.0 {
      var q := Point(Max(a.x, b.x), Max(a.y, b.y));
      assert a.Covers(q) && b.Covers(q);
    }
  }

  lemma ScaleCompare(r: real, q: real)
    requires 0.0 < q
    ensures r * q < q <==> r < 1.0
    ensures r * q > q <==> r > 1.0
    ensures r * q < 0.0 <==> r < 0.0
    ensures r * q > 0.0 <==> r > 0.0
  {
    assert r * q - q == (r - 1.0) * q;
    if r > 1.0 { PositiveProduct(r - 1.0, q); }
    if r < 1.0 { PositiveProduct(1.0 - r, q); }
    if r < 0.0 { PositiveProduct(-r, q); }
    if r > 0.0 { PositiveProduct(r, q); }
  }

  lemma DivideUpTo(p: real, q: real)
    requires 0.0 <= p <= q && 0.0 < q
    ensures 0.0 <= p / q <= 1.0
    ensures p / q == 1.0 <==> p == q
    ensures p / q == 0.0 <==> p == 0.0
  {
    var r := p / q;
    assert r * q == p;
    ScaleCompare(r, q);
  }

  /** Overlap is symmetric and between 0 and 1; the closing clamp never changes it. */
  lemma IouBounded(a: BoundingBox, b: BoundingBox)
    ensures a.Iou(b) == b.Iou(a)
    ensures 0.0 <= a.Iou(b) <= 1.0
    ensures a.Union(b) > 0.0 ==> a.Iou(b) == a.Intersection(b) / a.Union(b)
  {
    IntersectionBounded(a, b);
    if a.Union(b) > 0.0 { DivideUpTo(a.Intersection(b), a.Union(b)); }
  }

  lemma AreaOfValid(a: BoundingBox)
    requires a.Valid()
    ensures a.Area() == a.width * a.height && a.Area() > 0.0
  {
    PositiveArea(a);
    assert Max(a.width, 0.0) == a.width && Max(a.height, 0.0) == a.height;
  }

  /** The overlap of valid boxes is their common area over `covered`, the area the two cover together. */
  lemma IouIsRatio(a: BoundingBox, b: BoundingBox, covered: real)
    requires a.Valid() && b.Valid() && covered == a.Area() + b.Area() - a.Intersection(b)
    ensures covered > 0.0 && a.Iou(b) * covered == a.Intersection(b)
  {
    IntersectionBounded(a, b);
    AreaOfValid(b);
    IouBounded(a, b);
    QuotientTimes(a.Intersection(b), covered);
  }

  lemma QuotientTimes(p: real, q: real)
    requires q > 0.0
    ensures p / q * q == p
  {
  }

  /** Two valid boxes overlap completely exactly when they are equal. */
  lemma IouOneExactly(a: BoundingBox, b: BoundingBox)
    requires a.Valid() && b.Valid()
    ensures a.Iou(b) == 1.0 <==> a == b
  {
    IntersectionBounded(a, b);
    PositiveArea(a);
    PositiveArea(b);
    DivideUpTo(a.Intersection(b), a.Union(b));
    if a != b { DifferentBoxes(a, b); } else { SameBox(a); }
  }

  lemma SameBox(a: BoundingBox)
    requires a.Valid()
    ensures a.Intersection(a) == a.Area()
  {
  }

  lemma DifferentBoxes(a: BoundingBox, b: BoundingBox)
    requires a.Valid() && b.Valid() && a != b
    ensures a.Intersection(b) < a.Area() || a.Intersection(b) < b.Area()
  {
    SharedBounded(a.x, a.width, b.x, b.width);
    SharedBounded(a.y, a.height, b.y, b.height);
    if Shared(a.x, a.width, b.x, b.width) < a.width || Shared(a.y, a.height, b.y, b.height) < a.height {
      IntersectionBelowArea(a, b);
    } else {
      IntersectionBelowArea(b, a);
      IntersectionSymmetric(a, b);
    }
  }

  lemma PositiveArea(a: BoundingBox)
    requires a.width > 0.0 && a.height > 0.0
    ensures a.Area() > 0.0
  {
  }

  /** Valid boxes overlap at all exactly when their interiors meet. */
  lemma IouPositiveExactly(a: BoundingBox, b: BoundingBox)
    requires a.Valid() && b.Valid()
    ensures a.Iou(b) > 0.0 <==>
              Max(a.x, b.x) < Min(a.Right(), b.Right()) && Max(a.y, b.y) < Min(a.Bottom(), b.Bottom())
  {
    IntersectionBounded(a, b);
    PositiveArea(a);
    DivideUpTo(a.Intersection(b), a.Union(b));
    var w := Shared(a.x, a.width, b.x, b.width);
    var h := Shared(a.y, a.height, b.y, b.height);
    if w > 0.0 && h > 0.0 { PositiveProduct(w, h); }
  }

  // ---- keypoints ----------------------------------------------------------------------------

  datatype KeypointState = Visible | Hidden | Absent

  datatype Keypoint = Keypoint(name: string, state: KeypointState, point: Option<Point>) {
    /** A placed keypoint has a normalized point; an absent one has none. */
    predicate Valid() {
      match point
      case Some(p) => !state.Absent? && p.Valid()
      case None => state.Absent?
    }
  }

  /** A skeleton is valid when every keypoint is either absent and nowhere, or present and in the image up to the
      epsilon. */
  lemma ValidSkeletonExactly(keypoints: seq<Keypoint>)
    ensures ValidSkeleton(keypoints)
            <==> forall k :: k in keypoints ==>
                   if k.state == Absent then k.point == None
                   else
                     && k.point.Some?
                     && -EPSILON <= k.point.value.x <= 1.0 + EPSILON && -EPSILON <= k.point.value.y <= 1.0 + EPSILON
  {
    if ValidSkeleton(keypoints) {
      forall k | k in keypoints ensures k.Valid() {
        var i :| 0 <= i < |keypoints| && keypoints[i] == k;
      }
    }
    forall i | 0 <= i < |keypoints| ensures keypoints[i] in keypoints { }
  }

  predicate ValidSkeleton(keypoints: seq<Keypoint>) {
    forall i | 0 <= i < |keypoints| :: keypoints[i].Valid()
  }
}
