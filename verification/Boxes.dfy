/** Box geometry of box.c over exact reals: overlap, intersection, union and IoU. */
module Boxes {

  datatype Box = Box(x: real, y: real, w: real, h: real) {
    predicate Positive() { w > 0.0 && h > 0.0 }
    function Area(): real { w * h }
  }

  function Overlap(x1: real, w1: real, x2: real, w2: real): real {
    var (l1, l2) := (x1 - w1 / 2.0, x2 - w2 / 2.0);
    var left := if l1 > l2 then l1 else l2;
    var (r1, r2) := (x1 + w1 / 2.0, x2 + w2 / 2.0);
    var right := if r1 < r2 then r1 else r2;
    right - left
  }

  /** The later of the two left edges. */
  function LeftEdge(x1: real, w1: real, x2: real, w2: real): real {
    var (l1, l2) := (x1 - w1 / 2.0, x2 - w2 / 2.0);
    if l1 > l2 then l1 else l2
  }

  predicate Inside(t: real, x: real, w: real) { x - w / 2.0 <= t <= x + w / 2.0 }

  /** The common points of two intervals are an interval as long as their overlap (none when it is negative). */
  lemma OverlapIsCommonLength(x1: real, w1: real, x2: real, w2: real, t: real)
    ensures Inside(t, x1, w1) && Inside(t, x2, w2) <==>
            LeftEdge(x1, w1, x2, w2) <= t <= LeftEdge(x1, w1, x2, w2) + Overlap(x1, w1, x2, w2)
    ensures Overlap(x1, w1, x2, w2) <= w1 && Overlap(x1, w1, x2, w2) <= w2
  {
  }

  function Intersection(a: Box, b: Box): real {
    var w := Overlap(a.x, a.w, b.x, b.w);
    var h := Overlap(a.y, a.h, b.y, b.h);
    if w < 0.0 || h < 0.0 then 0.0 else w * h
  }

  function Union(a: Box, b: Box): real { a.w * a.h + b.w * b.h - Intersection(a, b) }

  lemma Shrink(w: real, h: real, w1: real, h1: real)
    requires 0.0 <= w <= w1 && 0.0 <= h <= h1
    ensures 0.0 <= w * h <= w1 * h1
  {
    assert w * h <= w1 * h;
    assert w1 * h <= w1 * h1;
  }

  lemma PositiveArea(a: Box)
    requires a.Positive()
    ensures a.Area() > 0.0
  {
  }

  /** What fits into a w1 x h1 box, however the overlaps come out. */
  lemma CutFits(w: real, h: real, w1: real, h1: real)
    requires w <= w1 && h <= h1 && w1 > 0.0 && h1 > 0.0
    ensures 0.0 <= (if w < 0.0 || h < 0.0 then 0.0 else w * h) <= w1 * h1
  {
    if w >= 0.0 && h >= 0.0 {
      Shrink(w, h, w1, h1);
    } else {
      Shrink(0.0, 0.0, w1, h1);
    }
  }

  lemma IntersectionFits(a: Box, b: Box)
    requires a.Positive() && b.Positive()
    ensures 0.0 <= Intersection(a, b) <= a.Area()
  {
    OverlapIsCommonLength(a.x, a.w, b.x, b.w, 0.0);
    OverlapIsCommonLength(a.y, a.h, b.y, b.h, 0.0);
    CutFits(Overlap(a.x, a.w, b.x, b.w), Overlap(a.y, a.h, b.y, b.h), a.w, a.h);
  }

  lemma UnionFrom(i: real, x: real, y: real, u: real)
    requires i <= x && i <= y && x > 0.0 && y > 0.0 && u == x + y - i
    ensures u >= x > 0.0 && u >= y > 0.0
  {
  }

  /** The intersection fits into both boxes, so the union is at least as large as each. */
  lemma IntersectionBounds(a: Box, b: Box)
    requires a.Positive() && b.Positive()
    ensures 0.0 <= Intersection(a, b) <= a.Area() && Intersection(a, b) <= b.Area()
    ensures Union(a, b) >= a.Area() > 0.0 && Union(a, b) >= b.Area() > 0.0
  {
    IntersectionFits(a, b);
    IntersectionFits(b, a);
    IntersectionSymmetric(a, b);
    PositiveArea(a);
    PositiveArea(b);
    UnionFrom(Intersection(a, b), a.Area(), b.Area(), Union(a, b));
  }

  /** box_iou, for boxes with positive sides. */
  function Iou(a: Box, b: Box): (r: real)
    requires a.Positive() && b.Positive()
    ensures 0.0 <= r <= 1.0
  {
    IntersectionBounds(a, b);
    Ratio(Intersection(a, b), Union(a, b));
    Intersection(a, b) / Union(a, b)
  }

  lemma Ratio(i: real, u: real)
    requires 0.0 <= i <= u && u > 0.0
    ensures 0.0 <= i / u <= 1.0
  {
  }

  lemma IntersectionSymmetric(a: Box, b: Box)
    ensures Intersection(a, b) == Intersection(b, a)
  {
    assert Overlap(a.x, a.w, b.x, b.w) == Overlap(b.x, b.w, a.x, a.w);
    assert Overlap(a.y, a.h, b.y, b.h) == Overlap(b.y, b.h, a.y, a.h);
  }

  lemma SelfIntersection(a: Box)
    requires a.Positive()
    ensures Intersection(a, a) == a.Area() == Union(a, a) && a.Area() > 0.0
  {
    assert Overlap(a.x, a.w, a.x, a.w) == a.w && Overlap(a.y, a.h, a.y, a.h) == a.h;
  }

  /** IoU does not depend on the order of the boxes, and is 1 for a box with itself. */
  lemma IouLaws(a: Box, b: Box)
    requires a.Positive() && b.Positive()
    ensures Iou(a, b) == Iou(b, a)
    ensures Iou(a, a) == 1.0
  {
    IntersectionSymmetric(a, b);
    SelfIntersection(a);
  }

  // ---------------------------------------------------------------- what is measured

  /** The common points of two intervals are those from l to r. */
  ghost predicate CommonInterval(x1: real, w1: real, x2: real, w2: real, l: real, r: real) {
    l <= r && forall t: real :: Inside(t, x1, w1) && Inside(t, x2, w2) <==> l <= t <= r
  }

  ghost predicate Apart(x1: real, w1: real, x2: real, w2: real) { forall t: real :: !(Inside(t, x1, w1) && Inside(t, x2, w2)) }

  lemma CommonLength(x1: real, w1: real, x2: real, w2: real, l: real, r: real)
    requires CommonInterval(x1, w1, x2, w2, l, r)
    ensures Overlap(x1, w1, x2, w2) == r - l >= 0.0
  {
    var (left, right) := (LeftEdge(x1, w1, x2, w2), LeftEdge(x1, w1, x2, w2) + Overlap(x1, w1, x2, w2));
    assert Inside(l, x1, w1) && Inside(l, x2, w2) && Inside(r, x1, w1) && Inside(r, x2, w2);
    OverlapIsCommonLength(x1, w1, x2, w2, l);
    OverlapIsCommonLength(x1, w1, x2, w2, r);
    OverlapIsCommonLength(x1, w1, x2, w2, left);
    OverlapIsCommonLength(x1, w1, x2, w2, right);
    assert Inside(left, x1, w1) && Inside(left, x2, w2) && Inside(right, x1, w1) && Inside(right, x2, w2);
  }

  lemma NoCommonLength(x1: real, w1: real, x2: real, w2: real)
    requires Apart(x1, w1, x2, w2)
    ensures Overlap(x1, w1, x2, w2) < 0.0
  {
    var left := LeftEdge(x1, w1, x2, w2);
    OverlapIsCommonLength(x1, w1, x2, w2, left);
    assert !(Inside(left, x1, w1) && Inside(left, x2, w2));
  }

  /** i is the area of the common points: a rectangle, or nothing. */
  ghost predicate CommonArea(a: Box, b: Box, i: real) {
    || (exists l, r, t, u :: CommonInterval(a.x, a.w, b.x, b.w, l, r) && CommonInterval(a.y, a.h, b.y, b.h, t, u) && i == (r - l) * (u - t))
    || ((Apart(a.x, a.w, b.x, b.w) || Apart(a.y, a.h, b.y, b.h)) && i == 0.0)
  }

  /** box_intersection is the area of the common points. */
  lemma IntersectionIsCommonArea(a: Box, b: Box, i: real)
    requires var common := CommonArea(a, b, i); common
    ensures Intersection(a, b) == i
  {
    if l, r, t, u :| CommonInterval(a.x, a.w, b.x, b.w, l, r) && CommonInterval(a.y, a.h, b.y, b.h, t, u) && i == (r - l) * (u - t) {
      CommonLength(a.x, a.w, b.x, b.w, l, r);
      CommonLength(a.y, a.h, b.y, b.h, t, u);
    } else if Apart(a.x, a.w, b.x, b.w) {
      NoCommonLength(a.x, a.w, b.x, b.w);
    } else {
      NoCommonLength(a.y, a.h, b.y, b.h);
    }
  }

  /** Two intervals have an interval of common points, or none. */
  lemma CommonOrApart(x1: real, w1: real, x2: real, w2: real) returns (l: real, r: real)
    ensures CommonInterval(x1, w1, x2, w2, l, r) || Apart(x1, w1, x2, w2)
  {
    l, r := LeftEdge(x1, w1, x2, w2), LeftEdge(x1, w1, x2, w2) + Overlap(x1, w1, x2, w2);
    forall t: real
      ensures Inside(t, x1, w1) && Inside(t, x2, w2) <==> l <= t <= r
    {
      OverlapIsCommonLength(x1, w1, x2, w2, t);
    }
  }

  lemma UnionSplits(a: Box, b: Box, i: real)
    requires Intersection(a, b) == i
    ensures Union(a, b) + i == a.w * a.h + b.w * b.h
  {
  }

  /** box_union is the area covered: both areas, but the common one only once. */
  lemma UnionCoversBoth(a: Box, b: Box, i: real)
    requires var common := CommonArea(a, b, i); common
    ensures Union(a, b) + i == a.w * a.h + b.w * b.h
  {
    IntersectionIsCommonArea(a, b, i);
    UnionSplits(a, b, i);
  }

  /** Every two boxes have a common area, so the lemmas about it speak of all boxes. */
  lemma SomeCommonArea(a: Box, b: Box) returns (i: real)
    ensures var common := CommonArea(a, b, i); common
  {
    var l, r := CommonOrApart(a.x, a.w, b.x, b.w);
    var t, u := CommonOrApart(a.y, a.h, b.y, b.h);
    if CommonInterval(a.x, a.w, b.x, b.w, l, r) && CommonInterval(a.y, a.h, b.y, b.h, t, u) {
      i := (r - l) * (u - t);
    } else {
      i := 0.0;
    }
  }

  lemma RatioAbove(i: real, u: real, t: real)
    requires u > 0.0
    ensures i / u > t <==> i > t * u
  {
    assert i == (i / u) * u;
    if i / u > t {
      Scaled(t, i / u, u);
    } else {
      Scaled(i / u, t, u);
    }
  }

  lemma Scaled(x: real, y: real, u: real)
    requires x <= y && u > 0.0
    ensures x * u <= y * u && (x < y ==> x * u < y * u)
  {
  }

  lemma IouIsRatio(a: Box, b: Box, i: real, u: real)
    requires a.Positive() && b.Positive() && Intersection(a, b) == i && u == a.w * a.h + b.w * b.h - i
    ensures u > 0.0 && Iou(a, b) == i / u
  {
    UnionSplits(a, b, i);
    IntersectionBounds(a, b);
  }

  lemma IouAbove(i: real, covered: real, t: real, iou: real)
    requires covered > 0.0 && iou == i / covered
    ensures iou > t <==> i > t * covered
  {
    RatioAbove(i, covered, t);
  }

  /** box_iou exceeds t exactly if the common area exceeds t times the area covered. */
  lemma IouAboveIff(a: Box, b: Box, i: real, covered: real, t: real)
    requires a.Positive() && b.Positive() && (var common := CommonArea(a, b, i); common) && covered == a.w * a.h + b.w * b.h - i
    ensures Iou(a, b) > t <==> i > t * covered
  {
    IntersectionIsCommonArea(a, b, i);
    IouIsRatio(a, b, i, covered);
    IouAbove(i, covered, t, Iou(a, b));
  }
}
