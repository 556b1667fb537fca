/**
 * Corner recovery for the card extractor: `ordonner_points`, which picks
 * the four corners of a contour from the extremes of x + y and y - x.
 * The extractor of the application and the stand-alone detection script
 * carry the same definition; both use this one.
 */
module Corners {

  /** A pixel position: x grows to the right, y grows downwards. */
  datatype Point = Point(x: int, y: int)

  /** `pts.sum(axis=1)` for one point. */
  function Sum(p: Point): int { p.x + p.y }

  /** `np.diff(pts, axis=1)` for one point: the second coordinate minus the first. */
  function Diff(p: Point): int { p.y - p.x }

  /** `np.argmin`: the first index at which `key` is smallest. */
  function ArgMin<T>(s: seq<T>, key: T -> int): (k: nat)
    requires |s| > 0
    ensures k < |s|
    ensures forall j :: 0 <= j < |s| ==> key(s[k]) <= key(s[j])
    ensures forall j :: 0 <= j < k ==> key(s[k]) < key(s[j])
    decreases |s|
  {
    if |s| == 1 then 0
    else
      var k := ArgMin(s[..|s| - 1], key);
      if key(s[|s| - 1]) < key(s[k]) then |s| - 1 else k
  }

  /** `np.argmax` and `max(..., key=...)`: the first index at which `key` is largest. */
  function ArgMax<T>(s: seq<T>, key: T -> int): (k: nat)
    requires |s| > 0
    ensures k < |s|
    ensures forall j :: 0 <= j < |s| ==> key(s[j]) <= key(s[k])
    ensures forall j :: 0 <= j < k ==> key(s[j]) < key(s[k])
    decreases |s|
  {
    if |s| == 1 then 0
    else
      var k := ArgMax(s[..|s| - 1], key);
      if key(s[k]) < key(s[|s| - 1]) then |s| - 1 else k
  }

  /**
   * `ordonner_points`: [top-left, top-right, bottom-right, bottom-left],
   * taken as the points of least x + y, least y - x, greatest x + y and
   * greatest y - x.
   */
  function OrderPoints(pts: seq<Point>): (rect: seq<Point>)
    requires |pts| > 0
    ensures |rect| == 4
    ensures forall i :: 0 <= i < 4 ==> rect[i] in pts
  {
    [pts[ArgMin(pts, Sum)], pts[ArgMin(pts, Diff)], pts[ArgMax(pts, Sum)], pts[ArgMax(pts, Diff)]]
  }

  /** Each corner is an extreme of its key over all the input points. */
  lemma OrderPointsExtremes(pts: seq<Point>)
    requires |pts| > 0
    ensures var rect := OrderPoints(pts);
      forall p :: p in pts ==>
        Sum(rect[0]) <= Sum(p) && Diff(rect[1]) <= Diff(p) &&
        Sum(p) <= Sum(rect[2]) && Diff(p) <= Diff(rect[3])
  {
    var rect := OrderPoints(pts);
    forall p | p in pts
      ensures Sum(rect[0]) <= Sum(p) && Diff(rect[1]) <= Diff(p)
      ensures Sum(p) <= Sum(rect[2]) && Diff(p) <= Diff(rect[3])
    {
      var j :| 0 <= j < |pts| && pts[j] == p;
      assert Sum(pts[ArgMin(pts, Sum)]) <= Sum(pts[j]);
      assert Diff(pts[ArgMin(pts, Diff)]) <= Diff(pts[j]);
      assert Sum(pts[j]) <= Sum(pts[ArgMax(pts, Sum)]);
      assert Diff(pts[j]) <= Diff(pts[ArgMax(pts, Diff)]);
    }
  }

  /** The point lies in the closed axis-aligned rectangle [left, right] x [top, bottom]. */
  predicate InBox(p: Point, left: int, top: int, right: int, bottom: int)
  {
    left <= p.x <= right && top <= p.y <= bottom
  }

  /** The canonical corner order of an axis-aligned rectangle. */
  function BoxCorners(left: int, top: int, right: int, bottom: int): seq<Point>
  {
    [Point(left, top), Point(right, top), Point(right, bottom), Point(left, bottom)]
  }

  predicate InsideBox(pts: seq<Point>, left: int, top: int, right: int, bottom: int)
  {
    forall i :: 0 <= i < |pts| ==> InBox(pts[i], left, top, right, bottom)
  }

  lemma TopLeftCorner(pts: seq<Point>, left: int, top: int, right: int, bottom: int)
    requires InsideBox(pts, left, top, right, bottom) && Point(left, top) in pts
    ensures pts[ArgMin(pts, Sum)] == Point(left, top)
  {
    var k := ArgMin(pts, Sum);
    var i :| 0 <= i < |pts| && pts[i] == Point(left, top);
    assert Sum(pts[k]) <= Sum(pts[i]);
    assert InBox(pts[k], left, top, right, bottom);
  }

  lemma TopRightCorner(pts: seq<Point>, left: int, top: int, right: int, bottom: int)
    requires InsideBox(pts, left, top, right, bottom) && Point(right, top) in pts
    ensures pts[ArgMin(pts, Diff)] == Point(right, top)
  {
    var k := ArgMin(pts, Diff);
    var i :| 0 <= i < |pts| && pts[i] == Point(right, top);
    assert Diff(pts[k]) <= Diff(pts[i]);
    assert InBox(pts[k], left, top, right, bottom);
  }

  lemma BottomRightCorner(pts: seq<Point>, left: int, top: int, right: int, bottom: int)
    requires InsideBox(pts, left, top, right, bottom) && Point(right, bottom) in pts
    ensures pts[ArgMax(pts, Sum)] == Point(right, bottom)
  {
    var k := ArgMax(pts, Sum);
    var i :| 0 <= i < |pts| && pts[i] == Point(right, bottom);
    assert Sum(pts[i]) <= Sum(pts[k]);
    assert InBox(pts[k], left, top, right, bottom);
  }

  lemma BottomLeftCorner(pts: seq<Point>, left: int, top: int, right: int, bottom: int)
    requires InsideBox(pts, left, top, right, bottom) && Point(left, bottom) in pts
    ensures pts[ArgMax(pts, Diff)] == Point(left, bottom)
  {
    var k := ArgMax(pts, Diff);
    var i :| 0 <= i < |pts| && pts[i] == Point(left, bottom);
    assert Diff(pts[i]) <= Diff(pts[k]);
    assert InBox(pts[k], left, top, right, bottom);
  }

  /**
   * A contour that stays inside an axis-aligned rectangle and passes
   * through its four corners is ordered as exactly those corners:
   * top-left, top-right, bottom-right, bottom-left.
   */
  lemma BoxContourOrdered(pts: seq<Point>, left: int, top: int, right: int, bottom: int)
    requires InsideBox(pts, left, top, right, bottom)
    requires Point(left, top) in pts && Point(right, top) in pts
    requires Point(right, bottom) in pts && Point(left, bottom) in pts
    ensures OrderPoints(pts) == BoxCorners(left, top, right, bottom)
  {
    TopLeftCorner(pts, left, top, right, bottom);
    TopRightCorner(pts, left, top, right, bottom);
    BottomRightCorner(pts, left, top, right, bottom);
    BottomLeftCorner(pts, left, top, right, bottom);
  }

  /** The four corners of a rectangle, listed in any order, come back in canonical order. */
  lemma FourCornersAnyOrder(pts: seq<Point>, left: int, top: int, right: int, bottom: int)
    requires left < right && top < bottom
    requires multiset(pts) == multiset(BoxCorners(left, top, right, bottom))
    ensures OrderPoints(pts) == BoxCorners(left, top, right, bottom)
  {
    var corners := BoxCorners(left, top, right, bottom);
    forall i | 0 <= i < |pts| ensures InBox(pts[i], left, top, right, bottom) {
      assert pts[i] in multiset(pts);
      assert pts[i] in corners;
    }
    forall c | c in corners ensures c in pts {
      assert c in multiset(corners);
      assert c in multiset(pts);
    }
    assert corners[0] in corners && corners[1] in corners && corners[2] in corners && corners[3] in corners;
    BoxContourOrdered(pts, left, top, right, bottom);
  }
}
