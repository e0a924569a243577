/** The bounding box of the loaded rings, and the per-axis delta the
    viewport is sized and stepped by. */
module Bounds {
  import opened Geometry

  /** `(i, j)` names coordinate `j` of ring `i`. */
  predicate IsCoord(rings: seq<Ring>, i: int, j: int) {
    0 <= i < |rings| && 0 <= j < |rings[i]|
  }

  /** `p` is the element-wise minimum of all coordinates: below every one
      of them, and each component taken from some coordinate. */
  ghost predicate IsLowerCorner(rings: seq<Ring>, p: Point) {
    (forall i, j :: IsCoord(rings, i, j) ==> p.x <= rings[i][j].x && p.y <= rings[i][j].y) &&
    (exists i, j :: IsCoord(rings, i, j) && rings[i][j].x == p.x) &&
    (exists i, j :: IsCoord(rings, i, j) && rings[i][j].y == p.y)
  }

  /** `p` is the element-wise maximum of all coordinates. */
  ghost predicate IsUpperCorner(rings: seq<Ring>, p: Point) {
    (forall i, j :: IsCoord(rings, i, j) ==> rings[i][j].x <= p.x && rings[i][j].y <= p.y) &&
    (exists i, j :: IsCoord(rings, i, j) && rings[i][j].x == p.x) &&
    (exists i, j :: IsCoord(rings, i, j) && rings[i][j].y == p.y)
  }

  /** Folds every coordinate of every ring into the element-wise minimum,
      seeded from the first coordinate of the first ring. */
  method GetMin(shapesCoords: seq<Ring>) returns (min: Point)
    requires |shapesCoords| > 0 && |shapesCoords[0]| > 0
    ensures IsLowerCorner(shapesCoords, min)
  {
    var minX := shapesCoords[0][0].x;
    var minY := shapesCoords[0][0].y;
    ghost var xi, xj, yi, yj := 0, 0, 0, 0;
    var i := 0;
    while i < |shapesCoords|
      invariant 0 <= i <= |shapesCoords|
      invariant IsCoord(shapesCoords, xi, xj) && shapesCoords[xi][xj].x == minX
      invariant IsCoord(shapesCoords, yi, yj) && shapesCoords[yi][yj].y == minY
      invariant forall a, b :: IsCoord(shapesCoords, a, b) && a < i ==>
        minX <= shapesCoords[a][b].x && minY <= shapesCoords[a][b].y
    {
      var shapeCoords := shapesCoords[i];
      var j := 0;
      while j < |shapeCoords|
        invariant 0 <= j <= |shapeCoords|
        invariant IsCoord(shapesCoords, xi, xj) && shapesCoords[xi][xj].x == minX
        invariant IsCoord(shapesCoords, yi, yj) && shapesCoords[yi][yj].y == minY
        invariant forall a, b :: IsCoord(shapesCoords, a, b) && (a < i || (a == i && b < j)) ==>
          minX <= shapesCoords[a][b].x && minY <= shapesCoords[a][b].y
      {
        var coordinates := shapeCoords[j];
        if coordinates.x < minX {
          minX := coordinates.x;
          xi, xj := i, j;
        }
        if coordinates.y < minY {
          minY := coordinates.y;
          yi, yj := i, j;
        }
        j := j + 1;
      }
      i := i + 1;
    }
    min := Point(minX, minY);
  }

  /** Folds every coordinate of every ring into the element-wise maximum,
      seeded from the first coordinate of the first ring. */
  method GetMax(shapesCoords: seq<Ring>) returns (max: Point)
    requires |shapesCoords| > 0 && |shapesCoords[0]| > 0
    ensures IsUpperCorner(shapesCoords, max)
  {
    var maxX := shapesCoords[0][0].x;
    var maxY := shapesCoords[0][0].y;
    ghost var xi, xj, yi, yj := 0, 0, 0, 0;
    var i := 0;
    while i < |shapesCoords|
      invariant 0 <= i <= |shapesCoords|
      invariant IsCoord(shapesCoords, xi, xj) && shapesCoords[xi][xj].x == maxX
      invariant IsCoord(shapesCoords, yi, yj) && shapesCoords[yi][yj].y == maxY
      invariant forall a, b :: IsCoord(shapesCoords, a, b) && a < i ==>
        shapesCoords[a][b].x <= maxX && shapesCoords[a][b].y <= maxY
    {
      var shapeCoords := shapesCoords[i];
      var j := 0;
      while j < |shapeCoords|
        invariant 0 <= j <= |shapeCoords|
        invariant IsCoord(shapesCoords, xi, xj) && shapesCoords[xi][xj].x == maxX
        invariant IsCoord(shapesCoords, yi, yj) && shapesCoords[yi][yj].y == maxY
        invariant forall a, b :: IsCoord(shapesCoords, a, b) && (a < i || (a == i && b < j)) ==>
          shapesCoords[a][b].x <= maxX && shapesCoords[a][b].y <= maxY
      {
        var coordinates := shapeCoords[j];
        if coordinates.x > maxX {
          maxX := coordinates.x;
          xi, xj := i, j;
        }
        if coordinates.y > maxY {
          maxY := coordinates.y;
          yi, yj := i, j;
        }
        j := j + 1;
      }
      i := i + 1;
    }
    max := Point(maxX, maxY);
  }

  /** The corners are determined by the rings: the folds have one possible
      answer each. */
  lemma CornersUnique(rings: seq<Ring>, p: Point, q: Point)
    ensures IsLowerCorner(rings, p) && IsLowerCorner(rings, q) ==> p == q
    ensures IsUpperCorner(rings, p) && IsUpperCorner(rings, q) ==> p == q
  {
    if IsLowerCorner(rings, p) && IsLowerCorner(rings, q) {
      var i1, j1 :| IsCoord(rings, i1, j1) && rings[i1][j1].x == p.x;
      var i2, j2 :| IsCoord(rings, i2, j2) && rings[i2][j2].x == q.x;
      var i3, j3 :| IsCoord(rings, i3, j3) && rings[i3][j3].y == p.y;
      var i4, j4 :| IsCoord(rings, i4, j4) && rings[i4][j4].y == q.y;
      assert p.x <= rings[i2][j2].x && q.x <= rings[i1][j1].x;
      assert p.y <= rings[i4][j4].y && q.y <= rings[i3][j3].y;
    }
    if IsUpperCorner(rings, p) && IsUpperCorner(rings, q) {
      var i1, j1 :| IsCoord(rings, i1, j1) && rings[i1][j1].x == p.x;
      var i2, j2 :| IsCoord(rings, i2, j2) && rings[i2][j2].x == q.x;
      var i3, j3 :| IsCoord(rings, i3, j3) && rings[i3][j3].y == p.y;
      var i4, j4 :| IsCoord(rings, i4, j4) && rings[i4][j4].y == q.y;
      assert rings[i2][j2].x <= p.x && rings[i1][j1].x <= q.x;
      assert rings[i4][j4].y <= p.y && rings[i3][j3].y <= q.y;
    }
  }

  /** The lower corner is below the upper corner on both axes. */
  lemma CornersOrdered(rings: seq<Ring>, lo: Point, hi: Point)
    requires IsLowerCorner(rings, lo) && IsUpperCorner(rings, hi)
    ensures lo.x <= hi.x && lo.y <= hi.y
  {
    var i, j :| IsCoord(rings, i, j) && rings[i][j].x == lo.x;
    assert rings[i][j].x <= hi.x;
    var k, l :| IsCoord(rings, k, l) && rings[k][l].y == lo.y;
    assert rings[k][l].y <= hi.y;
  }

  function Abs(v: real): (r: real)
    ensures r >= 0.0 && (r == v || r == -v)
  {
    if v < 0.0 then -v else v
  }

  /** The delta along one axis: the distance between the magnitudes of the
      two bounds, not between the bounds themselves. */
  function AxisDelta(lo: real, hi: real): (d: real)
    ensures 0.0 <= d <= Abs(hi - lo)
    ensures d == Abs(hi) - Abs(lo) || d == Abs(lo) - Abs(hi)
  {
    Abs(Abs(hi) - Abs(lo))
  }

  /** The per-axis delta of a bounding box. */
  function GetDelta(min: Point, max: Point): (delta: Point)
    ensures delta.x >= 0.0 && delta.y >= 0.0
    ensures delta.x == AxisDelta(min.x, max.x) && delta.y == AxisDelta(min.y, max.y)
  {
    Point(AxisDelta(min.x, max.x), AxisDelta(min.y, max.y))
  }

  /** The delta is the extent `hi - lo` exactly when the bounds are ordered
      and lie on one side of zero. */
  lemma AxisDeltaIsExtent(lo: real, hi: real)
    ensures AxisDelta(lo, hi) == hi - lo <==> lo <= hi && (0.0 <= lo || hi <= 0.0)
  {
  }

  /** For bounds straddling zero the delta is strictly smaller than the
      extent. */
  lemma AxisDeltaStraddling(lo: real, hi: real)
    requires lo < 0.0 < hi
    ensures AxisDelta(lo, hi) < hi - lo
  {
  }

  /** When the coordinates lie on one side of zero on each axis, the
      rectangle `(min, delta)` covers every coordinate. */
  lemma BoxCoversRings(rings: seq<Ring>, min: Point, max: Point)
    requires IsLowerCorner(rings, min) && IsUpperCorner(rings, max)
    requires 0.0 <= min.x || max.x <= 0.0
    requires 0.0 <= min.y || max.y <= 0.0
    ensures var d := GetDelta(min, max);
      forall i, j :: IsCoord(rings, i, j) ==>
        min.x <= rings[i][j].x <= min.x + d.x && min.y <= rings[i][j].y <= min.y + d.y
  {
    CornersOrdered(rings, min, max);
    AxisDeltaIsExtent(min.x, max.x);
    AxisDeltaIsExtent(min.y, max.y);
  }
}
