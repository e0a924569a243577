/** The map controller: it requests features, turns them into shapes,
    measures their bounding box, sizes the viewBox from it and then pans and
    zooms that viewBox on request, keeping a load status throughout. */
module DataRender {
  import opened Geometry
  import opened Bounds
  import opened Color
  import Viewport

  datatype Option<T> = None | Some(value: T)

  /** The load status shown by the view. */
  datatype Status = OnHold | Processing | Success | Error

  /** A shape as the view draws it: a fill colour and a path text. */
  datatype Shape = Shape(fill: string, path: string)

  /** Number of points requested by the first load. */
  const InitialPoints: int := 200

  /** The host's `Math.round`: halves round up. */
  function Round(v: real): (r: int)
    ensures r as real <= v + 0.5 < r as real + 1.0
  {
    (v + 0.5).Floor
  }

  /** The colour offset of a feature: its attribute scaled by the
      session's random interval, rounded. */
  function Tint(interval: real, attr: real): (r: int)
    ensures r as real - 0.5 <= interval * attr < r as real + 0.5
  {
    Round(interval * attr)
  }

  /** How many leading features the shape generation gets through: it stops
      at the first feature that has no first ring or whose first ring is
      empty, where the host's lookup fails. */
  function ProcessedCount(fs: seq<Feature>): (n: nat)
    ensures n <= |fs|
    ensures forall k :: 0 <= k < n ==> HasFirstRing(fs[k])
    ensures n < |fs| ==> !HasFirstRing(fs[n])
  {
    if fs == [] || !HasFirstRing(fs[0]) then 0 else 1 + ProcessedCount(fs[1..])
  }

  lemma {:induction false} ProcessedCountAt(fs: seq<Feature>, i: nat)
    requires i <= |fs| && AllHaveFirstRing(fs[..i]) && (i < |fs| ==> !HasFirstRing(fs[i]))
    ensures ProcessedCount(fs) == i
  {
    if i > 0 {
      assert fs[..i][0] == fs[0];
      var rest := fs[1..];
      assert rest[..i - 1] == fs[..i][1..];
      assert i - 1 < |rest| ==> rest[i - 1] == fs[i];
      ProcessedCountAt(rest, i - 1);
    }
  }

  lemma TakeOneMore<T>(s: seq<T>, i: nat)
    requires i < |s|
    ensures s[..i + 1] == s[..i] + [s[i]]
  {
  }

  predicate AllHaveFirstRing(fs: seq<Feature>) {
    forall k :: 0 <= k < |fs| ==> HasFirstRing(fs[k])
  }

  /** The ring kept for each feature, in feature order. */
  function RingsOf(fs: seq<Feature>): seq<Ring>
    requires AllHaveFirstRing(fs)
  {
    if fs == [] then [] else RingsOf(fs[..|fs| - 1]) + [FirstRing(fs[|fs| - 1])]
  }

  /** The shape drawn for a feature: its colour from the session's random
      `interval` and its attribute, its path from its first ring. */
  function ShapeOf(f: Feature, interval: real, fmt: real -> string): Shape
    requires HasFirstRing(f)
  {
    Shape(DecimalToHexColor(Tint(interval, f.attr)), RenderPath(fmt, Commands(FirstRing(f))))
  }

  /** The shape drawn for each feature, in feature order. */
  function ShapesOf(fs: seq<Feature>, interval: real, fmt: real -> string): seq<Shape>
    requires AllHaveFirstRing(fs)
  {
    if fs == [] then [] else ShapesOf(fs[..|fs| - 1], interval, fmt) + [ShapeOf(fs[|fs| - 1], interval, fmt)]
  }

  lemma OfAppend(fs: seq<Feature>, f: Feature, interval: real, fmt: real -> string)
    requires AllHaveFirstRing(fs) && HasFirstRing(f)
    ensures AllHaveFirstRing(fs + [f])
    ensures RingsOf(fs + [f]) == RingsOf(fs) + [FirstRing(f)]
    ensures ShapesOf(fs + [f], interval, fmt) == ShapesOf(fs, interval, fmt) + [ShapeOf(f, interval, fmt)]
  {
    assert (fs + [f])[..|fs|] == fs;
  }

  /** One ring per feature, each the first ring of the feature at the same
      position. */
  lemma {:induction false} RingPerFeature(fs: seq<Feature>)
    requires AllHaveFirstRing(fs)
    ensures |RingsOf(fs)| == |fs|
    ensures forall k :: 0 <= k < |fs| ==> RingsOf(fs)[k] == FirstRing(fs[k])
  {
    if fs != [] {
      var init := fs[..|fs| - 1];
      assert AllHaveFirstRing(init);
      RingPerFeature(init);
      forall k | 0 <= k < |fs|
        ensures RingsOf(fs)[k] == FirstRing(fs[k])
      {
        if k < |init| {
          assert RingsOf(fs)[k] == RingsOf(init)[k];
        }
      }
    }
  }

  /** One shape per feature, each the shape of the feature at the same
      position. */
  lemma {:induction false} ShapePerFeature(fs: seq<Feature>, interval: real, fmt: real -> string)
    requires AllHaveFirstRing(fs)
    ensures |ShapesOf(fs, interval, fmt)| == |fs|
    ensures forall k :: 0 <= k < |fs| ==> ShapesOf(fs, interval, fmt)[k] == ShapeOf(fs[k], interval, fmt)
  {
    if fs != [] {
      var init, last := fs[..|fs| - 1], fs[|fs| - 1];
      assert AllHaveFirstRing(init);
      ShapePerFeature(init, interval, fmt);
      var s, si, sl := ShapesOf(fs, interval, fmt), ShapesOf(init, interval, fmt), ShapeOf(last, interval, fmt);
      assert s == si + [sl];
      forall k | 0 <= k < |fs|
        ensures s[k] == ShapeOf(fs[k], interval, fmt)
      {
        if k < |init| {
          assert fs[k] == init[k];
        } else {
          assert fs[k] == last;
        }
      }
    }
  }

  /** When every feature is well formed, the shape generation gets through
      all of them. */
  lemma {:induction false} ProcessedCountAll(fs: seq<Feature>)
    ensures ProcessedCount(fs) == |fs| <==> AllHaveFirstRing(fs)
  {
    var n := ProcessedCount(fs);
    if n < |fs| {
      assert !HasFirstRing(fs[n]);
    }
  }

  /** One shape per ring, and every ring has a first point. */
  predicate WellFormedShapes(svgs: seq<Shape>, coords: seq<Ring>) {
    |svgs| == |coords| && forall k :: 0 <= k < |coords| ==> |coords[k]| > 0
  }

  /** Appending the shapes and rings of well-formed features keeps the two
      lists equally long and every ring non-empty. */
  lemma AppendKeepsShapesWellFormed(svgs: seq<Shape>, coords: seq<Ring>, fs: seq<Feature>, interval: real, fmt: real -> string)
    requires AllHaveFirstRing(fs)
    requires WellFormedShapes(svgs, coords)
    ensures WellFormedShapes(svgs + ShapesOf(fs, interval, fmt), coords + RingsOf(fs))
  {
    RingPerFeature(fs);
    ShapePerFeature(fs, interval, fmt);
    var all := coords + RingsOf(fs);
    forall k | 0 <= k < |all|
      ensures |all[k]| > 0
    {
      if k >= |coords| {
        assert all[k] == FirstRing(fs[k - |coords|]);
      }
    }
  }

  /** When every feature is well formed, the shape generation appends
      exactly one ring and one shape per feature. */
  lemma AllGenerated(fs: seq<Feature>, interval: real, fmt: real -> string)
    requires AllHaveFirstRing(fs)
    ensures var n := ProcessedCount(fs);
      n == |fs| && fs[..n] == fs &&
      |RingsOf(fs[..n])| == |fs| && |ShapesOf(fs[..n], interval, fmt)| == |fs|
  {
    ProcessedCountAll(fs);
    assert fs[..|fs|] == fs;
    RingPerFeature(fs);
    ShapePerFeature(fs, interval, fmt);
  }

  /** Builds the shape of one feature: its fill colour, then its path. */
  method BuildShape(feature: Feature, interval: real, fmt: real -> string) returns (svgShape: Shape)
    requires HasFirstRing(feature)
    ensures svgShape == ShapeOf(feature, interval, fmt)
  {
    var fill := DecimalToHexColor(Tint(interval, feature.attr));
    var path := BuildPath(fmt, feature.geometry[0][0]);
    svgShape := Shape(fill, path);
  }

  /** One step of the shape generation loop: appending feature `i`'s shape
      and ring extends the lists of the first `i` features to those of the
      first `i + 1`. */
  lemma AppendStep(fs: seq<Feature>, i: nat, svgs0: seq<Shape>, coords0: seq<Ring>, interval: real, fmt: real -> string)
    requires i < |fs| && AllHaveFirstRing(fs[..i]) && HasFirstRing(fs[i])
    ensures AllHaveFirstRing(fs[..i + 1])
    ensures coords0 + RingsOf(fs[..i]) + [FirstRing(fs[i])] == coords0 + RingsOf(fs[..i + 1])
    ensures svgs0 + ShapesOf(fs[..i], interval, fmt) + [ShapeOf(fs[i], interval, fmt)]
      == svgs0 + ShapesOf(fs[..i + 1], interval, fmt)
  {
    TakeOneMore(fs, i);
    OfAppend(fs[..i], fs[i], interval, fmt);
    ConcatAssoc(coords0, RingsOf(fs[..i]), [FirstRing(fs[i])]);
    ConcatAssoc(svgs0, ShapesOf(fs[..i], interval, fmt), [ShapeOf(fs[i], interval, fmt)]);
  }

  /** Appends a shape and its ring for each feature of `fs`, in order, to
      `svgs0` and `coords0`, stopping at the first feature without a first
      ring; `n` is the number of features got through. */
  method AppendShapes(fs: seq<Feature>, svgs0: seq<Shape>, coords0: seq<Ring>, interval: real, fmt: real -> string)
    returns (svgs: seq<Shape>, coords: seq<Ring>, n: nat)
    ensures n == ProcessedCount(fs)
    ensures coords == coords0 + RingsOf(fs[..n]) && svgs == svgs0 + ShapesOf(fs[..n], interval, fmt)
  {
    svgs, coords := svgs0, coords0;
    var i := 0;
    while i < |fs| && HasFirstRing(fs[i])
      invariant 0 <= i <= |fs|
      invariant AllHaveFirstRing(fs[..i])
      invariant coords == coords0 + RingsOf(fs[..i])
      invariant svgs == svgs0 + ShapesOf(fs[..i], interval, fmt)
    {
      var feature := fs[i];
      var svgShape := BuildShape(feature, interval, fmt);
      var shape := feature.geometry[0][0];
      AppendStep(fs, i, svgs0, coords0, interval, fmt);
      svgs := svgs + [svgShape];
      coords := coords + [shape];
      i := i + 1;
    }
    n := i;
    ProcessedCountAt(fs, i);
  }

  class Controller {
    var status: Status
    /** Number of points the next request asks for. */
    var nPoints: int
    /** The features of the last successful response. */
    var features: seq<Feature>
    /** Shapes to draw and their rings, in the order generated. */
    var shapesSVG: seq<Shape>
    var shapesCoords: seq<Ring>
    /** Bounds and delta of the last measurement; absent before the first. */
    var min: Option<Point>
    var max: Option<Point>
    var delta: Option<Point>
    /** The `viewBox` attribute of the SVG element. */
    var viewBox: Viewport.ViewBox
    /** The payload of the last failed request. */
    var errorPayload: string

    ghost predicate Valid()
      reads this`nPoints, this`shapesSVG, this`shapesCoords, this`min, this`max, this`delta
    {
      nPoints > 0 &&
      WellFormedShapes(shapesSVG, shapesCoords) &&
      (delta.Some? ==>
        min.Some? && max.Some? && delta.value == GetDelta(min.value, max.value))
    }

    /** The bounds are those of every current ring, and the viewBox spans
        the lower corner and the delta. */
    ghost predicate Measured()
      reads this`shapesCoords, this`min, this`max, this`delta, this`viewBox
    {
      min.Some? && max.Some? && delta.Some? &&
      IsLowerCorner(shapesCoords, min.value) && IsUpperCorner(shapesCoords, max.value) &&
      delta.value == GetDelta(min.value, max.value) &&
      viewBox == Viewport.ViewBox(min.value.x, min.value.y, delta.value.x, delta.value.y)
    }

    /** The shapes and rings are `svgs` and `coords` followed by one shape
        and one ring per feature of `fs` up to the first feature without a
        first ring. */
    ghost predicate Appended(svgs: seq<Shape>, coords: seq<Ring>, fs: seq<Feature>, interval: real, fmt: real -> string)
      reads this`shapesSVG, this`shapesCoords
    {
      var n := ProcessedCount(fs);
      shapesCoords == coords + RingsOf(fs[..n]) &&
      shapesSVG == svgs + ShapesOf(fs[..n], interval, fmt)
    }

    /** Sets up an empty controller over an SVG element whose markup gives
        the viewBox `vb`, and starts the first load. */
    constructor (vb: Viewport.ViewBox)
      ensures Valid()
      ensures status == Processing && nPoints == InitialPoints
      ensures features == [] && shapesSVG == [] && shapesCoords == []
      ensures min == None && max == None && delta == None && viewBox == vb
    {
      status := OnHold;
      nPoints := InitialPoints;
      features, shapesSVG, shapesCoords := [], [], [];
      min, max, delta := None, None, None;
      viewBox := vb;
      errorPayload := "";
      new;
      var _ := LoadMap();
    }

    /** Marks the controller busy and issues a request for `nPoints`
        points, whose size is returned. The response arrives later, through
        `OnFetchSuccess` or `OnFetchError`. */
    method LoadMap() returns (requested: int)
      requires Valid()
      modifies this`status
      ensures Valid()
      ensures status == Processing && requested == nPoints
    {
      status := Processing;
      requested := nPoints;
    }

    /** The reload control: a new request for the same number of points. */
    method Render() returns (requested: int)
      requires Valid()
      modifies this`status
      ensures Valid()
      ensures status == Processing && requested == nPoints
    {
      requested := LoadMap();
    }

    /** Doubles the number of points, then reloads. */
    method MoreData() returns (requested: int)
      requires Valid()
      modifies this`nPoints, this`status
      ensures Valid()
      ensures nPoints == 2 * old(nPoints)
      ensures status == Processing && requested == nPoints
    {
      nPoints := nPoints * 2;
      requested := LoadMap();
    }

    /** Appends a shape and its ring for each feature, in order, stopping
        at the first feature without a first ring (`ok` is then false).
        Nothing already generated is removed. */
    method GenerateShapes(interval: real, fmt: real -> string) returns (ok: bool)
      requires Valid()
      modifies this`shapesSVG, this`shapesCoords
      ensures Valid()
      ensures ok == (ProcessedCount(features) == |features|)
      ensures Appended(old(shapesSVG), old(shapesCoords), features, interval, fmt)
    {
      var svgs, coords, n := AppendShapes(features, shapesSVG, shapesCoords, interval, fmt);
      AppendKeepsShapesWellFormed(shapesSVG, shapesCoords, features[..n], interval, fmt);
      ok := n == |features|;
      shapesSVG, shapesCoords := svgs, coords;
    }

    /** Measures the bounding box of all rings, derives the delta and sizes
        the viewBox to `(min, delta)`. */
    method SetDimension()
      requires Valid() && |shapesCoords| > 0
      modifies this`min, this`max, this`delta, this`viewBox
      ensures Valid() && Measured()
    {
      var lo := GetMin(shapesCoords);
      var hi := GetMax(shapesCoords);
      var d := GetDelta(lo, hi);
      min, max, delta := Some(lo), Some(hi), Some(d);
      viewBox := Viewport.ViewBox(lo.x, lo.y, d.x, d.y);
    }

    /** A successful response: the features are stored and turned into
        shapes, then measured, and the status becomes `Success`. If shape
        generation stops early, or there is still no ring to measure, the
        host's lookup fails mid-callback: what was appended stays, nothing
        is measured and the status is left as it was. */
    method OnFetchSuccess(data: seq<Feature>, interval: real, fmt: real -> string)
      requires Valid()
      modifies this`features, this`shapesSVG, this`shapesCoords, this`status
      modifies this`min, this`max, this`delta, this`viewBox
      ensures Valid()
      ensures features == data
      ensures Appended(old(shapesSVG), old(shapesCoords), data, interval, fmt)
      ensures if ProcessedCount(data) == |data| && |shapesCoords| > 0 then
          status == Success && Measured()
        else
          status == old(status) && min == old(min) && max == old(max) &&
          delta == old(delta) && viewBox == old(viewBox)
    {
      features := data;
      var ok := GenerateShapes(interval, fmt);
      FinishLoad(ok);
    }

    /** The rest of the success callback once the shapes are generated:
        when generation got through every feature and there is a ring to
        measure, the bounds are measured and the status becomes `Success`;
        otherwise the callback has already failed and nothing changes. */
    method FinishLoad(ok: bool)
      requires Valid()
      modifies this`min, this`max, this`delta, this`viewBox, this`status
      ensures Valid()
      ensures if ok && |shapesCoords| > 0 then
          status == Success && Measured()
        else
          status == old(status) && min == old(min) && max == old(max) &&
          delta == old(delta) && viewBox == old(viewBox)
    {
      if ok && |shapesCoords| > 0 {
        SetDimension();
        status := Success;
      }
    }

    /** A failed response: the payload is kept for display and the status
        becomes `Error`. */
    method OnFetchError(data: string)
      requires Valid()
      modifies this`errorPayload, this`status
      ensures Valid()
      ensures status == Error && errorPayload == data
    {
      errorPayload := data;
      status := Error;
    }

    /** The failure callback as the source has it: after storing the
        payload it reads an undeclared name for the new status, which
        throws, so the status is never changed. */
    method OnFetchErrorAsWritten(data: string)
      requires Valid()
      modifies this`errorPayload
      ensures Valid()
      ensures status == old(status) && errorPayload == data
    {
      errorPayload := data;
    }

    /** Before the first measurement there is no delta, the host's lookup
        of it fails and none of the six controls changes anything. */

    method ZoomIn()
      requires Valid()
      modifies this`viewBox
      ensures Valid()
      ensures viewBox == if delta.Some? then Viewport.ZoomIn(old(viewBox), delta.value) else old(viewBox)
    {
      if delta.Some? {
        var x, y, width, height := viewBox.x, viewBox.y, viewBox.width, viewBox.height;
        width := width - delta.value.x * Viewport.KFactor;
        height := height - delta.value.y * Viewport.KFactor;
        if width > 0.0 && height > 0.0 {
          viewBox := Viewport.ViewBox(x, y, width, height);
        }
      }
    }

    method ZoomOut()
      requires Valid()
      modifies this`viewBox
      ensures Valid()
      ensures viewBox == if delta.Some? then Viewport.ZoomOut(old(viewBox), delta.value) else old(viewBox)
    {
      if delta.Some? {
        var x, y, width, height := viewBox.x, viewBox.y, viewBox.width, viewBox.height;
        width := width + delta.value.x * Viewport.KFactor;
        height := height + delta.value.y * Viewport.KFactor;
        viewBox := Viewport.ViewBox(x, y, width, height);
      }
    }

    method MoveUp()
      requires Valid()
      modifies this`viewBox
      ensures Valid()
      ensures viewBox == if delta.Some? then Viewport.MoveUp(old(viewBox), delta.value) else old(viewBox)
    {
      if delta.Some? {
        var x, y, width, height := viewBox.x, viewBox.y, viewBox.width, viewBox.height;
        y := y - delta.value.y * Viewport.KFactor;
        viewBox := Viewport.ViewBox(x, y, width, height);
      }
    }

    method MoveDown()
      requires Valid()
      modifies this`viewBox
      ensures Valid()
      ensures viewBox == if delta.Some? then Viewport.MoveDown(old(viewBox), delta.value) else old(viewBox)
    {
      if delta.Some? {
        var x, y, width, height := viewBox.x, viewBox.y, viewBox.width, viewBox.height;
        y := y + delta.value.y * Viewport.KFactor;
        viewBox := Viewport.ViewBox(x, y, width, height);
      }
    }

    method MoveLeft()
      requires Valid()
      modifies this`viewBox
      ensures Valid()
      ensures viewBox == if delta.Some? then Viewport.MoveLeft(old(viewBox), delta.value) else old(viewBox)
    {
      if delta.Some? {
        var x, y, width, height := viewBox.x, viewBox.y, viewBox.width, viewBox.height;
        x := x - delta.value.x * Viewport.KFactor;
        viewBox := Viewport.ViewBox(x, y, width, height);
      }
    }

    method MoveRight()
      requires Valid()
      modifies this`viewBox
      ensures Valid()
      ensures viewBox == if delta.Some? then Viewport.MoveRight(old(viewBox), delta.value) else old(viewBox)
    {
      if delta.Some? {
        var x, y, width, height := viewBox.x, viewBox.y, viewBox.width, viewBox.height;
        x := x + delta.value.x * Viewport.KFactor;
        viewBox := Viewport.ViewBox(x, y, width, height);
      }
    }
  }

  lemma SingleFeature(f: Feature)
    requires HasFirstRing(f)
    ensures ProcessedCount([f]) == 1 && [f][..1] == [f] && RingsOf([f]) == [FirstRing(f)]
  {
    assert [f][..0] == [];
  }

  /** The corners of the 4-by-3 rectangle with a corner at the origin. */
  lemma RectangleCorners(rect: Ring)
    requires rect == [Point(0.0, 0.0), Point(4.0, 0.0), Point(4.0, 3.0), Point(0.0, 3.0)]
    ensures IsLowerCorner([rect], Point(0.0, 0.0)) && IsUpperCorner([rect], Point(4.0, 3.0))
  {
    var rings := [rect];
    assert IsCoord(rings, 0, 0) && rings[0][0].x == 0.0 && rings[0][0].y == 0.0;
    assert IsCoord(rings, 0, 2) && rings[0][2].x == 4.0 && rings[0][2].y == 3.0;
    forall i, j | IsCoord(rings, i, j)
      ensures 0.0 <= rings[i][j].x <= 4.0 && 0.0 <= rings[i][j].y <= 3.0
    {
      assert i == 0 && j in {0, 1, 2, 3};
    }
  }

  /** A controller that has loaded the 4-by-3 rectangle with a corner at
      the origin: its viewBox is exactly that rectangle. */
  method LoadRectangle(fmt: real -> string) returns (c: Controller)
    ensures fresh(c) && c.Valid()
    ensures c.status == Success && c.delta == Some(Point(4.0, 3.0))
    ensures c.min == Some(Point(0.0, 0.0)) && c.max == Some(Point(4.0, 3.0))
    ensures c.viewBox == Viewport.ViewBox(0.0, 0.0, 4.0, 3.0)
  {
    c := new Controller(Viewport.ViewBox(0.0, 0.0, 0.0, 0.0));
    var rect := [Point(0.0, 0.0), Point(4.0, 0.0), Point(4.0, 3.0), Point(0.0, 3.0)];
    var f := Feature(1.0, [[rect]]);
    SingleFeature(f);
    c.OnFetchSuccess([f], 0.5, fmt);
    assert c.shapesCoords == [rect];
    RectangleCorners(rect);
    CornersUnique([rect], c.min.value, Point(0.0, 0.0));
    CornersUnique([rect], c.max.value, Point(4.0, 3.0));
  }

  /** One load of the 4-by-3 rectangle sizes the viewBox to it; one zoom-in
      shrinks it by a tenth of the delta and one zoom-out restores it. */
  method RectangleSession(fmt: real -> string)
    returns (s: Status, loaded: Viewport.ViewBox, zoomed: Viewport.ViewBox, restored: Viewport.ViewBox)
    ensures s == Success
    ensures loaded == Viewport.ViewBox(0.0, 0.0, 4.0, 3.0)
    ensures zoomed == Viewport.ViewBox(0.0, 0.0, 3.6, 2.7)
    ensures restored == loaded
  {
    var c := LoadRectangle(fmt);
    s, loaded := c.status, c.viewBox;
    c.ZoomIn();
    zoomed := c.viewBox;
    c.ZoomOut();
    restored := c.viewBox;
  }

  /** A first load that fails, with the failure callback as the source
      has it: the status stays `Processing`. */
  method FailedLoadAsWritten(vb: Viewport.ViewBox, payload: string) returns (s: Status)
    ensures s == Processing
  {
    var c := new Controller(vb);
    c.OnFetchErrorAsWritten(payload);
    s := c.status;
  }

  /** A first load that fails: the status goes from `Processing` straight
      to `Error`. */
  method FailedLoad(vb: Viewport.ViewBox, payload: string) returns (before: Status, after: Status)
    ensures before == Processing && after == Error
  {
    var c := new Controller(vb);
    before := c.status;
    c.OnFetchError(payload);
    after := c.status;
  }
}
