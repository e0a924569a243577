/** The visible rectangle of the map (the SVG `viewBox`) and the six
    pan/zoom steps the user controls apply to it. Every step moves by the
    delta captured at the last load times a fixed factor. */
module Viewport {
  import opened Geometry

  /** The `viewBox` attribute: origin and extent of the visible area. */
  datatype ViewBox = ViewBox(x: real, y: real, width: real, height: real)

  /** The step of every pan and zoom, as a fraction of the delta. */
  const KFactor: real := 0.1

  predicate Positive(vb: ViewBox) {
    vb.width > 0.0 && vb.height > 0.0
  }

  /** Whether zooming in by one step leaves both dimensions positive. */
  predicate CanZoomIn(vb: ViewBox, delta: Point) {
    vb.width - delta.x * KFactor > 0.0 && vb.height - delta.y * KFactor > 0.0
  }

  /** Shrinks the extent by one step, but only when the result stays
      non-degenerate; the origin never moves. */
  function ZoomIn(vb: ViewBox, delta: Point): (r: ViewBox)
    ensures r.x == vb.x && r.y == vb.y
    ensures CanZoomIn(vb, delta) ==>
      vb.width - r.width == delta.x * KFactor && vb.height - r.height == delta.y * KFactor && Positive(r)
    ensures !CanZoomIn(vb, delta) ==> r == vb
  {
    var width := vb.width - delta.x * KFactor;
    var height := vb.height - delta.y * KFactor;
    if width > 0.0 && height > 0.0 then ViewBox(vb.x, vb.y, width, height) else vb
  }

  /** Grows the extent by one step, unconditionally; the origin never moves. */
  function ZoomOut(vb: ViewBox, delta: Point): (r: ViewBox)
    ensures r.x == vb.x && r.y == vb.y
    ensures r.width - vb.width == delta.x * KFactor && r.height - vb.height == delta.y * KFactor
  {
    ViewBox(vb.x, vb.y, vb.width + delta.x * KFactor, vb.height + delta.y * KFactor)
  }

  /** Moves the origin up by one step; nothing else changes. */
  function MoveUp(vb: ViewBox, delta: Point): (r: ViewBox)
    ensures r.x == vb.x && r.width == vb.width && r.height == vb.height
    ensures vb.y - r.y == delta.y * KFactor
  {
    ViewBox(vb.x, vb.y - delta.y * KFactor, vb.width, vb.height)
  }

  /** Moves the origin down by one step; nothing else changes. */
  function MoveDown(vb: ViewBox, delta: Point): (r: ViewBox)
    ensures r.x == vb.x && r.width == vb.width && r.height == vb.height
    ensures r.y - vb.y == delta.y * KFactor
  {
    ViewBox(vb.x, vb.y + delta.y * KFactor, vb.width, vb.height)
  }

  /** Moves the origin left by one step; nothing else changes. */
  function MoveLeft(vb: ViewBox, delta: Point): (r: ViewBox)
    ensures r.y == vb.y && r.width == vb.width && r.height == vb.height
    ensures vb.x - r.x == delta.x * KFactor
  {
    ViewBox(vb.x - delta.x * KFactor, vb.y, vb.width, vb.height)
  }

  /** Moves the origin right by one step; nothing else changes. */
  function MoveRight(vb: ViewBox, delta: Point): (r: ViewBox)
    ensures r.y == vb.y && r.width == vb.width && r.height == vb.height
    ensures r.x - vb.x == delta.x * KFactor
  {
    ViewBox(vb.x + delta.x * KFactor, vb.y, vb.width, vb.height)
  }

  /** Opposite pans undo each other, in either order. */
  lemma PansAreInverse(vb: ViewBox, delta: Point)
    ensures MoveDown(MoveUp(vb, delta), delta) == vb && MoveUp(MoveDown(vb, delta), delta) == vb
    ensures MoveRight(MoveLeft(vb, delta), delta) == vb && MoveLeft(MoveRight(vb, delta), delta) == vb
  {
  }

  /** Zooming out undoes a zoom-in that was applied. */
  lemma ZoomOutUndoesZoomIn(vb: ViewBox, delta: Point)
    requires CanZoomIn(vb, delta)
    ensures ZoomOut(ZoomIn(vb, delta), delta) == vb
  {
  }

  /** Zooming in always undoes a zoom-out of a non-degenerate box: the
      guard cannot fail on the way back. */
  lemma ZoomInUndoesZoomOut(vb: ViewBox, delta: Point)
    requires Positive(vb)
    ensures CanZoomIn(ZoomOut(vb, delta), delta)
    ensures ZoomIn(ZoomOut(vb, delta), delta) == vb
  {
  }

  /** The user controls: zoom in/out and the four pans. */
  datatype Control = ZoomInButton | ZoomOutButton | UpButton | DownButton | LeftButton | RightButton

  function Press(vb: ViewBox, delta: Point, c: Control): ViewBox {
    match c
    case ZoomInButton => ZoomIn(vb, delta)
    case ZoomOutButton => ZoomOut(vb, delta)
    case UpButton => MoveUp(vb, delta)
    case DownButton => MoveDown(vb, delta)
    case LeftButton => MoveLeft(vb, delta)
    case RightButton => MoveRight(vb, delta)
  }

  /** The viewBox after the controls `cs` are pressed in order. */
  function PressAll(vb: ViewBox, delta: Point, cs: seq<Control>): ViewBox {
    if cs == [] then vb else Press(PressAll(vb, delta, cs[..|cs| - 1]), delta, cs[|cs| - 1])
  }

  /** How often `c` occurs in `cs`. */
  function Count(cs: seq<Control>, c: Control): nat {
    if cs == [] then 0
    else Count(cs[..|cs| - 1], c) + (if cs[|cs| - 1] == c then 1 else 0)
  }

  /** The net number of presses of `plus` over presses of `minus` in `cs`. */
  function Net(cs: seq<Control>, plus: Control, minus: Control): int {
    if cs == [] then 0
    else
      Net(cs[..|cs| - 1], plus, minus)
      + (if cs[|cs| - 1] == plus then 1 else if cs[|cs| - 1] == minus then -1 else 0)
  }

  lemma {:induction false} NetIsCountDifference(cs: seq<Control>, plus: Control, minus: Control)
    requires plus != minus
    ensures Net(cs, plus, minus) == Count(cs, plus) - Count(cs, minus)
  {
    if cs != [] {
      NetIsCountDifference(cs[..|cs| - 1], plus, minus);
    }
  }

  /** `v` moved by `n` steps of size `step`, forwards for positive `n`. */
  function Shift(v: real, step: real, n: int): real
    decreases if n < 0 then -n else n
  {
    if n == 0 then v
    else if n > 0 then Shift(v, step, n - 1) + step
    else Shift(v, step, n + 1) - step
  }

  lemma {:induction false} ShiftForward(v: real, step: real, n: int)
    ensures Shift(v, step, n + 1) == Shift(v, step, n) + step
    decreases if n < 0 then -n else n
  {
    if n < -1 {
      ShiftForward(v, step, n + 1);
    }
  }

  /** Whatever the order of the presses and whatever the zoom guard did,
      the origin ends up moved by one step per pan, net of the opposite
      pans; zooming never moves it. */
  lemma PanDisplacement(vb: ViewBox, delta: Point, cs: seq<Control>)
    ensures PressAll(vb, delta, cs).x
      == Shift(vb.x, delta.x * KFactor, Count(cs, RightButton) - Count(cs, LeftButton))
    ensures PressAll(vb, delta, cs).y
      == Shift(vb.y, delta.y * KFactor, Count(cs, DownButton) - Count(cs, UpButton))
  {
    HorizontalDisplacement(vb, delta, cs);
    VerticalDisplacement(vb, delta, cs);
    NetIsCountDifference(cs, RightButton, LeftButton);
    NetIsCountDifference(cs, DownButton, UpButton);
  }

  lemma {:induction false} HorizontalDisplacement(vb: ViewBox, delta: Point, cs: seq<Control>)
    ensures PressAll(vb, delta, cs).x == Shift(vb.x, delta.x * KFactor, Net(cs, RightButton, LeftButton))
  {
    if cs != [] {
      var init := cs[..|cs| - 1];
      HorizontalDisplacement(vb, delta, init);
      var n := Net(init, RightButton, LeftButton);
      ShiftForward(vb.x, delta.x * KFactor, n);
      ShiftForward(vb.x, delta.x * KFactor, n - 1);
    }
  }

  lemma {:induction false} VerticalDisplacement(vb: ViewBox, delta: Point, cs: seq<Control>)
    ensures PressAll(vb, delta, cs).y == Shift(vb.y, delta.y * KFactor, Net(cs, DownButton, UpButton))
  {
    if cs != [] {
      var init := cs[..|cs| - 1];
      VerticalDisplacement(vb, delta, init);
      var n := Net(init, DownButton, UpButton);
      ShiftForward(vb.y, delta.y * KFactor, n);
      ShiftForward(vb.y, delta.y * KFactor, n - 1);
    }
  }

  /** Presses that balance out (as many right as left, as many down as
      up) bring the origin back, whatever else was pressed in between. */
  lemma BalancedPansRestoreOrigin(vb: ViewBox, delta: Point, cs: seq<Control>)
    requires Count(cs, RightButton) == Count(cs, LeftButton)
    requires Count(cs, DownButton) == Count(cs, UpButton)
    ensures PressAll(vb, delta, cs).x == vb.x && PressAll(vb, delta, cs).y == vb.y
  {
    PanDisplacement(vb, delta, cs);
  }

  lemma {:induction false} ShiftIsProduct(v: real, step: real, n: int)
    ensures Shift(v, step, n) == v + n as real * step
    decreases if n < 0 then -n else n
  {
    if n > 0 {
      ShiftIsProduct(v, step, n - 1);
      assert n as real * step == (n - 1) as real * step + step;
    } else if n < 0 {
      ShiftIsProduct(v, step, n + 1);
      assert n as real * step == (n + 1) as real * step - step;
    }
  }

  /** With a non-negative delta, a non-degenerate viewBox stays
      non-degenerate under any sequence of presses. */
  lemma {:induction false} PressAllKeepsPositive(vb: ViewBox, delta: Point, cs: seq<Control>)
    requires Positive(vb) && delta.x >= 0.0 && delta.y >= 0.0
    ensures Positive(PressAll(vb, delta, cs))
  {
    if cs != [] {
      PressAllKeepsPositive(vb, delta, cs[..|cs| - 1]);
    }
  }
}
