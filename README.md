# DataRenderController: geometry, viewport and load status

This project models the map controller `DataRenderController` of the
`cdbapp` single-page application (main.js). The controller asks a remote
query service for a FeatureCollection of MultiPolygon features. For each
feature it keeps the first ring of the first polygon and draws it as an SVG
path (`M x0 y0 L x1 y1 … Z`) filled with a colour derived from one
attribute. It then measures the bounding box of all kept rings. From that box
it sizes the SVG `viewBox`, so that the user can zoom and pan the view in steps
of a tenth of the box's "delta". A status flag shows whether a load is on hold,
in progress, done or failed.

Modules, one file each:

- `Geometry` (geometry.dfy) defines points, rings and features, the path
  description of a ring as a list of commands, and its text. `BuildPath` is
  the source's concatenation loop, proved equal to the rendered commands.
- `Color` (color.dfy) covers `decimalToHexColor`. An integer offset is added
  to the base colour `3A4FB7` and the sum is written in base 16.
- `Bounds` (bounds.dfy) holds `getMin` and `getMax`, the nested folds over
  every coordinate, written as loops. It also holds `getDelta`, which is
  `abs(abs(max) - abs(min))` per axis.
- `Viewport` (viewport.dfy) holds the six pan/zoom steps as functions on a
  four-number viewBox. It also defines sequences of button presses and what
  they add up to.
- `DataRender` (controller.dfy) holds the class `Controller`, whose fields
  mirror the controller's state: status, point count, features, shapes, rings,
  bounds, delta, viewBox and the last error payload. It also has the shape
  generation loop, the load sequence (`LoadMap`, `MoreData`, `Render`), the
  two response callbacks and the six controls.

Modelling choices:

- Numbers are Dafny `real`s, so pans and zooms are exact.
- The host's number-to-text conversion inside path strings is a parameter
  `fmt`; it is used in the path text only.
- The per-load random colour interval (`Math.random()*10000`) is a parameter
  `interval`.
- The viewBox attribute is held as a record of four reals rather than as text
  that is split and re-parsed.
- A request is a method that returns the number of points asked for. The
  asynchronous response is one of two callback methods, `OnFetchSuccess` or
  `OnFetchError`, called later.
- The shape loop of `generateShapes` is the method `AppendShapes`. It pushes
  onto copies of the two lists, and `Controller.GenerateShapes` stores both
  copies when the loop ends. The loop stops at the same feature where the host
  would throw, so the stored lists equal what the host's pushes have left
  behind at that point. The last two statements of the success callback are
  `Controller.FinishLoad`.

Where the host would throw, the model stops at the same point:

- A feature without a first ring (or with an empty one) makes the shape loop
  stop after the well-formed prefix. The shapes appended so far stay, and no
  measurement or status change follows.
- With no ring at all, `getMin` fails, with the same effect.
- Before the first measurement `vm.delta` is undefined, so each of the six
  controls does nothing.

A reload might be expected to replace the previous shapes, but the code never
clears `vm.shapesSVG` or `vm.shapesCoords` (main.js:149-150, 280-281), so
every load appends to them. The model follows the code: `Controller.GenerateShapes` and
`Controller.OnFetchSuccess` state that the old shapes are kept as a prefix. On
a reload the bounds are therefore measured over old and new rings together.

## Model

| member | source | states |
|---|---|---|
| `Geometry.LinesTo` | main.js:274-277 | one line command per later point of the ring, in ring order |
| `Geometry.VerticesOfCommands` | main.js:273-278 | the path visits exactly the ring's points, in order, so the ring can be read back from the path |
| `Geometry.CommandsShape` | main.js:273-278 | a path has one move to the first point, a line to each later point and one close: one command more than the ring has points |
| `Geometry.PathTextFrame` | main.js:273-278 | the path text starts with `"M" x0 " " y0` and ends with `" Z"` |
| `Geometry.CommandText` | main.js:273-278 | each command's text has at least two characters and its leading letter tells the command: `M` for the move, ` L` for a line, exactly ` Z` for the close |
| `Geometry.RenderPath` | main.js:273-278 | a path's text is empty exactly when it has no commands, and has at least two characters per command |
| `Geometry.RenderPathAppend` | main.js:276 | the text of concatenated commands is the concatenation of their texts |
| `Geometry.BuildPath` | main.js:273-278 | the string built by repeated concatenation is the text of the ring's command list |
| `Color.HexDigits` | main.js:256 | base-16 digits are non-empty and all lower-case hex digits |
| `Color.HexRoundTrip` | main.js:256 | reading the base-16 digits of `n` back gives `n` |
| `Color.HexDigitsLength` | main.js:256 | `n` has at most `k` base-16 digits exactly when `n < 16^k` |
| `Color.ToHexString` | main.js:256 | `toString(16)` of an integer: non-empty, starting with `-` exactly for a negative value, base-16 digits after that sign |
| `Color.DecimalToHexColor` | main.js:253-258 | the colour starts with `#` and has at least one more character |
| `Color.ColorRoundTrip` | main.js:253-258 | the colour text stands for base `0x3A4FB7` plus the offset, negative sums included |
| `Color.SixDigitsExactly` | main.js:253-258 | the colour is `#rrggbb` exactly when base plus offset lies in `0x100000..0xFFFFFF`; any other offset gives a shorter, longer or signed code |
| `Bounds.GetMin` | main.js:193-209 | the result is at most every coordinate on both axes, and each component is some coordinate's value; requires a first ring with a first point |
| `Bounds.GetMax` | main.js:216-232 | the result is at least every coordinate on both axes, and each component is some coordinate's value; same precondition |
| `Bounds.CornersUnique` | main.js:193-232 | each fold has one possible answer for a given set of rings |
| `Bounds.CornersOrdered` | main.js:193-232 | the minimum is below the maximum on both axes |
| `Bounds.Abs` | main.js:241-242 | `Math.abs`: non-negative and equal to `v` or `-v` |
| `Bounds.AxisDelta` | main.js:241-242 | the delta along an axis is the difference of the two magnitudes, in whichever order is non-negative, and is at most the distance between the bounds |
| `Bounds.GetDelta` | main.js:239-245 | each component is `abs(abs(max) - abs(min))` for its axis, and is non-negative |
| `Bounds.AxisDeltaIsExtent` | main.js:241-242 | the delta equals `max - min` exactly when the bounds are ordered and on one side of zero |
| `Bounds.AxisDeltaStraddling` | main.js:241-242 | for bounds on both sides of zero the delta is strictly less than the extent |
| `Bounds.BoxCoversRings` | main.js:289-294 | for bounds on one side of zero, the viewBox `(min, delta)` covers every coordinate |
| `Viewport.ZoomIn` | main.js:301-316 | when both shrunk dimensions stay positive, width and height drop by `delta * 0.1` and the result is non-degenerate; otherwise nothing changes; the origin never moves |
| `Viewport.ZoomOut` | main.js:322-335 | width and height always grow by `delta * 0.1`; the origin never moves |
| `Viewport.MoveUp` | main.js:341-353 | only `y` changes, by `-delta.y * 0.1` |
| `Viewport.MoveDown` | main.js:359-371 | only `y` changes, by `+delta.y * 0.1` |
| `Viewport.MoveLeft` | main.js:377-389 | only `x` changes, by `-delta.x * 0.1` |
| `Viewport.MoveRight` | main.js:395-407 | only `x` changes, by `+delta.x * 0.1` |
| `Viewport.PansAreInverse` | main.js:341-407 | each pair of opposite pans composes to the identity, in either order |
| `Viewport.ZoomOutUndoesZoomIn` | main.js:301-335 | a zoom-in that applied is undone by a zoom-out |
| `Viewport.ZoomInUndoesZoomOut` | main.js:301-335 | on a non-degenerate viewBox, zoom-in after zoom-out always applies and restores it |
| `Viewport.NetIsCountDifference` | main.js:341-407 | the net pan count along an axis is the count of one button minus the count of the opposite one |
| `Viewport.ShiftForward` | main.js:341-407 | one more step forward adds one step |
| `Viewport.HorizontalDisplacement` | main.js:377-407 | after any presses, `x` has moved by one step per net right press |
| `Viewport.VerticalDisplacement` | main.js:341-371 | after any presses, `y` has moved by one step per net down press |
| `Viewport.PanDisplacement` | main.js:301-407 | after any presses, in any order and whatever the zoom guard did, the origin has moved by (rights - lefts) and (downs - ups) steps |
| `Viewport.BalancedPansRestoreOrigin` | main.js:301-407 | balanced pans bring the origin back, whatever else was pressed |
| `Viewport.ShiftIsProduct` | main.js:341-407 | `n` steps of size `s` move a coordinate by `n * s` |
| `Viewport.PressAllKeepsPositive` | main.js:301-407 | with a non-negative delta, a non-degenerate viewBox stays non-degenerate under any presses |
| `DataRender.ProcessedCount` | main.js:263-268 | the loop gets through a prefix of well-formed features and stops at the first malformed one |
| `DataRender.ProcessedCountAt` | main.js:263-268 | that prefix length is the unique position where the loop stops |
| `DataRender.ProcessedCountAll` | main.js:263-268 | the loop gets through every feature exactly when all are well formed |
| `DataRender.RingPerFeature` | main.js:266-268 | one ring per feature, each the first ring of the first polygon of the feature at the same position |
| `DataRender.ShapePerFeature` | main.js:263-281 | one shape per feature, and shape `k` is the shape of feature `k` |
| `DataRender.OfAppend` | main.js:280-281 | appending a feature appends its ring and its shape |
| `DataRender.AllGenerated` | main.js:263-282 | with all features well formed, exactly `features.length` rings and shapes are appended |
| `DataRender.AppendKeepsShapesWellFormed` | main.js:280-281 | appending keeps one shape per ring and every ring non-empty |
| `DataRender.Round` | main.js:271 | `Math.round`: the integer nearest `v`, a half rounding up |
| `DataRender.Tint` | main.js:271 | the colour offset is the integer `r` with `r - 0.5 <= interval * attr < r + 0.5` |
| `DataRender.BuildShape` | main.js:264-278 | a shape's fill is the colour of the rounded `interval * attr`, and its path is the text of its first ring |
| `DataRender.AppendStep` | main.js:263-281 | one pass of the loop extends the shapes and rings of the first `i` features to those of the first `i + 1` |
| `DataRender.AppendShapes` | main.js:263-282 | the loop appends the rings and shapes of the processed prefix, in order, to what was already there |
| `DataRender.Controller.constructor` | main.js:147-184 | starts ON_HOLD with 200 points and no shapes, then the first load leaves it PROCESSING |
| `DataRender.Controller.LoadMap` | main.js:162-166 | the status becomes PROCESSING and a request for `nPoints` points is issued |
| `DataRender.Controller.Render` | main.js:419-421 | reload: the same as a load with the same point count |
| `DataRender.Controller.MoreData` | main.js:413-416 | the point count doubles, then a load is started |
| `DataRender.Controller.GenerateShapes` | main.js:251-283 | old shapes and rings stay as a prefix; the processed prefix of the features is appended in order; `ok` tells whether every feature was processed |
| `DataRender.Controller.SetDimension` | main.js:289-295 | min and max are the corners of all rings, delta is their delta, and the viewBox is `(min, delta)` |
| `DataRender.Controller.OnFetchSuccess` | main.js:167-175 | features are stored and shapes appended; if every feature was processed and some ring exists, the bounds are measured and the status is SUCCESS; otherwise status, bounds and viewBox are unchanged |
| `DataRender.Controller.FinishLoad` | main.js:172-174 | measuring and the SUCCESS status happen only when shape generation and `getMin` do not fail |
| `DataRender.Controller.OnFetchError` | main.js:176-179 | the payload is kept and the status becomes ERROR (corrected callback) |
| `DataRender.Controller.OnFetchErrorAsWritten` | main.js:176-179 | the payload is kept and the status is unchanged (callback as written) |
| `DataRender.Controller.ZoomIn` | main.js:301-316 | the viewBox becomes `Viewport.ZoomIn` of itself once a delta exists; before that it is unchanged |
| `DataRender.Controller.ZoomOut` | main.js:322-335 | the viewBox becomes `Viewport.ZoomOut` of itself once a delta exists |
| `DataRender.Controller.MoveUp` | main.js:341-353 | the viewBox becomes `Viewport.MoveUp` of itself once a delta exists |
| `DataRender.Controller.MoveDown` | main.js:359-371 | the viewBox becomes `Viewport.MoveDown` of itself once a delta exists |
| `DataRender.Controller.MoveLeft` | main.js:377-389 | the viewBox becomes `Viewport.MoveLeft` of itself once a delta exists |
| `DataRender.Controller.MoveRight` | main.js:395-407 | the viewBox becomes `Viewport.MoveRight` of itself once a delta exists |
| `DataRender.LoadRectangle` | main.js:167-175 | loading one 4-by-3 rectangle at the origin ends in SUCCESS with min `(0, 0)`, max `(4, 3)`, delta `(4, 3)` and viewBox `0 0 4 3` |
| `DataRender.RectangleSession` | main.js:301-335 | after that load, one zoom-in gives `0 0 3.6 2.7` and one zoom-out restores `0 0 4 3` |
| `DataRender.FailedLoadAsWritten` | main.js:176-179 | a failed first load, with the callback as written, leaves the status PROCESSING |
| `DataRender.FailedLoad` | main.js:176-179 | a failed first load, with the corrected callback, goes from PROCESSING to ERROR |

## Left out

- `MapPoints.genericGet` and `getN` (main.js:59-80) are left out. They build a SQL query and send it over HTTP. In the model a load returns the number of points it asks for, and the response arrives as a call to a callback method.
- The `shape` directive (main.js:92-124) creates DOM and SVG nodes, which is view plumbing. The Angular module and config (main.js:10-41) are framework wiring.
- The asynchronous promise is not modelled. The two callbacks are ordinary methods, and a caller can invoke them in any order. Overlapping requests, and answers arriving out of order, are not modelled.
- Text formatting of numbers is a parameter `fmt`, used in the path string only. The viewBox's number-to-text conversion (main.js:294) and its `split` and `parseFloat` in each control (main.js:302-308 and the matching lines of the other five) are not modelled: the viewBox is held as four reals, so that text round trip is taken to be exact.
- `Math.random` is a parameter `interval`. `Math.round` is modelled as floor of `v + 0.5`.
- Floating point is not modelled: there is no rounding in sums and products, and no overflow of `nPoints` after many doublings.
- Features are modelled with a numeric attribute. A missing or non-numeric `policeprct` property, which gives `NaN` in the host, is not modelled. A missing `properties` or `geometry` object is not modelled either: those would throw like a missing ring.
- `Controller.Valid` keeps: the point count positive, one shape per ring, every ring non-empty, and the delta equal to `getDelta` of the stored bounds. It does not keep the bounds tied to the current rings across later loads. That they are the corners of the current rings is stated where they are measured, in `Measured()` after `SetDimension` and `OnFetchSuccess`.

## Findings

| source | as written | input that shows it | evidently intended | confidence | as-written member | corrected member |
|---|---|---|---|---|---|---|
| main.js:178 | the failure callback runs `vm.status = STATUS_ERROR`; the name `STATUS_ERROR` is declared nowhere, so reading it throws a ReferenceError before the status changes | any failed request, e.g. the first load failing: the status stays `PROCESSING` | `vm.status = STATUS_ENUM.ERROR`, so the view shows `ERROR` | high, by reading; not executed | `DataRender.Controller.OnFetchErrorAsWritten`, `DataRender.FailedLoadAsWritten` | `DataRender.Controller.OnFetchError`, `DataRender.FailedLoad` |
