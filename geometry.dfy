/** Geometry of the features returned by the remote query service, and the
    SVG path description the controller derives from each of them. */
module Geometry {

  /** A coordinate pair `[x, y]` of a GeoJSON ring. */
  datatype Point = Point(x: real, y: real)

  /** One polygon boundary: the coordinates in source order. */
  type Ring = seq<Point>

  /** A feature of the FeatureCollection: the value of its classification
      attribute (the `policeprct` property) and its MultiPolygon geometry,
      a sequence of polygons, each a sequence of rings. */
  datatype Feature = Feature(attr: real, geometry: seq<seq<Ring>>)

  /** The controller reads `geometry[0][0][0]`, the first point of the first
      ring of the first polygon; a feature lacking any of them makes that
      lookup fail. */
  predicate HasFirstRing(f: Feature) {
    |f.geometry| > 0 && |f.geometry[0]| > 0 && |f.geometry[0][0]| > 0
  }

  /** The only ring of a feature the controller keeps: holes and further
      polygons are dropped. */
  function FirstRing(f: Feature): Ring
    requires HasFirstRing(f)
  {
    f.geometry[0][0]
  }

  /** The commands of an SVG path description. */
  datatype PathCmd = MoveTo(p: Point) | LineTo(p: Point) | ClosePath

  /** A line to each of `pts`, in order. */
  function LinesTo(pts: seq<Point>): (cmds: seq<PathCmd>)
    ensures |cmds| == |pts| && forall i :: 0 <= i < |pts| ==> cmds[i] == LineTo(pts[i])
  {
    if pts == [] then [] else LinesTo(pts[..|pts| - 1]) + [LineTo(pts[|pts| - 1])]
  }

  /** The path of a ring: move to its first point, a line to every later
      point in order, then close the path. */
  function Commands(ring: Ring): seq<PathCmd>
    requires |ring| > 0
  {
    [MoveTo(ring[0])] + LinesTo(ring[1..]) + [ClosePath]
  }

  /** The point a command visits, if any. */
  function VertexOf(c: PathCmd): seq<Point> {
    if c.ClosePath? then [] else [c.p]
  }

  /** The points a path visits, in order. */
  function Vertices(cmds: seq<PathCmd>): seq<Point> {
    if cmds == [] then [] else VertexOf(cmds[0]) + Vertices(cmds[1..])
  }

  /** The text of one command; `fmt` is the host's number-to-string
      conversion. */
  function CommandText(fmt: real -> string, c: PathCmd): (t: string)
    ensures |t| >= 2
    ensures c.MoveTo? <==> t[0] == 'M'
    ensures c.LineTo? ==> t[..2] == " L"
    ensures c.ClosePath? <==> t == " Z"
  {
    match c
    case MoveTo(p) => "M" + fmt(p.x) + " " + fmt(p.y)
    case LineTo(p) => " L" + fmt(p.x) + " " + fmt(p.y)
    case ClosePath => " Z"
  }

  /** The text of a path: the texts of its commands, concatenated. */
  function RenderPath(fmt: real -> string, cmds: seq<PathCmd>): (t: string)
    ensures |t| >= 2 * |cmds|
    ensures t == "" <==> cmds == []
  {
    if cmds == [] then ""
    else RenderPath(fmt, cmds[..|cmds| - 1]) + CommandText(fmt, cmds[|cmds| - 1])
  }

  lemma {:induction false} VerticesAppend(a: seq<PathCmd>, b: seq<PathCmd>)
    ensures Vertices(a + b) == Vertices(a) + Vertices(b)
  {
    if a == [] {
      assert a + b == b;
    } else {
      assert (a + b)[0] == a[0];
      assert (a + b)[1..] == a[1..] + b;
      VerticesAppend(a[1..], b);
    }
  }

  lemma {:induction false} VerticesOfLines(pts: seq<Point>)
    ensures Vertices(LinesTo(pts)) == pts
  {
    if pts != [] {
      var cmds := LinesTo(pts);
      assert cmds[1..] == LinesTo(pts[1..]);
      VerticesOfLines(pts[1..]);
      assert VertexOf(cmds[0]) == [pts[0]];
      assert pts == [pts[0]] + pts[1..];
    }
  }

  /** One more point adds one more line at the end. */
  lemma LinesToSnoc(pts: seq<Point>, i: nat)
    requires i < |pts|
    ensures LinesTo(pts[..i + 1]) == LinesTo(pts[..i]) + [LineTo(pts[i])]
  {
  }

  lemma ConcatAssoc<T>(x: seq<T>, y: seq<T>, z: seq<T>)
    ensures (x + y) + z == x + (y + z)
  {
  }

  /** One more command adds its text at the end. */
  lemma RenderSnoc(fmt: real -> string, a: seq<PathCmd>, c: PathCmd)
    ensures RenderPath(fmt, a + [c]) == RenderPath(fmt, a) + CommandText(fmt, c)
  {
    assert (a + [c])[..|a|] == a;
  }

  /** The path of a ring visits exactly the points of the ring, in order:
      the ring can be recovered from its path. */
  lemma VerticesOfCommands(ring: Ring)
    requires |ring| > 0
    ensures Vertices(Commands(ring)) == ring
  {
    VerticesAppend([MoveTo(ring[0])] + LinesTo(ring[1..]), [ClosePath]);
    VerticesAppend([MoveTo(ring[0])], LinesTo(ring[1..]));
    VerticesOfLines(ring[1..]);
    assert Vertices([ClosePath]) == [];
    assert Vertices([MoveTo(ring[0])]) == [ring[0]];
  }

  /** The shape of a path: one move, `|ring| - 1` lines, one close. */
  lemma CommandsShape(ring: Ring)
    requires |ring| > 0
    ensures |Commands(ring)| == |ring| + 1
    ensures Commands(ring)[0] == MoveTo(ring[0])
    ensures forall j :: 1 <= j < |ring| ==> Commands(ring)[j] == LineTo(ring[j])
    ensures Commands(ring)[|ring|] == ClosePath
  {
  }

  lemma {:induction false} RenderPathAppend(fmt: real -> string, a: seq<PathCmd>, b: seq<PathCmd>)
    ensures RenderPath(fmt, a + b) == RenderPath(fmt, a) + RenderPath(fmt, b)
    decreases |b|
  {
    if b == [] {
      assert a + b == a;
    } else {
      var b', c := b[..|b| - 1], b[|b| - 1];
      assert b == b' + [c];
      assert a + b == (a + b') + [c];
      RenderSnoc(fmt, a + b', c);
      RenderSnoc(fmt, b', c);
      RenderPathAppend(fmt, a, b');
      ConcatAssoc(RenderPath(fmt, a), RenderPath(fmt, b'), CommandText(fmt, c));
    }
  }

  /** The text of a ring's path starts with the move command and ends with
      the close command. */
  lemma PathTextFrame(fmt: real -> string, ring: Ring)
    requires |ring| > 0
    ensures var t := RenderPath(fmt, Commands(ring));
      var m := "M" + fmt(ring[0].x) + " " + fmt(ring[0].y);
      |t| >= |m| + 2 && t[..|m|] == m && t[|t| - 2..] == " Z"
  {
    var cmds, head := Commands(ring), [MoveTo(ring[0])];
    var body := head + LinesTo(ring[1..]);
    assert cmds[..|cmds| - 1] == body;
    assert cmds[|cmds| - 1] == ClosePath;
    var m := CommandText(fmt, MoveTo(ring[0]));
    assert head[..0] == [];
    assert RenderPath(fmt, head) == m;
    RenderPathAppend(fmt, head, LinesTo(ring[1..]));
    var lines := RenderPath(fmt, body);
    assert RenderPath(fmt, cmds) == lines + " Z";
    ConcatAssoc(m, RenderPath(fmt, LinesTo(ring[1..])), " Z");
    TakePrefix(m, RenderPath(fmt, LinesTo(ring[1..])) + " Z");
    DropFront(lines, " Z");
  }

  lemma TakePrefix<T>(p: seq<T>, q: seq<T>)
    ensures (p + q)[..|p|] == p
  {
  }

  lemma DropFront<T>(p: seq<T>, q: seq<T>)
    ensures (p + q)[|p|..] == q
  {
  }

  /** Builds a ring's path text by repeated concatenation, one command per
      step. */
  method BuildPath(fmt: real -> string, shape: Ring) returns (path: string)
    requires |shape| > 0
    ensures path == RenderPath(fmt, Commands(shape))
  {
    ghost var head, rest := [MoveTo(shape[0])], shape[1..];
    path := "M" + fmt(shape[0].x) + " " + fmt(shape[0].y);
    assert head[..0] == [] && rest[..0] == [];
    assert head + LinesTo(rest[..0]) == head;
    var j := 1;
    while j < |shape|
      invariant 1 <= j <= |shape|
      invariant path == RenderPath(fmt, head + LinesTo(rest[..j - 1]))
    {
      var coordinates := shape[j];
      LinesToSnoc(rest, j - 1);
      ghost var done := head + LinesTo(rest[..j - 1]);
      assert head + LinesTo(rest[..j]) == done + [LineTo(coordinates)];
      var line := " L" + fmt(coordinates.x) + " " + fmt(coordinates.y);
      RenderSnoc(fmt, done, LineTo(coordinates));
      path := path + line;
      j := j + 1;
    }
    assert rest[..j - 1] == rest;
    RenderSnoc(fmt, head + LinesTo(rest), ClosePath);
    path := path + " Z";
  }
}
