/** Points, rectangles and paths as the rendering library hands them to
    the styles, and the class attribute their SVG elements carry.
    Coordinates are reals: the styles only copy them or subtract small
    constants, so floating-point rounding plays no role. */
module Geometry {
  import opened Wrappers

  datatype Point = Point(x: real, y: real)

  /** An axis-aligned rectangle given by its top-left corner and size. */
  datatype Rect = Rect(x: real, y: real, width: real, height: real)

  /** One command of a library path. Curves only arise from the
      library's smoothing and are kept opaque. */
  datatype PathOp =
    | MoveTo(p: Point)
    | LineTo(p: Point)
    | CurveTo(c1: Point, c2: Point, p: Point)
    | Close

  type Path = seq<PathOp>

  /** A straight line between two points, as handed to a clip test. */
  datatype Segment = Segment(from: Point, to: Point)

  /** The point moved up and to the left by `d` in both coordinates. */
  function Offset(p: Point, d: real): Point
  {
    Point(p.x - d, p.y - d)
  }

  /** A segment runs parallel to an axis when its ends share a coordinate. */
  predicate AxisParallel(s: Segment)
  {
    s.from.x == s.to.x || s.from.y == s.to.y
  }

  /** The straight legs between consecutive end points of a path made of
      moves and lines only. */
  function Legs(p: Path): (r: seq<Segment>)
    requires forall i :: 0 <= i < |p| ==> !p[i].Close?
    ensures |p| == 0 ==> r == []
    ensures |p| > 0 ==> |r| == |p| - 1
    ensures forall i :: 0 <= i < |r| ==> r[i] == Segment(p[i].p, p[i + 1].p)
  {
    if |p| == 0 then []
    else seq(|p| - 1, i requires 0 <= i < |p| - 1 => Segment(p[i].p, p[i + 1].p))
  }

  /** The class attribute an element shows for a class setting: none for
      the empty class, the class itself otherwise. */
  function ClassAttribute(cssClass: string): (r: Option<string>)
    ensures r.None? <==> cssClass == ""
    ensures r.Some? ==> r.value == cssClass
  {
    if cssClass != "" then Some(cssClass) else None
  }
}
