/** The fallback arrowhead (app/scripts/cssArrow.ts): a flyweight that the
    host configures with an anchor and a direction right before asking it
    for a visual or for its bounds. The figure is a fixed triangle built
    once; each visual places it with an SVG affine transform. */
module Arrows {
  import opened Wrappers
  import opened Geometry

  /** Distance from the tip to where the edge's line should begin. */
  const ArrowLength: real := 5.5
  /** How much the edge path is cropped for this arrow. */
  const ArrowCropLength: real := 1.0
  const DefaultCssClass: string := "css-arrow"
  const ArrowFill: string := "#336699"

  /** The triangle drawn for the arrow, tip at the origin, pointing along +x. */
  const ArrowFigure: Path :=
    [MoveTo(Point(-7.5, -2.5)), LineTo(Point(0.0, 0.0)), LineTo(Point(-7.5, 2.5)), Close]

  /** The flyweight's state: its class, the configuration the host set
      last (`null` until the first call), and the memoised figure. */
  datatype CssArrow = CssArrow(
    cssClass: string,
    anchor: Option<Point>,
    direction: Option<Point>,
    figure: Option<Path>)

  /** A freshly constructed arrow. */
  function NewCssArrow(): (a: CssArrow)
    ensures a.cssClass == DefaultCssClass && a.cssClass != ""
    ensures a.anchor.None? && a.direction.None? && a.figure.None?
  {
    CssArrow(DefaultCssClass, None, None, None)
  }

  /** Both `getVisualCreator` and `getBoundsProvider`: remember the anchor
      and direction and hand out the same instance. */
  function Configure(a: CssArrow, anchor: Point, direction: Point): (r: CssArrow)
    ensures r.anchor == Some(anchor) && r.direction == Some(direction)
    ensures r.cssClass == a.cssClass && r.figure == a.figure
  {
    a.(anchor := Some(anchor), direction := Some(direction))
  }

  predicate Configured(a: CssArrow)
  {
    a.anchor.Some? && a.direction.Some?
  }

  /** Builds the figure unless it exists already. */
  function EnsureFigure(a: CssArrow): (r: CssArrow)
    ensures r.figure.Some?
    ensures a.figure.Some? ==> r == a
    ensures a.figure.None? ==> r == a.(figure := Some(ArrowFigure))
  {
    if a.figure.None? then a.(figure := Some(ArrowFigure)) else a
  }

  /** An SVG `matrix(a b c d e f)` transform. */
  datatype Matrix = Matrix(a: real, b: real, c: real, d: real, e: real, f: real)

  /** Where the transform sends a point: (a x + c y + e, b x + d y + f). */
  function Apply(m: Matrix, p: Point): Point
  {
    Point(m.a * p.x + m.c * p.y + m.e, m.b * p.x + m.d * p.y + m.f)
  }

  /** `matrix(d.x d.y -d.y d.x a.x a.y)`: turn the +x axis onto the
      direction and move the origin onto the anchor. */
  function ArrowTransform(direction: Point, anchor: Point): (m: Matrix)
    ensures Apply(m, Point(0.0, 0.0)) == anchor
    ensures Apply(m, Point(1.0, 0.0)) == Point(anchor.x + direction.x, anchor.y + direction.y)
    ensures Apply(m, Point(0.0, 1.0)) == Point(anchor.x - direction.y, anchor.y + direction.x)
  {
    Matrix(direction.x, direction.y, -direction.y, direction.x, anchor.x, anchor.y)
  }

  /** The cache a visual carries: the configuration it was drawn for. */
  datatype ArrowCache = ArrowCache(direction: Point, anchor: Point)

  /** The `path` element of an arrow visual. */
  datatype ArrowVisual = ArrowVisual(
    d: Path,
    fill: string,
    cssClass: Option<string>,
    transform: Matrix,
    cache: ArrowCache)

  /** `createVisual`: build the figure if needed, draw it at the current
      configuration, and cache that configuration. Reading the anchor or
      direction before any configuration fails in the source. */
  function CreateVisual(a: CssArrow): (r: (CssArrow, ArrowVisual))
    requires Configured(a)
    ensures var (a', v) := r;
            && a'.figure.Some?
            && (a.figure.Some? ==> a' == a)
            && (a.figure.None? ==> a'.figure == Some(ArrowFigure))
            && a'.cssClass == a.cssClass && a'.anchor == a.anchor && a'.direction == a.direction
            && v.d == a'.figure.value
            && v.fill == ArrowFill
            && (v.cssClass.Some? <==> a.cssClass != "")
            && (v.cssClass.Some? ==> v.cssClass.value == a.cssClass)
            && v.transform == ArrowTransform(a.direction.value, a.anchor.value)
            && Apply(v.transform, Point(0.0, 0.0)) == a.anchor.value
            && v.cache == ArrowCache(a.direction.value, a.anchor.value)
  {
    var a' := EnsureFigure(a);
    var cls := ClassAttribute(a.cssClass);
    var v := ArrowVisual(a'.figure.value, ArrowFill, cls,
                         ArrowTransform(a.direction.value, a.anchor.value),
                         ArrowCache(a.direction.value, a.anchor.value));
    (a', v)
  }

  /** `updateVisual`: rewrite the transform when the configuration differs
      from the cached one. The cache itself is never refreshed. The
      result pairs the visual with whether the transform was written. */
  function UpdateVisual(a: CssArrow, prev: ArrowVisual): (r: (ArrowVisual, bool))
    requires Configured(a)
    ensures var (v, wrote) := r;
            && (wrote <==> a.direction.value != prev.cache.direction || a.anchor.value != prev.cache.anchor)
            && v.cache == prev.cache
            && v.d == prev.d && v.fill == prev.fill && v.cssClass == prev.cssClass
            && (wrote ==> v.transform == ArrowTransform(a.direction.value, a.anchor.value))
            && (wrote ==> Apply(v.transform, Point(0.0, 0.0)) == a.anchor.value)
            && (!wrote ==> v == prev)
  {
    var dir := a.direction.value;
    var anchor := a.anchor.value;
    if dir != prev.cache.direction || anchor != prev.cache.anchor then
      (prev.(transform := ArrowTransform(dir, anchor)), true)
    else (prev, false)
  }

  /** `getBounds`: a 32 by 32 box whose top-left corner is 8 above and 8
      left of the anchor, whatever the direction. */
  function GetBounds(a: CssArrow): (r: Rect)
    requires a.anchor.Some?
    ensures r.width == 32.0 && r.height == 32.0
    ensures r.x + 8.0 == a.anchor.value.x && r.y + 8.0 == a.anchor.value.y
  {
    Rect(a.anchor.value.x - 8.0, a.anchor.value.y - 8.0, 32.0, 32.0)
  }

  /** The memoised figure is never anything but the arrow triangle. */
  predicate FigureValid(a: CssArrow)
  {
    a.figure.None? || a.figure == Some(ArrowFigure)
  }

  /** The triangle is closed, has its tip at the origin, its back corners
      7.5 behind the tip and mirrored across the axis. */
  lemma ArrowFigureShape()
    ensures |ArrowFigure| == 4 && ArrowFigure[0].MoveTo? && ArrowFigure[3].Close?
    ensures ArrowFigure[1] == LineTo(Point(0.0, 0.0))
    ensures ArrowFigure[0].p.x == ArrowFigure[2].p.x == -7.5
    ensures ArrowFigure[0].p.y == -ArrowFigure[2].p.y != 0.0
  {
  }

  lemma NewArrowValid()
    ensures FigureValid(NewCssArrow())
  {
  }

  /** Configuring and drawing keep the figure the arrow triangle, so every
      visual draws exactly that triangle. */
  lemma OperationsKeepFigureValid(a: CssArrow, anchor: Point, direction: Point)
    requires FigureValid(a)
    ensures FigureValid(Configure(a, anchor, direction))
    ensures var c := Configure(a, anchor, direction);
            FigureValid(CreateVisual(c).0) && CreateVisual(c).1.d == ArrowFigure
  {
  }

  /** Drawing twice builds the figure once: the second draw leaves the
      arrow as the first one left it. */
  lemma FigureBuiltOnce(a: CssArrow)
    requires Configured(a)
    ensures var a1 := CreateVisual(a).0;
            CreateVisual(a1).0 == a1 && CreateVisual(a1).1 == CreateVisual(a).1
  {
  }

  /** The transform is a rotation by the direction scaled by its length:
      distances from the tip grow by the direction's length. */
  lemma TransformScalesDistances(direction: Point, anchor: Point, p: Point)
    ensures var q := Apply(ArrowTransform(direction, anchor), p);
            (q.x - anchor.x) * (q.x - anchor.x) + (q.y - anchor.y) * (q.y - anchor.y)
            == (direction.x * direction.x + direction.y * direction.y) * (p.x * p.x + p.y * p.y)
  {
  }

  /** Points on the figure's axis land on the line through the anchor,
      behind it along the direction: the arrow points where the edge goes. */
  lemma TransformFollowsDirection(direction: Point, anchor: Point, t: real)
    ensures Apply(ArrowTransform(direction, anchor), Point(-t, 0.0))
            == Point(anchor.x - t * direction.x, anchor.y - t * direction.y)
  {
  }

  /** A visual drawn for a configuration needs no update for that same
      configuration. */
  lemma CreateThenUpdateWritesNothing(a: CssArrow)
    requires Configured(a)
    ensures UpdateVisual(a, CreateVisual(a).1) == (CreateVisual(a).1, false)
  {
  }

  /** An update draws the arrow exactly where a fresh visual would. */
  lemma UpdateAgreesWithCreate(a: CssArrow, v: ArrowVisual)
    requires Configured(a)
    ensures UpdateVisual(a, v).1 ==> UpdateVisual(a, v).0.transform == CreateVisual(a).1.transform
  {
  }

  /** Because the cache is never refreshed, once the configuration moves
      away from the cached one every later update writes the transform
      again, and each rewrite yields the same visual. */
  lemma UpdateKeepsRewriting(a: CssArrow, v: ArrowVisual)
    requires Configured(a)
    ensures var (v1, w1) := UpdateVisual(a, v);
            UpdateVisual(a, v1) == (v1, w1)
  {
  }

  /** The bounds depend on the anchor alone. */
  lemma BoundsIgnoreDirection(a: CssArrow, anchor: Point, d1: Point, d2: Point)
    ensures GetBounds(Configure(a, anchor, d1)) == GetBounds(Configure(a, anchor, d2))
  {
  }

  /** The bounds contain the anchor, but are centred 8 right of and 8 below
      it rather than on it. */
  lemma BoundsAreOffCentre(a: CssArrow)
    requires a.anchor.Some?
    ensures var b := GetBounds(a);
            var p := a.anchor.value;
            && b.x < p.x < b.x + b.width && b.y < p.y < b.y + b.height
            && b.x + b.width / 2.0 == p.x + 8.0 && b.y + b.height / 2.0 == p.y + 8.0
  {
  }
}
