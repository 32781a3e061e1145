/** The node style (app/scripts/cssNodeStyle.ts): a rounded `rect` per
    node, carrying a record of the layout and class it was last drawn
    for, so that an update rewrites only the attributes that changed. */
module NodeStyle {
  import opened Wrappers
  import opened Geometry

  const NodeRounding: string := "2"
  const NodeFill: string := "#FF8C00"
  const NodeStroke: string := "#FFF"
  const NodeStrokeWidth: string := "1px"

  /** The style's one setting; the empty string means "no class". */
  datatype CssNodeStyle = CssNodeStyle(cssClass: string)

  /** The record attached to a node's element. */
  datatype NodeCache = NodeCache(x: real, y: real, width: real, height: real, cssClass: string)

  /** The attributes of the `rect` element the style controls. */
  datatype RectElement = RectElement(
    width: real,
    height: real,
    translate: Point,
    cssClass: Option<string>,
    rx: string,
    ry: string,
    fill: string,
    stroke: string,
    strokeWidth: string)

  /** A node visual: its element and the record attached to it, which a
      visual that did not come from this style lacks. */
  datatype NodeVisual = NodeVisual(rect: RectElement, cache: Option<NodeCache>)

  /** The attributes an update may rewrite. */
  datatype NodeAttr = WidthAttr | HeightAttr | TranslateAttr | ClassAttr

  /** The outcome of an update: a fresh visual, or the old one with the
      attributes that were written. */
  datatype NodeUpdate =
    | Recreated(visual: NodeVisual)
    | Updated(visual: NodeVisual, writes: set<NodeAttr>)

  function NewNodeStyle(): (s: CssNodeStyle)
    ensures s.cssClass == ""
  {
    CssNodeStyle("")
  }

  /** The element agrees with its attached record. */
  predicate Consistent(v: NodeVisual)
  {
    match v.cache
    case None => false
    case Some(c) =>
      && v.rect.width == c.width && v.rect.height == c.height
      && v.rect.translate == Point(c.x, c.y)
      && v.rect.cssClass == ClassAttribute(c.cssClass)
  }

  /** The element draws the given layout with the given class, with the
      style's fixed rounding, fill and stroke. */
  predicate Shows(v: NodeVisual, layout: Rect, cssClass: string)
  {
    && v.rect.width == layout.width && v.rect.height == layout.height
    && v.rect.translate == Point(layout.x, layout.y)
    && v.rect.cssClass == ClassAttribute(cssClass)
    && v.rect.rx == NodeRounding && v.rect.ry == NodeRounding
    && v.rect.fill == NodeFill && v.rect.stroke == NodeStroke
    && v.rect.strokeWidth == NodeStrokeWidth
  }

  /** `createVisual`: draw the layout and record exactly its position,
      size and the current class. */
  function CreateVisual(style: CssNodeStyle, layout: Rect): (v: NodeVisual)
    ensures v.cache.Some?
    ensures var c := v.cache.value;
            c.x == layout.x && c.y == layout.y && c.width == layout.width
            && c.height == layout.height && c.cssClass == style.cssClass
    ensures Shows(v, layout, style.cssClass)
    ensures v.rect.cssClass.Some? <==> style.cssClass != ""
  {
    var rect := RectElement(layout.width, layout.height, Point(layout.x, layout.y),
                            ClassAttribute(style.cssClass),
                            NodeRounding, NodeRounding, NodeFill, NodeStroke, NodeStrokeWidth);
    NodeVisual(rect, Some(NodeCache(layout.x, layout.y, layout.width, layout.height, style.cssClass)))
  }

  /** `updateVisual`: without a record, draw afresh; otherwise compare the
      record field by field with the layout and class, rewrite the
      attributes that differ and bring the record up to date. */
  function UpdateVisual(style: CssNodeStyle, prev: NodeVisual, layout: Rect): (r: NodeUpdate)
    ensures r.Recreated? <==> prev.cache.None?
    ensures r.Recreated? ==> r.visual == CreateVisual(style, layout)
    ensures r.Updated? ==>
              var c := prev.cache.value;
              var e := r.visual.rect;
              && (WidthAttr in r.writes <==> c.width != layout.width)
              && (HeightAttr in r.writes <==> c.height != layout.height)
              && (TranslateAttr in r.writes <==> c.x != layout.x || c.y != layout.y)
              && (ClassAttr in r.writes <==> c.cssClass != style.cssClass)
              && r.visual.cache == Some(NodeCache(layout.x, layout.y, layout.width, layout.height, style.cssClass))
              && e.width == (if WidthAttr in r.writes then layout.width else prev.rect.width)
              && e.height == (if HeightAttr in r.writes then layout.height else prev.rect.height)
              && e.translate == (if TranslateAttr in r.writes then Point(layout.x, layout.y) else prev.rect.translate)
              && e.cssClass == (if ClassAttr in r.writes then ClassAttribute(style.cssClass) else prev.rect.cssClass)
              && e.rx == prev.rect.rx && e.ry == prev.rect.ry && e.fill == prev.rect.fill
              && e.stroke == prev.rect.stroke && e.strokeWidth == prev.rect.strokeWidth
  {
    match prev.cache
    case None => Recreated(CreateVisual(style, layout))
    case Some(c) =>
      var rect0 := prev.rect;
      var (rect1, w1) := if c.width != layout.width then (rect0.(width := layout.width), {WidthAttr}) else (rect0, {});
      var (rect2, w2) := if c.height != layout.height then (rect1.(height := layout.height), w1 + {HeightAttr}) else (rect1, w1);
      var (rect3, w3) :=
        if c.x != layout.x || c.y != layout.y then (rect2.(translate := Point(layout.x, layout.y)), w2 + {TranslateAttr})
        else (rect2, w2);
      var (rect4, w4) :=
        if c.cssClass != style.cssClass then (rect3.(cssClass := ClassAttribute(style.cssClass)), w3 + {ClassAttr})
        else (rect3, w3);
      Updated(NodeVisual(rect4, Some(NodeCache(layout.x, layout.y, layout.width, layout.height, style.cssClass))), w4)
  }

  /** `getOutline`: the closed path around the layout rectangle. */
  function GetOutline(layout: Rect): (p: Path)
    ensures |p| == 5 && p[0].MoveTo? && p[4].Close?
    ensures forall i :: 1 <= i < 4 ==> p[i].LineTo?
    ensures p[0].p == Point(layout.x, layout.y)
    ensures p[1].p == Point(layout.x + layout.width, layout.y)
    ensures p[2].p == Point(layout.x + layout.width, layout.y + layout.height)
    ensures p[3].p == Point(layout.x, layout.y + layout.height)
  {
    [ MoveTo(Point(layout.x, layout.y)),
      LineTo(Point(layout.x + layout.width, layout.y)),
      LineTo(Point(layout.x + layout.width, layout.y + layout.height)),
      LineTo(Point(layout.x, layout.y + layout.height)),
      Close ]
  }

  /** The outline runs around the rectangle a visual draws for the layout:
      it starts at the translate, its sides are axis-parallel, and its
      opposite corner is the translate moved by the drawn width and height. */
  lemma OutlineTracesDrawnRect(v: NodeVisual, layout: Rect, cssClass: string)
    requires Shows(v, layout, cssClass)
    ensures var p := GetOutline(layout);
            && p[0].p == v.rect.translate
            && p[2].p == Point(v.rect.translate.x + v.rect.width, v.rect.translate.y + v.rect.height)
            && (forall i :: 0 <= i < 3 ==> AxisParallel(Segment(p[i].p, p[i + 1].p)))
            && AxisParallel(Segment(p[3].p, p[0].p))
  {
  }

  /** A point is a vertex of the outline exactly when it is one of the
      layout's four corners. */
  lemma OutlineVerticesAreCorners(layout: Rect, q: Point)
    ensures var p := GetOutline(layout);
            (exists i :: 0 <= i < 4 && p[i].p == q) <==>
            q.x in {layout.x, layout.x + layout.width} && q.y in {layout.y, layout.y + layout.height}
  {
    var p := GetOutline(layout);
    var x0, x1 := layout.x, layout.x + layout.width;
    var y0, y1 := layout.y, layout.y + layout.height;
    if q.x in {x0, x1} && q.y in {y0, y1} {
      if q == Point(x0, y0) { assert p[0].p == q; }
      else if q == Point(x1, y0) { assert p[1].p == q; }
      else if q == Point(x1, y1) { assert p[2].p == q; }
      else { assert p[3].p == q; }
    }
  }

  /** A fresh visual agrees with its record. */
  lemma CreatedVisualIsConsistent(style: CssNodeStyle, layout: Rect)
    ensures Consistent(CreateVisual(style, layout))
  {
  }

  /** An update of a visual that agrees with its record leaves one that
      agrees with its record and draws the current layout and class. */
  lemma UpdateShowsLayout(style: CssNodeStyle, prev: NodeVisual, layout: Rect)
    requires Consistent(prev) && Shows(prev, Rect(prev.cache.value.x, prev.cache.value.y,
                                                  prev.cache.value.width, prev.cache.value.height),
                                       prev.cache.value.cssClass)
    ensures Consistent(UpdateVisual(style, prev, layout).visual)
    ensures Shows(UpdateVisual(style, prev, layout).visual, layout, style.cssClass)
  {
  }

  /** Every update leaves a visual whose record matches the layout and
      class, so a second update with the same layout and class writes
      nothing and changes nothing. */
  lemma UpdateIdempotent(style: CssNodeStyle, prev: NodeVisual, layout: Rect)
    ensures var v := UpdateVisual(style, prev, layout).visual;
            UpdateVisual(style, v, layout) == Updated(v, {})
  {
  }

  /** Updating a fresh visual with the layout and class it was drawn for
      writes nothing. */
  lemma CreateThenUpdateWritesNothing(style: CssNodeStyle, layout: Rect)
    ensures var v := CreateVisual(style, layout);
            UpdateVisual(style, v, layout) == Updated(v, {})
  {
  }

  /** Clearing the class removes the attribute; setting a different
      non-empty class writes it. */
  lemma ClassChangeSetsOrRemoves(style: CssNodeStyle, prev: NodeVisual, layout: Rect)
    requires prev.cache.Some? && prev.cache.value.cssClass != style.cssClass
    ensures var r := UpdateVisual(style, prev, layout);
            && ClassAttr in r.writes
            && (style.cssClass == "" ==> r.visual.rect.cssClass.None?)
            && (style.cssClass != "" ==> r.visual.rect.cssClass == Some(style.cssClass))
  {
  }
}
