/** The edge style (app/scripts/cssEdgeStyle.ts): self-loops drawn as a
    five-point rectilinear path, other edges as the library's smoothed
    path; the end cropped for the arrow in use; bridges added when the
    render context offers a bridge manager; and an incremental update
    that skips the rewrite when neither the path nor the obstacles moved.

    What the rendering library does is passed in as a `Host`: its path
    computations, cropping, clip and hit tests are functions the model
    does not look into. */
module EdgeStyle {
  import opened Wrappers
  import opened Geometry
  import UserAgent
  import Arrows

  /** How far a self-loop without bends stands off its corner point. */
  const SelfLoopMargin: real := 20.0
  /** The smoothing the library applies to ordinary edge paths. */
  const SmoothingLength: real := 200.0
  /** The obstacle hash reported when no bridge manager is available. */
  const NoManagerHash: int := 42
  /** Crop length of the invisible arrow that stands in for a marker. */
  const HiddenArrowCropLength: real := 6.0
  const EdgeFill: string := "none"
  const EdgeStroke: string := "#336699"

  /** The owner of a port: a node, with its layout, or something else
      (an edge or a label). Identity is by value. */
  datatype PortOwner =
    | NodeOwner(id: nat, layout: Rect)
    | OtherOwner(id: nat)

  /** A port with its owner and the location its location model gives. */
  datatype Port = Port(owner: PortOwner, location: Point)

  /** An edge: its two ports and its bend locations in order. */
  datatype Edge = Edge(sourcePort: Port, targetPort: Port, bends: seq<Point>)

  /** The arrows a path can be cropped for. */
  datatype ArrowChoice = NoArrow | HiddenArrow | FallbackArrow

  /** The rendering library's services the style calls on. */
  datatype Host = Host(
    basePath: Edge -> Path,                              // the base class's edge path
    smooth: (Path, real) -> Path,                        // smoothing of a path's corners
    crop: (Edge, ArrowChoice, ArrowChoice, Path) -> Path,  // cropping at the ports, for a source and a target arrow
    arrowPlacement: Path -> Option<(Point, Point)>,      // anchor and direction of a target arrow on a path
    clipContains: (Rect, Point) -> bool,
    intersectsLine: (Rect, Point, Point) -> bool,
    baseIsVisible: (Rect, Edge) -> bool,
    baseIsHit: (Point, Edge) -> bool,
    pathContains: (Path, Point, real) -> bool)

  /** A bridge manager: the obstacle hash it reports and how it adds
      bridges to a path. */
  datatype BridgeManager = BridgeManager(obstacleHash: int, addBridges: Path -> Path)

  /** What a context's lookup yields when asked for a bridge manager. */
  datatype LookupResult =
    | FoundBridgeManager(manager: BridgeManager)
    | FoundOther
    | FoundNothing

  /** A render context, or its absence. */
  datatype RenderContext =
    | NoContext
    | Context(lookup: LookupResult)

  /** The style's settings and the fallback arrow it owns. */
  datatype CssEdgeStyle = CssEdgeStyle(
    cssClass: string,
    showTargetArrows: bool,
    useMarkerArrows: bool,
    fallbackArrow: Arrows.CssArrow)

  /** A freshly constructed style. */
  function NewEdgeStyle(): (s: CssEdgeStyle)
    ensures s.cssClass == "" && s.showTargetArrows && !s.useMarkerArrows
    ensures s.fallbackArrow == Arrows.NewCssArrow()
  {
    CssEdgeStyle("", true, false, Arrows.NewCssArrow())
  }

  // ---------------------------------------------------------------- paths

  /** Both ends belong to one owner and there are fewer than two bends:
      the test used for path creation, hit testing and visibility. */
  predicate IsSelfLoop(e: Edge)
  {
    e.sourcePort.owner == e.targetPort.owner && |e.bends| < 2
  }

  /** The corner a self-loop goes around. */
  function OuterCorner(e: Edge): (c: Point)
    requires IsSelfLoop(e)
    ensures |e.bends| == 1 ==> c == e.bends[0]
    ensures |e.bends| == 0 && e.sourcePort.owner.NodeOwner? ==>
              c == Point(e.sourcePort.owner.layout.x - 20.0, e.sourcePort.owner.layout.y - 20.0)
    ensures |e.bends| == 0 && e.sourcePort.owner.OtherOwner? ==>
              c == Point(e.sourcePort.location.x - 20.0, e.sourcePort.location.y - 20.0)
  {
    if |e.bends| == 1 then e.bends[0]
    else match e.sourcePort.owner
      case NodeOwner(_, layout) => Offset(Point(layout.x, layout.y), SelfLoopMargin)
      case OtherOwner(_) => Offset(e.sourcePort.location, SelfLoopMargin)
  }

  /** The self-loop path: from the source port horizontally to the
      corner's x, vertically to the corner, horizontally to the target
      port's x, and vertically to the target port. */
  function SelfLoopPath(e: Edge): (p: Path)
    requires IsSelfLoop(e)
    ensures |p| == 5 && p[0].MoveTo? && forall i :: 1 <= i < 5 ==> p[i].LineTo?
    ensures p[0].p == e.sourcePort.location && p[4].p == e.targetPort.location
    ensures p[2].p == OuterCorner(e)
    ensures p[1].p == Point(OuterCorner(e).x, e.sourcePort.location.y)
    ensures p[3].p == Point(e.targetPort.location.x, OuterCorner(e).y)
    ensures forall i :: 0 <= i < 5 ==> !p[i].Close?
  {
    var s := e.sourcePort.location;
    var t := e.targetPort.location;
    var c := OuterCorner(e);
    [MoveTo(s), LineTo(Point(c.x, s.y)), LineTo(c), LineTo(Point(t.x, c.y)), LineTo(t)]
  }

  /** The four legs of a self-loop. */
  function SelfLoopLegs(e: Edge): (r: seq<Segment>)
    requires IsSelfLoop(e)
    ensures |r| == 4
  {
    Legs(SelfLoopPath(e))
  }

  /** Every leg of a self-loop runs parallel to an axis, and the legs join
      up from the source port to the target port. */
  lemma SelfLoopIsRectilinear(e: Edge)
    requires IsSelfLoop(e)
    ensures forall i :: 0 <= i < 4 ==> AxisParallel(SelfLoopLegs(e)[i])
    ensures SelfLoopLegs(e)[0].from == e.sourcePort.location
    ensures SelfLoopLegs(e)[3].to == e.targetPort.location
    ensures forall i :: 0 <= i < 3 ==> SelfLoopLegs(e)[i].to == SelfLoopLegs(e)[i + 1].from
  {
  }

  /** `$createPath`: the self-loop path, or the library's path smoothed. */
  function CreatePath(host: Host, e: Edge): (p: Path)
    ensures IsSelfLoop(e) ==> p == SelfLoopPath(e)
    ensures !IsSelfLoop(e) ==> p == host.smooth(host.basePath(e), SmoothingLength)
  {
    if IsSelfLoop(e) then SelfLoopPath(e) else host.smooth(host.basePath(e), SmoothingLength)
  }

  // ---------------------------------------------------------------- arrows

  /** The crop length of the arrow handed to the cropping. */
  function CropLength(a: ArrowChoice): (r: real)
    ensures a == NoArrow ==> r == 0.0
    ensures a == HiddenArrow ==> r == HiddenArrowCropLength
    ensures a == FallbackArrow ==> r == Arrows.ArrowCropLength
  {
    match a
    case NoArrow => 0.0
    case HiddenArrow => HiddenArrowCropLength
    case FallbackArrow => Arrows.ArrowCropLength
  }

  /** The style draws markers instead of arrows: it asks for them and the
      browser renders them properly. `badMarkerSupport` is the flag the
      source computes once, when it loads, from the browser's user agent:
      `UserAgent.IsBrowserWithBadMarkerSupport` of that string. */
  predicate UsesMarkers(style: CssEdgeStyle, badMarkerSupport: bool)
  {
    !badMarkerSupport && style.useMarkerArrows
  }

  /** The arrow a rendered path is cropped for at its target end. */
  function TargetArrow(style: CssEdgeStyle, badMarkerSupport: bool): (a: ArrowChoice)
    ensures !style.showTargetArrows ==> a == NoArrow
    ensures style.showTargetArrows ==>
              && (a == HiddenArrow <==> UsesMarkers(style, badMarkerSupport))
              && (a == FallbackArrow <==> !UsesMarkers(style, badMarkerSupport))
  {
    if !style.showTargetArrows then NoArrow
    else if UsesMarkers(style, badMarkerSupport) then HiddenArrow
    else FallbackArrow
  }

  /** `$cropRenderedPath`: crop for no source arrow and the target arrow. */
  function CropRenderedPath(host: Host, style: CssEdgeStyle, badMarkerSupport: bool, e: Edge, p: Path): (r: Path)
    ensures r == host.crop(e, NoArrow, TargetArrow(style, badMarkerSupport), p)
  {
    host.crop(e, NoArrow, TargetArrow(style, badMarkerSupport), p)
  }

  /** The crop length of the arrow handed to the cropping of a rendered
      path: 0 without arrows, 6 for markers, 1 for the fallback arrow. */
  lemma RenderedCropLength(style: CssEdgeStyle, badMarkerSupport: bool)
    ensures CropLength(TargetArrow(style, badMarkerSupport)) ==
              if !style.showTargetArrows then 0.0
              else if !badMarkerSupport && style.useMarkerArrows then 6.0
              else 1.0
  {
  }

  /** A newly constructed style never uses markers, so whatever the
      browser it crops for the fallback arrow. */
  lemma NewStyleCropsForFallbackArrow(badMarkerSupport: bool)
    ensures TargetArrow(NewEdgeStyle(), badMarkerSupport) == FallbackArrow
    ensures CropLength(TargetArrow(NewEdgeStyle(), badMarkerSupport)) == 1.0
  {
  }

  /** Internet Explorer and legacy Edge never get markers, whatever the
      style asks for. */
  lemma MicrosoftBrowsersGetNoMarkers(style: CssEdgeStyle, ua: string)
    requires UserAgent.IsMicrosoftBrowser(ua)
    ensures TargetArrow(style, UserAgent.IsBrowserWithBadMarkerSupport(ua)) != HiddenArrow
  {
  }

  /** Desktop Chrome draws markers for a style that asks for them. */
  lemma DesktopChromeDrawsMarkers(style: CssEdgeStyle)
    requires style.showTargetArrows && style.useMarkerArrows
    ensures TargetArrow(style, UserAgent.IsBrowserWithBadMarkerSupport(UserAgent.DesktopChrome)) == HiddenArrow
  {
    UserAgent.DesktopChromeHasGoodMarkerSupport();
  }

  /** Safari 11 draws the fallback arrow even for a style that asks for
      markers. */
  lemma Safari11DrawsFallbackArrow(style: CssEdgeStyle)
    requires style.showTargetArrows
    ensures TargetArrow(style, UserAgent.IsBrowserWithBadMarkerSupport(UserAgent.Safari11)) == FallbackArrow
  {
    UserAgent.Safari11HasBadMarkerSupport();
  }

  // ---------------------------------------------------------------- bridges

  /** `getBridgeManager`: the context's bridge manager, if it has one. */
  function GetBridgeManager(ctx: RenderContext): (r: Option<BridgeManager>)
    ensures r.Some? <==> ctx.Context? && ctx.lookup.FoundBridgeManager?
    ensures r.Some? ==> r.value == ctx.lookup.manager
  {
    if ctx.NoContext? then None
    else match ctx.lookup
      case FoundBridgeManager(m) => Some(m)
      case _ => None
  }

  /** `getObstacleHash`: the manager's hash, or 42 without a manager. */
  function GetObstacleHash(ctx: RenderContext): (h: int)
    ensures GetBridgeManager(ctx).None? ==> h == NoManagerHash
    ensures GetBridgeManager(ctx).Some? ==> h == GetBridgeManager(ctx).value.obstacleHash
  {
    match GetBridgeManager(ctx)
    case None => NoManagerHash
    case Some(m) => m.obstacleHash
  }

  /** `createPathWithBridges`: the manager's bridged copy, or the path
      itself without a manager. */
  function CreatePathWithBridges(ctx: RenderContext, p: Path): (r: Path)
    ensures GetBridgeManager(ctx).None? ==> r == p
    ensures GetBridgeManager(ctx).Some? ==> r == GetBridgeManager(ctx).value.addBridges(p)
  {
    match GetBridgeManager(ctx)
    case None => p
    case Some(m) => m.addBridges(p)
  }

  /** Without a context, or with a lookup that yields anything but a
      bridge manager, paths are drawn as they are and the obstacle hash
      is the constant 42, so obstacles never force a redraw. */
  lemma NoManagerMeansNoBridges(ctx: RenderContext, p: Path)
    requires ctx.NoContext? || !ctx.lookup.FoundBridgeManager?
    ensures GetObstacleHash(ctx) == 42 && CreatePathWithBridges(ctx, p) == p
  {
  }

  // ---------------------------------------------------------------- visuals

  /** The record attached to an edge visual. */
  datatype EdgeCache = EdgeCache(path: Path, obstacleHash: int)

  /** The `path` element of an edge. */
  datatype PathElement = PathElement(
    d: Path,
    fill: string,
    stroke: string,
    cssClass: Option<string>,
    markerEnd: bool)

  /** A bare `path` with a marker, or a `g` holding the path and arrows. */
  datatype VisualKind = MarkerPath | ArrowGroup

  datatype EdgeVisual = EdgeVisual(
    kind: VisualKind,
    path: PathElement,
    arrows: seq<Arrows.ArrowVisual>,
    cache: EdgeCache)

  function KindFor(style: CssEdgeStyle, badMarkerSupport: bool): (k: VisualKind)
    ensures k == MarkerPath <==> UsesMarkers(style, badMarkerSupport)
  {
    if UsesMarkers(style, badMarkerSupport) then MarkerPath else ArrowGroup
  }

  /** The library's `addArrows` for the fallback arrow at the target end:
      place the arrow where the library says and draw it. */
  function AddArrows(host: Host, arrow: Arrows.CssArrow, gp: Path): (r: (Arrows.CssArrow, seq<Arrows.ArrowVisual>))
    ensures host.arrowPlacement(gp).None? ==> r == (arrow, [])
    ensures host.arrowPlacement(gp).Some? ==>
              var (anchor, direction) := host.arrowPlacement(gp).value;
              && |r.1| == 1
              && r.0 == Arrows.EnsureFigure(Arrows.Configure(arrow, anchor, direction))
              && r.1[0].transform == Arrows.ArrowTransform(direction, anchor)
              && Arrows.Apply(r.1[0].transform, Point(0.0, 0.0)) == anchor
              && r.1[0].cache == Arrows.ArrowCache(direction, anchor)
              && r.1[0].d == r.0.figure.value
              && r.1[0].fill == Arrows.ArrowFill
              && r.1[0].cssClass == ClassAttribute(arrow.cssClass)
              && r.0.cssClass == arrow.cssClass
  {
    match host.arrowPlacement(gp)
    case None => (arrow, [])
    case Some((anchor, direction)) =>
      var (a, v) := Arrows.CreateVisual(Arrows.Configure(arrow, anchor, direction));
      (a, [v])
  }

  /** The class the fallback arrow carries once the style drew with a
      class: the style's class with "-arrow" appended. */
  function ArrowClassAfterDraw(style: CssEdgeStyle): (c: string)
    ensures style.cssClass != "" ==> c == style.cssClass + "-arrow"
    ensures style.cssClass == "" ==> c == style.fallbackArrow.cssClass
  {
    if style.cssClass != "" then style.cssClass + "-arrow" else style.fallbackArrow.cssClass
  }

  /** `createVisual`: crop the path; give up on an empty result; otherwise
      draw the bridged path, pass the class on to the fallback arrow, add
      a marker or the fallback arrow, and record the cropped path and the
      obstacle hash. The style comes back with its arrow as drawing left it. */
  function CreateVisual(host: Host, style: CssEdgeStyle, badMarkerSupport: bool, ctx: RenderContext, e: Edge)
    : (r: (Option<EdgeVisual>, CssEdgeStyle))
    ensures var cropped := CropRenderedPath(host, style, badMarkerSupport, e, CreatePath(host, e));
            && (r.0.None? <==> |cropped| == 0)
            && (r.0.None? ==> r.1 == style)
            && (r.0.Some? ==>
                  var v := r.0.value;
                  && v.cache == EdgeCache(cropped, GetObstacleHash(ctx))
                  && v.path.d == CreatePathWithBridges(ctx, cropped)
                  && v.path.fill == EdgeFill && v.path.stroke == EdgeStroke
                  && (v.path.cssClass.Some? <==> style.cssClass != "")
                  && (v.path.cssClass.Some? ==> v.path.cssClass.value == style.cssClass)
                  && v.kind == KindFor(style, badMarkerSupport)
                  && (v.path.markerEnd <==> UsesMarkers(style, badMarkerSupport) && style.showTargetArrows)
                  && (|v.arrows| > 0 ==> !UsesMarkers(style, badMarkerSupport) && style.showTargetArrows)
                  && (!UsesMarkers(style, badMarkerSupport) && style.showTargetArrows ==>
                        (r.1.fallbackArrow, v.arrows)
                        == AddArrows(host, style.fallbackArrow.(cssClass := ArrowClassAfterDraw(style)), v.path.d))
                  && (forall i :: 0 <= i < |v.arrows| ==>
                        v.arrows[i].cssClass == ClassAttribute(ArrowClassAfterDraw(style)))
                  && r.1.cssClass == style.cssClass && r.1.showTargetArrows == style.showTargetArrows
                  && r.1.useMarkerArrows == style.useMarkerArrows
                  && r.1.fallbackArrow.cssClass == ArrowClassAfterDraw(style)
                  && (UsesMarkers(style, badMarkerSupport) || !style.showTargetArrows ==>
                        r.1.fallbackArrow == style.fallbackArrow.(cssClass := ArrowClassAfterDraw(style))))
    ensures r.1 == style.(fallbackArrow := r.1.fallbackArrow)
  {
    var cropped := CropRenderedPath(host, style, badMarkerSupport, e, CreatePath(host, e));
    if |cropped| == 0 then (None, style)
    else
      var gp := CreatePathWithBridges(ctx, cropped);
      var cls := ClassAttribute(style.cssClass);
      var style1 := style.(fallbackArrow := style.fallbackArrow.(cssClass := ArrowClassAfterDraw(style)));
      var cache := EdgeCache(cropped, GetObstacleHash(ctx));
      if UsesMarkers(style, badMarkerSupport) then
        var elem := PathElement(gp, EdgeFill, EdgeStroke, cls, style.showTargetArrows);
        (Some(EdgeVisual(MarkerPath, elem, [], cache)), style1)
      else
        var elem := PathElement(gp, EdgeFill, EdgeStroke, cls, false);
        var (arrow, arrows) := if style.showTargetArrows then AddArrows(host, style1.fallbackArrow, gp)
                               else (style1.fallbackArrow, []);
        (Some(EdgeVisual(ArrowGroup, elem, arrows, cache)), style1.(fallbackArrow := arrow))
  }

  /** The outcome of an update: whatever `createVisual` gives when there
      was no old visual, nothing for an empty path, or the old visual,
      rewritten or not. */
  datatype EdgeUpdate =
    | Recreated(created: Option<EdgeVisual>)
    | Dropped
    | Kept(visual: EdgeVisual, rewritten: bool)

  /** `updateVisual`. An empty path (checked before cropping) gives
      nothing. Otherwise the cropped path and the obstacle hash are
      compared with the record; when either differs the record is
      replaced and the bridged path written, and in a group the arrows
      are dropped and added afresh. The old visual is returned. */
  function UpdateVisual(host: Host, style: CssEdgeStyle, badMarkerSupport: bool, ctx: RenderContext,
                        prev: Option<EdgeVisual>, e: Edge): (r: (EdgeUpdate, CssEdgeStyle))
    requires prev.Some? ==> prev.value.kind == KindFor(style, badMarkerSupport)
    ensures prev.None? ==> r.0 == Recreated(CreateVisual(host, style, badMarkerSupport, ctx, e).0)
                           && r.1 == CreateVisual(host, style, badMarkerSupport, ctx, e).1
    ensures prev.Some? ==>
              var raw := CreatePath(host, e);
              var cropped := CropRenderedPath(host, style, badMarkerSupport, e, raw);
              var h := GetObstacleHash(ctx);
              var oldVisual := prev.value;
              && (r.0.Dropped? <==> |raw| == 0)
              && (r.0.Dropped? ==> r.1 == style)
              && (|raw| > 0 ==>
                    && r.0.Kept?
                    && (r.0.rewritten <==> cropped != oldVisual.cache.path || h != oldVisual.cache.obstacleHash)
                    && (!r.0.rewritten ==> r.0.visual == oldVisual && r.1 == style)
                    && (r.0.rewritten ==>
                          && r.0.visual.cache == EdgeCache(cropped, h)
                          && r.0.visual.path == oldVisual.path.(d := CreatePathWithBridges(ctx, cropped))
                          && r.0.visual.kind == oldVisual.kind
                          && (oldVisual.kind == MarkerPath ==> r.0.visual.arrows == oldVisual.arrows && r.1 == style)
                          && (oldVisual.kind == ArrowGroup && !style.showTargetArrows ==> r.0.visual.arrows == [])
                          && (oldVisual.kind == ArrowGroup && style.showTargetArrows ==>
                                (r.1.fallbackArrow, r.0.visual.arrows)
                                == AddArrows(host, style.fallbackArrow, r.0.visual.path.d))
                          && r.1.cssClass == style.cssClass && r.1.fallbackArrow.cssClass == style.fallbackArrow.cssClass))
              && (!(r.0.Kept? && r.0.rewritten && oldVisual.kind == ArrowGroup && style.showTargetArrows) ==> r.1 == style)
    ensures r.1 == style.(fallbackArrow := r.1.fallbackArrow)
  {
    match prev
    case None => var (v, s) := CreateVisual(host, style, badMarkerSupport, ctx, e); (Recreated(v), s)
    case Some(oldVisual) =>
      var raw := CreatePath(host, e);
      if |raw| == 0 then (Dropped, style)
      else
        var cropped := CropRenderedPath(host, style, badMarkerSupport, e, raw);
        var h := GetObstacleHash(ctx);
        if cropped == oldVisual.cache.path && h == oldVisual.cache.obstacleHash then (Kept(oldVisual, false), style)
        else
          var gp := CreatePathWithBridges(ctx, cropped);
          var v := oldVisual.(path := oldVisual.path.(d := gp), cache := EdgeCache(cropped, h));
          if UsesMarkers(style, badMarkerSupport) then (Kept(v, true), style)
          else
            var (arrow, arrows) := if style.showTargetArrows then AddArrows(host, style.fallbackArrow, gp)
                                   else (style.fallbackArrow, []);
            (Kept(v.(arrows := arrows), true), style.(fallbackArrow := arrow))
  }

  /** An update never touches the class attribute, the fill, the stroke
      or the marker of the old visual. */
  lemma UpdateKeepsStyling(host: Host, style: CssEdgeStyle, badMarkerSupport: bool, ctx: RenderContext, oldVisual: EdgeVisual, e: Edge)
    requires oldVisual.kind == KindFor(style, badMarkerSupport)
    ensures var r := UpdateVisual(host, style, badMarkerSupport, ctx, Some(oldVisual), e).0;
            r.Kept? ==> r.visual.path.cssClass == oldVisual.path.cssClass && r.visual.path.fill == oldVisual.path.fill
                        && r.visual.path.stroke == oldVisual.path.stroke && r.visual.path.markerEnd == oldVisual.path.markerEnd
  {
  }

  /** A second update with the same edge, context and style rewrites nothing. */
  lemma UpdateIdempotent(host: Host, style: CssEdgeStyle, badMarkerSupport: bool, ctx: RenderContext, oldVisual: EdgeVisual, e: Edge)
    requires oldVisual.kind == KindFor(style, badMarkerSupport)
    ensures var (r, s) := UpdateVisual(host, style, badMarkerSupport, ctx, Some(oldVisual), e);
            r.Kept? ==> s.useMarkerArrows == style.useMarkerArrows
                        && UpdateVisual(host, s, badMarkerSupport, ctx, Some(r.visual), e) == (Kept(r.visual, false), s)
  {
  }

  /** Updating a fresh visual for the same edge and context rewrites
      nothing, as long as the uncropped path is not empty. */
  lemma CreateThenUpdateWritesNothing(host: Host, style: CssEdgeStyle, badMarkerSupport: bool, ctx: RenderContext, e: Edge)
    requires |CreatePath(host, e)| > 0
    ensures var (v, s) := CreateVisual(host, style, badMarkerSupport, ctx, e);
            v.Some? ==> UpdateVisual(host, s, badMarkerSupport, ctx, v, e) == (Kept(v.value, false), s)
  {
  }

  /** When a rewrite happens, the visual records the cache and writes the
      path data a fresh visual would, unless cropping left nothing, in
      which case a fresh visual would not exist while the update writes
      the empty path. Unlike a fresh visual, the path keeps its old class
      and redrawn arrows take the fallback arrow's class as it stands,
      without the "-arrow" renaming. */
  lemma UpdateAgreesWithCreate(host: Host, style: CssEdgeStyle, badMarkerSupport: bool, ctx: RenderContext, oldVisual: EdgeVisual, e: Edge)
    requires oldVisual.kind == KindFor(style, badMarkerSupport)
    ensures var r := UpdateVisual(host, style, badMarkerSupport, ctx, Some(oldVisual), e).0;
            var created := CreateVisual(host, style, badMarkerSupport, ctx, e).0;
            r.Kept? && r.rewritten ==>
              (created.Some? <==> |r.visual.cache.path| > 0)
              && (created.Some? ==> r.visual.cache == created.value.cache && r.visual.path.d == created.value.path.d)
              && r.visual.path.cssClass == oldVisual.path.cssClass
              && (oldVisual.kind == ArrowGroup && style.showTargetArrows ==>
                    r.visual.arrows == AddArrows(host, style.fallbackArrow, r.visual.path.d).1)
  {
  }

  /** Without a bridge manager, and for a visual recorded without one,
      obstacles play no part: an update rewrites exactly when the cropped
      path moved, and then draws that path as it is. */
  lemma NoManagerRewritesOnPathChangeOnly(host: Host, style: CssEdgeStyle, badMarkerSupport: bool,
                                          ctx: RenderContext, oldVisual: EdgeVisual, e: Edge)
    requires oldVisual.kind == KindFor(style, badMarkerSupport)
    requires GetBridgeManager(ctx).None? && oldVisual.cache.obstacleHash == NoManagerHash
    requires |CreatePath(host, e)| > 0
    ensures var r := UpdateVisual(host, style, badMarkerSupport, ctx, Some(oldVisual), e).0;
            var cropped := CropRenderedPath(host, style, badMarkerSupport, e, CreatePath(host, e));
            && r.Kept?
            && (r.rewritten <==> cropped != oldVisual.cache.path)
            && (r.rewritten ==> r.visual.path.d == cropped)
  {
  }

  /** A visual created without a bridge manager records the sentinel hash
      and draws the cropped path unbridged. */
  lemma NoManagerCreateRecordsSentinel(host: Host, style: CssEdgeStyle, badMarkerSupport: bool,
                                       ctx: RenderContext, e: Edge)
    requires GetBridgeManager(ctx).None?
    ensures var v := CreateVisual(host, style, badMarkerSupport, ctx, e).0;
            v.Some? ==> v.value.cache.obstacleHash == 42 && v.value.path.d == v.value.cache.path
  {
  }

  /** A style that does not ask for markers, which every style the source
      constructs is, draws and updates the same whatever the browser's
      marker support: the flag only matters once markers are requested. */
  lemma MarkerSupportMattersOnlyForMarkers(host: Host, style: CssEdgeStyle, ctx: RenderContext,
                                           prev: Option<EdgeVisual>, e: Edge)
    requires !style.useMarkerArrows
    ensures TargetArrow(style, true) == TargetArrow(style, false)
    ensures KindFor(style, true) == ArrowGroup && KindFor(style, false) == ArrowGroup
    ensures CreateVisual(host, style, true, ctx, e) == CreateVisual(host, style, false, ctx, e)
    ensures prev.Some? && prev.value.kind == ArrowGroup ==>
              UpdateVisual(host, style, true, ctx, prev, e) == UpdateVisual(host, style, false, ctx, prev, e)
  {
  }

  // ---------------------------------------------------------------- queries

  /** `getPath`: the edge's path cropped at the ports, with no arrows. */
  function GetPath(host: Host, e: Edge): (p: Path)
    ensures p == host.crop(e, NoArrow, NoArrow, CreatePath(host, e))
  {
    host.crop(e, NoArrow, NoArrow, CreatePath(host, e))
  }

  /** `isHit`: self-loops, and other edges the base class reports hit,
      are hit when the cropped path passes within the hit radius plus one. */
  function IsHit(host: Host, hitTestRadius: real, p: Point, e: Edge): (r: bool)
    ensures r <==> (IsSelfLoop(e) || host.baseIsHit(p, e))
                   && host.pathContains(GetPath(host, e), p, hitTestRadius + 1.0)
    ensures IsSelfLoop(e) ==> (r <==> host.pathContains(host.crop(e, NoArrow, NoArrow, SelfLoopPath(e)), p, hitTestRadius + 1.0))
  {
    if IsSelfLoop(e) || host.baseIsHit(p, e) then
      host.pathContains(GetPath(host, e), p, hitTestRadius + 1.0)
    else false
  }

  /** `isVisible`: a self-loop is visible when the clip holds its source
      port or meets one of its four legs; other edges ask the base class. */
  function IsVisible(host: Host, clip: Rect, e: Edge): (r: bool)
    ensures !IsSelfLoop(e) ==> r == host.baseIsVisible(clip, e)
    ensures IsSelfLoop(e) ==>
              (r <==> host.clipContains(clip, e.sourcePort.location)
                      || exists i :: 0 <= i < 4 && host.intersectsLine(clip, SelfLoopLegs(e)[i].from, SelfLoopLegs(e)[i].to))
  {
    if IsSelfLoop(e) then
      var spl := e.sourcePort.location;
      var tpl := e.targetPort.location;
      if host.clipContains(clip, spl) then true
      else
        var c := OuterCorner(e);
        var legs := SelfLoopLegs(e);
        assert legs[0] == Segment(spl, Point(c.x, spl.y));
        assert legs[1] == Segment(Point(c.x, spl.y), c);
        assert legs[2] == Segment(c, Point(tpl.x, c.y));
        assert legs[3] == Segment(Point(tpl.x, c.y), tpl);
        host.intersectsLine(clip, spl, Point(c.x, spl.y))
        || host.intersectsLine(clip, Point(c.x, spl.y), c)
        || host.intersectsLine(clip, c, Point(tpl.x, c.y))
        || host.intersectsLine(clip, Point(tpl.x, c.y), tpl)
    else host.baseIsVisible(clip, e)
  }

  /** The path drawn without target arrows is exactly the path hit tests
      and clients see; with target arrows it is the same edge path cropped
      for the chosen arrow. */
  lemma DrawnPathIsHitPathWithoutArrows(host: Host, style: CssEdgeStyle, badMarkerSupport: bool, e: Edge)
    ensures !style.showTargetArrows ==>
              CropRenderedPath(host, style, badMarkerSupport, e, CreatePath(host, e)) == GetPath(host, e)
    ensures style.showTargetArrows ==>
              CropRenderedPath(host, style, badMarkerSupport, e, CreatePath(host, e))
              == host.crop(e, NoArrow, TargetArrow(style, badMarkerSupport), CreatePath(host, e))
              && TargetArrow(style, badMarkerSupport) != NoArrow
  {
  }

  /** One self-loop test decides all three places that treat self-loops
      specially: the path drawn, the hit test (which then skips the base
      test) and the visibility test (which then skips the base test).
      Skipping is stated by swapping the base tests for arbitrary others. */
  lemma SelfLoopTestIsShared(host: Host, hitTestRadius: real, p: Point, clip: Rect, e: Edge,
                             otherHit: (Point, Edge) -> bool, otherVisible: (Rect, Edge) -> bool)
    ensures IsSelfLoop(e) ==>
              && CreatePath(host, e) == SelfLoopPath(e)
              && (IsHit(host, hitTestRadius, p, e) <==> host.pathContains(GetPath(host, e), p, hitTestRadius + 1.0))
              && IsHit(host, hitTestRadius, p, e) == IsHit(host.(baseIsHit := otherHit), hitTestRadius, p, e)
              && (host.clipContains(clip, e.sourcePort.location) ==> IsVisible(host, clip, e))
              && IsVisible(host, clip, e) == IsVisible(host.(baseIsVisible := otherVisible), clip, e)
    ensures !IsSelfLoop(e) ==>
              && CreatePath(host, e) == host.smooth(host.basePath(e), SmoothingLength)
              && (IsHit(host, hitTestRadius, p, e) ==> host.baseIsHit(p, e))
              && IsVisible(host, clip, e) == host.baseIsVisible(clip, e)
  {
  }
}
