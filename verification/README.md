# yFiles CSS styling: a Dafny model of the styles' core logic

This project models the part of the CSS-styling demo for yFiles for HTML
that has behaviour worth stating precisely. The rest of the demo is glue
between the diagramming library and the DOM.

- **Edge style** (`css_edge_style.dfy`, module `EdgeStyle`):
  - a self-loop is an edge whose two ports share an owner and that has fewer than two bends;
  - a self-loop is drawn as a five-point rectilinear path around an outer corner;
  - the end of the path is cropped for the arrow in use: none, an invisible stand-in for an SVG marker, or the fallback arrow;
  - bridges are added when the render context offers a bridge manager, and the obstacle hash is 42 when it does not;
  - an update skips the rewrite when the cropped path and the obstacle hash match the record on the visual;
  - a self-loop is visible when the clip contains its source port or meets one of its four legs;
  - the hit test allows the hit radius plus one.
- **Node style** (`css_node_style.dfy`, module `NodeStyle`):
  - a rounded rectangle carries a record of the layout and class it was drawn for;
  - an update rewrites exactly the attributes whose recorded values differ, then brings the record up to date.
- **Fallback arrow** (`css_arrow.dfy`, module `Arrows`):
  - a flyweight configured with an anchor and a direction;
  - a memoised triangle figure placed by `matrix(d.x d.y -d.y d.x a.x a.y)`;
  - fixed bounds;
  - an update check whose record is never refreshed.
- **Browser classification** (`user_agent.dfy`, module `UserAgent`, on top of `strings.dfy`):
  - the Internet Explorer / legacy Edge test, the Safari version test and the Safari 11 WebKit test;
  - their disjunction is "bad SVG marker support";
  - each test is a pure function of the user-agent string;
  - each regular expression has a declarative reading and a scanning function proved equal to it;
  - `indexOf`, `parseInt` on the version capture, and the `.`, `\d` and `i` semantics of JavaScript regular expressions are modelled explicitly.

Shared pieces:
- `wrappers.dfy`: `Option`, standing in for `null`.
- `geometry.dfy`: points, rectangles, path commands and segments.

Coordinates are `real`, because the styles only copy them or subtract 20 or 8.

The library services the styles call are fields of a `Host` value:
- the base edge path, smoothing, cropping for an arrow and arrow placement;
- clip containment, line intersection, path containment and the base hit and visibility tests.

The model states what the styles do with their results and nothing about the results themselves.

Visuals are immutable values. An update returns the visual it produced, whether it rewrote anything, and the style as the operation left it. The fallback arrow and its memoised figure are state the style carries.

## Model

| member | source | states |
|---|---|---|
| Strings.IndexOf | app/scripts/utils.ts:10 | `indexOf` gives -1 exactly when the pattern never occurs, and otherwise the first index where it occurs |
| Strings.ParseInt | app/scripts/utils.ts:28 | on digits-dot-digits text (the version capture): NaN exactly when the text starts with the dot, and otherwise the decimal value of the digits before the dot |
| UserAgent.MsieMarker | app/scripts/utils.ts:10 | "MSIE " occurs, but not at index 0: only the first occurrence is compared with 0 |
| UserAgent.TridentScan | app/scripts/utils.ts:11 | the left-to-right scan with an "armed" flag finds "rv:11." after a "Trident" with no line terminator in between exactly when such a pair exists |
| UserAgent.TridentMarker | app/scripts/utils.ts:11 | `/Trident.*rv:11\./` matches iff "Trident" is followed, after characters that are not line terminators, by "rv:11." |
| UserAgent.EdgeScan | app/scripts/utils.ts:12 | trying every start position from i finds a match of the Edge pattern iff one starts at or after i |
| UserAgent.EdgeMarker | app/scripts/utils.ts:12 | `/Edge\/(1[2678])./i` matches iff some position holds "Edge" in any ASCII case, then "/1", then one of 2, 6, 7 or 8, then any character except a line terminator |
| UserAgent.IsMicrosoftBrowser | app/scripts/utils.ts:8-14 | a browser is Microsoft iff one of the three markers is present |
| UserAgent.IsSafariCandidate | app/scripts/utils.ts:24 | a candidate contains "Safari" and does not contain "Chrome" |
| UserAgent.VersionAt | app/scripts/utils.ts:26 | the version regex matches at i iff "Version/" is there, followed by digits and then a dot |
| UserAgent.FirstVersionMatch | app/scripts/utils.ts:26 | finds the leftmost position of a version match at or after the start, or reports that there is none |
| UserAgent.VersionCapture | app/scripts/utils.ts:26 | capture group 1 is digits, a dot, digits; its leading digits are exactly the digits after "Version/" |
| UserAgent.VersionValue | app/scripts/utils.ts:28 | parsing the capture yields the value of the digits before the dot, or NaN when there are none |
| UserAgent.DetectSafariVersion | app/scripts/utils.ts:22-32 | -1 for a non-candidate and for a candidate with no version match; otherwise the parsed leftmost capture. Above -1 iff the leftmost capture starts with a digit; NaN iff it starts with the dot |
| Strings.GreaterThan | app/scripts/utils.ts:43 | JavaScript `>` of a number against an integer: true iff the number is not NaN and exceeds it, so NaN is never above -1 |
| UserAgent.DetectSafariWebkit | app/scripts/utils.ts:42-44 | Safari 11 WebKit iff the Safari version is above -1 (never for NaN) or "CriOS" or "FxiOS" occurs |
| UserAgent.IsBrowserWithBadMarkerSupport | app/scripts/utils.ts:46 | bad marker support iff the browser is Microsoft or Safari 11 WebKit |
| UserAgent.ChromeHasGoodMarkerSupport | app/scripts/utils.ts:22-46 | a string with "Chrome", no Microsoft marker and neither "CriOS" nor "FxiOS" has good marker support |
| UserAgent.VersionTokenDecidesVersion | app/scripts/utils.ts:26-28 | in a candidate whose first "V" opens a "Version/" token followed by the digits `major` and a dot, the version is those digits read as a decimal number, or NaN when there are none |
| UserAgent.Safari11HasBadMarkerSupport | app/scripts/utils.ts:34-46 | the Safari 11 desktop user agent has version 11 and bad marker support |
| UserAgent.DesktopChromeHasGoodMarkerSupport | app/scripts/utils.ts:8-46 | a desktop Chrome 70 user agent has Safari version -1 and good marker support |
| Arrows.NewCssArrow | app/scripts/cssArrow.ts:9-17 | a new arrow has the class "css-arrow", no anchor, no direction and no figure yet |
| Arrows.NewArrowValid | app/scripts/cssArrow.ts:16 | a new arrow's figure slot satisfies the figure invariant |
| Arrows.Configure | app/scripts/cssArrow.ts:48-73 | both configuration calls store the anchor and the direction and change nothing else about the same arrow |
| Arrows.EnsureFigure | app/scripts/cssArrow.ts:86-92 | the figure is built only when missing; an existing figure is kept as it is |
| Arrows.ArrowFigureShape | app/scripts/cssArrow.ts:86-92 | the figure is a closed triangle with its tip at the origin and its back corners at x = -7.5, mirrored across the axis |
| Arrows.OperationsKeepFigureValid | app/scripts/cssArrow.ts:84-95 | configuring and drawing keep the memoised figure the triangle, so every visual draws exactly that triangle |
| Arrows.FigureBuiltOnce | app/scripts/cssArrow.ts:86-92 | drawing again after a first draw leaves the arrow unchanged and yields the same visual |
| Arrows.ArrowTransform | app/scripts/cssArrow.ts:102-106 | the transform sends the tip (0,0) to the anchor, the unit x vector to the direction and the unit y vector to the direction turned a quarter |
| Arrows.TransformScalesDistances | app/scripts/cssArrow.ts:102-106 | squared distances from the tip scale by the squared length of the direction, so the transform is a rotation and scaling |
| Arrows.TransformFollowsDirection | app/scripts/cssArrow.ts:102-106 | points behind the tip on the figure's axis land behind the anchor along the direction |
| Arrows.CreateVisual | app/scripts/cssArrow.ts:84-114 | a visual draws the memoised figure in fill #336699, has a class attribute iff the class is non-empty, is placed by `matrix(d.x d.y -d.y d.x a.x a.y)` for the configured direction and anchor (so the tip is on the anchor), and records the direction and anchor |
| Arrows.UpdateVisual | app/scripts/cssArrow.ts:134-147 | the transform is rewritten iff the direction or anchor differs from the record, and then becomes the matrix for the configured direction and anchor; the record and everything else stay as they were |
| Arrows.CreateThenUpdateWritesNothing | app/scripts/cssArrow.ts:134-147 | a visual updated for the configuration it was drawn for is left untouched |
| Arrows.UpdateAgreesWithCreate | app/scripts/cssArrow.ts:139-143 | a rewritten transform is the one a fresh visual would get |
| Arrows.UpdateKeepsRewriting | app/scripts/cssArrow.ts:134-147 | the record is never refreshed, so a second update with the same configuration writes again exactly when the first did, and yields the same visual |
| Arrows.GetBounds | app/scripts/cssArrow.ts:155-158 | the bounds are 32 by 32, with their top-left corner 8 left of and 8 above the anchor |
| Arrows.BoundsIgnoreDirection | app/scripts/cssArrow.ts:155-158 | the bounds do not depend on the direction |
| Arrows.BoundsAreOffCentre | app/scripts/cssArrow.ts:155-158 | the bounds contain the anchor but are centred 8 right of and 8 below it |
| NodeStyle.NewNodeStyle | app/scripts/cssNodeStyle.ts:6-9 | a new node style has no class |
| Geometry.ClassAttribute | app/scripts/cssNodeStyle.ts:29-31 | the class attribute is present iff the class is non-empty, and then equals it |
| NodeStyle.CreateVisual | app/scripts/cssNodeStyle.ts:17-44 | the record holds exactly the layout's x, y, width and height and the current class; the rectangle shows that layout (size, translate to (x, y), class only when non-empty) with rounding 2, fill #FF8C00, stroke #FFF of 1px |
| NodeStyle.UpdateVisual | app/scripts/cssNodeStyle.ts:53-88 | with no record the visual is drawn afresh. Otherwise: width is written iff it differs; height iff it differs; translate iff x or y differs; class iff it differs. Unwritten attributes keep their old values, and the record becomes the current layout and class |
| NodeStyle.GetOutline | app/scripts/cssNodeStyle.ts:95-99 | the outline is a move and three lines through the layout's top-left, top-right, bottom-right and bottom-left corners, then a close |
| NodeStyle.OutlineTracesDrawnRect | app/scripts/cssNodeStyle.ts:95-99 | for a visual showing the layout, the outline starts at the drawn translate, reaches the translate moved by the drawn width and height, and has axis-parallel sides |
| NodeStyle.OutlineVerticesAreCorners | app/scripts/cssNodeStyle.ts:95-99 | a point is a vertex of the outline iff both its coordinates are coordinates of a layout corner |
| NodeStyle.CreatedVisualIsConsistent | app/scripts/cssNodeStyle.ts:33-41 | a fresh visual's rectangle agrees with its record |
| NodeStyle.UpdateShowsLayout | app/scripts/cssNodeStyle.ts:64-85 | when the rectangle agreed with its record, the updated rectangle agrees with the new record and shows the current layout and class |
| NodeStyle.UpdateIdempotent | app/scripts/cssNodeStyle.ts:64-85 | a second update with the same layout and class writes nothing and changes nothing |
| NodeStyle.CreateThenUpdateWritesNothing | app/scripts/cssNodeStyle.ts:17-88 | updating a fresh visual with the layout and class it was drawn for writes nothing |
| NodeStyle.ClassChangeSetsOrRemoves | app/scripts/cssNodeStyle.ts:78-85 | a changed class is written: removed when the new class is empty, set to it otherwise |
| EdgeStyle.NewEdgeStyle | app/scripts/cssEdgeStyle.ts:17-31 | a new edge style has no class, shows target arrows, does not use markers and owns a new fallback arrow |
| EdgeStyle.IsSelfLoop | app/scripts/cssEdgeStyle.ts:161 | an edge is a self-loop when both ports have the same owner and it has fewer than two bends |
| EdgeStyle.SelfLoopTestIsShared | app/scripts/cssEdgeStyle.ts:158-324 | the one self-loop test decides the path drawn, and for a self-loop the hit and visibility results do not change when the base hit and visibility tests are replaced by any others; for other edges visibility is the base test and a hit needs the base test |
| EdgeStyle.OuterCorner | app/scripts/cssEdgeStyle.ts:163-180 | the corner is the bend with one bend; with none, the owning node's top-left minus (20, 20); otherwise the source port minus (20, 20) |
| EdgeStyle.SelfLoopPath | app/scripts/cssEdgeStyle.ts:181-194 | five commands, a move and four lines through exactly: source port, (corner x, source y), corner, (target x, corner y), target port |
| EdgeStyle.SelfLoopIsRectilinear | app/scripts/cssEdgeStyle.ts:186-194 | each of the four legs is axis-parallel, and they join from the source port to the target port |
| EdgeStyle.CreatePath | app/scripts/cssEdgeStyle.ts:158-200 | self-loops get the self-loop path; other edges get the library's path smoothed with 200 |
| EdgeStyle.CropLength | app/scripts/cssEdgeStyle.ts:21-26 | the crop length each arrow is built with: 0 for no arrow, 6 for the invisible marker stand-in, the fallback arrow's own crop length |
| EdgeStyle.TargetArrow | app/scripts/cssEdgeStyle.ts:40-50 | without target arrows, no arrow. Otherwise the invisible arrow iff the browser has good marker support and markers are requested, and the fallback arrow otherwise |
| EdgeStyle.CropRenderedPath | app/scripts/cssEdgeStyle.ts:40-50 | the rendered path is the edge path cropped with no source arrow and the target arrow chosen above; EdgeStyle.DrawnPathIsHitPathWithoutArrows relates it to EdgeStyle.GetPath |
| EdgeStyle.RenderedCropLength | app/scripts/cssEdgeStyle.ts:40-50 | the target arrow handed to the cropping has crop length 0 without arrows, 6 for markers and 1 for the fallback arrow |
| EdgeStyle.MicrosoftBrowsersGetNoMarkers | app/scripts/cssEdgeStyle.ts:40-45 | in a browser the Microsoft test accepts, the target arrow is never the invisible marker stand-in |
| EdgeStyle.DesktopChromeDrawsMarkers | app/scripts/cssEdgeStyle.ts:40-45 | in desktop Chrome, a style that shows arrows and asks for markers crops for the invisible marker stand-in |
| EdgeStyle.Safari11DrawsFallbackArrow | app/scripts/cssEdgeStyle.ts:40-45 | in Safari 11, a style that shows arrows crops for the fallback arrow even when it asks for markers |
| EdgeStyle.NewStyleCropsForFallbackArrow | app/scripts/cssEdgeStyle.ts:17-50 | a newly constructed style hands the fallback arrow, crop length 1, to the cropping, whatever the browser's marker support |
| EdgeStyle.GetBridgeManager | app/scripts/cssEdgeStyle.ts:246-252 | there is a manager iff there is a context and its lookup yields a bridge manager |
| EdgeStyle.GetObstacleHash | app/scripts/cssEdgeStyle.ts:234-239 | the obstacle hash is the manager's hash, or 42 without a manager |
| EdgeStyle.CreatePathWithBridges | app/scripts/cssEdgeStyle.ts:220-224 | the bridged path is the manager's bridged copy, or the path itself without a manager |
| EdgeStyle.NoManagerMeansNoBridges | app/scripts/cssEdgeStyle.ts:220-252 | with no context, or a lookup yielding anything else, the hash is 42 and paths are drawn unchanged |
| EdgeStyle.NoManagerRewritesOnPathChangeOnly | app/scripts/cssEdgeStyle.ts:124-131 | with no bridge manager and a record holding the sentinel hash, an update rewrites iff the cropped path differs from the record, and then draws that path unbridged |
| EdgeStyle.NoManagerCreateRecordsSentinel | app/scripts/cssEdgeStyle.ts:87-101 | a visual created with no bridge manager records hash 42 and draws exactly the cropped path it records |
| EdgeStyle.AddArrows | app/scripts/cssEdgeStyle.ts:96-97 | the fallback arrow is drawn once, or not at all when the library places none. When drawn, the arrow comes back configured with the library's anchor and direction and its figure built, and the visual shows that figure in fill #336699 with the arrow's class, transformed by the direction-and-anchor matrix |
| EdgeStyle.ArrowClassAfterDraw | app/scripts/cssEdgeStyle.ts:75-78 | drawing with a class gives the fallback arrow that class plus "-arrow"; without a class the arrow keeps its own |
| EdgeStyle.UsesMarkers | app/scripts/cssEdgeStyle.ts:43 | the style draws markers iff the browser does not have bad marker support and the style asks for markers; the same test is repeated at lines 80 and 133 |
| EdgeStyle.KindFor | app/scripts/cssEdgeStyle.ts:80-103 | a visual is a bare marker path iff the browser has good marker support and markers are requested, and a group with arrows otherwise |
| EdgeStyle.CreateVisual | app/scripts/cssEdgeStyle.ts:58-104 | nothing is drawn iff the cropped path is empty. Otherwise the visual draws the bridged path in fill none and stroke #336699, with a class only when set, a marker iff markers are used and arrows are shown, and arrows only in a group with arrows shown; it records the cropped path and the obstacle hash. The returned style differs from the given one only in its fallback arrow; that arrow only takes the drawn class unless a group with arrows shown configured and drew it |
| EdgeStyle.UpdateVisual | app/scripts/cssEdgeStyle.ts:113-150 | no old visual: delegate to creation. Empty uncropped path: nothing. Otherwise the old visual is kept. It is rewritten iff the cropped path or the obstacle hash differs from the record; a rewrite replaces the record and the drawn path and, in a group, the arrows. The returned style differs from the given one only in its fallback arrow, and equals it unless a group with arrows shown was rewritten |
| EdgeStyle.UpdateKeepsStyling | app/scripts/cssEdgeStyle.ts:126-149 | an update never changes the class, fill, stroke or marker of the old visual |
| EdgeStyle.UpdateIdempotent | app/scripts/cssEdgeStyle.ts:128-131 | a second update with the same edge, context and style rewrites nothing |
| EdgeStyle.CreateThenUpdateWritesNothing | app/scripts/cssEdgeStyle.ts:58-150 | updating a fresh visual for the same edge and context rewrites nothing, provided the uncropped path is not empty |
| EdgeStyle.UpdateAgreesWithCreate | app/scripts/cssEdgeStyle.ts:113-150 | a rewrite records the cache and writes the path data a fresh visual would; the path keeps the old visual's class, and redrawn arrows carry the fallback arrow's current class without the renaming a fresh visual applies. When cropping leaves nothing, no fresh visual exists, yet the rewrite records and writes the empty path |
| EdgeStyle.GetPath | app/scripts/cssEdgeStyle.ts:207-211 | the edge's path cropped at the ports with no arrows; EdgeStyle.DrawnPathIsHitPathWithoutArrows shows it is the drawn path when target arrows are off |
| EdgeStyle.DrawnPathIsHitPathWithoutArrows | app/scripts/cssEdgeStyle.ts:40-50 | without target arrows, the rendered path equals the path from getPath; with them, it is the same edge path cropped for an actual arrow |
| EdgeStyle.MarkerSupportMattersOnlyForMarkers | app/scripts/cssEdgeStyle.ts:14-150 | a style that does not ask for markers, as every style the constructor builds, chooses the same arrow and creates and updates the same visuals whatever the browser's marker support |
| EdgeStyle.IsHit | app/scripts/cssEdgeStyle.ts:261-271 | a self-loop, or another edge the base test reports hit, is hit iff its cropped path passes within the hit radius plus one |
| EdgeStyle.IsVisible | app/scripts/cssEdgeStyle.ts:280-324 | a self-loop is visible iff the clip contains its source port or intersects one of the four legs of its self-loop path; other edges ask the base test |

## Left out

- app/scripts/app.ts is not part of this model: bootstrap, licensing, sample graph, text measuring and layout animation.
- app/scripts/markerDefsSupport.ts is not part of this model: constant SVG marker markup and a delegating `accept`. `$createMarker` is left out with it, so the marker is represented only as present or absent, not as its `url(#id)` reference.
- app/scripts/basicEdgeObstacleProvider.ts and the edge style's `lookup` are not part of this model: a one-line delegation to the library.
- Library geometry is not modelled: cropping, smoothing, bridges, arrow placement, `contains`, `intersectsLine`, `pathContains` and the base hit and visibility tests. These are `Host` functions, and the model says nothing about their results. The one exception: NodeStyle.GetOutline assumes the library's `appendRectangle` emits a move to the top-left corner, lines to the top-right, bottom-right and bottom-left corners, and a close, in that order.
- The node style's `isHit` and `isInside` only call the base class, so they are left out.
- DOM and SVG serialisation are left out: element creation, path data strings, number formatting and `childNodes` handling. A path attribute is the path value itself, and the empty path stands for the empty `d` string.
- Floating point is left out: coordinates are reals. `parseInt` yields an exact integer, without JavaScript's loss of precision on very long digit strings.
- Reference equality is modelled as value equality on points, paths and owners:
  - the arrow's `!==` on anchor and direction;
  - `hasSameValue` on paths;
  - `===` on port owners.
  When the library hands the arrow fresh point objects on every call, the arrow source rewrites the transform every time; the model rewrites only when the values differ.
- The browser tests read the user-agent string once, when the module loads. Here each test takes that string as a parameter. The edge style's operations take the resulting flag as a parameter, `badMarkerSupport`, standing for `UserAgent.IsBrowserWithBadMarkerSupport` of the browser's user agent.
- The edge style's `useMarkerArrows` is modelled as a setting of the style, but the source declares it `private readonly` and only ever assigns it `false` (app/scripts/cssEdgeStyle.ts:14, 29). As written, no edge style takes the marker branches, the invisible stand-in arrow with crop length 6 is never used, and the browser's marker support never changes what an edge draws (EdgeStyle.MarkerSupportMattersOnlyForMarkers). EdgeStyle.DesktopChromeDrawsMarkers, the MarkerPath case of EdgeStyle.KindFor and the HiddenArrow case of EdgeStyle.TargetArrow describe styles the source can only reach once that field is set.
- The edge style tests `renderPath.length === 0` to mean "the path has no commands"; the model reads it that way.
- EdgeStyle.UpdateVisual: requires that an old visual is of the kind (bare marker path or group) the style's current mode creates. The mode cannot change during a style's life, so the library only ever passes such visuals. The source's behaviour on a visual of the other kind is not modelled.
- Arrows.CreateVisual, Arrows.UpdateVisual and Arrows.GetBounds: require that the arrow has been configured. The source dereferences the unset anchor and direction otherwise and fails.
- EdgeStyle.RenderedCropLength: states the crop length of the arrow handed to the library's cropping, not how much of the path that cropping removes. Cropping is library code and a `Host` function here, so neither the crop length nor the fallback arrow's length of 5.5 is tied to the cropped path's geometry. EdgeStyle.CropLength and EdgeStyle.NewStyleCropsForFallbackArrow are stated in the same terms.
- Strings.ParseInt: models `parseInt` only on digits-dot-digits text, the only text the source passes it. Signs, leading whitespace and hexadecimal prefixes are not modelled.
- Arrows: the arrow's `length` (5.5) and `cropLength` (1) are constants, `ArrowLength` and `ArrowCropLength`. Only the crop length takes part in a contract, through EdgeStyle.CropLength.
- The arrow's 32 by 32 bounds sit 8 left of and 8 above the anchor, so the anchor is not their centre; the model keeps this (Arrows.BoundsAreOffCentre).
