# react-flow-diagrams-jp in Dafny

A Dafny model of the logic under the React flow-diagram canvas of
react-flow-diagrams-jp. The DOM is left out. What remains is listed below.

- The **viewport**: pan `x`/`y` and `zoom`. The model covers zoom stepping and clamping, panning, zooming about a point, and the two coordinate maps between screen and flow space.
- The viewport moves of `useReactFlow` that centre a node, a group of nodes or a point in the window.
- **Edge geometry**:
  - where a handle sits on a node's box;
  - the control points pushed out from it;
  - cubic Bézier evaluation;
  - the Bézier and smooth-step edge paths with their label points;
  - the node size and style rules the geometry depends on;
  - how `BezierEdge` combines these into an edge's two endpoints and curve.
- The **graph lists**: `useFlow`'s append and remove operations, with node removal cascading to edges.
- The canvas's own updates:
  - moving a node;
  - relabelling an edge;
  - the edge a finished connection adds;
  - the mouse-wheel zoom and pan rules;
  - which edges are drawn;
  - dragging the background to pan.
- **Two state machines**:
  - the connection drag (idle → connecting → idle, self-loops rejected);
  - the pointer drag, whose reported deltas telescope.
- The one-level theme `deepMerge` with `setTheme` and the theme hooks.
- Custom-versus-built-in node dispatch.
- The centroid and bounding box of a list of points.

A JavaScript `number` is a Dafny `real`. JavaScript truthiness is spelled out:
- `a || b` on an optional number takes `b` when `a` is missing or `0`;
- on an optional string, it takes `b` when `a` is missing or `""`.

Each hook's state becomes an immutable datatype, and each callback becomes a synchronous state transition. Paths are sequences of segment datatypes, not SVG strings.

Layout: one module per source file, plus four shared modules in three files.
- `options.dfy` holds `Option` and the JavaScript helpers (`||`, `Math.min`/`max`/`abs`).
- `types.dfy` holds the records of `src/types/index.ts`.
- `seqs.dfy` holds `filter`, `Math.min(...xs)` and `Math.max(...xs)` over sequences.

## Model

| member | source | states |
|---|---|---|
| Types.SideOf | src/utils/bezier.ts:147-158 | A handle name maps to its side; a name other than top/right/bottom/left maps to the `default` case. |
| Types.FindNode | src/components/FlowCanvas.tsx:315-316 | `nodes.find` by id returns nothing exactly when no node has the id; otherwise it returns the first node with it. |
| Seqs.Filter | src/hooks/useFlow.ts:31 | `filter` keeps exactly the elements satisfying the predicate, in their original order, and never lengthens the list. Each kept value occurs exactly as often as in the input; a rejected value does not occur. |
| Seqs.FilterConcat | src/hooks/useFlow.ts:31 | Filtering distributes over concatenation. |
| Seqs.FilterKeepsAll | src/hooks/useFlow.ts:31 | A filter that every element passes returns the list unchanged. |
| Seqs.SeqMin | src/utils/geometry.ts:50 | `Math.min(...xs)` of a non-empty list is a lower bound of the list and is attained by some element. |
| Seqs.SeqMax | src/utils/geometry.ts:51 | `Math.max(...xs)` of a non-empty list is an upper bound of the list and is attained by some element. |
| UseViewport.ClampZoom | src/hooks/useViewport.ts:30-63 | The result lies in [0.1, 2]; it is the identity inside that range and saturates at the end that was exceeded. |
| UseViewport.ZoomIn | src/hooks/useViewport.ts:65-70 | Pan is kept and zoom stays in range. From 0 to 1.9 the zoom rises by exactly 0.1; above 1.9 it saturates at 2; below 0 it lands on 0.1. |
| UseViewport.ZoomOut | src/hooks/useViewport.ts:72-77 | Pan is kept and zoom stays in range. From 0.2 to 2.1 the zoom falls by exactly 0.1; below 0.2 it saturates at 0.1; above 2.1 (reachable through zoomToNode, which does not clamp) it lands on 2. |
| UseViewport.ZoomStepsCancel | src/hooks/useViewport.ts:65-77 | Away from the clamp, zooming in then out (or out then in) restores the viewport. |
| UseViewport.ResetZoom | src/hooks/useViewport.ts:79-84 | The pan is kept and the zoom becomes 1. |
| UseViewport.FitView | src/hooks/useViewport.ts:86-92 | The viewport becomes exactly {0, 0, 1}. |
| UseViewport.PanBy | src/hooks/useViewport.ts:94-100 | The pan moves by exactly the delta and the zoom is kept. |
| UseViewport.PanByComposes | src/hooks/useViewport.ts:94-100 | Panning by a and then by b is panning by a + b. |
| UseViewport.ScreenToFlowPosition | src/hooks/useViewport.ts:124-132 | The flow point returned is the one the viewport maps back onto the screen point. |
| UseViewport.FlowToScreenPosition | src/hooks/useViewport.ts:134-142 | At non-zero zoom, undoing the pan and zoom on the result gives back the flow point. |
| UseViewport.ScreenFlowScreen | src/hooks/useViewport.ts:124-142 | Screen → flow → screen is the identity at non-zero zoom. |
| UseViewport.FlowScreenFlow | src/hooks/useViewport.ts:124-142 | Flow → screen → flow is the identity at non-zero zoom. |
| UseViewport.ZoomToPoint | src/hooks/useViewport.ts:102-122 | The new zoom is the clamped target, and the flow point under `point` is the same before and after. |
| Geometry.GetCenter | src/utils/geometry.ts:18-35 | The empty list gives the origin. Otherwise the centre times the count is the componentwise sum, i.e. the centre is the mean. |
| Geometry.CenterOfSingleton | src/utils/geometry.ts:23-34 | A single point is its own centre. |
| Geometry.GetBoundingBox | src/utils/geometry.ts:42-61 | The empty list gives {0,0,0,0}. Otherwise: width and height are non-negative, every point lies inside, and each of the four sides is touched by some point. |
| Geometry.SumByCoordinate | src/utils/geometry.ts:23-29 | The `reduce` sum of points is, coordinate by coordinate, the total of the x-values and of the y-values. |
| Geometry.TotalBounds | src/utils/geometry.ts:23-29 | The total of n numbers lying in [lo, hi] lies in [n·lo, n·hi]. |
| Geometry.CenterInsideBox | src/utils/geometry.ts:18-35 | The centre of a non-empty list lies in every box that contains all of its points. |
| Geometry.CenterInBoundingBox | src/utils/geometry.ts:18-61 | The centre of a non-empty list lies inside its bounding box. |
| Bezier.GetControlPoint | src/utils/bezier.ts:138-159 | The control point moves only along the side's axis, outward by `offset \|\| max(\|x\|,\|y\|)·curvature`. An unknown side leaves the point unchanged. |
| Bezier.ControlPointOutward | src/utils/bezier.ts:145-158 | With non-negative curvature and no offset, the control point never moves inward. |
| Bezier.GetHandlePosition | src/utils/bezier.ts:171-191 | Top/bottom handles are centred in x and left/right handles are centred in y. Each handle lies `handleOffset` outside the midpoint of its side. An unknown side gives the box centre. |
| Bezier.GetBezierPoint | src/utils/bezier.ts:202-227 | The Bernstein form of the cubic, computed per coordinate. It has no contract of its own: BezierPointDeCasteljau, BezierPointEnds, BezierPointHalf, BezierPointConstant and BezierPointReversed state its properties. |
| Bezier.BezierPointDeCasteljau | src/utils/bezier.ts:202-227 | For every t, the curve point equals de Casteljau's construction (three rounds of linear interpolation), an independent definition of the same curve. |
| Bezier.BezierPointEnds | src/utils/bezier.ts:202-227 | The curve is at p0 for t = 0 and at p3 for t = 1. |
| Bezier.BezierPointHalf | src/utils/bezier.ts:202-227 | The point at t = 1/2 is (p0 + 3·p1 + 3·p2 + p3)/8. |
| Bezier.BezierPointConstant | src/utils/bezier.ts:209-226 | The Bernstein weights sum to one, so four equal control points give that point for every t. |
| Bezier.BezierPointReversed | src/utils/bezier.ts:202-227 | Reversing the control polygon traces the same curve backwards. |
| Bezier.GetBezierPath | src/utils/bezier.ts:26-64 | The path is a single cubic from source to target through the two sides' control points at the given curvature. The label sits at the curve's t = 1/2 point. |
| Bezier.BezierLabelSymmetric | src/utils/bezier.ts:26-64 | Swapping the two ends of a cubic edge leaves its label point unchanged. |
| Bezier.GetSmoothStepPath | src/utils/bezier.ts:78-127 | The path runs from source to target and the label is the straight midpoint. Right→left gives five segments starting with a horizontal leg. Its first leg ends at the source pushed right by the control distance; the first rounded corner turns at `borderRadius` beyond that x; the vertical leg runs at that x to `borderRadius` short of the target's height; the second corner, with its control point at the target's height, returns to the detour's x. Otherwise it is three straight legs through the two offset control points. |
| Bezier.SmoothStepDetourAtOffset | src/utils/bezier.ts:88-115 | With a non-zero offset, a right→left step's detour sits exactly `offset` right of the source, its vertical leg `offset + borderRadius` right of it, and it comes back at the target's height. |
| NodeSize.GetNodeSize | src/utils/nodeSize.ts:8-34 | A node's own size is used when both dimensions are truthy. Otherwise circle and square get 120×120, and rectangle, rounded and any other or missing shape get 140×70. |
| NodeSize.PartialSizeIgnored | src/utils/nodeSize.ts:10-15 | Setting only one of width and height changes nothing: the shape default is used. |
| NodeSize.GetNodeStyles | src/utils/nodeSize.ts:36-91 | The node is placed at its position and sized by `getNodeSize`. Corners are "50%" for circle, "12px" for rounded and "4px" for everything else. |
| UseFlow.AddNode | src/hooks/useFlow.ts:22-24 | The node is appended and every existing node and edge is unchanged. |
| UseFlow.AddEdge | src/hooks/useFlow.ts:26-28 | The edge is appended and every existing node and edge is unchanged. |
| UseFlow.RemoveNode | src/hooks/useFlow.ts:30-37 | No node with the id remains and the other nodes stay in order, each as many times as before. The edges removed are exactly those touching the id; the rest stay in order, duplicates included. |
| UseFlow.RemoveEdge | src/hooks/useFlow.ts:39-41 | Exactly the edges with the id are removed; the rest stay in order, each as many times as before, and the nodes are unchanged. |
| UseFlow.RemoveNodeKeepsEdgesConnected | src/hooks/useFlow.ts:30-37 | If every edge names existing nodes before a node removal, it still does after. |
| UseFlow.RemoveAbsentNode | src/hooks/useFlow.ts:31-36 | Removing an absent node id keeps the node list, and keeps the whole flow when every edge is attached. |
| UseFlow.RemoveAbsentEdge | src/hooks/useFlow.ts:39-41 | Removing an absent edge id is the identity. |
| UseDrag.DragStart | src/hooks/useDrag.ts:16-20 | Dragging starts, with both the start and the last position set to the pointer. |
| UseDrag.DragMove | src/hooks/useDrag.ts:22-37 | With no drag, or no last position, the result is null and nothing changes. Otherwise the delta is current − last, and last becomes current. |
| UseDrag.DragEnd | src/hooks/useDrag.ts:39-43 | Dragging stops and both positions are cleared. |
| UseDrag.MoveAfterEndIsNull | src/hooks/useDrag.ts:22-43 | After `dragEnd`, a move reports null. |
| UseDrag.DeltasTelescope | src/hooks/useDrag.ts:22-37 | During a drag, the deltas of consecutive moves sum to the final position minus the last position before them. |
| UseDrag.DragNetDisplacement | src/hooks/useDrag.ts:16-37 | After `dragStart(p0)`, the deltas sum to the final position minus p0. |
| UseConnection.StartConnection | src/hooks/useConnection.ts:37-49 | The state becomes connecting, records the node and handle, and sets both positions to the given point. |
| UseConnection.UpdateConnectionPosition | src/hooks/useConnection.ts:51-56 | Only `toPosition` changes. |
| UseConnection.CompleteConnection | src/hooks/useConnection.ts:58-79 | A connection is emitted iff the source node and handle are set and differ from the target node, so there are no self-loops. Its fields are the recorded source and the given target, and the state returns to idle. |
| UseConnection.CancelConnection | src/hooks/useConnection.ts:81-85 | The state returns to idle with every field cleared. |
| UseConnection.ConnectionPath | src/hooks/useConnection.ts:87-92 | The preview exists iff the state is connecting with both positions, and it runs from `fromPosition` to `toPosition`. |
| UseConnection.UpdateAllKeepsSource | src/hooks/useConnection.ts:51-56 | A run of pointer moves changes only the loose end, which ends at the last pointer. |
| UseConnection.ConnectGesture | src/hooks/useConnection.ts:37-92 | A whole gesture: the preview runs from the start point to the pointer. On release, the connection between the two handles is emitted iff both source ids are non-empty and the nodes differ. |
| UseReactFlow.CenterOn | src/hooks/useReactFlow.ts:61-68 | The viewport keeps the given zoom and draws the given flow point at the window centre. |
| UseReactFlow.ZoomToNode | src/hooks/useReactFlow.ts:50-70 | An unknown id leaves the viewport unchanged. Otherwise the zoom becomes `zoomLevel` and the node's centre (with size defaulting to 150×100) lands at the window centre. |
| UseReactFlow.NodesBounds | src/hooks/useReactFlow.ts:84-100 | For any non-empty list, the box holds every node's box and each of its sides is attained by some node; when no size is negative it also has positive extent. |
| UseReactFlow.Selected | src/hooks/useReactFlow.ts:80 | Exactly the nodes whose id is listed are kept, in order, each as many times as in the list. |
| UseReactFlow.SelectedSizesNonNegative | src/hooks/useReactFlow.ts:80-91 | Selecting nodes keeps the non-negative-size property, so fitToNodes' requirement holds whenever no node at all has a negative size. |
| UseReactFlow.FitZoom | src/hooks/useReactFlow.ts:107-109 | The zoom is at most 1.5 and at most both per-axis fit ratios, and it equals one of the three. |
| UseReactFlow.FitSelection | src/hooks/useReactFlow.ts:83-121 | For a non-empty selection, the zoom is the fit zoom of the selection's bounds, and the bounds' centre lands at the window centre. |
| UseReactFlow.FitToNodes | src/hooks/useReactFlow.ts:75-122 | When no listed id names a node, nothing changes; otherwise the zoom is at most 1.5. |
| UseReactFlow.FitToNodesCentres | src/hooks/useReactFlow.ts:75-122 | When some listed id names a node, the zoom is the fit zoom of the selected nodes' bounds, and their centre lands at the window centre. |
| UseReactFlow.PanTo | src/hooks/useReactFlow.ts:127-134 | The zoom is kept and the given flow point lands at the window centre. |
| ThemeContext.DeepMerge | src/contexts/ThemeContext.tsx:24-48 | Keys absent or undefined in the partial keep the current value. Where both values are plain objects, they merge one level deep: source sub-keys win and other target sub-keys survive. Otherwise the source value replaces the target value. |
| ThemeContext.MergeEmpty | src/contexts/ThemeContext.tsx:24-48 | Merging an empty partial returns the theme. |
| ThemeContext.MergeIdempotent | src/contexts/ThemeContext.tsx:24-48 | Merging the same partial twice equals merging it once. |
| ThemeContext.SetTheme | src/contexts/ThemeContext.tsx:71-73 | The new theme is `deepMerge(current, partial)`: it gains the partial's defined keys, each set to the merge of the current value with the partial's, and keeps every value the partial does not mention. |
| ThemeContext.SetThemeIdempotent | src/contexts/ThemeContext.tsx:71-73 | Setting the same partial twice equals setting it once. |
| ThemeContext.UseFlowTheme | src/contexts/ThemeContext.tsx:107-115 | Outside a provider the hook fails; inside one it returns the provider's state. |
| ThemeContext.UseFlowThemeSafe | src/contexts/ThemeContext.tsx:136-139 | The provider's theme is returned, or the default theme outside a provider. |
| ThemeContext.SafeAgreesInProvider | src/contexts/ThemeContext.tsx:107-139 | Wherever `useFlowTheme` succeeds, the safe variant returns the same theme. |
| BezierEdge.LabelOf | src/components/BezierEdge.tsx:38 | The label is `data.label` when present, else "". |
| BezierEdge.NodeBox | src/components/BezierEdge.tsx:76-77 | A node's box is its position with the size from `getNodeSize`. |
| BezierEdge.HandleOffsetOf | src/components/BezierEdge.tsx:89-98 | `handleOffset \|\| 5`: a truthy offset is used, otherwise 5. |
| BezierEdge.EdgeEndpoints | src/components/BezierEdge.tsx:74-108 | Each end is the handle anchor on its side of its node's box (sides default to right/left). The curve is the default-curvature cubic between the two ends. |
| BezierEdge.DefaultEndpoints | src/components/BezierEdge.tsx:80-99 | With no handles and no offsets, the edge runs from 5 px right of the source box to 5 px left of the target box, both at mid-height. |
| BezierEdge.ZeroOffsetIsDefault | src/components/BezierEdge.tsx:89 | A handle offset of 0 is falsy and is drawn as 5. |
| BezierEdge.InitialEditor | src/components/BezierEdge.tsx:37-38 | The editor starts closed, holding the current label. |
| BezierEdge.DoubleClick | src/components/BezierEdge.tsx:48-172 | Double-clicking a shown, non-empty label opens the editor seeded with it. The double-click target is drawn only for a non-empty label with the editor closed, so otherwise nothing changes. |
| BezierEdge.TypeText | src/components/BezierEdge.tsx:132-144 | Typing replaces the text of the open editor; a closed editor, which has no input, is unchanged. |
| BezierEdge.Submit | src/components/BezierEdge.tsx:54-144 | Committing closes the editor. It reports (edge id, edited text) exactly when the editor was open and a listener is attached; a closed editor, which has no input to blur, is unchanged. |
| BezierEdge.Cancel | src/components/BezierEdge.tsx:61-64 | Cancelling closes the editor, restores the current label and reports nothing. |
| BezierEdge.KeyDown | src/components/BezierEdge.tsx:54-144 | A closed editor has no input and ignores keys. In the open editor, Enter is exactly Submit: it closes the editor, keeps the typed text, and reports (edge id, typed text) to an attached listener. Escape is exactly Cancel: it restores the label and reports nothing. Any other key changes nothing. |
| BezierEdge.EditingShowsLabel | src/components/BezierEdge.tsx:130-172 | After a double-click the editor is open exactly when the label was drawn before it; a double-click never reveals a hidden label. |
| BezierEdge.UnlabelledEdgeStaysClosed | src/components/BezierEdge.tsx:130-172 | An edge without a label never opens its editor, however many double-clicks it gets. |
| BezierEdge.EditThenEnter | src/components/BezierEdge.tsx:48-172 | Double-click a drawn label, type a text, press Enter: the editor opened, and exactly that text is reported for this edge. |
| BezierEdge.EditThenEscape | src/components/BezierEdge.tsx:48-172 | Double-click a drawn label, type, press Escape: nothing is reported and the editor is back at its initial state. |
| BezierEdge.ReportsOnlyWhenOpen | src/components/BezierEdge.tsx:54-144 | A label change is reported only by Enter or a commit from an open editor with a listener attached. |
| BezierEdge.UnlabelledEdgeNeverReports | src/components/BezierEdge.tsx:48-172 | An unlabelled edge never reports a label change, whatever double-clicks, typing and keys it receives. |
| NodeRenderer.Render | src/components/NodeRenderer.tsx:28-61 | A custom component is used iff the node's type is non-empty and registered. It receives every field of the node (id, type, data, position, selected, width, height, shape, handleOffset), with connectable/draggable/selectable renamed to isConnectable/isDraggable/isSelectable. Otherwise the built-in node is rendered for the node. |
| NodeRenderer.UntypedNodeIsBuiltIn | src/components/NodeRenderer.tsx:29 | A node without a type is built in, whatever is registered (including a "default" entry). |
| NodeRenderer.UnregisteredTypeIsBuiltIn | src/components/NodeRenderer.tsx:29-61 | A type missing from the registry, or no registry at all, gives the built-in node. |
| FlowCanvas.UpdateNodePosition | src/components/FlowCanvas.tsx:77-88 | Only nodes with the id move, and only their position changes; length and order are kept. |
| FlowCanvas.FindAfterMove | src/components/FlowCanvas.tsx:77-88 | After a move, the node is found at its new position and lookups of other ids are unchanged. |
| FlowCanvas.UpdateEdgeLabel | src/components/FlowCanvas.tsx:90-104 | Only matching edges change, and only in `data`: the label is set and every other data key is kept. |
| FlowCanvas.RelabelShows | src/components/FlowCanvas.tsx:90-104 | A relabelled edge shows exactly the new label. |
| FlowCanvas.NewEdge | src/components/FlowCanvas.tsx:50-56 | The new edge has id "e{source}-{target}" and carries the connection's ends and handles. |
| FlowCanvas.NewEdgeIdsCollide | src/components/FlowCanvas.tsx:51 | The id scheme is not injective: ("a-b", "c") and ("a", "b-c") get the same id. |
| FlowCanvas.ConnectionStart | src/components/FlowCanvas.tsx:106-119 | With a container, a connection starts from the node and handle at the flow point that maps back to the pointer. Without one, nothing changes. |
| FlowCanvas.MouseMove | src/components/FlowCanvas.tsx:145-164 | While connecting, only the loose end moves, to the flow point under the pointer. Otherwise nothing changes. |
| FlowCanvas.ConnectionEnd | src/components/FlowCanvas.tsx:50-128 | While connecting, the state returns to idle. Exactly when the connection may be made, one non-self-loop edge is appended: `NewEdge` of the recorded source node and handle and the target node and handle, with id "e{source}-{target}". Nodes, viewport and drag are untouched. |
| FlowCanvas.MountedCanvasAtRest | src/components/FlowCanvas.tsx:20-193 | A freshly mounted canvas ignores pointer moves, releases and handle drops until a handle or the background is pressed. |
| FlowCanvas.MouseUp | src/components/FlowCanvas.tsx:166-170 | Releasing or leaving the canvas cancels a connection in progress, and nothing else. |
| FlowCanvas.MouseDown | src/components/FlowCanvas.tsx:130-143 | With a container, a background drag starts at the pointer's container position; only the drag state changes. |
| FlowCanvas.GlobalMouseMove | src/components/FlowCanvas.tsx:174-187 | During a drag, the viewport pans by the pointer's move since its last position, and that position is updated. Outside a drag nothing changes. Lists, connection and zoom are never touched. |
| FlowCanvas.GlobalMouseUp | src/components/FlowCanvas.tsx:189-193 | The drag ends and nothing else changes. |
| FlowCanvas.GlobalMovesPan | src/components/FlowCanvas.tsx:172-204 | During a drag, a run of moves pans by the pointer's displacement since its last position. |
| FlowCanvas.BackgroundDragPans | src/components/FlowCanvas.tsx:130-204 | Press then moves: the net pan equals the pointer's net displacement, whatever the container's position. |
| FlowCanvas.HandleWheel | src/components/FlowCanvas.tsx:206-246 | With the zoom modifier, the zoom steps −0.1 for deltaY > 0 and +0.1 otherwise, clamped, with the flow point under the pointer fixed. With Shift, x pans by −(deltaX \|\| deltaY) and y stays. Otherwise the pan is (−deltaX, −deltaY). |
| FlowCanvas.RenderedEdges | src/components/FlowCanvas.tsx:314-330 | The edges drawn are exactly those whose two endpoint nodes exist, in order, duplicates included. |
| FlowCanvas.ZoomStaysInRange | src/components/FlowCanvas.tsx:20-246 | The canvas zoom starts in [0.1, 2] and every canvas event keeps it there, so it is never 0 on a reachable canvas. |
| FlowCanvas.RenderEdge | src/components/FlowCanvas.tsx:314-330 | An edge is drawn iff both endpoint nodes exist, and then between the first nodes with those ids. |

## Left out

- JSX, styling beyond the size, position and corner rounding, and DOM plumbing are not modelled. The container rectangle, `isMac` and the window size are parameters. Document listener registration, `preventDefault` and the callbacks to the embedding application are not modelled.
- The node drag wrappers (`DraggableNode`, `DraggableWrapper`, `NodeWithHandles`) are not part of this model. The coordinate map they use is `UseViewport.ScreenToFlowPosition`.
- Floating point: numbers are reals, so rounding, `NaN` and infinities do not exist. In particular ten zoom steps land exactly on round values here.
- `distance` in src/utils/geometry.ts:9-11 needs a square root and is not modelled.
- SVG path strings are not modelled; a path is a start point plus segment datatypes carrying the same coordinates.
- React scheduling is not modelled: stale closures, batched `setState` updaters, and props re-synchronising the canvas's lists (FlowCanvas.tsx:69-75). Each callback is a synchronous transition on the current state.
- UseViewport.ScreenToFlowPosition: requires a non-zero zoom, because the source divides by it and reals have no Infinity.
- UseViewport.ZoomToPoint: requires a non-zero zoom, for the same reason.
- FlowCanvas.HandleWheel: requires a non-zero zoom in the zoom branch, for the same reason. `FlowCanvas.ZoomStaysInRange` shows this and the next two requirements hold on every canvas reachable from the mounted one.
- FlowCanvas.ConnectionStart: requires a non-zero zoom when a container exists, for the same reason.
- FlowCanvas.MouseMove: requires a non-zero zoom while connecting with a container, for the same reason.
- UseReactFlow.FitToNodes: requires every selected node's width and height to be non-negative, which gives the joint box a positive extent. With a negative selected size the extent can be zero, where the source divides by zero, or negative, which gives a negative zoom. Unselected nodes are not constrained.
- UseReactFlow.FitToNodesCentres: requires the same of the selected nodes.
- UseReactFlow.FitSelection: requires the same, and a non-empty selection, which fitToNodes checks before this point.
- Default arguments (`zoomLevel = 1.5` of zoomToNode, `padding = 50` of fitToNodes, `borderRadius = 5` and `offset = 20` of getSmoothStepPath) are not modelled as defaults: callers pass every argument.
- `data` of nodes and edges is a map from strings to strings. A non-string `data.label` (such as `0`), and the truthiness test on it in BezierEdge.tsx, are not modelled; `LabelOf` treats a missing or empty label as "".
- NodeRenderer.Render: the registry is a map from type names to component names. Inherited object keys and falsy registry entries do not occur.
- NodeSize.GetNodeStyles: the `isDragging`-dependent styles (shadow, scale, cursor, z-index) and the selection border are not modelled.
- ThemeContext.DeepMerge: values are modelled as the merge can distinguish them (plain object, array, null, undefined, primitive). Inherited enumerable keys seen by `for..in` are not modelled.
- Theme constants (src/themes/index.ts), the controls panel and the development overlay have no behaviour to model.
