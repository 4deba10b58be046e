/**
 * src/components/FlowCanvas.tsx, its state updates only: the canvas's node and
 * edge lists, its viewport, the background drag and the connection drag, and
 * what each pointer or wheel event does to them.  The container's top-left
 * corner (from `getBoundingClientRect`, absent while unmounted) and the
 * platform test `isMac` are parameters.
 */
module FlowCanvas {
  import opened Options
  import opened Types
  import Js
  import Seqs
  import UseViewport
  import UseDrag
  import UseConnection
  import BezierEdge

  // ---- node and edge list updaters ----

  /** Move every node with id `nodeId` to `p`; nothing else about any node changes. */
  function UpdateNodePosition(nodes: seq<Node>, nodeId: string, p: Position): (r: seq<Node>)
    ensures |r| == |nodes|
    ensures forall i :: 0 <= i < |nodes| ==> r[i].(position := nodes[i].position) == nodes[i]
    ensures forall i :: 0 <= i < |nodes| && nodes[i].id == nodeId ==> r[i].position == p
    ensures forall i :: 0 <= i < |nodes| && nodes[i].id != nodeId ==> r[i] == nodes[i]
  {
    seq(|nodes|, i requires 0 <= i < |nodes| =>
      if nodes[i].id == nodeId then nodes[i].(position := p) else nodes[i])
  }

  /** After a move, looking the node up finds it at its new position; other ids find what they found before. */
  lemma {:induction false} FindAfterMove(nodes: seq<Node>, nodeId: string, p: Position, other: string)
    ensures FindNode(UpdateNodePosition(nodes, nodeId, p), nodeId)
         == (match FindNode(nodes, nodeId) case None => None case Some(n) => Some(n.(position := p)))
    ensures other != nodeId ==> FindNode(UpdateNodePosition(nodes, nodeId, p), other) == FindNode(nodes, other)
    decreases |nodes|
  {
    if |nodes| > 0 {
      assert UpdateNodePosition(nodes, nodeId, p)[1..] == UpdateNodePosition(nodes[1..], nodeId, p);
      FindAfterMove(nodes[1..], nodeId, p, other);
    }
  }

  /** `{ ...edge.data, label }`: the edge's data with `label` set and every other key kept. */
  predicate Relabelled(before: Option<map<string, string>>, after: Option<map<string, string>>, newLabel: string) {
    && after.Some?
    && after.value.Keys == before.GetOr(map[]).Keys + {"label"}
    && after.value["label"] == newLabel
    && forall k :: k in before.GetOr(map[]) && k != "label" ==> after.value[k] == before.GetOr(map[])[k]
  }

  /** Set the label of every edge with id `edgeId`; other edges, and other fields, are unchanged. */
  function UpdateEdgeLabel(edges: seq<Edge>, edgeId: string, newLabel: string): (r: seq<Edge>)
    ensures |r| == |edges|
    ensures forall i :: 0 <= i < |edges| ==> r[i].(data := edges[i].data) == edges[i]
    ensures forall i :: 0 <= i < |edges| && edges[i].id == edgeId ==> Relabelled(edges[i].data, r[i].data, newLabel)
    ensures forall i :: 0 <= i < |edges| && edges[i].id != edgeId ==> r[i] == edges[i]
  {
    seq(|edges|, i requires 0 <= i < |edges| =>
      if edges[i].id == edgeId then edges[i].(data := Some(edges[i].data.GetOr(map[])["label" := newLabel]))
      else edges[i])
  }

  /** After a label change every edge with that id shows exactly the new label. */
  lemma RelabelShows(edges: seq<Edge>, edgeId: string, newLabel: string, i: int)
    requires 0 <= i < |edges| && edges[i].id == edgeId
    ensures BezierEdge.LabelOf(UpdateEdgeLabel(edges, edgeId, newLabel)[i]) == newLabel
  {
  }

  /** The edge a completed connection adds: id `e{source}-{target}`, carrying the two handles. */
  function NewEdge(c: UseConnection.Connection): (r: Edge)
    ensures r.id == "e" + c.source + "-" + c.target
    ensures r.source == c.source && r.target == c.target
    ensures r.sourceHandle == c.sourceHandle && r.targetHandle == c.targetHandle
    ensures r.data.None? && r.selected.None?
  {
    Edge("e" + c.source + "-" + c.target, c.source, c.target, c.sourceHandle, c.targetHandle, None, None)
  }

  /** The id scheme is not injective: a dash inside a node id lets two different connections share an edge id. */
  lemma NewEdgeIdsCollide()
    ensures var c1 := UseConnection.Connection("a-b", "c", None, None);
            var c2 := UseConnection.Connection("a", "b-c", None, None);
            c1 != c2 && NewEdge(c1).id == NewEdge(c2).id
  {
    assert "e" + "a-b" + "-" + "c" == "ea-b-c";
    assert "e" + "a" + "-" + "b-c" == "ea-b-c";
  }

  // ---- the canvas state and its events ----

  datatype Canvas = Canvas(
    nodes: seq<Node>,
    edges: seq<Edge>,
    viewport: Viewport,
    drag: UseDrag.DragState,
    connection: UseConnection.ConnectionState)

  /** The canvas as mounted with the given lists. */
  function InitialCanvas(nodes: seq<Node>, edges: seq<Edge>): Canvas {
    Canvas(nodes, edges, UseViewport.InitialViewport, UseDrag.Released, UseConnection.Idle)
  }

  /**
   * Until a handle or the background is pressed, a freshly mounted canvas
   * ignores pointer moves and releases.
   */
  lemma MountedCanvasAtRest(nodes: seq<Node>, edges: seq<Edge>, client: Position, rect: Option<Position>,
                            nodeId: string, handleId: string)
    ensures var c := InitialCanvas(nodes, edges);
            && MouseMove(c, client, rect) == c
            && MouseUp(c) == c
            && GlobalMouseMove(c, client, rect) == c
            && GlobalMouseUp(c) == c
            && ConnectionEnd(c, nodeId, handleId) == c
  {
  }

  /** Pointer position relative to the container. */
  function Local(client: Position, rect: Position): Position {
    client.Minus(rect)
  }

  /** A handle starts a connection at screen point `client`; it is recorded in flow coordinates. */
  function ConnectionStart(c: Canvas, nodeId: string, handleId: string, client: Position, rect: Option<Position>): (r: Canvas)
    requires rect.Some? ==> c.viewport.zoom != 0.0
    ensures rect.None? ==> r == c
    ensures rect.Some? ==>
              r.connection.isConnecting && r.connection.fromNode == Some(nodeId)
              && r.connection.fromHandle == Some(handleId)
              && r.connection.fromPosition.Some? && r.connection.toPosition == r.connection.fromPosition
              && UseViewport.FlowToScreenPosition(c.viewport, r.connection.fromPosition.value) == Local(client, rect.value)
    ensures r.(connection := c.connection) == c
  {
    match rect
    case None => c
    case Some(origin) =>
      c.(connection := UseConnection.StartConnection(c.connection, nodeId, handleId,
           UseViewport.ScreenToFlowPosition(c.viewport, Local(client, origin))))
  }

  /** The pointer moves over the canvas: while connecting, the loose end follows it. */
  function MouseMove(c: Canvas, client: Position, rect: Option<Position>): (r: Canvas)
    requires c.connection.isConnecting && rect.Some? ==> c.viewport.zoom != 0.0
    ensures !c.connection.isConnecting || rect.None? ==> r == c
    ensures c.connection.isConnecting && rect.Some? ==>
              r.connection.(toPosition := c.connection.toPosition) == c.connection
              && r.connection.toPosition.Some?
              && UseViewport.FlowToScreenPosition(c.viewport, r.connection.toPosition.value) == Local(client, rect.value)
    ensures r.(connection := c.connection) == c
  {
    if c.connection.isConnecting && rect.Some? then
      c.(connection := UseConnection.UpdateConnectionPosition(c.connection,
           UseViewport.ScreenToFlowPosition(c.viewport, Local(client, rect.value))))
    else c
  }

  /**
   * The pointer is released on handle `handleId` of node `nodeId`.  While
   * connecting, the connection completes; when it is emitted one edge is
   * appended, never a self-loop.
   */
  function ConnectionEnd(c: Canvas, nodeId: string, handleId: string): (r: Canvas)
    ensures !c.connection.isConnecting ==> r == c
    ensures c.connection.isConnecting ==> r.connection == UseConnection.Idle
    ensures r.nodes == c.nodes && r.viewport == c.viewport && r.drag == c.drag
    ensures c.connection.isConnecting && UseConnection.MayConnect(c.connection, nodeId) ==>
              |r.edges| == |c.edges| + 1 && r.edges[..|c.edges|] == c.edges
              && r.edges[|c.edges|].source == c.connection.fromNode.value
              && r.edges[|c.edges|].target == nodeId
              && r.edges[|c.edges|].source != r.edges[|c.edges|].target
              && r.edges[|c.edges|].id == "e" + c.connection.fromNode.value + "-" + nodeId
              && r.edges[|c.edges|].sourceHandle == c.connection.fromHandle
              && r.edges[|c.edges|].targetHandle == Some(handleId)
              && r.edges[|c.edges|] == NewEdge(UseConnection.Connection(c.connection.fromNode.value, nodeId,
                                                                        c.connection.fromHandle, Some(handleId)))
    ensures !UseConnection.MayConnect(c.connection, nodeId) ==> r.edges == c.edges
  {
    if !c.connection.isConnecting then c
    else
      var done := UseConnection.CompleteConnection(c.connection, nodeId, handleId);
      var edges := match done.emitted case None => c.edges case Some(conn) => c.edges + [NewEdge(conn)];
      c.(edges := edges, connection := done.state)
  }

  /** The pointer is released over, or leaves, the canvas background: a connection in progress is cancelled. */
  function MouseUp(c: Canvas): (r: Canvas)
    ensures !c.connection.isConnecting ==> r == c
    ensures c.connection.isConnecting ==> r == c.(connection := UseConnection.Idle)
  {
    if c.connection.isConnecting then c.(connection := UseConnection.CancelConnection(c.connection)) else c
  }

  // ---- background drag ----

  /** A press on the background starts a pan drag at the pointer's container position. */
  function MouseDown(c: Canvas, client: Position, rect: Option<Position>): (r: Canvas)
    ensures rect.None? ==> r == c
    ensures rect.Some? ==> r.drag.isDragging && r.drag.lastPosition == Some(Local(client, rect.value))
    ensures r.(drag := c.drag) == c
  {
    match rect
    case None => c
    case Some(origin) => c.(drag := UseDrag.DragStart(c.drag, Local(client, origin)))
  }

  /** A document-wide pointer move while dragging: the pointer's delta pans the viewport. */
  function GlobalMouseMove(c: Canvas, client: Position, rect: Option<Position>): (r: Canvas)
    ensures !c.drag.isDragging || rect.None? ==> r == c
    ensures r.nodes == c.nodes && r.edges == c.edges && r.connection == c.connection
    ensures r.viewport.zoom == c.viewport.zoom
    ensures c.drag.isDragging && c.drag.lastPosition.Some? && rect.Some? ==>
              r.viewport == UseViewport.PanBy(c.viewport, Local(client, rect.value).Minus(c.drag.lastPosition.value))
              && r.drag.isDragging && r.drag.lastPosition == Some(Local(client, rect.value))
  {
    if c.drag.isDragging && rect.Some? then
      var m := UseDrag.DragMove(c.drag, Local(client, rect.value));
      var v := match m.delta case None => c.viewport case Some(d) => UseViewport.PanBy(c.viewport, d);
      c.(drag := m.state, viewport := v)
    else c
  }

  /** A document-wide release ends the drag. */
  function GlobalMouseUp(c: Canvas): (r: Canvas)
    ensures !r.drag.isDragging
    ensures r.(drag := c.drag) == c
  {
    if c.drag.isDragging then c.(drag := UseDrag.DragEnd(c.drag)) else c
  }

  /** Feed document-wide pointer moves at client positions `ps`, in order. */
  function GlobalMoves(c: Canvas, ps: seq<Position>, rect: Position): Canvas
    decreases |ps|
  {
    if |ps| == 0 then c else GlobalMoves(GlobalMouseMove(c, ps[0], Some(rect)), ps[1..], rect)
  }

  /** While a drag is on, a run of moves pans the viewport by the pointer's displacement since the last position. */
  lemma {:induction false} GlobalMovesPan(c: Canvas, ps: seq<Position>, rect: Position)
    requires c.drag.isDragging && c.drag.lastPosition.Some?
    requires |ps| > 0
    ensures GlobalMoves(c, ps, rect).viewport
         == UseViewport.PanBy(c.viewport, Local(ps[|ps| - 1], rect).Minus(c.drag.lastPosition.value))
    ensures GlobalMoves(c, ps, rect).drag.lastPosition == Some(Local(ps[|ps| - 1], rect))
    ensures GlobalMoves(c, ps, rect).drag.isDragging
    decreases |ps|
  {
    var c1 := GlobalMouseMove(c, ps[0], Some(rect));
    if |ps| > 1 {
      GlobalMovesPan(c1, ps[1..], rect);
      UseViewport.PanByComposes(c.viewport, Local(ps[0], rect).Minus(c.drag.lastPosition.value),
                                Local(ps[|ps| - 1], rect).Minus(Local(ps[0], rect)));
    }
  }

  /**
   * Press on the background at `start`, move through `ps`: the viewport has
   * panned by exactly the pointer's net displacement, whatever the container's
   * position.
   */
  lemma BackgroundDragPans(c: Canvas, start: Position, ps: seq<Position>, rect: Position)
    requires |ps| > 0
    ensures GlobalMoves(MouseDown(c, start, Some(rect)), ps, rect).viewport
         == UseViewport.PanBy(c.viewport, ps[|ps| - 1].Minus(start))
  {
    GlobalMovesPan(MouseDown(c, start, Some(rect)), ps, rect);
    assert Local(ps[|ps| - 1], rect).Minus(Local(start, rect)) == ps[|ps| - 1].Minus(start);
  }

  // ---- wheel ----

  datatype WheelEvent = WheelEvent(
    deltaX: real, deltaY: real, clientX: real, clientY: real,
    metaKey: bool, ctrlKey: bool, shiftKey: bool)

  /** Cmd on a Mac, Ctrl elsewhere, turns the wheel into zoom. */
  predicate IsZooming(ev: WheelEvent, isMac: bool) {
    if isMac then ev.metaKey else ev.ctrlKey
  }

  /**
   * The wheel: with the zoom modifier, step the zoom (out for a positive
   * deltaY, else in) about the pointer, clamped to the zoom range; with Shift,
   * pan horizontally by `-(deltaX || deltaY)`; otherwise pan by
   * `(-deltaX, -deltaY)`.
   */
  function HandleWheel(v: Viewport, ev: WheelEvent, isMac: bool, rect: Option<Position>): (r: Viewport)
    requires IsZooming(ev, isMac) && rect.Some? ==> v.zoom != 0.0
    ensures IsZooming(ev, isMac) && rect.None? ==> r == v
    ensures IsZooming(ev, isMac) && rect.Some? ==>
              var pointer := Local(Position(ev.clientX, ev.clientY), rect.value);
              && r.zoom == (if ev.deltaY > 0.0 then UseViewport.ZoomOut(v).zoom else UseViewport.ZoomIn(v).zoom)
              && UseViewport.ScreenToFlowPosition(r, pointer) == UseViewport.ScreenToFlowPosition(v, pointer)
    ensures !IsZooming(ev, isMac) && ev.shiftKey ==>
              r.zoom == v.zoom && r.y == v.y
              && r.x == v.x - (if ev.deltaX != 0.0 then ev.deltaX else ev.deltaY)
    ensures !IsZooming(ev, isMac) && !ev.shiftKey ==>
              r == UseViewport.PanBy(v, Position(-ev.deltaX, -ev.deltaY))
  {
    if IsZooming(ev, isMac) then
      var delta := if ev.deltaY > 0.0 then -0.1 else 0.1;
      var newZoom := Js.Max(0.1, Js.Min(2.0, v.zoom + delta));
      match rect
      case None => v
      case Some(origin) =>
        UseViewport.ZoomToPoint(v, Position(ev.clientX - origin.x, ev.clientY - origin.y), newZoom)
    else
      var panSpeed := 1.0;
      if ev.shiftKey then
        var deltaX := Js.NumberOr(Some(ev.deltaX), ev.deltaY);
        UseViewport.PanBy(v, Position(-deltaX * panSpeed, 0.0))
      else
        UseViewport.PanBy(v, Position(-ev.deltaX * panSpeed, -ev.deltaY * panSpeed))
  }

  // ---- edge rendering ----

  /** The edges drawn: those whose source and target nodes both exist, in order. */
  function RenderedEdges(nodes: seq<Node>, edges: seq<Edge>): (r: seq<Edge>)
    ensures forall i :: 0 <= i < |r| ==> r[i] in edges && HasNode(nodes, r[i].source) && HasNode(nodes, r[i].target)
    ensures forall i :: 0 <= i < |edges| && HasNode(nodes, edges[i].source) && HasNode(nodes, edges[i].target) ==>
              edges[i] in r
    ensures Seqs.SubsequenceOf(r, edges)
    ensures forall e :: multiset(r)[e] == if HasNode(nodes, e.source) && HasNode(nodes, e.target) then multiset(edges)[e] else 0
  {
    Seqs.Filter((e: Edge) => FindNode(nodes, e.source).Some? && FindNode(nodes, e.target).Some?, edges)
  }

  /** How one edge is drawn: between the first nodes carrying its endpoint ids, or not at all. */
  function RenderEdge(nodes: seq<Node>, edge: Edge): (r: Option<BezierEdge.EdgeGeometry>)
    ensures r.Some? <==> HasNode(nodes, edge.source) && HasNode(nodes, edge.target)
    ensures r.Some? ==>
              r.value == BezierEdge.EdgeEndpoints(edge, FindNode(nodes, edge.source).value, FindNode(nodes, edge.target).value)
  {
    match (FindNode(nodes, edge.source), FindNode(nodes, edge.target))
    case (Some(s), Some(t)) => Some(BezierEdge.EdgeEndpoints(edge, s, t))
    case _ => None
  }

  // ---- the zoom range ----

  /**
   * The canvas's zoom starts in [0.1, 2] and every event keeps it there, so
   * the zoom is never 0 on a reachable canvas: the non-zero-zoom requirements
   * of `ConnectionStart`, `MouseMove` and `HandleWheel` always hold.
   */
  lemma ZoomStaysInRange(c: Canvas, nodes: seq<Node>, edges: seq<Edge>, nodeId: string, handleId: string,
                         client: Position, rect: Option<Position>, ev: WheelEvent, isMac: bool)
    ensures UseViewport.InZoomRange(InitialCanvas(nodes, edges).viewport.zoom)
    ensures UseViewport.InZoomRange(c.viewport.zoom) ==>
              c.viewport.zoom != 0.0
              && UseViewport.InZoomRange(ConnectionStart(c, nodeId, handleId, client, rect).viewport.zoom)
              && UseViewport.InZoomRange(MouseMove(c, client, rect).viewport.zoom)
              && UseViewport.InZoomRange(ConnectionEnd(c, nodeId, handleId).viewport.zoom)
              && UseViewport.InZoomRange(MouseUp(c).viewport.zoom)
              && UseViewport.InZoomRange(MouseDown(c, client, rect).viewport.zoom)
              && UseViewport.InZoomRange(GlobalMouseMove(c, client, rect).viewport.zoom)
              && UseViewport.InZoomRange(GlobalMouseUp(c).viewport.zoom)
              && UseViewport.InZoomRange(HandleWheel(c.viewport, ev, isMac, rect).zoom)
  {
  }
}
