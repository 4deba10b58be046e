/**
 * src/hooks/useReactFlow.ts: the viewport moves that look at nodes.  The
 * browser window's inner size, read from `window` in the source, is a
 * parameter here.
 */
module UseReactFlow {
  import opened Options
  import opened Types
  import Js
  import Seqs
  import UseViewport

  datatype WindowSize = WindowSize(width: real, height: real) {
    function Center(): Position {
      Position(width / 2.0, height / 2.0)
    }
  }

  const MaxFitZoom: real := 1.5

  /**
   * The viewport at zoom `zoom` that draws flow point `p` at the window's
   * centre: pan = window centre - p * zoom.  zoomToNode, fitToNodes and panTo
   * all end with this computation.
   */
  function CenterOn(p: Position, zoom: real, win: WindowSize): (r: Viewport)
    ensures r.zoom == zoom
    ensures UseViewport.FlowToScreenPosition(r, p) == win.Center()
  {
    Viewport(win.width / 2.0 - p.x * zoom, win.height / 2.0 - p.y * zoom, zoom)
  }

  /** The box these moves assume for a node: its own size, or 150 by 100 for a missing or zero dimension. */
  function AssumedBox(n: Node): Rect {
    Rect(n.position.x, n.position.y, Js.NumberOr(n.width, 150.0), Js.NumberOr(n.height, 100.0))
  }

  /**
   * Centre node `nodeId` in the window at zoom `zoomLevel`; an unknown id
   * leaves the viewport as it is.
   */
  function ZoomToNode(v: Viewport, nodeId: string, nodes: seq<Node>, zoomLevel: real, win: WindowSize): (r: Viewport)
    ensures !HasNode(nodes, nodeId) ==> r == v
    ensures HasNode(nodes, nodeId) ==>
              r.zoom == zoomLevel
              && UseViewport.FlowToScreenPosition(r, AssumedBox(FindNode(nodes, nodeId).value).Center()) == win.Center()
  {
    match FindNode(nodes, nodeId)
    case None => v
    case Some(node) =>
      CenterOn(AssumedBox(node).Center(), zoomLevel, win)
  }

  /** No dimension is negative (a missing or zero one falls back to the default). */
  predicate SizesNonNegative(nodes: seq<Node>) {
    forall i :: 0 <= i < |nodes| ==> Js.NumberOr(nodes[i].width, 150.0) >= 0.0 && Js.NumberOr(nodes[i].height, 100.0) >= 0.0
  }

  function Lefts(ns: seq<Node>): (r: seq<real>)
    ensures |r| == |ns| && forall i :: 0 <= i < |ns| ==> r[i] == AssumedBox(ns[i]).x
  {
    seq(|ns|, i requires 0 <= i < |ns| => AssumedBox(ns[i]).x)
  }

  function Rights(ns: seq<Node>): (r: seq<real>)
    ensures |r| == |ns| && forall i :: 0 <= i < |ns| ==> r[i] == AssumedBox(ns[i]).x + AssumedBox(ns[i]).width
  {
    seq(|ns|, i requires 0 <= i < |ns| => AssumedBox(ns[i]).x + AssumedBox(ns[i]).width)
  }

  function Tops(ns: seq<Node>): (r: seq<real>)
    ensures |r| == |ns| && forall i :: 0 <= i < |ns| ==> r[i] == AssumedBox(ns[i]).y
  {
    seq(|ns|, i requires 0 <= i < |ns| => AssumedBox(ns[i]).y)
  }

  function Bottoms(ns: seq<Node>): (r: seq<real>)
    ensures |r| == |ns| && forall i :: 0 <= i < |ns| ==> r[i] == AssumedBox(ns[i]).y + AssumedBox(ns[i]).height
  {
    seq(|ns|, i requires 0 <= i < |ns| => AssumedBox(ns[i]).y + AssumedBox(ns[i]).height)
  }

  /** The box spanning the assumed boxes of the nodes: every one lies inside it and it touches each extreme. */
  function NodesBounds(ns: seq<Node>): (r: Rect)
    requires |ns| > 0
    ensures SizesNonNegative(ns) ==> r.width > 0.0 && r.height > 0.0
    ensures forall i :: 0 <= i < |ns| ==>
              r.x <= AssumedBox(ns[i]).x && AssumedBox(ns[i]).x + AssumedBox(ns[i]).width <= r.x + r.width
              && r.y <= AssumedBox(ns[i]).y && AssumedBox(ns[i]).y + AssumedBox(ns[i]).height <= r.y + r.height
    ensures exists i :: 0 <= i < |ns| && AssumedBox(ns[i]).x == r.x
    ensures exists i :: 0 <= i < |ns| && AssumedBox(ns[i]).x + AssumedBox(ns[i]).width == r.x + r.width
    ensures exists i :: 0 <= i < |ns| && AssumedBox(ns[i]).y == r.y
    ensures exists i :: 0 <= i < |ns| && AssumedBox(ns[i]).y + AssumedBox(ns[i]).height == r.y + r.height
  {
    var minX := Seqs.SeqMin(Lefts(ns));
    var maxX := Seqs.SeqMax(Rights(ns));
    var minY := Seqs.SeqMin(Tops(ns));
    var maxY := Seqs.SeqMax(Bottoms(ns));
    assert SizesNonNegative(ns) ==> minX <= Lefts(ns)[0] < Rights(ns)[0] <= maxX;
    assert SizesNonNegative(ns) ==> minY <= Tops(ns)[0] < Bottoms(ns)[0] <= maxY;
    Rect(minX, minY, maxX - minX, maxY - minY)
  }

  /** The nodes whose id is listed in `nodeIds`, in node order. */
  function Selected(nodeIds: seq<string>, nodes: seq<Node>): (r: seq<Node>)
    ensures forall i :: 0 <= i < |r| ==> r[i] in nodes && r[i].id in nodeIds
    ensures forall i :: 0 <= i < |nodes| && nodes[i].id in nodeIds ==> nodes[i] in r
    ensures Seqs.SubsequenceOf(r, nodes)
    ensures forall n :: multiset(r)[n] == if n.id in nodeIds then multiset(nodes)[n] else 0
  {
    Seqs.Filter((n: Node) => n.id in nodeIds, nodes)
  }

  lemma SelectedSizesNonNegative(nodeIds: seq<string>, nodes: seq<Node>)
    requires SizesNonNegative(nodes)
    ensures SizesNonNegative(Selected(nodeIds, nodes))
  {
    var targets := Selected(nodeIds, nodes);
    forall i | 0 <= i < |targets|
      ensures Js.NumberOr(targets[i].width, 150.0) >= 0.0 && Js.NumberOr(targets[i].height, 100.0) >= 0.0
    {
      var k :| 0 <= k < |nodes| && nodes[k] == targets[i];
    }
  }

  /** The zoom at which `bounds` fits the window with `padding` on every side, at most 1.5. */
  function FitZoom(bounds: Rect, padding: real, win: WindowSize): (z: real)
    requires bounds.width > 0.0 && bounds.height > 0.0
    ensures z <= MaxFitZoom
    ensures z <= (win.width - padding * 2.0) / bounds.width
    ensures z <= (win.height - padding * 2.0) / bounds.height
    ensures z == MaxFitZoom || z == (win.width - padding * 2.0) / bounds.width
            || z == (win.height - padding * 2.0) / bounds.height
  {
    var zoomX := (win.width - padding * 2.0) / bounds.width;
    var zoomY := (win.height - padding * 2.0) / bounds.height;
    Js.Min(Js.Min(zoomX, zoomY), MaxFitZoom)
  }

  /**
   * Fit a non-empty list of nodes into the window: the zoom is the largest
   * that fits their joint box with `padding` on each side, capped at 1.5, and
   * the box's centre lands on the window's centre.
   */
  function FitSelection(targets: seq<Node>, padding: real, win: WindowSize): (r: Viewport)
    requires |targets| > 0 && SizesNonNegative(targets)
    ensures r.zoom == FitZoom(NodesBounds(targets), padding, win)
    ensures UseViewport.FlowToScreenPosition(r, NodesBounds(targets).Center()) == win.Center()
  {
    var bounds := NodesBounds(targets);
    var newZoom := FitZoom(bounds, padding, win);
    CenterOn(bounds.Center(), newZoom, win)
  }

  /**
   * `fitToNodes(nodeIds, nodes, padding)`: fit the nodes whose id is listed.
   * When no listed id names a node the viewport is left alone; otherwise the
   * zoom never exceeds 1.5.
   */
  function FitToNodes(v: Viewport, nodeIds: seq<string>, nodes: seq<Node>, padding: real, win: WindowSize): (r: Viewport)
    requires SizesNonNegative(Selected(nodeIds, nodes))
    ensures (forall i :: 0 <= i < |nodes| ==> nodes[i].id !in nodeIds) ==> r == v
    ensures r == v || r.zoom <= MaxFitZoom
  {
    var targets := Selected(nodeIds, nodes);
    if |targets| == 0 then v
    else FitSelection(targets, padding, win)
  }

  /** When some listed id names a node, fitToNodes centres the selected nodes' joint box at the fit zoom. */
  lemma FitToNodesCentres(v: Viewport, nodeIds: seq<string>, nodes: seq<Node>, padding: real, win: WindowSize)
    requires SizesNonNegative(Selected(nodeIds, nodes))
    requires |Selected(nodeIds, nodes)| > 0
    ensures var bounds := NodesBounds(Selected(nodeIds, nodes));
            && FitToNodes(v, nodeIds, nodes, padding, win).zoom == FitZoom(bounds, padding, win)
            && UseViewport.FlowToScreenPosition(FitToNodes(v, nodeIds, nodes, padding, win), bounds.Center()) == win.Center()
  {
  }

  /** Keep the zoom and pan so that flow point `p` sits at the window's centre. */
  function PanTo(v: Viewport, p: Position, win: WindowSize): (r: Viewport)
    ensures r.zoom == v.zoom
    ensures UseViewport.FlowToScreenPosition(r, p) == win.Center()
  {
    var r := v.(x := -p.x * v.zoom + win.width / 2.0, y := -p.y * v.zoom + win.height / 2.0);
    assert r == CenterOn(p, v.zoom, win);
    r
  }
}
