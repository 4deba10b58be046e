/**
 * src/hooks/useViewport.ts: every viewport update as a pure
 * viewport-to-viewport function, and the two coordinate maps between the
 * screen (container pixels) and the flow (diagram) plane.
 *
 * A flow point `f` is drawn at screen point `f * zoom + (x, y)`.
 */
module UseViewport {
  import opened Types
  import Js

  const MinZoom: real := 0.1
  const MaxZoom: real := 2.0
  const ZoomStep: real := 0.1

  /** The viewport the hook starts from when none is given. */
  const InitialViewport := Viewport(0.0, 0.0, 1.0)

  predicate InZoomRange(z: real) {
    MinZoom <= z <= MaxZoom
  }

  /** Clamps a zoom factor into [MinZoom, MaxZoom]. */
  function ClampZoom(zoom: real): (r: real)
    ensures InZoomRange(r)
    ensures InZoomRange(zoom) ==> r == zoom
    ensures zoom < MinZoom ==> r == MinZoom
    ensures zoom > MaxZoom ==> r == MaxZoom
  {
    Js.Max(MinZoom, Js.Min(MaxZoom, zoom))
  }

  /** One zoom step in; the pan is kept. */
  function ZoomIn(v: Viewport): (r: Viewport)
    ensures r.x == v.x && r.y == v.y
    ensures InZoomRange(r.zoom)
    ensures MinZoom - ZoomStep <= v.zoom <= MaxZoom - ZoomStep ==> r.zoom == v.zoom + ZoomStep
    ensures v.zoom > MaxZoom - ZoomStep ==> r.zoom == MaxZoom
    ensures v.zoom < MinZoom - ZoomStep ==> r.zoom == MinZoom
  {
    v.(zoom := ClampZoom(v.zoom + ZoomStep))
  }

  /** One zoom step out; the pan is kept. */
  function ZoomOut(v: Viewport): (r: Viewport)
    ensures r.x == v.x && r.y == v.y
    ensures InZoomRange(r.zoom)
    ensures MinZoom + ZoomStep <= v.zoom <= MaxZoom + ZoomStep ==> r.zoom == v.zoom - ZoomStep
    ensures v.zoom < MinZoom + ZoomStep ==> r.zoom == MinZoom
    ensures v.zoom > MaxZoom + ZoomStep ==> r.zoom == MaxZoom
  {
    v.(zoom := ClampZoom(v.zoom - ZoomStep))
  }

  /** Inside the range, a step out undoes a step in and vice versa. */
  lemma ZoomStepsCancel(v: Viewport)
    ensures MinZoom <= v.zoom <= MaxZoom - ZoomStep ==> ZoomOut(ZoomIn(v)) == v
    ensures MinZoom + ZoomStep <= v.zoom <= MaxZoom ==> ZoomIn(ZoomOut(v)) == v
  {
  }

  /** Zoom back to 1 and keep the pan. */
  function ResetZoom(v: Viewport): (r: Viewport)
    ensures r.x == v.x && r.y == v.y
    ensures r.zoom == 1.0
  {
    v.(zoom := 1.0)
  }

  /** Back to the initial view, whatever the current one. */
  function FitView(v: Viewport): (r: Viewport)
    ensures r == InitialViewport
  {
    Viewport(0.0, 0.0, 1.0)
  }

  /** Shift the pan by `delta` screen pixels; the zoom is kept. */
  function PanBy(v: Viewport, delta: Position): (r: Viewport)
    ensures r.zoom == v.zoom
    ensures r.x - v.x == delta.x && r.y - v.y == delta.y
  {
    v.(x := v.x + delta.x, y := v.y + delta.y)
  }

  /** Two pans compose into one pan by the summed delta. */
  lemma PanByComposes(v: Viewport, a: Position, b: Position)
    ensures PanBy(PanBy(v, a), b) == PanBy(v, a.Plus(b))
  {
  }

  /** The flow point drawn at screen point `p`. */
  function ScreenToFlowPosition(v: Viewport, p: Position): (r: Position)
    requires v.zoom != 0.0
    ensures r.x * v.zoom + v.x == p.x && r.y * v.zoom + v.y == p.y
  {
    Position((p.x - v.x) / v.zoom, (p.y - v.y) / v.zoom)
  }

  /** The screen point at which flow point `f` is drawn. */
  function FlowToScreenPosition(v: Viewport, f: Position): (r: Position)
    ensures v.zoom != 0.0 ==> (r.x - v.x) / v.zoom == f.x && (r.y - v.y) / v.zoom == f.y
  {
    Position(f.x * v.zoom + v.x, f.y * v.zoom + v.y)
  }

  /** Screen -> flow -> screen is the identity. */
  lemma ScreenFlowScreen(v: Viewport, p: Position)
    requires v.zoom != 0.0
    ensures FlowToScreenPosition(v, ScreenToFlowPosition(v, p)) == p
  {
  }

  /** Flow -> screen -> flow is the identity. */
  lemma FlowScreenFlow(v: Viewport, f: Position)
    requires v.zoom != 0.0
    ensures ScreenToFlowPosition(v, FlowToScreenPosition(v, f)) == f
  {
  }

  /**
   * Zoom to `newZoom` (clamped) about the screen point `point`: the flow point
   * under `point` stays under it.
   */
  function ZoomToPoint(v: Viewport, point: Position, newZoom: real): (r: Viewport)
    requires v.zoom != 0.0
    ensures InZoomRange(r.zoom)
    ensures InZoomRange(newZoom) ==> r.zoom == newZoom
    ensures newZoom < MinZoom ==> r.zoom == MinZoom
    ensures newZoom > MaxZoom ==> r.zoom == MaxZoom
    ensures ScreenToFlowPosition(r, point) == ScreenToFlowPosition(v, point)
  {
    var clamped := ClampZoom(newZoom);
    var world := Position((point.x - v.x) / v.zoom, (point.y - v.y) / v.zoom);
    var r := Viewport(point.x - world.x * clamped, point.y - world.y * clamped, clamped);
    assert ScreenToFlowPosition(r, point) == world by {
      assert (point.x - r.x) == world.x * clamped;
      assert (point.y - r.y) == world.y * clamped;
    }
    r
  }
}
