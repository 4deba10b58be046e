/**
 * src/utils/bezier.ts: control points, handle anchors, cubic Bézier
 * evaluation and the two edge paths.  A path is kept as its start point and
 * segments rather than as an SVG string.
 */
module Bezier {
  import opened Options
  import opened Types
  import Js

  /** One path command; every segment ends at `p`. */
  datatype Segment =
    | LineTo(p: Position)
    | QuadTo(control: Position, p: Position)
    | CubicTo(c1: Position, c2: Position, p: Position)

  datatype Path = Path(start: Position, segments: seq<Segment>) {
    function End(): Position {
      if |segments| == 0 then start else segments[|segments| - 1].p
    }
  }

  /** A path together with the point its label is drawn at. */
  datatype PathInfo = PathInfo(path: Path, labelPoint: Position)

  const DefaultCurvature: real := 0.25
  const StepCurvature: real := 0.5

  /** How far `to` lies from `from` in the outward direction of `side` (zero for `Other`). */
  function Outward(side: Side, from: Position, to: Position): real {
    match side
    case Top => from.y - to.y
    case Right => to.x - from.x
    case Bottom => to.y - from.y
    case Left => from.x - to.x
    case Other => 0.0
  }

  /** `to` differs from `from` only along the axis `side` points along (not at all for `Other`). */
  predicate OnAxis(side: Side, from: Position, to: Position) {
    match side
    case Top | Bottom => to.x == from.x
    case Left | Right => to.y == from.y
    case Other => to == from
  }

  /** The push distance: `offset` when truthy, otherwise `max(|x|, |y|) * curvature`. */
  function ControlDistance(p: Position, curvature: real, offset: Option<real>): real {
    Js.NumberOr(offset, Js.Max(Js.Abs(p.x), Js.Abs(p.y)) * curvature)
  }

  /**
   * The control point of an edge end at `p` leaving through `side`: `p` pushed
   * outward along that side's axis by the control distance, or `p` itself for an
   * unknown side.
   */
  function GetControlPoint(p: Position, side: Side, curvature: real, offset: Option<real>): (r: Position)
    ensures OnAxis(side, p, r)
    ensures side != Other ==> Outward(side, p, r) == ControlDistance(p, curvature, offset)
  {
    var d := ControlDistance(p, curvature, offset);
    match side
    case Top => Position(p.x, p.y - d)
    case Right => Position(p.x + d, p.y)
    case Bottom => Position(p.x, p.y + d)
    case Left => Position(p.x - d, p.y)
    case Other => p
  }

  /** With a non-negative curvature and no explicit offset the push is never inward. */
  lemma ControlPointOutward(p: Position, side: Side, curvature: real)
    requires curvature >= 0.0
    ensures Outward(side, p, GetControlPoint(p, side, curvature, None)) >= 0.0
  {
    var m := Js.Max(Js.Abs(p.x), Js.Abs(p.y));
    assert m >= 0.0;
    assert m * curvature >= 0.0;
  }

  /** The midpoint of the given side of `box`; its centre for `Other`. */
  function SideMidpoint(box: Rect, side: Side): Position {
    match side
    case Top => Position(box.x + box.width / 2.0, box.y)
    case Right => Position(box.x + box.width, box.y + box.height / 2.0)
    case Bottom => Position(box.x + box.width / 2.0, box.y + box.height)
    case Left => Position(box.x, box.y + box.height / 2.0)
    case Other => box.Center()
  }

  /**
   * The anchor of a handle on `side` of a node box: centred on that side and
   * `handleOffset` outside it; the box centre for an unknown side.
   */
  function GetHandlePosition(box: Rect, side: Side, handleOffset: real): (r: Position)
    ensures (side == Top || side == Bottom) ==> r.x == box.x + box.width / 2.0
    ensures (side == Left || side == Right) ==> r.y == box.y + box.height / 2.0
    ensures OnAxis(side, SideMidpoint(box, side), r)
    ensures side != Other ==> Outward(side, SideMidpoint(box, side), r) == handleOffset
    ensures side == Other ==> r == box.Center()
  {
    match side
    case Top => Position(box.x + box.width / 2.0, box.y - handleOffset)
    case Right => Position(box.x + box.width + handleOffset, box.y + box.height / 2.0)
    case Bottom => Position(box.x + box.width / 2.0, box.y + box.height + handleOffset)
    case Left => Position(box.x - handleOffset, box.y + box.height / 2.0)
    case Other => Position(box.x + box.width / 2.0, box.y + box.height / 2.0)
  }

  /** One coordinate of the cubic Bézier curve at `t`, in the Bernstein form `getBezierPoint` uses. */
  function BezierCoord(a0: real, a1: real, a2: real, a3: real, t: real): real {
    var oneMinusT := 1.0 - t;
    var oneMinusTSquared := oneMinusT * oneMinusT;
    var oneMinusTCubed := oneMinusTSquared * oneMinusT;
    var tSquared := t * t;
    var tCubed := tSquared * t;
    oneMinusTCubed * a0 + 3.0 * oneMinusTSquared * t * a1 + 3.0 * oneMinusT * tSquared * a2 + tCubed * a3
  }

  /** The point at parameter `t` of the cubic Bézier curve with control polygon p0 p1 p2 p3. */
  function GetBezierPoint(p0: Position, p1: Position, p2: Position, p3: Position, t: real): Position {
    Position(BezierCoord(p0.x, p1.x, p2.x, p3.x, t), BezierCoord(p0.y, p1.y, p2.y, p3.y, t))
  }

  /** The curve starts at its first control point and ends at its last. */
  lemma BezierPointEnds(p0: Position, p1: Position, p2: Position, p3: Position)
    ensures GetBezierPoint(p0, p1, p2, p3, 0.0) == p0
    ensures GetBezierPoint(p0, p1, p2, p3, 1.0) == p3
  {
  }

  /** The point a fraction `t` of the way from `a` to `b`. */
  function Lerp(a: real, b: real, t: real): real {
    a + (b - a) * t
  }

  /** de Casteljau's construction on one coordinate: three rounds of interpolation. */
  function DeCasteljau(a0: real, a1: real, a2: real, a3: real, t: real): real {
    var b0 := Lerp(a0, a1, t);
    var b1 := Lerp(a1, a2, t);
    var b2 := Lerp(a2, a3, t);
    Lerp(Lerp(b0, b1, t), Lerp(b1, b2, t), t)
  }

  /** The curve's coordinate as a polynomial in `t`, coefficients first. */
  function PowerForm(a0: real, a1: real, a2: real, a3: real, t: real): real {
    a0 + 3.0 * (a1 - a0) * t + 3.0 * (a0 - 2.0 * a1 + a2) * (t * t) + (a3 - 3.0 * a2 + 3.0 * a1 - a0) * (t * t * t)
  }

  lemma BernsteinPowerForm(a0: real, a1: real, a2: real, a3: real, t: real)
    ensures BezierCoord(a0, a1, a2, a3, t) == PowerForm(a0, a1, a2, a3, t)
  {
    var u := 1.0 - t;
    assert u * u == 1.0 - 2.0 * t + t * t;
    assert u * u * u == 1.0 - 3.0 * t + 3.0 * (t * t) - t * t * t;
  }

  /** Interpolating between two quadratics in `t` by `t` gives a cubic. */
  lemma LerpQuadratics(p: real, q: real, r: real, p': real, q': real, r': real, t: real)
    ensures Lerp(p + q * t + r * (t * t), p' + q' * t + r' * (t * t), t)
            == p + (q + p' - p) * t + (r + q' - q) * (t * t) + (r' - r) * (t * t * t)
  {
    assert (q' * t - q * t) * t == (q' - q) * (t * t);
    assert (r' * (t * t) - r * (t * t)) * t == (r' - r) * (t * t * t);
  }

  /** Interpolating between two lines in `t` by `t` gives a quadratic. */
  lemma LerpLines(p: real, q: real, p': real, q': real, t: real)
    ensures Lerp(p + q * t, p' + q' * t, t) == p + (q + p' - p) * t + (q' - q) * (t * t)
  {
    assert (q' * t - q * t) * t == (q' - q) * (t * t);
  }

  lemma DeCasteljauPowerForm(a0: real, a1: real, a2: real, a3: real, t: real)
    ensures DeCasteljau(a0, a1, a2, a3, t) == PowerForm(a0, a1, a2, a3, t)
  {
    LerpLines(a0, a1 - a0, a1, a2 - a1, t);
    LerpLines(a1, a2 - a1, a2, a3 - a2, t);
    LerpQuadratics(a0, 2.0 * (a1 - a0), a0 - 2.0 * a1 + a2, a1, 2.0 * (a2 - a1), a1 - 2.0 * a2 + a3, t);
  }

  /** `getBezierPoint` agrees with de Casteljau's construction, coordinate by coordinate. */
  lemma BezierPointDeCasteljau(p0: Position, p1: Position, p2: Position, p3: Position, t: real)
    ensures GetBezierPoint(p0, p1, p2, p3, t)
            == Position(DeCasteljau(p0.x, p1.x, p2.x, p3.x, t), DeCasteljau(p0.y, p1.y, p2.y, p3.y, t))
  {
    BernsteinPowerForm(p0.x, p1.x, p2.x, p3.x, t);
    DeCasteljauPowerForm(p0.x, p1.x, p2.x, p3.x, t);
    BernsteinPowerForm(p0.y, p1.y, p2.y, p3.y, t);
    DeCasteljauPowerForm(p0.y, p1.y, p2.y, p3.y, t);
  }

  /** The curve's point at t = 1/2: (p0 + 3 p1 + 3 p2 + p3) / 8. */
  function CurveMidpoint(p0: Position, p1: Position, p2: Position, p3: Position): Position {
    Position((p0.x + 3.0 * p1.x + 3.0 * p2.x + p3.x) / 8.0,
             (p0.y + 3.0 * p1.y + 3.0 * p2.y + p3.y) / 8.0)
  }

  lemma BezierPointHalf(p0: Position, p1: Position, p2: Position, p3: Position)
    ensures GetBezierPoint(p0, p1, p2, p3, 0.5) == CurveMidpoint(p0, p1, p2, p3)
  {
  }

  /** The four Bernstein weights sum to one, so a curve whose control points coincide is that point. */
  lemma BezierPointConstant(p: Position, t: real)
    ensures GetBezierPoint(p, p, p, p, t) == p
  {
    var s := 1.0 - t;
    assert s * s * s + 3.0 * s * s * t + 3.0 * s * t * t + t * t * t == (s + t) * (s + t) * (s + t);
  }

  /** Running the control polygon backwards traces the same curve in reverse. */
  lemma BezierPointReversed(p0: Position, p1: Position, p2: Position, p3: Position, t: real)
    ensures GetBezierPoint(p3, p2, p1, p0, 1.0 - t) == GetBezierPoint(p0, p1, p2, p3, t)
  {
  }

  /**
   * A cubic edge path: from `source` through the two control points to
   * `target`, labelled at the curve's midpoint.
   */
  function GetBezierPath(source: Position, sourceSide: Side, target: Position, targetSide: Side,
                         curvature: real): (r: PathInfo)
    ensures r.path.start == source && r.path.End() == target
    ensures |r.path.segments| == 1 && r.path.segments[0].CubicTo?
    ensures r.path.segments[0].c1 == GetControlPoint(source, sourceSide, curvature, None)
    ensures r.path.segments[0].c2 == GetControlPoint(target, targetSide, curvature, None)
    ensures r.labelPoint == CurveMidpoint(source, r.path.segments[0].c1, r.path.segments[0].c2, target)
  {
    var c1 := GetControlPoint(source, sourceSide, curvature, None);
    var c2 := GetControlPoint(target, targetSide, curvature, None);
    BezierPointHalf(source, c1, c2, target);
    PathInfo(Path(source, [CubicTo(c1, c2, target)]), GetBezierPoint(source, c1, c2, target, 0.5))
  }

  /** Swapping the two ends of a cubic edge leaves its label where it was. */
  lemma BezierLabelSymmetric(source: Position, sourceSide: Side, target: Position, targetSide: Side,
                             curvature: real)
    ensures GetBezierPath(target, targetSide, source, sourceSide, curvature).labelPoint
         == GetBezierPath(source, sourceSide, target, targetSide, curvature).labelPoint
  {
  }

  /** The straight-line midpoint of two points. */
  function Midpoint(a: Position, b: Position): Position {
    Position((a.x + b.x) / 2.0, (a.y + b.y) / 2.0)
  }

  /**
   * A stepped edge path.  From a right handle to a left handle it runs out
   * horizontally, turns vertically through two rounded corners and comes back in;
   * otherwise it is three straight legs through the two pushed-out points.
   * Its label is the straight-line midpoint of the two ends.
   */
  function GetSmoothStepPath(source: Position, sourceSide: Side, target: Position, targetSide: Side,
                             borderRadius: real, offset: real): (r: PathInfo)
    ensures r.path.start == source && r.path.End() == target
    ensures r.labelPoint == Midpoint(source, target)
    ensures sourceSide == Right && targetSide == Left ==>
              |r.path.segments| == 5 && r.path.segments[0].LineTo? && r.path.segments[0].p.y == source.y
              && r.path.segments[0].p.x == source.x + ControlDistance(source, StepCurvature, Some(offset))
              && r.path.segments[1].QuadTo? && r.path.segments[3].QuadTo?
              && r.path.segments[2].LineTo? && r.path.segments[4].LineTo?
              && r.path.segments[2].p == Position(r.path.segments[0].p.x + borderRadius, target.y - borderRadius)
              && r.path.segments[3].p == Position(r.path.segments[0].p.x, target.y)
              && r.path.segments[1] == QuadTo(Position(r.path.segments[0].p.x + borderRadius, source.y),
                                              Position(r.path.segments[0].p.x + borderRadius, source.y + borderRadius))
              && r.path.segments[3].control == Position(r.path.segments[0].p.x + borderRadius, target.y)
    ensures !(sourceSide == Right && targetSide == Left) ==>
              |r.path.segments| == 3 && forall i :: 0 <= i < 3 ==> r.path.segments[i].LineTo?
    ensures !(sourceSide == Right && targetSide == Left) ==>
              r.path.segments[0].p == GetControlPoint(source, sourceSide, StepCurvature, Some(offset))
              && r.path.segments[1].p == GetControlPoint(target, targetSide, StepCurvature, Some(offset))
  {
    var h := GetControlPoint(source, sourceSide, StepCurvature, Some(offset));
    var t := GetControlPoint(target, targetSide, StepCurvature, Some(offset));
    var segments :=
      if sourceSide == Right && targetSide == Left then
        [ LineTo(Position(h.x, source.y)),
          QuadTo(Position(h.x + borderRadius, source.y), Position(h.x + borderRadius, source.y + borderRadius)),
          LineTo(Position(h.x + borderRadius, t.y - borderRadius)),
          QuadTo(Position(h.x + borderRadius, t.y), Position(h.x, t.y)),
          LineTo(target) ]
      else
        [LineTo(h), LineTo(t), LineTo(target)];
    PathInfo(Path(source, segments), Position((source.x + target.x) / 2.0, (source.y + target.y) / 2.0))
  }

  /**
   * A right-to-left smooth step with a non-zero offset runs its detour
   * `offset` to the right of the source, then `borderRadius` further for the
   * vertical leg, and comes back at the target's height.
   */
  lemma SmoothStepDetourAtOffset(source: Position, target: Position, borderRadius: real, offset: real)
    requires offset != 0.0
    ensures var r := GetSmoothStepPath(source, Right, target, Left, borderRadius, offset);
            && r.path.segments[0].p == Position(source.x + offset, source.y)
            && r.path.segments[2].p == Position(source.x + offset + borderRadius, target.y - borderRadius)
            && r.path.segments[3].p == Position(source.x + offset, target.y)
  {
  }
}
