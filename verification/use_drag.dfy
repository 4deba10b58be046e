/**
 * src/hooks/useDrag.ts: pointer-drag tracking.  The hook's `isDragging`
 * state and its two refs become one immutable state value, and every call is
 * a synchronous transition.
 */
module UseDrag {
  import opened Options
  import opened Types

  datatype DragState = DragState(isDragging: bool, startPosition: Option<Position>, lastPosition: Option<Position>)

  /** Not dragging, both refs null: the initial state and the state after `dragEnd`. */
  const Released := DragState(false, None, None)

  /** Begin dragging at `p`: both the start and the last position become `p`. */
  function DragStart(s: DragState, p: Position): (r: DragState)
    ensures r.isDragging
    ensures r.startPosition == Some(p) && r.lastPosition == r.startPosition
  {
    DragState(true, Some(p), Some(p))
  }

  /** The state after a move and the delta it reports (`null` in the source). */
  datatype MoveResult = MoveResult(state: DragState, delta: Option<Position>)

  /**
   * Report how far the pointer moved since the last position and remember the
   * new one; nothing is reported, and nothing changes, unless a drag is on.
   */
  function DragMove(s: DragState, p: Position): (r: MoveResult)
    ensures !s.isDragging || s.lastPosition.None? ==> r.delta.None? && r.state == s
    ensures s.isDragging && s.lastPosition.Some? ==>
              r.delta.Some? && s.lastPosition.value.Plus(r.delta.value) == p
              && r.state.lastPosition == Some(p)
              && r.state.isDragging && r.state.startPosition == s.startPosition
  {
    if !s.isDragging || s.lastPosition.None? then MoveResult(s, None)
    else
      var last := s.lastPosition.value;
      MoveResult(s.(lastPosition := Some(p)), Some(Position(p.x - last.x, p.y - last.y)))
  }

  /** Stop dragging and clear both refs. */
  function DragEnd(s: DragState): (r: DragState)
    ensures !r.isDragging && r.lastPosition.None? && r.startPosition.None?
  {
    Released
  }

  /** After `dragEnd` a move reports nothing. */
  lemma MoveAfterEndIsNull(s: DragState, p: Position)
    ensures DragMove(DragEnd(s), p).delta.None?
  {
  }

  /** The state after feeding the pointer positions `ps` in order, and the sum of the reported deltas. */
  datatype Replay = Replay(state: DragState, total: Position)

  function MoveAll(s: DragState, ps: seq<Position>): Replay
    decreases |ps|
  {
    if |ps| == 0 then Replay(s, Origin)
    else
      var m := DragMove(s, ps[0]);
      var rest := MoveAll(m.state, ps[1..]);
      Replay(rest.state, m.delta.GetOr(Origin).Plus(rest.total))
  }

  /** During a drag the reported deltas telescope: they add up to the net pointer displacement. */
  lemma {:induction false} DeltasTelescope(s: DragState, ps: seq<Position>)
    requires s.isDragging && s.lastPosition.Some?
    requires |ps| > 0
    ensures MoveAll(s, ps).total == ps[|ps| - 1].Minus(s.lastPosition.value)
    ensures MoveAll(s, ps).state.isDragging
    ensures MoveAll(s, ps).state.lastPosition == Some(ps[|ps| - 1])
    decreases |ps|
  {
    var m := DragMove(s, ps[0]);
    if |ps| > 1 {
      DeltasTelescope(m.state, ps[1..]);
    }
  }

  /** From `dragStart(p0)`, the deltas of the following moves sum to final position minus p0. */
  lemma DragNetDisplacement(s: DragState, p0: Position, ps: seq<Position>)
    requires |ps| > 0
    ensures MoveAll(DragStart(s, p0), ps).total == ps[|ps| - 1].Minus(p0)
  {
    DeltasTelescope(DragStart(s, p0), ps);
  }
}
