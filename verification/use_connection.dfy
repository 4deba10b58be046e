/**
 * src/hooks/useConnection.ts: the connection drag, idle -> connecting -> idle.
 * Each callback is a synchronous transition; the `onConnect` callback becomes
 * the connection a completion emits.
 */
module UseConnection {
  import opened Options
  import opened Types
  import Js

  datatype ConnectionState = ConnectionState(
    isConnecting: bool,
    fromNode: Option<string>,
    fromHandle: Option<string>,
    fromPosition: Option<Position>,
    toPosition: Option<Position>)

  /** `{ isConnecting: false }`: the initial state and the state after completing or cancelling. */
  const Idle := ConnectionState(false, None, None, None, None)

  /** The argument handed to `onConnect`. */
  datatype Connection = Connection(source: string, target: string, sourceHandle: Option<string>, targetHandle: Option<string>)

  /** Start dragging a connection out of handle `handleId` of node `nodeId`, at flow point `p`. */
  function StartConnection(s: ConnectionState, nodeId: string, handleId: string, p: Position): (r: ConnectionState)
    ensures r.isConnecting
    ensures r.fromNode == Some(nodeId) && r.fromHandle == Some(handleId)
    ensures r.fromPosition == Some(p) && r.toPosition == Some(p)
  {
    ConnectionState(true, Some(nodeId), Some(handleId), Some(p), Some(p))
  }

  /** Move the loose end of the connection; nothing else changes. */
  function UpdateConnectionPosition(s: ConnectionState, p: Position): (r: ConnectionState)
    ensures r.toPosition == Some(p)
    ensures r.(toPosition := s.toPosition) == s
  {
    s.(toPosition := Some(p))
  }

  /** The state after a completion, and the connection it emits if any. */
  datatype Completion = Completion(state: ConnectionState, emitted: Option<Connection>)

  /** The guard of `completeConnection`: a source node and handle are recorded and the target is another node. */
  predicate MayConnect(s: ConnectionState, targetNodeId: string) {
    Js.TruthyString(s.fromNode) && Js.TruthyString(s.fromHandle) && s.fromNode.value != targetNodeId
  }

  /**
   * Finish the drag on handle `targetHandleId` of node `targetNodeId`: a
   * connection from the recorded node and handle is emitted exactly when the
   * guard holds, so never from a node to itself; the state returns to idle
   * either way.
   */
  function CompleteConnection(s: ConnectionState, targetNodeId: string, targetHandleId: string): (r: Completion)
    ensures r.state == Idle
    ensures r.emitted.Some? <==> MayConnect(s, targetNodeId)
    ensures r.emitted.Some? ==> r.emitted.value.source != r.emitted.value.target
    ensures r.emitted.Some? ==>
              r.emitted.value.source == s.fromNode.value && r.emitted.value.target == targetNodeId
              && r.emitted.value.sourceHandle == s.fromHandle && r.emitted.value.targetHandle == Some(targetHandleId)
  {
    if Js.TruthyString(s.fromNode) && Js.TruthyString(s.fromHandle) && s.fromNode.value != targetNodeId then
      Completion(Idle, Some(Connection(s.fromNode.value, targetNodeId, s.fromHandle, Some(targetHandleId))))
    else
      Completion(Idle, None)
  }

  /** Abandon the drag. */
  function CancelConnection(s: ConnectionState): (r: ConnectionState)
    ensures !r.isConnecting && r.fromNode.None? && r.fromHandle.None?
    ensures r.fromPosition.None? && r.toPosition.None?
  {
    Idle
  }

  /** The straight preview line drawn while connecting. */
  datatype Line = Line(from: Position, to: Position)

  function ConnectionPath(s: ConnectionState): (r: Option<Line>)
    ensures r.Some? <==> s.isConnecting && s.fromPosition.Some? && s.toPosition.Some?
    ensures r.Some? ==> r.value.from == s.fromPosition.value && r.value.to == s.toPosition.value
  {
    if s.isConnecting && s.fromPosition.Some? && s.toPosition.Some? then
      Some(Line(s.fromPosition.value, s.toPosition.value))
    else
      None
  }

  /** Feed pointer positions to `updateConnectionPosition`, in order. */
  function UpdateAll(s: ConnectionState, ps: seq<Position>): ConnectionState
    decreases |ps|
  {
    if |ps| == 0 then s else UpdateAll(UpdateConnectionPosition(s, ps[0]), ps[1..])
  }

  /** Pointer moves change only the loose end, which ends at the last pointer position. */
  lemma {:induction false} UpdateAllKeepsSource(s: ConnectionState, ps: seq<Position>)
    ensures UpdateAll(s, ps).(toPosition := s.toPosition) == s
    ensures |ps| > 0 ==> UpdateAll(s, ps).toPosition == Some(ps[|ps| - 1])
    decreases |ps|
  {
    if |ps| > 0 {
      UpdateAllKeepsSource(UpdateConnectionPosition(s, ps[0]), ps[1..]);
    }
  }

  /**
   * A whole gesture: start on (`nodeId`, `handleId`) at `p`, move through `ps`,
   * release on (`targetNodeId`, `targetHandleId`).  While moving, the preview
   * runs from `p` to the pointer; on release a connection between the two
   * handles is emitted exactly when both ids are non-empty and the nodes differ.
   */
  lemma ConnectGesture(s: ConnectionState, nodeId: string, handleId: string, p: Position, ps: seq<Position>,
                       targetNodeId: string, targetHandleId: string)
    ensures var moved := UpdateAll(StartConnection(s, nodeId, handleId, p), ps);
            ConnectionPath(moved) == Some(Line(p, if |ps| == 0 then p else ps[|ps| - 1]))
    ensures var c := CompleteConnection(UpdateAll(StartConnection(s, nodeId, handleId, p), ps), targetNodeId, targetHandleId);
            && (c.emitted.Some? <==> nodeId != "" && handleId != "" && nodeId != targetNodeId)
            && (c.emitted.Some? ==> c.emitted.value == Connection(nodeId, targetNodeId, Some(handleId), Some(targetHandleId)))
  {
    UpdateAllKeepsSource(StartConnection(s, nodeId, handleId, p), ps);
  }
}
