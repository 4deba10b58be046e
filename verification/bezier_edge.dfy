/**
 * src/components/BezierEdge.tsx: where an edge's two ends sit, the curve and
 * label point between them, and the inline label editor.
 */
module BezierEdge {
  import opened Options
  import opened Types
  import Js
  import Bezier
  import NodeSize

  const DefaultSourceHandle := "right"
  const DefaultTargetHandle := "left"
  const DefaultHandleOffset: real := 5.0

  /** The label an edge shows: `data.label`, or "" when there is none. */
  function LabelOf(edge: Edge): (r: string)
    ensures edge.data.Some? && "label" in edge.data.value ==> r == edge.data.value["label"]
    ensures !(edge.data.Some? && "label" in edge.data.value) ==> r == ""
  {
    if edge.data.Some? && "label" in edge.data.value then edge.data.value["label"] else ""
  }

  /** The side an edge leaves its source from: `sourceHandle || "right"`. */
  function SourceSide(edge: Edge): Side {
    SideOf(Js.StringOr(edge.sourceHandle, DefaultSourceHandle))
  }

  /** The side an edge enters its target through: `targetHandle || "left"`. */
  function TargetSide(edge: Edge): Side {
    SideOf(Js.StringOr(edge.targetHandle, DefaultTargetHandle))
  }

  /** The box a node is drawn in: its position and GetNodeSize. */
  function NodeBox(node: Node): (r: Rect)
    ensures r.x == node.position.x && r.y == node.position.y
    ensures Size(r.width, r.height) == NodeSize.GetNodeSize(node)
  {
    var size := NodeSize.GetNodeSize(node);
    Rect(node.position.x, node.position.y, size.width, size.height)
  }

  /** `handleOffset || 5`: a missing or zero offset becomes 5. */
  function HandleOffsetOf(node: Node): (r: real)
    ensures Js.TruthyNumber(node.handleOffset) ==> r == node.handleOffset.value
    ensures !Js.TruthyNumber(node.handleOffset) ==> r == DefaultHandleOffset
  {
    Js.NumberOr(node.handleOffset, DefaultHandleOffset)
  }

  /** The two ends of a drawn edge and its curve. */
  datatype EdgeGeometry = EdgeGeometry(sourcePoint: Position, targetPoint: Position, curve: Bezier.PathInfo)

  /**
   * The geometry of `edge` drawn from `sourceNode` to `targetNode`: each end is
   * the handle anchor on the chosen side of that node's box, and the curve is
   * the default-curvature cubic between the two ends.
   */
  function EdgeEndpoints(edge: Edge, sourceNode: Node, targetNode: Node): (r: EdgeGeometry)
    ensures r.sourcePoint == Bezier.GetHandlePosition(NodeBox(sourceNode), SourceSide(edge), HandleOffsetOf(sourceNode))
    ensures r.targetPoint == Bezier.GetHandlePosition(NodeBox(targetNode), TargetSide(edge), HandleOffsetOf(targetNode))
    ensures r.curve.path.start == r.sourcePoint && r.curve.path.End() == r.targetPoint
    ensures r.curve == Bezier.GetBezierPath(r.sourcePoint, SourceSide(edge), r.targetPoint, TargetSide(edge),
                                            Bezier.DefaultCurvature)
  {
    var sourceSize := NodeSize.GetNodeSize(sourceNode);
    var targetSize := NodeSize.GetNodeSize(targetNode);
    var sourceSide := SideOf(Js.StringOr(edge.sourceHandle, DefaultSourceHandle));
    var targetSide := SideOf(Js.StringOr(edge.targetHandle, DefaultTargetHandle));
    var sourcePoint := Bezier.GetHandlePosition(
      Rect(sourceNode.position.x, sourceNode.position.y, sourceSize.width, sourceSize.height),
      sourceSide, Js.NumberOr(sourceNode.handleOffset, DefaultHandleOffset));
    var targetPoint := Bezier.GetHandlePosition(
      Rect(targetNode.position.x, targetNode.position.y, targetSize.width, targetSize.height),
      targetSide, Js.NumberOr(targetNode.handleOffset, DefaultHandleOffset));
    EdgeGeometry(sourcePoint, targetPoint,
                 Bezier.GetBezierPath(sourcePoint, sourceSide, targetPoint, targetSide, Bezier.DefaultCurvature))
  }

  /**
   * An edge with no handles and nodes with no offset runs from 5 px right of
   * the source box's right side to 5 px left of the target box's left side,
   * both at mid-height.
   */
  lemma DefaultEndpoints(edge: Edge, sourceNode: Node, targetNode: Node)
    requires edge.sourceHandle.None? && edge.targetHandle.None?
    requires sourceNode.handleOffset.None? && targetNode.handleOffset.None?
    ensures var g := EdgeEndpoints(edge, sourceNode, targetNode);
            var sb := NodeBox(sourceNode);
            var tb := NodeBox(targetNode);
            && g.sourcePoint == Position(sb.x + sb.width + 5.0, sb.y + sb.height / 2.0)
            && g.targetPoint == Position(tb.x - 5.0, tb.y + tb.height / 2.0)
  {
  }

  /** A zero handle offset is falsy, so it is drawn as 5 too. */
  lemma ZeroOffsetIsDefault(node: Node)
    requires node.handleOffset == Some(0.0)
    ensures HandleOffsetOf(node) == DefaultHandleOffset
  {
  }

  /** The inline label editor: whether it is open and the text in it. */
  datatype Editor = Editor(isEditing: bool, editingLabel: string)

  function InitialEditor(edge: Edge): (r: Editor)
    ensures !r.isEditing && r.editingLabel == LabelOf(edge)
  {
    Editor(false, LabelOf(edge))
  }

  /**
   * The double-click target exists only while a non-empty label is shown as
   * text, that is, when the edge has a label and the editor is closed.
   */
  predicate CanOpenEditor(edge: Edge, e: Editor) {
    LabelOf(edge) != "" && !e.isEditing
  }

  /**
   * Double-clicking the label opens the editor on the current label.  Where
   * there is no label text to click, the editor is left as it is.
   */
  function DoubleClick(e: Editor, edge: Edge): (r: Editor)
    ensures CanOpenEditor(edge, e) ==> r.isEditing && r.editingLabel == LabelOf(edge)
    ensures !CanOpenEditor(edge, e) ==> r == e
  {
    if CanOpenEditor(edge, e) then Editor(true, LabelOf(edge)) else e
  }

  /** Typing replaces the open editor's text; a closed editor has no input to type into. */
  function TypeText(e: Editor, text: string): (r: Editor)
    ensures r.isEditing == e.isEditing
    ensures e.isEditing ==> r.editingLabel == text
    ensures !e.isEditing ==> r == e
  {
    if e.isEditing then e.(editingLabel := text) else e
  }

  /** A call to `onLabelChange(edgeId, label)`. */
  datatype LabelChange = LabelChange(edgeId: string, newLabel: string)

  /** The editor after a key or blur, and the label change reported if any. */
  datatype EditStep = EditStep(editor: Editor, change: Option<LabelChange>)

  datatype Key = Enter | Escape | OtherKey

  /**
   * Commit (Enter, or the input losing focus): report the edited text when a
   * listener is attached, and close.  The input exists only while the editor
   * is open, so a closed editor cannot commit.
   */
  function Submit(e: Editor, edge: Edge, hasListener: bool): (r: EditStep)
    ensures !r.editor.isEditing && r.editor.editingLabel == e.editingLabel
    ensures r.change.Some? <==> hasListener && e.isEditing
    ensures r.change.Some? ==> r.change.value == LabelChange(edge.id, e.editingLabel)
    ensures !e.isEditing ==> r == EditStep(e, None)
  {
    if !e.isEditing then EditStep(e, None)
    else EditStep(e.(isEditing := false), if hasListener then Some(LabelChange(edge.id, e.editingLabel)) else None)
  }

  /** Cancel (Escape): restore the current label, close, report nothing. */
  function Cancel(e: Editor, edge: Edge): (r: EditStep)
    ensures r.editor == InitialEditor(edge)
    ensures r.change.None?
  {
    EditStep(Editor(false, LabelOf(edge)), None)
  }

  /**
   * Key handling in the open editor: Enter commits, Escape cancels, any other
   * key changes nothing.  A closed editor has no input to receive keys.
   */
  function KeyDown(e: Editor, edge: Edge, key: Key, hasListener: bool): (r: EditStep)
    ensures !e.isEditing ==> r == EditStep(e, None)
    ensures e.isEditing && key == Enter ==> !r.editor.isEditing && (r.change.Some? <==> hasListener)
    ensures e.isEditing && key == Escape ==>
              !r.editor.isEditing && r.change.None? && r.editor.editingLabel == LabelOf(edge)
    ensures key == OtherKey ==> r == EditStep(e, None)
    ensures key == Enter ==> r == Submit(e, edge, hasListener)
    ensures e.isEditing && key == Enter && hasListener ==> r.change == Some(LabelChange(edge.id, e.editingLabel))
    ensures e.isEditing && key == Escape ==> r == Cancel(e, edge)
  {
    if !e.isEditing then EditStep(e, None)
    else
      match key
      case Enter => Submit(e, edge, hasListener)
      case Escape => Cancel(e, edge)
      case OtherKey => EditStep(e, None)
  }

  /** A label change is reported only from an open editor, by Enter or by losing focus. */
  lemma ReportsOnlyWhenOpen(e: Editor, edge: Edge, key: Key, hasListener: bool)
    ensures KeyDown(e, edge, key, hasListener).change.Some? ==> e.isEditing && key == Enter && hasListener
    ensures Submit(e, edge, hasListener).change.Some? ==> e.isEditing && hasListener
  {
  }

  /** The label is drawn when it is non-empty or while it is being edited. */
  predicate LabelVisible(edge: Edge, e: Editor) {
    LabelOf(edge) != "" || e.isEditing
  }

  /**
   * After a double-click the editor is open exactly when the label was drawn
   * before it, so a double-click never reveals a hidden label.
   */
  lemma EditingShowsLabel(e: Editor, edge: Edge)
    ensures DoubleClick(e, edge).isEditing <==> LabelVisible(edge, e)
    ensures LabelVisible(edge, DoubleClick(e, edge)) <==> LabelVisible(edge, e)
  {
  }

  /** An edge without a label never opens its editor, however often it is double-clicked. */
  lemma {:induction false} UnlabelledEdgeStaysClosed(edge: Edge, clicks: nat)
    requires LabelOf(edge) == ""
    ensures !DoubleClicks(InitialEditor(edge), edge, clicks).isEditing
  {
    if clicks > 0 {
      UnlabelledEdgeStaysClosed(edge, clicks - 1);
    }
  }

  /** The editor after `clicks` double-clicks in a row. */
  function DoubleClicks(e: Editor, edge: Edge, clicks: nat): Editor {
    if clicks == 0 then e else DoubleClick(DoubleClicks(e, edge, clicks - 1), edge)
  }

  /**
   * Double-click a drawn label, type `text`, press Enter: the editor was open,
   * and exactly `text` is reported for this edge.
   */
  lemma EditThenEnter(e: Editor, edge: Edge, text: string)
    requires LabelVisible(edge, e)
    ensures DoubleClick(e, edge).isEditing
    ensures KeyDown(TypeText(DoubleClick(e, edge), text), edge, Enter, true).change == Some(LabelChange(edge.id, text))
  {
  }

  /**
   * Double-click a drawn label, type anything, press Escape: nothing is
   * reported and the editor shows the old label again.
   */
  lemma EditThenEscape(e: Editor, edge: Edge, text: string, hasListener: bool)
    requires LabelVisible(edge, e)
    ensures KeyDown(TypeText(DoubleClick(e, edge), text), edge, Escape, hasListener) == EditStep(InitialEditor(edge), None)
  {
  }

  /**
   * An edge without a label never reports a label change: however often it is
   * double-clicked, whatever is typed and whichever key is pressed.
   */
  lemma UnlabelledEdgeNeverReports(edge: Edge, clicks: nat, text: string, key: Key, hasListener: bool)
    requires LabelOf(edge) == ""
    ensures KeyDown(TypeText(DoubleClicks(InitialEditor(edge), edge, clicks), text), edge, key, hasListener).change.None?
    ensures Submit(TypeText(DoubleClicks(InitialEditor(edge), edge, clicks), text), edge, hasListener).change.None?
  {
    UnlabelledEdgeStaysClosed(edge, clicks);
  }
}
