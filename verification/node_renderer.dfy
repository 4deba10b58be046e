/**
 * src/components/NodeRenderer.tsx: choosing between a registered custom node
 * component and the built-in node, and the props a custom component receives.
 * Components are named by their registry entry; a registered entry is a
 * component, so it is always truthy.
 */
module NodeRenderer {
  import opened Options
  import opened Types
  import Js

  /** The props handed to a custom node component. */
  datatype CustomProps = CustomProps(
    id: string,
    data: map<string, string>,
    position: Position,
    selected: Option<bool>,
    nodeType: Option<string>,
    width: Option<real>,
    height: Option<real>,
    shape: Option<string>,
    handleOffset: Option<real>,
    isConnectable: Option<bool>,
    isDraggable: Option<bool>,
    isSelectable: Option<bool>)

  /** What gets rendered: a registered component with its props, or the built-in node for `node`. */
  datatype Rendered = Custom(component: string, props: CustomProps) | BuiltIn(node: Node)

  /** `node.type && nodeTypes && nodeTypes[node.type]`. */
  predicate UsesCustom(node: Node, nodeTypes: Option<map<string, string>>) {
    Js.TruthyString(node.nodeType) && nodeTypes.Some? && node.nodeType.value in nodeTypes.value
  }

  function PropsOf(node: Node): CustomProps {
    CustomProps(node.id, node.data, node.position, node.selected, node.nodeType, node.width, node.height,
                node.shape, node.handleOffset, node.connectable, node.draggable, node.selectable)
  }

  /**
   * A custom component is used exactly when the node names a type registered
   * in `nodeTypes`; it receives the node's fields, with `connectable`,
   * `draggable` and `selectable` renamed `isConnectable`, `isDraggable` and
   * `isSelectable`.  Otherwise the built-in node gets the node itself.
   */
  function Render(node: Node, nodeTypes: Option<map<string, string>>): (r: Rendered)
    ensures r.Custom? <==> UsesCustom(node, nodeTypes)
    ensures r.Custom? ==> r.component == nodeTypes.value[node.nodeType.value]
    ensures r.Custom? ==>
              r.props.id == node.id && r.props.nodeType == node.nodeType && r.props.data == node.data
              && r.props.position == node.position
              && r.props.isConnectable == node.connectable && r.props.isDraggable == node.draggable
              && r.props.isSelectable == node.selectable
              && r.props.selected == node.selected && r.props.width == node.width && r.props.height == node.height
              && r.props.shape == node.shape && r.props.handleOffset == node.handleOffset
    ensures r.BuiltIn? ==> r.node == node
  {
    if Js.TruthyString(node.nodeType) && nodeTypes.Some? && node.nodeType.value in nodeTypes.value then
      Custom(nodeTypes.value[node.nodeType.value], PropsOf(node))
    else
      BuiltIn(node)
  }

  /** A node without a type is drawn built-in whatever is registered, a "default" component included. */
  lemma UntypedNodeIsBuiltIn(node: Node, nodeTypes: map<string, string>)
    requires node.nodeType.None?
    ensures Render(node, Some(nodeTypes)) == BuiltIn(node)
  {
  }

  /** Without a registry, or with one that lacks the node's type, the built-in node is drawn. */
  lemma UnregisteredTypeIsBuiltIn(node: Node, nodeTypes: Option<map<string, string>>)
    requires nodeTypes.None? || (node.nodeType.Some? && node.nodeType.value !in nodeTypes.value)
    ensures Render(node, nodeTypes) == BuiltIn(node)
  {
  }
}
