/** src/utils/nodeSize.ts: the rendered size of a node and the style values that depend on it. */
module NodeSize {
  import opened Options
  import opened Types
  import Js

  const Padding: real := 10.0

  /** Default extent of circle and square nodes: 100 plus padding on both sides. */
  const RoundSize := Size(120.0, 120.0)

  /** Default extent of rectangle, rounded and unknown-shape nodes: 120 by 50 plus padding. */
  const WideSize := Size(140.0, 70.0)

  /** `node.shape || "rectangle"`. */
  function ShapeName(node: Node): string {
    Js.StringOr(node.shape, "rectangle")
  }

  predicate HasOwnSize(node: Node) {
    Js.TruthyNumber(node.width) && Js.TruthyNumber(node.height)
  }

  /**
   * The node's own width and height when both are set and non-zero; otherwise
   * the default for its shape.
   */
  function GetNodeSize(node: Node): (r: Size)
    ensures HasOwnSize(node) ==> r == Size(node.width.value, node.height.value)
    ensures !HasOwnSize(node) && ShapeName(node) in {"circle", "square"} ==> r == RoundSize
    ensures !HasOwnSize(node) && ShapeName(node) !in {"circle", "square"} ==> r == WideSize
  {
    if Js.TruthyNumber(node.width) && Js.TruthyNumber(node.height) then
      Size(node.width.value, node.height.value)
    else
      var shape := Js.StringOr(node.shape, "rectangle");
      if shape == "circle" || shape == "square" then
        Size(100.0 + Padding * 2.0, 100.0 + Padding * 2.0)
      else
        Size(120.0 + Padding * 2.0, 50.0 + Padding * 2.0)
  }

  /** Setting only one of width and height is ignored: the shape default is used. */
  lemma PartialSizeIgnored(node: Node, w: real)
    requires w != 0.0
    ensures GetNodeSize(node.(width := Some(w), height := None)) == GetNodeSize(node.(width := None, height := None))
    ensures GetNodeSize(node.(width := None, height := Some(w))) == GetNodeSize(node.(width := None, height := None))
  {
  }

  /** The style values of a rendered node that the geometry depends on. */
  datatype NodeStyle = NodeStyle(left: real, top: real, width: real, height: real, borderRadius: string)

  /**
   * Position, size and corner rounding of a node: placed at its position, sized
   * by GetNodeSize, round for circles, 12px for rounded and 4px otherwise.
   */
  function GetNodeStyles(node: Node): (r: NodeStyle)
    ensures r.left == node.position.x && r.top == node.position.y
    ensures Size(r.width, r.height) == GetNodeSize(node)
    ensures ShapeName(node) == "circle" ==> r.borderRadius == "50%"
    ensures ShapeName(node) == "rounded" ==> r.borderRadius == "12px"
    ensures ShapeName(node) !in {"circle", "rounded"} ==> r.borderRadius == "4px"
  {
    var size := GetNodeSize(node);
    var radius :=
      match Js.StringOr(node.shape, "rectangle")
      case "circle" => "50%"
      case "square" => "4px"
      case "rounded" => "12px"
      case _ => "4px";
    NodeStyle(node.position.x, node.position.y, size.width, size.height, radius)
  }
}
