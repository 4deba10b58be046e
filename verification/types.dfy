/**
 * The records of src/types/index.ts: positions, viewports, nodes and edges,
 * plus the four handle sides a handle or an edge end can name.
 */
module Types {
  import opened Options

  /** A point; used both in screen (container) and in flow coordinates. */
  datatype Position = Position(x: real, y: real) {
    function Plus(d: Position): Position {
      Position(x + d.x, y + d.y)
    }

    function Minus(o: Position): Position {
      Position(x - o.x, y - o.y)
    }

    function Negate(): Position {
      Position(-x, -y)
    }
  }

  const Origin := Position(0.0, 0.0)

  /** Pan offset (`x`, `y`, in screen pixels) and zoom factor of the canvas. */
  datatype Viewport = Viewport(x: real, y: real, zoom: real)

  /** An axis-aligned box: top-left corner plus extent. */
  datatype Rect = Rect(x: real, y: real, width: real, height: real) {
    predicate Contains(p: Position) {
      x <= p.x <= x + width && y <= p.y <= y + height
    }

    function Center(): Position {
      Position(x + width / 2.0, y + height / 2.0)
    }
  }

  /** Width and height of a rendered node. */
  datatype Size = Size(width: real, height: real)

  /**
   * A diagram node.  `data` is the node's free-form payload, reduced to string
   * values; `nodeType` is the source's `type` field.
   */
  datatype Node = Node(
    id: string,
    position: Position,
    data: map<string, string>,
    nodeType: Option<string>,
    selected: Option<bool>,
    width: Option<real>,
    height: Option<real>,
    shape: Option<string>,
    handleOffset: Option<real>,
    draggable: Option<bool>,
    selectable: Option<bool>,
    connectable: Option<bool>)

  /** A directed connection between two nodes; the label lives in `data["label"]`. */
  datatype Edge = Edge(
    id: string,
    source: string,
    target: string,
    sourceHandle: Option<string>,
    targetHandle: Option<string>,
    data: Option<map<string, string>>,
    selected: Option<bool>)

  /**
   * The side of a node a handle sits on.  Handle ids are plain strings in the
   * source and are cast to a side; `Other` is every string that is not one of
   * the four names, which the geometry functions send to their default branch.
   */
  datatype Side = Top | Right | Bottom | Left | Other

  function SideOf(name: string): (s: Side)
    ensures s == Top <==> name == "top"
    ensures s == Right <==> name == "right"
    ensures s == Bottom <==> name == "bottom"
    ensures s == Left <==> name == "left"
  {
    if name == "top" then Top
    else if name == "right" then Right
    else if name == "bottom" then Bottom
    else if name == "left" then Left
    else Other
  }

  /** True when some node in `nodes` carries `id`. */
  predicate HasNode(nodes: seq<Node>, id: string) {
    exists i :: 0 <= i < |nodes| && nodes[i].id == id
  }

  /** `nodes.find(n => n.id === id)`: the first node carrying `id`, if any. */
  function FindNode(nodes: seq<Node>, id: string): (r: Option<Node>)
    ensures r.None? <==> !HasNode(nodes, id)
    ensures r.Some? ==> r.value.id == id && r.value in nodes
    ensures r.Some? ==> exists i :: 0 <= i < |nodes| && nodes[i] == r.value
                                    && forall j :: 0 <= j < i ==> nodes[j].id != id
  {
    if |nodes| == 0 then None
    else if nodes[0].id == id then Some(nodes[0])
    else
      var r := FindNode(nodes[1..], id);
      assert r.Some? ==> exists i :: 0 <= i < |nodes| && nodes[i] == r.value
                                     && forall j :: 0 <= j < i ==> nodes[j].id != id by {
        if r.Some? {
          var k :| 0 <= k < |nodes[1..]| && nodes[1..][k] == r.value
                   && forall j :: 0 <= j < k ==> nodes[1..][j].id != id;
          assert nodes[k + 1] == r.value;
          assert forall j :: 0 <= j < k + 1 ==> nodes[j].id != id by {
            forall j | 0 <= j < k + 1 ensures nodes[j].id != id {
              if j > 0 { assert nodes[j] == nodes[1..][j - 1]; }
            }
          }
        }
      }
      assert HasNode(nodes, id) ==> HasNode(nodes[1..], id) by {
        if HasNode(nodes, id) {
          var i :| 0 <= i < |nodes| && nodes[i].id == id;
          assert i > 0 && nodes[1..][i - 1] == nodes[i];
        }
      }
      r
  }
}
