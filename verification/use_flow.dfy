/** src/hooks/useFlow.ts: the node and edge lists and the four list updates. */
module UseFlow {
  import opened Types
  import Seqs

  datatype Flow = Flow(nodes: seq<Node>, edges: seq<Edge>)

  /** Every edge names an existing node at both ends. */
  predicate EdgesConnected(f: Flow) {
    forall i :: 0 <= i < |f.edges| ==> HasNode(f.nodes, f.edges[i].source) && HasNode(f.nodes, f.edges[i].target)
  }

  function AddNode(f: Flow, node: Node): (r: Flow)
    ensures r.edges == f.edges
    ensures |r.nodes| == |f.nodes| + 1 && r.nodes[..|f.nodes|] == f.nodes && r.nodes[|f.nodes|] == node
  {
    f.(nodes := f.nodes + [node])
  }

  function AddEdge(f: Flow, edge: Edge): (r: Flow)
    ensures r.nodes == f.nodes
    ensures |r.edges| == |f.edges| + 1 && r.edges[..|f.edges|] == f.edges && r.edges[|f.edges|] == edge
  {
    f.(edges := f.edges + [edge])
  }

  /** True for the edges that do not touch node `id`. */
  function AvoidsNode(id: string): Edge -> bool {
    (e: Edge) => e.source != id && e.target != id
  }

  /**
   * Drop node `id` together with every edge that starts or ends at it; all
   * other nodes and edges stay, in their original order.
   */
  function RemoveNode(f: Flow, id: string): (r: Flow)
    ensures !HasNode(r.nodes, id)
    ensures forall i :: 0 <= i < |f.nodes| && f.nodes[i].id != id ==> f.nodes[i] in r.nodes
    ensures forall i :: 0 <= i < |r.nodes| ==> r.nodes[i] in f.nodes
    ensures Seqs.SubsequenceOf(r.nodes, f.nodes)
    ensures forall n :: multiset(r.nodes)[n] == if n.id != id then multiset(f.nodes)[n] else 0
    ensures forall i :: 0 <= i < |r.edges| ==> r.edges[i] in f.edges && r.edges[i].source != id && r.edges[i].target != id
    ensures forall i :: 0 <= i < |f.edges| && f.edges[i].source != id && f.edges[i].target != id ==> f.edges[i] in r.edges
    ensures Seqs.SubsequenceOf(r.edges, f.edges)
    ensures forall e :: multiset(r.edges)[e] == if e.source != id && e.target != id then multiset(f.edges)[e] else 0
  {
    var nodes := Seqs.Filter((n: Node) => n.id != id, f.nodes);
    var edges := Seqs.Filter(AvoidsNode(id), f.edges);
    assert forall e :: multiset(edges)[e] == if e.source != id && e.target != id then multiset(f.edges)[e] else 0 by {
      forall e ensures multiset(edges)[e] == if AvoidsNode(id)(e) then multiset(f.edges)[e] else 0 {}
    }
    Flow(nodes, edges)
  }

  /** Drop every edge with id `id`; the other edges stay, in order. */
  function RemoveEdge(f: Flow, id: string): (r: Flow)
    ensures r.nodes == f.nodes
    ensures forall i :: 0 <= i < |r.edges| ==> r.edges[i] in f.edges && r.edges[i].id != id
    ensures forall i :: 0 <= i < |f.edges| && f.edges[i].id != id ==> f.edges[i] in r.edges
    ensures Seqs.SubsequenceOf(r.edges, f.edges)
    ensures forall e :: multiset(r.edges)[e] == if e.id != id then multiset(f.edges)[e] else 0
  {
    f.(edges := Seqs.Filter((e: Edge) => e.id != id, f.edges))
  }

  /** A node other than `id` is still found after `id` is removed. */
  lemma NodeKept(f: Flow, id: string, a: int, kept: seq<Node>)
    requires 0 <= a < |f.nodes| && f.nodes[a].id != id
    requires kept == RemoveNode(f, id).nodes
    ensures HasNode(kept, f.nodes[a].id)
  {
    var ra :| 0 <= ra < |kept| && kept[ra] == f.nodes[a];
  }

  /** Removing a node keeps every remaining edge attached to existing nodes. */
  lemma RemoveNodeKeepsEdgesConnected(f: Flow, id: string)
    requires EdgesConnected(f)
    ensures EdgesConnected(RemoveNode(f, id))
  {
    var r := RemoveNode(f, id);
    forall i | 0 <= i < |r.edges|
      ensures HasNode(r.nodes, r.edges[i].source) && HasNode(r.nodes, r.edges[i].target)
    {
      var e := r.edges[i];
      var k :| 0 <= k < |f.edges| && f.edges[k] == e;
      var a :| 0 <= a < |f.nodes| && f.nodes[a].id == e.source;
      var b :| 0 <= b < |f.nodes| && f.nodes[b].id == e.target;
      NodeKept(f, id, a, r.nodes);
      NodeKept(f, id, b, r.nodes);
    }
  }

  /**
   * Removing a node that is not there keeps the node list, and keeps the whole
   * flow when every edge is attached (a dangling edge naming `id` would still go).
   */
  lemma RemoveAbsentNode(f: Flow, id: string)
    requires !HasNode(f.nodes, id)
    ensures RemoveNode(f, id).nodes == f.nodes
    ensures EdgesConnected(f) ==> RemoveNode(f, id) == f
  {
    Seqs.FilterKeepsAll((n: Node) => n.id != id, f.nodes);
    if EdgesConnected(f) {
      forall i | 0 <= i < |f.edges| ensures AvoidsNode(id)(f.edges[i]) {
        assert HasNode(f.nodes, f.edges[i].source);
        assert HasNode(f.nodes, f.edges[i].target);
      }
      Seqs.FilterKeepsAll(AvoidsNode(id), f.edges);
    }
  }

  /** Removing an edge id that is not there changes nothing. */
  lemma RemoveAbsentEdge(f: Flow, id: string)
    requires forall i :: 0 <= i < |f.edges| ==> f.edges[i].id != id
    ensures RemoveEdge(f, id) == f
  {
    Seqs.FilterKeepsAll((e: Edge) => e.id != id, f.edges);
  }
}
