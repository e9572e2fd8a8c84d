/** `GraphNode`: a named node with its ordered edges. */
module GraphNodes {
  import opened Wrappers
  import opened JavaString
  import opened GraphEdges

  /** An immutable node; the empty name marks a block that did not parse. */
  datatype GraphNode = GraphNode(name: string, edges: seq<GraphEdge>)

  /**
   * The `GraphNode` constructor: a `null` name is stored as "", any other name trimmed;
   * `null` edges become the empty list, other edges are copied unchanged.
   */
  function NewGraphNode(name: Option<string>, edges: Option<seq<GraphEdge>>): (n: GraphNode)
    ensures IsTrimmed(n.name)
    ensures name.None? ==> n.name == ""
    ensures name.Some? && IsTrimmed(name.value) ==> n.name == name.value
    ensures edges.None? ==> n.edges == []
    ensures edges.Some? ==> n.edges == edges.value
  {
    GraphNode(if name.Some? then Trim(name.value) else "", edges.GetOr([]))
  }

  /** A stored name is what is left of the given one once surrounding trimmable characters go. */
  lemma NewGraphNodeTrimsPadding(pre: string, name: string, post: string, edges: Option<seq<GraphEdge>>)
    requires forall i | 0 <= i < |pre| :: IsTrimmable(pre[i])
    requires forall i | 0 <= i < |post| :: IsTrimmable(post[i])
    requires IsTrimmed(name) && name != ""
    ensures NewGraphNode(Some(pre + name + post), edges).name == name
  {
    TrimPadded(pre, name, post);
  }
}
