/** `GraphEdge`: one typed, directed edge of a relationship graph. */
module GraphEdges {
  import opened Wrappers

  /** `GraphEdge.Direction`: OUTBOUND for `node → targets`, INBOUND for `callers → node`. */
  datatype Direction = OUTBOUND | INBOUND

  /** An immutable edge; the relation type is free text (uses, calls, db, events, by, ...). */
  datatype GraphEdge = GraphEdge(relationType: string, direction: Direction, targets: seq<string>) {

    /** `isOutbound()`. */
    predicate IsOutbound() {
      direction == OUTBOUND
    }

    /** `isInbound()`. */
    predicate IsInbound() {
      direction == INBOUND
    }
  }

  /**
   * The `GraphEdge` constructor: a `null` relation type is stored as "" and a `null`
   * target list as the empty list; otherwise both are stored as given (the list is copied).
   */
  function NewGraphEdge(relationType: Option<string>, direction: Direction, targets: Option<seq<string>>): (e: GraphEdge)
    ensures e.direction == direction
    ensures relationType.None? ==> e.relationType == ""
    ensures relationType.Some? ==> e.relationType == relationType.value
    ensures targets.None? ==> e.targets == []
    ensures targets.Some? ==> e.targets == targets.value
  {
    GraphEdge(relationType.GetOr(""), direction, targets.GetOr([]))
  }

  /** Every edge is either outbound or inbound, never both. */
  lemma ExactlyOneDirection(e: GraphEdge)
    ensures e.IsOutbound() != e.IsInbound()
  {
  }
}
