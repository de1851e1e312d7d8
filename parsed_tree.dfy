/**
 * What the extension receives from the `jest-editor-support` library:
 * the parse tree of a test file and the locations of its snapshot
 * matchers. The library itself is not part of this model; its results
 * are inputs.
 */
module ParsedTree {
  /** The node types the parser reports. */
  datatype NodeType = Root | Describe | It | Expect

  /** A source position, as the parser reports it. */
  datatype Location = Location(line: int, column: int)

  /**
   * A parsed node: a `describe` or `it` block (with its title), the root,
   * or an `expect`.
   */
  datatype ParsedNode = ParsedNode(
    kind: NodeType,
    name: string,
    file: string,
    start: Location,
    end: Location,
    children: ChildList)

  /** The optional `children` property: absent, or a list of nodes. */
  datatype ChildList = Absent | Present(nodes: seq<ParsedNode>)

  /** The children of a node, an absent list read as none. */
  function Children(node: ParsedNode): seq<ParsedNode>
  {
    if node.children.Present? then node.children.nodes else []
  }

  /** Every child is structurally smaller than its parent (for termination). */
  lemma ChildIsSmaller(node: ParsedNode, i: nat)
    requires i < |Children(node)|
    ensures Children(node)[i] < node
  {
    assert Children(node)[i] in node.children.nodes;
  }

  /** The source span of one snapshot matcher call (`metadata.node.loc`). */
  datatype SnapshotMetadata = SnapshotMetadata(start: Location, end: Location)
}
