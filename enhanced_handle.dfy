/** A connection handle of a node: a source handle offers a "+" that appends the next node of the flow
  * and connects it. */
module EnhancedHandle {
  import opened Wrappers
  import opened Text
  import opened Types
  import ConditionEditor

  /** `flowSequence`: the kind that follows each kind. */
  const FlowSequence: seq<(string, string)> := [
    ("trigger", "operator"), ("operator", "value"), ("value", "action"), ("logical", "operator"), ("action", "trigger")
  ]

  function Follows(table: seq<(string, string)>, kind: string): Option<string>
  {
    if table == [] then None
    else if table[0].0 == kind then Some(table[0].1)
    else Follows(table[1..], kind)
  }

  /** `getNextNodeType`: the table's entry, `trigger` for a kind the table does not list. */
  function NextNodeType(kind: string): string
  {
    Follows(FlowSequence, kind).GetOr("trigger")
  }

  /** The handle's table and the canvas's drag gesture agree on every kind. */
  lemma SameNextNodeType(kind: string)
    ensures NextNodeType(kind) == ConditionEditor.NextNodeType(kind)
  {
    var t := FlowSequence;
    assert Follows(t, kind) == if kind == "trigger" then Some("operator") else Follows(t[1..], kind);
    assert Follows(t[1..], kind) == if kind == "operator" then Some("value") else Follows(t[2..], kind);
    assert Follows(t[2..], kind) == if kind == "value" then Some("action") else Follows(t[3..], kind);
    assert Follows(t[3..], kind) == if kind == "logical" then Some("operator") else Follows(t[4..], kind);
    assert Follows(t[4..], kind) == if kind == "action" then Some("trigger") else Follows(t[5..], kind);
    assert t[5..] == [];
  }

  datatype HandleType = Source | Target

  /** The node the plus click creates after `src`, at 250 to its right. */
  function PlusNode(src: FlowNode, now: nat): FlowNode
  {
    var kind := NextNodeType(src.kind);
    FlowNode(kind + "-" + NatToString(now), kind, Position(src.position.x + 250, src.position.y),
             ConditionEditor.DefaultNodeData(kind))
  }

  /** `handlePlusClick` on the graph: only a source handle whose node exists changes it. */
  function PlusClickGraph(g: Graph, nodeId: string, handle: HandleType, now: nat): Graph
  {
    var src := FindNode(g.nodes, nodeId);
    if handle == Target || src.None? then g
    else
      var n := PlusNode(src.value, now);
      Graph(g.nodes + [n], g.edges + [FlowEdge(nodeId + "-" + n.id, nodeId, n.id)])
  }

  /** A plus click on a source handle of an existing node appends exactly one node, of the next kind,
    * with that kind's default data, 250 to the right of the node, and exactly one edge from the node to
    * it; on a target handle or a missing node the graph stays as it is. */
  lemma PlusClickShape(g: Graph, nodeId: string, handle: HandleType, now: nat)
    ensures var r := PlusClickGraph(g, nodeId, handle, now);
            var src := FindNode(g.nodes, nodeId);
            if handle == Target || src.None? then r == g
            else
              var n := r.nodes[|g.nodes|];
              |r.nodes| == |g.nodes| + 1 && r.nodes[..|g.nodes|] == g.nodes &&
              n.kind == ConditionEditor.NextNodeType(src.value.kind) &&
              n.data == ConditionEditor.DefaultNodeData(n.kind) &&
              n.position == Position(src.value.position.x + 250, src.value.position.y) &&
              r.edges == g.edges + [FlowEdge(nodeId + "-" + n.id, nodeId, n.id)] &&
              src.value.id == nodeId
  {
    var src := FindNode(g.nodes, nodeId);
    FindNodeFacts(g.nodes, nodeId);
    if handle == Source && src.Some? {
      SameNextNodeType(src.value.kind);
      var r := PlusClickGraph(g, nodeId, handle, now);
      assert r.nodes[..|g.nodes|] == g.nodes;
    }
  }

  /** One handle of one node. */
  class Handle {
    const handle: HandleType
    const nodeId: string
    var isHovered: bool

    constructor (handle0: HandleType, nodeId0: string)
      ensures handle == handle0 && nodeId == nodeId0 && !isHovered
    {
      handle := handle0;
      nodeId := nodeId0;
      isHovered := false;
    }

    /** Only a source handle lights up. */
    method MouseEnter()
      modifies this
      ensures isHovered == (old(isHovered) || handle == Source)
    {
      if handle == Source {
        isHovered := true;
      }
    }

    method MouseLeave()
      modifies this
      ensures !isHovered
    {
      isHovered := false;
    }

    /** `handlePlusClick`; in every case the hover is reset. */
    method PlusClick(canvas: Canvas, now: nat)
      modifies this, canvas
      ensures Graph(canvas.nodes, canvas.edges) ==
              PlusClickGraph(Graph(old(canvas.nodes), old(canvas.edges)), nodeId, handle, now)
      ensures !isHovered
    {
      if handle == Source {
        var src := FindNode(canvas.nodes, nodeId);
        if src.Some? {
          var n := PlusNode(src.value, now);
          canvas.Extend(n, FlowEdge(nodeId + "-" + n.id, nodeId, n.id));
        }
      }
      isHovered := false;
    }

    /** A click on the handle: the plus handler is attached only while a source handle is hovered. */
    method Click(canvas: Canvas, now: nat)
      modifies this, canvas
      ensures old(isHovered) && handle == Source ==>
                Graph(canvas.nodes, canvas.edges) ==
                PlusClickGraph(Graph(old(canvas.nodes), old(canvas.edges)), nodeId, handle, now) && !isHovered
      ensures !(old(isHovered) && handle == Source) ==>
                canvas.nodes == old(canvas.nodes) && canvas.edges == old(canvas.edges) && isHovered == old(isHovered)
    {
      if isHovered && handle == Source {
        PlusClick(canvas, now);
      }
    }
  }
}
