/** The value node: the text a clause compares against, typed freely. */
module ValueNode {
  import opened Wrappers
  import opened Types
  import ConditionEditor

  /** The text the input shows: `data.value || ''`. */
  function Shown(value: Option<string>): (r: string)
    ensures r == "" <==> value.None? || value.value == ""
    ensures r != "" ==> value == Some(r)
  {
    value.GetOr("")
  }

  /** A graph without logic nodes whose first value node shows an empty input writes no expression. */
  lemma EmptyValueNoText(nodes: seq<FlowNode>, edges: seq<FlowEdge>)
    requires OfKind(nodes, "logical") == []
    requires FirstOfKind(nodes, "value").Some? && Shown(FirstOfKind(nodes, "value").value.data.value) == ""
    ensures ConditionEditor.ExpressionFromFlow(nodes, edges) == ""
  {
    ConditionEditor.SingleClauseEmpty(nodes, edges);
  }

  /** `updateNodeData`: the typed value is written to this node only. */
  method UpdateNodeData(canvas: Canvas, id: string, value: string)
    modifies canvas
    ensures canvas.nodes == WithValue(old(canvas.nodes), id, value) && canvas.edges == old(canvas.edges)
  {
    canvas.SetNodes(WithValue(canvas.nodes, id, value));
  }
}
