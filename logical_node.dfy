/** The logic node: the connector that joins the clauses of a multi-trigger graph. */
module LogicalNode {
  import opened Wrappers
  import opened Types
  import ConditionEditor

  /** `logicalOperators`: the two connectors offered. */
  const LogicalOptions: seq<string> := ["AND", "OR"]

  /** The connector the node shows: `data.operator || 'AND'`. */
  function Shown(operator: Option<string>): (r: string)
    ensures r == "AND" <==> operator.None? || operator.value == "" || operator.value == "AND"
  {
    var op := operator.GetOr("");
    if op == "" then "AND" else op
  }

  /** What the first logic node shows is the connector the expression is written with. */
  lemma ShownIsWritten(logical: seq<FlowNode>)
    requires |logical| > 0
    ensures Shown(logical[0].data.operator) == ConditionEditor.LogicalOperator(logical)
  {
  }

  /** A node whose chosen connector is one of those offered shows that connector. */
  lemma ShownOffered(op: string)
    requires op in LogicalOptions
    ensures Shown(Some(op)) == op
  {
  }

  /** `updateNodeData`: the chosen connector is written to this node only. */
  method UpdateNodeData(canvas: Canvas, id: string, operator: string)
    modifies canvas
    ensures canvas.nodes == WithOperator(old(canvas.nodes), id, operator) && canvas.edges == old(canvas.edges)
  {
    canvas.SetNodes(WithOperator(canvas.nodes, id, operator));
  }
}
