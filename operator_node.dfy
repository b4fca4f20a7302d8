/** The operator node: the comparison of a clause, chosen from a fixed menu. */
module OperatorNode {
  import opened ClauseSyntax
  import opened Types

  /** `operators`: each offered operator with its menu label. */
  const OperatorOptions: seq<(string, string)> := [
    ("==", "Equals (==)"), ("!=", "Not Equals (!=)"), (">", "Greater Than (>)"), ("<", "Less Than (<)"),
    (">=", "Greater or Equal (>=)"), ("<=", "Less or Equal (<=)"),
    ("contains", "Contains"), ("starts_with", "Starts With"), ("ends_with", "Ends With")
  ]

  /** The first six offered operators are exactly the ones the clause pattern knows, in its order; the
    * last three (`contains`, `starts_with`, `ends_with`) are not in the pattern at all. */
  lemma OfferedVersusParsed()
    ensures |OperatorOptions| == 9
    ensures forall i :: 0 <= i < 6 ==> OperatorOptions[i].0 == Operators[i]
    ensures forall i :: 6 <= i < 9 ==> OperatorOptions[i].0 !in Operators
  {
  }

  /** `updateNodeData`: the chosen operator is written to this node only. */
  method UpdateNodeData(canvas: Canvas, id: string, operator: string)
    modifies canvas
    ensures canvas.nodes == WithOperator(old(canvas.nodes), id, operator) && canvas.edges == old(canvas.edges)
  {
    canvas.SetNodes(WithOperator(canvas.nodes, id, operator));
  }
}
