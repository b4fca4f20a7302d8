/** The menu in a node's header that changes the node's kind, opened by hovering the title. */
module NodeTypeDropdown {
  import opened Types
  import ConditionEditor

  /** `nodeTypeOptions`: each kind offered with its title. */
  const TypeOptions: seq<(string, string)> := [
    ("trigger", "If"), ("operator", "Operator"), ("value", "Value"), ("action", "Action"), ("logical", "Logic")
  ]

  /** The menu offers exactly the five node kinds, in the editor's order. */
  lemma OptionsAreKinds()
    ensures |TypeOptions| == 5 == |ConditionEditor.NodeKinds|
    ensures forall i :: 0 <= i < 5 ==> TypeOptions[i].0 == ConditionEditor.NodeKinds[i]
  {
  }

  /** The nodes with the id take the new kind and that kind's default data; id and position stay. */
  function WithType(nodes: seq<FlowNode>, id: string, kind: string): (r: seq<FlowNode>)
    ensures |r| == |nodes|
    ensures forall i :: 0 <= i < |nodes| && nodes[i].id != id ==> r[i] == nodes[i]
    ensures forall i :: 0 <= i < |nodes| && nodes[i].id == id ==>
              r[i] == FlowNode(id, kind, nodes[i].position, ConditionEditor.DefaultNodeData(kind))
  {
    UpdateById(nodes, id, (n: FlowNode) => n.(kind := kind, data := ConditionEditor.DefaultNodeData(kind)))
  }

  /** The dropdown of one node. `closePending` stands for the close timer held in `timeoutRef`. */
  class Dropdown {
    const nodeId: string
    const currentType: string
    var isOpen: bool
    var closePending: bool

    constructor (nodeId0: string, currentType0: string)
      ensures nodeId == nodeId0 && currentType == currentType0 && !isOpen && !closePending
    {
      nodeId := nodeId0;
      currentType := currentType0;
      isOpen := false;
      closePending := false;
    }

    /** `handleTypeChange`: a different kind rewrites this node; the current kind changes nothing;
      * either way the menu closes. */
    method HandleTypeChange(canvas: Canvas, newType: string)
      modifies this, canvas
      ensures newType != currentType ==> canvas.nodes == WithType(old(canvas.nodes), nodeId, newType)
      ensures newType == currentType ==> canvas.nodes == old(canvas.nodes)
      ensures canvas.edges == old(canvas.edges)
      ensures !isOpen && closePending == old(closePending)
    {
      if newType != currentType {
        canvas.SetNodes(WithType(canvas.nodes, nodeId, newType));
      }
      isOpen := false;
    }

    /** Entering the title cancels a pending close and opens the menu. */
    method MouseEnter()
      modifies this
      ensures isOpen && !closePending
    {
      closePending := false;
      isOpen := true;
    }

    /** Leaving the title schedules a close. */
    method MouseLeave()
      modifies this
      ensures closePending && isOpen == old(isOpen)
    {
      closePending := true;
    }

    /** The scheduled close runs. */
    method CloseTimerFires()
      requires closePending
      modifies this
      ensures !isOpen && !closePending
    {
      isOpen := false;
      closePending := false;
    }

    /** Entering the open menu cancels the pending close. */
    method DropdownMouseEnter()
      modifies this
      ensures !closePending && isOpen == old(isOpen)
    {
      closePending := false;
    }

    /** Leaving the menu closes it at once. */
    method DropdownMouseLeave()
      modifies this
      ensures !isOpen && closePending == old(closePending)
    {
      isOpen := false;
    }
  }
}
