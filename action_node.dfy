/** The action node: the target field of an effect, whether it is shown, and the lists of allowed and
  * default values, each edited through its own input box. */
module ActionNode {
  import opened Wrappers
  import opened Text
  import opened Types

  /** `actionFields`: the target fields offered. */
  const ActionFields: seq<string> := [
    "custom_fields.issue_category_l1", "custom_fields.issue_category_l2", "custom_fields.priority",
    "custom_fields.status", "custom_fields.assignee"
  ]

  /** The two value lists of an action node. */
  datatype ListKey = Allowed | Defaults

  function KeyOf(k: ListKey): Key
  {
    if k == Allowed then AllowedKey else DefaultKey
  }

  /** The list stored under `k`, a missing one read as `[]` (`node.data.allowedValues || []`). */
  function ListOf(d: NodeData, k: ListKey): seq<string>
  {
    if k == Allowed then d.allowedValues.GetOr([]) else d.defaultValues.GetOr([])
  }

  function WithList(d: NodeData, k: ListKey, xs: seq<string>): (e: NodeData)
    ensures SameExcept(d, e, KeyOf(k)) && ListOf(e, k) == xs
  {
    if k == Allowed then d.(allowedValues := Some(xs)) else d.(defaultValues := Some(xs))
  }

  /** Append `v` to list `k` of the nodes with the id. */
  function WithAdded(nodes: seq<FlowNode>, id: string, k: ListKey, v: string): (r: seq<FlowNode>)
    ensures UpdatesKey(nodes, r, id, KeyOf(k))
    ensures forall i :: 0 <= i < |r| && nodes[i].id == id ==> ListOf(r[i].data, k) == ListOf(nodes[i].data, k) + [v]
  {
    UpdateById(nodes, id, (n: FlowNode) => n.(data := WithList(n.data, k, ListOf(n.data, k) + [v])))
  }

  /** Drop position `index` of list `k` of the nodes with the id. */
  function WithRemoved(nodes: seq<FlowNode>, id: string, k: ListKey, index: int): (r: seq<FlowNode>)
    ensures UpdatesKey(nodes, r, id, KeyOf(k))
    ensures forall i :: 0 <= i < |r| && nodes[i].id == id ==> ListOf(r[i].data, k) == RemoveAt(ListOf(nodes[i].data, k), index)
  {
    UpdateById(nodes, id, (n: FlowNode) => n.(data := WithList(n.data, k, RemoveAt(ListOf(n.data, k), index))))
  }

  /** Adding a value and then removing its position gives the list back. */
  lemma AddThenRemove(xs: seq<string>, v: string)
    ensures RemoveAt(xs + [v], |xs|) == xs
  {
    assert (xs + [v])[..|xs|] == xs;
  }

  /** The text of one badge: values longer than twelve characters are cut to twelve and end in `...`. */
  function Badge(v: string): (r: string)
    ensures |v| <= 12 ==> r == v
    ensures |v| > 12 ==> |r| == 15 && r[..12] == v[..12] && r[12..] == "..."
  {
    if |v| > 12 then v[..12] + "..." else v
  }

  /** The badges of a list: the first three values, then `+n` for the `n` others. */
  function Badges(values: seq<string>): (r: seq<string>)
  {
    var shown := if |values| > 3 then values[..3] else values;
    seq(|shown|, i requires 0 <= i < |shown| => Badge(shown[i])) +
    (if |values| > 3 then ["+" + NatToString(|values| - 3)] else [])
  }

  /** At most four badges: one per value up to three, and a count badge exactly when more remain. */
  lemma BadgesShape(values: seq<string>)
    ensures |values| <= 3 ==> |Badges(values)| == |values|
    ensures |values| > 3 ==> |Badges(values)| == 4 && Badges(values)[3] == "+" + NatToString(|values| - 3)
    ensures forall i :: 0 <= i < |values| && i < 3 ==> Badges(values)[i] == Badge(values[i])
    ensures forall i :: 0 <= i < |values| && i < 3 ==> |Badges(values)[i]| <= 15
  {
  }

  /** The component of one action node with its two input boxes. */
  class ActionNodeView {
    const id: string
    var newValue: string
    var newDefaultValue: string

    constructor (id0: string)
      ensures id == id0 && newValue == "" && newDefaultValue == ""
    {
      id := id0;
      newValue := "";
      newDefaultValue := "";
    }

    /** Typing in the allowed-value box. */
    method TypeValue(s: string)
      modifies this
      ensures newValue == s && newDefaultValue == old(newDefaultValue)
    {
      newValue := s;
    }

    /** Typing in the default-value box. */
    method TypeDefault(s: string)
      modifies this
      ensures newDefaultValue == s && newValue == old(newValue)
    {
      newDefaultValue := s;
    }

    /** `updateField`. */
    method UpdateField(canvas: Canvas, field: string)
      modifies canvas
      ensures canvas.nodes == WithField(old(canvas.nodes), id, field) && canvas.edges == old(canvas.edges)
    {
      canvas.SetNodes(WithField(canvas.nodes, id, field));
    }

    /** `updateShow`. */
    method UpdateShow(canvas: Canvas, show: bool)
      modifies canvas
      ensures canvas.nodes == WithShow(old(canvas.nodes), id, show) && canvas.edges == old(canvas.edges)
    {
      canvas.SetNodes(WithShow(canvas.nodes, id, show));
    }

    /** `addAllowedValue`: a blank box changes nothing; otherwise the trimmed text is appended and the
      * box is cleared. */
    method AddAllowedValue(canvas: Canvas)
      modifies this, canvas
      ensures Trim(old(newValue)) == "" ==>
                canvas.nodes == old(canvas.nodes) && newValue == old(newValue)
      ensures Trim(old(newValue)) != "" ==>
                canvas.nodes == WithAdded(old(canvas.nodes), id, Allowed, Trim(old(newValue))) && newValue == ""
      ensures canvas.edges == old(canvas.edges) && newDefaultValue == old(newDefaultValue)
    {
      var v := Trim(newValue);
      if v != "" {
        canvas.SetNodes(WithAdded(canvas.nodes, id, Allowed, v));
        newValue := "";
      }
    }

    /** `removeAllowedValue(index)`. */
    method RemoveAllowedValue(canvas: Canvas, index: int)
      modifies canvas
      ensures canvas.nodes == WithRemoved(old(canvas.nodes), id, Allowed, index) && canvas.edges == old(canvas.edges)
    {
      canvas.SetNodes(WithRemoved(canvas.nodes, id, Allowed, index));
    }

    /** `addDefaultValue`: as for allowed values; the value is not checked against the allowed list. */
    method AddDefaultValue(canvas: Canvas)
      modifies this, canvas
      ensures Trim(old(newDefaultValue)) == "" ==>
                canvas.nodes == old(canvas.nodes) && newDefaultValue == old(newDefaultValue)
      ensures Trim(old(newDefaultValue)) != "" ==>
                canvas.nodes == WithAdded(old(canvas.nodes), id, Defaults, Trim(old(newDefaultValue))) &&
                newDefaultValue == ""
      ensures canvas.edges == old(canvas.edges) && newValue == old(newValue)
    {
      var v := Trim(newDefaultValue);
      if v != "" {
        canvas.SetNodes(WithAdded(canvas.nodes, id, Defaults, v));
        newDefaultValue := "";
      }
    }

    /** `removeDefaultValue(index)`. */
    method RemoveDefaultValue(canvas: Canvas, index: int)
      modifies canvas
      ensures canvas.nodes == WithRemoved(old(canvas.nodes), id, Defaults, index) && canvas.edges == old(canvas.edges)
    {
      canvas.SetNodes(WithRemoved(canvas.nodes, id, Defaults, index));
    }
  }
}
