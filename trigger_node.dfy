/** The "If" node: the field a condition tests, chosen from a fixed list. */
module TriggerNode {
  import opened Text
  import opened Types

  /** `triggerFields`: the fields offered in the node's menu. */
  const TriggerFields: seq<string> := [
    "applies_to_part", "custom_fields.issue_category_l1", "custom_fields.issue_category_l2",
    "user.role", "ticket.priority", "ticket.status"
  ]

  /** The menu label of a field: the first `custom_fields.` is dropped and then the first `_` becomes
    * a space. */
  function Label(field: string): string
  {
    ReplaceFirst(ReplaceFirst(field, "custom_fields.", ""), "_", " ")
  }

  /** Six fields are offered, none twice. */
  lemma FieldsOffered()
    ensures |TriggerFields| == 6
    ensures forall i, j :: 0 <= i < j < |TriggerFields| ==> TriggerFields[i] != TriggerFields[j]
  {
  }

  /** Only the first underscore of a custom field's name becomes a space: `custom_fields.a_b` is
    * labelled `a b`, whatever underscores `b` still holds. */
  lemma CustomLabel(a: string, b: string)
    requires '_' !in a && !Contains(a + "_" + b, "custom_fields.")
    ensures Label("custom_fields." + a + "_" + b) == a + " " + b
  {
    var p := "custom_fields.";
    var x := a + "_" + b;
    var s := p + x;
    assert s == "custom_fields." + a + "_" + b;
    assert s[..|p|] == p && s[|p|..] == x;
    ReplaceFirstAtStart(s, p, "");
    assert "" + x == x;
    assert x[|a|..|a| + 1] == "_";
    forall i | 0 <= i < |a| ensures !StartsAt(x, i, "_") {
      assert x[i] == a[i];
      assert x[i..i + 1][0] == x[i];
    }
    ReplaceFirstAt(x, |a|, "_", " ");
    assert x[..|a|] == a && x[|a| + 1..] == b;
  }

  /** `updateNodeData`: the chosen field is written to this node only. */
  method UpdateNodeData(canvas: Canvas, id: string, field: string)
    modifies canvas
    ensures canvas.nodes == WithField(old(canvas.nodes), id, field) && canvas.edges == old(canvas.edges)
  {
    canvas.SetNodes(WithField(canvas.nodes, id, field));
  }
}
