/** The list of conditions: the same headline parser, search and filters as the dashboard, plus the
  * label maps and the "If …" / "Then …" lines of each card. */
module ConditionListView {
  import opened Wrappers
  import opened Text
  import opened Types
  import opened ClauseSyntax
  import opened ConditionDashboard

  /** `operatorMap`. */
  const OperatorLabels: seq<(string, string)> := [
    ("==", "is equal to"), ("!=", "is not equal to"), (">", "is greater than"), ("<", "is less than"),
    (">=", "is greater than or equal to"), ("<=", "is less than or equal to")
  ]

  /** `fieldMap`. */
  const FieldLabels: seq<(string, string)> := [
    ("applies_to_part", "applies to part"),
    ("custom_fields.issue_category_l1", "issue category l1"),
    ("custom_fields.issue_category_l2", "issue category l2"),
    ("custom_fields.issue_category_l3", "issue category l3"),
    ("user.role", "user role"),
    ("custom_fields.priority", "priority"),
    ("custom_fields.status", "status"),
    ("custom_fields.category", "category"),
    ("custom_fields.department", "department")
  ]

  /** The entry of an object literal used as a map: its first pair with the key. */
  function Lookup(table: seq<(string, string)>, key: string): (r: Option<string>)
    ensures r.Some? <==> exists i :: 0 <= i < |table| && table[i].0 == key
  {
    if table == [] then None
    else if table[0].0 == key then Some(table[0].1)
    else
      var r := Lookup(table[1..], key);
      assert (exists i :: 0 <= i < |table[1..]| && table[1..][i].0 == key) <==>
             (exists i :: 1 <= i < |table| && table[i].0 == key) by {
        forall i | 1 <= i < |table| ensures table[i] == table[1..][i - 1] {}
      }
      r
  }

  /** `map[key] || key`: the label, or the key itself when the table has none (every label is
    * non-empty, so `||` falls back only on a missing key). */
  function Label(table: seq<(string, string)>, key: string): string
  {
    Lookup(table, key).GetOr(key)
  }

  /** `getOperatorLabel`. */
  function OperatorLabel(op: string): string
  {
    Label(OperatorLabels, op)
  }

  /** `getFieldLabel`. */
  function FieldLabel(field: string): string
  {
    Label(FieldLabels, field)
  }

  /** A table whose keys are all different gives each key its own pair's label. */
  lemma {:induction false} LookupAt(table: seq<(string, string)>, i: nat)
    requires i < |table| && forall a, b :: 0 <= a < b < |table| ==> table[a].0 != table[b].0
    ensures Lookup(table, table[i].0) == Some(table[i].1)
  {
    if i > 0 {
      assert table[0].0 != table[i].0;
      assert table[1..][i - 1] == table[i];
      LookupAt(table[1..], i - 1);
    }
  }

  /** Each of the six operators gets its phrase, and every other text is shown as it is. */
  lemma OperatorLabelTable(op: string)
    ensures forall i :: 0 <= i < |OperatorLabels| ==> OperatorLabel(OperatorLabels[i].0) == OperatorLabels[i].1
    ensures op !in Operators ==> OperatorLabel(op) == op
  {
    var t := OperatorLabels;
    forall i | 0 <= i < |t| ensures OperatorLabel(t[i].0) == t[i].1 {
      LookupAt(t, i);
    }
    if op !in Operators {
      assert forall i :: 0 <= i < |t| ==> t[i].0 == Operators[i];
    }
  }

  /** The phrase of each operator of the alternation. */
  lemma OperatorPhrases()
    ensures OperatorLabel("==") == "is equal to" && OperatorLabel("!=") == "is not equal to"
    ensures OperatorLabel(">") == "is greater than" && OperatorLabel("<") == "is less than"
    ensures OperatorLabel(">=") == "is greater than or equal to" && OperatorLabel("<=") == "is less than or equal to"
  {
    OperatorLabelTable("");
    var t := OperatorLabels;
    assert t[0] == ("==", "is equal to") && t[1] == ("!=", "is not equal to");
    assert t[2] == (">", "is greater than") && t[3] == ("<", "is less than");
    assert t[4] == (">=", "is greater than or equal to") && t[5] == ("<=", "is less than or equal to");
  }

  /** The six phrases are different and none is its operator, so the phrase tells the operator. */
  lemma OperatorLabelsDistinct(a: string, b: string)
    requires a in Operators && b in Operators
    ensures OperatorLabel(a) != a
    ensures OperatorLabel(a) == OperatorLabel(b) ==> a == b
  {
    var t := OperatorLabels;
    OperatorLabelTable("");
    PhrasesDistinct();
    OperatorKeys();
    var i :| 0 <= i < |Operators| && Operators[i] == a;
    var j :| 0 <= j < |Operators| && Operators[j] == b;
    assert t[i].0 == a && t[j].0 == b;
  }

  /** The table lists the operators of the alternation, in its order. */
  lemma OperatorKeys()
    ensures |OperatorLabels| == |Operators| && forall i :: 0 <= i < |Operators| ==> OperatorLabels[i].0 == Operators[i]
  {
  }

  /** The phrases of the table are pairwise different and longer than any operator. */
  lemma PhrasesDistinct()
    ensures forall i, j :: 0 <= i < j < |OperatorLabels| ==> OperatorLabels[i].1 != OperatorLabels[j].1
    ensures forall i :: 0 <= i < |OperatorLabels| ==> |OperatorLabels[i].0| <= 2 < |OperatorLabels[i].1|
  {
    var t := OperatorLabels;
    forall i, j | 0 <= i < j < |t| ensures t[i].1 != t[j].1 {
      if i == 1 && j == 2 {
        assert t[i].1[3] != t[j].1[3];
      } else {
        assert |t[i].1| != |t[j].1|;
      }
    }
  }

  /** Each of the nine field ids gets its label, and every other field is shown as it is. */
  lemma FieldLabelTable(field: string)
    ensures forall i :: 0 <= i < |FieldLabels| ==> FieldLabel(FieldLabels[i].0) == FieldLabels[i].1
    ensures (forall i :: 0 <= i < |FieldLabels| ==> FieldLabels[i].0 != field) ==> FieldLabel(field) == field
  {
    var t := FieldLabels;
    forall i | 0 <= i < |t| ensures FieldLabel(t[i].0) == t[i].1 {
      LookupAt(t, i);
    }
  }

  /** The "If" line: `If <field label> <operator label> <value>`, with `''` and `'=='` for a missing
    * field or operator. */
  function IfLine(p: Parsed): string
  {
    "If " + FieldLabel(if p.field != [] then p.field else "") + " " +
    OperatorLabel(if p.operator != [] then p.operator else "==") + " " + p.value
  }

  /** On every headline the operator is spelled out, because the parser always yields one of the
    * six, and the line needs none of its fallbacks. */
  lemma IfLineSpellsOperator(c: Condition)
    ensures IfLine(Headline(c)) ==
      "If " + FieldLabel(Headline(c).field) + " " + OperatorLabel(Headline(c).operator) + " " + Headline(c).value
    ensures OperatorLabel(Headline(c).operator) != Headline(c).operator
  {
    var p := Headline(c);
    HeadlineComplete(c.expression);
    OperatorLabelsDistinct(p.operator, p.operator);
  }

  /** The phrase for one effect: `Sets`/`Hides`, the number of allowed values and the labelled
    * target fields joined by `, `. */
  function EffectPhrase(e: Effect): string
  {
    (if e.show then "Sets" else "Hides") + " " + NatToString(|e.allowedValues|) + " allowed values for " +
    Join(FieldLabelsOf(e.fields), ", ")
  }

  function FieldLabelsOf(fields: seq<string>): (r: seq<string>)
    ensures |r| == |fields| && forall i :: 0 <= i < |r| ==> r[i] == FieldLabel(fields[i])
  {
    if fields == [] then [] else [FieldLabel(fields[0])] + FieldLabelsOf(fields[1..])
  }

  /** The phrases of effects `i..` as the card renders them: a `, ` after each one but the last. */
  function PhrasesFrom(es: seq<Effect>, i: nat): string
    requires i <= |es|
    decreases |es| - i
  {
    if i == |es| then ""
    else EffectPhrase(es[i]) + (if i < |es| - 1 then ", " else "") + PhrasesFrom(es, i + 1)
  }

  /** The "Then" line. */
  function ThenLine(es: seq<Effect>): string
  {
    "Then " + PhrasesFrom(es, 0)
  }

  function Phrases(es: seq<Effect>): (r: seq<string>)
    ensures |r| == |es| && forall i :: 0 <= i < |r| ==> r[i] == EffectPhrase(es[i])
  {
    if es == [] then [] else [EffectPhrase(es[0])] + Phrases(es[1..])
  }

  /** The per-effect rendering with its separator test is the phrases joined by `, `: a separator
    * between two effects and none after the last. */
  lemma {:induction false} PhrasesJoin(es: seq<Effect>, i: nat)
    requires i <= |es|
    ensures PhrasesFrom(es, i) == Join(Phrases(es[i..]), ", ")
    decreases |es| - i
  {
    if i < |es| {
      PhrasesJoin(es, i + 1);
      var ps := Phrases(es[i..]);
      assert ps[0] == EffectPhrase(es[i]);
      assert ps[1..] == Phrases(es[i + 1..]) by {
        assert es[i..][1..] == es[i + 1..];
      }
      if i == |es| - 1 {
        assert es[i + 1..] == [];
      }
    }
  }

  lemma ThenLineJoin(es: seq<Effect>)
    ensures ThenLine(es) == "Then " + Join(Phrases(es), ", ")
  {
    PhrasesJoin(es, 0);
    assert es[0..] == es;
  }

  /** The phrase of an effect starts with `Sets` when it shows its fields and `Hides` otherwise. */
  lemma PhraseVerb(e: Effect)
    ensures e.show <==> EffectPhrase(e)[..4] == "Sets"
    ensures !e.show <==> EffectPhrase(e)[..5] == "Hides"
  {
    var p := EffectPhrase(e);
    var v := if e.show then "Sets" else "Hides";
    assert p[..|v|] == v;
    if e.show {
      assert p[4] == ' ';
      assert p[..5] != "Hides";
    } else {
      assert p[..4] == "Hide";
    }
  }
}
