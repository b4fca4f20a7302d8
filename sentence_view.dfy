/** The fill-in-the-blank form of a condition: a list of sentences `field operator value`, each after
  * the first joined by a connector, and the list of effects, kept in step with the condition text
  * through a parser, a generator and a delayed commit. */
module SentenceView {
  import opened Wrappers
  import opened Text
  import opened Regex
  import opened ClauseSyntax
  import opened Types
  import ConditionEditor

  /** The two connectors a sentence can carry. */
  datatype Connector = AND | OR

  function ConnectorText(c: Connector): string
  {
    if c == AND then "AND" else "OR"
  }

  /** The cast `parts[i - 1] as 'AND' | 'OR'`: exact on the two tokens the split pattern captures. */
  function ConnectorOf(token: string): (c: Connector)
    ensures token == ConnectorText(c) || (c == AND && token != "OR")
  {
    if token == "OR" then OR else AND
  }

  /** `SentenceCondition`: one sentence of the form. */
  datatype Sentence = Sentence(id: string, field: string, operator: string, value: string, connector: Option<Connector>)

  /** `createEmptySentence`: a blank sentence with `==`; the id, built from the clock and a random
    * number, is a parameter. */
  function EmptySentence(id: string): Sentence
  {
    Sentence(id, "", "==", "", None)
  }

  /** `createDefaultEffect`: show the first-level category with no allowed or default values. */
  const DefaultEffect := Effect([], [ConditionEditor.L1Field], true, None, Some([]), Some(false))

  /** `OPERATORS`: each operator offered with its wording. */
  const OperatorChoices: seq<(string, string)> := [
    ("==", "is equal to"), ("!=", "is not equal to"), (">", "is greater than"), ("<", "is less than"),
    (">=", "is greater than or equal to"), ("<=", "is less than or equal to")
  ]

  /** `COMMON_FIELDS`: the fields a sentence can test. */
  const CommonFields: seq<(string, string)> := [
    ("applies_to_part", "applies to part"), ("custom_fields.issue_category_l1", "issue category L1"),
    ("custom_fields.issue_category_l2", "issue category L2"), ("custom_fields.issue_category_l3", "issue category L3"),
    ("user.role", "user role"), ("custom_fields.priority", "priority"), ("custom_fields.status", "status"),
    ("custom_fields.category", "category"), ("custom_fields.department", "department")
  ]

  /** `TARGET_FIELDS`: the fields an effect can set. */
  const TargetFields: seq<(string, string)> := [
    ("custom_fields.issue_category_l1", "issue category L1"), ("custom_fields.issue_category_l2", "issue category L2"),
    ("custom_fields.issue_category_l3", "issue category L3"), ("custom_fields.priority", "priority"),
    ("custom_fields.status", "status"), ("custom_fields.department", "department")
  ]

  /** The form offers exactly the operators of the clause pattern, in the same order. */
  lemma OperatorChoicesAreOperators()
    ensures |OperatorChoices| == |Operators|
    ensures forall i :: 0 <= i < |Operators| ==> OperatorChoices[i].0 == Operators[i]
  {
  }

  // ---------------------------------------------------------------------------
  // Parsing: `parseConditionToSentences`

  /** `/\s+(AND|OR)\s+/`. */
  const SplitRe: Pattern := [Plus(Space, false, false), Alt(["AND", "OR"], true), Plus(Space, false, false)]

  /** `sentence_${Date.now()}_${i}`. */
  function PartId(now: nat, i: nat): string
  {
    "sentence_" + NatToString(now) + "_" + NatToString(i)
  }

  /** The sentence of one clause match: trimmed field and operator, cleaned value. */
  function Captured(c: seq<string>, id: string, connector: Option<Connector>): Sentence
    requires |c| == 3
  {
    Sentence(id, Trim(c[0]), Trim(c[1]), ValueText(c[2]), connector)
  }

  /** One part of the split text: trimmed, stripped of every parenthesis, then matched. */
  function PartSentence(part: string, id: string, connector: Option<Connector>): Option<Sentence>
  {
    var m := ClauseCaptures(RemoveChars(Trim(part), "()"));
    if m.None? then None else Some(Captured(m.value, id, connector))
  }

  /** The connector of part `i`: the token before it, none for the first part. */
  function PartConnector(parts: seq<string>, i: nat): Option<Connector>
    requires i < |parts|
  {
    if i > 0 then Some(ConnectorOf(parts[i - 1])) else None
  }

  /** What each part of the split text reads as. */
  function PartReads(parts: seq<string>, now: nat): (r: seq<Option<Sentence>>)
    ensures |r| == |parts|
  {
    seq(|parts|, i requires 0 <= i < |parts| => PartSentence(parts[i], PartId(now, i), PartConnector(parts, i)))
  }

  /** The sentences read at positions `i`, `i + 2`, ..., skipping the parts that do not match. */
  function EveryOther(rs: seq<Option<Sentence>>, i: nat): seq<Sentence>
    decreases |rs| - i
  {
    if i >= |rs| then []
    else (if rs[i].Some? then [rs[i].value] else []) + EveryOther(rs, i + 2)
  }

  /** The sentences of the clause parts `0, 2, 4, ...` of the split text. */
  function PartSentences(parts: seq<string>, now: nat): seq<Sentence>
  {
    EveryOther(PartReads(parts, now), 0)
  }

  /** Whether the text takes the connector branch. */
  predicate HasConnector(expression: string)
  {
    Contains(expression, " AND ") || Contains(expression, " OR ")
  }

  /** What `parseConditionToSentences` returns; `now` is the clock reading and `blankId` the id the
    * empty sentence would get. */
  function SentencesOf(expression: string, now: nat, blankId: string): seq<Sentence>
  {
    if expression == [] then [EmptySentence(blankId)]
    else if HasConnector(expression) then
      var ss := PartSentences(Split(SplitRe, expression), now);
      if ss != [] then ss else [EmptySentence(blankId)]
    else
      var m := ClauseCaptures(expression);
      if m.None? then [EmptySentence(blankId)]
      else [Captured(m.value, "sentence_" + NatToString(now), None)]
  }

  /** `parseConditionToSentences`. */
  method ParseConditionToSentences(expression: string, now: nat, blankId: string) returns (r: seq<Sentence>)
    ensures r == SentencesOf(expression, now, blankId)
  {
    if expression == [] {
      return [EmptySentence(blankId)];
    }
    if HasConnector(expression) {
      var sentences := CollectEveryOther(PartReads(Split(SplitRe, expression), now));
      return if sentences != [] then sentences else [EmptySentence(blankId)];
    }
    var m := ClauseCaptures(expression);
    if m.Some? {
      return [Captured(m.value, "sentence_" + NatToString(now), None)];
    }
    return [EmptySentence(blankId)];
  }

  /** The loop of the parser over the parts `0, 2, 4, ...`, pushing the sentence of each part that
    * matches. What a part reads as does not depend on the others, so the reads are taken first. */
  method CollectEveryOther(rs: seq<Option<Sentence>>) returns (sentences: seq<Sentence>)
    ensures sentences == EveryOther(rs, 0)
  {
    sentences := [];
    var i := 0;
    while i < |rs|
      invariant sentences + EveryOther(rs, i) == EveryOther(rs, 0)
      decreases |rs| - i
    {
      if rs[i].Some? {
        PushStep(sentences, rs[i].value, EveryOther(rs, i + 2));
        sentences := sentences + [rs[i].value];
      }
      i := i + 2;
    }
  }

  lemma PushStep(a: seq<Sentence>, x: Sentence, b: seq<Sentence>)
    ensures a + ([x] + b) == (a + [x]) + b
  {
  }

  // ---------------------------------------------------------------------------
  // Generation: `generateExpressionFromSentences`

  /** A sentence the generator keeps: field, operator and value all non-empty. */
  predicate Kept(s: Sentence)
  {
    s.field != [] && s.operator != [] && s.value != []
  }

  /** `sentences.filter(s => s.field && s.operator && s.value)`. */
  function KeptSentences(ss: seq<Sentence>): (r: seq<Sentence>)
    ensures |r| <= |ss|
    ensures forall i :: 0 <= i < |r| ==> Kept(r[i]) && r[i] in ss
    ensures (forall i :: 0 <= i < |ss| ==> Kept(ss[i])) ==> r == ss
    ensures forall s :: s in ss && Kept(s) ==> s in r
  {
    if ss == [] then []
    else (if Kept(ss[0]) then [ss[0]] else []) + KeptSentences(ss[1..])
  }

  /** The filter keeps order: filtering a concatenation concatenates the filtered parts. */
  lemma {:induction false} KeptConcat(a: seq<Sentence>, b: seq<Sentence>)
    ensures KeptSentences(a + b) == KeptSentences(a) + KeptSentences(b)
  {
    if a == [] {
      assert a + b == b;
    } else {
      assert (a + b)[1..] == a[1..] + b;
      KeptConcat(a[1..], b);
    }
  }

  /** The clause of one sentence. */
  function SentenceClause(s: Sentence): string
  {
    Clause(s.field, s.operator, s.value)
  }

  /** `logicalConnector || 'AND'`. */
  function JoinText(s: Sentence): string
  {
    if s.connector.Some? then ConnectorText(s.connector.value) else "AND"
  }

  /** `c1 K2 c2 ... Kn cn`: the clauses joined by each later sentence's connector. */
  function Chain(v: seq<Sentence>): string
    requires v != []
  {
    if |v| == 1 then SentenceClause(v[0])
    else Chain(v[..|v| - 1]) + " " + JoinText(v[|v| - 1]) + " " + SentenceClause(v[|v| - 1])
  }

  /** What `generateExpressionFromSentences` returns. */
  function ExpressionOf(ss: seq<Sentence>): string
  {
    var v := KeptSentences(ss);
    if v == [] then "" else if |v| == 1 then Chain(v) else "( " + Chain(v) + " )"
  }

  /** `generateExpressionFromSentences`. */
  method GenerateExpressionFromSentences(sentences: seq<Sentence>) returns (r: string)
    ensures r == ExpressionOf(sentences)
  {
    var valid := KeptSentences(sentences);
    if |valid| == 0 {
      return "";
    }
    if |valid| == 1 {
      return SentenceClause(valid[0]);
    }
    var result := JoinClauses(valid);
    return "( " + result + " )";
  }

  /** The loop of the generator: the first clause, then ` K c` for each later sentence. */
  method JoinClauses(valid: seq<Sentence>) returns (result: string)
    requires valid != []
    ensures result == Chain(valid)
  {
    result := SentenceClause(valid[0]);
    for i := 1 to |valid|
      invariant result == Chain(valid[..i])
    {
      ghost var w := valid[..i + 1];
      assert w[..|w| - 1] == valid[..i] && w[|w| - 1] == valid[i];
      result := result + " " + JoinText(valid[i]) + " " + SentenceClause(valid[i]);
    }
    assert valid[..|valid|] == valid;
  }

  /** No kept sentence gives no text, one gives its bare clause, more give the chain in parentheses
    * with a space inside each. */
  lemma ExpressionShape(ss: seq<Sentence>)
    ensures var v := KeptSentences(ss);
            (v == [] <==> ExpressionOf(ss) == "") &&
            (|v| == 1 ==> ExpressionOf(ss) == SentenceClause(v[0])) &&
            (|v| >= 2 ==> ExpressionOf(ss) == "( " + Chain(v) + " )")
  {
    var v := KeptSentences(ss);
    if v != [] {
      ChainNonEmpty(v);
    }
  }

  lemma {:induction false} ChainNonEmpty(v: seq<Sentence>)
    requires v != []
    ensures |Chain(v)| >= |SentenceClause(v[0])| > 0
  {
    if |v| > 1 {
      ChainNonEmpty(v[..|v| - 1]);
    }
  }

  /** The empty sentence is never kept, so it generates no text. */
  lemma EmptySentenceNoText(id: string)
    ensures ExpressionOf([EmptySentence(id)]) == ""
  {
    assert !Kept(EmptySentence(id));
  }

  /** Parsing gives the single empty sentence for an empty text, for a text without a clause and
    * for a connector text none of whose parts holds one; generating from that gives `''`. */
  lemma EmptyCases(expression: string, now: nat, blankId: string)
    ensures expression == [] ==> SentencesOf(expression, now, blankId) == [EmptySentence(blankId)]
    ensures expression != [] && !HasConnector(expression) && ClauseCaptures(expression).None? ==>
              SentencesOf(expression, now, blankId) == [EmptySentence(blankId)]
    ensures expression != [] && HasConnector(expression) && PartSentences(Split(SplitRe, expression), now) == [] ==>
              SentencesOf(expression, now, blankId) == [EmptySentence(blankId)]
    ensures ExpressionOf([EmptySentence(blankId)]) == ""
  {
    EmptySentenceNoText(blankId);
  }

  // ---------------------------------------------------------------------------
  // Editing the sentence list

  /** The first sentence carries no connector. */
  predicate HeadClear(ss: seq<Sentence>)
  {
    ss == [] || ss[0].connector.None?
  }

  /** `addSentence`: a blank sentence appended, joined by `AND` exactly when the list was not empty. */
  function SentenceAdded(ss: seq<Sentence>, id: string): (r: seq<Sentence>)
    ensures |r| == |ss| + 1 && r[..|ss|] == ss
    ensures r[|ss|].field == "" && r[|ss|].operator == "==" && r[|ss|].value == "" && r[|ss|].id == id
    ensures r[|ss|].connector == Some(AND) <==> ss != []
    ensures r[|ss|].connector.None? <==> ss == []
  {
    var s := EmptySentence(id);
    ss + [if ss != [] then s.(connector := Some(AND)) else s]
  }

  /** `prev.filter(s => s.id !== id)`. */
  function WithoutId(ss: seq<Sentence>, id: string): (r: seq<Sentence>)
    ensures |r| <= |ss|
    ensures forall i :: 0 <= i < |r| ==> r[i].id != id && r[i] in ss
    ensures forall s :: s in ss && s.id != id ==> s in r
    ensures (forall i :: 0 <= i < |ss| ==> ss[i].id != id) ==> r == ss
  {
    if ss == [] then []
    else (if ss[0].id != id then [ss[0]] else []) + WithoutId(ss[1..], id)
  }

  /** `removeSentence`: the sentences with the id dropped, and the connector of the new first one
    * cleared. */
  function SentenceRemoved(ss: seq<Sentence>, id: string): (r: seq<Sentence>)
    ensures HeadClear(r)
    ensures |r| == |WithoutId(ss, id)|
    ensures r != [] ==> r[0] == WithoutId(ss, id)[0].(connector := None)
    ensures forall i :: 0 < i < |r| ==> r[i] == WithoutId(ss, id)[i]
  {
    var f := WithoutId(ss, id);
    if f != [] && f[0].connector.Some? then [f[0].(connector := None)] + f[1..] else f
  }

  /** The keys `updateSentence` is called with: one of the three blanks or the connector. */
  datatype SentencePatch = SetField(field: string) | SetOperator(operator: string) | SetValue(value: string)
                         | SetConnector(connector: Connector)

  /** `{ ...sentence, ...updates }`. */
  function Patched(s: Sentence, p: SentencePatch): Sentence
  {
    match p
    case SetField(f) => s.(field := f)
    case SetOperator(op) => s.(operator := op)
    case SetValue(v) => s.(value := v)
    case SetConnector(c) => s.(connector := Some(c))
  }

  /** `updateSentence`: the patch merged into the sentences with the id, the others unchanged. */
  function SentenceUpdated(ss: seq<Sentence>, id: string, p: SentencePatch): (r: seq<Sentence>)
    ensures |r| == |ss|
    ensures forall i :: 0 <= i < |ss| && ss[i].id == id ==> r[i] == Patched(ss[i], p)
    ensures forall i :: 0 <= i < |ss| && ss[i].id != id ==> r[i] == ss[i]
  {
    seq(|ss|, i requires 0 <= i < |ss| => if ss[i].id == id then Patched(ss[i], p) else ss[i])
  }

  /** Adding keeps the first sentence clear, removing makes it clear, and updating keeps it clear
    * unless it sets the first sentence's connector (the form shows the connector menu only on a
    * sentence that already has one). */
  lemma HeadClearKept(ss: seq<Sentence>, id: string, p: SentencePatch)
    ensures HeadClear(ss) ==> HeadClear(SentenceAdded(ss, id))
    ensures HeadClear(SentenceRemoved(ss, id))
    ensures HeadClear(ss) && (ss == [] || ss[0].id != id || !p.SetConnector?) ==> HeadClear(SentenceUpdated(ss, id, p))
  {
  }

  // ---------------------------------------------------------------------------
  // Editing the effect list

  /** The keys `updateEffect` is called with. */
  datatype EffectPatch = SetFields(fields: seq<string>) | SetShow(show: bool) | SetOptional(optional: bool)
                       | SetAllowed(allowed: seq<string>) | SetDefaults(defaults: seq<string>)

  /** `{ ...effect, ...updates }`. */
  function EffectPatched(e: Effect, p: EffectPatch): Effect
  {
    match p
    case SetFields(fs) => e.(fields := fs)
    case SetShow(b) => e.(show := b)
    case SetOptional(b) => e.(optional := Some(b))
    case SetAllowed(vs) => e.(allowedValues := vs)
    case SetDefaults(vs) => e.(defaultValues := Some(vs))
  }

  /** `updateEffect(index, updates)`: only position `index` changes. */
  function EffectUpdated(es: seq<Effect>, index: int, p: EffectPatch): (r: seq<Effect>)
    ensures |r| == |es|
    ensures 0 <= index < |es| ==> r[index] == EffectPatched(es[index], p)
    ensures forall i :: 0 <= i < |es| && i != index ==> r[i] == es[i]
  {
    seq(|es|, i requires 0 <= i < |es| => if i == index then EffectPatched(es[i], p) else es[i])
  }

  /** `Array.prototype.splice(start, 1)` on a copy: a negative start counts from the end (and stops at
    * the front), and a start past the end removes nothing. */
  function SpliceOne<T>(xs: seq<T>, start: int): (r: seq<T>)
    ensures 0 <= start < |xs| ==> r == xs[..start] + xs[start + 1..]
    ensures -|xs| <= start < 0 ==> r == xs[..|xs| + start] + xs[|xs| + start + 1..]
    ensures start < -|xs| && xs != [] ==> r == xs[1..]
    ensures start >= |xs| ==> r == xs
  {
    var actual := if start < 0 then (if |xs| + start < 0 then 0 else |xs| + start)
                  else (if start < |xs| then start else |xs|);
    RemoveAt(xs, actual)
  }

  /** `addAllowedValue(effectIndex, value)`: a blank value changes nothing; otherwise the trimmed value
    * is appended to that effect's allowed values. */
  function AllowedAdded(es: seq<Effect>, effectIndex: int, value: string): (r: seq<Effect>)
    requires Trim(value) != "" ==> 0 <= effectIndex < |es|
    ensures Trim(value) == "" ==> r == es
    ensures Trim(value) != "" ==>
              |r| == |es| && r[effectIndex].allowedValues == es[effectIndex].allowedValues + [Trim(value)] &&
              r[effectIndex] == es[effectIndex].(allowedValues := r[effectIndex].allowedValues) &&
              forall i :: 0 <= i < |es| && i != effectIndex ==> r[i] == es[i]
  {
    if Trim(value) == "" then es
    else EffectUpdated(es, effectIndex, SetAllowed(es[effectIndex].allowedValues + [Trim(value)]))
  }

  /** `removeAllowedValue(effectIndex, valueIndex)`: one position spliced out of that effect's allowed
    * values. */
  function AllowedRemoved(es: seq<Effect>, effectIndex: int, valueIndex: int): (r: seq<Effect>)
    requires 0 <= effectIndex < |es|
    ensures |r| == |es| && r[effectIndex].allowedValues == SpliceOne(es[effectIndex].allowedValues, valueIndex)
    ensures r[effectIndex] == es[effectIndex].(allowedValues := r[effectIndex].allowedValues)
    ensures forall i :: 0 <= i < |es| && i != effectIndex ==> r[i] == es[i]
  {
    EffectUpdated(es, effectIndex, SetAllowed(SpliceOne(es[effectIndex].allowedValues, valueIndex)))
  }

  /** The remove button of a default value: one position spliced out of that effect's default values,
    * an absent list read as empty. */
  function DefaultRemoved(es: seq<Effect>, effectIndex: int, valueIndex: int): (r: seq<Effect>)
    requires 0 <= effectIndex < |es|
    ensures |r| == |es| && r[effectIndex].defaultValues == Some(SpliceOne(es[effectIndex].defaultValues.GetOr([]), valueIndex))
    ensures r[effectIndex] == es[effectIndex].(defaultValues := r[effectIndex].defaultValues)
    ensures forall i :: 0 <= i < |es| && i != effectIndex ==> r[i] == es[i]
  {
    EffectUpdated(es, effectIndex, SetDefaults(SpliceOne(es[effectIndex].defaultValues.GetOr([]), valueIndex)))
  }

  /** Removing an allowed value right after adding it gives the effects back. */
  lemma AddThenRemoveAllowed(es: seq<Effect>, effectIndex: nat, value: string)
    requires effectIndex < |es| && Trim(value) != ""
    ensures AllowedRemoved(AllowedAdded(es, effectIndex, value), effectIndex, |es[effectIndex].allowedValues|) == es
  {
    var xs := es[effectIndex].allowedValues;
    assert (xs + [Trim(value)])[..|xs|] == xs;
    var r := AllowedRemoved(AllowedAdded(es, effectIndex, value), effectIndex, |xs|);
    assert forall i :: 0 <= i < |es| ==> r[i] == es[i];
  }

  // ---------------------------------------------------------------------------
  // The delayed commit

  /** The delay of the commit timer. */
  const CommitDelay := 500

  /** What the scheduled commit closes over, and when it is due. */
  datatype Snapshot = Snapshot(sentences: seq<Sentence>, effects: seq<Effect>, condition: Option<Condition>, due: nat)

  /** The condition the timer hands to `onConditionChange`, if any, given `lastConditionRef.current`. */
  function Committed(snap: Snapshot, last: Option<Condition>, now: nat): (r: Option<Condition>)
    ensures var expression := ExpressionOf(snap.sentences);
            (r.Some? <==>
               (expression != "" || snap.condition.Some?) &&
               (last.None? || last.value.expression != expression || last.value.effects != snap.effects)) &&
            (r.Some? ==> r.value == Condition(ConditionEditor.ConditionId(snap.condition, now),
                                              ConditionEditor.InitialName(snap.condition), expression, snap.effects))
  {
    var expression := ExpressionOf(snap.sentences);
    if expression == "" && snap.condition.None? then None
    else
      var updated := Condition(ConditionEditor.ConditionId(snap.condition, now),
                               ConditionEditor.InitialName(snap.condition), expression, snap.effects);
      if last.None? || last.value.expression != updated.expression || last.value.effects != updated.effects
      then Some(updated)
      else None
  }

  /** `c?.id` and `c?.expression`, with `undefined` for a missing condition. */
  function IdOf(c: Option<Condition>): Option<string>
  {
    if c.Some? then Some(c.value.id) else None
  }

  function ExpressionOfCondition(c: Option<Condition>): Option<string>
  {
    if c.Some? then Some(c.value.expression) else None
  }

  /** The test of the init effect. */
  predicate ConditionChanged(last: Option<Condition>, condition: Option<Condition>)
  {
    IdOf(last) != IdOf(condition) || ExpressionOfCondition(last) != ExpressionOfCondition(condition)
  }

  /** The init effect re-reads exactly when the id or the expression differs: a change of name or of
    * effects alone is not picked up, and a missing condition on the first render is not either. */
  lemma ChangedOnlyByIdOrExpression(last: Condition, condition: Condition)
    ensures ConditionChanged(Some(last), Some(condition)) <==>
              last.id != condition.id || last.expression != condition.expression
    ensures !ConditionChanged(None, None)
    ensures ConditionChanged(None, Some(condition))
  {
  }

  /** The component: its two lists, `lastConditionRef` and the pending timer. */
  class Form {
    var sentences: seq<Sentence>
    var effects: seq<Effect>
    var last: Option<Condition>
    var pending: Option<Snapshot>

    constructor ()
      ensures sentences == [] && effects == [] && last.None? && pending.None?
    {
      sentences := [];
      effects := [];
      last := None;
      pending := None;
    }

    /** The init effect: on a changed condition, the sentences parsed from a non-empty expression
      * with the condition's effects, or one blank sentence with the default effect. */
    method Init(condition: Option<Condition>, now: nat, blankId: string)
      modifies this
      ensures !ConditionChanged(old(last), condition) ==>
                sentences == old(sentences) && effects == old(effects) && last == old(last)
      ensures ConditionChanged(old(last), condition) && condition.Some? && condition.value.expression != "" ==>
                sentences == SentencesOf(condition.value.expression, now, blankId) &&
                effects == condition.value.effects && last == condition
      ensures ConditionChanged(old(last), condition) && !(condition.Some? && condition.value.expression != "") ==>
                sentences == [EmptySentence(blankId)] && effects == [DefaultEffect] && last == condition
      ensures pending == old(pending)
    {
      if ConditionChanged(last, condition) {
        last := condition;
        if condition.Some? && condition.value.expression != "" {
          sentences := ParseConditionToSentences(condition.value.expression, now, blankId);
          effects := condition.value.effects;
        } else {
          sentences := [EmptySentence(blankId)];
          effects := [DefaultEffect];
        }
      }
    }

    method AddSentence(id: string)
      modifies this
      ensures sentences == SentenceAdded(old(sentences), id)
      ensures effects == old(effects) && last == old(last) && pending == old(pending)
    {
      sentences := SentenceAdded(sentences, id);
    }

    method RemoveSentence(id: string)
      modifies this
      ensures sentences == SentenceRemoved(old(sentences), id)
      ensures effects == old(effects) && last == old(last) && pending == old(pending)
    {
      sentences := SentenceRemoved(sentences, id);
    }

    method UpdateSentence(id: string, p: SentencePatch)
      modifies this
      ensures sentences == SentenceUpdated(old(sentences), id, p)
      ensures effects == old(effects) && last == old(last) && pending == old(pending)
    {
      sentences := SentenceUpdated(sentences, id, p);
    }

    /** `addEffect`: the default effect appended. */
    method AddEffect()
      modifies this
      ensures effects == old(effects) + [DefaultEffect]
      ensures sentences == old(sentences) && last == old(last) && pending == old(pending)
    {
      effects := effects + [DefaultEffect];
    }

    /** `removeEffect(index)`. */
    method RemoveEffect(index: int)
      modifies this
      ensures effects == RemoveAt(old(effects), index)
      ensures sentences == old(sentences) && last == old(last) && pending == old(pending)
    {
      effects := RemoveAt(effects, index);
    }

    method UpdateEffect(index: int, p: EffectPatch)
      modifies this
      ensures effects == EffectUpdated(old(effects), index, p)
      ensures sentences == old(sentences) && last == old(last) && pending == old(pending)
    {
      effects := EffectUpdated(effects, index, p);
    }

    /** `addAllowedValue`; reading `effects[effectIndex]` fails for a missing effect, which only a
      * non-blank value reaches. */
    method AddAllowedValue(effectIndex: int, value: string)
      requires Trim(value) != "" ==> 0 <= effectIndex < |effects|
      modifies this
      ensures effects == AllowedAdded(old(effects), effectIndex, value)
      ensures sentences == old(sentences) && last == old(last) && pending == old(pending)
    {
      if Trim(value) == "" {
        return;
      }
      effects := EffectUpdated(effects, effectIndex, SetAllowed(effects[effectIndex].allowedValues + [Trim(value)]));
    }

    /** `removeAllowedValue`; reading `effects[effectIndex]` fails for a missing effect. */
    method RemoveAllowedValue(effectIndex: int, valueIndex: int)
      requires 0 <= effectIndex < |effects|
      modifies this
      ensures effects == AllowedRemoved(old(effects), effectIndex, valueIndex)
      ensures sentences == old(sentences) && last == old(last) && pending == old(pending)
    {
      effects := AllowedRemoved(effects, effectIndex, valueIndex);
    }

    /** The remove button of a default value. */
    method RemoveDefaultValue(effectIndex: int, valueIndex: int)
      requires 0 <= effectIndex < |effects|
      modifies this
      ensures effects == DefaultRemoved(old(effects), effectIndex, valueIndex)
      ensures sentences == old(sentences) && last == old(last) && pending == old(pending)
    {
      effects := DefaultRemoved(effects, effectIndex, valueIndex);
    }

    /** `debouncedUpdate`, run after every change of the lists or of the condition: any pending commit
      * is dropped and a new one is scheduled `CommitDelay` from now over the current state. */
    method DebouncedUpdate(condition: Option<Condition>, now: nat)
      modifies this
      ensures pending == Some(Snapshot(sentences, effects, condition, now + CommitDelay))
      ensures sentences == old(sentences) && effects == old(effects) && last == old(last)
    {
      pending := Some(Snapshot(sentences, effects, condition, now + CommitDelay));
    }

    /** The timer fires: the condition handed to `onConditionChange`, if any. `lastConditionRef` is
      * not updated by a commit. */
    method TimerFires(now: nat) returns (emitted: Option<Condition>)
      requires pending.Some? && pending.value.due <= now
      modifies this
      ensures emitted == Committed(old(pending).value, last, now)
      ensures pending.None? && sentences == old(sentences) && effects == old(effects) && last == old(last)
    {
      var snap := pending.value;
      var expression := GenerateExpressionFromSentences(snap.sentences);
      emitted := None;
      if expression != "" || snap.condition.Some? {
        var updated := Condition(ConditionEditor.ConditionId(snap.condition, now),
                                 ConditionEditor.InitialName(snap.condition), expression, snap.effects);
        if last.None? || last.value.expression != updated.expression || last.value.effects != updated.effects {
          emitted := Some(updated);
        }
      }
      pending := None;
    }
  }
}
