/**
 * The graph editor of a condition: the translation from expression text to a
 * trigger → operator → value → action graph and back, the effects, names and
 * readable sentence derived from the graph, and the editor state that the
 * toolbar, the view switch and the drag-to-create gesture change.
 */
module ConditionEditor {
  import opened Wrappers
  import opened Text
  import opened ClauseSyntax
  import opened Types

  const NodeKinds: seq<string> := ["trigger", "operator", "value", "action", "logical"]

  const L1Field := "custom_fields.issue_category_l1"

  /** `getDefaultNodeData`: the data a freshly created node of each kind starts with. */
  function DefaultNodeData(kind: string): (d: NodeData)
    ensures kind !in NodeKinds ==> d == NoData
    ensures d.value.Some? <==> kind == "value"
    ensures d.operator.Some? <==> kind == "operator" || kind == "logical"
    ensures d.show == (if kind == "action" then Some(true) else None)
    ensures d.defaultValues == None
  {
    if kind == "trigger" then NoData.(field := Some("applies_to_part"))
    else if kind == "logical" then NoData.(operator := Some("AND"))
    else if kind == "operator" then NoData.(operator := Some("=="))
    else if kind == "value" then NoData.(value := Some(""))
    else if kind == "action" then NoData.(field := Some(L1Field), allowedValues := Some([]), show := Some(true))
    else NoData
  }

  /** `getNextNodeType`: the kind of node the drag and plus gestures create after a node. */
  function NextNodeType(kind: string): (r: string)
    ensures r in NodeKinds && r != "logical"
    ensures kind !in NodeKinds ==> r == "trigger"
  {
    if kind == "trigger" then "operator"
    else if kind == "operator" then "value"
    else if kind == "value" then "action"
    else if kind == "logical" then "operator"
    else "trigger"
  }

  /** `createDefaultFlow`: the starter graph of a new condition. */
  function DefaultFlow(): Graph
  {
    Graph(
      [ FlowNode("if-default", "trigger", Position(50, 150), NoData.(field := Some("applies_to_part"))),
        FlowNode("operator-default", "operator", Position(280, 150), NoData.(operator := Some("=="))),
        FlowNode("value-default", "value", Position(480, 150), NoData.(value := Some(""))),
        FlowNode("action-default", "action", Position(700, 150),
                 NoData.(field := Some(L1Field), allowedValues := Some([]), show := Some(true))) ],
      [ FlowEdge("if-operator", "if-default", "operator-default"),
        FlowEdge("operator-value", "operator-default", "value-default"),
        FlowEdge("value-action", "value-default", "action-default") ])
  }

  // ---------------------------------------------------------------------------
  // Text to graph
  // ---------------------------------------------------------------------------

  function TriggerNode(field: string): FlowNode
  {
    FlowNode("if-1", "trigger", Position(50, 150), NoData.(field := Some(field)))
  }

  function OperatorNode(op: string): FlowNode
  {
    FlowNode("operator-1", "operator", Position(280, 150), NoData.(operator := Some(op)))
  }

  function ValueNode(value: string): FlowNode
  {
    FlowNode("value-1", "value", Position(480, 150), NoData.(value := Some(value)))
  }

  /** `effect.fields[0] || ''`. */
  function FirstField(e: Effect): string
  {
    if |e.fields| > 0 then e.fields[0] else ""
  }

  function ActionId(i: nat): string
  {
    "action-" + NatToString(i + 1)
  }

  /** The action node built for effect number `i`; `effect.show || true` is always `true`. */
  function ActionNode(i: nat, e: Effect): FlowNode
  {
    FlowNode(ActionId(i), "action", Position(700, 100 + i * 120),
             NoData.(field := Some(FirstField(e)), allowedValues := Some(e.allowedValues),
                     defaultValues := Some(e.defaultValues.GetOr([])), show := Some(true)))
  }

  function ActionEdge(i: nat): FlowEdge
  {
    FlowEdge("value-action-" + NatToString(i + 1), "value-1", ActionId(i))
  }

  const IfOperatorEdge := FlowEdge("if-operator", "if-1", "operator-1")
  const OperatorValueEdge := FlowEdge("operator-value", "operator-1", "value-1")

  /** The action nodes of the first `k` effects. */
  function ActionNodes(effects: seq<Effect>, k: nat): (r: seq<FlowNode>)
    requires k <= |effects|
    ensures |r| == k
    ensures forall i :: 0 <= i < k ==> r[i] == ActionNode(i, effects[i])
  {
    if k == 0 then [] else ActionNodes(effects, k - 1) + [ActionNode(k - 1, effects[k - 1])]
  }

  /** The value-to-action edges of the first `k` effects. */
  function ActionEdges(k: nat): (r: seq<FlowEdge>)
    ensures |r| == k
    ensures forall i :: 0 <= i < k ==> r[i] == ActionEdge(i)
  {
    if k == 0 then [] else ActionEdges(k - 1) + [ActionEdge(k - 1)]
  }

  /** The graph `parseExpressionToNodes` builds: nothing when the clause pattern finds no match. */
  function ParsedGraph(expression: string, effects: seq<Effect>): Graph
  {
    GraphOfCaptures(ClauseCaptures(expression), effects)
  }

  /** The graph built from the captures of the clause pattern, if any. */
  function GraphOfCaptures(m: Option<seq<string>>, effects: seq<Effect>): Graph
    requires m.Some? ==> |m.value| == 3
  {
    match m
    case None => Graph([], [])
    case Some(c) => ClauseGraph(Trim(c[0]), Trim(c[1]), ValueText(c[2]), effects)
  }

  /** The graph of one clause: the three clause nodes and one action per effect. */
  function ClauseGraph(field: string, op: string, value: string, effects: seq<Effect>): Graph
  {
    Graph([TriggerNode(field), OperatorNode(op), ValueNode(value)] + ActionNodes(effects, |effects|),
          ActionEdges(|effects|) + [IfOperatorEdge, OperatorValueEdge])
  }

  /** `parseExpressionToNodes`: the three clause nodes, then, from the `effects.forEach`, one action
    * node and one edge per effect, then the two chain edges; nothing when the clause pattern finds
    * no match. The loop builds the action part first, which no other step reads. */
  method ParseExpressionToNodes(expression: string, effects: seq<Effect>) returns (g: Graph)
    ensures g == ParsedGraph(expression, effects)
  {
    var actions: seq<FlowNode> := [];
    var actionEdges: seq<FlowEdge> := [];
    var i := 0;
    while i < |effects|
      invariant 0 <= i <= |effects|
      invariant actions == ActionNodes(effects, i)
      invariant actionEdges == ActionEdges(i)
    {
      actions := actions + [ActionNode(i, effects[i])];
      actionEdges := actionEdges + [ActionEdge(i)];
      i := i + 1;
    }
    var m := ClauseCaptures(expression);
    if m.Some? {
      var c := m.value;
      g := Graph([TriggerNode(Trim(c[0])), OperatorNode(Trim(c[1])), ValueNode(ValueText(c[2]))] + actions,
                 actionEdges + [IfOperatorEdge, OperatorValueEdge]);
    } else {
      g := Graph([], []);
    }
  }

  /** The edges of a parsed graph join exactly if-1 → operator-1 → value-1 and value-1 → each action. */
  predicate ParsedEdgeEnds(edges: seq<FlowEdge>, k: nat)
  {
    (forall x :: 0 <= x < |edges| ==>
       (edges[x].source == "if-1" && edges[x].target == "operator-1") ||
       (edges[x].source == "operator-1" && edges[x].target == "value-1") ||
       (edges[x].source == "value-1" && exists i :: 0 <= i < k && edges[x].target == ActionId(i))) &&
    IfOperatorEdge in edges && OperatorValueEdge in edges &&
    (forall i :: 0 <= i < k ==> ActionEdge(i) in edges)
  }

  lemma ActionIdsDistinct(i: nat, j: nat)
    requires ActionId(i) == ActionId(j)
    ensures i == j
  {
    var a, b := ActionId(i), ActionId(j);
    assert a[7..] == NatToString(i + 1);
    assert b[7..] == NatToString(j + 1);
    NatToStringInjective(i + 1, j + 1);
  }

  /** The three clause nodes and the action nodes have distinct ids. */
  lemma ClauseGraphIds(field: string, op: string, value: string, effects: seq<Effect>)
    ensures var ns := ClauseGraph(field, op, value, effects).nodes;
            |ns| == 3 + |effects| && ns[0].id == "if-1" && ns[1].id == "operator-1" && ns[2].id == "value-1" &&
            (forall i :: 0 <= i < |effects| ==> ns[3 + i].id == ActionId(i)) &&
            DistinctIds(ns)
  {
    var ns := ClauseGraph(field, op, value, effects).nodes;
    forall i, j | 0 <= i < j < |ns| ensures ns[i].id != ns[j].id {
      if 3 <= i {
        assert ns[i].id == ActionId(i - 3) && ns[j].id == ActionId(j - 3);
        if ActionId(i - 3) == ActionId(j - 3) {
          ActionIdsDistinct(i - 3, j - 3);
        }
      } else if 3 <= j {
        assert ns[j].id == ActionId(j - 3);
        assert ActionId(j - 3)[0] == 'a';
      }
    }
  }

  /** The edges form the if → operator → value → action fan. */
  lemma ClauseGraphEdges(field: string, op: string, value: string, effects: seq<Effect>)
    ensures var es := ClauseGraph(field, op, value, effects).edges;
            |es| == 2 + |effects| && ParsedEdgeEnds(es, |effects|)
  {
    var es := ClauseGraph(field, op, value, effects).edges;
    var k := |effects|;
    forall x | 0 <= x < |es|
      ensures (es[x].source == "if-1" && es[x].target == "operator-1") ||
              (es[x].source == "operator-1" && es[x].target == "value-1") ||
              (es[x].source == "value-1" && exists i :: 0 <= i < k && es[x].target == ActionId(i))
    {
      if x < k {
        assert es[x] == ActionEdge(x);
      } else {
        assert es[x] == IfOperatorEdge || es[x] == OperatorValueEdge;
      }
    }
    forall i | 0 <= i < k ensures ActionEdge(i) in es {
      assert es[i] == ActionEdge(i);
    }
    assert es[k] == IfOperatorEdge && es[k + 1] == OperatorValueEdge;
  }

  /** Every action node of a clause graph is shown. */
  lemma ClauseGraphShown(field: string, op: string, value: string, effects: seq<Effect>)
    ensures var ns := ClauseGraph(field, op, value, effects).nodes;
            forall x :: 0 <= x < |ns| && ns[x].kind == "action" ==> ns[x].data.show == Some(true)
  {
    var ns := ClauseGraph(field, op, value, effects).nodes;
    forall x | 0 <= x < |ns| && ns[x].kind == "action" ensures ns[x].data.show == Some(true) {
      if x >= 3 {
        assert ns[x] == ActionNode(x - 3, effects[x - 3]);
      }
    }
  }

  /** No match gives the empty graph; a match with k effects gives 3 + k nodes with distinct ids,
    * 2 + k edges forming the if → operator → value → action fan, and every action shown. */
  lemma ParsedGraphShape(expression: string, effects: seq<Effect>)
    ensures var g := ParsedGraph(expression, effects);
            ClauseCaptures(expression).None? <==> g.nodes == [] && g.edges == []
    ensures var g := ParsedGraph(expression, effects);
            ClauseCaptures(expression).Some? ==>
              |g.nodes| == 3 + |effects| && |g.edges| == 2 + |effects| &&
              g.nodes[0].id == "if-1" && g.nodes[1].id == "operator-1" && g.nodes[2].id == "value-1" &&
              (forall i :: 0 <= i < |effects| ==> g.nodes[3 + i].id == ActionId(i)) &&
              DistinctIds(g.nodes) && ParsedEdgeEnds(g.edges, |effects|) &&
              (forall x :: 0 <= x < |g.nodes| && g.nodes[x].kind == "action" ==> g.nodes[x].data.show == Some(true))
  {
    var m := ClauseCaptures(expression);
    if m.Some? {
      var c := m.value;
      var f, o, v := Trim(c[0]), Trim(c[1]), ValueText(c[2]);
      assert ParsedGraph(expression, effects) == ClauseGraph(f, o, v, effects);
      ClauseGraphIds(f, o, v, effects);
      ClauseGraphEdges(f, o, v, effects);
      ClauseGraphShown(f, o, v, effects);
    }
  }

  // ---------------------------------------------------------------------------
  // Graph to text
  // ---------------------------------------------------------------------------

  /** `/['\\s]/.test(value)` as written in the logical branch: the class of `'`, `\` and `s`. */
  predicate BranchNeedsQuotes(v: string)
  {
    exists i :: 0 <= i < |v| && (v[i] == '\'' || v[i] == '\\' || v[i] == 's')
  }

  function BranchQuote(v: string): (q: string)
    ensures BranchNeedsQuotes(v) ==> q == "'" + v + "'"
    ensures !BranchNeedsQuotes(v) ==> q == v
  {
    if BranchNeedsQuotes(v) then "'" + v + "'" else v
  }

  /** The single-clause branch: the first trigger, operator and value node in list order. */
  function SingleClause(nodes: seq<FlowNode>): string
  {
    var t, o, v := FirstOfKind(nodes, "trigger"), FirstOfKind(nodes, "operator"), FirstOfKind(nodes, "value");
    if t.None? || o.None? || v.None? then ""
    else
      var field, op, value := t.value.data.field.GetOr(""), o.value.data.operator.GetOr(""), v.value.data.value.GetOr("");
      if field == "" || op == "" || value == "" || field == "none" || op == "none" then ""
      else Clause(field, op, value)
  }

  /** `edges.find(e => e.source === src && nodes.find(n => n.id === e.target)?.type === kind)`. */
  predicate LeadsTo(nodes: seq<FlowNode>, e: FlowEdge, src: string, kind: string)
  {
    e.source == src && FindNode(nodes, e.target).Some? && FindNode(nodes, e.target).value.kind == kind
  }

  function FirstEdgeTo(nodes: seq<FlowNode>, edges: seq<FlowEdge>, src: string, kind: string): Option<FlowEdge>
  {
    if |edges| == 0 then None
    else if LeadsTo(nodes, edges[0], src, kind) then Some(edges[0])
    else FirstEdgeTo(nodes, edges[1..], src, kind)
  }

  /** `None` exactly when no edge leads from `src` to a node of the kind; otherwise the first such
    * edge. */
  lemma {:induction false} FirstEdgeToFacts(nodes: seq<FlowNode>, edges: seq<FlowEdge>, src: string, kind: string)
    ensures var r := FirstEdgeTo(nodes, edges, src, kind);
            (r.None? <==> forall i :: 0 <= i < |edges| ==> !LeadsTo(nodes, edges[i], src, kind)) &&
            (r.Some? ==> exists i :: 0 <= i < |edges| && edges[i] == r.value && LeadsTo(nodes, r.value, src, kind) &&
                                     forall j :: 0 <= j < i ==> !LeadsTo(nodes, edges[j], src, kind))
  {
    if |edges| > 0 && !LeadsTo(nodes, edges[0], src, kind) {
      FirstEdgeToFacts(nodes, edges[1..], src, kind);
      assert forall i :: 1 <= i < |edges| ==> edges[i] == edges[1..][i - 1];
      var r := FirstEdgeTo(nodes, edges[1..], src, kind);
      if r.Some? {
        var i :| 0 <= i < |edges[1..]| && edges[1..][i] == r.value && LeadsTo(nodes, r.value, src, kind) &&
                 forall j :: 0 <= j < i ==> !LeadsTo(nodes, edges[1..][j], src, kind);
        assert edges[i + 1] == r.value;
        assert forall j :: 0 <= j < i + 1 ==> !LeadsTo(nodes, edges[j], src, kind);
      }
    } else if |edges| > 0 {
      assert edges[0] == FirstEdgeTo(nodes, edges, src, kind).value;
    }
  }

  /** The clause of one trigger in the logical branch, or `None` when its chain is broken. */
  function ChainClause(nodes: seq<FlowNode>, edges: seq<FlowEdge>, t: FlowNode): Option<string>
  {
    var field := t.data.field.GetOr("");
    if field == "" || field == "none" then None
    else match FirstEdgeTo(nodes, edges, t.id, "operator")
      case None => None
      case Some(e1) =>
        match FindNode(nodes, e1.target)
        case None => None
        case Some(o) =>
          var op := o.data.operator.GetOr("");
          if op == "" || op == "none" then None
          else match FirstEdgeTo(nodes, edges, o.id, "value")
            case None => None
            case Some(e2) =>
              match FindNode(nodes, e2.target)
              case None => None
              case Some(v) =>
                var value := v.data.value.GetOr("");
                if value == "" then None else Some(field + " " + op + " " + BranchQuote(value))
  }

  /** The clause outcome of each trigger of `ts`, in order. */
  function ChainResults(nodes: seq<FlowNode>, edges: seq<FlowEdge>, ts: seq<FlowNode>): (r: seq<Option<string>>)
    ensures |r| == |ts|
  {
    seq(|ts|, i requires 0 <= i < |ts| => ChainClause(nodes, edges, ts[i]))
  }

  /** The present values of `xs`, in order: the clauses of the complete chains. */
  function Somes(xs: seq<Option<string>>): (r: seq<string>)
    ensures |r| <= |xs|
  {
    if |xs| == 0 then []
    else Somes(xs[..|xs| - 1]) + (if xs[|xs| - 1].Some? then [xs[|xs| - 1].value] else [])
  }

  /** The clauses of the triggers `ts`, in order, skipping broken chains. */
  function ChainClauses(nodes: seq<FlowNode>, edges: seq<FlowEdge>, ts: seq<FlowNode>): (r: seq<string>)
    ensures |r| <= |ts|
  {
    Somes(ChainResults(nodes, edges, ts))
  }

  /** `logicalNodes[0].data.operator || 'AND'`. */
  function LogicalOperator(logical: seq<FlowNode>): string
    requires |logical| > 0
  {
    var op := logical[0].data.operator.GetOr("");
    if op == "" then "AND" else op
  }

  /** `generateExpressionFromFlow`. */
  function ExpressionFromFlow(nodes: seq<FlowNode>, edges: seq<FlowEdge>): string
  {
    var logical := OfKind(nodes, "logical");
    if |logical| == 0 then SingleClause(nodes)
    else
      var es := ChainClauses(nodes, edges, OfKind(nodes, "trigger"));
      if |es| == 0 then ""
      else if |es| == 1 then es[0]
      else "(" + Join(es, " " + LogicalOperator(logical) + " ") + ")"
  }

  /** `generateExpressionFromFlow` as the source runs it: the logical branch pushes the clause of
    * every trigger with a complete chain onto `expressions`. */
  method GenerateExpressionFromFlow(nodes: seq<FlowNode>, edges: seq<FlowEdge>) returns (r: string)
    ensures r == ExpressionFromFlow(nodes, edges)
  {
    var triggers := OfKind(nodes, "trigger");
    var logical := OfKind(nodes, "logical");
    if |logical| == 0 {
      return SingleClause(nodes);
    }
    ghost var results := ChainResults(nodes, edges, triggers);
    var expressions: seq<string> := [];
    var k := 0;
    while k < |triggers|
      invariant 0 <= k <= |triggers|
      invariant expressions == Somes(results[..k])
    {
      var c := ChainClause(nodes, edges, triggers[k]);
      assert c == results[k];
      assert results[..k + 1][..k] == results[..k];
      if c.Some? {
        expressions := expressions + [c.value];
      }
      k := k + 1;
    }
    assert results[..|triggers|] == results;
    if |expressions| == 0 {
      r := "";
    } else if |expressions| == 1 {
      r := expressions[0];
    } else {
      r := "(" + Join(expressions, " " + LogicalOperator(logical) + " ") + ")";
    }
  }

  /** Without logical nodes the text is empty exactly when a trigger, operator or value node is
    * missing, one of them is blank, or the field or operator is `none`. */
  lemma SingleClauseEmpty(nodes: seq<FlowNode>, edges: seq<FlowEdge>)
    requires OfKind(nodes, "logical") == []
    ensures var t, o, v := FirstOfKind(nodes, "trigger"), FirstOfKind(nodes, "operator"), FirstOfKind(nodes, "value");
            ExpressionFromFlow(nodes, edges) == "" <==>
              (t.None? || o.None? || v.None? ||
               t.value.data.field.GetOr("") in {"", "none"} || o.value.data.operator.GetOr("") in {"", "none"} ||
               v.value.data.value.GetOr("") == "")
  {
  }

  /** When every trigger's chain is complete there is one clause per trigger, in trigger order. */
  lemma CompleteChains(nodes: seq<FlowNode>, edges: seq<FlowEdge>, ts: seq<FlowNode>)
    requires forall i :: 0 <= i < |ts| ==> ChainClause(nodes, edges, ts[i]).Some?
    ensures var r := ChainClauses(nodes, edges, ts);
            |r| == |ts| && forall i :: 0 <= i < |ts| ==> r[i] == ChainClause(nodes, edges, ts[i]).value
  {
    AllSomes(ChainResults(nodes, edges, ts));
  }

  lemma {:induction false} AllSomes(xs: seq<Option<string>>)
    requires forall i :: 0 <= i < |xs| ==> xs[i].Some?
    ensures |Somes(xs)| == |xs| && forall i :: 0 <= i < |xs| ==> Somes(xs)[i] == xs[i].value
  {
    if |xs| > 0 {
      AllSomes(xs[..|xs| - 1]);
    }
  }

  /** A trigger whose chain is broken contributes nothing. */
  lemma BrokenChainSkipped(nodes: seq<FlowNode>, edges: seq<FlowEdge>, a: seq<FlowNode>, t: FlowNode, b: seq<FlowNode>)
    requires ChainClause(nodes, edges, t).None?
    ensures ChainClauses(nodes, edges, a + [t] + b) == ChainClauses(nodes, edges, a + b)
  {
    var xs, ys := ChainResults(nodes, edges, a), ChainResults(nodes, edges, b);
    assert ChainResults(nodes, edges, a + [t] + b) == xs + [None] + ys;
    assert ChainResults(nodes, edges, a + b) == xs + ys;
    SomesSkip(xs, ys);
  }

  lemma {:induction false} SomesSkip(xs: seq<Option<string>>, ys: seq<Option<string>>)
    ensures Somes(xs + [None] + ys) == Somes(xs + ys)
    decreases |ys|
  {
    if |ys| == 0 {
      assert xs + [None] + ys == xs + [None] && (xs + [None])[..|xs|] == xs && xs + ys == xs;
    } else {
      var y0 := ys[..|ys| - 1];
      assert (xs + [None] + ys)[..|xs + [None] + ys| - 1] == xs + [None] + y0;
      assert (xs + ys)[..|xs + ys| - 1] == xs + y0;
      assert (xs + [None] + ys)[|xs + [None] + ys| - 1] == ys[|ys| - 1] == (xs + ys)[|xs + ys| - 1];
      SomesSkip(xs, y0);
    }
  }

  /** Two clauses on a canvas with logical nodes are written `(c1 OP c2)`, with no space inside the
    * parentheses. */
  lemma TwoClauses(nodes: seq<FlowNode>, edges: seq<FlowEdge>, c1: string, c2: string)
    requires |OfKind(nodes, "logical")| > 0 && ChainClauses(nodes, edges, OfKind(nodes, "trigger")) == [c1, c2]
    ensures ExpressionFromFlow(nodes, edges) == "(" + c1 + " " + LogicalOperator(OfKind(nodes, "logical")) + " " + c2 + ")"
  {
    var op := LogicalOperator(OfKind(nodes, "logical"));
    JoinPair(c1, c2, " " + op + " ");
    Parenthesized(c1, op, c2);
  }

  lemma JoinPair(c1: string, c2: string, sep: string)
    ensures Join([c1, c2], sep) == c1 + sep + c2
  {
    assert [c1, c2][1..] == [c2];
  }

  lemma Parenthesized(c1: string, op: string, c2: string)
    ensures "(" + (c1 + (" " + op + " ") + c2) + ")" == "(" + c1 + " " + op + " " + c2 + ")"
  {
  }

  /** The logical branch decides quoting by `'`, `\` and the letter `s`, not by white space: a value
    * with a blank is written bare there, and a value with an `s` is quoted. */
  lemma BranchQuotingDiffers()
    ensures BranchQuote("a b") == "a b" && Quote("a b") == "'a b'"
    ensures BranchQuote("yes") == "'yes'" && Quote("yes") == "yes"
  {
    assert IsSpace("a b"[1]);
    assert "yes"[2] == 's';
  }

  // ---------------------------------------------------------------------------
  // Round trips through the text
  // ---------------------------------------------------------------------------

  /** Values a generator writes that the parser gives back: non-empty, on one line, without quotes. */
  predicate CleanValue(v: string)
  {
    v != [] && NoLineBreak(v) && NoneOfChars(v, "'\"")
  }

  /** Text with a clause match parses into the clause graph of its trimmed captures. */
  lemma CapturedGraph(t: string, c: seq<string>, effects: seq<Effect>)
    requires ClauseCaptures(t) == Some(c) && |c| == 3
    ensures ParsedGraph(t, effects) == ClauseGraph(Trim(c[0]), Trim(c[1]), ValueText(c[2]), effects)
  {
  }

  /** Captures that trim and clean to `f`, `op` and `v` give the clause graph of `f`, `op` and `v`. */
  lemma CapturedClauseGraph(t: string, f: string, op: string, raw: string, v: string, effects: seq<Effect>)
    requires ClauseCaptures(t) == Some([f, op, raw])
    requires Trim(f) == f && Trim(op) == op && ValueText(raw) == v
    ensures ParsedGraph(t, effects) == ClauseGraph(f, op, v, effects)
  {
    CapturedGraph(t, [f, op, raw], effects);
  }

  lemma TrimOperator(op: string)
    requires op in Operators
    ensures Trim(op) == op && Trim(op[..1]) == op[..1]
  {
    OperatorNoSpace(op);
    NoSpaceTrim(op);
    NoSpaceTrim(op[..1]);
  }

  lemma OperatorNoSpace(op: string)
    requires op in Operators
    ensures NoSpace(op) && NoSpace(op[..1])
  {
    forall i | 0 <= i < |op| ensures IsOperatorChar(op[i]) {
    }
  }

  /** A clause the generator writes from a plain field, one of the six operators and a clean value
    * parses into the graph of that very field, operator and value. */
  lemma ReparsedClause(f: string, op: string, v: string, effects: seq<Effect>)
    requires PlainField(f) && PrimaryOperator(op) && CleanValue(v)
    ensures ParsedGraph(Clause(f, op, v), effects) == ClauseGraph(f, op, v, effects)
  {
    ClauseRoundTrip(f, op, v);
    TrimOperator(op);
    CapturedClauseGraph(Clause(f, op, v), f, op, Quote(v), v, effects);
  }

  /** Without logical nodes the canvas writes the clause of its first trigger, operator and value. */
  lemma SingleText(nodes: seq<FlowNode>, edges: seq<FlowEdge>, f: string, op: string, v: string)
    requires OfKind(nodes, "logical") == []
    requires FirstOfKind(nodes, "trigger").Some? && FirstOfKind(nodes, "trigger").value.data.field == Some(f)
    requires FirstOfKind(nodes, "operator").Some? && FirstOfKind(nodes, "operator").value.data.operator == Some(op)
    requires FirstOfKind(nodes, "value").Some? && FirstOfKind(nodes, "value").value.data.value == Some(v)
    requires f != "" && f != "none" && op != "" && op != "none" && v != ""
    ensures ExpressionFromFlow(nodes, edges) == Clause(f, op, v)
  {
  }

  /** Text written from a graph without logical nodes, parsed again, gives back the field, the
    * operator and the value of its first trigger, operator and value node. */
  lemma SingleRoundTrip(nodes: seq<FlowNode>, edges: seq<FlowEdge>, effects: seq<Effect>, f: string, op: string, v: string)
    requires OfKind(nodes, "logical") == []
    requires FirstOfKind(nodes, "trigger").Some? && FirstOfKind(nodes, "trigger").value.data.field == Some(f)
    requires FirstOfKind(nodes, "operator").Some? && FirstOfKind(nodes, "operator").value.data.operator == Some(op)
    requires FirstOfKind(nodes, "value").Some? && FirstOfKind(nodes, "value").value.data.value == Some(v)
    requires PlainField(f) && f != "none" && PrimaryOperator(op) && CleanValue(v)
    ensures ParsedGraph(ExpressionFromFlow(nodes, edges), effects) == ClauseGraph(f, op, v, effects)
  {
    SingleText(nodes, edges, f, op, v);
    ReparsedClause(f, op, v, effects);
  }

  /** `a >= 5` does not come back: the alternation stops at `>` and the value keeps the `=`. */
  lemma LongOperatorSplits(f: string, op: string, v: string, effects: seq<Effect>)
    requires PlainField(f) && (op == ">=" || op == "<=") && CleanValue(v)
    ensures ParsedGraph(Clause(f, op, v), effects) == ClauseGraph(f, op[..1], "= " + v, effects)
  {
    LongClauseCaptures(f, op, v);
    NoSpaceTrim(f);
    TrimOperator(op);
    EqualsValueText(v);
    CapturedClauseGraph(Clause(f, op, v), f, op[..1], "= " + Quote(v), "= " + v, effects);
  }


  /** Operators offered on the canvas but absent from the alternation (`contains`, `starts_with`,
    * `ends_with`) give text the parser turns into an empty graph, unless the field or the value
    * has one of `= ! < >`. */
  lemma WordOperatorLost(f: string, op: string, v: string, effects: seq<Effect>)
    requires op in ["contains", "starts_with", "ends_with"]
    requires NoOperatorChar(f) && NoOperatorChar(v)
    ensures ParsedGraph(Clause(f, op, v), effects) == Graph([], [])
  {
    var t := Clause(f, op, v);
    forall i | 0 <= i < |t| ensures !IsOperatorChar(t[i]) {
      var a := |f| + 1 + |op| + 1;
      if i < |f| {
        assert t[i] == f[i];
      } else if |f| + 1 <= i < |f| + 1 + |op| {
        assert t[i] == op[i - |f| - 1];
      } else if i >= a {
        if NeedsQuotes(v) {
          if a < i < |t| - 1 {
            assert t[i] == v[i - a - 1];
          }
        } else {
          assert t[i] == v[i - a];
        }
      }
    }
    NoOperatorNoClause(t);
  }

  /** A plain field behind the opening parenthesis of a logical text is still a field text. */
  lemma ParenFieldText(f: string)
    requires PlainField(f)
    ensures FieldText("(" + f) && Trim("(" + f) == "(" + f
  {
    var F := "(" + f;
    assert F[0] == '(' && F[|F| - 1] == f[|f| - 1];
    forall i | 0 <= i < |F| ensures !IsOperatorChar(F[i]) && !IsLineTerminator(F[i]) {
      if i > 0 {
        assert F[i] == f[i - 1];
      }
    }
    TrimEnds(F);
  }

  /** The first branch's value followed by the rest of a logical text is one final group. */
  lemma BranchTail(v: string, rest: string)
    requires CleanValue(v) && !IsSpace(v[0]) && NoLineBreak(rest)
    ensures PlainTail(BranchQuote(v) + rest)
  {
    var q := BranchQuote(v);
    var u := q + rest;
    assert u[0] == q[0];
    forall i | 0 <= i < |u| ensures !IsLineTerminator(u[i]) {
      if i >= |q| {
        assert u[i] == rest[i - |q|];
      } else if q == v {
        assert u[i] == v[i];
      } else if 0 < i < |q| - 1 {
        assert u[i] == v[i - 1];
      }
    }
  }

  /** The clause pattern splits a logical text after the first branch's operator. */
  lemma LogicalCaptures(f1: string, op1: string, v1: string, rest: string)
    requires PlainField(f1) && PrimaryOperator(op1) && CleanValue(v1) && !IsSpace(v1[0]) && NoLineBreak(rest)
    ensures ClauseCaptures("(" + f1 + " " + op1 + " " + BranchQuote(v1) + rest) ==
            Some(["(" + f1, op1, BranchQuote(v1) + rest])
  {
    var F := "(" + f1;
    var u := BranchQuote(v1) + rest;
    assert "(" + f1 + " " + op1 + " " + BranchQuote(v1) + rest == F + " " + op1 + " " + u;
    ParenFieldText(f1);
    BranchTail(v1, rest);
    ClauseMatch(F, op1, u);
  }

  /** Text written from a logical graph, `(c1 OP c2)`, reads back as ONE clause whose field keeps the
    * opening parenthesis and whose value swallows the rest of the text. */
  lemma LogicalTextReadsAsOneClause(f1: string, op1: string, v1: string, rest: string, effects: seq<Effect>)
    requires PlainField(f1) && PrimaryOperator(op1) && CleanValue(v1) && !IsSpace(v1[0]) && NoLineBreak(rest)
    ensures ParsedGraph("(" + f1 + " " + op1 + " " + BranchQuote(v1) + rest, effects) ==
            ClauseGraph("(" + f1, op1, ValueText(BranchQuote(v1) + rest), effects)
  {
    LogicalCaptures(f1, op1, v1, rest);
    ParenFieldText(f1);
    CapturedPrimary("(" + f1 + " " + op1 + " " + BranchQuote(v1) + rest, "(" + f1, op1, BranchQuote(v1) + rest, effects);
  }

  /** A match whose field group needs no trimming and whose operator is one of the four short ones. */
  lemma CapturedPrimary(t: string, F: string, op: string, u: string, effects: seq<Effect>)
    requires ClauseCaptures(t) == Some([F, op, u]) && Trim(F) == F && PrimaryOperator(op)
    ensures ParsedGraph(t, effects) == ClauseGraph(F, op, ValueText(u), effects)
  {
    TrimOperator(op);
    CapturedClauseGraph(t, F, op, u, ValueText(u), effects);
  }

  // ---------------------------------------------------------------------------
  // Effects and names
  // ---------------------------------------------------------------------------

  /** The effect an action node with a usable field yields. */
  function EffectOf(n: FlowNode): Effect
  {
    Effect(n.data.allowedValues.GetOr([]), [n.data.field.GetOr("")], n.data.show != Some(false),
           None, Some(n.data.defaultValues.GetOr([])), None)
  }

  predicate UsableAction(n: FlowNode)
  {
    n.kind == "action" && n.data.field.GetOr("") != "" && n.data.field.GetOr("") != "none"
  }

  /** `generateEffectsFromFlow`: one effect per action node with a usable field, in node order. */
  function EffectsFromFlow(nodes: seq<FlowNode>): (r: seq<Effect>)
    ensures |r| <= |nodes|
  {
    if |nodes| == 0 then []
    else (if UsableAction(nodes[0]) then [EffectOf(nodes[0])] else []) + EffectsFromFlow(nodes[1..])
  }

  /** Every effect names one usable field and carries a default-value list, and no `optional` or
    * `mandatory` key. */
  lemma {:induction false} EffectsShape(nodes: seq<FlowNode>)
    ensures forall e :: e in EffectsFromFlow(nodes) ==>
              |e.fields| == 1 && e.fields[0] != "" && e.fields[0] != "none" &&
              e.defaultValues.Some? && e.optional.None? && e.mandatory.None?
  {
    if |nodes| > 0 {
      EffectsShape(nodes[1..]);
    }
  }

  /** Without a usable action node there is no effect. */
  lemma {:induction false} NoUsableNoEffects(nodes: seq<FlowNode>)
    requires forall i :: 0 <= i < |nodes| ==> !UsableAction(nodes[i])
    ensures EffectsFromFlow(nodes) == []
  {
    if |nodes| > 0 {
      assert !UsableAction(nodes[0]);
      assert forall i :: 0 <= i < |nodes| - 1 ==> nodes[1..][i] == nodes[i + 1];
      NoUsableNoEffects(nodes[1..]);
    }
  }

  /** A list of usable action nodes yields one effect per node, in order. */
  lemma {:induction false} EffectsOfUsable(ns: seq<FlowNode>)
    requires forall i :: 0 <= i < |ns| ==> UsableAction(ns[i])
    ensures var r := EffectsFromFlow(ns);
            |r| == |ns| && forall i :: 0 <= i < |ns| ==> r[i] == EffectOf(ns[i])
  {
    if |ns| > 0 {
      assert UsableAction(ns[0]);
      assert forall i :: 0 <= i < |ns| - 1 ==> ns[1..][i] == ns[i + 1];
      EffectsOfUsable(ns[1..]);
    }
  }

  lemma {:induction false} EffectsAppend(a: seq<FlowNode>, b: seq<FlowNode>)
    ensures EffectsFromFlow(a + b) == EffectsFromFlow(a) + EffectsFromFlow(b)
  {
    if |a| > 0 {
      assert (a + b)[1..] == a[1..] + b;
      EffectsAppend(a[1..], b);
    } else {
      assert a + b == b;
    }
  }

  /** Effects parsed into a graph and read back are the same effects with `show` forced to true,
    * only the first field kept, missing default lists made `[]`, and `optional`/`mandatory` gone. */
  lemma EffectsRoundTrip(expression: string, effects: seq<Effect>)
    requires ClauseCaptures(expression).Some?
    requires forall i :: 0 <= i < |effects| ==> FirstField(effects[i]) != "" && FirstField(effects[i]) != "none"
    ensures var r := EffectsFromFlow(ParsedGraph(expression, effects).nodes);
            |r| == |effects| &&
            forall i :: 0 <= i < |effects| ==>
              r[i] == Effect(effects[i].allowedValues, [effects[i].fields[0]], true, None,
                             Some(effects[i].defaultValues.GetOr([])), None)
  {
    CapturedEffects(ClauseCaptures(expression).value, effects);
  }

  lemma CapturedEffects(c: seq<string>, effects: seq<Effect>)
    requires |c| == 3
    requires forall i :: 0 <= i < |effects| ==> FirstField(effects[i]) != "" && FirstField(effects[i]) != "none"
    ensures var r := EffectsFromFlow(GraphOfCaptures(Some(c), effects).nodes);
            |r| == |effects| && forall i :: 0 <= i < |effects| ==> r[i] == ActionEffect(effects[i])
  {
    ClauseGraphEffects(Trim(c[0]), Trim(c[1]), ValueText(c[2]), effects);
  }

  lemma ClauseGraphEffects(field: string, op: string, value: string, effects: seq<Effect>)
    requires forall i :: 0 <= i < |effects| ==> FirstField(effects[i]) != "" && FirstField(effects[i]) != "none"
    ensures var r := EffectsFromFlow(ClauseGraph(field, op, value, effects).nodes);
            |r| == |effects| && forall i :: 0 <= i < |effects| ==> r[i] == ActionEffect(effects[i])
  {
    var head := [TriggerNode(field), OperatorNode(op), ValueNode(value)];
    var acts := ActionNodes(effects, |effects|);
    EffectsAppend(head, acts);
    NoUsableNoEffects(head);
    forall i | 0 <= i < |acts|
      ensures UsableAction(acts[i]) && EffectOf(acts[i]) == ActionEffect(effects[i])
    {
      ActionNodeEffect(i, effects[i]);
    }
    EffectsOfUsable(acts);
  }

  function ActionEffect(e: Effect): Effect
  {
    Effect(e.allowedValues, [FirstField(e)], true, None, Some(e.defaultValues.GetOr([])), None)
  }

  lemma ActionNodeEffect(i: nat, e: Effect)
    requires FirstField(e) != "" && FirstField(e) != "none"
    ensures UsableAction(ActionNode(i, e)) && EffectOf(ActionNode(i, e)) == ActionEffect(e)
  {
  }

  /** The trigger field `generateSmartName` reads must exist when both a trigger and an action exist. */
  predicate SmartNameDefined(nodes: seq<FlowNode>)
  {
    FirstOfKind(nodes, "trigger").Some? && FirstOfKind(nodes, "action").Some? ==>
      FirstOfKind(nodes, "trigger").value.data.field.Some?
  }

  /** `fieldName.charAt(0).toUpperCase() + fieldName.slice(1)`, for an ASCII first letter. */
  function Capitalize(s: string): string
  {
    if s == [] then [] else [UpperChar(s[0])] + s[1..]
  }

  /** `${w} Condition`. */
  function Named(w: string): (r: string)
    ensures |r| == |w| + 10 && r[|w|..] == " Condition" && r[..|w|] == w
  {
    w + " Condition"
  }

  /** The name of a trigger on `applies_to_part`, chosen by the first topic its value mentions. */
  function PartName(value: string): string
  {
    if Contains(value, "product") then "Product"
    else if Contains(value, "capability") then "Capability"
    else if Contains(value, "bus") then "Bus"
    else if Contains(value, "ondc") then "ONDC"
    else "Part-based"
  }

  /** The name of a trigger on any other field. */
  function FieldName(f: string): string
  {
    if Contains(f, "issue_category") then "Issue Category"
    else if Contains(f, "user.role") then "User Role"
    else if Contains(f, "priority") then "Priority"
    else if Contains(f, "status") then "Status"
    else
      var seg := LastSegment(f, '.');
      Capitalize(if seg == [] then "field" else seg)
  }

  /** `generateSmartName`. */
  function SmartName(nodes: seq<FlowNode>): (r: string)
    requires SmartNameDefined(nodes)
    ensures |r| >= 10 && r[|r| - 10..] == " Condition"
    ensures r != "Untitled"
  {
    var t, a := FirstOfKind(nodes, "trigger"), FirstOfKind(nodes, "action");
    var w :=
      if t.None? || a.None? then "Untitled"
      else if t.value.data.field.value == "applies_to_part" then
        var vn := FirstOfKind(nodes, "value");
        PartName(if vn.Some? then vn.value.data.value.GetOr("") else "")
      else FieldName(t.value.data.field.value);
    var r := Named(w);
    assert |r| != |"Untitled"|;
    r
  }

  /** A trigger on `applies_to_part` is named after the first of product, capability, bus and ondc
    * its value mentions, whatever else the value holds. */
  lemma SmartNamePartOrder(nodes: seq<FlowNode>)
    requires FirstOfKind(nodes, "trigger").Some? && FirstOfKind(nodes, "action").Some?
    requires FirstOfKind(nodes, "trigger").value.data.field == Some("applies_to_part")
    requires FirstOfKind(nodes, "value").Some?
    ensures Contains(FirstOfKind(nodes, "value").value.data.value.GetOr(""), "product") ==>
              SmartName(nodes) == Named("Product")
    ensures !Contains(FirstOfKind(nodes, "value").value.data.value.GetOr(""), "product") &&
            !Contains(FirstOfKind(nodes, "value").value.data.value.GetOr(""), "capability") &&
            !Contains(FirstOfKind(nodes, "value").value.data.value.GetOr(""), "bus") &&
            !Contains(FirstOfKind(nodes, "value").value.data.value.GetOr(""), "ondc") ==>
              SmartName(nodes) == Named("Part-based")
  {
    var value := FirstOfKind(nodes, "value").value.data.value.GetOr("");
    assert SmartName(nodes) == Named(PartName(value));
  }

  /** The topics are ranked, not read left to right: `ondc bus` names a Bus condition and
    * `bus product` a Product condition. */
  lemma PartNameRanked()
    ensures PartName("ondc bus") == "Bus" && PartName("bus product") == "Product"
  {
    Text.NoFirstChar("ondc bus", "product");
    Text.NoFirstChar("ondc bus", "capability");
    assert StartsAt("ondc bus", 5, "bus");
    assert StartsAt("bus product", 4, "product");
  }

  /** The name falls back to the last dotted segment of an unrecognised trigger field. */
  lemma SmartNameFallback(nodes: seq<FlowNode>, f: string)
    requires FirstOfKind(nodes, "trigger").Some? && FirstOfKind(nodes, "action").Some?
    requires FirstOfKind(nodes, "trigger").value.data.field == Some(f)
    requires f != "applies_to_part" && !Contains(f, "issue_category") && !Contains(f, "user.role")
    requires !Contains(f, "priority") && !Contains(f, "status")
    ensures SmartName(nodes) == Capitalize(if LastSegment(f, '.') == [] then "field" else LastSegment(f, '.')) + " Condition"
    ensures '.' !in SmartName(nodes)[..|SmartName(nodes)| - 10]
  {
    var seg := LastSegment(f, '.');
    var w := if seg == [] then "field" else seg;
    assert SmartName(nodes) == Named(FieldName(f));
    assert FieldName(f) == Capitalize(w);
    CapitalizeNoChar(w, '.');
  }

  /** Capitalizing adds no `c` that is not a letter. */
  lemma CapitalizeNoChar(w: string, c: char)
    requires c !in w && !('A' <= c <= 'Z')
    ensures c !in Capitalize(w)
  {
    if w != [] {
      assert Capitalize(w)[1..] == w[1..];
      assert UpperChar(w[0]) != c;
    }
  }

  // ---------------------------------------------------------------------------
  // The readable sentence of the Test button
  // ---------------------------------------------------------------------------

  /** The operator words and field clean-up applied to the expression, in the source's order. */
  const ReadableRules: seq<(string, string)> :=
    [("==", "is equal to"), ("!=", "is not equal to"), (">=", "is greater than or equal to"),
     ("<=", "is less than or equal to"), (">", "is greater than"), ("<", "is less than"),
     ("custom_fields.", ""), ("_", " ")]

  function Readable(expression: string): string
  {
    ReplaceEach(expression, ReadableRules)
  }

  /** `e.fields[0].replace('custom_fields.', '').replace(/_/g, ' ')`. */
  function TargetLabel(field: string): string
  {
    ReplaceAll(ReplaceFirst(field, "custom_fields.", ""), "_", " ")
  }

  /** A custom field's label drops the `custom_fields.` prefix and spells underscores as spaces. */
  lemma TargetLabelCustom(f: string)
    ensures TargetLabel("custom_fields." + f) == ReplaceAll(f, "_", " ")
  {
    var p := "custom_fields.";
    var s := p + f;
    assert s[..|p|] == p && s[|p|..] == f;
    ReplaceFirstAtStart(s, p, "");
    assert "" + f == f;
  }

  predicate AllHaveFields(effects: seq<Effect>)
  {
    forall i :: 0 <= i < |effects| ==> |effects[i].fields| > 0
  }

  function TargetLabels(effects: seq<Effect>): (r: seq<string>)
    requires AllHaveFields(effects)
    ensures |r| == |effects|
  {
    if |effects| == 0 then []
    else
      assert AllHaveFields(effects[1..]) by {
        assert forall i :: 0 <= i < |effects| - 1 ==> effects[1..][i] == effects[i + 1];
      }
      [TargetLabel(effects[0].fields[0])] + TargetLabels(effects[1..])
  }

  /** ` then set ${targets} options`, or nothing without effects. */
  function ThenPart(effects: seq<Effect>): string
    requires AllHaveFields(effects)
  {
    if |effects| > 0 then " then set " + Join(TargetLabels(effects), ", ") + " options" else ""
  }

  /** `generateReadableSentence`; every effect must have a field, or `e.fields[0].replace` fails. */
  function ReadableSentence(expression: string, effects: seq<Effect>): string
    requires AllHaveFields(effects)
  {
    if expression == "" then "No condition defined"
    else "If " + Readable(expression) + ThenPart(effects)
  }

  /** Only the empty expression gives the placeholder; any other reads `If …`. */
  lemma ReadableSentenceShape(expression: string, effects: seq<Effect>)
    requires AllHaveFields(effects)
    ensures expression == "" <==> ReadableSentence(expression, effects) == "No condition defined"
    ensures expression != "" ==> StartsAt(ReadableSentence(expression, effects), 0, "If ")
  {
    if expression != "" {
      IfText(Readable(expression), ThenPart(effects));
    }
  }

  lemma IfText(x: string, y: string)
    ensures StartsAt("If " + x + y, 0, "If ") && "If " + x + y != "No condition defined"
  {
    var r := "If " + x + y;
    assert r[..3] == "If ";
    assert r[0] != "No condition defined"[0];
  }

  lemma {:induction false} JoinKeeps(xs: seq<string>, sep: string, c: char)
    requires c !in sep && forall i :: 0 <= i < |xs| ==> c !in xs[i]
    ensures c !in Join(xs, sep)
  {
    if |xs| > 1 {
      JoinKeeps(xs[1..], sep, c);
    }
  }

  lemma {:induction false} TargetLabelsClean(effects: seq<Effect>)
    requires AllHaveFields(effects)
    ensures forall i :: 0 <= i < |effects| ==> '_' !in TargetLabels(effects)[i]
  {
    if |effects| > 0 {
      ReplaceAllRemoves(ReplaceFirst(effects[0].fields[0], "custom_fields.", ""), '_', " ");
      assert AllHaveFields(effects[1..]) by {
        assert forall i :: 0 <= i < |effects| - 1 ==> effects[1..][i] == effects[i + 1];
      }
      TargetLabelsClean(effects[1..]);
    }
  }

  lemma ThenClean(effects: seq<Effect>)
    requires AllHaveFields(effects)
    ensures '_' !in ThenPart(effects)
  {
    if |effects| > 0 {
      TargetLabelsClean(effects);
      JoinKeeps(TargetLabels(effects), ", ", '_');
    }
  }

  /** The rewritten expression has no `<`, `>` or `_` left. */
  lemma ReadableClean(expression: string)
    ensures '<' !in Readable(expression) && '>' !in Readable(expression) && '_' !in Readable(expression)
  {
    NoGreater(expression);
    NoLess(expression);
    NoUnderscore(expression);
  }

  lemma NoGreater(expression: string)
    ensures '>' !in Readable(expression)
  {
    ReplaceEachRemoves(expression, ReadableRules, 4, '>');
  }

  lemma NoLess(expression: string)
    ensures '<' !in Readable(expression)
  {
    ReplaceEachRemoves(expression, ReadableRules, 5, '<');
  }

  lemma NoUnderscore(expression: string)
    ensures '_' !in Readable(expression)
  {
    ReplaceEachRemoves(expression, ReadableRules, 7, '_');
  }

  /** The readable sentence has no `_` left. */
  lemma SentenceClean(expression: string, effects: seq<Effect>)
    requires AllHaveFields(effects)
    ensures '_' !in ReadableSentence(expression, effects)
  {
    if expression != "" {
      NoUnderscore(expression);
      ThenClean(effects);
    }
  }

  // ---------------------------------------------------------------------------
  // The editor state
  // ---------------------------------------------------------------------------

  datatype ViewMode = CanvasMode | SentenceMode

  /** `condition?.name || 'Untitled'`. */
  function InitialName(condition: Option<Condition>): string
  {
    if condition.Some? && condition.value.name != "" then condition.value.name else "Untitled"
  }

  /** `condition?.id || Date.now().toString()`, with the clock reading as a parameter. */
  function ConditionId(condition: Option<Condition>, now: nat): (r: string)
    ensures r != ""
  {
    if condition.Some? && condition.value.id != "" then condition.value.id else NatToString(now)
  }

  /** The name `handleSave` uses: a smart name replaces `Untitled` once there is an expression. */
  function SaveName(name: string, nodes: seq<FlowNode>, expression: string): (r: string)
    requires name == "Untitled" && expression != "" ==> SmartNameDefined(nodes)
    ensures r != "Untitled" || expression == ""
  {
    if name == "Untitled" && expression != "" then SmartName(nodes) else name
  }

  /** The record `handleSave` hands to `onSave`. From the sentence view it is the current condition
    * renamed; with no current condition the spread of `null` leaves only the name. */
  function SavedCondition(mode: ViewMode, g: Graph, name: string, condition: Option<Condition>,
                          current: Option<Condition>, now: nat): Condition
    requires mode == CanvasMode && name == "Untitled" && ExpressionFromFlow(g.nodes, g.edges) != "" ==>
             SmartNameDefined(g.nodes)
  {
    if mode == CanvasMode then
      var expression := ExpressionFromFlow(g.nodes, g.edges);
      Condition(ConditionId(condition, now), SaveName(name, g.nodes, expression), expression, EffectsFromFlow(g.nodes))
    else if current.Some? then current.value.(name := name)
    else Condition("", name, "", [])
  }

  /** Saving from the canvas writes the graph's own expression and effects, keeps the id of an
    * edited condition, and never keeps the name `Untitled` for a non-empty expression. */
  lemma SaveFromCanvas(g: Graph, name: string, condition: Option<Condition>, current: Option<Condition>, now: nat)
    requires name == "Untitled" && ExpressionFromFlow(g.nodes, g.edges) != "" ==> SmartNameDefined(g.nodes)
    ensures var c := SavedCondition(CanvasMode, g, name, condition, current, now);
            c.expression == ExpressionFromFlow(g.nodes, g.edges) && c.effects == EffectsFromFlow(g.nodes) &&
            c.id != "" && (condition.Some? && condition.value.id != "" ==> c.id == condition.value.id) &&
            (c.expression != "" ==> c.name != "Untitled") &&
            (name != "Untitled" ==> c.name == name)
  {
  }

  /** `isNearExistingNode`: some node centre (x + 100, y + 40) lies closer than 50 to the point;
    * the square root is compared as the squared distance. */
  predicate IsNearExistingNode(nodes: seq<FlowNode>, p: Position)
  {
    exists i :: 0 <= i < |nodes| && NearCentre(nodes[i].position, p)
  }

  predicate NearCentre(q: Position, p: Position)
  {
    var dx, dy := p.x - (q.x + 100), p.y - (q.y + 40);
    dx * dx + dy * dy < 2500
  }

  /** The node a gesture creates after `src`, with the clock reading as its id suffix. */
  function ChildNode(src: FlowNode, pos: Position, now: nat): (n: FlowNode)
    ensures n.kind == NextNodeType(src.kind) && n.data == DefaultNodeData(n.kind) && n.position == pos
  {
    var kind := NextNodeType(src.kind);
    FlowNode(kind + "-" + NatToString(now), kind, pos, DefaultNodeData(kind))
  }

  /** The edge `${source.id}-${newNodeId}` from the source to a created node. */
  function ChildEdge(srcId: string, child: FlowNode): (e: FlowEdge)
    ensures e.source == srcId && e.target == child.id
  {
    FlowEdge(srcId + "-" + child.id, srcId, child.id)
  }

  /** The graph after a drag from `src` is dropped on the empty pane at `drop`. */
  function DropGraph(g: Graph, src: FlowNode, drop: Position, now: nat): Graph
  {
    if IsNearExistingNode(g.nodes, drop) then g
    else
      var c := ChildNode(src, Position(drop.x + 20, drop.y - 40), now);
      Graph(g.nodes + [c], g.edges + [ChildEdge(src.id, c)])
  }

  /** A drop near an existing node changes nothing; anywhere else it appends exactly one node of
    * the next kind at (x + 20, y - 40) with default data, and one edge to it from the source. */
  lemma DropRule(g: Graph, src: FlowNode, drop: Position, now: nat)
    ensures IsNearExistingNode(g.nodes, drop) ==> DropGraph(g, src, drop, now) == g
    ensures !IsNearExistingNode(g.nodes, drop) ==>
              var r := DropGraph(g, src, drop, now);
              |r.nodes| == |g.nodes| + 1 && r.nodes[..|g.nodes|] == g.nodes &&
              |r.edges| == |g.edges| + 1 && r.edges[..|g.edges|] == g.edges &&
              var n := r.nodes[|g.nodes|];
              n.kind == NextNodeType(src.kind) && n.position == Position(drop.x + 20, drop.y - 40) &&
              n.data == DefaultNodeData(n.kind) &&
              r.edges[|g.edges|].source == src.id && r.edges[|g.edges|].target == n.id &&
              forall i :: 0 <= i < |g.nodes| ==> !NearCentre(g.nodes[i].position, drop)
  {
    if !IsNearExistingNode(g.nodes, drop) {
      var r := DropGraph(g, src, drop, now);
      assert r.nodes[..|g.nodes|] == g.nodes;
      assert r.edges[..|g.edges|] == g.edges;
    }
  }

  /** The component state of the editor and of its canvas. */
  class Editor {
    const condition: Option<Condition>
    const canvas: Canvas
    var conditionName: string
    var viewMode: ViewMode
    var currentCondition: Option<Condition>
    var isDragging: bool
    var dragSource: Option<FlowNode>
    var ghostNode: Option<FlowNode>
    var mouse: Position

    constructor (condition0: Option<Condition>)
      ensures condition == condition0 && fresh(canvas) && canvas.nodes == [] && canvas.edges == []
      ensures conditionName == InitialName(condition0) && viewMode == CanvasMode
      ensures currentCondition == condition0 && !isDragging && dragSource.None? && ghostNode.None?
    {
      condition := condition0;
      canvas := new Canvas([], []);
      conditionName := InitialName(condition0);
      viewMode := CanvasMode;
      currentCondition := condition0;
      isDragging := false;
      dragSource := None;
      ghostNode := None;
      mouse := Position(0, 0);
    }

    /** The delayed initialisation: the parsed graph of the condition, or the starter graph. */
    method Initialize()
      modifies this, canvas
      ensures condition.Some? ==> conditionName == condition.value.name && currentCondition == condition &&
                                  canvas.nodes == ParsedGraph(condition.value.expression, condition.value.effects).nodes &&
                                  canvas.edges == ParsedGraph(condition.value.expression, condition.value.effects).edges
      ensures condition.None? ==> conditionName == old(conditionName) && currentCondition.None? &&
                                  canvas.nodes == DefaultFlow().nodes && canvas.edges == DefaultFlow().edges
      ensures viewMode == old(viewMode) && isDragging == old(isDragging) && dragSource == old(dragSource) &&
              ghostNode == old(ghostNode)
    {
      if condition.Some? {
        conditionName := condition.value.name;
        currentCondition := condition;
        var g := ParseExpressionToNodes(condition.value.expression, condition.value.effects);
        canvas.SetGraph(g.nodes, g.edges);
      } else {
        var g := DefaultFlow();
        canvas.SetGraph(g.nodes, g.edges);
        currentCondition := None;
      }
    }

    /** `handleSave`: the condition handed to `onSave`; the editor itself does not change. */
    method Save(now: nat) returns (c: Condition)
      requires viewMode == CanvasMode && conditionName == "Untitled" && ExpressionFromFlow(canvas.nodes, canvas.edges) != ""
               ==> SmartNameDefined(canvas.nodes)
      ensures c == SavedCondition(viewMode, Graph(canvas.nodes, canvas.edges), conditionName, condition,
                                  currentCondition, now)
    {
      if viewMode == CanvasMode {
        var expression := GenerateExpressionFromFlow(canvas.nodes, canvas.edges);
        var effects := EffectsFromFlow(canvas.nodes);
        var finalName := conditionName;
        if conditionName == "Untitled" && expression != "" {
          finalName := SmartName(canvas.nodes);
        }
        c := Condition(ConditionId(condition, now), finalName, expression, effects);
      } else if currentCondition.Some? {
        c := currentCondition.value.(name := conditionName);
      } else {
        c := Condition("", conditionName, "", []);
      }
    }

    /** `handleConditionChange`: a blank expression from the sentence view never clears the canvas. */
    method ConditionChange(updated: Condition)
      modifies this, canvas
      ensures currentCondition == Some(updated)
      ensures viewMode == SentenceMode && Trim(updated.expression) != "" ==>
                canvas.nodes == ParsedGraph(updated.expression, updated.effects).nodes &&
                canvas.edges == ParsedGraph(updated.expression, updated.effects).edges
      ensures !(viewMode == SentenceMode && Trim(updated.expression) != "") ==>
                canvas.nodes == old(canvas.nodes) && canvas.edges == old(canvas.edges)
      ensures viewMode == old(viewMode) && conditionName == old(conditionName) &&
              isDragging == old(isDragging) && dragSource == old(dragSource) && ghostNode == old(ghostNode)
    {
      currentCondition := Some(updated);
      if viewMode == SentenceMode && updated.expression != "" && Trim(updated.expression) != "" {
        var g := ParseExpressionToNodes(updated.expression, updated.effects);
        canvas.SetGraph(g.nodes, g.edges);
      }
    }

    /** `handleViewModeChange`: switching to sentences records the canvas as the current condition. */
    method ViewModeChange(checked: bool, now: nat)
      modifies this
      ensures viewMode == (if checked then SentenceMode else CanvasMode)
      ensures checked ==> currentCondition == Some(Condition(ConditionId(condition, now), conditionName,
                                                             ExpressionFromFlow(canvas.nodes, canvas.edges),
                                                             EffectsFromFlow(canvas.nodes)))
      ensures !checked ==> currentCondition == old(currentCondition)
      ensures conditionName == old(conditionName) && isDragging == old(isDragging) &&
              dragSource == old(dragSource) && ghostNode == old(ghostNode)
    {
      viewMode := if checked then SentenceMode else CanvasMode;
      if checked {
        var expression := GenerateExpressionFromFlow(canvas.nodes, canvas.edges);
        currentCondition := Some(Condition(ConditionId(condition, now), conditionName, expression,
                                           EffectsFromFlow(canvas.nodes)));
      }
    }

    method Rename(name: string)
      modifies this
      ensures conditionName == name && viewMode == old(viewMode) && currentCondition == old(currentCondition)
    {
      conditionName := name;
    }

    /** `handleAddNode`: the toolbar appends a node of the chosen kind with its default data; the
      * random position is a parameter. */
    method AddNode(kind: string, now: nat, x: int, y: int)
      modifies canvas
      ensures canvas.nodes == old(canvas.nodes) +
                              [FlowNode(kind + "-" + NatToString(now), kind, Position(x, y), DefaultNodeData(kind))]
      ensures canvas.edges == old(canvas.edges)
    {
      canvas.SetNodes(canvas.nodes + [FlowNode(kind + "-" + NatToString(now), kind, Position(x, y), DefaultNodeData(kind))]);
    }

    /** `onConnectStart`: a drag from a source handle of an existing node starts a gesture. */
    method ConnectStart(handleType: string, nodeId: string)
      modifies this
      ensures handleType == "source" && nodeId != "" && FindNode(canvas.nodes, nodeId).Some? ==>
                isDragging && dragSource == FindNode(canvas.nodes, nodeId)
      ensures !(handleType == "source" && nodeId != "" && FindNode(canvas.nodes, nodeId).Some?) ==>
                isDragging == old(isDragging) && dragSource == old(dragSource)
      ensures ghostNode == old(ghostNode) && viewMode == old(viewMode) && currentCondition == old(currentCondition) &&
              conditionName == old(conditionName)
    {
      if handleType == "source" && nodeId != "" {
        var src := FindNode(canvas.nodes, nodeId);
        if src.Some? {
          isDragging := true;
          dragSource := src;
        }
      }
    }

    /** `onConnectEnd`: without a gesture in progress nothing happens; otherwise a drop on the pane
      * applies the drop rule, and the gesture ends. */
    method ConnectEnd(targetIsPane: bool, drop: Position, now: nat)
      modifies this, canvas
      ensures !old(isDragging) || old(dragSource).None? ==>
                canvas.nodes == old(canvas.nodes) && canvas.edges == old(canvas.edges) &&
                isDragging == old(isDragging) && dragSource == old(dragSource) && ghostNode == old(ghostNode)
      ensures old(isDragging) && old(dragSource).Some? ==>
                !isDragging && dragSource.None? && ghostNode.None? &&
                var g := Graph(old(canvas.nodes), old(canvas.edges));
                var r := if targetIsPane then DropGraph(g, old(dragSource).value, drop, now) else g;
                canvas.nodes == r.nodes && canvas.edges == r.edges
      ensures viewMode == old(viewMode) && currentCondition == old(currentCondition) &&
              conditionName == old(conditionName)
    {
      if !isDragging || dragSource.None? {
        return;
      }
      if targetIsPane && !IsNearExistingNode(canvas.nodes, drop) {
        var c := ChildNode(dragSource.value, Position(drop.x + 20, drop.y - 40), now);
        canvas.Extend(c, ChildEdge(dragSource.value.id, c));
      }
      isDragging := false;
      dragSource := None;
      ghostNode := None;
    }

    /** `handleMouseMove`: during a gesture the ghost of the next node follows the mouse, except
      * near an existing node. */
    method MouseMove(p: Position)
      modifies this
      ensures isDragging && dragSource.Some? ==>
                mouse == p &&
                ghostNode == (if IsNearExistingNode(canvas.nodes, p) then None
                          else Some(ChildNode(dragSource.value, Position(p.x + 20, p.y - 40), 0).(id := "ghost-node")))
      ensures !(isDragging && dragSource.Some?) ==> ghostNode == old(ghostNode) && mouse == old(mouse)
      ensures isDragging == old(isDragging) && dragSource == old(dragSource) && viewMode == old(viewMode) &&
              currentCondition == old(currentCondition) && conditionName == old(conditionName)
    {
      if isDragging && dragSource.Some? {
        mouse := p;
        if !IsNearExistingNode(canvas.nodes, p) {
          ghostNode := Some(ChildNode(dragSource.value, Position(p.x + 20, p.y - 40), 0).(id := "ghost-node"));
        } else {
          ghostNode := None;
        }
      }
    }
  }

  /** The starter graph writes no expression (its value is blank) and one effect on the L1 field. */
  lemma DefaultFlowFacts()
    ensures ExpressionFromFlow(DefaultFlow().nodes, DefaultFlow().edges) == ""
    ensures EffectsFromFlow(DefaultFlow().nodes) == [Effect([], [L1Field], true, None, Some([]), None)]
    ensures DistinctIds(DefaultFlow().nodes)
  {
    var ns := DefaultFlow().nodes;
    assert OfKind(ns, "logical") == [];
    assert FirstOfKind(ns, "value") == Some(ns[2]);
    assert EffectsFromFlow(ns[3..]) == [Effect([], [L1Field], true, None, Some([]), None)];
    assert EffectsFromFlow(ns[2..]) == EffectsFromFlow(ns[3..]);
    assert EffectsFromFlow(ns[1..]) == EffectsFromFlow(ns[2..]);
  }
}
