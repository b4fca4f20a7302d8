/** The records the rule builder passes around: conditions with their effects, and the graph of
  * flow nodes and edges the canvas edits. */
module Types {
  import opened Wrappers

  /** What a condition does to one or more target fields. The optional keys of the record are
    * `Option`s; `expression_ast` is not modelled. */
  datatype Effect = Effect(
    allowedValues: seq<string>,
    fields: seq<string>,
    show: bool,
    optional: Option<bool>,
    defaultValues: Option<seq<string>>,
    mandatory: Option<bool>)

  datatype Condition = Condition(id: string, name: string, expression: string, effects: seq<Effect>)

  /** The untyped `data` object of a flow node: every key any node kind uses, each possibly absent. */
  datatype NodeData = NodeData(
    field: Option<string>,
    operator: Option<string>,
    value: Option<string>,
    allowedValues: Option<seq<string>>,
    defaultValues: Option<seq<string>>,
    show: Option<bool>)

  const NoData := NodeData(None, None, None, None, None, None)

  /** The keys of `NodeData`, to say which one an update touches. */
  datatype Key = FieldKey | OperatorKey | ValueKey | AllowedKey | DefaultKey | ShowKey

  /** `d` and `e` agree on every key except possibly `k`. */
  predicate SameExcept(d: NodeData, e: NodeData, k: Key)
  {
    (k == FieldKey || d.field == e.field) &&
    (k == OperatorKey || d.operator == e.operator) &&
    (k == ValueKey || d.value == e.value) &&
    (k == AllowedKey || d.allowedValues == e.allowedValues) &&
    (k == DefaultKey || d.defaultValues == e.defaultValues) &&
    (k == ShowKey || d.show == e.show)
  }

  datatype Position = Position(x: int, y: int)

  /** A node of the canvas; `kind` is the node's `type` (trigger, operator, value, action, logical). */
  datatype FlowNode = FlowNode(id: string, kind: string, position: Position, data: NodeData)

  datatype FlowEdge = FlowEdge(id: string, source: string, target: string)

  /** A node list with its edge list, as the editor's helpers return them. */
  datatype Graph = Graph(nodes: seq<FlowNode>, edges: seq<FlowEdge>)

  /** No two nodes share an id. */
  predicate DistinctIds(nodes: seq<FlowNode>)
  {
    forall i, j :: 0 <= i < j < |nodes| ==> nodes[i].id != nodes[j].id
  }

  /** The first node with the given id, as `Array.find` returns it. */
  function FindNode(nodes: seq<FlowNode>, id: string): Option<FlowNode>
  {
    if |nodes| == 0 then None
    else if nodes[0].id == id then Some(nodes[0])
    else FindNode(nodes[1..], id)
  }

  /** `None` exactly when no node has the id; otherwise the first node that has it. */
  lemma {:induction false} FindNodeFacts(nodes: seq<FlowNode>, id: string)
    ensures var r := FindNode(nodes, id);
            (r.None? <==> forall i :: 0 <= i < |nodes| ==> nodes[i].id != id) &&
            (r.Some? ==> exists i :: 0 <= i < |nodes| && nodes[i] == r.value && r.value.id == id &&
                                     forall j :: 0 <= j < i ==> nodes[j].id != id)
  {
    if |nodes| > 0 && nodes[0].id != id {
      FindNodeFacts(nodes[1..], id);
      assert forall i :: 1 <= i < |nodes| ==> nodes[i] == nodes[1..][i - 1];
      var r := FindNode(nodes[1..], id);
      if r.Some? {
        var i :| 0 <= i < |nodes[1..]| && nodes[1..][i] == r.value && r.value.id == id &&
                 forall j :: 0 <= j < i ==> nodes[1..][j].id != id;
        assert nodes[i + 1] == r.value;
      }
    }
  }

  /** The first node of the given kind. */
  function FirstOfKind(nodes: seq<FlowNode>, kind: string): Option<FlowNode>
  {
    if |nodes| == 0 then None
    else if nodes[0].kind == kind then Some(nodes[0])
    else FirstOfKind(nodes[1..], kind)
  }

  /** `None` exactly when no node has the kind; otherwise the first node that has it. */
  lemma {:induction false} FirstOfKindFacts(nodes: seq<FlowNode>, kind: string)
    ensures var r := FirstOfKind(nodes, kind);
            (r.None? <==> forall i :: 0 <= i < |nodes| ==> nodes[i].kind != kind) &&
            (r.Some? ==> exists i :: 0 <= i < |nodes| && nodes[i] == r.value && r.value.kind == kind &&
                                     forall j :: 0 <= j < i ==> nodes[j].kind != kind)
  {
    if |nodes| > 0 && nodes[0].kind != kind {
      FirstOfKindFacts(nodes[1..], kind);
      assert forall i :: 1 <= i < |nodes| ==> nodes[i] == nodes[1..][i - 1];
      var r := FirstOfKind(nodes[1..], kind);
      if r.Some? {
        var i :| 0 <= i < |nodes[1..]| && nodes[1..][i] == r.value && r.value.kind == kind &&
                 forall j :: 0 <= j < i ==> nodes[1..][j].kind != kind;
        assert nodes[i + 1] == r.value;
      }
    }
  }

  /** The nodes of the given kind, in list order. */
  function OfKind(nodes: seq<FlowNode>, kind: string): (r: seq<FlowNode>)
    ensures |r| <= |nodes|
  {
    if |nodes| == 0 then []
    else if nodes[0].kind == kind then [nodes[0]] + OfKind(nodes[1..], kind)
    else OfKind(nodes[1..], kind)
  }

  /** `filter` keeps exactly the nodes of the kind, and its head is the first node of the kind. */
  lemma {:induction false} OfKindFacts(nodes: seq<FlowNode>, kind: string)
    ensures var r := OfKind(nodes, kind);
            (forall n :: n in r <==> n in nodes && n.kind == kind) &&
            (|r| == 0 <==> FirstOfKind(nodes, kind).None?) &&
            (|r| > 0 ==> FirstOfKind(nodes, kind) == Some(r[0]))
  {
    if |nodes| > 0 {
      OfKindFacts(nodes[1..], kind);
      assert forall n :: n in nodes <==> n == nodes[0] || n in nodes[1..];
    }
  }

  /** Apply `f` to every node carrying the id, as the `nodes.map` updaters do. */
  function UpdateById(nodes: seq<FlowNode>, id: string, f: FlowNode -> FlowNode): (r: seq<FlowNode>)
    ensures |r| == |nodes|
    ensures forall i :: 0 <= i < |nodes| && nodes[i].id != id ==> r[i] == nodes[i]
    ensures forall i :: 0 <= i < |nodes| && nodes[i].id == id ==> r[i] == f(nodes[i])
  {
    if |nodes| == 0 then []
    else [if nodes[0].id == id then f(nodes[0]) else nodes[0]] + UpdateById(nodes[1..], id, f)
  }

  /** Only the nodes with the id change, and of those only data key `k`: ids, kinds, positions and
    * the other keys stay. */
  predicate UpdatesKey(nodes: seq<FlowNode>, r: seq<FlowNode>, id: string, k: Key)
  {
    |r| == |nodes| &&
    (forall i :: 0 <= i < |nodes| && nodes[i].id != id ==> r[i] == nodes[i]) &&
    (forall i :: 0 <= i < |nodes| ==>
       r[i].id == nodes[i].id && r[i].kind == nodes[i].kind && r[i].position == nodes[i].position &&
       SameExcept(nodes[i].data, r[i].data, k))
  }

  /** `data.field := field` on the nodes with the id. */
  function WithField(nodes: seq<FlowNode>, id: string, field: string): (r: seq<FlowNode>)
    ensures UpdatesKey(nodes, r, id, FieldKey)
    ensures forall i :: 0 <= i < |r| && nodes[i].id == id ==> r[i].data.field == Some(field)
  {
    UpdateById(nodes, id, (n: FlowNode) => n.(data := n.data.(field := Some(field))))
  }

  /** `data.operator := operator` on the nodes with the id. */
  function WithOperator(nodes: seq<FlowNode>, id: string, operator: string): (r: seq<FlowNode>)
    ensures UpdatesKey(nodes, r, id, OperatorKey)
    ensures forall i :: 0 <= i < |r| && nodes[i].id == id ==> r[i].data.operator == Some(operator)
  {
    UpdateById(nodes, id, (n: FlowNode) => n.(data := n.data.(operator := Some(operator))))
  }

  /** `data.value := value` on the nodes with the id. */
  function WithValue(nodes: seq<FlowNode>, id: string, value: string): (r: seq<FlowNode>)
    ensures UpdatesKey(nodes, r, id, ValueKey)
    ensures forall i :: 0 <= i < |r| && nodes[i].id == id ==> r[i].data.value == Some(value)
  {
    UpdateById(nodes, id, (n: FlowNode) => n.(data := n.data.(value := Some(value))))
  }

  /** `data.show := show` on the nodes with the id. */
  function WithShow(nodes: seq<FlowNode>, id: string, show: bool): (r: seq<FlowNode>)
    ensures UpdatesKey(nodes, r, id, ShowKey)
    ensures forall i :: 0 <= i < |r| && nodes[i].id == id ==> r[i].data.show == Some(show)
  {
    UpdateById(nodes, id, (n: FlowNode) => n.(data := n.data.(show := Some(show))))
  }

  /** `xs.filter((_, i) => i !== index)`: position `index` dropped, a list without it kept whole. */
  function RemoveAt<T>(xs: seq<T>, index: int): (r: seq<T>)
    ensures 0 <= index < |xs| ==> r == xs[..index] + xs[index + 1..]
    ensures !(0 <= index < |xs|) ==> r == xs
  {
    if xs == [] then []
    else (if index == 0 then [] else [xs[0]]) + RemoveAt(xs[1..], index - 1)
  }

  /** Removing one position shortens the list by one and keeps the order of the rest. */
  lemma RemoveAtShape<T>(xs: seq<T>, index: nat)
    requires index < |xs|
    ensures |RemoveAt(xs, index)| == |xs| - 1
    ensures forall j :: 0 <= j < |xs| - 1 ==> RemoveAt(xs, index)[j] == xs[if j < index then j else j + 1]
  {
  }

  /** The graph state React Flow holds for the editor; every node component edits it in place. */
  class Canvas {
    var nodes: seq<FlowNode>
    var edges: seq<FlowEdge>

    constructor (nodes0: seq<FlowNode>, edges0: seq<FlowEdge>)
      ensures nodes == nodes0 && edges == edges0
    {
      nodes := nodes0;
      edges := edges0;
    }

    /** `setNodes` with a new list. */
    method SetNodes(ns: seq<FlowNode>)
      modifies this
      ensures nodes == ns && edges == old(edges)
    {
      nodes := ns;
    }

    /** `setNodes` and `setEdges` together. */
    method SetGraph(ns: seq<FlowNode>, es: seq<FlowEdge>)
      modifies this
      ensures nodes == ns && edges == es
    {
      nodes := ns;
      edges := es;
    }

    /** Append one node and one edge, as the two "create next node" gestures do. */
    method Extend(n: FlowNode, e: FlowEdge)
      modifies this
      ensures nodes == old(nodes) + [n] && edges == old(edges) + [e]
    {
      nodes := nodes + [n];
      edges := edges + [e];
    }
  }
}
