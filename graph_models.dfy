/**
  * The recipe knowledge graph: typed nodes (dishes, ingredients, cooking
  * methods, categories, tools, seasonings), typed and weighted edges, and the
  * `RecipeGraph` container that keeps a node dictionary, an edge list and a
  * forward adjacency dictionary consistent through `add_node` and `add_edge`.
  *
  * The container's three fields are grouped into the value `GraphState`; every
  * query is specified by a function of that value, and the lemmas relate those
  * functions to the edge list.
  */
module GraphModels {
  import opened Wrappers
  import opened Text
  import opened Dicts
  import opened Ranking

  // ---------------------------------------------------------------------------
  // Node and edge types
  // ---------------------------------------------------------------------------

  datatype NodeType = Dish | Ingredient | CookingMethod | Category | Tool | Seasoning
  {
    /** The enum member's string value. */
    function Value(): string {
      match this
      case Dish => "dish"
      case Ingredient => "ingredient"
      case CookingMethod => "cooking_method"
      case Category => "category"
      case Tool => "tool"
      case Seasoning => "seasoning"
    }
  }

  /** Every node type, in declaration order. */
  const NodeTypes: seq<NodeType> := [Dish, Ingredient, CookingMethod, Category, Tool, Seasoning]

  /** `NodeType(s)`; `None` stands for the `ValueError` an unknown value raises. */
  function ParseNodeType(s: string): (r: Option<NodeType>)
    ensures r.Some? ==> r.value.Value() == s
    ensures r.None? ==> forall t: NodeType :: t.Value() != s
  {
    if s == "dish" then Some(Dish)
    else if s == "ingredient" then Some(Ingredient)
    else if s == "cooking_method" then Some(CookingMethod)
    else if s == "category" then Some(Category)
    else if s == "tool" then Some(Tool)
    else if s == "seasoning" then Some(Seasoning)
    else None
  }

  datatype EdgeType = Contains | UsesMethod | BelongsTo | PairsWith | SimilarTo | RequiresTool | UsesSeasoning
  {
    function Value(): string {
      match this
      case Contains => "contains"
      case UsesMethod => "uses_method"
      case BelongsTo => "belongs_to"
      case PairsWith => "pairs_with"
      case SimilarTo => "similar_to"
      case RequiresTool => "requires_tool"
      case UsesSeasoning => "uses_seasoning"
    }
  }

  /** Every edge type, in declaration order. */
  const EdgeTypes: seq<EdgeType> := [Contains, UsesMethod, BelongsTo, PairsWith, SimilarTo, RequiresTool, UsesSeasoning]

  /** `EdgeType(s)`; `None` stands for the `ValueError` an unknown value raises. */
  function ParseEdgeType(s: string): (r: Option<EdgeType>)
    ensures r.Some? ==> r.value.Value() == s
    ensures r.None? ==> forall t: EdgeType :: t.Value() != s
  {
    if s == "contains" then Some(Contains)
    else if s == "uses_method" then Some(UsesMethod)
    else if s == "belongs_to" then Some(BelongsTo)
    else if s == "pairs_with" then Some(PairsWith)
    else if s == "similar_to" then Some(SimilarTo)
    else if s == "requires_tool" then Some(RequiresTool)
    else if s == "uses_seasoning" then Some(UsesSeasoning)
    else None
  }

  /** Reading back a type's string value gives the type again. */
  lemma ParseValues()
    ensures forall t: NodeType :: ParseNodeType(t.Value()) == Some(t)
    ensures forall t: EdgeType :: ParseEdgeType(t.Value()) == Some(t)
  {
    forall t: NodeType
      ensures ParseNodeType(t.Value()) == Some(t)
    {
      match t
      case Dish =>
      case Ingredient =>
      case CookingMethod =>
      case Category =>
      case Tool =>
      case Seasoning =>
    }
    forall t: EdgeType
      ensures ParseEdgeType(t.Value()) == Some(t)
    {
      match t
      case Contains =>
      case UsesMethod =>
      case BelongsTo =>
      case PairsWith =>
      case SimilarTo =>
      case RequiresTool =>
      case UsesSeasoning =>
    }
  }

  // ---------------------------------------------------------------------------
  // Nodes and edges
  // ---------------------------------------------------------------------------

  /** The values stored in a node's or an edge's `properties`. */
  datatype PropValue = Str(s: string) | Num(x: real) | StrList(xs: seq<string>)

  type Properties = map<string, PropValue>

  /** `GraphNode`; two nodes are the same node when their ids agree. */
  datatype Node = Node(id: string, kind: NodeType, name: string, properties: Properties)

  /** What identifies an edge: `GraphEdge.__eq__` and `__hash__` ignore weight and properties. */
  datatype EdgeKey = EdgeKey(source: string, target: string, kind: EdgeType)

  /** `GraphEdge`, with `weight` defaulting to 1.0. */
  datatype Edge = Edge(source: string, target: string, kind: EdgeType, weight: real, properties: Properties)
  {
    function Key(): EdgeKey {
      EdgeKey(source, target, kind)
    }
  }

  /** `edge in edges`, which compares with `GraphEdge.__eq__`. */
  predicate HasEdge(es: seq<Edge>, e: Edge) {
    exists i | 0 <= i < |es| :: es[i].Key() == e.Key()
  }

  /** No two edges of the list are equal as `GraphEdge`s. */
  predicate DistinctKeys(es: seq<Edge>) {
    forall i, j | 0 <= i < j < |es| :: es[i].Key() != es[j].Key()
  }

  /** An edge of the list runs from `s` to `t` and, when a type is given, has that type. */
  predicate Linked(es: seq<Edge>, s: string, t: string, ty: Option<EdgeType>) {
    exists i | 0 <= i < |es| :: es[i].source == s && es[i].target == t && (ty.None? || es[i].kind == ty.value)
  }

  /** `edge_type is None or any(edge.edge_type == edge_type for edge in edges)`. */
  predicate HasType(es: seq<Edge>, ty: Option<EdgeType>) {
    ty.None? || exists i | 0 <= i < |es| :: es[i].kind == ty.value
  }

  /** The edges of the list from `s` to `t`, in list order. */
  function Between(es: seq<Edge>, s: string, t: string): seq<Edge> {
    if es == [] then []
    else
      var e := es[|es| - 1];
      Between(es[..|es| - 1], s, t) + (if e.source == s && e.target == t then [e] else [])
  }

  lemma {:induction false} BetweenMembers(es: seq<Edge>, s: string, t: string)
    ensures forall e :: e in Between(es, s, t) <==> e in es && e.source == s && e.target == t
  {
    if es != [] {
      BetweenMembers(es[..|es| - 1], s, t);
      assert es == es[..|es| - 1] + [es[|es| - 1]];
    }
  }

  /** A non-empty run of `s`-to-`t` edges carries the type exactly when some `s`-to-`t` edge has it. */
  lemma LinkedBetween(es: seq<Edge>, s: string, t: string, ty: Option<EdgeType>)
    ensures Linked(es, s, t, ty) <==> Between(es, s, t) != [] && HasType(Between(es, s, t), ty)
  {
    var b := Between(es, s, t);
    BetweenMembers(es, s, t);
    if Linked(es, s, t, ty) {
      var i :| 0 <= i < |es| && es[i].source == s && es[i].target == t && (ty.None? || es[i].kind == ty.value);
      assert es[i] in b;
      var k :| 0 <= k < |b| && b[k] == es[i];
    }
    if b != [] && HasType(b, ty) {
      var k :| 0 <= k < |b| && (ty.None? || b[k].kind == ty.value);
      assert b[k] in es;
    }
  }

  // ---------------------------------------------------------------------------
  // The graph's state and its invariant
  // ---------------------------------------------------------------------------

  /** `RecipeGraph.nodes`, `.edges` and `.adjacency_list` as one value. */
  datatype GraphState = GraphState(
    nodes: Dict<string, Node>,
    edges: seq<Edge>,
    adjacency: Dict<string, Dict<string, seq<Edge>>>)

  /** The dictionaries are well formed and every node is stored under its own id. */
  predicate Shaped(g: GraphState) {
    && g.nodes.Valid()
    && g.adjacency.Valid()
    && (forall s | s in g.adjacency.vals :: g.adjacency.vals[s].Valid())
    && (forall id | id in g.nodes.vals :: g.nodes.vals[id].id == id)
  }

  /**
    * What `add_node` and `add_edge` keep true: every node has an adjacency row;
    * the cell `adjacency[s][t]` holds exactly the edges from `s` to `t`, in
    * edge-list order, and exists only when there is one; every edge is filed
    * in its cell; and no edge is listed twice.
    */
  ghost predicate Consistent(g: GraphState) {
    && Shaped(g)
    && RowsForNodes(g)
    && CellsExact(g)
    && EdgesFiled(g)
    && DistinctKeys(g.edges)
  }

  /** Every node has an adjacency row. */
  predicate RowsForNodes(g: GraphState) {
    forall id | id in g.nodes.vals :: id in g.adjacency.vals
  }

  /** Every edge has a cell under its source and target. */
  predicate EdgesFiled(g: GraphState) {
    forall i | 0 <= i < |g.edges| ::
      g.edges[i].source in g.adjacency.vals && g.edges[i].target in g.adjacency.vals[g.edges[i].source].vals
  }

  /** Every cell `adjacency[s][t]` holds exactly the edges from `s` to `t`, and there is one. */
  predicate CellsExact(g: GraphState) {
    forall s, t | s in g.adjacency.vals && t in g.adjacency.vals[s].vals ::
      g.adjacency.vals[s].vals[t] == Between(g.edges, s, t) && Between(g.edges, s, t) != []
  }

  /** `RecipeGraph()`. */
  function EmptyGraph(): (g: GraphState)
    ensures Consistent(g)
  {
    GraphState(EmptyDict(), [], EmptyDict())
  }

  /** `add_node`: store the node under its id; give it an empty adjacency row if it has none. */
  function AddNodeState(g: GraphState, n: Node): GraphState {
    GraphState(
      g.nodes.Put(n.id, n),
      g.edges,
      if n.id in g.adjacency.vals then g.adjacency else g.adjacency.Put(n.id, EmptyDict()))
  }

  /** `add_edge`: a new edge is appended to the list and to its adjacency cell; an equal one changes nothing. */
  function AddEdgeState(g: GraphState, e: Edge): GraphState {
    if HasEdge(g.edges, e) then g
    else
      var row := g.adjacency.Get(e.source, EmptyDict());
      var cell := row.Get(e.target, []);
      GraphState(g.nodes, g.edges + [e], g.adjacency.Put(e.source, row.Put(e.target, cell + [e])))
  }

  /**
    * After `add_node(n)`, `n` is stored under its id, an existing adjacency row
    * for it is kept, a missing one is created empty, and the invariant holds.
    */
  lemma AddNodeSpec(g: GraphState, n: Node)
    requires Consistent(g)
    ensures var g' := AddNodeState(g, n);
      && Consistent(g')
      && g'.nodes.vals == g.nodes.vals[n.id := n]
      && g'.edges == g.edges
      && (n.id in g.adjacency.vals ==> g'.adjacency == g.adjacency)
      && (n.id !in g.adjacency.vals ==> g'.adjacency.vals == g.adjacency.vals[n.id := EmptyDict()])
  {
    var g' := AddNodeState(g, n);
    AddNodeShaped(g, n);
    AddNodeCells(g, n);
    if n.id !in g.adjacency.vals {
      AddNodeFiled(g, n);
    }
  }

  lemma AddNodeShaped(g: GraphState, n: Node)
    requires Shaped(g) && RowsForNodes(g)
    ensures Shaped(AddNodeState(g, n)) && RowsForNodes(AddNodeState(g, n))
  {
  }

  lemma AddNodeCells(g: GraphState, n: Node)
    requires CellsExact(g)
    ensures CellsExact(AddNodeState(g, n))
  {
  }

  lemma AddNodeFiled(g: GraphState, n: Node)
    requires EdgesFiled(g) && n.id !in g.adjacency.vals
    ensures EdgesFiled(AddNodeState(g, n))
  {
    var g' := AddNodeState(g, n);
    forall i | 0 <= i < |g.edges|
      ensures g'.edges[i].source in g'.adjacency.vals && g'.edges[i].target in g'.adjacency.vals[g'.edges[i].source].vals
    {
      assert g.edges[i].source != n.id;
    }
  }

  lemma BetweenAppend(es: seq<Edge>, e: Edge, s: string, t: string)
    ensures Between(es + [e], s, t) == Between(es, s, t) + (if e.source == s && e.target == t then [e] else [])
  {
    assert (es + [e])[..|es|] == es;
  }

  /** Edges between two ids are filed under a cell for those ids. */
  lemma BetweenFiled(g: GraphState, s: string, t: string)
    requires Consistent(g) && Between(g.edges, s, t) != []
    ensures s in g.adjacency.vals && t in g.adjacency.vals[s].vals
  {
    BetweenMembers(g.edges, s, t);
    var x := Between(g.edges, s, t)[0];
    assert x in g.edges;
  }

  /** The cell a new edge is appended to held exactly the earlier edges between its endpoints. */
  lemma AddEdgeCell(g: GraphState, e: Edge)
    requires Consistent(g)
    ensures g.adjacency.Get(e.source, EmptyDict()).Get(e.target, []) == Between(g.edges, e.source, e.target)
  {
    if Between(g.edges, e.source, e.target) != [] {
      BetweenFiled(g, e.source, e.target);
    }
  }

  lemma AddEdgeCells(g: GraphState, e: Edge)
    requires Consistent(g) && !HasEdge(g.edges, e)
    ensures CellsExact(AddEdgeState(g, e))
  {
    var g' := AddEdgeState(g, e);
    forall s, t | s in g'.adjacency.vals && t in g'.adjacency.vals[s].vals
      ensures g'.adjacency.vals[s].vals[t] == Between(g'.edges, s, t) && Between(g'.edges, s, t) != []
    {
      AddEdgeCell(g, e);
      AddEdgeCellAt(g, e, s, t);
    }
  }

  /** After a new edge, each cell still holds exactly the edges between its endpoints. */
  lemma AddEdgeCellAt(g: GraphState, e: Edge, s: string, t: string)
    requires CellsExact(g)
    requires g.adjacency.Get(e.source, EmptyDict()).Get(e.target, []) == Between(g.edges, e.source, e.target)
    requires !HasEdge(g.edges, e)
    requires s in AddEdgeState(g, e).adjacency.vals && t in AddEdgeState(g, e).adjacency.vals[s].vals
    ensures var g' := AddEdgeState(g, e);
      g'.adjacency.vals[s].vals[t] == Between(g'.edges, s, t) && Between(g'.edges, s, t) != []
  {
    var row := g.adjacency.Get(e.source, EmptyDict());
    var cell := row.Get(e.target, []);
    var g' := AddEdgeState(g, e);
    assert g'.edges == g.edges + [e];
    assert g'.adjacency.vals == g.adjacency.vals[e.source := row.Put(e.target, cell + [e])];
    BetweenAppend(g.edges, e, s, t);
    if s == e.source && t == e.target {
      assert g'.adjacency.vals[s].vals[t] == cell + [e];
    } else if s == e.source {
      assert t in row.vals;
      assert g'.adjacency.vals[s].vals[t] == g.adjacency.vals[s].vals[t];
    } else {
      assert g'.adjacency.vals[s] == g.adjacency.vals[s];
    }
  }

  lemma AddEdgeFiled(g: GraphState, e: Edge)
    requires Consistent(g) && !HasEdge(g.edges, e)
    ensures DistinctKeys(AddEdgeState(g, e).edges) && EdgesFiled(AddEdgeState(g, e))
  {
    AddEdgeDistinct(g.edges, e);
    var g' := AddEdgeState(g, e);
    forall i | 0 <= i < |g'.edges|
      ensures g'.edges[i].source in g'.adjacency.vals
      ensures g'.edges[i].target in g'.adjacency.vals[g'.edges[i].source].vals
    {
      AddEdgeFiledAt(g, e, i);
    }
  }

  /** Appending an edge not yet listed keeps the keys distinct. */
  lemma AddEdgeDistinct(es: seq<Edge>, e: Edge)
    requires DistinctKeys(es) && !HasEdge(es, e)
    ensures DistinctKeys(es + [e])
  {
    var es' := es + [e];
    forall i, j | 0 <= i < j < |es'|
      ensures es'[i].Key() != es'[j].Key()
    {
      if j == |es| {
        assert es'[i] == es[i];
      }
    }
  }

  /** After a new edge, every listed edge is still filed in its cell. */
  lemma AddEdgeFiledAt(g: GraphState, e: Edge, i: int)
    requires EdgesFiled(g) && !HasEdge(g.edges, e)
    requires 0 <= i < |AddEdgeState(g, e).edges|
    ensures var g' := AddEdgeState(g, e);
      g'.edges[i].source in g'.adjacency.vals && g'.edges[i].target in g'.adjacency.vals[g'.edges[i].source].vals
  {
    var row := g.adjacency.Get(e.source, EmptyDict());
    var cell := row.Get(e.target, []);
    var g' := AddEdgeState(g, e);
    assert g'.adjacency.vals == g.adjacency.vals[e.source := row.Put(e.target, cell + [e])];
    if i < |g.edges| {
      var x := g.edges[i];
      assert g'.edges[i] == x;
      assert x.source in g.adjacency.vals && x.target in g.adjacency.vals[x.source].vals;
      if x.source == e.source {
        assert x.target in row.vals;
      }
    }
  }

  /**
    * `add_edge` keeps the invariant. An edge equal to a listed one changes
    * nothing; any other edge is appended at the end of the list.
    */
  lemma AddEdgeSpec(g: GraphState, e: Edge)
    requires Consistent(g)
    ensures var g' := AddEdgeState(g, e);
      && Consistent(g')
      && g'.nodes == g.nodes
      && (HasEdge(g.edges, e) ==> g' == g)
      && (!HasEdge(g.edges, e) ==> g'.edges == g.edges + [e])
  {
    if !HasEdge(g.edges, e) {
      AddEdgeShaped(g, e);
      AddEdgeCells(g, e);
      AddEdgeFiled(g, e);
    }
  }

  lemma AddEdgeShaped(g: GraphState, e: Edge)
    requires Shaped(g) && RowsForNodes(g)
    ensures Shaped(AddEdgeState(g, e)) && RowsForNodes(AddEdgeState(g, e))
  {
  }

  /** `add_edge` appends a new edge to the list and leaves the list alone otherwise. */
  lemma AddEdgeEdges(g: GraphState, e: Edge)
    ensures AddEdgeState(g, e).edges == if HasEdge(g.edges, e) then g.edges else g.edges + [e]
    ensures AddEdgeState(g, e).nodes == g.nodes
  {
  }

  /**
    * After `add_edge(e)` an edge with `e`'s key is stored, every earlier edge
    * keeps its place, and the list grows by at most one.
    */
  lemma AddEdgeStores(g: GraphState, e: Edge)
    ensures HasEdge(AddEdgeState(g, e).edges, e)
    ensures |g.edges| <= |AddEdgeState(g, e).edges| <= |g.edges| + 1
    ensures AddEdgeState(g, e).edges[..|g.edges|] == g.edges
  {
    if !HasEdge(g.edges, e) {
      assert AddEdgeState(g, e).edges[|g.edges|] == e;
    }
  }

  /** Re-adding an edge equal to one just added, whatever its weight, changes nothing. */
  lemma AddEdgeIdempotent(g: GraphState, e: Edge, e': Edge)
    requires e'.Key() == e.Key()
    ensures AddEdgeState(AddEdgeState(g, e), e') == AddEdgeState(g, e)
  {
    var g1 := AddEdgeState(g, e);
    if HasEdge(g.edges, e) {
      var i :| 0 <= i < |g.edges| && g.edges[i].Key() == e.Key();
      assert g1.edges[i].Key() == e'.Key();
    } else {
      assert g1.edges[|g.edges|].Key() == e'.Key();
    }
  }

  /** After `add_edge(e)` two ids are linked when they were before or when `e` was new and links them. */
  lemma LinkedAfterAddEdge(g: GraphState, e: Edge, s: string, t: string, ty: Option<EdgeType>)
    ensures Linked(AddEdgeState(g, e).edges, s, t, ty) <==>
      Linked(g.edges, s, t, ty) || (!HasEdge(g.edges, e) && e.source == s && e.target == t && (ty.None? || e.kind == ty.value))
  {
    AddEdgeEdges(g, e);
    if !HasEdge(g.edges, e) {
      LinkedSnoc(g.edges, e, s, t, ty);
    }
  }

  lemma LinkedSnoc(es: seq<Edge>, e: Edge, s: string, t: string, ty: Option<EdgeType>)
    ensures Linked(es + [e], s, t, ty) <==> Linked(es, s, t, ty) || (e.source == s && e.target == t && (ty.None? || e.kind == ty.value))
  {
    var es' := es + [e];
    if Linked(es', s, t, ty) {
      var i :| 0 <= i < |es'| && es'[i].source == s && es'[i].target == t && (ty.None? || es'[i].kind == ty.value);
      if i < |es| {
        assert es[i] == es'[i];
      }
    }
    if Linked(es, s, t, ty) {
      var i :| 0 <= i < |es| && es[i].source == s && es[i].target == t && (ty.None? || es[i].kind == ty.value);
      assert es'[i] == es[i];
    }
    if e.source == s && e.target == t && (ty.None? || e.kind == ty.value) {
      assert es'[|es|] == e;
    }
  }

  // ---------------------------------------------------------------------------
  // Neighbours
  // ---------------------------------------------------------------------------

  /** Every node of the dictionary is stored under its own id. */
  predicate KeyedById(nodes: Dict<string, Node>) {
    forall id | id in nodes.vals :: nodes.vals[id].id == id
  }

  /** The neighbours collected from one adjacency row: its targets, in key order, that have a matching edge and a node. */
  function OutPart(nodes: Dict<string, Node>, row: Dict<string, seq<Edge>>, ks: seq<string>, ty: Option<EdgeType>): (r: seq<Node>)
    requires forall k | k in ks :: k in row.vals
    requires KeyedById(nodes)
    ensures forall i | 0 <= i < |r| :: r[i].id in nodes.vals && nodes.vals[r[i].id] == r[i]
  {
    if ks == [] then []
    else
      var k := ks[|ks| - 1];
      OutPart(nodes, row, ks[..|ks| - 1], ty) + (if HasType(row.vals[k], ty) && k in nodes.vals then [nodes.vals[k]] else [])
  }

  /** The neighbours collected from the rows with a cell for `id`: those rows' sources, in key order. */
  function InPart(nodes: Dict<string, Node>, adj: Dict<string, Dict<string, seq<Edge>>>, ks: seq<string>, id: string, ty: Option<EdgeType>): (r: seq<Node>)
    requires forall k | k in ks :: k in adj.vals
    requires KeyedById(nodes)
    ensures forall i | 0 <= i < |r| :: r[i].id in nodes.vals && nodes.vals[r[i].id] == r[i]
  {
    if ks == [] then []
    else
      var k := ks[|ks| - 1];
      InPart(nodes, adj, ks[..|ks| - 1], id, ty)
        + (if Feeds(adj, k, id, ty) && k in nodes.vals then [nodes.vals[k]] else [])
  }

  /** One more key of the row: its target joins the list when it qualifies. */
  lemma OutPartStep(nodes: Dict<string, Node>, row: Dict<string, seq<Edge>>, ks: seq<string>, i: int, ty: Option<EdgeType>)
    requires 0 <= i < |ks|
    requires forall k | k in ks :: k in row.vals
    requires KeyedById(nodes)
    ensures OutPart(nodes, row, ks[..i + 1], ty) ==
      OutPart(nodes, row, ks[..i], ty) + (if HasType(row.vals[ks[i]], ty) && ks[i] in nodes.vals then [nodes.vals[ks[i]]] else [])
  {
    assert ks[..i + 1][..i] == ks[..i];
  }

  /** One more row: its source joins the list when the row has a qualifying cell for `id`. */
  lemma InPartStep(nodes: Dict<string, Node>, adj: Dict<string, Dict<string, seq<Edge>>>, ks: seq<string>, i: int, id: string, ty: Option<EdgeType>)
    requires 0 <= i < |ks|
    requires forall k | k in ks :: k in adj.vals
    requires KeyedById(nodes)
    ensures InPart(nodes, adj, ks[..i + 1], id, ty) ==
      InPart(nodes, adj, ks[..i], id, ty) + (if Feeds(adj, ks[i], id, ty) && ks[i] in nodes.vals then [nodes.vals[ks[i]]] else [])
  {
    assert ks[..i + 1][..i] == ks[..i];
  }

  /**
    * `get_neighbors(id, ty)`: the out-neighbours of `id` followed by its
    * in-neighbours. Ids without a node are skipped and nothing is deduplicated.
    * Every neighbour listed is the graph's own node for its id.
    */
  function Neighbors(g: GraphState, id: string, ty: Option<EdgeType>): (r: seq<Node>)
    requires Shaped(g)
    ensures forall i | 0 <= i < |r| :: r[i].id in g.nodes.vals && g.nodes.vals[r[i].id] == r[i]
  {
    (if id in g.adjacency.vals then OutPart(g.nodes, g.adjacency.vals[id], g.adjacency.vals[id].keys, ty) else [])
      + InPart(g.nodes, g.adjacency, g.adjacency.keys, id, ty)
  }

  /** How many entries of a node list carry the id `y`. */
  function CountId(ns: seq<Node>, y: string): nat {
    if ns == [] then 0 else CountId(ns[..|ns| - 1], y) + (if ns[|ns| - 1].id == y then 1 else 0)
  }

  lemma {:induction false} CountIdAppend(a: seq<Node>, b: seq<Node>, y: string)
    ensures CountId(a + b, y) == CountId(a, y) + CountId(b, y)
    decreases |b|
  {
    if b != [] {
      CountIdAppend(a, b[..|b| - 1], y);
      assert (a + b)[..|a + b| - 1] == a + b[..|b| - 1];
    } else {
      assert a + b == a;
    }
  }

  lemma {:induction false} CountIdPositive(ns: seq<Node>, y: string)
    ensures CountId(ns, y) > 0 <==> exists i | 0 <= i < |ns| :: ns[i].id == y
  {
    if ns != [] {
      var ns0 := ns[..|ns| - 1];
      CountIdPositive(ns0, y);
      if CountId(ns, y) > 0 {
        if ns[|ns| - 1].id != y {
          var i :| 0 <= i < |ns0| && ns0[i].id == y;
          assert ns[i].id == y;
        }
      }
      if exists i | 0 <= i < |ns| :: ns[i].id == y {
        var i :| 0 <= i < |ns| && ns[i].id == y;
        if i < |ns0| {
          assert ns0[i].id == y;
        }
      }
    }
  }

  /** A list of at most one node lists `y` once when that node has the id `y`. */
  lemma CountIdPiece(piece: seq<Node>, y: string)
    requires |piece| <= 1
    ensures CountId(piece, y) == if piece != [] && piece[0].id == y then 1 else 0
  {
    if piece != [] {
      assert piece[..0] == [];
    }
  }

  lemma {:induction false} OutCount(nodes: Dict<string, Node>, row: Dict<string, seq<Edge>>, ks: seq<string>, ty: Option<EdgeType>, y: string)
    requires forall k | k in ks :: k in row.vals
    requires KeyedById(nodes)
    requires Distinct(ks)
    ensures CountId(OutPart(nodes, row, ks, ty), y) == if y in ks && y in nodes.vals && HasType(row.vals[y], ty) then 1 else 0
  {
    if ks != [] {
      var ks0, k := ks[..|ks| - 1], ks[|ks| - 1];
      OutCount(nodes, row, ks0, ty, y);
      var piece := if HasType(row.vals[k], ty) && k in nodes.vals then [nodes.vals[k]] else [];
      CountIdAppend(OutPart(nodes, row, ks0, ty), piece, y);
      CountIdPiece(piece, y);
      InSnoc(ks);
      assert k !in ks0;
    }
  }

  /** The row of `k` has a cell for `id` holding an edge of the type. */
  predicate Feeds(adj: Dict<string, Dict<string, seq<Edge>>>, k: string, id: string, ty: Option<EdgeType>)
    requires k in adj.vals
  {
    id in adj.vals[k].vals && HasType(adj.vals[k].vals[id], ty)
  }

  lemma {:induction false} InCount(nodes: Dict<string, Node>, adj: Dict<string, Dict<string, seq<Edge>>>, ks: seq<string>, id: string, ty: Option<EdgeType>, y: string)
    requires forall k | k in ks :: k in adj.vals
    requires KeyedById(nodes)
    requires Distinct(ks)
    ensures CountId(InPart(nodes, adj, ks, id, ty), y) == if y in ks && y in nodes.vals && Feeds(adj, y, id, ty) then 1 else 0
  {
    if ks != [] {
      var ks0, k := ks[..|ks| - 1], ks[|ks| - 1];
      InCount(nodes, adj, ks0, id, ty, y);
      var piece := if Feeds(adj, k, id, ty) && k in nodes.vals then [nodes.vals[k]] else [];
      CountIdAppend(InPart(nodes, adj, ks0, id, ty), piece, y);
      CountIdPiece(piece, y);
      InSnoc(ks);
      assert k !in ks0;
    }
  }

  /** 1 when an edge of the type runs from `a` to `b`, else 0. */
  function LinkCount(g: GraphState, a: string, b: string, ty: Option<EdgeType>): nat {
    if Linked(g.edges, a, b, ty) then 1 else 0
  }

  /** How often `b` is listed among the neighbours of `a`, in terms of the edge list. */
  function Weight(g: GraphState, a: string, b: string, ty: Option<EdgeType>): nat {
    if b in g.nodes.vals then LinkCount(g, a, b, ty) + LinkCount(g, b, a, ty) else 0
  }

  /**
    * `y` is listed among the neighbours of `id` once for an edge `id -> y` and
    * once for an edge `y -> id` of the requested type, when `y` has a node.
    */
  lemma NeighborCount(g: GraphState, id: string, y: string, ty: Option<EdgeType>)
    requires Consistent(g)
    ensures CountId(Neighbors(g, id, ty), y) == Weight(g, id, y, ty)
  {
    var out := if id in g.adjacency.vals then OutPart(g.nodes, g.adjacency.vals[id], g.adjacency.vals[id].keys, ty) else [];
    var inn := InPart(g.nodes, g.adjacency, g.adjacency.keys, id, ty);
    CountIdAppend(out, inn, y);
    LinkedBetween(g.edges, id, y, ty);
    LinkedBetween(g.edges, y, id, ty);
    if Between(g.edges, id, y) != [] {
      BetweenFiled(g, id, y);
    }
    if Between(g.edges, y, id) != [] {
      BetweenFiled(g, y, id);
    }
    if id in g.adjacency.vals {
      var row := g.adjacency.vals[id];
      OutCount(g.nodes, row, row.keys, ty, y);
    }
    InCount(g.nodes, g.adjacency, g.adjacency.keys, id, ty, y);
  }

  /** `b` has a node and an edge of the type joins it to `a`, in either direction. */
  predicate Adjacent(g: GraphState, a: string, b: string, ty: Option<EdgeType>) {
    b in g.nodes.vals && (Linked(g.edges, a, b, ty) || Linked(g.edges, b, a, ty))
  }

  /** The neighbours of `a` are exactly the nodes adjacent to it. */
  lemma NeighborMembers(g: GraphState, a: string, ty: Option<EdgeType>)
    requires Consistent(g)
    ensures forall n :: n in Neighbors(g, a, ty) <==> n.id in g.nodes.vals && g.nodes.vals[n.id] == n && Adjacent(g, a, n.id, ty)
  {
    forall n
      ensures n in Neighbors(g, a, ty) <==> n.id in g.nodes.vals && g.nodes.vals[n.id] == n && Adjacent(g, a, n.id, ty)
    {
      NeighborMember(g, a, n, ty);
    }
  }

  lemma NeighborMember(g: GraphState, a: string, n: Node, ty: Option<EdgeType>)
    requires Consistent(g)
    ensures n in Neighbors(g, a, ty) <==> n.id in g.nodes.vals && g.nodes.vals[n.id] == n && Adjacent(g, a, n.id, ty)
  {
    var ns := Neighbors(g, a, ty);
    NeighborCount(g, a, n.id, ty);
    CountIdPositive(ns, n.id);
    if Adjacent(g, a, n.id, ty) && n.id in g.nodes.vals && g.nodes.vals[n.id] == n {
      var i :| 0 <= i < |ns| && ns[i].id == n.id;
    }
  }

  /** Traversal ignores direction: an edge makes each endpoint a neighbour of the other, under its type and under no type. */
  lemma EdgeNeighbors(g: GraphState, e: Edge)
    requires Consistent(g) && e in g.edges
    requires e.source in g.nodes.vals && e.target in g.nodes.vals
    ensures g.nodes.vals[e.target] in Neighbors(g, e.source, Some(e.kind))
    ensures g.nodes.vals[e.source] in Neighbors(g, e.target, Some(e.kind))
    ensures g.nodes.vals[e.target] in Neighbors(g, e.source, None)
    ensures g.nodes.vals[e.source] in Neighbors(g, e.target, None)
  {
    var i :| 0 <= i < |g.edges| && g.edges[i] == e;
    assert Linked(g.edges, e.source, e.target, Some(e.kind));
    assert Linked(g.edges, e.source, e.target, None);
    NeighborMember(g, e.source, g.nodes.vals[e.target], Some(e.kind));
    NeighborMember(g, e.target, g.nodes.vals[e.source], Some(e.kind));
    NeighborMember(g, e.source, g.nodes.vals[e.target], None);
    NeighborMember(g, e.target, g.nodes.vals[e.source], None);
  }

  // ---------------------------------------------------------------------------
  // Edges out of a node
  // ---------------------------------------------------------------------------

  /** The edges of a list that have the requested type (all of them when none is requested), in list order. */
  function EdgesOfType(es: seq<Edge>, ty: Option<EdgeType>): (r: seq<Edge>)
    ensures forall e :: e in r <==> e in es && (ty.None? || e.kind == ty.value)
  {
    if es == [] then []
    else
      var e := es[|es| - 1];
      assert es == es[..|es| - 1] + [e];
      EdgesOfType(es[..|es| - 1], ty) + (if ty.None? || e.kind == ty.value then [e] else [])
  }

  /** The typed edges of the cells of `row` named by `ks` (all of them, or the one for `target`), in key order. */
  function RowEdges(row: Dict<string, seq<Edge>>, ks: seq<string>, target: Option<string>, ty: Option<EdgeType>): seq<Edge>
    requires forall k | k in ks :: k in row.vals
  {
    if ks == [] then []
    else
      var k := ks[|ks| - 1];
      RowEdges(row, ks[..|ks| - 1], target, ty) + (if target.None? || k == target.value then EdgesOfType(row.vals[k], ty) else [])
  }

  lemma {:induction false} RowEdgesMembers(row: Dict<string, seq<Edge>>, ks: seq<string>, target: Option<string>, ty: Option<EdgeType>)
    requires forall k | k in ks :: k in row.vals
    ensures forall e :: e in RowEdges(row, ks, target, ty) <==>
      exists i | 0 <= i < |ks| :: (target.None? || ks[i] == target.value) && e in row.vals[ks[i]] && (ty.None? || e.kind == ty.value)
  {
    if ks != [] {
      var ks0 := ks[..|ks| - 1];
      RowEdgesMembers(row, ks0, target, ty);
      assert forall i | 0 <= i < |ks0| :: ks0[i] == ks[i];
    }
  }

  lemma EdgesOfTypeStep(es: seq<Edge>, k: int, ty: Option<EdgeType>)
    requires 0 <= k < |es|
    ensures EdgesOfType(es[..k + 1], ty) == EdgesOfType(es[..k], ty) + (if ty.None? || es[k].kind == ty.value then [es[k]] else [])
  {
    assert es[..k + 1][..k] == es[..k];
  }

  lemma RowEdgesStep(row: Dict<string, seq<Edge>>, ks: seq<string>, i: int, target: Option<string>, ty: Option<EdgeType>)
    requires 0 <= i < |ks|
    requires forall k | k in ks :: k in row.vals
    ensures RowEdges(row, ks[..i + 1], target, ty) ==
      RowEdges(row, ks[..i], target, ty) + (if target.None? || ks[i] == target.value then EdgesOfType(row.vals[ks[i]], ty) else [])
  {
    assert ks[..i + 1][..i] == ks[..i];
  }

  /** `get_edges(source, target, ty)`: nothing for a source without an adjacency entry, otherwise its row read in key order. */
  function EdgesFrom(g: GraphState, source: string, target: Option<string>, ty: Option<EdgeType>): seq<Edge>
    requires Shaped(g)
  {
    if source in g.adjacency.vals then RowEdges(g.adjacency.vals[source], g.adjacency.vals[source].keys, target, ty) else []
  }

  /** A stored edge out of `source` is filed in the row of `source`, under its target. */
  lemma EdgeInRow(g: GraphState, e: Edge)
    requires Consistent(g)
    requires e in g.edges
    ensures e.source in g.adjacency.vals
    ensures exists i | 0 <= i < |g.adjacency.vals[e.source].keys| :: g.adjacency.vals[e.source].keys[i] == e.target
  {
    BetweenMembers(g.edges, e.source, e.target);
    BetweenFiled(g, e.source, e.target);
    var row := g.adjacency.vals[e.source];
    assert row.keys[|row.keys| - 1] in row.keys;
    assert e.target in row.keys;
  }

  /** The cell of the row of `source` under `k` holds exactly the stored edges from `source` to `k`. */
  lemma CellMembers(g: GraphState, source: string, k: string)
    requires Consistent(g)
    requires source in g.adjacency.vals && k in g.adjacency.vals[source].vals
    ensures forall e :: e in g.adjacency.vals[source].vals[k] <==> e in g.edges && e.source == source && e.target == k
  {
    BetweenMembers(g.edges, source, k);
  }

  lemma EdgesFromComplete(g: GraphState, source: string, target: Option<string>, ty: Option<EdgeType>, e: Edge)
    requires Consistent(g)
    requires e in g.edges && e.source == source && (target.None? || e.target == target.value) && (ty.None? || e.kind == ty.value)
    ensures e in EdgesFrom(g, source, target, ty)
  {
    EdgeInRow(g, e);
    var row := g.adjacency.vals[source];
    RowEdgesMembers(row, row.keys, target, ty);
    var i :| 0 <= i < |row.keys| && row.keys[i] == e.target;
    CellMembers(g, source, e.target);
  }

  lemma EdgesFromSound(g: GraphState, source: string, target: Option<string>, ty: Option<EdgeType>, e: Edge)
    requires Consistent(g)
    requires e in EdgesFrom(g, source, target, ty)
    ensures e in g.edges && e.source == source && (target.None? || e.target == target.value) && (ty.None? || e.kind == ty.value)
  {
    var row := g.adjacency.vals[source];
    RowEdgesMembers(row, row.keys, target, ty);
    var i :| 0 <= i < |row.keys| && (target.None? || row.keys[i] == target.value) && e in row.vals[row.keys[i]] && (ty.None? || e.kind == ty.value);
    CellMembers(g, source, row.keys[i]);
  }

  /** `get_edges` returns exactly the stored edges out of `source` that match the optional target and type. */
  lemma EdgesFromMembers(g: GraphState, source: string, target: Option<string>, ty: Option<EdgeType>)
    requires Consistent(g)
    ensures forall e :: e in EdgesFrom(g, source, target, ty) <==>
      e in g.edges && e.source == source && (target.None? || e.target == target.value) && (ty.None? || e.kind == ty.value)
  {
    forall e | e in EdgesFrom(g, source, target, ty) {
      EdgesFromSound(g, source, target, ty, e);
    }
    forall e | e in g.edges && e.source == source && (target.None? || e.target == target.value) && (ty.None? || e.kind == ty.value) {
      EdgesFromComplete(g, source, target, ty, e);
    }
  }

  // ---------------------------------------------------------------------------
  // Counting over neighbours
  // ---------------------------------------------------------------------------

  /** Over the nodes `xs` in turn, how often `y` is listed among each one's neighbours of the type. */
  function HopCount(g: GraphState, xs: seq<Node>, ty: Option<EdgeType>, y: string): nat
    requires Shaped(g)
  {
    if xs == [] then 0 else HopCount(g, xs[..|xs| - 1], ty, y) + CountId(Neighbors(g, xs[|xs| - 1].id, ty), y)
  }

  /** The same tally read off the edge list. */
  function LinkSum(g: GraphState, xs: seq<Node>, ty: Option<EdgeType>, y: string): nat {
    if xs == [] then 0 else LinkSum(g, xs[..|xs| - 1], ty, y) + Weight(g, xs[|xs| - 1].id, y, ty)
  }

  /**
    * The neighbour tally counts, for each listed node, the edges of the type
    * between it and `y` (a node listed twice counts twice), and it is positive
    * exactly when some listed node is adjacent to `y`.
    */
  lemma {:induction false} HopCountLinks(g: GraphState, xs: seq<Node>, ty: Option<EdgeType>, y: string)
    requires Consistent(g)
    ensures HopCount(g, xs, ty, y) == LinkSum(g, xs, ty, y)
    ensures HopCount(g, xs, ty, y) > 0 <==> SomeAdjacent(g, xs, y, ty)
  {
    HopCountIsLinkSum(g, xs, ty, y);
    LinkSumPositive(g, xs, ty, y);
  }

  lemma {:induction false} HopCountIsLinkSum(g: GraphState, xs: seq<Node>, ty: Option<EdgeType>, y: string)
    requires Consistent(g)
    ensures HopCount(g, xs, ty, y) == LinkSum(g, xs, ty, y)
  {
    if xs != [] {
      HopCountIsLinkSum(g, xs[..|xs| - 1], ty, y);
      NeighborCount(g, xs[|xs| - 1].id, y, ty);
    }
  }

  /** One of the nodes is adjacent to `y`. */
  predicate SomeAdjacent(g: GraphState, xs: seq<Node>, y: string, ty: Option<EdgeType>) {
    exists i | 0 <= i < |xs| :: Adjacent(g, xs[i].id, y, ty)
  }

  lemma SomeAdjacentStep(g: GraphState, xs: seq<Node>, y: string, ty: Option<EdgeType>)
    requires xs != []
    ensures SomeAdjacent(g, xs, y, ty) <==> SomeAdjacent(g, xs[..|xs| - 1], y, ty) || Adjacent(g, xs[|xs| - 1].id, y, ty)
  {
    var xs0 := xs[..|xs| - 1];
    if SomeAdjacent(g, xs, y, ty) {
      var i :| 0 <= i < |xs| && Adjacent(g, xs[i].id, y, ty);
      if i < |xs0| {
        assert Adjacent(g, xs0[i].id, y, ty);
      }
    }
    if SomeAdjacent(g, xs0, y, ty) {
      var i :| 0 <= i < |xs0| && Adjacent(g, xs0[i].id, y, ty);
      assert Adjacent(g, xs[i].id, y, ty);
    }
  }

  lemma {:induction false} LinkSumPositive(g: GraphState, xs: seq<Node>, ty: Option<EdgeType>, y: string)
    ensures LinkSum(g, xs, ty, y) > 0 <==> SomeAdjacent(g, xs, y, ty)
  {
    if xs != [] {
      LinkSumPositive(g, xs[..|xs| - 1], ty, y);
      SomeAdjacentStep(g, xs, y, ty);
    }
  }

  /**
    * Over the nodes `xs` in turn: how often `y` is listed among the `t2`
    * neighbours of each `t1` neighbour of x; with `skipSelf`, x itself is never
    * counted for x.
    */
  function TwoHopCount(g: GraphState, xs: seq<Node>, t1: Option<EdgeType>, t2: Option<EdgeType>, skipSelf: bool, y: string): nat
    requires Shaped(g)
  {
    if xs == [] then 0
    else
      var x := xs[|xs| - 1];
      TwoHopCount(g, xs[..|xs| - 1], t1, t2, skipSelf, y) + (if skipSelf && x.id == y then 0 else HopCount(g, Neighbors(g, x.id, t1), t2, y))
  }

  /** A node `d` joins `x` to `y`: `x` and `d` are adjacent under `t1`, and `d` and `y` under `t2`. */
  predicate Joins(g: GraphState, x: string, d: string, y: string, t1: Option<EdgeType>, t2: Option<EdgeType>) {
    d in g.nodes.vals && Adjacent(g, x, d, t1) && Adjacent(g, d, y, t2)
  }

  /** Some node joins `x` to `y`. */
  ghost predicate Joined(g: GraphState, x: string, y: string, t1: Option<EdgeType>, t2: Option<EdgeType>) {
    exists d :: Joins(g, x, d, y, t1, t2)
  }

  lemma OneTwoHop(g: GraphState, x: Node, t1: Option<EdgeType>, t2: Option<EdgeType>, y: string)
    requires Consistent(g)
    ensures HopCount(g, Neighbors(g, x.id, t1), t2, y) > 0 <==> Joined(g, x.id, y, t1, t2)
  {
    var ds := Neighbors(g, x.id, t1);
    HopCountLinks(g, ds, t2, y);
    NeighborMembers(g, x.id, t1);
    if exists d :: Joins(g, x.id, d, y, t1, t2) {
      var d :| Joins(g, x.id, d, y, t1, t2);
      assert g.nodes.vals[d] in ds;
      var i :| 0 <= i < |ds| && ds[i] == g.nodes.vals[d];
      assert Adjacent(g, ds[i].id, y, t2);
    }
    if exists i | 0 <= i < |ds| :: Adjacent(g, ds[i].id, y, t2) {
      var i :| 0 <= i < |ds| && Adjacent(g, ds[i].id, y, t2);
      assert ds[i] in ds;
      assert Joins(g, x.id, ds[i].id, y, t1, t2);
    }
  }

  /** Some listed node `x` (other than `y` itself under `skipSelf`) is joined to `y` by an intermediate node. */
  ghost predicate SomeJoined(g: GraphState, xs: seq<Node>, t1: Option<EdgeType>, t2: Option<EdgeType>, skipSelf: bool, y: string) {
    exists i | 0 <= i < |xs| :: !(skipSelf && xs[i].id == y) && Joined(g, xs[i].id, y, t1, t2)
  }

  lemma SomeJoinedStep(g: GraphState, xs: seq<Node>, t1: Option<EdgeType>, t2: Option<EdgeType>, skipSelf: bool, y: string)
    requires xs != []
    ensures var x := xs[|xs| - 1];
      SomeJoined(g, xs, t1, t2, skipSelf, y) <==>
        SomeJoined(g, xs[..|xs| - 1], t1, t2, skipSelf, y) || (!(skipSelf && x.id == y) && Joined(g, x.id, y, t1, t2))
  {
    var xs0 := xs[..|xs| - 1];
    if SomeJoined(g, xs, t1, t2, skipSelf, y) {
      var i :| 0 <= i < |xs| && !(skipSelf && xs[i].id == y) && Joined(g, xs[i].id, y, t1, t2);
      if i < |xs0| {
        assert xs0[i] == xs[i];
      }
    }
    if SomeJoined(g, xs0, t1, t2, skipSelf, y) {
      var i :| 0 <= i < |xs0| && !(skipSelf && xs0[i].id == y) && Joined(g, xs0[i].id, y, t1, t2);
      assert xs[i] == xs0[i];
    }
  }

  /**
    * The two-step tally is positive exactly when some listed node `x` (other
    * than `y` itself under `skipSelf`) is joined to `y` by an intermediate node.
    */
  lemma {:induction false} TwoHopMembers(g: GraphState, xs: seq<Node>, t1: Option<EdgeType>, t2: Option<EdgeType>, skipSelf: bool, y: string)
    requires Consistent(g)
    ensures TwoHopCount(g, xs, t1, t2, skipSelf, y) > 0 <==> SomeJoined(g, xs, t1, t2, skipSelf, y)
  {
    if xs != [] {
      TwoHopMembers(g, xs[..|xs| - 1], t1, t2, skipSelf, y);
      OneTwoHop(g, xs[|xs| - 1], t1, t2, y);
      SomeJoinedStep(g, xs, t1, t2, skipSelf, y);
    }
  }

  /** Σ over the ids `ks` of Weight(a, k) · Weight(k, b): the two-step links from `a` to `b` through the nodes `ks`. */
  function Walks(g: GraphState, ks: seq<string>, a: string, b: string, ty: Option<EdgeType>): nat {
    if ks == [] then 0
    else
      var k := ks[|ks| - 1];
      Walks(g, ks[..|ks| - 1], a, b, ty) + Weight(g, a, k, ty) * Weight(g, k, b, ty)
  }

  /** Σ over the ids `ks` of (times `k` is listed in `ds`) · Weight(k, b). */
  function Through(g: GraphState, ks: seq<string>, ds: seq<Node>, b: string, ty: Option<EdgeType>): nat {
    if ks == [] then 0
    else
      var k := ks[|ks| - 1];
      Through(g, ks[..|ks| - 1], ds, b, ty) + CountId(ds, k) * Weight(g, k, b, ty)
  }

  lemma ScaleStep(c: nat, w: nat, hit: bool)
    ensures (c + (if hit then 1 else 0)) * w == c * w + (if hit then w else 0)
  {
  }

  lemma {:induction false} ThroughSnoc(g: GraphState, ks: seq<string>, ds: seq<Node>, b: string, ty: Option<EdgeType>)
    requires Distinct(ks) && ds != []
    ensures var d := ds[|ds| - 1];
      Through(g, ks, ds, b, ty) == Through(g, ks, ds[..|ds| - 1], b, ty) + (if d.id in ks then Weight(g, d.id, b, ty) else 0)
  {
    if ks != [] {
      var ks0, k := ks[..|ks| - 1], ks[|ks| - 1];
      var d := ds[|ds| - 1];
      ThroughSnoc(g, ks0, ds, b, ty);
      var c, w := CountId(ds[..|ds| - 1], k), Weight(g, k, b, ty);
      assert CountId(ds, k) == c + (if d.id == k then 1 else 0);
      ScaleStep(c, w, d.id == k);
      assert ks == ks0 + [k];
      assert k !in ks0;
    }
  }

  lemma {:induction false} HopThrough(g: GraphState, ds: seq<Node>, b: string, ty: Option<EdgeType>)
    requires Consistent(g)
    requires forall i | 0 <= i < |ds| :: ds[i].id in g.nodes.vals
    ensures HopCount(g, ds, ty, b) == Through(g, g.nodes.keys, ds, b, ty)
  {
    if ds == [] {
      ThroughEmpty(g, g.nodes.keys, b, ty);
    } else {
      HopThrough(g, ds[..|ds| - 1], b, ty);
      NeighborCount(g, ds[|ds| - 1].id, b, ty);
      ThroughSnoc(g, g.nodes.keys, ds, b, ty);
    }
  }

  lemma {:induction false} ThroughEmpty(g: GraphState, ks: seq<string>, b: string, ty: Option<EdgeType>)
    ensures Through(g, ks, [], b, ty) == 0
  {
    if ks != [] {
      ThroughEmpty(g, ks[..|ks| - 1], b, ty);
    }
  }

  lemma {:induction false} ThroughWalks(g: GraphState, ks: seq<string>, x: string, b: string, ty: Option<EdgeType>)
    requires Consistent(g)
    ensures Through(g, ks, Neighbors(g, x, ty), b, ty) == Walks(g, ks, x, b, ty)
  {
    if ks != [] {
      ThroughWalks(g, ks[..|ks| - 1], x, b, ty);
      NeighborCount(g, x, ks[|ks| - 1], ty);
    }
  }

  lemma {:induction false} WalksSymmetric(g: GraphState, ks: seq<string>, a: string, b: string, ty: Option<EdgeType>)
    requires a in g.nodes.vals && b in g.nodes.vals
    requires forall i | 0 <= i < |ks| :: ks[i] in g.nodes.vals
    ensures Walks(g, ks, a, b, ty) == Walks(g, ks, b, a, ty)
  {
    if ks != [] {
      var ks0, k := ks[..|ks| - 1], ks[|ks| - 1];
      WalksSymmetric(g, ks0, a, b, ty);
      assert Weight(g, a, k, ty) == Weight(g, k, a, ty);
      assert Weight(g, k, b, ty) == Weight(g, b, k, ty);
    }
  }

  /**
    * Co-occurrence is symmetric: starting from the single node `x`, the tally
    * for `y` counts the two-step links from `x` to `y` through the graph's
    * nodes, and it equals the tally for `x` starting from `y`.
    */
  lemma TwoHopSingle(g: GraphState, x: Node, ty: Option<EdgeType>, y: string)
    requires Shaped(g)
    requires x.id != y
    ensures TwoHopCount(g, [x], ty, ty, true, y) == HopCount(g, Neighbors(g, x.id, ty), ty, y)
  {
    assert [x][..0] == [];
  }

  lemma PairCountSymmetric(g: GraphState, x: Node, y: Node, ty: Option<EdgeType>)
    requires Consistent(g)
    requires x.id in g.nodes.vals && y.id in g.nodes.vals && x.id != y.id
    ensures TwoHopCount(g, [x], ty, ty, true, y.id) == Walks(g, g.nodes.keys, x.id, y.id, ty)
    ensures TwoHopCount(g, [x], ty, ty, true, y.id) == TwoHopCount(g, [y], ty, ty, true, x.id)
  {
    TwoHopSingle(g, x, ty, y.id);
    TwoHopSingle(g, y, ty, x.id);
    var nx, ny := Neighbors(g, x.id, ty), Neighbors(g, y.id, ty);
    HopThrough(g, nx, y.id, ty);
    ThroughWalks(g, g.nodes.keys, x.id, y.id, ty);
    HopThrough(g, ny, x.id, ty);
    ThroughWalks(g, g.nodes.keys, y.id, x.id, ty);
    WalksSymmetric(g, g.nodes.keys, x.id, y.id, ty);
  }

  /** Only stored nodes are ever counted. */
  lemma {:induction false} HopCountNodes(g: GraphState, xs: seq<Node>, ty: Option<EdgeType>, y: string)
    requires Shaped(g)
    requires HopCount(g, xs, ty, y) > 0
    ensures y in g.nodes.vals
  {
    var xs0, x := xs[..|xs| - 1], xs[|xs| - 1];
    if HopCount(g, xs0, ty, y) > 0 {
      HopCountNodes(g, xs0, ty, y);
    } else {
      var ns := Neighbors(g, x.id, ty);
      CountIdPositive(ns, y);
      var i :| 0 <= i < |ns| && ns[i].id == y;
    }
  }

  lemma {:induction false} TwoHopCountNodes(g: GraphState, xs: seq<Node>, t1: Option<EdgeType>, t2: Option<EdgeType>, skipSelf: bool, y: string)
    requires Shaped(g)
    requires TwoHopCount(g, xs, t1, t2, skipSelf, y) > 0
    ensures y in g.nodes.vals
  {
    var xs0, x := xs[..|xs| - 1], xs[|xs| - 1];
    if TwoHopCount(g, xs0, t1, t2, skipSelf, y) > 0 {
      TwoHopCountNodes(g, xs0, t1, t2, skipSelf, y);
    } else {
      HopCountNodes(g, Neighbors(g, x.id, t1), t2, y);
    }
  }
}
