/**
  * The read-outs of a recipe graph that do not walk it: the statistics that
  * `get_statistics` reports, and the dictionary form that `to_dict` produces
  * and `load_from_file` reads back (the JSON text itself is not modelled).
  */
module GraphData {
  import opened Wrappers
  import opened Dicts
  import opened GraphModels

  // ---------------------------------------------------------------------------
  // Statistics
  // ---------------------------------------------------------------------------

  /** The dictionary `get_statistics` returns. */
  datatype Statistics = Statistics(totalNodes: nat, totalEdges: nat, nodesByType: map<string, nat>, edgesByType: map<string, nat>)

  /** How many elements of `xs` carry the label `v`. */
  function LabelCount<T>(xs: seq<T>, labelOf: T -> string, v: string): (c: nat)
    ensures c <= |xs|
  {
    if xs == [] then 0
    else LabelCount(xs[..|xs| - 1], labelOf, v) + (if labelOf(xs[|xs| - 1]) == v then 1 else 0)
  }

  /** A label occurs in the list exactly when it is counted at least once. */
  lemma {:induction false} LabelCountPositive<T>(xs: seq<T>, labelOf: T -> string, v: string)
    ensures LabelCount(xs, labelOf, v) > 0 <==> exists i | 0 <= i < |xs| :: labelOf(xs[i]) == v
  {
    if xs != [] {
      var xs0 := xs[..|xs| - 1];
      LabelCountPositive(xs0, labelOf, v);
      if exists i | 0 <= i < |xs0| :: labelOf(xs0[i]) == v {
        var i :| 0 <= i < |xs0| && labelOf(xs0[i]) == v;
        assert xs[i] == xs0[i];
      }
      if exists i | 0 <= i < |xs| :: labelOf(xs[i]) == v {
        var i :| 0 <= i < |xs| && labelOf(xs[i]) == v;
        if i < |xs0| {
          assert xs0[i] == xs[i];
        }
      }
    }
  }

  function NodeLabel(n: Node): string {
    n.kind.Value()
  }

  function EdgeLabel(e: Edge): string {
    e.kind.Value()
  }

  /** The string values of every node type and of every edge type. */
  const NodeTypeValues: seq<string> := ["dish", "ingredient", "cooking_method", "category", "tool", "seasoning"]
  const EdgeTypeValues: seq<string> := ["contains", "uses_method", "belongs_to", "pairs_with", "similar_to", "requires_tool", "uses_seasoning"]

  predicate DistinctStrings(vs: seq<string>) {
    forall i, j | 0 <= i < j < |vs| :: vs[i] != vs[j]
  }

  /** The type values are pairwise different, and every node or edge type has its value among them. */
  lemma TypeValues()
    ensures DistinctStrings(NodeTypeValues) && DistinctStrings(EdgeTypeValues)
    ensures forall t: NodeType :: t.Value() in NodeTypeValues
    ensures forall t: EdgeType :: t.Value() in EdgeTypeValues
  {
  }

  /** The sum of a counter over the listed keys. */
  function SumCounts(m: map<string, nat>, vs: seq<string>): nat {
    if vs == [] then 0 else SumCounts(m, vs[..|vs| - 1]) + Count(m, vs[|vs| - 1])
  }

  /** The sum over the listed labels of how often each occurs in `xs`. */
  function LabelSum<T>(xs: seq<T>, labelOf: T -> string, vs: seq<string>): nat {
    if vs == [] then 0 else LabelSum(xs, labelOf, vs[..|vs| - 1]) + LabelCount(xs, labelOf, vs[|vs| - 1])
  }

  /** How many entries of `vs` equal `v`. */
  function Hits(vs: seq<string>, v: string): nat {
    if vs == [] then 0 else Hits(vs[..|vs| - 1], v) + (if vs[|vs| - 1] == v then 1 else 0)
  }

  lemma {:induction false} HitsOnce(vs: seq<string>, v: string)
    requires DistinctStrings(vs) && v in vs
    ensures Hits(vs, v) == 1
  {
    var vs0 := vs[..|vs| - 1];
    if vs[|vs| - 1] == v {
      HitsNone(vs0, v);
    } else {
      assert v in vs0;
      HitsOnce(vs0, v);
    }
  }

  lemma {:induction false} HitsNone(vs: seq<string>, v: string)
    requires v !in vs
    ensures Hits(vs, v) == 0
  {
    if vs != [] {
      HitsNone(vs[..|vs| - 1], v);
    }
  }

  /** One more element adds one to the count of each listed label equal to its own. */
  lemma {:induction false} LabelSumSnoc<T>(xs: seq<T>, x: T, labelOf: T -> string, vs: seq<string>)
    ensures LabelSum(xs + [x], labelOf, vs) == LabelSum(xs, labelOf, vs) + Hits(vs, labelOf(x))
  {
    if vs != [] {
      LabelSumSnoc(xs, x, labelOf, vs[..|vs| - 1]);
      assert (xs + [x])[..|xs|] == xs;
    }
  }

  /** When every label is listed once, the per-label counts add up to the length of the list. */
  lemma {:induction false} LabelSumAll<T>(xs: seq<T>, labelOf: T -> string, vs: seq<string>)
    requires DistinctStrings(vs)
    requires forall i | 0 <= i < |xs| :: labelOf(xs[i]) in vs
    ensures LabelSum(xs, labelOf, vs) == |xs|
  {
    if xs == [] {
      LabelSumEmpty(labelOf, vs);
    } else {
      var xs0, x := xs[..|xs| - 1], xs[|xs| - 1];
      assert xs == xs0 + [x];
      LabelSumAll(xs0, labelOf, vs);
      LabelSumSnoc(xs0, x, labelOf, vs);
      HitsOnce(vs, labelOf(x));
    }
  }

  lemma {:induction false} LabelSumEmpty<T>(labelOf: T -> string, vs: seq<string>)
    ensures LabelSum([], labelOf, vs) == 0
  {
    if vs != [] {
      LabelSumEmpty(labelOf, vs[..|vs| - 1]);
    }
  }

  /** A counter that agrees with the label counts sums to their sum. */
  lemma {:induction false} SumCountsOfLabels<T>(m: map<string, nat>, xs: seq<T>, labelOf: T -> string, vs: seq<string>)
    requires forall v :: Count(m, v) == LabelCount(xs, labelOf, v)
    ensures SumCounts(m, vs) == LabelSum(xs, labelOf, vs)
  {
    if vs != [] {
      SumCountsOfLabels(m, xs, labelOf, vs[..|vs| - 1]);
    }
  }

  /**
    * Counting by type value: the counter holds, for every value, how many
    * elements carry it, and no key that none carries.
    */
  method TallyLabels<T>(xs: seq<T>, labelOf: T -> string) returns (m: map<string, nat>)
    ensures forall v :: Count(m, v) == LabelCount(xs, labelOf, v)
    ensures Positive(m)
  {
    m := map[];
    for i := 0 to |xs|
      invariant forall v :: Count(m, v) == LabelCount(xs[..i], labelOf, v)
      invariant Positive(m)
    {
      assert xs[..i + 1][..i] == xs[..i];
      var v := labelOf(xs[i]);
      m := m[v := Count(m, v) + 1];
    }
    assert xs[..|xs|] == xs;
  }

  /**
    * The statistics of a node list and an edge list are right: the totals are
    * the lengths, each type value is counted once per node or edge of that
    * type, and the counts by type add up to the totals.
    */
  ghost predicate StatisticsOf(st: Statistics, ns: seq<Node>, es: seq<Edge>) {
    && st.totalNodes == |ns|
    && st.totalEdges == |es|
    && (forall v :: Count(st.nodesByType, v) == LabelCount(ns, NodeLabel, v))
    && (forall v :: Count(st.edgesByType, v) == LabelCount(es, EdgeLabel, v))
    && Positive(st.nodesByType)
    && Positive(st.edgesByType)
  }

  /** Correct statistics add up: the per-type counts sum to the totals, and only type values are keys. */
  lemma StatisticsAddUp(st: Statistics, ns: seq<Node>, es: seq<Edge>)
    requires StatisticsOf(st, ns, es)
    ensures SumCounts(st.nodesByType, NodeTypeValues) == st.totalNodes
    ensures SumCounts(st.edgesByType, EdgeTypeValues) == st.totalEdges
    ensures forall v | v in st.nodesByType :: v in NodeTypeValues
    ensures forall v | v in st.edgesByType :: v in EdgeTypeValues
  {
    TypeValues();
    LabelSumAll(ns, NodeLabel, NodeTypeValues);
    SumCountsOfLabels(st.nodesByType, ns, NodeLabel, NodeTypeValues);
    LabelSumAll(es, EdgeLabel, EdgeTypeValues);
    SumCountsOfLabels(st.edgesByType, es, EdgeLabel, EdgeTypeValues);
    forall v | v in st.nodesByType
      ensures v in NodeTypeValues
    {
      assert Count(st.nodesByType, v) > 0;
      LabelCountPositive(ns, NodeLabel, v);
    }
    forall v | v in st.edgesByType
      ensures v in EdgeTypeValues
    {
      assert Count(st.edgesByType, v) > 0;
      LabelCountPositive(es, EdgeLabel, v);
    }
  }

  // ---------------------------------------------------------------------------
  // The dictionary form
  // ---------------------------------------------------------------------------

  /** One entry of `"nodes"`; a missing `"properties"` is `None`. */
  datatype NodeRecord = NodeRecord(id: string, kind: string, name: string, properties: Option<Properties>)

  /** One entry of `"edges"`; a missing `"weight"` or `"properties"` is `None`. */
  datatype EdgeRecord = EdgeRecord(source: string, target: string, kind: string, weight: Option<real>, properties: Option<Properties>)

  datatype GraphRecord = GraphRecord(nodes: seq<NodeRecord>, edges: seq<EdgeRecord>)

  function NodeToRecord(n: Node): NodeRecord {
    NodeRecord(n.id, n.kind.Value(), n.name, Some(n.properties))
  }

  function EdgeToRecord(e: Edge): EdgeRecord {
    EdgeRecord(e.source, e.target, e.kind.Value(), Some(e.weight), Some(e.properties))
  }

  /** The entries of a list of nodes, in order. */
  function NodeRecords(ns: seq<Node>): (rs: seq<NodeRecord>)
    ensures |rs| == |ns| && forall i | 0 <= i < |ns| :: rs[i] == NodeToRecord(ns[i])
  {
    seq(|ns|, i requires 0 <= i < |ns| => NodeToRecord(ns[i]))
  }

  /** The entries of a list of edges, in order. */
  function EdgeRecords(es: seq<Edge>): (rs: seq<EdgeRecord>)
    ensures |rs| == |es| && forall i | 0 <= i < |es| :: rs[i] == EdgeToRecord(es[i])
  {
    seq(|es|, i requires 0 <= i < |es| => EdgeToRecord(es[i]))
  }

  /** `to_dict`: the nodes in dictionary order and the edges in list order. */
  function ToRecord(g: GraphState): GraphRecord
    requires forall k | k in g.nodes.keys :: k in g.nodes.vals
  {
    GraphRecord(NodeRecords(g.nodes.Values()), EdgeRecords(g.edges))
  }

  /** The `GraphNode` a node entry describes; `None` when its type is not a node type (the `ValueError`). */
  function NodeOfRecord(r: NodeRecord): (n: Option<Node>)
    ensures n.Some? ==> n.value.id == r.id && n.value.name == r.name && n.value.kind.Value() == r.kind
    ensures n.None? ==> forall t: NodeType :: t.Value() != r.kind
  {
    match ParseNodeType(r.kind)
    case None => None
    case Some(t) =>
      assert t.Value() == r.kind;
      Some(Node(r.id, t, r.name, if r.properties.Some? then r.properties.value else map[]))
  }

  /** The `GraphEdge` an edge entry describes, weight 1.0 and no properties when they are missing. */
  function EdgeOfRecord(r: EdgeRecord): (e: Option<Edge>)
    ensures e.Some? ==> e.value.source == r.source && e.value.target == r.target && e.value.kind.Value() == r.kind
    ensures e.None? ==> forall t: EdgeType :: t.Value() != r.kind
  {
    match ParseEdgeType(r.kind)
    case None => None
    case Some(t) =>
      assert t.Value() == r.kind;
      Some(Edge(r.source, r.target, t,
                if r.weight.Some? then r.weight.value else 1.0,
                if r.properties.Some? then r.properties.value else map[]))
  }

  /** Adding the nodes of the entries one after the other; `None` once an entry fails. */
  function LoadNodes(g: GraphState, rs: seq<NodeRecord>): Option<GraphState> {
    if rs == [] then Some(g)
    else match LoadNodes(g, rs[..|rs| - 1])
      case None => None
      case Some(g1) =>
        match NodeOfRecord(rs[|rs| - 1])
        case None => None
        case Some(n) => Some(AddNodeState(g1, n))
  }

  /** Adding the edges of the entries one after the other; `None` once an entry fails. */
  function LoadEdges(g: GraphState, rs: seq<EdgeRecord>): Option<GraphState> {
    if rs == [] then Some(g)
    else match LoadEdges(g, rs[..|rs| - 1])
      case None => None
      case Some(g1) =>
        match EdgeOfRecord(rs[|rs| - 1])
        case None => None
        case Some(e) => Some(AddEdgeState(g1, e))
  }

  /** `load_from_file` after the JSON is parsed: a fresh graph, then every node, then every edge. */
  function LoadState(d: GraphRecord): Option<GraphState> {
    match LoadNodes(EmptyGraph(), d.nodes)
    case None => None
    case Some(g) => LoadEdges(g, d.edges)
  }

  /** A load fails when the loads before it failed or its own entry does. */
  lemma LoadNodesFailsStep(g: GraphState, rs: seq<NodeRecord>)
    requires rs != []
    ensures LoadNodes(g, rs).None? <==> LoadNodes(g, rs[..|rs| - 1]).None? || NodeOfRecord(rs[|rs| - 1]).None?
  {
  }

  lemma LoadEdgesFailsStep(g: GraphState, rs: seq<EdgeRecord>)
    requires rs != []
    ensures LoadEdges(g, rs).None? <==> LoadEdges(g, rs[..|rs| - 1]).None? || EdgeOfRecord(rs[|rs| - 1]).None?
  {
  }

  /** Some entry of the list fails to parse. */
  predicate SomeNodeFails(rs: seq<NodeRecord>) {
    exists i | 0 <= i < |rs| :: NodeOfRecord(rs[i]).None?
  }

  predicate SomeEdgeFails(rs: seq<EdgeRecord>) {
    exists i | 0 <= i < |rs| :: EdgeOfRecord(rs[i]).None?
  }

  lemma SomeNodeFailsStep(rs: seq<NodeRecord>)
    requires rs != []
    ensures SomeNodeFails(rs) <==> SomeNodeFails(rs[..|rs| - 1]) || NodeOfRecord(rs[|rs| - 1]).None?
  {
    var rs0 := rs[..|rs| - 1];
    if SomeNodeFails(rs0) {
      var i :| 0 <= i < |rs0| && NodeOfRecord(rs0[i]).None?;
      assert rs[i] == rs0[i];
    }
    if SomeNodeFails(rs) {
      var i :| 0 <= i < |rs| && NodeOfRecord(rs[i]).None?;
      if i < |rs0| {
        assert rs0[i] == rs[i];
      }
    }
  }

  lemma SomeEdgeFailsStep(rs: seq<EdgeRecord>)
    requires rs != []
    ensures SomeEdgeFails(rs) <==> SomeEdgeFails(rs[..|rs| - 1]) || EdgeOfRecord(rs[|rs| - 1]).None?
  {
    var rs0 := rs[..|rs| - 1];
    if SomeEdgeFails(rs0) {
      var i :| 0 <= i < |rs0| && EdgeOfRecord(rs0[i]).None?;
      assert rs[i] == rs0[i];
    }
    if SomeEdgeFails(rs) {
      var i :| 0 <= i < |rs| && EdgeOfRecord(rs[i]).None?;
      if i < |rs0| {
        assert rs0[i] == rs[i];
      }
    }
  }

  /** Loading fails exactly when some entry names an unknown type. */
  lemma {:induction false} LoadNodesFails(g: GraphState, rs: seq<NodeRecord>)
    ensures LoadNodes(g, rs).None? <==> SomeNodeFails(rs)
  {
    if rs != [] {
      LoadNodesFails(g, rs[..|rs| - 1]);
      LoadNodesFailsStep(g, rs);
      SomeNodeFailsStep(rs);
    }
  }

  lemma {:induction false} LoadEdgesFails(g: GraphState, rs: seq<EdgeRecord>)
    ensures LoadEdges(g, rs).None? <==> SomeEdgeFails(rs)
  {
    if rs != [] {
      LoadEdgesFails(g, rs[..|rs| - 1]);
      LoadEdgesFailsStep(g, rs);
      SomeEdgeFailsStep(rs);
    }
  }

  /** A failed prefix makes the whole load fail. */
  lemma LoadNodesStops(g: GraphState, rs: seq<NodeRecord>, i: nat)
    requires i <= |rs| && LoadNodes(g, rs[..i]).None?
    ensures LoadNodes(g, rs).None?
  {
    LoadNodesFails(g, rs[..i]);
    LoadNodesFails(g, rs);
    var j :| 0 <= j < i && NodeOfRecord(rs[..i][j]).None?;
    assert rs[j] == rs[..i][j];
  }

  lemma LoadEdgesStops(g: GraphState, rs: seq<EdgeRecord>, i: nat)
    requires i <= |rs| && LoadEdges(g, rs[..i]).None?
    ensures LoadEdges(g, rs).None?
  {
    LoadEdgesFails(g, rs[..i]);
    LoadEdgesFails(g, rs);
    var j :| 0 <= j < i && EdgeOfRecord(rs[..i][j]).None?;
    assert rs[j] == rs[..i][j];
  }

  /** Loading keeps the graph consistent, and loading edges leaves the nodes alone. */
  lemma {:induction false} LoadNodesConsistent(g: GraphState, rs: seq<NodeRecord>)
    requires Consistent(g) && LoadNodes(g, rs).Some?
    ensures Consistent(LoadNodes(g, rs).value)
  {
    if rs != [] {
      LoadNodesConsistent(g, rs[..|rs| - 1]);
      var n := NodeOfRecord(rs[|rs| - 1]).value;
      AddNodeSpec(LoadNodes(g, rs[..|rs| - 1]).value, n);
    }
  }

  lemma {:induction false} LoadEdgesConsistent(g: GraphState, rs: seq<EdgeRecord>)
    requires Consistent(g) && LoadEdges(g, rs).Some?
    ensures Consistent(LoadEdges(g, rs).value)
    ensures LoadEdges(g, rs).value.nodes == g.nodes
  {
    if rs != [] {
      LoadEdgesConsistent(g, rs[..|rs| - 1]);
      var e := EdgeOfRecord(rs[|rs| - 1]).value;
      AddEdgeSpec(LoadEdges(g, rs[..|rs| - 1]).value, e);
    }
  }

  /** Whatever the dictionary, a graph loaded from it is consistent. */
  lemma LoadConsistent(d: GraphRecord)
    requires LoadState(d).Some?
    ensures Consistent(LoadState(d).value)
  {
    var g := LoadNodes(EmptyGraph(), d.nodes).value;
    LoadNodesConsistent(EmptyGraph(), d.nodes);
    LoadEdgesConsistent(g, d.edges);
  }

  /** `adjacency.get(s, {}).get(t, [])`. */
  function Cell(g: GraphState, s: string, t: string): seq<Edge> {
    g.adjacency.Get(s, EmptyDict()).Get(t, [])
  }

  /** In a consistent graph every adjacency lookup is determined by the edge list. */
  lemma CellsFollowEdges(g: GraphState, s: string, t: string)
    requires Consistent(g)
    ensures Cell(g, s, t) == Between(g.edges, s, t)
  {
    if Between(g.edges, s, t) != [] {
      BetweenFiled(g, s, t);
    }
  }

  /** A node written out and read back is the same node; likewise an edge. */
  lemma RecordRoundTrip(n: Node, e: Edge)
    ensures NodeOfRecord(NodeToRecord(n)) == Some(n)
    ensures EdgeOfRecord(EdgeToRecord(e)) == Some(e)
  {
    ParseValues();
  }

  /** Adding the nodes one after the other. */
  function AddNodes(g: GraphState, ns: seq<Node>): (r: GraphState)
    ensures r.edges == g.edges
    ensures r.nodes == PutNodes(g.nodes, ns)
  {
    if ns == [] then g else AddNodeState(AddNodes(g, ns[..|ns| - 1]), ns[|ns| - 1])
  }

  /** Adding the edges one after the other. */
  function AddEdges(g: GraphState, es: seq<Edge>): (r: GraphState)
    ensures r.nodes == g.nodes
  {
    if es == [] then g else AddEdgeState(AddEdges(g, es[..|es| - 1]), es[|es| - 1])
  }

  /** Loading the entries of a list of nodes adds those very nodes. */
  lemma {:induction false} LoadNodeRecords(g: GraphState, ns: seq<Node>)
    ensures LoadNodes(g, NodeRecords(ns)) == Some(AddNodes(g, ns))
  {
    if ns != [] {
      var ns0 := ns[..|ns| - 1];
      LoadNodeRecords(g, ns0);
      assert NodeRecords(ns)[..|ns| - 1] == NodeRecords(ns0);
      RecordRoundTrip(ns[|ns| - 1], Edge("", "", Contains, 1.0, map[]));
    }
  }

  /** Loading the entries of a list of edges adds those very edges. */
  lemma {:induction false} LoadEdgeRecords(g: GraphState, es: seq<Edge>)
    ensures LoadEdges(g, EdgeRecords(es)) == Some(AddEdges(g, es))
  {
    if es != [] {
      var es0 := es[..|es| - 1];
      LoadEdgeRecords(g, es0);
      assert EdgeRecords(es)[..|es| - 1] == EdgeRecords(es0);
      RecordRoundTrip(Node("", Dish, "", map[]), es[|es| - 1]);
    }
  }

  /** The node dictionary restricted to its first keys. */
  function NodesUpTo(d: Dict<string, Node>, i: nat): Dict<string, Node>
    requires i <= |d.keys|
    requires forall k | k in d.keys :: k in d.vals
  {
    Dict(d.keys[..i], map k | k in d.keys[..i] :: d.vals[k])
  }

  /** Storing the nodes one after the other under their ids. */
  function PutNodes(d: Dict<string, Node>, ns: seq<Node>): Dict<string, Node> {
    if ns == [] then d else PutNodes(d, ns[..|ns| - 1]).Put(ns[|ns| - 1].id, ns[|ns| - 1])
  }

  lemma PutNodesLast(d: Dict<string, Node>, ns: seq<Node>)
    requires ns != []
    ensures PutNodes(d, ns) == PutNodes(d, ns[..|ns| - 1]).Put(ns[|ns| - 1].id, ns[|ns| - 1])
  {
  }

  /** Restricted to all its keys, the dictionary is itself. */
  lemma NodesUpToAll(d: Dict<string, Node>)
    requires d.Valid()
    ensures NodesUpTo(d, |d.keys|) == d
  {
    assert d.keys[..|d.keys|] == d.keys;
    assert NodesUpTo(d, |d.keys|).vals == d.vals;
  }

  /** Storing the next stored node extends the restriction by one key. */
  lemma NodesUpToStep(d: Dict<string, Node>, i: nat)
    requires d.Valid() && KeyedById(d) && 0 < i <= |d.keys|
    ensures var k := d.keys[i - 1];
      NodesUpTo(d, i - 1).Put(d.vals[k].id, d.vals[k]) == NodesUpTo(d, i)
  {
    var k := d.keys[i - 1];
    assert k !in d.keys[..i - 1];
    assert d.keys[..i] == d.keys[..i - 1] + [k];
    assert NodesUpTo(d, i - 1).vals[k := d.vals[k]] == NodesUpTo(d, i).vals;
  }

  /** Storing the first `i` stored nodes in an empty dictionary rebuilds its first `i` entries. */
  lemma {:induction false} PutNodesPrefix(d: Dict<string, Node>, i: nat)
    requires d.Valid() && KeyedById(d) && i <= |d.keys|
    ensures PutNodes(Dict([], map[]), d.Values()[..i]) == NodesUpTo(d, i)
  {
    var vs := d.Values();
    if i > 0 {
      PutNodesPrefix(d, i - 1);
      var ns := vs[..i];
      assert ns[..i - 1] == vs[..i - 1];
      assert ns[i - 1] == d.vals[d.keys[i - 1]];
      PutNodesLast(Dict([], map[]), ns);
      NodesUpToStep(d, i);
    } else {
      assert NodesUpTo(d, 0).vals == map[];
    }
  }

  /** Adding the first `i` edges of a list without repeats to an empty edge list gives exactly those edges. */
  lemma {:induction false} AddEdgesPrefix(es: seq<Edge>, g0: GraphState, i: nat)
    requires DistinctKeys(es) && i <= |es|
    requires g0.edges == []
    ensures AddEdges(g0, es[..i]).edges == es[..i]
  {
    if i > 0 {
      AddEdgesPrefix(es, g0, i - 1);
      assert es[..i][..i - 1] == es[..i - 1];
      var e := es[i - 1];
      var prev := es[..i - 1];
      assert !HasEdge(prev, e);
      AddEdgeEdges(AddEdges(g0, prev), e);
      assert es[..i] == prev + [e];
    }
  }

  /** Loading the entries of the stored nodes into a graph without nodes or edges rebuilds the node dictionary. */
  lemma ReloadNodes(d: Dict<string, Node>, g: GraphState)
    requires d.Valid() && KeyedById(d)
    requires g.nodes == Dict([], map[]) && g.edges == []
    ensures var r := LoadNodes(g, NodeRecords(d.Values()));
      r.Some? && r.value.nodes == d && r.value.edges == []
  {
    var vs := d.Values();
    LoadNodeRecords(g, vs);
    PutNodesPrefix(d, |d.keys|);
    assert vs[..|d.keys|] == vs;
    NodesUpToAll(d);
  }

  /** Loading the entries of a list of edges without repeats into a graph without edges stores exactly that list. */
  lemma ReloadEdges(es: seq<Edge>, g: GraphState)
    requires DistinctKeys(es) && g.edges == []
    ensures var r := LoadEdges(g, EdgeRecords(es));
      r.Some? && r.value.nodes == g.nodes && r.value.edges == es
  {
    LoadEdgeRecords(g, es);
    AddEdgesPrefix(es, g, |es|);
    assert es[..|es|] == es;
  }

  /** Saving and loading again gives back the node dictionary and the edge list. */
  lemma Reload(g: GraphState)
    requires Shaped(g) && DistinctKeys(g.edges)
    ensures LoadState(ToRecord(g)).Some?
    ensures LoadState(ToRecord(g)).value.nodes == g.nodes
    ensures LoadState(ToRecord(g)).value.edges == g.edges
  {
    ReloadNodes(g.nodes, EmptyGraph());
    ReloadEdges(g.edges, LoadNodes(EmptyGraph(), NodeRecords(g.nodes.Values())).value);
  }

  /**
    * Saving and loading again gives back the same node dictionary (in the same
    * order), the same edge list, and the same answer to every adjacency
    * lookup.  The order of the adjacency rows can differ: loading adds every
    * node before any edge.
    */
  lemma RoundTrip(g: GraphState)
    requires Consistent(g)
    ensures LoadState(ToRecord(g)).Some?
    ensures var g' := LoadState(ToRecord(g)).value;
      && g'.nodes == g.nodes
      && g'.edges == g.edges
      && forall s, t :: Cell(g', s, t) == Cell(g, s, t)
  {
    var d := ToRecord(g);
    Reload(g);
    LoadConsistent(d);
    var g' := LoadState(d).value;
    forall s, t
      ensures Cell(g', s, t) == Cell(g, s, t)
    {
      CellsFollowEdges(g', s, t);
      CellsFollowEdges(g, s, t);
    }
  }
}
