/**
  * `RecipeGraph`, the mutable container: a node dictionary, an edge list and a
  * forward adjacency dictionary, changed in place by `add_node` and `add_edge`.
  * Every method is proved against the value-level specification in
  * `GraphModels`, and the class invariant is `GraphModels.Consistent`.
  */
module RecipeGraphs {
  import opened Wrappers
  import opened Text
  import opened Dicts
  import opened Ranking
  import opened GraphModels
  import opened GraphData

  /** `n` is the graph's own node for its id. */
  predicate IsNodeOf(g: GraphState, n: Node) {
    n.id in g.nodes.vals && g.nodes.vals[n.id] == n
  }

  /** `for n in ns: if n.id != skip: counts[n.id] += 1`. */
  method Tally(counts: map<string, nat>, ns: seq<Node>, skip: Option<string>) returns (r: map<string, nat>)
    ensures forall y :: Count(r, y) == Count(counts, y) + (if skip == Some(y) then 0 else CountId(ns, y))
    ensures Positive(counts) ==> Positive(r)
  {
    r := counts;
    for k := 0 to |ns|
      invariant forall y :: Count(r, y) == Count(counts, y) + (if skip == Some(y) then 0 else CountId(ns[..k], y))
      invariant Positive(counts) ==> Positive(r)
    {
      assert ns[..k + 1][..k] == ns[..k];
      var id := ns[k].id;
      if skip != Some(id) {
        r := r[id := Count(r, id) + 1];
      }
    }
    assert ns[..|ns|] == ns;
  }

  /** The inner loop of `get_edges`: `for edge in cell: if ty is None or edge.edge_type == ty: es.append(edge)`. */
  method AppendOfType(es: seq<Edge>, cell: seq<Edge>, ty: Option<EdgeType>) returns (r: seq<Edge>)
    ensures r == es + EdgesOfType(cell, ty)
  {
    r := es;
    for k := 0 to |cell|
      invariant r == es + EdgesOfType(cell[..k], ty)
    {
      EdgesOfTypeStep(cell, k, ty);
      if ty.None? || cell[k].kind == ty.value {
        assert es + EdgesOfType(cell[..k + 1], ty) == r + [cell[k]];
        r := r + [cell[k]];
      }
    }
    assert cell[..|cell|] == cell;
  }

  /** The nodes of a list other than those with id `skip`. */
  function OthersIn(ns: seq<Node>, skip: string): set<Node> {
    set n | n in ns && n.id != skip
  }

  /** What the dishes `ds` contribute to the partners of `x`. */
  function PairsVia(g: GraphState, x: Node, ds: seq<Node>): set<Node>
    requires Shaped(g)
  {
    if ds == [] then {} else PairsVia(g, x, ds[..|ds| - 1]) + OthersIn(Neighbors(g, ds[|ds| - 1].id, Some(Contains)), x.id)
  }

  /** The partner set `get_ingredient_pairs` builds from the matched ingredients `xs`. */
  function PairsOf(g: GraphState, xs: seq<Node>): set<Node>
    requires Shaped(g)
  {
    if xs == [] then {}
    else
      var x := xs[|xs| - 1];
      PairsOf(g, xs[..|xs| - 1]) + PairsVia(g, x, Neighbors(g, x.id, Some(Contains)))
  }

  lemma PairsViaStep(g: GraphState, x: Node, ds: seq<Node>, j: int)
    requires Shaped(g)
    requires 0 <= j < |ds|
    ensures PairsVia(g, x, ds[..j + 1]) == PairsVia(g, x, ds[..j]) + OthersIn(Neighbors(g, ds[j].id, Some(Contains)), x.id)
  {
    assert ds[..j + 1][..j] == ds[..j];
  }

  lemma {:induction false} PairsViaCount(g: GraphState, x: Node, ds: seq<Node>, n: Node)
    requires Shaped(g)
    ensures n in PairsVia(g, x, ds) <==> n.id != x.id && IsNodeOf(g, n) && HopCount(g, ds, Some(Contains), n.id) > 0
  {
    if ds != [] {
      var ds0, d := ds[..|ds| - 1], ds[|ds| - 1];
      PairsViaCount(g, x, ds0, n);
      var ns := Neighbors(g, d.id, Some(Contains));
      CountIdPositive(ns, n.id);
      if IsNodeOf(g, n) && CountId(ns, n.id) > 0 {
        var i :| 0 <= i < |ns| && ns[i].id == n.id;
        assert ns[i] == n;
      }
    }
  }

  /** The partner set holds exactly the stored nodes with a positive two-step count. */
  lemma {:induction false} PairsOfCount(g: GraphState, xs: seq<Node>, n: Node)
    requires Shaped(g)
    ensures n in PairsOf(g, xs) <==> IsNodeOf(g, n) && TwoHopCount(g, xs, Some(Contains), Some(Contains), true, n.id) > 0
  {
    if xs != [] {
      var xs0, x := xs[..|xs| - 1], xs[|xs| - 1];
      PairsOfCount(g, xs0, n);
      PairsViaCount(g, x, Neighbors(g, x.id, Some(Contains)), n);
    }
  }

  /**
    * `get_ingredient_pairs` returns exactly the stored nodes `n` for which some
    * matched ingredient `x` other than `n` shares a dish with `n`: some node is
    * CONTAINS-adjacent to both.
    */
  lemma PairsMembers(g: GraphState, xs: seq<Node>, n: Node)
    requires Consistent(g)
    ensures n in PairsOf(g, xs) <==>
      IsNodeOf(g, n) && exists i | 0 <= i < |xs| :: xs[i].id != n.id && Joined(g, xs[i].id, n.id, Some(Contains), Some(Contains))
  {
    PairsOfCount(g, xs, n);
    TwoHopMembers(g, xs, Some(Contains), Some(Contains), true, n.id);
  }

  /** The USES_METHOD neighbours of the dishes, as a set. */
  function MethodsOf(g: GraphState, ds: seq<Node>): set<Node>
    requires Shaped(g)
  {
    if ds == [] then {}
    else
      var ms := Neighbors(g, ds[|ds| - 1].id, Some(UsesMethod));
      MethodsOf(g, ds[..|ds| - 1]) + set m | m in ms
  }

  /** The first loop of `get_neighbors`: the targets of the qualifying cells of the row of `id` that are stored nodes. */
  method OutNeighbors(nodes: Dict<string, Node>, row: Dict<string, seq<Edge>>, ty: Option<EdgeType>) returns (ns: seq<Node>)
    requires KeyedById(nodes) && row.Valid()
    ensures ns == OutPart(nodes, row, row.keys, ty)
  {
    ns := [];
    for i := 0 to |row.keys|
      invariant ns == OutPart(nodes, row, row.keys[..i], ty)
    {
      OutPartStep(nodes, row, row.keys, i, ty);
      var t := row.keys[i];
      if HasType(row.vals[t], ty) && t in nodes.vals {
        ns := ns + [nodes.vals[t]];
      }
    }
    assert row.keys[..|row.keys|] == row.keys;
  }

  /** The second loop of `get_neighbors`: the sources of the rows with a qualifying cell for `id` that are stored nodes. */
  method InNeighbors(nodes: Dict<string, Node>, adjacency: Dict<string, Dict<string, seq<Edge>>>, id: string, ty: Option<EdgeType>)
    returns (ns: seq<Node>)
    requires KeyedById(nodes) && adjacency.Valid()
    ensures ns == InPart(nodes, adjacency, adjacency.keys, id, ty)
  {
    ns := [];
    for j := 0 to |adjacency.keys|
      invariant ns == InPart(nodes, adjacency, adjacency.keys[..j], id, ty)
    {
      InPartStep(nodes, adjacency, adjacency.keys, j, id, ty);
      var s := adjacency.keys[j];
      if Feeds(adjacency, s, id, ty) && s in nodes.vals {
        ns := ns + [nodes.vals[s]];
      }
    }
    assert adjacency.keys[..|adjacency.keys|] == adjacency.keys;
  }

  lemma MethodsOfStep(g: GraphState, ds: seq<Node>, i: int)
    requires Shaped(g) && 0 <= i < |ds|
    ensures MethodsOf(g, ds[..i + 1]) == MethodsOf(g, ds[..i]) + set m | m in Neighbors(g, ds[i].id, Some(UsesMethod))
  {
    assert ds[..i + 1][..i] == ds[..i];
  }

  lemma PairsOfStep(g: GraphState, xs: seq<Node>, i: int)
    requires Shaped(g) && 0 <= i < |xs|
    ensures PairsOf(g, xs[..i + 1]) == PairsOf(g, xs[..i]) + PairsVia(g, xs[i], Neighbors(g, xs[i].id, Some(Contains)))
  {
    assert xs[..i + 1][..i] == xs[..i];
  }

  /** A USES_METHOD edge joins `n` to one of the dishes, either way. */
  predicate MethodOfSome(g: GraphState, ds: seq<Node>, n: Node) {
    exists i | 0 <= i < |ds| :: Adjacent(g, ds[i].id, n.id, Some(UsesMethod))
  }

  lemma MethodOfSomeStep(g: GraphState, ds: seq<Node>, n: Node)
    requires ds != []
    ensures MethodOfSome(g, ds, n) <==>
      MethodOfSome(g, ds[..|ds| - 1], n) || Adjacent(g, ds[|ds| - 1].id, n.id, Some(UsesMethod))
  {
    var ds0 := ds[..|ds| - 1];
    if MethodOfSome(g, ds0, n) {
      var i :| 0 <= i < |ds0| && Adjacent(g, ds0[i].id, n.id, Some(UsesMethod));
      assert ds[i] == ds0[i];
    }
    if MethodOfSome(g, ds, n) {
      var i :| 0 <= i < |ds| && Adjacent(g, ds[i].id, n.id, Some(UsesMethod));
      if i < |ds0| {
        assert ds0[i] == ds[i];
      }
    }
  }

  /** The cooking methods of the dishes are exactly the stored nodes a USES_METHOD edge joins to one of them, either way. */
  lemma {:induction false} MethodsMembers(g: GraphState, ds: seq<Node>, n: Node)
    requires Consistent(g)
    ensures n in MethodsOf(g, ds) <==> IsNodeOf(g, n) && MethodOfSome(g, ds, n)
  {
    if ds != [] {
      MethodsMembers(g, ds[..|ds| - 1], n);
      NeighborMembers(g, ds[|ds| - 1].id, Some(UsesMethod));
      MethodOfSomeStep(g, ds, n);
    }
  }

  class RecipeGraph {
    var nodes: Dict<string, Node>
    var edges: seq<Edge>
    var adjacency: Dict<string, Dict<string, seq<Edge>>>

    /** The graph's contents as a value. */
    function State(): GraphState
      reads this
    {
      GraphState(nodes, edges, adjacency)
    }

    ghost predicate Valid()
      reads this
    {
      Consistent(State())
    }

    /** `RecipeGraph()`: no nodes, no edges, no adjacency rows. */
    constructor ()
      ensures State() == EmptyGraph()
      ensures Valid()
    {
      nodes := EmptyDict();
      edges := [];
      adjacency := EmptyDict();
    }

    /** `add_node`. */
    method AddNode(n: Node)
      modifies this
      ensures State() == AddNodeState(old(State()), n)
      ensures old(Valid()) ==> Valid()
    {
      nodes := nodes.Put(n.id, n);
      if n.id !in adjacency.vals {
        adjacency := adjacency.Put(n.id, EmptyDict());
      }
      if old(Valid()) {
        AddNodeSpec(old(State()), n);
      }
    }

    /** `add_edge`: nothing happens when an equal edge (same source, target and type) is stored. */
    method AddEdge(e: Edge)
      modifies this
      ensures State() == AddEdgeState(old(State()), e)
      ensures old(Valid()) ==> Valid()
    {
      if !HasEdge(edges, e) {
        edges := edges + [e];
        // The row of the source and its cell for the target start out empty
        // when missing; the edge is appended to the cell.
        var row := adjacency.Get(e.source, EmptyDict());
        var cell := row.Get(e.target, []);
        adjacency := adjacency.Put(e.source, row.Put(e.target, cell + [e]));
      }
      if old(Valid()) {
        AddEdgeSpec(old(State()), e);
      }
    }

    /** `get_node`: the node stored under `id`, if any. */
    function GetNode(id: string): (r: Option<Node>)
      reads this
      ensures r.Some? <==> id in nodes.vals
      ensures r.Some? ==> r.value == nodes.vals[id]
      ensures Valid() && r.Some? ==> r.value.id == id
    {
      if id in nodes.vals then Some(nodes.vals[id]) else None
    }

    /** `get_neighbors`: the targets of the out-edges of `id`, then the sources of its in-edges, of the type when one is given. */
    method GetNeighbors(id: string, ty: Option<EdgeType>) returns (ns: seq<Node>)
      requires Shaped(State())
      ensures ns == Neighbors(State(), id, ty)
    {
      var out: seq<Node> := [];
      if id in adjacency.vals {
        out := OutNeighbors(nodes, adjacency.vals[id], ty);
      }
      var inn := InNeighbors(nodes, adjacency, id, ty);
      ns := out + inn;
    }

    /** `get_edges`: the stored edges out of `source`, narrowed to a target and a type when given. */
    method GetEdges(source: string, target: Option<string>, ty: Option<EdgeType>) returns (es: seq<Edge>)
      requires Shaped(State())
      ensures es == EdgesFrom(State(), source, target, ty)
    {
      var adjacency := this.adjacency;
      if source !in adjacency.vals {
        return [];
      }
      es := [];
      var row := adjacency.vals[source];
      for i := 0 to |row.keys|
        invariant es == RowEdges(row, row.keys[..i], target, ty)
      {
        RowEdgesStep(row, row.keys, i, target, ty);
        var t := row.keys[i];
        if target.None? || t == target.value {
          es := AppendOfType(es, row.vals[t], ty);
        }
      }
      assert row.keys[..|row.keys|] == row.keys;
    }

    /**
      * The loop the counting queries share: for each node `x` of `xs`, count
      * every `ty` neighbour of `x`, except `x` itself when `skip` names it.
      */
    method AddHops(counts: map<string, nat>, xs: seq<Node>, ty: Option<EdgeType>, skip: Option<string>) returns (r: map<string, nat>)
      requires Shaped(State())
      ensures forall y :: Count(r, y) == Count(counts, y) + (if skip == Some(y) then 0 else HopCount(State(), xs, ty, y))
      ensures Positive(counts) ==> Positive(r)
    {
      r := counts;
      for i := 0 to |xs|
        invariant forall y :: Count(r, y) == Count(counts, y) + (if skip == Some(y) then 0 else HopCount(State(), xs[..i], ty, y))
        invariant Positive(counts) ==> Positive(r)
      {
        assert xs[..i + 1][..i] == xs[..i];
        var ns := GetNeighbors(xs[i].id, ty);
        r := Tally(r, ns, skip);
      }
      assert xs[..|xs| - 0] == xs;
    }

    /**
      * The two-step loop of the co-occurrence queries: for each `x` of `xs`,
      * each `t1` neighbour `d` of `x` and each `t2` neighbour `y` of `d`, count
      * `y` (except `x` itself under `skipSelf`).
      */
    method CountTwoHop(xs: seq<Node>, t1: Option<EdgeType>, t2: Option<EdgeType>, skipSelf: bool) returns (counts: map<string, nat>)
      requires Shaped(State())
      ensures forall y :: Count(counts, y) == TwoHopCount(State(), xs, t1, t2, skipSelf, y)
      ensures Positive(counts)
    {
      counts := map[];
      for i := 0 to |xs|
        invariant forall y :: Count(counts, y) == TwoHopCount(State(), xs[..i], t1, t2, skipSelf, y)
        invariant Positive(counts)
      {
        assert xs[..i + 1][..i] == xs[..i];
        var ds := GetNeighbors(xs[i].id, t1);
        counts := AddHops(counts, ds, t2, if skipSelf then Some(xs[i].id) else None);
      }
      assert xs[..|xs|] == xs;
    }

    /** The ingredient nodes matched by each name in turn, concatenated. */
    function MatchIngredients(names: seq<string>): seq<Node>
      reads this
      requires Shaped(State())
    {
      if names == [] then [] else MatchIngredients(names[..|names| - 1]) + FindNodesByName(names[|names| - 1], Some(Ingredient))
    }

    /** The first loop of `get_dishes_by_ingredients`: the ingredient nodes each name matches, concatenated. */
    method CollectIngredients(names: seq<string>) returns (xs: seq<Node>)
      requires Shaped(State())
      ensures xs == MatchIngredients(names)
    {
      xs := [];
      for i := 0 to |names|
        invariant xs == MatchIngredients(names[..i])
      {
        assert names[..i + 1][..i] == names[..i];
        var found := FindNodesByName(names[i], Some(Ingredient));
        xs := xs + found;
      }
      assert names[..|names|] == names;
    }

    /**
      * `get_dishes_by_ingredients`: the nodes listed among the CONTAINS
      * neighbours of the matched ingredient nodes, each once, ranked by how
      * often they were listed.
      */
    method GetDishesByIngredients(names: seq<string>) returns (r: seq<Node>)
      requires Shaped(State())
      ensures var g, xs := State(), MatchIngredients(names);
        && (forall n :: n in r <==> IsNodeOf(g, n) && HopCount(g, xs, Some(Contains), n.id) > 0)
        && (forall i, j | 0 <= i < j < |r| :: r[i].id != r[j].id)
        && (forall i, j | 0 <= i < j < |r| :: HopCount(g, xs, Some(Contains), r[i].id) >= HopCount(g, xs, Some(Contains), r[j].id))
    {
      var xs := CollectIngredients(names);
      if xs == [] {
        return [];
      }
      var counts := AddHops(map[], xs, Some(Contains), None);
      r := RankHops(State(), xs, counts);
    }

    /** The inner loop of `get_ingredient_pairs`: `for o in others: if o.id != skip: pairs.add(o)`. */
    static method AddOthers(pairs: set<Node>, others: seq<Node>, skip: string) returns (r: set<Node>)
      ensures r == pairs + OthersIn(others, skip)
    {
      r := pairs;
      for k := 0 to |others|
        invariant r == pairs + OthersIn(others[..k], skip)
      {
        assert others[..k + 1] == others[..k] + [others[k]];
        if others[k].id != skip {
          r := r + {others[k]};
        }
      }
      assert others[..|others|] == others;
    }

    /** The body of the outer loop of `get_ingredient_pairs`, for one matched ingredient `x`. */
    method AddPairsOf(pairs: set<Node>, x: Node) returns (r: set<Node>)
      requires Shaped(State())
      ensures r == pairs + PairsVia(State(), x, Neighbors(State(), x.id, Some(Contains)))
    {
      ghost var g := State();
      var dishes := GetNeighbors(x.id, Some(Contains));
      r := pairs;
      for j := 0 to |dishes|
        invariant r == pairs + PairsVia(g, x, dishes[..j])
      {
        PairsViaStep(g, x, dishes, j);
        var others := GetNeighbors(dishes[j].id, Some(Contains));
        r := AddOthers(r, others, x.id);
      }
      assert dishes[..|dishes|] == dishes;
    }

    /**
      * `get_ingredient_pairs`: every node listed among the CONTAINS neighbours
      * of a CONTAINS neighbour of a matched ingredient, other than that
      * ingredient, once.
      */
    method GetIngredientPairs(name: string) returns (r: seq<Node>)
      requires Shaped(State())
      ensures Distinct(r)
      ensures forall n :: n in r <==> n in PairsOf(State(), FindNodesByName(name, Some(Ingredient)))
    {
      var xs := FindNodesByName(name, Some(Ingredient));
      if xs == [] {
        return [];
      }
      ghost var g := State();
      var pairs: set<Node> := {};
      for i := 0 to |xs|
        invariant pairs == PairsOf(g, xs[..i])
      {
        PairsOfStep(g, xs, i);
        pairs := AddPairsOf(pairs, xs[i]);
      }
      assert xs[..|xs|] == xs;
      r := ListOfSet(pairs);
    }

    /**
      * `get_cooking_methods_for_dish`: the USES_METHOD neighbours of every
      * dish whose name matches, once each.
      */
    method GetCookingMethodsForDish(name: string) returns (r: seq<Node>)
      requires Shaped(State())
      ensures Distinct(r)
      ensures forall n :: n in r <==> n in MethodsOf(State(), FindNodesByName(name, Some(Dish)))
    {
      var ds := FindNodesByName(name, Some(Dish));
      if ds == [] {
        return [];
      }
      ghost var g := State();
      var methods: set<Node> := {};
      for i := 0 to |ds|
        invariant methods == MethodsOf(g, ds[..i])
      {
        MethodsOfStep(g, ds, i);
        var ms := GetNeighbors(ds[i].id, Some(UsesMethod));
        methods := methods + set m | m in ms;
      }
      assert ds[..|ds|] == ds;
      r := ListOfSet(methods);
    }

    /**
      * `get_statistics`: the node and edge totals and the counts by type
      * value, which add up to the totals.
      */
    method GetStatistics() returns (st: Statistics)
      requires Shaped(State())
      ensures StatisticsOf(st, nodes.Values(), edges)
      ensures st.totalNodes == |nodes.keys|
      ensures SumCounts(st.nodesByType, NodeTypeValues) == st.totalNodes
      ensures SumCounts(st.edgesByType, EdgeTypeValues) == st.totalEdges
    {
      var byNode := TallyLabels(nodes.Values(), NodeLabel);
      var byEdge := TallyLabels(edges, EdgeLabel);
      st := Statistics(|nodes.keys|, |edges|, byNode, byEdge);
      StatisticsAddUp(st, nodes.Values(), edges);
    }

    /**
      * `to_dict`: every stored node, then every edge.  Loading the result
      * gives back the same node dictionary and edge list.
      */
    function ToDict(): (d: GraphRecord)
      reads this
      requires Shaped(State())
      ensures |d.nodes| == |nodes.keys| && |d.edges| == |edges|
      ensures DistinctKeys(edges) ==>
        LoadState(d).Some? && LoadState(d).value.nodes == nodes && LoadState(d).value.edges == edges
    {
      if DistinctKeys(edges) then Reload(State()); ToRecord(State())
      else ToRecord(State())
    }

    /**
      * `load_from_file` once the JSON text is parsed: a new graph with every
      * node entry added, then every edge entry; `None` stands for the
      * `ValueError` of an entry whose type is unknown.
      */
    static method LoadFromDict(d: GraphRecord) returns (r: Option<RecipeGraph>)
      ensures r.Some? <==> LoadState(d).Some?
      ensures r.Some? ==> fresh(r.value) && r.value.State() == LoadState(d).value && r.value.Valid()
    {
      var graph := new RecipeGraph();
      var ok := graph.AddNodeRecords(d.nodes);
      if !ok {
        return None;
      }
      ok := graph.AddEdgeRecords(d.edges);
      if !ok {
        return None;
      }
      LoadConsistent(d);
      r := Some(graph);
    }

    /** The node loop of `load_from_file`: `false` once an entry's type is unknown. */
    method AddNodeRecords(rs: seq<NodeRecord>) returns (ok: bool)
      modifies this
      ensures ok <==> LoadNodes(old(State()), rs).Some?
      ensures ok ==> State() == LoadNodes(old(State()), rs).value
    {
      ghost var g0 := State();
      for i := 0 to |rs|
        invariant LoadNodes(g0, rs[..i]) == Some(State())
      {
        assert rs[..i + 1][..i] == rs[..i];
        var n := NodeOfRecord(rs[i]);
        if n.None? {
          LoadNodesStops(g0, rs, i + 1);
          return false;
        }
        AddNode(n.value);
      }
      assert rs[..|rs|] == rs;
      ok := true;
    }

    /** The edge loop of `load_from_file`: `false` once an entry's type is unknown. */
    method AddEdgeRecords(rs: seq<EdgeRecord>) returns (ok: bool)
      modifies this
      ensures ok <==> LoadEdges(old(State()), rs).Some?
      ensures ok ==> State() == LoadEdges(old(State()), rs).value
    {
      ghost var g0 := State();
      for i := 0 to |rs|
        invariant LoadEdges(g0, rs[..i]) == Some(State())
      {
        assert rs[..i + 1][..i] == rs[..i];
        var e := EdgeOfRecord(rs[i]);
        if e.None? {
          LoadEdgesStops(g0, rs, i + 1);
          return false;
        }
        AddEdge(e.value);
      }
      assert rs[..|rs|] == rs;
      ok := true;
    }

    /** `find_nodes_by_type`: exactly the stored nodes of that type, in dictionary order. */
    function FindNodesByType(t: NodeType): (r: seq<Node>)
      reads this
      requires Shaped(State())
      ensures forall n :: n in r <==> IsNodeOf(State(), n) && n.kind == t
    {
      ValuesAreNodes(State());
      Filter(nodes.Values(), (n: Node) => n.kind == t)
    }

    /**
      * `find_nodes_by_name`: the stored nodes whose lowered name contains the
      * lowered query, narrowed to a type when one is given.
      */
    function FindNodesByName(name: string, t: Option<NodeType>): (r: seq<Node>)
      reads this
      requires Shaped(State())
      ensures forall n :: n in r <==> IsNodeOf(State(), n) && Text.Contains(Lower(n.name), Lower(name)) && (t.None? || n.kind == t.value)
    {
      ValuesAreNodes(State());
      var byName := Filter(nodes.Values(), (n: Node) => Text.Contains(Lower(n.name), Lower(name)));
      if t.Some? then Filter(byName, (n: Node) => n.kind == t.value) else byName
    }
  }

  // ---------------------------------------------------------------------------
  // Turning a counter into a ranked list
  // ---------------------------------------------------------------------------

  function IdsOf(ps: seq<(Node, nat)>): set<string> {
    set m | 0 <= m < |ps| :: ps[m].0.id
  }

  function IdOf(p: (Node, nat)): string {
    p.0.id
  }

  function CountOf(p: (Node, nat)): real {
    p.1 as real
  }

  /** Every entry is a stored node with its count, the count reaches `min`, and no id is listed twice. */
  ghost predicate CountedOnce(g: GraphState, counts: map<string, nat>, min: int, r: seq<(Node, nat)>) {
    && (forall k | 0 <= k < |r| :: IsNodeOf(g, r[k].0) && r[k].0.id in counts && r[k].1 == counts[r[k].0.id] && r[k].1 >= min)
    && UniqueNames(r, IdOf)
  }

  /**
    * `r` lists the stored nodes whose count reaches `min`, each once, with its
    * count, sorted by count descending.
    */
  ghost predicate RankedCounts(g: GraphState, counts: map<string, nat>, min: int, r: seq<(Node, nat)>) {
    && CountedOnce(g, counts, min, r)
    && (forall id | id in counts && id in g.nodes.vals && counts[id] >= min :: id in IdsOf(r))
    && SortedDesc(r, CountOf)
  }

  lemma PermutedIds(found: seq<(Node, nat)>, r: seq<(Node, nat)>)
    requires multiset(r) == multiset(found)
    ensures forall x | x in r :: x in found
    ensures IdsOf(found) <= IdsOf(r)
  {
    forall x | x in r
      ensures x in found
    {
      assert x in multiset(found);
    }
    forall id | id in IdsOf(found)
      ensures id in IdsOf(r)
    {
      var m :| 0 <= m < |found| && found[m].0.id == id;
      assert found[m] in multiset(r);
      var k :| 0 <= k < |r| && r[k] == found[m];
    }
  }

  /** Sorting the collected entries keeps what they say and orders them. */
  lemma SortCounted(g: GraphState, counts: map<string, nat>, min: int, found: seq<(Node, nat)>, r: seq<(Node, nat)>)
    requires CountedOnce(g, counts, min, found)
    requires forall id | id in counts && id in g.nodes.vals && counts[id] >= min :: id in IdsOf(found)
    requires multiset(r) == multiset(found) && SortedDesc(r, CountOf)
    ensures RankedCounts(g, counts, min, r)
  {
    PermutedIds(found, r);
    forall k | 0 <= k < |r|
      ensures IsNodeOf(g, r[k].0) && r[k].0.id in counts && r[k].1 == counts[r[k].0.id] && r[k].1 >= min
    {
      assert r[k] in found;
      var m :| 0 <= m < |found| && found[m] == r[k];
    }
    forall i, j | 0 <= i < j < |r|
      ensures IdOf(r[i]) != IdOf(r[j])
    {
      NoNameTwice(found, r, IdOf, i, j);
    }
  }

  /**
    * The tail the counting queries share: `for id, count in counts.items(): if
    * count >= min: node = get_node(id); if node: results.append((node, count))`,
    * then `results.sort(key=count, reverse=True)`.
    */
  method RankCounts(g: GraphState, counts: map<string, nat>, min: int) returns (r: seq<(Node, nat)>)
    requires KeyedById(g.nodes)
    ensures RankedCounts(g, counts, min, r)
  {
    var ids := ListOfSet(counts.Keys);
    var found: seq<(Node, nat)> := [];
    for k := 0 to |ids|
      invariant CountedOnce(g, counts, min, found)
      invariant IdsOf(found) <= set m | 0 <= m < k :: ids[m]
      invariant forall m | 0 <= m < k && ids[m] in g.nodes.vals && counts[ids[m]] >= min :: ids[m] in IdsOf(found)
    {
      var id := ids[k];
      if counts[id] >= min && id in g.nodes.vals {
        assert id !in IdsOf(found);
        CountedPush(g, counts, min, found, id);
        found := found + [(g.nodes.vals[id], counts[id])];
      }
    }
    r := SortDesc(found, CountOf);
    SortCounted(g, counts, min, found, r);
  }

  /** Appending a stored node whose id is new, with its count, keeps the list counted once. */
  lemma CountedPush(g: GraphState, counts: map<string, nat>, min: int, found: seq<(Node, nat)>, id: string)
    requires KeyedById(g.nodes)
    requires CountedOnce(g, counts, min, found)
    requires id in counts && counts[id] >= min && id in g.nodes.vals && id !in IdsOf(found)
    ensures var found' := found + [(g.nodes.vals[id], counts[id])];
      CountedOnce(g, counts, min, found') && IdsOf(found') == IdsOf(found) + {id}
  {
    var found' := found + [(g.nodes.vals[id], counts[id])];
    assert forall m | 0 <= m < |found| :: found'[m] == found[m];
    assert found'[|found|].0.id == id;
    assert IdsOf(found') == IdsOf(found) + {id};
    forall i, j | 0 <= i < j < |found'|
      ensures IdOf(found'[i]) != IdOf(found'[j])
    {
      if j < |found| {
        assert IdOf(found[i]) != IdOf(found[j]);
      } else {
        assert IdOf(found[i]) in IdsOf(found);
      }
    }
  }

  /** Ranks the ids of a neighbour tally and keeps their nodes. */
  method RankHops(g: GraphState, xs: seq<Node>, counts: map<string, nat>) returns (r: seq<Node>)
    requires Shaped(g)
    requires forall y :: Count(counts, y) == HopCount(g, xs, Some(Contains), y)
    requires Positive(counts)
    ensures forall n :: n in r <==> IsNodeOf(g, n) && HopCount(g, xs, Some(Contains), n.id) > 0
    ensures forall i, j | 0 <= i < j < |r| :: r[i].id != r[j].id
    ensures forall i, j | 0 <= i < j < |r| :: HopCount(g, xs, Some(Contains), r[i].id) >= HopCount(g, xs, Some(Contains), r[j].id)
  {
    var ranked := RankCounts(g, counts, 0);
    r := seq(|ranked|, k requires 0 <= k < |ranked| => ranked[k].0);
    RankedHops(g, xs, counts, ranked, r);
  }

  /**
    * Projecting the ranked (node, count) list of a neighbour tally onto its
    * nodes gives each node with a positive tally once, in tally order.
    */
  lemma RankedHops(g: GraphState, xs: seq<Node>, counts: map<string, nat>, ranked: seq<(Node, nat)>, r: seq<Node>)
    requires Shaped(g)
    requires forall y :: Count(counts, y) == HopCount(g, xs, Some(Contains), y)
    requires Positive(counts)
    requires RankedCounts(g, counts, 0, ranked)
    requires |r| == |ranked| && forall k | 0 <= k < |r| :: r[k] == ranked[k].0
    ensures forall n :: n in r <==> IsNodeOf(g, n) && HopCount(g, xs, Some(Contains), n.id) > 0
    ensures forall i, j | 0 <= i < j < |r| :: r[i].id != r[j].id
    ensures forall i, j | 0 <= i < j < |r| :: HopCount(g, xs, Some(Contains), r[i].id) >= HopCount(g, xs, Some(Contains), r[j].id)
  {
    forall i, j | 0 <= i < j < |r|
      ensures r[i].id != r[j].id
      ensures HopCount(g, xs, Some(Contains), r[i].id) >= HopCount(g, xs, Some(Contains), r[j].id)
    {
      assert IdOf(ranked[i]) != IdOf(ranked[j]);
      assert CountOf(ranked[i]) >= CountOf(ranked[j]);
      assert Count(counts, r[i].id) == ranked[i].1;
    }
    forall n | IsNodeOf(g, n) && HopCount(g, xs, Some(Contains), n.id) > 0
      ensures n in r
    {
      assert Count(counts, n.id) > 0;
      assert n.id in IdsOf(ranked);
      var k :| 0 <= k < |ranked| && ranked[k].0.id == n.id;
      assert r[k] == n;
    }
  }

  /** The dictionary's values are exactly the graph's nodes. */
  lemma ValuesAreNodes(g: GraphState)
    requires Shaped(g)
    ensures forall n :: n in g.nodes.Values() <==> IsNodeOf(g, n)
  {
    var vs := g.nodes.Values();
    forall n | IsNodeOf(g, n)
      ensures n in vs
    {
      var i :| 0 <= i < |g.nodes.keys| && g.nodes.keys[i] == n.id;
      assert vs[i] == n;
    }
  }
}
