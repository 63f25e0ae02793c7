/**
  * `GraphQueryEngine`: searches over the storage's name and type indexes,
  * ranks by name similarity, and answers the co-occurrence, similarity,
  * cooking-method, substitution and path questions by walking the graph.
  * Every query only reads the graph and the storage.
  */
module QueryEngines {
  import opened Wrappers
  import opened Text
  import opened Dicts
  import opened Ranking
  import opened GraphModels
  import opened RecipeGraphs
  import opened GraphStorages
  import opened Paths

  // ---------------------------------------------------------------------------
  // Name similarity
  // ---------------------------------------------------------------------------

  /**
    * `_calculate_name_similarity`: 1.0 when the lowered strings are equal, 0.8
    * when the lowered query occurs in the lowered name, otherwise the Jaccard
    * ratio of their character sets.
    */
  function NameSimilarity(query: string, name: string): (s: real)
    ensures 0.0 <= s <= 1.0
  {
    var q, n := Lower(query), Lower(name);
    if q == n then 1.0
    else if Text.Contains(n, q) then 0.8
    else
      JaccardBounds(CharSet(q), CharSet(n));
      Jaccard(CharSet(q), CharSet(n))
  }

  /**
    * A name that equals the query up to case scores 1.0, one that contains it
    * scores at least 0.8, and a score of 1.0 means the two use the same
    * characters.
    */
  lemma NameSimilarityRanks(query: string, name: string)
    ensures Lower(query) == Lower(name) ==> NameSimilarity(query, name) == 1.0
    ensures Text.Contains(Lower(name), Lower(query)) ==> NameSimilarity(query, name) >= 0.8
    ensures NameSimilarity(query, name) == 1.0 ==> CharSet(Lower(query)) == CharSet(Lower(name))
  {
    var q, n := Lower(query), Lower(name);
    JaccardOne(CharSet(q), CharSet(n));
  }

  /** The sort key of `search_nodes`. */
  function SimKey(query: string): Node -> real {
    (n: Node) => NameSimilarity(query, n.name)
  }

  // ---------------------------------------------------------------------------
  // Search candidates
  // ---------------------------------------------------------------------------

  /** The ids filed under those keys `ks` of the name index whose lowered form contains `q`. */
  ghost function HitsIn(idx: map<string, set<string>>, q: string, ks: set<string>): set<string> {
    set k, id | k in ks && k in idx && id in idx[k] && Text.Contains(Lower(k), q) :: id
  }

  lemma HitsInStep(idx: map<string, set<string>>, q: string, ks: set<string>, k: string)
    ensures HitsIn(idx, q, ks + {k}) == HitsIn(idx, q, ks) + (if k in idx && Text.Contains(Lower(k), q) then idx[k] else {})
  {
  }

  /** The candidate ids of `search_nodes(query, t)`: the hits of the name index, narrowed by the type index when a type is given. */
  ghost function Candidates(idx: map<string, set<string>>, tidx: map<NodeType, set<string>>, query: string, t: Option<NodeType>): set<string> {
    var hits := HitsIn(idx, Lower(query), idx.Keys);
    if t.Some? then hits * Ids(tidx, t.value) else hits
  }

  /** The stored nodes of the candidate ids. */
  ghost function Pool(g: GraphState, idx: map<string, set<string>>, tidx: map<NodeType, set<string>>, query: string, t: Option<NodeType>): set<Node> {
    set id | id in Candidates(idx, tidx, query, t) && id in g.nodes.vals :: g.nodes.vals[id]
  }

  lemma PoolMembers(g: GraphState, idx: map<string, set<string>>, tidx: map<NodeType, set<string>>, query: string, t: Option<NodeType>, n: Node)
    requires Shaped(g)
    ensures n in Pool(g, idx, tidx, query, t) <==> IsNodeOf(g, n) && n.id in Candidates(idx, tidx, query, t)
  {
  }

  /**
    * Once the indexes are built from the graph, every candidate of a search is
    * a stored node whose lowered name contains the lowered query (so its
    * similarity is at least 0.8), of the requested type when one is given.
    */
  lemma SyncedPool(g: GraphState, query: string, t: Option<NodeType>, n: Node)
    requires Shaped(g)
    requires n in Pool(g, NameIndexOf(g.nodes.Values()), TypeIndexOf(g.nodes.Values()), query, t)
    ensures IsNodeOf(g, n)
    ensures Text.Contains(Lower(n.name), Lower(query))
    ensures NameSimilarity(query, n.name) >= 0.8
    ensures t.Some? ==> n.kind == t.value
  {
    var ns := g.nodes.Values();
    var idx := NameIndexOf(ns);
    var q := Lower(query);
    var k, id :| k in idx.Keys && k in idx && id in idx[k] && Text.Contains(Lower(k), q) && id == n.id;
    NamedNode(g, k, n);
    NameKeyInName(n, k);
    LowerKeepsContains(n.name, k);
    ContainsTrans(Lower(n.name), Lower(k), q);
    NameSimilarityRanks(query, n.name);
    if t.Some? {
      TypedNode(g, t.value, n);
    }
  }

  /** A stored node filed under `k` in the name index built from the graph has `k` as a name key. */
  lemma NamedNode(g: GraphState, k: string, n: Node)
    requires Shaped(g) && IsNodeOf(g, n)
    requires n.id in Ids(NameIndexOf(g.nodes.Values()), k)
    ensures NameKey(n, k)
  {
    var ns := g.nodes.Values();
    NameIndexMembers(ns, k, n.id);
    var i :| 0 <= i < |ns| && ns[i].id == n.id && NameKey(ns[i], k);
    assert ns[i] == g.nodes.vals[g.nodes.keys[i]];
  }

  /** A stored node filed under `t` in the type index built from the graph has type `t`. */
  lemma TypedNode(g: GraphState, t: NodeType, n: Node)
    requires Shaped(g) && IsNodeOf(g, n)
    requires n.id in Ids(TypeIndexOf(g.nodes.Values()), t)
    ensures n.kind == t
  {
    var ns := g.nodes.Values();
    TypeIndexMembers(ns, t, n.id);
    var j :| 0 <= j < |ns| && ns[j].id == n.id && ns[j].kind == t;
    assert ns[j] == g.nodes.vals[g.nodes.keys[j]];
  }

  // ---------------------------------------------------------------------------
  // Result lists
  // ---------------------------------------------------------------------------

  function ScoreOf(p: (Node, real)): real {
    p.1
  }

  /** `(get_node(e.target_id), e.weight)` for the edges whose target is stored. */
  function SimilarVia(g: GraphState, es: seq<Edge>): (r: seq<(Node, real)>)
    ensures |r| <= |es|
    ensures forall k | 0 <= k < |r| :: r[k].0 in g.nodes.vals.Values
  {
    if es == [] then []
    else
      var e := es[|es| - 1];
      SimilarVia(g, es[..|es| - 1]) + (if e.target in g.nodes.vals then [(g.nodes.vals[e.target], e.weight)] else [])
  }

  /** What `find_similar_dishes` collects before sorting: the SIMILAR_TO edges out of each dish in turn. */
  function SimilarOf(g: GraphState, ds: seq<Node>): (r: seq<(Node, real)>)
    requires Shaped(g)
    ensures forall k | 0 <= k < |r| :: r[k].0 in g.nodes.vals.Values
  {
    if ds == [] then [] else SimilarOf(g, ds[..|ds| - 1]) + SimilarVia(g, EdgesFrom(g, ds[|ds| - 1].id, None, Some(SimilarTo)))
  }

  /** Some dish of `ds` has a SIMILAR_TO edge of weight `w` to `id`. */
  ghost predicate SomeSimilar(g: GraphState, ds: seq<Node>, id: string, w: real) {
    exists i, e | 0 <= i < |ds| && e in g.edges :: e.source == ds[i].id && e.target == id && e.kind == SimilarTo && e.weight == w
  }

  lemma {:induction false} SimilarViaMembers(g: GraphState, es: seq<Edge>, n: Node, w: real)
    requires KeyedById(g.nodes)
    ensures (n, w) in SimilarVia(g, es) <==> IsNodeOf(g, n) && exists e | e in es :: e.target == n.id && e.weight == w
  {
    if es != [] {
      var es0, e := es[..|es| - 1], es[|es| - 1];
      SimilarViaMembers(g, es0, n, w);
      assert es == es0 + [e];
    }
  }

  /** The similar-dish pairs are exactly the stored targets of SIMILAR_TO edges out of the dishes, with the edges' weights. */
  lemma {:induction false} SimilarMembers(g: GraphState, ds: seq<Node>, n: Node, w: real)
    requires Consistent(g)
    ensures (n, w) in SimilarOf(g, ds) <==> IsNodeOf(g, n) && SomeSimilar(g, ds, n.id, w)
  {
    if ds != [] {
      var ds0, d := ds[..|ds| - 1], ds[|ds| - 1];
      SimilarMembers(g, ds0, n, w);
      var es := EdgesFrom(g, d.id, None, Some(SimilarTo));
      SimilarViaMembers(g, es, n, w);
      EdgesFromMembers(g, d.id, None, Some(SimilarTo));
      SomeSimilarStep(g, ds, n.id, w);
    }
  }

  lemma SomeSimilarStep(g: GraphState, ds: seq<Node>, id: string, w: real)
    requires ds != []
    ensures var d := ds[|ds| - 1];
      SomeSimilar(g, ds, id, w) <==>
        (SomeSimilar(g, ds[..|ds| - 1], id, w) ||
         exists e | e in g.edges :: e.source == d.id && e.target == id && e.kind == SimilarTo && e.weight == w)
  {
    var ds0 := ds[..|ds| - 1];
    if SomeSimilar(g, ds, id, w) {
      var i, e :| 0 <= i < |ds| && e in g.edges && e.source == ds[i].id && e.target == id && e.kind == SimilarTo && e.weight == w;
      if i < |ds0| {
        assert ds0[i] == ds[i];
      }
    }
    if SomeSimilar(g, ds0, id, w) {
      var i, e :| 0 <= i < |ds0| && e in g.edges && e.source == ds0[i].id && e.target == id && e.kind == SimilarTo && e.weight == w;
      assert ds[i] == ds0[i];
    }
  }

  // ---------------------------------------------------------------------------
  // Substitution
  // ---------------------------------------------------------------------------

  /** The ids among the PAIRS_WITH neighbours of `id`. */
  function PairIds(g: GraphState, id: string): set<string>
    requires Shaped(g)
  {
    set n | n in Neighbors(g, id, Some(PairsWith)) :: n.id
  }

  /**
    * `_calculate_substitution_score`: 0 when either ingredient has no
    * PAIRS_WITH partner, otherwise the Jaccard ratio of the two partner sets;
    * it reaches 1.0 exactly when both have the same partners.
    */
  function SubstitutionScore(g: GraphState, original: Node, substitute: Node): (s: real)
    requires Shaped(g)
    ensures 0.0 <= s <= 1.0
    ensures PairIds(g, original.id) == {} || PairIds(g, substitute.id) == {} ==> s == 0.0
    ensures s == 1.0 <==> PairIds(g, original.id) == PairIds(g, substitute.id) != {}
  {
    var a, b := PairIds(g, original.id), PairIds(g, substitute.id);
    JaccardBounds(a, b);
    JaccardOne(a, b);
    if a == {} || b == {} then 0.0 else Jaccard(a, b)
  }

  lemma SubstitutionSymmetric(g: GraphState, a: Node, b: Node)
    requires Shaped(g)
    ensures SubstitutionScore(g, a, b) == SubstitutionScore(g, b, a)
  {
    JaccardBounds(PairIds(g, a.id), PairIds(g, b.id));
  }

  /** The suggestions one ingredient `x` yields from its partners `ps`: those scoring above 0.1. */
  function SuggestionsVia(g: GraphState, x: Node, ps: seq<Node>): (r: seq<(Node, real)>)
    requires Shaped(g)
    ensures |r| <= |ps|
    ensures forall k | 0 <= k < |r| :: 0.1 < r[k].1 <= 1.0
  {
    if ps == [] then []
    else
      var p := ps[|ps| - 1];
      var s := SubstitutionScore(g, x, p);
      SuggestionsVia(g, x, ps[..|ps| - 1]) + (if s > 0.1 then [(p, s)] else [])
  }

  /** What `get_ingredient_substitution_suggestions` collects before sorting. */
  function SuggestionsOf(g: GraphState, xs: seq<Node>): (r: seq<(Node, real)>)
    requires Shaped(g)
    ensures forall k | 0 <= k < |r| :: 0.1 < r[k].1 <= 1.0
  {
    if xs == [] then []
    else
      var x := xs[|xs| - 1];
      SuggestionsOf(g, xs[..|xs| - 1]) + SuggestionsVia(g, x, Neighbors(g, x.id, Some(PairsWith)))
  }

  /**
    * Every suggestion is a PAIRS_WITH partner of one of the ingredients, carries
    * that pair's substitution score, and the score lies in (0.1, 1].
    */
  lemma {:induction false} SuggestionsSound(g: GraphState, xs: seq<Node>, p: (Node, real))
    requires Shaped(g)
    requires p in SuggestionsOf(g, xs)
    ensures 0.1 < p.1 <= 1.0
    ensures exists i | 0 <= i < |xs| :: p.0 in Neighbors(g, xs[i].id, Some(PairsWith)) && p.1 == SubstitutionScore(g, xs[i], p.0)
  {
    var xs0, x := xs[..|xs| - 1], xs[|xs| - 1];
    if p in SuggestionsOf(g, xs0) {
      SuggestionsSound(g, xs0, p);
      var i :| 0 <= i < |xs0| && p.0 in Neighbors(g, xs0[i].id, Some(PairsWith)) && p.1 == SubstitutionScore(g, xs0[i], p.0);
      assert xs[i] == xs0[i];
    } else {
      SuggestionsViaSound(g, x, Neighbors(g, x.id, Some(PairsWith)), p);
    }
  }

  lemma {:induction false} SuggestionsViaSound(g: GraphState, x: Node, ps: seq<Node>, p: (Node, real))
    requires Shaped(g)
    requires p in SuggestionsVia(g, x, ps)
    ensures 0.1 < p.1 <= 1.0
    ensures p.0 in ps && p.1 == SubstitutionScore(g, x, p.0)
  {
    var ps0, q := ps[..|ps| - 1], ps[|ps| - 1];
    var s := SubstitutionScore(g, x, q);
    var tail := if s > 0.1 then [(q, s)] else [];
    assert SuggestionsVia(g, x, ps) == SuggestionsVia(g, x, ps0) + tail;
    if p in SuggestionsVia(g, x, ps0) {
      SuggestionsViaSound(g, x, ps0, p);
      assert p.0 in ps0;
      assert ps0 <= ps;
    } else {
      assert p in tail;
    }
  }

  lemma SimilarViaStep(g: GraphState, es: seq<Edge>, j: int)
    requires 0 <= j < |es|
    ensures SimilarVia(g, es[..j + 1]) == SimilarVia(g, es[..j]) + (if es[j].target in g.nodes.vals then [(g.nodes.vals[es[j].target], es[j].weight)] else [])
  {
    assert es[..j + 1][..j] == es[..j];
  }

  lemma SimilarOfStep(g: GraphState, ds: seq<Node>, i: int)
    requires Shaped(g) && 0 <= i < |ds|
    ensures SimilarOf(g, ds[..i + 1]) == SimilarOf(g, ds[..i]) + SimilarVia(g, EdgesFrom(g, ds[i].id, None, Some(SimilarTo)))
  {
    assert ds[..i + 1][..i] == ds[..i];
  }

  lemma SuggestionsViaStep(g: GraphState, x: Node, ps: seq<Node>, j: int, acc: seq<(Node, real)>)
    requires Shaped(g) && 0 <= j < |ps|
    ensures acc + SuggestionsVia(g, x, ps[..j + 1]) ==
      (acc + SuggestionsVia(g, x, ps[..j])) + (if SubstitutionScore(g, x, ps[j]) > 0.1 then [(ps[j], SubstitutionScore(g, x, ps[j]))] else [])
  {
    assert ps[..j + 1][..j] == ps[..j];
  }

  lemma SuggestionsOfStep(g: GraphState, xs: seq<Node>, i: int)
    requires Shaped(g) && 0 <= i < |xs|
    ensures SuggestionsOf(g, xs[..i + 1]) == SuggestionsOf(g, xs[..i]) + SuggestionsVia(g, xs[i], Neighbors(g, xs[i].id, Some(PairsWith)))
  {
    assert xs[..i + 1][..i] == xs[..i];
  }

  // ---------------------------------------------------------------------------
  // The engine
  // ---------------------------------------------------------------------------

  /** What every query reads: the graph and the storage's name and type indexes. */
  datatype Env = Env(g: GraphState, nameIndex: map<string, set<string>>, typeIndex: map<NodeType, set<string>>)

  /** `xs` is what `search_nodes(query, t, limit)` may return in the state `e`. */
  ghost predicate FoundIn(e: Env, xs: seq<Node>, query: string, t: Option<NodeType>, limit: int) {
    IsTopK(xs, multiset(Pool(e.g, e.nameIndex, e.typeIndex, query, t)), SimKey(query), limit)
  }

  class QueryEngine {
    const graph: RecipeGraph
    const storage: GraphStorage

    constructor (graph: RecipeGraph, storage: GraphStorage)
      ensures this.graph == graph && this.storage == storage
    {
      this.graph := graph;
      this.storage := storage;
    }

    /** The state the engine's queries read. */
    ghost function Snapshot(): Env
      reads graph, storage
    {
      Env(graph.State(), storage.nameIndex, storage.typeIndex)
    }

    /** The stored nodes `search_nodes(query, t)` ranks. */
    ghost function SearchPool(query: string, t: Option<NodeType>): set<Node>
      reads graph, storage
    {
      Pool(graph.State(), storage.nameIndex, storage.typeIndex, query, t)
    }

    /** `xs` is what `search_nodes(query, t, limit)` may return: the top of the pool by name similarity. */
    ghost predicate Found(xs: seq<Node>, query: string, t: Option<NodeType>, limit: int)
      reads graph, storage
    {
      IsTopK(xs, multiset(SearchPool(query, t)), SimKey(query), limit)
    }

    /**
      * `search_nodes`: the ids filed under every name-index key whose lowered
      * form contains the lowered query, narrowed by the type index, turned into
      * the stored nodes, sorted by name similarity and cut to `limit`.
      */
    method SearchNodes(query: string, t: Option<NodeType>, limit: int) returns (r: seq<Node>)
      requires Shaped(graph.State())
      ensures Found(r, query, t, limit)
    {
      var cands := HitIds(storage.nameIndex, Lower(query));
      if t.Some? {
        cands := cands * Ids(storage.typeIndex, t.value);
      }
      var ids := ListOfSet(cands);
      var found := NodesOf(ids);
      ghost var pool := SearchPool(query, t);
      forall n
        ensures n in found <==> n in pool
      {
        PoolMembers(graph.State(), storage.nameIndex, storage.typeIndex, query, t, n);
      }
      DistinctMultiset(found, pool);
      r := Take(SortDesc(found, SimKey(query)), limit);
      TopKOfSorted(found, SimKey(query), limit);
    }

    /** `for node_id in candidates: node = get_node(node_id); if node: nodes.append(node)`. */
    method NodesOf(ids: seq<string>) returns (found: seq<Node>)
      requires Shaped(graph.State())
      requires Distinct(ids)
      ensures Distinct(found)
      ensures forall n :: n in found <==> IsNodeOf(graph.State(), n) && n.id in ids
    {
      found := [];
      for i := 0 to |ids|
        invariant Distinct(found)
        invariant forall n :: n in found <==> IsNodeOf(graph.State(), n) && n.id in ids[..i]
      {
        assert ids[..i + 1] == ids[..i] + [ids[i]];
        var n := graph.GetNode(ids[i]);
        if n.Some? {
          assert ids[i] !in ids[..i];
          found := found + [n.value];
        }
      }
      assert ids[..|ids|] == ids;
    }

    /**
      * `find_ingredient_pairs`: for the matched ingredients `xs`, the
      * co-occurrence tally over shared dishes (an ingredient never counting
      * itself), each stored node whose tally reaches `min` with its tally,
      * sorted by tally descending; nothing when no ingredient matches.
      */
    method FindIngredientPairs(name: string, min: int) returns (r: seq<(Node, nat)>, xs: seq<Node>, ghost counts: map<string, nat>)
      requires Shaped(graph.State())
      ensures Found(xs, name, Some(Ingredient), 10)
      ensures Positive(counts) && forall y :: Count(counts, y) == TwoHopCount(graph.State(), xs, Some(Contains), Some(Contains), true, y)
      ensures xs == [] ==> r == []
      ensures xs != [] ==> RankedCounts(graph.State(), counts, min, r)
    {
      xs := SearchNodes(name, Some(Ingredient), 10);
      counts := map[];
      if xs == [] {
        return [], xs, counts;
      }
      var tally := graph.CountTwoHop(xs, Some(Contains), Some(Contains), true);
      counts := tally;
      r := RankCounts(graph.State(), tally, min);
    }

    /**
      * `find_dishes_by_ingredients`: every name's matches in turn, the tally
      * of how often each node is a CONTAINS neighbour of a match, and the
      * stored nodes with their tallies, sorted descending; with `requireAll`
      * only tallies of at least the number of names are kept.
      */
    method FindDishesByIngredients(names: seq<string>, requireAll: bool) returns (r: seq<(Node, nat)>, xs: seq<Node>, ghost parts: seq<seq<Node>>, ghost counts: map<string, nat>)
      requires Shaped(graph.State())
      ensures |parts| == |names| && forall i | 0 <= i < |names| :: Found(parts[i], names[i], Some(Ingredient), 10)
      ensures xs == Concat(parts)
      ensures Positive(counts) && forall y :: Count(counts, y) == HopCount(graph.State(), xs, Some(Contains), y)
      ensures xs == [] ==> r == []
      ensures xs != [] ==> RankedCounts(graph.State(), counts, if requireAll then |names| else 0, r)
    {
      xs, parts := SearchAll(names);
      counts := map[];
      if xs == [] {
        return [], xs, parts, counts;
      }
      r, counts := RankDishes(xs, if requireAll then |names| else 0);
    }

    /** The tally and ranking of `find_dishes_by_ingredients`, for the matched ingredients `xs`. */
    method RankDishes(xs: seq<Node>, min: int) returns (r: seq<(Node, nat)>, ghost counts: map<string, nat>)
      requires Shaped(graph.State())
      ensures Positive(counts) && forall y :: Count(counts, y) == HopCount(graph.State(), xs, Some(Contains), y)
      ensures RankedCounts(graph.State(), counts, min, r)
    {
      var tally := graph.AddHops(map[], xs, Some(Contains), None);
      counts := tally;
      r := RankCounts(graph.State(), tally, min);
    }

    /** The search loop of `find_dishes_by_ingredients`: every name's matches, one after the other. */
    method SearchAll(names: seq<string>) returns (xs: seq<Node>, ghost parts: seq<seq<Node>>)
      requires Shaped(graph.State())
      ensures |parts| == |names| && forall i | 0 <= i < |names| :: Found(parts[i], names[i], Some(Ingredient), 10)
      ensures xs == Concat(parts)
    {
      xs := [];
      parts := [];
      for i := 0 to |names|
        invariant |parts| == i && forall j | 0 <= j < i :: Found(parts[j], names[j], Some(Ingredient), 10)
        invariant xs == Concat(parts)
      {
        var ns := SearchNodes(names[i], Some(Ingredient), 10);
        assert (parts + [ns])[..i] == parts;
        parts := parts + [ns];
        xs := xs + ns;
      }
    }

    /**
      * `find_similar_dishes`: the stored targets of the SIMILAR_TO edges out of
      * the matched dishes, with the edges' weights, sorted by weight and cut
      * to `limit`.
      */
    method FindSimilarDishes(name: string, limit: int) returns (r: seq<(Node, real)>, ds: seq<Node>)
      requires Shaped(graph.State())
      ensures Found(ds, name, Some(Dish), 10)
      ensures r == Take(SortDesc(SimilarOf(graph.State(), ds), ScoreOf), limit)
    {
      ds := SearchNodes(name, Some(Dish), 10);
      var similar := CollectSimilar(ds);
      r := Take(SortDesc(similar, ScoreOf), limit);
    }

    /** The loop of `find_similar_dishes` over the matched dishes. */
    method CollectSimilar(ds: seq<Node>) returns (similar: seq<(Node, real)>)
      requires Shaped(graph.State())
      ensures similar == SimilarOf(graph.State(), ds)
    {
      ghost var g := graph.State();
      similar := [];
      for i := 0 to |ds|
        invariant similar == SimilarOf(g, ds[..i])
      {
        SimilarOfStep(g, ds, i);
        var es := graph.GetEdges(ds[i].id, None, Some(SimilarTo));
        similar := AddSimilar(g, similar, es);
      }
      assert ds[..|ds|] == ds;
    }

    /** The inner loop of `find_similar_dishes`, over the edges out of one dish. */
    method AddSimilar(ghost g: GraphState, similar: seq<(Node, real)>, es: seq<Edge>) returns (r: seq<(Node, real)>)
      requires g == graph.State() && Shaped(g)
      ensures r == similar + SimilarVia(g, es)
    {
      r := similar;
      for j := 0 to |es|
        invariant r == similar + SimilarVia(g, es[..j])
      {
        SimilarViaStep(g, es, j);
        var n := graph.GetNode(es[j].target);
        if n.Some? {
          r := r + [(n.value, es[j].weight)];
        }
      }
      assert es[..|es|] == es;
    }

    /**
      * `find_cooking_methods_for_ingredient`: over the matched ingredients, the
      * tally of USES_METHOD neighbours of their CONTAINS neighbours, as stored
      * nodes with tallies, sorted descending.
      */
    method FindCookingMethodsForIngredient(name: string) returns (r: seq<(Node, nat)>, xs: seq<Node>, ghost counts: map<string, nat>)
      requires Shaped(graph.State())
      ensures Found(xs, name, Some(Ingredient), 10)
      ensures Positive(counts) && forall y :: Count(counts, y) == TwoHopCount(graph.State(), xs, Some(Contains), Some(UsesMethod), false, y)
      ensures xs == [] ==> r == []
      ensures xs != [] ==> RankedCounts(graph.State(), counts, 0, r)
    {
      xs := SearchNodes(name, Some(Ingredient), 10);
      counts := map[];
      if xs == [] {
        return [], xs, counts;
      }
      var tally := graph.CountTwoHop(xs, Some(Contains), Some(UsesMethod), false);
      counts := tally;
      r := RankCounts(graph.State(), tally, 0);
    }

    /**
      * `find_ingredients_by_cooking_method`: over the matched methods, the
      * tally of CONTAINS neighbours of their USES_METHOD neighbours, as stored
      * nodes with tallies, sorted descending.
      */
    method FindIngredientsByCookingMethod(name: string) returns (r: seq<(Node, nat)>, ms: seq<Node>, ghost counts: map<string, nat>)
      requires Shaped(graph.State())
      ensures Found(ms, name, Some(CookingMethod), 10)
      ensures Positive(counts) && forall y :: Count(counts, y) == TwoHopCount(graph.State(), ms, Some(UsesMethod), Some(Contains), false, y)
      ensures ms == [] ==> r == []
      ensures ms != [] ==> RankedCounts(graph.State(), counts, 0, r)
    {
      ms := SearchNodes(name, Some(CookingMethod), 10);
      counts := map[];
      if ms == [] {
        return [], ms, counts;
      }
      var tally := graph.CountTwoHop(ms, Some(UsesMethod), Some(Contains), false);
      counts := tally;
      r := RankCounts(graph.State(), tally, 0);
    }

    /**
      * `get_ingredient_substitution_suggestions`: the PAIRS_WITH partners of the
      * matched ingredients whose substitution score exceeds 0.1, with their
      * scores, sorted descending, at most 10.
      */
    method GetSubstitutionSuggestions(name: string) returns (r: seq<(Node, real)>, xs: seq<Node>)
      requires Shaped(graph.State())
      ensures Found(xs, name, Some(Ingredient), 10)
      ensures r == Take(SortDesc(SuggestionsOf(graph.State(), xs), ScoreOf), 10)
    {
      xs := SearchNodes(name, Some(Ingredient), 10);
      var suggestions := CollectSuggestions(xs);
      r := Take(SortDesc(suggestions, ScoreOf), 10);
    }

    /** The loop of `get_ingredient_substitution_suggestions` over the matched ingredients. */
    method CollectSuggestions(xs: seq<Node>) returns (suggestions: seq<(Node, real)>)
      requires Shaped(graph.State())
      ensures suggestions == SuggestionsOf(graph.State(), xs)
    {
      ghost var g := graph.State();
      suggestions := [];
      for i := 0 to |xs|
        invariant suggestions == SuggestionsOf(g, xs[..i])
      {
        SuggestionsOfStep(g, xs, i);
        var ps := graph.GetNeighbors(xs[i].id, Some(PairsWith));
        suggestions := AddSuggestions(g, suggestions, xs[i], ps);
      }
      assert xs[..|xs|] == xs;
    }

    /**
      * `find_path_between_ingredients`: the shortest walk, of at most
      * `maxDepth` hops, from each match of the first name to each match of the
      * second, for every pair the search connects, in the order of the two
      * match lists.  `pairs[k]` names the two matches `r[k]` connects.
      */
    method FindPathBetweenIngredients(first: string, second: string, maxDepth: int)
      returns (r: seq<seq<Node>>, xs: seq<Node>, ys: seq<Node>, ghost pairs: seq<(int, int)>)
      requires Shaped(graph.State())
      ensures Found(xs, first, Some(Ingredient), 10) && Found(ys, second, Some(Ingredient), 10)
      ensures Paired(graph.State(), xs, ys, maxDepth, |xs|, r, pairs)
    {
      xs := SearchNodes(first, Some(Ingredient), 10);
      ys := SearchNodes(second, Some(Ingredient), 10);
      r, pairs := [], [];
      if xs == [] || ys == [] {
        return;
      }
      ghost var g := graph.State();
      for i := 0 to |xs|
        invariant Paired(g, xs, ys, maxDepth, i, r, pairs)
      {
        var rs;
        ghost var js;
        rs, js := PathsFrom(xs[i], ys, maxDepth);
        PairedStep(g, xs, ys, maxDepth, i, r, pairs, rs, js);
        r, pairs := r + rs, pairs + Tagged(i, js);
      }
    }

    /** The inner loop of `find_path_between_ingredients`, from the match `x`: `js[k]` names the match `rs[k]` reaches. */
    method PathsFrom(x: Node, ys: seq<Node>, maxDepth: int) returns (rs: seq<seq<Node>>, ghost js: seq<int>)
      requires Shaped(graph.State())
      ensures Reached(graph.State(), x, ys, maxDepth, |ys|, rs, js)
    {
      rs, js := [], [];
      for j := 0 to |ys|
        invariant Reached(graph.State(), x, ys, maxDepth, j, rs, js)
      {
        rs, js := SearchPair(x, ys, maxDepth, j, rs, js);
      }
    }

    /** One turn of the inner loop of `find_path_between_ingredients`: the search from `x` to `ys[j]`, kept when it succeeds. */
    method SearchPair(x: Node, ys: seq<Node>, maxDepth: int, j: int, rs0: seq<seq<Node>>, ghost js0: seq<int>) returns (rs: seq<seq<Node>>, ghost js: seq<int>)
      requires Shaped(graph.State()) && 0 <= j < |ys|
      requires Reached(graph.State(), x, ys, maxDepth, j, rs0, js0)
      ensures Reached(graph.State(), x, ys, maxDepth, j + 1, rs, js)
    {
      var path := FindShortestPath(x, ys[j], maxDepth);
      if path.Some? {
        ReachedFound(graph.State(), x, ys, maxDepth, j, rs0, js0, path.value);
        rs, js := rs0 + [path.value], js0 + [j];
      } else {
        ReachedMissed(graph.State(), x, ys, maxDepth, j, rs0, js0);
        rs, js := rs0, js0;
      }
    }

    /**
      * `_find_shortest_path`: a breadth-first search from `start`, along edges in
      * either direction, that expands only walks of fewer than `maxDepth` hops
      * and stops at the first neighbour with the id of `end`.  The walk it
      * returns has no id twice and is a shortest one; it returns nothing
      * exactly when no walk of at most `maxDepth` hops reaches `end`.
      */
    method FindShortestPath(start: Node, end: Node, maxDepth: int) returns (r: Option<seq<Node>>)
      requires Shaped(graph.State())
      ensures start.id == end.id ==> r == Some([start])
      ensures r.Some? ==> ShortestPath(graph.State(), start, end, maxDepth, r.value)
      ensures r.None? ==> Unreached(graph.State(), start.id, end.id, maxDepth)
    {
      if start.id == end.id {
        return Some([start]);
      }
      ghost var g := graph.State();
      ghost var all := g.nodes.vals.Keys + {start.id};
      var queue: seq<(Node, seq<Node>)> := [(start, [start])];
      var visited: set<string> := {start.id};
      ghost var H: map<string, nat> := map[start.id := 0];
      ghost var P: set<string> := {};
      ghost var lo := 0;
      SearchStart(g, start, end, maxDepth, all);
      while queue != []
        invariant Searching(g, start, end, maxDepth, all, queue, visited, H, P, lo)
        decreases |all - visited|, |queue|
      {
        var found;
        found, queue, visited, H, P, lo := Turn(start, end, maxDepth, all, queue, visited, H, P, lo);
        if found.Some? {
          return found;
        }
      }
      Exhausted(g, start, end, maxDepth, all, visited, H, P, lo);
      return None;
    }

    /**
      * One turn of the search loop: the first walk comes off the queue and,
      * unless it is longer than `maxDepth` nodes, is expanded.  Either the
      * visited ids grow, or they stay the same and the queue shrinks.
      */
    method Turn(start: Node, end: Node, maxDepth: int, ghost all: set<string>, queue0: seq<(Node, seq<Node>)>, visited0: set<string>,
                ghost H0: map<string, nat>, ghost P0: set<string>, ghost lo0: int)
      returns (found: Option<seq<Node>>, queue: seq<(Node, seq<Node>)>, visited: set<string>, ghost H: map<string, nat>, ghost P: set<string>, ghost lo: int)
      requires Shaped(graph.State()) && graph.State().nodes.vals.Keys <= all
      requires Searching(graph.State(), start, end, maxDepth, all, queue0, visited0, H0, P0, lo0) && queue0 != []
      ensures found.Some? ==> ShortestPath(graph.State(), start, end, maxDepth, found.value)
      ensures found.None? ==> Searching(graph.State(), start, end, maxDepth, all, queue, visited, H, P, lo)
      ensures found.None? ==> |all - visited| < |all - visited0| || (visited == visited0 && |queue| < |queue0|)
    {
      ghost var g := graph.State();
      var path := queue0[0].1;
      if |path| > maxDepth {
        SkipStep(g, start, end, maxDepth, all, queue0, visited0, H0, P0, lo0);
        return None, queue0[1..], visited0, H0, P0 + {queue0[0].0.id}, |path| - 1;
      }
      PopStep(g, start, end, maxDepth, all, queue0, visited0, H0, P0, lo0);
      found, queue, visited, H := Expand(start, end, maxDepth, all, path, queue0[1..], visited0, H0, P0);
      P, lo := P0 + {path[|path| - 1].id}, |path| - 1;
      if found.None? && visited != visited0 {
        Shrinks(all, visited0, visited);
      }
    }

    /**
      * One turn of the search, for the walk `path` just taken off the queue:
      * each neighbour of its end in turn either is `end`, and the walk to it is
      * returned, or, when not yet visited, is visited and queued.
      */
    method Expand(start: Node, end: Node, maxDepth: int, ghost all: set<string>, path: seq<Node>, queue0: seq<(Node, seq<Node>)>, visited0: set<string>, ghost H0: map<string, nat>, ghost P: set<string>)
      returns (found: Option<seq<Node>>, queue: seq<(Node, seq<Node>)>, visited: set<string>, ghost H: map<string, nat>)
      requires Shaped(graph.State()) && graph.State().nodes.vals.Keys <= all
      requires Popped(graph.State(), start, end, maxDepth, all, path, queue0, visited0, H0, P)
      ensures found.Some? ==> ShortestPath(graph.State(), start, end, maxDepth, found.value)
      ensures found.None? ==> Searching(graph.State(), start, end, maxDepth, all, queue, visited, H, P + {path[|path| - 1].id}, |path| - 1)
      ensures found.None? ==> visited0 <= visited && (visited == visited0 ==> queue == queue0)
    {
      ghost var g := graph.State();
      var u := path[|path| - 1];
      var ns := graph.GetNeighbors(u.id, None);
      queue, visited, H := queue0, visited0, H0;
      ExpandStart(g, start, end, maxDepth, all, path, ns, queue0, visited0, H0, P);
      for j := 0 to |ns|
        invariant Expanding(g, start, end, all, path, ns, j, H0, P, queue0, visited0, queue, visited, H)
      {
        var n := ns[j];
        if n.id == end.id {
          VisitEnd(g, start, end, maxDepth, all, path, ns, j, H0, P, queue0, visited0, queue, visited, H);
          return Some(path + [n]), queue, visited, H;
        }
        if n.id !in visited {
          VisitNew(g, start, end, all, path, ns, j, H0, P, queue0, visited0, queue, visited, H);
          visited := visited + {n.id};
          H := H[n.id := |path|];
          queue := queue + [(n, path + [n])];
        } else {
          VisitKnown(g, start, end, all, path, ns, j, H0, P, queue0, visited0, queue, visited, H);
        }
      }
      ExpandEnd(g, start, end, maxDepth, all, path, ns, H0, P, queue0, visited0, queue, visited, H);
      found := None;
    }

    /** The inner loop of `get_ingredient_substitution_suggestions`, for one ingredient. */
    method AddSuggestions(ghost g: GraphState, suggestions: seq<(Node, real)>, x: Node, ps: seq<Node>) returns (r: seq<(Node, real)>)
      requires g == graph.State() && Shaped(g)
      ensures r == suggestions + SuggestionsVia(g, x, ps)
    {
      r := suggestions;
      for j := 0 to |ps|
        invariant r == suggestions + SuggestionsVia(g, x, ps[..j])
      {
        SuggestionsViaStep(g, x, ps, j, suggestions);
        var s := SubstitutionScore(graph.State(), x, ps[j]);
        if s > 0.1 {
          r := r + [(ps[j], s)];
        } else {
          assert r + [] == r;
        }
      }
      assert ps[..|ps|] == ps;
    }
  }

  /**
    * The ids filed under the name-index keys whose lowered form contains `q`:
    * `for name, ids in name_index.items(): if q in name.lower(): candidates.update(ids)`.
    */
  method HitIds(idx: map<string, set<string>>, q: string) returns (cands: set<string>)
    ensures cands == HitsIn(idx, q, idx.Keys)
  {
    cands := {};
    var rest := idx.Keys;
    while rest != {}
      invariant rest <= idx.Keys
      invariant cands == HitsIn(idx, q, idx.Keys - rest)
      decreases |rest|
    {
      var k :| k in rest;
      HitsInStep(idx, q, idx.Keys - rest, k);
      assert idx.Keys - (rest - {k}) == (idx.Keys - rest) + {k};
      if Text.Contains(Lower(k), q) {
        cands := cands + idx[k];
      }
      rest := rest - {k};
    }
  }

  /** `a` comes before `b` in the order of the two nested loops. */
  predicate Before(a: (int, int), b: (int, int)) {
    a.0 < b.0 || (a.0 == b.0 && a.1 < b.1)
  }

  /**
    * The searches from each match of `xs[..i]` to each match of `ys`:
    * `r[k]` is a shortest walk from `xs[pairs[k].0]` to `ys[pairs[k].1]`, the
    * pairs come in the order of the two loops, and no walk of at most
    * `maxDepth` hops joins a pair that `pairs` leaves out.
    */
  ghost predicate Paired(g: GraphState, xs: seq<Node>, ys: seq<Node>, maxDepth: int, i: int, r: seq<seq<Node>>, pairs: seq<(int, int)>)
    requires Shaped(g)
  {
    && |pairs| == |r|
    && (forall k | 0 <= k < |r| ::
          0 <= pairs[k].0 < i && i <= |xs| && 0 <= pairs[k].1 < |ys|
          && ShortestPath(g, xs[pairs[k].0], ys[pairs[k].1], maxDepth, r[k]))
    && (forall k, l | 0 <= k < l < |pairs| :: Before(pairs[k], pairs[l]))
    && (forall i', j | 0 <= i' < i && 0 <= j < |ys| && (i', j) !in pairs :: i' < |xs| && Unreached(g, xs[i'].id, ys[j].id, maxDepth))
  }

  /** The pairs of `i` with each of `js`. */
  function Tagged(i: int, js: seq<int>): (r: seq<(int, int)>)
    ensures |r| == |js| && forall k | 0 <= k < |js| :: r[k] == (i, js[k])
  {
    if js == [] then [] else Tagged(i, js[..|js| - 1]) + [(i, js[|js| - 1])]
  }

  lemma PairedStep(g: GraphState, xs: seq<Node>, ys: seq<Node>, maxDepth: int, i: int, r: seq<seq<Node>>, pairs: seq<(int, int)>, rs: seq<seq<Node>>, js: seq<int>)
    requires Shaped(g) && 0 <= i < |xs|
    requires Paired(g, xs, ys, maxDepth, i, r, pairs) && Reached(g, xs[i], ys, maxDepth, |ys|, rs, js)
    ensures Paired(g, xs, ys, maxDepth, i + 1, r + rs, pairs + Tagged(i, js))
  {
    PairedPaths(g, xs, ys, maxDepth, i, r, pairs, rs, js);
    PairedOrder(pairs, i, js);
    PairedMisses(g, xs, ys, maxDepth, i, pairs, js);
  }

  lemma PairedPaths(g: GraphState, xs: seq<Node>, ys: seq<Node>, maxDepth: int, i: int, r: seq<seq<Node>>, pairs: seq<(int, int)>, rs: seq<seq<Node>>, js: seq<int>)
    requires Shaped(g) && 0 <= i < |xs| && |pairs| == |r| && |js| == |rs|
    requires forall k | 0 <= k < |r| ::
      0 <= pairs[k].0 < i && 0 <= pairs[k].1 < |ys| && ShortestPath(g, xs[pairs[k].0], ys[pairs[k].1], maxDepth, r[k])
    requires forall k | 0 <= k < |rs| :: 0 <= js[k] < |ys| && ShortestPath(g, xs[i], ys[js[k]], maxDepth, rs[k])
    ensures forall k | 0 <= k < |r| + |rs| ::
      0 <= (pairs + Tagged(i, js))[k].0 < i + 1 && 0 <= (pairs + Tagged(i, js))[k].1 < |ys|
      && ShortestPath(g, xs[(pairs + Tagged(i, js))[k].0], ys[(pairs + Tagged(i, js))[k].1], maxDepth, (r + rs)[k])
  {
    var r', pairs' := r + rs, pairs + Tagged(i, js);
    forall k | 0 <= k < |r'|
      ensures 0 <= pairs'[k].0 < i + 1 && 0 <= pairs'[k].1 < |ys| && ShortestPath(g, xs[pairs'[k].0], ys[pairs'[k].1], maxDepth, r'[k])
    {
      if k < |r| {
        assert pairs'[k] == pairs[k] && r'[k] == r[k];
      } else {
        assert pairs'[k] == (i, js[k - |r|]) && r'[k] == rs[k - |r|];
      }
    }
  }

  lemma PairedOrder(pairs: seq<(int, int)>, i: int, js: seq<int>)
    requires forall k | 0 <= k < |pairs| :: pairs[k].0 < i
    requires forall k, l | 0 <= k < l < |pairs| :: Before(pairs[k], pairs[l])
    requires forall k, l | 0 <= k < l < |js| :: js[k] < js[l]
    ensures forall k, l | 0 <= k < l < |pairs| + |js| :: Before((pairs + Tagged(i, js))[k], (pairs + Tagged(i, js))[l])
  {
    var ps := pairs + Tagged(i, js);
    forall k, l | 0 <= k < l < |ps|
      ensures Before(ps[k], ps[l])
    {
      if l < |pairs| {
        assert ps[k] == pairs[k] && ps[l] == pairs[l];
      } else if k < |pairs| {
        assert ps[k] == pairs[k] && ps[l].0 == i;
      } else {
        assert ps[k] == (i, js[k - |pairs|]) && ps[l] == (i, js[l - |pairs|]);
      }
    }
  }

  lemma PairedMisses(g: GraphState, xs: seq<Node>, ys: seq<Node>, maxDepth: int, i: int, pairs: seq<(int, int)>, js: seq<int>)
    requires Shaped(g) && 0 <= i < |xs|
    requires forall i', j | 0 <= i' < i && 0 <= j < |ys| && (i', j) !in pairs :: i' < |xs| && Unreached(g, xs[i'].id, ys[j].id, maxDepth)
    requires forall j' | 0 <= j' < |ys| && j' !in js :: 0 <= j' < |ys| && Unreached(g, xs[i].id, ys[j'].id, maxDepth)
    ensures forall i', j | 0 <= i' < i + 1 && 0 <= j < |ys| && (i', j) !in pairs + Tagged(i, js) :: i' < |xs| && Unreached(g, xs[i'].id, ys[j].id, maxDepth)
  {
    var ps := pairs + Tagged(i, js);
    forall k | 0 <= k < |js|
      ensures (i, js[k]) in ps
    {
      assert ps[|pairs| + k] == (i, js[k]);
    }
    forall i', j | 0 <= i' < i + 1 && 0 <= j < |ys| && (i', j) !in ps
      ensures i' < |xs| && Unreached(g, xs[i'].id, ys[j].id, maxDepth)
    {
      if i' < i {
        assert (i', j) !in pairs;
      }
    }
  }

  /**
    * The searches from `x` to `ys[..j]`: `rs[k]` is a shortest walk to
    * `ys[js[k]]`, the indexes `js` increase, and no walk of at most `maxDepth`
    * hops reaches a match of `ys[..j]` that `js` leaves out.
    */
  ghost predicate Reached(g: GraphState, x: Node, ys: seq<Node>, maxDepth: int, j: int, rs: seq<seq<Node>>, js: seq<int>)
    requires Shaped(g)
  {
    && |js| == |rs|
    && (forall k | 0 <= k < |rs| :: 0 <= js[k] < j && j <= |ys| && ShortestPath(g, x, ys[js[k]], maxDepth, rs[k]))
    && (forall k, l | 0 <= k < l < |js| :: js[k] < js[l])
    && (forall j' | 0 <= j' < j && j' !in js :: 0 <= j' < |ys| && Unreached(g, x.id, ys[j'].id, maxDepth))
  }

  lemma ReachedFound(g: GraphState, x: Node, ys: seq<Node>, maxDepth: int, j: int, rs: seq<seq<Node>>, js: seq<int>, p: seq<Node>)
    requires Shaped(g) && 0 <= j < |ys| && Reached(g, x, ys, maxDepth, j, rs, js)
    requires ShortestPath(g, x, ys[j], maxDepth, p)
    ensures Reached(g, x, ys, maxDepth, j + 1, rs + [p], js + [j])
  {
    FoundPaths(g, x, ys, maxDepth, j, rs, js, p);
    FoundOrder(js, j);
    FoundMisses(g, x, ys, maxDepth, j, rs, js);
  }

  lemma FoundPaths(g: GraphState, x: Node, ys: seq<Node>, maxDepth: int, j: int, rs: seq<seq<Node>>, js: seq<int>, p: seq<Node>)
    requires Shaped(g) && 0 <= j < |ys| && |js| == |rs|
    requires forall k | 0 <= k < |rs| :: 0 <= js[k] < j && ShortestPath(g, x, ys[js[k]], maxDepth, rs[k])
    requires ShortestPath(g, x, ys[j], maxDepth, p)
    ensures forall k | 0 <= k < |rs| + 1 :: 0 <= (js + [j])[k] < j + 1 && ShortestPath(g, x, ys[(js + [j])[k]], maxDepth, (rs + [p])[k])
  {
    var rs', js' := rs + [p], js + [j];
    forall k | 0 <= k < |rs'|
      ensures 0 <= js'[k] < j + 1 && ShortestPath(g, x, ys[js'[k]], maxDepth, rs'[k])
    {
      if k < |rs| {
        assert js'[k] == js[k] && rs'[k] == rs[k];
      }
    }
  }

  lemma FoundOrder(js: seq<int>, j: int)
    requires (forall k | 0 <= k < |js| :: js[k] < j) && forall k, l | 0 <= k < l < |js| :: js[k] < js[l]
    ensures forall k, l | 0 <= k < l < |js| + 1 :: (js + [j])[k] < (js + [j])[l]
  {
    var js' := js + [j];
    forall k, l | 0 <= k < l < |js'|
      ensures js'[k] < js'[l]
    {
      assert js'[k] == js[k];
    }
  }

  lemma FoundMisses(g: GraphState, x: Node, ys: seq<Node>, maxDepth: int, j: int, rs: seq<seq<Node>>, js: seq<int>)
    requires Shaped(g) && 0 <= j < |ys|
    requires forall j' | 0 <= j' < j && j' !in js :: 0 <= j' < |ys| && Unreached(g, x.id, ys[j'].id, maxDepth)
    ensures forall j' | 0 <= j' < j + 1 && j' !in js + [j] :: 0 <= j' < |ys| && Unreached(g, x.id, ys[j'].id, maxDepth)
  {
    forall j' | 0 <= j' < j + 1 && j' !in js + [j]
      ensures 0 <= j' < |ys| && Unreached(g, x.id, ys[j'].id, maxDepth)
    {
      assert j' !in js;
    }
  }

  lemma ReachedMissed(g: GraphState, x: Node, ys: seq<Node>, maxDepth: int, j: int, rs: seq<seq<Node>>, js: seq<int>)
    requires Shaped(g) && 0 <= j < |ys| && Reached(g, x, ys, maxDepth, j, rs, js)
    requires Unreached(g, x.id, ys[j].id, maxDepth)
    ensures Reached(g, x, ys, maxDepth, j + 1, rs, js)
  {
  }

  lemma Shrinks(all: set<string>, v0: set<string>, v: set<string>)
    requires v0 <= v <= all && v0 != v
    ensures |all - v| < |all - v0|
  {
    var x :| x in v && x !in v0;
    assert all - v <= (all - v0) - {x};
    SubsetCard(all - v, (all - v0) - {x});
  }
}
