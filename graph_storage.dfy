/**
  * `GraphStorage`'s three derived indexes: node ids by name and by name word,
  * node ids by type, and the reverse adjacency map (target, then source, to
  * the edges between them).  `_build_indexes` clears them and fills them from
  * a graph; the value-level functions below say what they then hold.
  */
module GraphStorages {
  import opened Wrappers
  import opened Text
  import opened Dicts
  import opened GraphModels
  import opened RecipeGraphs

  // ---------------------------------------------------------------------------
  // `defaultdict(set)` and `defaultdict(lambda: defaultdict(list))`
  // ---------------------------------------------------------------------------

  /** Reading `index[k]`: the empty set for a key never filled. */
  function Ids<K>(m: map<K, set<string>>, k: K): set<string> {
    if k in m then m[k] else {}
  }

  /** `index[k].add(id)`. */
  function AddId<K>(m: map<K, set<string>>, k: K, id: string): map<K, set<string>> {
    m[k := Ids(m, k) + {id}]
  }

  /** Reading `reverse[t][s]`: the empty list for a cell never filled. */
  function Cell(m: map<string, map<string, seq<Edge>>>, t: string, s: string): seq<Edge> {
    if t in m && s in m[t] then m[t][s] else []
  }

  /** `reverse[e.target_id][e.source_id].append(e)`. */
  function AddReverse(m: map<string, map<string, seq<Edge>>>, e: Edge): map<string, map<string, seq<Edge>>> {
    var row := if e.target in m then m[e.target] else map[];
    m[e.target := row[e.source := Cell(m, e.target, e.source) + [e]]]
  }

  // ---------------------------------------------------------------------------
  // What the indexes hold
  // ---------------------------------------------------------------------------

  /** The keys a node is filed under in the name index: its whole name, and every word of it longer than one character. */
  predicate NameKey(n: Node, k: string) {
    k == n.name || (k in Split(n.name) && |k| > 1)
  }

  /** The inner loop: `for word in words: if len(word) > 1: index[word].add(id)`. */
  function AddWords(m: map<string, set<string>>, ws: seq<string>, id: string): map<string, set<string>> {
    if ws == [] then m
    else
      var w := ws[|ws| - 1];
      var m0 := AddWords(m, ws[..|ws| - 1], id);
      if |w| > 1 then AddId(m0, w, id) else m0
  }

  /** The name index after the first loop of `_build_indexes` over the nodes `ns`. */
  function NameIndexOf(ns: seq<Node>): map<string, set<string>> {
    if ns == [] then map[]
    else
      var n := ns[|ns| - 1];
      AddWords(AddId(NameIndexOf(ns[..|ns| - 1]), n.name, n.id), Split(n.name), n.id)
  }

  /** The type index after the second loop. */
  function TypeIndexOf(ns: seq<Node>): map<NodeType, set<string>> {
    if ns == [] then map[]
    else
      var n := ns[|ns| - 1];
      AddId(TypeIndexOf(ns[..|ns| - 1]), n.kind, n.id)
  }

  /** The reverse adjacency map after the third loop, over the edges `es`. */
  function ReverseOf(es: seq<Edge>): map<string, map<string, seq<Edge>>> {
    if es == [] then map[] else AddReverse(ReverseOf(es[..|es| - 1]), es[|es| - 1])
  }

  // ---------------------------------------------------------------------------
  // The name index
  // ---------------------------------------------------------------------------

  lemma {:induction false} AddWordsMembers(m: map<string, set<string>>, ws: seq<string>, id: string, k: string, x: string)
    ensures x in Ids(AddWords(m, ws, id), k) <==> x in Ids(m, k) || (x == id && k in ws && |k| > 1)
    ensures k in AddWords(m, ws, id) <==> k in m || (k in ws && |k| > 1)
  {
    if ws != [] {
      AddWordsMembers(m, ws[..|ws| - 1], id, k, x);
      assert ws == ws[..|ws| - 1] + [ws[|ws| - 1]];
    }
  }

  /** Some node of `ns` has the id `x` and is filed under `k`. */
  predicate SomeNamed(ns: seq<Node>, k: string, x: string) {
    exists i | 0 <= i < |ns| :: ns[i].id == x && NameKey(ns[i], k)
  }

  lemma SomeNamedStep(ns: seq<Node>, k: string, x: string)
    requires ns != []
    ensures SomeNamed(ns, k, x) <==> SomeNamed(ns[..|ns| - 1], k, x) || (ns[|ns| - 1].id == x && NameKey(ns[|ns| - 1], k))
  {
    var ns0 := ns[..|ns| - 1];
    if SomeNamed(ns, k, x) {
      var i :| 0 <= i < |ns| && ns[i].id == x && NameKey(ns[i], k);
      if i < |ns0| {
        assert ns0[i] == ns[i];
      }
    }
    if SomeNamed(ns0, k, x) {
      var i :| 0 <= i < |ns0| && ns0[i].id == x && NameKey(ns0[i], k);
      assert ns[i] == ns0[i];
    }
  }

  /**
    * The name index files the id of every node under its name and under each
    * of its words longer than one character, and files nothing else.
    */
  lemma {:induction false} NameIndexMembers(ns: seq<Node>, k: string, x: string)
    ensures x in Ids(NameIndexOf(ns), k) <==> SomeNamed(ns, k, x)
  {
    if ns != [] {
      var n := ns[|ns| - 1];
      var m := AddId(NameIndexOf(ns[..|ns| - 1]), n.name, n.id);
      NameIndexMembers(ns[..|ns| - 1], k, x);
      AddWordsMembers(m, Split(n.name), n.id, k, x);
      SomeNamedStep(ns, k, x);
    }
  }

  /** Every key of the name index files at least one id. */
  lemma {:induction false} NameIndexKeys(ns: seq<Node>, k: string)
    requires k in NameIndexOf(ns)
    ensures Ids(NameIndexOf(ns), k) != {}
  {
    var n := ns[|ns| - 1];
    var m0 := NameIndexOf(ns[..|ns| - 1]);
    var m := AddId(m0, n.name, n.id);
    AddWordsMembers(m, Split(n.name), n.id, k, n.id);
    if k in m0 {
      NameIndexKeys(ns[..|ns| - 1], k);
      var y :| y in Ids(m0, k);
      AddWordsMembers(m, Split(n.name), n.id, k, y);
    }
  }

  /** Every key a node is filed under occurs in its name. */
  lemma NameKeyInName(n: Node, k: string)
    requires NameKey(n, k)
    ensures Text.Contains(n.name, k)
  {
    if k == n.name {
      ContainsSelf(k);
    } else {
      SplitTokensOf(n.name, k);
    }
  }

  // ---------------------------------------------------------------------------
  // The type index
  // ---------------------------------------------------------------------------

  /** Some node of `ns` has the id `x` and the type `t`. */
  predicate SomeTyped(ns: seq<Node>, t: NodeType, x: string) {
    exists i | 0 <= i < |ns| :: ns[i].id == x && ns[i].kind == t
  }

  /** `type_index[t]` is exactly the set of ids of the nodes of type `t`. */
  lemma {:induction false} TypeIndexMembers(ns: seq<Node>, t: NodeType, x: string)
    ensures x in Ids(TypeIndexOf(ns), t) <==> SomeTyped(ns, t, x)
  {
    if ns != [] {
      var ns0 := ns[..|ns| - 1];
      TypeIndexMembers(ns0, t, x);
      SomeTypedStep(ns, t, x);
    }
  }

  lemma SomeTypedStep(ns: seq<Node>, t: NodeType, x: string)
    requires ns != []
    ensures SomeTyped(ns, t, x) <==> SomeTyped(ns[..|ns| - 1], t, x) || (ns[|ns| - 1].id == x && ns[|ns| - 1].kind == t)
  {
    var ns0 := ns[..|ns| - 1];
    if SomeTyped(ns, t, x) {
      var i :| 0 <= i < |ns| && ns[i].id == x && ns[i].kind == t;
      if i < |ns0| {
        assert ns0[i] == ns[i];
      }
    }
    if SomeTyped(ns0, t, x) {
      var i :| 0 <= i < |ns0| && ns0[i].id == x && ns0[i].kind == t;
      assert ns[i] == ns0[i];
    }
  }

  // ---------------------------------------------------------------------------
  // The reverse adjacency map
  // ---------------------------------------------------------------------------

  /**
    * `reverse[t][s]` holds the edges from `s` to `t` in edge-list order, and
    * the cell exists exactly when there is one.
    */
  lemma {:induction false} ReverseCells(es: seq<Edge>, t: string, s: string)
    ensures Cell(ReverseOf(es), t, s) == Between(es, s, t)
    ensures (t in ReverseOf(es) && s in ReverseOf(es)[t]) <==> Between(es, s, t) != []
  {
    if es != [] {
      ReverseCells(es[..|es| - 1], t, s);
    }
  }

  // ---------------------------------------------------------------------------
  // The storage object
  // ---------------------------------------------------------------------------

  class GraphStorage {
    var nameIndex: map<string, set<string>>
    var typeIndex: map<NodeType, set<string>>
    var reverseAdjacency: map<string, map<string, seq<Edge>>>

    /** A storage whose indexes are empty. */
    constructor ()
      ensures nameIndex == map[] && typeIndex == map[] && reverseAdjacency == map[]
    {
      nameIndex := map[];
      typeIndex := map[];
      reverseAdjacency := map[];
    }

    /** The indexes are the ones `_build_indexes` makes from the graph state `g`. */
    predicate Synced(g: GraphState)
      reads this
      requires Shaped(g)
    {
      && nameIndex == NameIndexOf(g.nodes.Values())
      && typeIndex == TypeIndexOf(g.nodes.Values())
      && reverseAdjacency == ReverseOf(g.edges)
    }

    /** `_build_indexes`: the three indexes, rebuilt from scratch from the graph. */
    method BuildIndexes(graph: RecipeGraph)
      requires Shaped(graph.State())
      modifies this
      ensures Synced(graph.State())
    {
      var ns := graph.nodes.Values();
      var names := IndexNames(ns);
      var types := IndexTypes(ns);
      var reverse := IndexReverse(graph.edges);
      nameIndex, typeIndex, reverseAdjacency := names, types, reverse;
    }
  }

  /** The name loop of `_build_indexes`. */
  method IndexNames(ns: seq<Node>) returns (m: map<string, set<string>>)
    ensures m == NameIndexOf(ns)
  {
    m := map[];
    for i := 0 to |ns|
      invariant m == NameIndexOf(ns[..i])
    {
      assert ns[..i + 1][..i] == ns[..i];
      var n := ns[i];
      m := AddId(m, n.name, n.id);
      m := IndexWords(m, Split(n.name), n.id);
    }
    assert ns[..|ns|] == ns;
  }

  /** The type loop of `_build_indexes`. */
  method IndexTypes(ns: seq<Node>) returns (m: map<NodeType, set<string>>)
    ensures m == TypeIndexOf(ns)
  {
    m := map[];
    for i := 0 to |ns|
      invariant m == TypeIndexOf(ns[..i])
    {
      assert ns[..i + 1][..i] == ns[..i];
      m := AddId(m, ns[i].kind, ns[i].id);
    }
    assert ns[..|ns|] == ns;
  }

  /** The edge loop of `_build_indexes`. */
  method IndexReverse(es: seq<Edge>) returns (m: map<string, map<string, seq<Edge>>>)
    ensures m == ReverseOf(es)
  {
    m := map[];
    for i := 0 to |es|
      invariant m == ReverseOf(es[..i])
    {
      assert es[..i + 1][..i] == es[..i];
      m := AddReverse(m, es[i]);
    }
    assert es[..|es|] == es;
  }

  /** The word loop of `_build_indexes` for one node. */
  method IndexWords(m: map<string, set<string>>, ws: seq<string>, id: string) returns (r: map<string, set<string>>)
    ensures r == AddWords(m, ws, id)
  {
    r := m;
    assert ws[..0] == [];
    for j := 0 to |ws|
      invariant r == AddWords(m, ws[..j], id)
    {
      assert ws[..j + 1][..j] == ws[..j];
      if |ws[j]| > 1 {
        r := AddId(r, ws[j], id);
      }
    }
    assert ws[..|ws|] == ws;
  }
}
