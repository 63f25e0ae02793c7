/**
  * `RecipeGraphBuilder`'s rules for deriving knowledge from a filled graph:
  * the keyword classifiers for tools and seasonings, the ingredient category
  * table, the category read from a recipe's path, the Jaccard similarity of
  * two dishes' ingredient sets, and the two passes that add PAIRS_WITH edges
  * (ingredients that share more than one dish) and SIMILAR_TO edges (dishes
  * whose similarity exceeds 0.3). Both passes call `add_edge` on the builder's
  * graph and are proved against a fold of `GraphModels.AddEdgeState`.
  */
module GraphBuilders {
  import opened Wrappers
  import opened Text
  import opened Dicts
  import opened Ranking
  import opened GraphModels
  import opened RecipeGraphs
  import opened Trending

  // ---------------------------------------------------------------------------
  // Keyword classifiers
  // ---------------------------------------------------------------------------

  const Seasonings: set<string> := {
    "盐", "糖", "酱油", "生抽", "老抽", "料酒", "醋", "香油", "味精",
    "鸡精", "胡椒粉", "白胡椒粉", "黑胡椒粉", "花椒", "八角", "桂皮",
    "香叶", "干辣椒", "辣椒", "蒜", "姜", "葱", "洋葱", "豆瓣酱",
    "番茄酱", "蚝油", "麻油", "花椒油", "辣椒油", "芝麻油", "橄榄油",
    "花生油", "菜籽油", "色拉油", "食用油", "油"
  }

  const Tools: set<string> := {
    "锅", "炒锅", "平底锅", "砂锅", "电饭煲", "蒸锅", "烤箱", "微波炉",
    "空气炸锅", "高压锅", "汤锅", "炖锅", "刀", "菜刀", "砧板", "铲子",
    "勺子", "筷子", "打蛋器", "搅拌器", "榨汁机", "料理机"
  }

  /** `any(w in item for w in words)`: some keyword occurs in the item. */
  predicate MentionsAny(item: string, words: set<string>) {
    exists w | w in words :: Text.Contains(item, w)
  }

  /** `_is_tool`: some tool keyword occurs in the item, so every tool keyword is itself a tool. */
  predicate IsTool(item: string): (r: bool)
    ensures r <==> exists w | w in Tools :: Text.Contains(item, w)
    ensures item in Tools ==> r
  {
    ContainsSelf(item);
    MentionsAny(item, Tools)
  }

  /** `_is_seasoning`: some seasoning keyword occurs in the item, so every seasoning keyword is itself a seasoning. */
  predicate IsSeasoning(item: string): (r: bool)
    ensures r <==> exists w | w in Seasonings :: Text.Contains(item, w)
    ensures item in Seasonings ==> r
  {
    ContainsSelf(item);
    MentionsAny(item, Seasonings)
  }

  /** `_is_tool_or_seasoning`: a keyword of the two lists together occurs in the item. */
  predicate IsToolOrSeasoning(item: string): (r: bool)
    ensures r <==> MentionsAny(item, Tools + Seasonings)
    ensures item in Tools + Seasonings ==> r
  {
    MentionsUnion(item, Tools, Seasonings);
    IsTool(item) || IsSeasoning(item)
  }

  /** Testing against two word sets in turn is testing against their union. */
  lemma MentionsUnion(item: string, a: set<string>, b: set<string>)
    ensures MentionsAny(item, a) || MentionsAny(item, b) <==> MentionsAny(item, a + b)
  {
    if MentionsAny(item, a + b) {
      var w :| w in a + b && Text.Contains(item, w);
      if w in a {
        assert MentionsAny(item, a);
      } else {
        assert MentionsAny(item, b);
      }
    }
  }

  /**
    * An item is filtered out of the ingredient lists exactly when some tool or
    * seasoning keyword occurs in it; in particular every keyword, and every
    * item that contains one, is filtered out.
    */
  lemma ToolOrSeasoningSpec(item: string)
    ensures IsToolOrSeasoning(item) <==> MentionsAny(item, Tools + Seasonings)
    ensures item in Tools + Seasonings ==> IsToolOrSeasoning(item)
  {
    MentionsUnion(item, Tools, Seasonings);
    if item in Tools + Seasonings {
      ContainsSelf(item);
      assert Text.Contains(item, item);
    }
  }

  /** Containing an item that is classified passes the classification on. */
  lemma MentionsGrows(item: string, part: string, words: set<string>)
    requires Text.Contains(item, part) && MentionsAny(part, words)
    ensures MentionsAny(item, words)
  {
    var w :| w in words && Text.Contains(part, w);
    ContainsTrans(item, part, w);
  }

  // ---------------------------------------------------------------------------
  // First match in a list
  // ---------------------------------------------------------------------------

  /** The index of the first element satisfying `p`, or -1 when there is none. */
  function FirstWhere<T>(xs: seq<T>, p: T -> bool): (k: int)
    ensures -1 <= k < |xs|
    ensures k >= 0 ==> p(xs[k])
    ensures forall j | 0 <= j < |xs| && (k < 0 || j < k) :: !p(xs[j])
  {
    if xs == [] then -1
    else if p(xs[0]) then 0
    else
      var k := FirstWhere(xs[1..], p);
      assert forall j | 1 <= j < |xs| :: xs[j] == xs[1..][j - 1];
      if k < 0 then -1 else k + 1
  }

  // ---------------------------------------------------------------------------
  // Ingredient categories
  // ---------------------------------------------------------------------------

  /** `ingredient_categories`, in the dictionary's insertion order. */
  const Categories: seq<(string, set<string>)> := [
    ("肉类", {"鸡", "鸭", "猪", "牛", "羊", "鱼", "虾", "蟹", "肉", "排骨", "鸡腿", "鸡翅", "牛肉", "猪肉", "羊肉"}),
    ("蔬菜", {"白菜", "萝卜", "土豆", "西红柿", "黄瓜", "茄子", "豆角", "青椒", "红椒", "洋葱", "蒜", "姜", "葱", "韭菜",
              "菠菜", "芹菜", "花菜", "西兰花", "胡萝卜", "冬瓜", "南瓜", "丝瓜", "苦瓜", "豆芽", "蘑菇", "香菇", "金针菇",
              "木耳", "银耳"}),
    ("蛋类", {"鸡蛋", "鸭蛋", "鹌鹑蛋"}),
    ("豆制品", {"豆腐", "豆干", "豆皮", "腐竹", "豆浆"}),
    ("主食", {"米", "面", "面条", "挂面", "意面", "饺子", "包子", "馒头", "饼", "饭", "粥", "汤圆", "馄饨"}),
    ("调料", Seasonings)
  ]

  /** The name of the category at an index of the table, or None for -1. */
  function CategoryAt(k: int): Option<string>
    requires -1 <= k < |Categories|
  {
    if k < 0 then None else Some(Categories[k].0)
  }

  /**
    * `_get_ingredient_category` as written: the first category, in table
    * order, one of whose keywords occurs in the ingredient's name.
    */
  function IngredientCategory(ingredient: string): (r: Option<string>)
    ensures r == None <==> forall j | 0 <= j < |Categories| :: !MentionsAny(ingredient, Categories[j].1)
    ensures r.Some? ==> exists i | 0 <= i < |Categories| ::
      && r.value == Categories[i].0
      && MentionsAny(ingredient, Categories[i].1)
      && forall j | 0 <= j < i :: !MentionsAny(ingredient, Categories[j].1)
  {
    var p := (c: (string, set<string>)) => MentionsAny(ingredient, c.1);
    var k := FirstWhere(Categories, p);
    assert k >= 0 ==> p(Categories[k]);
    CategoryAt(k)
  }

  /**
    * The category is the one at the first index whose keywords match, and
    * None exactly when no category's keywords match.
    */
  lemma IngredientCategorySpec(ingredient: string, i: int)
    requires 0 <= i < |Categories|
    requires MentionsAny(ingredient, Categories[i].1)
    requires forall j | 0 <= j < i :: !MentionsAny(ingredient, Categories[j].1)
    ensures IngredientCategory(ingredient) == Some(Categories[i].0)
  {
    var p := (c: (string, set<string>)) => MentionsAny(ingredient, c.1);
    var k := FirstWhere(Categories, p);
    assert p(Categories[i]);
  }

  lemma IngredientCategoryNone(ingredient: string)
    ensures IngredientCategory(ingredient) == None <==> forall j | 0 <= j < |Categories| :: !MentionsAny(ingredient, Categories[j].1)
  {
    var p := (c: (string, set<string>)) => MentionsAny(ingredient, c.1);
    var k := FirstWhere(Categories, p);
    if k >= 0 {
      assert p(Categories[k]);
    }
  }

  /**
    * "鸡蛋" is listed under 蛋类, but the keyword "鸡" of 肉类 occurs in it and
    * 肉类 comes first, so the rule as written files it under 肉类.
    */
  lemma EggFiledAsMeat()
    ensures "鸡蛋" in Categories[2].1 && Categories[2].0 == "蛋类"
    ensures IngredientCategory("鸡蛋") == Some("肉类")
  {
    assert OccursAt("鸡蛋", "鸡", 0);
    assert MentionsAny("鸡蛋", Categories[0].1);
    IngredientCategorySpec("鸡蛋", 0);
  }

  /** The first category that lists the name itself, or -1. */
  function ListedIndex(ingredient: string): (k: int)
    ensures -1 <= k < |Categories|
  {
    FirstWhere(Categories, (c: (string, set<string>)) => ingredient in c.1)
  }

  /**
    * The category rule as intended: a name that a category lists verbatim
    * belongs to the first category that lists it; any other name falls back
    * to the first keyword match.
    */
  function ListedCategory(ingredient: string): Option<string> {
    var k := ListedIndex(ingredient);
    if k >= 0 then CategoryAt(k) else IngredientCategory(ingredient)
  }

  /** A listed name gets the first category listing it; an unlisted name gets the keyword rule's answer. */
  lemma ListedCategorySpec(ingredient: string, i: int)
    requires 0 <= i < |Categories|
    requires ingredient in Categories[i].1
    requires forall j | 0 <= j < i :: ingredient !in Categories[j].1
    ensures ListedCategory(ingredient) == Some(Categories[i].0)
  {
    var p := (c: (string, set<string>)) => ingredient in c.1;
    var k := FirstWhere(Categories, p);
    assert p(Categories[i]);
  }

  lemma ListedCategoryFallback(ingredient: string)
    requires forall j | 0 <= j < |Categories| :: ingredient !in Categories[j].1
    ensures ListedCategory(ingredient) == IngredientCategory(ingredient)
  {
    var p := (c: (string, set<string>)) => ingredient in c.1;
    assert forall j | 0 <= j < |Categories| :: !p(Categories[j]);
  }

  /** With the intended rule "鸡蛋" is an egg. */
  lemma EggFiledAsEgg()
    ensures ListedCategory("鸡蛋") == Some("蛋类")
  {
    assert "鸡蛋" !in Categories[0].1;
    assert "鸡蛋" !in Categories[1].1;
    ListedCategorySpec("鸡蛋", 2);
  }

  // ---------------------------------------------------------------------------
  // Category from a recipe's path
  // ---------------------------------------------------------------------------

  /**
    * `_extract_category` over the path's components: the component right after
    * the first "dishes", or None when there is no "dishes" or it comes last.
    */
  function ExtractCategory(parts: seq<string>): (r: Option<string>)
    ensures "dishes" !in parts ==> r == None
    ensures forall i | 0 <= i < |parts| && parts[i] == "dishes" && "dishes" !in parts[..i] ::
      r == if i + 1 < |parts| then Some(parts[i + 1]) else None
  {
    var k := FirstWhere(parts, (s: string) => s == "dishes");
    if 0 <= k && k + 1 < |parts| then Some(parts[k + 1]) else None
  }

  // ---------------------------------------------------------------------------
  // Dish similarity
  // ---------------------------------------------------------------------------

  /** `set(n.id for n in ns)`. */
  function IdSet(ns: seq<Node>): set<string> {
    set k | 0 <= k < |ns| :: ns[k].id
  }

  /** The ids of a dish's CONTAINS neighbours, as a set. */
  function IngredientIdSet(g: GraphState, d: Node): set<string>
    requires Shaped(g)
  {
    IdSet(Neighbors(g, d.id, Some(Contains)))
  }

  /** The similarity of two ingredient id sets: 0 when either is empty, else their Jaccard ratio. */
  function SetSimilarity(a: set<string>, b: set<string>): real {
    if a == {} || b == {} then 0.0 else Jaccard(a, b)
  }

  /** `_calculate_dish_similarity`. */
  function DishSimilarity(g: GraphState, d1: Node, d2: Node): (s: real)
    requires Shaped(g)
    ensures 0.0 <= s <= 1.0
    ensures s == SetSimilarity(IngredientIdSet(g, d2), IngredientIdSet(g, d1))
    ensures IngredientIdSet(g, d1) == {} || IngredientIdSet(g, d2) == {} ==> s == 0.0
  {
    SetSimilaritySpec(IngredientIdSet(g, d1), IngredientIdSet(g, d2));
    SetSimilarity(IngredientIdSet(g, d1), IngredientIdSet(g, d2))
  }

  /** In a consistent graph a dish's ingredient ids are the stored nodes a CONTAINS edge joins to it, either way. */
  lemma IngredientIdsMembers(g: GraphState, d: Node, id: string)
    requires Consistent(g)
    ensures id in IngredientIdSet(g, d) <==> id in g.nodes.vals && Adjacent(g, d.id, id, Some(Contains))
  {
    var ns := Neighbors(g, d.id, Some(Contains));
    if id in g.nodes.vals {
      NeighborMember(g, d.id, g.nodes.vals[id], Some(Contains));
    }
    if id in IngredientIdSet(g, d) {
      var k :| 0 <= k < |ns| && ns[k].id == id;
      NeighborMember(g, d.id, ns[k], Some(Contains));
    }
  }

  /**
    * The similarity of two sets is symmetric and lies in [0, 1]; it is 0 when
    * either set is empty; it is positive exactly when they share an element;
    * and it is 1 exactly when they are equal and not empty.
    */
  lemma SetSimilaritySpec(a: set<string>, b: set<string>)
    ensures var s := SetSimilarity(a, b);
      && 0.0 <= s <= 1.0
      && s == SetSimilarity(b, a)
      && (a == {} || b == {} ==> s == 0.0)
      && (s > 0.0 <==> a * b != {})
      && (s == 1.0 <==> a == b && a != {})
  {
    JaccardBounds(a, b);
    JaccardOne(a, b);
    if a * b != {} {
      var x :| x in a * b;
      SubsetCard({x}, a * b);
      SubsetCard(a * b, a + b);
      assert (|a * b| as real) / (|a + b| as real) > 0.0;
    }
  }

  /** What the set-level facts say about two dishes of a graph. */
  lemma DishSimilaritySpec(g: GraphState, d1: Node, d2: Node)
    requires Shaped(g)
    ensures var s, a, b := DishSimilarity(g, d1, d2), IngredientIdSet(g, d1), IngredientIdSet(g, d2);
      && 0.0 <= s <= 1.0
      && s == DishSimilarity(g, d2, d1)
      && (a == {} || b == {} ==> s == 0.0)
      && (s > 0.0 <==> a * b != {})
      && (s == 1.0 <==> a == b && a != {})
  {
    SetSimilaritySpec(IngredientIdSet(g, d1), IngredientIdSet(g, d2));
  }

  // ---------------------------------------------------------------------------
  // Adding edges of another type keeps CONTAINS neighbours
  // ---------------------------------------------------------------------------

  lemma HasTypeSnoc(cell: seq<Edge>, e: Edge, t: EdgeType)
    requires e.kind != t
    ensures HasType(cell + [e], Some(t)) == HasType(cell, Some(t))
  {
    var cell' := cell + [e];
    if HasType(cell', Some(t)) {
      var i :| 0 <= i < |cell'| && cell'[i].kind == t;
      assert cell[i] == cell'[i];
    }
    if HasType(cell, Some(t)) {
      var i :| 0 <= i < |cell| && cell[i].kind == t;
      assert cell'[i] == cell[i];
    }
  }

  lemma {:induction false} OutPartSame(nodes: Dict<string, Node>, row: Dict<string, seq<Edge>>, row': Dict<string, seq<Edge>>, ks: seq<string>, t: EdgeType)
    requires KeyedById(nodes)
    requires forall k | k in ks :: k in row.vals && k in row'.vals && HasType(row'.vals[k], Some(t)) == HasType(row.vals[k], Some(t))
    ensures OutPart(nodes, row', ks, Some(t)) == OutPart(nodes, row, ks, Some(t))
  {
    if ks != [] {
      OutPartSame(nodes, row, row', ks[..|ks| - 1], t);
    }
  }

  lemma {:induction false} InPartSame(nodes: Dict<string, Node>, adj: Dict<string, Dict<string, seq<Edge>>>, adj': Dict<string, Dict<string, seq<Edge>>>,
                                      ks: seq<string>, id: string, t: EdgeType)
    requires KeyedById(nodes)
    requires forall k | k in ks :: k in adj.vals && k in adj'.vals && Feeds(adj', k, id, Some(t)) == Feeds(adj, k, id, Some(t))
    ensures InPart(nodes, adj', ks, id, Some(t)) == InPart(nodes, adj, ks, id, Some(t))
  {
    if ks != [] {
      InPartSame(nodes, adj, adj', ks[..|ks| - 1], id, t);
    }
  }

  /** A row after a new edge is appended to its cell for the edge's target. */
  function FileInRow(row: Dict<string, seq<Edge>>, e: Edge): Dict<string, seq<Edge>> {
    row.Put(e.target, row.Get(e.target, []) + [e])
  }

  /** The adjacency dictionary after a new edge is filed in the cell of its source and target. */
  function FileEdge(adj: Dict<string, Dict<string, seq<Edge>>>, e: Edge): Dict<string, Dict<string, seq<Edge>>> {
    adj.Put(e.source, FileInRow(adj.Get(e.source, EmptyDict()), e))
  }

  /** A new edge of another type changes no row's answer to "has a cell for `id` with a `t` edge". */
  lemma FeedsSame(adj: Dict<string, Dict<string, seq<Edge>>>, e: Edge, k: string, id: string, t: EdgeType)
    requires e.kind != t && k in adj.vals
    ensures k in FileEdge(adj, e).vals
    ensures Feeds(FileEdge(adj, e), k, id, Some(t)) == Feeds(adj, k, id, Some(t))
  {
    var row := adj.Get(e.source, EmptyDict());
    HasTypeSnoc(row.Get(e.target, []), e, t);
  }

  /** Filing a new edge of another type in an existing cell keeps the row's out-neighbours. */
  lemma CellOutSame(nodes: Dict<string, Node>, row: Dict<string, seq<Edge>>, e: Edge, t: EdgeType)
    requires KeyedById(nodes) && e.kind != t && row.Valid() && e.target in row.vals
    ensures FileInRow(row, e).keys == row.keys
    ensures OutPart(nodes, FileInRow(row, e), row.keys, Some(t)) == OutPart(nodes, row, row.keys, Some(t))
  {
    HasTypeSnoc(row.vals[e.target], e, t);
    OutPartSame(nodes, row, FileInRow(row, e), row.keys, t);
  }

  /** Filing a new edge of another type in a new cell keeps the row's out-neighbours. */
  lemma NewCellOutSame(nodes: Dict<string, Node>, row: Dict<string, seq<Edge>>, e: Edge, t: EdgeType)
    requires KeyedById(nodes) && e.kind != t && e.target !in row.vals
    requires forall k | k in row.keys :: k in row.vals
    ensures FileInRow(row, e).keys == row.keys + [e.target]
    ensures OutPart(nodes, FileInRow(row, e), row.keys + [e.target], Some(t)) == OutPart(nodes, row, row.keys, Some(t))
  {
    var row' := FileInRow(row, e);
    OutPartSame(nodes, row, row', row.keys, t);
    var ks' := row.keys + [e.target];
    assert ks'[..|ks'| - 1] == row.keys;
    HasTypeSnoc([], e, t);
    assert row'.vals[e.target] == [] + [e];
  }

  /** Filing a new edge of another type in a row keeps the row's out-neighbours. */
  lemma RowOutSame(nodes: Dict<string, Node>, row: Dict<string, seq<Edge>>, e: Edge, t: EdgeType)
    requires KeyedById(nodes) && e.kind != t && row.Valid()
    ensures FileInRow(row, e).Valid()
    ensures OutPart(nodes, FileInRow(row, e), FileInRow(row, e).keys, Some(t)) == OutPart(nodes, row, row.keys, Some(t))
  {
    if e.target in row.vals {
      CellOutSame(nodes, row, e, t);
    } else {
      NewCellOutSame(nodes, row, e, t);
    }
  }

  /** The out-neighbour part of `id` is unchanged by a new edge of another type. */
  lemma OutSame(nodes: Dict<string, Node>, adj: Dict<string, Dict<string, seq<Edge>>>, e: Edge, id: string, t: EdgeType)
    requires KeyedById(nodes) && e.kind != t
    requires id in adj.vals ==> adj.vals[id].Valid()
    ensures id in FileEdge(adj, e).vals ==> FileEdge(adj, e).vals[id].Valid()
    ensures var adj' := FileEdge(adj, e);
      (if id in adj'.vals then OutPart(nodes, adj'.vals[id], adj'.vals[id].keys, Some(t)) else []) ==
      (if id in adj.vals then OutPart(nodes, adj.vals[id], adj.vals[id].keys, Some(t)) else [])
  {
    if id == e.source {
      var row := adj.Get(e.source, EmptyDict());
      RowOutSame(nodes, row, e, t);
      if id !in adj.vals {
        assert row.keys == [];
      }
    }
  }

  /** Every key of the dictionary's key list has a value. */
  predicate KeysHaveValues<K, V>(d: Dict<K, V>) {
    forall k | k in d.keys :: k in d.vals
  }

  /** The rows already present keep their in-neighbour contribution. */
  lemma OldRowsInSame(nodes: Dict<string, Node>, adj: Dict<string, Dict<string, seq<Edge>>>, e: Edge, id: string, t: EdgeType)
    requires KeyedById(nodes) && e.kind != t && KeysHaveValues(adj)
    ensures KeysHaveValues(FileEdge(adj, e))
    ensures InPart(nodes, FileEdge(adj, e), adj.keys, id, Some(t)) == InPart(nodes, adj, adj.keys, id, Some(t))
  {
    var adj' := FileEdge(adj, e);
    forall k | k in adj.keys
      ensures k in adj.vals && k in adj'.vals && Feeds(adj', k, id, Some(t)) == Feeds(adj, k, id, Some(t))
    {
      FeedsSame(adj, e, k, id, t);
    }
    InPartSame(nodes, adj, adj', adj.keys, id, t);
  }

  /** A row created for the new edge's source contributes no `t` in-neighbour. */
  lemma NewRowInSame(nodes: Dict<string, Node>, adj: Dict<string, Dict<string, seq<Edge>>>, e: Edge, id: string, t: EdgeType)
    requires KeyedById(nodes) && e.kind != t && KeysHaveValues(adj) && e.source !in adj.vals
    requires KeysHaveValues(FileEdge(adj, e))
    ensures FileEdge(adj, e).keys == adj.keys + [e.source]
    ensures InPart(nodes, FileEdge(adj, e), adj.keys + [e.source], id, Some(t)) == InPart(nodes, FileEdge(adj, e), adj.keys, id, Some(t))
  {
    var adj' := FileEdge(adj, e);
    var ks' := adj.keys + [e.source];
    assert ks'[..|ks'| - 1] == adj.keys;
    HasTypeSnoc([], e, t);
    var row' := adj'.vals[e.source];
    assert row' == EmptyDict<string, seq<Edge>>().Put(e.target, [] + [e]);
    assert !Feeds(adj', e.source, id, Some(t));
  }

  /** The in-neighbour part of `id` is unchanged by a new edge of another type. */
  lemma InSame(nodes: Dict<string, Node>, adj: Dict<string, Dict<string, seq<Edge>>>, e: Edge, id: string, t: EdgeType)
    requires KeyedById(nodes) && e.kind != t && KeysHaveValues(adj)
    ensures KeysHaveValues(FileEdge(adj, e))
    ensures InPart(nodes, FileEdge(adj, e), FileEdge(adj, e).keys, id, Some(t)) == InPart(nodes, adj, adj.keys, id, Some(t))
  {
    OldRowsInSame(nodes, adj, e, id, t);
    if e.source !in adj.vals {
      NewRowInSame(nodes, adj, e, id, t);
    }
  }

  /** `add_edge` keeps the dictionaries well formed. */
  lemma AddEdgeKeepsShape(g: GraphState, e: Edge)
    requires Shaped(g)
    ensures Shaped(AddEdgeState(g, e))
  {
    if !HasEdge(g.edges, e) {
      var adj' := AddEdgeState(g, e).adjacency;
      assert adj' == FileEdge(g.adjacency, e);
      assert g.adjacency.Get(e.source, EmptyDict()).Valid();
    }
  }

  /** `add_edge` with an edge of another type keeps every node's `t` neighbours. */
  lemma AddEdgeKeepsNeighbors(g: GraphState, e: Edge, id: string, t: EdgeType)
    requires Shaped(g) && e.kind != t
    ensures Shaped(AddEdgeState(g, e))
    ensures Neighbors(AddEdgeState(g, e), id, Some(t)) == Neighbors(g, id, Some(t))
  {
    AddEdgeKeepsShape(g, e);
    if !HasEdge(g.edges, e) {
      assert AddEdgeState(g, e).adjacency == FileEdge(g.adjacency, e);
      OutSame(g.nodes, g.adjacency, e, id, t);
      InSame(g.nodes, g.adjacency, e, id, t);
    }
  }

  // ---------------------------------------------------------------------------
  // A run of add_edge calls
  // ---------------------------------------------------------------------------

  /** Every edge of the list has the type. */
  predicate OfKind(es: seq<Edge>, t: EdgeType) {
    forall i | 0 <= i < |es| :: es[i].kind == t
  }

  /** The graph after `add_edge` is called with each edge of `es` in turn. */
  function AddEdges(g: GraphState, es: seq<Edge>): GraphState {
    if es == [] then g else AddEdgeState(AddEdges(g, es[..|es| - 1]), es[|es| - 1])
  }

  lemma AddEdgesSnoc(g: GraphState, es: seq<Edge>, e: Edge)
    ensures AddEdges(g, es + [e]) == AddEdgeState(AddEdges(g, es), e)
  {
    assert (es + [e])[..|es|] == es;
  }

  /** Every edge of the run is stored when the run has an edge of its key. */
  predicate AllFiled(stored: seq<Edge>, es: seq<Edge>) {
    forall i | 0 <= i < |es| :: HasEdge(stored, es[i])
  }

  /** Every stored edge past the old ones is an edge of the run. */
  predicate OnlyFrom(stored: seq<Edge>, old_: seq<Edge>, es: seq<Edge>) {
    |old_| <= |stored| && stored[..|old_|] == old_ && forall i | |old_| <= i < |stored| :: stored[i] in es
  }

  /** A run of `add_edge` calls keeps the invariant and the nodes. */
  lemma {:induction false} AddEdgesConsistent(g: GraphState, es: seq<Edge>)
    requires Consistent(g)
    ensures Consistent(AddEdges(g, es)) && AddEdges(g, es).nodes == g.nodes
  {
    if es != [] {
      AddEdgesConsistent(g, es[..|es| - 1]);
      AddEdgeSpec(AddEdges(g, es[..|es| - 1]), es[|es| - 1]);
    }
  }

  /** After `add_edge(e)` an equal edge is stored, and so is an equal edge of every edge stored before. */
  lemma HasEdgeAfter(g: GraphState, e: Edge, x: Edge)
    ensures HasEdge(AddEdgeState(g, e).edges, e)
    ensures HasEdge(g.edges, x) ==> HasEdge(AddEdgeState(g, e).edges, x)
  {
    var es' := AddEdgeState(g, e).edges;
    AddEdgeEdges(g, e);
    if !HasEdge(g.edges, e) {
      assert es'[|g.edges|] == e;
    }
    if HasEdge(g.edges, x) {
      var j :| 0 <= j < |g.edges| && g.edges[j].Key() == x.Key();
      assert es'[j] == g.edges[j];
    }
  }

  /** After the run every edge of it has an equal stored edge: either it was added or an equal one was already there. */
  lemma {:induction false} AddEdgesFiled(g: GraphState, es: seq<Edge>)
    ensures AllFiled(AddEdges(g, es).edges, es)
  {
    if es != [] {
      var es0, e := es[..|es| - 1], es[|es| - 1];
      AddEdgesFiled(g, es0);
      var g0 := AddEdges(g, es0);
      forall i | 0 <= i < |es|
        ensures HasEdge(AddEdgeState(g0, e).edges, es[i])
      {
        HasEdgeAfter(g0, e, es[i]);
        if i < |es0| {
          assert es[i] == es0[i];
        }
      }
    }
  }

  /** After the run the old edges come first, and every edge after them comes from the run. */
  lemma {:induction false} AddEdgesOnly(g: GraphState, es: seq<Edge>)
    ensures OnlyFrom(AddEdges(g, es).edges, g.edges, es)
  {
    if es != [] {
      var es0, e := es[..|es| - 1], es[|es| - 1];
      AddEdgesOnly(g, es0);
      var g0 := AddEdges(g, es0);
      AddEdgeEdges(g0, e);
      var stored := AddEdgeState(g0, e).edges;
      forall i | |g.edges| <= i < |stored|
        ensures stored[i] in es
      {
        if i < |g0.edges| {
          assert stored[i] == g0.edges[i];
          assert g0.edges[i] in es0;
        }
      }
      assert stored[..|g.edges|] == g0.edges[..|g.edges|];
    }
  }

  /** A run of `add_edge` calls with edges of type `k` only keeps every node's `t` neighbours, for any other type `t`. */
  lemma {:induction false} AddEdgesKeepNeighbors(g: GraphState, es: seq<Edge>, k: EdgeType, id: string, t: EdgeType)
    requires Shaped(g) && OfKind(es, k) && k != t
    ensures Shaped(AddEdges(g, es))
    ensures Neighbors(AddEdges(g, es), id, Some(t)) == Neighbors(g, id, Some(t))
  {
    if es != [] {
      AddEdgesKeepNeighbors(g, es[..|es| - 1], k, id, t);
      AddEdgeKeepsNeighbors(AddEdges(g, es[..|es| - 1]), es[|es| - 1], id, t);
    }
  }

  // ---------------------------------------------------------------------------
  // Ingredient pairings
  // ---------------------------------------------------------------------------

  /** `[ing.id for ing in ingredients]`. */
  function Ids(ns: seq<Node>): seq<string> {
    seq(|ns|, k requires 0 <= k < |ns| => ns[k].id)
  }

  /** The ids of a dish's CONTAINS neighbours, in the order `get_neighbors` lists them. */
  function IngredientIds(g: GraphState, d: Node): seq<string>
    requires Shaped(g)
  {
    Ids(Neighbors(g, d.id, Some(Contains)))
  }

  /** The co-occurrence counter of a sorted id pair after the loop over the dishes `ds`. */
  function Cooccurrence(g: GraphState, ds: seq<Node>, p: Pair): nat
    requires Shaped(g)
  {
    if ds == [] then 0 else Cooccurrence(g, ds[..|ds| - 1], p) + DishPairs(IngredientIds(g, ds[|ds| - 1]), p)
  }

  /**
    * A pair is counted only when some dish lists its two ids at two
    * positions, and a counted pair has the smaller id first.
    */
  lemma {:induction false} CooccurrenceSorted(g: GraphState, ds: seq<Node>, p: Pair)
    requires Shaped(g)
    requires Cooccurrence(g, ds, p) > 0
    ensures !StrLess(p.1, p.0)
    ensures exists k | 0 <= k < |ds| :: IndexPairs(IngredientIds(g, ds[k]), p) != {}
  {
    var ds0, d := ds[..|ds| - 1], ds[|ds| - 1];
    if Cooccurrence(g, ds0, p) > 0 {
      CooccurrenceSorted(g, ds0, p);
      var k :| 0 <= k < |ds0| && IndexPairs(IngredientIds(g, ds0[k]), p) != {};
      assert ds[k] == ds0[k];
    } else {
      DishPairsSorted(IngredientIds(g, d), p);
      DishPairsCount(IngredientIds(g, d), p);
      assert IndexPairs(IngredientIds(g, ds[|ds| - 1]), p) != {};
    }
  }

  /** The PAIRS_WITH edge of a pair: from the first id to the second, weighted by the count. */
  function PairingEdge(p: Pair, count: nat): Edge {
    Edge(p.0, p.1, PairsWith, count as real, map[])
  }

  /** The edges the second loop adds, visiting the counter's pairs in the order `order`. */
  function PairingEdges(g: GraphState, ds: seq<Node>, order: seq<Pair>): (r: seq<Edge>)
    requires Shaped(g)
    ensures OfKind(r, PairsWith)
  {
    if order == [] then []
    else
      var p := order[|order| - 1];
      var count := Cooccurrence(g, ds, p);
      PairingEdges(g, ds, order[..|order| - 1]) + (if count > 1 then [PairingEdge(p, count)] else [])
  }

  /** An edge is added exactly when it is the edge of a visited pair whose count exceeds 1. */
  lemma {:induction false} PairingEdgesMember(g: GraphState, ds: seq<Node>, order: seq<Pair>, e: Edge)
    requires Shaped(g)
    ensures var p := (e.source, e.target);
      e in PairingEdges(g, ds, order) <==> p in order && Cooccurrence(g, ds, p) > 1 && e == PairingEdge(p, Cooccurrence(g, ds, p))
  {
    if order != [] {
      PairingEdgesMember(g, ds, order[..|order| - 1], e);
      assert order == order[..|order| - 1] + [order[|order| - 1]];
    }
  }

  /**
    * `_build_ingredient_pairings`, given the counter's pairs in its iteration
    * order: the old edges are kept and come first; every pair counted more
    * than once gets a stored PAIRS_WITH edge of its key; and every edge
    * added runs from the smaller to the larger id of a pair counted more than
    * once, weighted by its count.
    */
  lemma PairingsBuilt(g: GraphState, ds: seq<Node>, order: seq<Pair>)
    requires Consistent(g)
    requires forall p :: p in order <==> Cooccurrence(g, ds, p) > 0
    ensures var g' := AddEdges(g, PairingEdges(g, ds, order));
      && Consistent(g')
      && g'.nodes == g.nodes
      && |g.edges| <= |g'.edges|
      && g'.edges[..|g.edges|] == g.edges
      && (forall p | Cooccurrence(g, ds, p) > 1 :: HasEdge(g'.edges, PairingEdge(p, Cooccurrence(g, ds, p))))
      && (forall i | |g.edges| <= i < |g'.edges| ::
            var e := g'.edges[i];
            && Cooccurrence(g, ds, (e.source, e.target)) > 1
            && e == PairingEdge((e.source, e.target), Cooccurrence(g, ds, (e.source, e.target)))
            && !StrLess(e.target, e.source))
  {
    var es := PairingEdges(g, ds, order);
    var g' := AddEdges(g, es);
    AddEdgesConsistent(g, es);
    AddEdgesFiled(g, es);
    AddEdgesOnly(g, es);
    forall p | Cooccurrence(g, ds, p) > 1
      ensures HasEdge(g'.edges, PairingEdge(p, Cooccurrence(g, ds, p)))
    {
      var e := PairingEdge(p, Cooccurrence(g, ds, p));
      PairingEdgesMember(g, ds, order, e);
      var k :| 0 <= k < |es| && es[k] == e;
    }
    forall i | |g.edges| <= i < |g'.edges|
      ensures var e := g'.edges[i];
        && Cooccurrence(g, ds, (e.source, e.target)) > 1
        && e == PairingEdge((e.source, e.target), Cooccurrence(g, ds, (e.source, e.target)))
        && !StrLess(e.target, e.source)
    {
      var e := g'.edges[i];
      PairingEdgesMember(g, ds, order, e);
      CooccurrenceSorted(g, ds, (e.source, e.target));
    }
  }

  // ---------------------------------------------------------------------------
  // Similar dishes
  // ---------------------------------------------------------------------------

  /** The similarity function of a graph's dishes. */
  function Similarity(g: GraphState): (Node, Node) -> real {
    (d1: Node, d2: Node) => if Shaped(g) then DishSimilarity(g, d1, d2) else 0.0
  }

  /** The SIMILAR_TO edge from `d1` to `d2`, weighted by their similarity. */
  function SimilarEdge(sim: (Node, Node) -> real, d1: Node, d2: Node): Edge {
    Edge(d1.id, d2.id, SimilarTo, sim(d1, d2), map[])
  }

  /** The inner loop for dish `i`, up to (not including) dish `hi`: an edge to each later dish more than 0.3 similar. */
  function SimilarRow(sim: (Node, Node) -> real, ds: seq<Node>, i: int, hi: int): seq<Edge>
    requires 0 <= i < |ds| && hi <= |ds|
    decreases hi
  {
    if hi <= i + 1 then []
    else
      var d := ds[hi - 1];
      SimilarRow(sim, ds, i, hi - 1) + (if sim(ds[i], d) > 0.3 then [SimilarEdge(sim, ds[i], d)] else [])
  }

  /** The edges both loops add for the first `n` dishes of the outer loop. */
  function SimilarEdges(sim: (Node, Node) -> real, ds: seq<Node>, n: int): seq<Edge>
    requires 0 <= n <= |ds|
  {
    if n == 0 then [] else SimilarEdges(sim, ds, n - 1) + SimilarRow(sim, ds, n - 1, |ds|)
  }

  /** The edges added by the similarity pass are all SIMILAR_TO edges. */
  lemma SimilarKinds(sim: (Node, Node) -> real, ds: seq<Node>, n: int, hi: int)
    requires 0 <= n < |ds| && hi <= |ds|
    ensures OfKind(SimilarEdges(sim, ds, n) + SimilarRow(sim, ds, n, hi), SimilarTo)
  {
    var es := SimilarEdges(sim, ds, n) + SimilarRow(sim, ds, n, hi);
    forall k | 0 <= k < |es|
      ensures es[k].kind == SimilarTo
    {
      if k < |SimilarEdges(sim, ds, n)| {
        var i, j := EdgesSource(sim, ds, n, es[k]);
      } else {
        var j := RowSource(sim, ds, n, hi, es[k]);
      }
    }
  }

  /** Dishes `i < j` of the list are more than 0.3 similar and `e` is the edge from `i` to `j`. */
  predicate SimilarAt(sim: (Node, Node) -> real, ds: seq<Node>, i: int, j: int, e: Edge) {
    0 <= i < j < |ds| && sim(ds[i], ds[j]) > 0.3 && e == SimilarEdge(sim, ds[i], ds[j])
  }

  /** Each later dish more than 0.3 similar to dish `i` gets its edge in the row. */
  lemma {:induction false} RowHas(sim: (Node, Node) -> real, ds: seq<Node>, i: int, j: int, hi: int)
    requires 0 <= i < j < hi <= |ds| && sim(ds[i], ds[j]) > 0.3
    ensures SimilarEdge(sim, ds[i], ds[j]) in SimilarRow(sim, ds, i, hi)
    decreases hi
  {
    if j < hi - 1 {
      RowHas(sim, ds, i, j, hi - 1);
    }
  }

  /** Each edge of the row of dish `i` is the edge to a later dish more than 0.3 similar. */
  lemma {:induction false} RowSource(sim: (Node, Node) -> real, ds: seq<Node>, i: int, hi: int, e: Edge) returns (j: int)
    requires 0 <= i < |ds| && hi <= |ds|
    requires e in SimilarRow(sim, ds, i, hi)
    ensures j < hi && SimilarAt(sim, ds, i, j, e)
    decreases hi
  {
    var d := ds[hi - 1];
    if sim(ds[i], d) > 0.3 && e == SimilarEdge(sim, ds[i], d) {
      j := hi - 1;
    } else {
      j := RowSource(sim, ds, i, hi - 1, e);
    }
  }

  /** Each pair of dishes `i < j` more than 0.3 similar, with `i` among the first `n`, gets its edge. */
  lemma {:induction false} EdgesHas(sim: (Node, Node) -> real, ds: seq<Node>, i: int, j: int, n: int)
    requires 0 <= i < n <= |ds| && i < j < |ds| && sim(ds[i], ds[j]) > 0.3
    ensures SimilarEdge(sim, ds[i], ds[j]) in SimilarEdges(sim, ds, n)
    decreases n
  {
    var before, row := SimilarEdges(sim, ds, n - 1), SimilarRow(sim, ds, n - 1, |ds|);
    assert SimilarEdges(sim, ds, n) == before + row;
    if i < n - 1 {
      EdgesHas(sim, ds, i, j, n - 1);
    } else {
      RowHas(sim, ds, i, j, |ds|);
    }
    InAppend(SimilarEdge(sim, ds[i], ds[j]), before, row);
  }

  /** Membership in a concatenation is membership in one of its parts. */
  lemma InAppend<T>(x: T, a: seq<T>, b: seq<T>)
    ensures x in a + b <==> x in a || x in b
  {
  }

  /** Each edge of the first `n` rows is the edge of a pair of dishes `i < j` more than 0.3 similar. */
  lemma {:induction false} EdgesSource(sim: (Node, Node) -> real, ds: seq<Node>, n: int, e: Edge) returns (i: int, j: int)
    requires 0 <= n <= |ds|
    requires e in SimilarEdges(sim, ds, n)
    ensures i < n && SimilarAt(sim, ds, i, j, e)
    decreases n
  {
    assert n > 0;
    var before, row := SimilarEdges(sim, ds, n - 1), SimilarRow(sim, ds, n - 1, |ds|);
    InAppend(e, before, row);
    if e in before {
      i, j := EdgesSource(sim, ds, n - 1, e);
    } else {
      i := n - 1;
      j := RowSource(sim, ds, n - 1, |ds|, e);
    }
  }

  /** Some dish of the list and some later dish more than 0.3 similar account for `e`. */
  ghost predicate FromSimilarPair(sim: (Node, Node) -> real, ds: seq<Node>, e: Edge) {
    exists i, j :: SimilarAt(sim, ds, i, j, e)
  }

  /**
    * `_build_similar_dishes`: the old edges are kept and come first; every
    * pair of dishes `i < j` of the list more than 0.3 similar gets a stored
    * SIMILAR_TO edge of its key; and every edge added runs from an earlier to
    * a later dish more than 0.3 similar, weighted by the similarity.
    */
  lemma SimilarBuilt(g: GraphState, ds: seq<Node>)
    requires Consistent(g)
    ensures var sim := Similarity(g);
      var g' := AddEdges(g, SimilarEdges(sim, ds, |ds|));
      && Consistent(g')
      && g'.nodes == g.nodes
      && |g.edges| <= |g'.edges|
      && g'.edges[..|g.edges|] == g.edges
      && (forall i, j | 0 <= i < j < |ds| && DishSimilarity(g, ds[i], ds[j]) > 0.3 ::
            HasEdge(g'.edges, Edge(ds[i].id, ds[j].id, SimilarTo, DishSimilarity(g, ds[i], ds[j]), map[])))
      && (forall k | |g.edges| <= k < |g'.edges| :: FromSimilarPair(sim, ds, g'.edges[k]))
  {
    var sim := Similarity(g);
    var es := SimilarEdges(sim, ds, |ds|);
    var g' := AddEdges(g, es);
    AddEdgesConsistent(g, es);
    AddEdgesFiled(g, es);
    AddEdgesOnly(g, es);
    forall i, j | 0 <= i < j < |ds| && DishSimilarity(g, ds[i], ds[j]) > 0.3
      ensures HasEdge(g'.edges, Edge(ds[i].id, ds[j].id, SimilarTo, DishSimilarity(g, ds[i], ds[j]), map[]))
    {
      var e := SimilarEdge(sim, ds[i], ds[j]);
      EdgesHas(sim, ds, i, j, |ds|);
      var k :| 0 <= k < |es| && es[k] == e;
    }
    forall k | |g.edges| <= k < |g'.edges|
      ensures FromSimilarPair(sim, ds, g'.edges[k])
    {
      var i, j := EdgesSource(sim, ds, |ds|, g'.edges[k]);
    }
  }

  /** Two similarity functions agree on every pair of dishes of the list. */
  ghost predicate Agree(sim: (Node, Node) -> real, sim': (Node, Node) -> real, ds: seq<Node>) {
    forall i, j | 0 <= i < |ds| && 0 <= j < |ds| :: sim(ds[i], ds[j]) == sim'(ds[i], ds[j])
  }

  lemma {:induction false} SimilarRowAgree(sim: (Node, Node) -> real, sim': (Node, Node) -> real, ds: seq<Node>, i: int, hi: int)
    requires 0 <= i < |ds| && hi <= |ds|
    requires Agree(sim, sim', ds)
    ensures SimilarRow(sim, ds, i, hi) == SimilarRow(sim', ds, i, hi)
    decreases hi
  {
    if hi > i + 1 {
      SimilarRowAgree(sim, sim', ds, i, hi - 1);
      assert sim(ds[i], ds[hi - 1]) == sim'(ds[i], ds[hi - 1]);
    }
  }

  /** Two similarity functions that agree on the dishes give the same edges. */
  lemma {:induction false} SimilarEdgesAgree(sim: (Node, Node) -> real, sim': (Node, Node) -> real, ds: seq<Node>, n: int)
    requires 0 <= n <= |ds|
    requires Agree(sim, sim', ds)
    ensures SimilarEdges(sim, ds, n) == SimilarEdges(sim', ds, n)
  {
    if n > 0 {
      SimilarEdgesAgree(sim, sim', ds, n - 1);
      SimilarRowAgree(sim, sim', ds, n - 1, |ds|);
    }
  }

  lemma SimilarRowStep(sim: (Node, Node) -> real, ds: seq<Node>, i: int, j: int)
    requires 0 <= i < j < |ds|
    ensures SimilarRow(sim, ds, i, j + 1) ==
      SimilarRow(sim, ds, i, j) + (if sim(ds[i], ds[j]) > 0.3 then [SimilarEdge(sim, ds[i], ds[j])] else [])
  {
  }

  lemma PairingEdgesStep(g: GraphState, ds: seq<Node>, order: seq<Pair>, k: int)
    requires Shaped(g) && 0 <= k < |order|
    ensures var p := order[k];
      var count := Cooccurrence(g, ds, p);
      PairingEdges(g, ds, order[..k + 1]) == PairingEdges(g, ds, order[..k]) + (if count > 1 then [PairingEdge(p, count)] else [])
  {
    assert order[..k + 1][..k] == order[..k];
  }

  /** Adding edges of a type other than CONTAINS leaves every dish similarity unchanged. */
  lemma SimilarityKept(g: GraphState, es: seq<Edge>, k: EdgeType, d1: Node, d2: Node)
    requires Shaped(g) && OfKind(es, k) && k != Contains
    ensures Shaped(AddEdges(g, es))
    ensures Similarity(AddEdges(g, es))(d1, d2) == Similarity(g)(d1, d2) == DishSimilarity(g, d1, d2)
  {
    AddEdgesKeepNeighbors(g, es, k, d1.id, Contains);
    AddEdgesKeepNeighbors(g, es, k, d2.id, Contains);
  }

  /** `sim` gives dishes `i` and `j` their similarity in `g0`. */
  ghost predicate SimilarityAt(g0: GraphState, sim: (Node, Node) -> real, dishes: seq<Node>, i: int, j: int)
    requires Shaped(g0) && 0 <= i < |dishes| && 0 <= j < |dishes|
  {
    sim(dishes[i], dishes[j]) == DishSimilarity(g0, dishes[i], dishes[j])
  }

  /** One step of the inner similarity loop, on graph values: the similarity read from the graph decides whether the next edge is added. */
  lemma SimilarPassStep(g0: GraphState, g1: GraphState, sim: (Node, Node) -> real, dishes: seq<Node>, i: int, j: int, g: GraphState)
    requires Shaped(g0) && 0 <= i < j < |dishes|
    requires SimilarityAt(g0, sim, dishes, i, j)
    requires g1 == AddEdges(g0, SimilarEdges(sim, dishes, i))
    requires g == AddEdges(g1, SimilarRow(sim, dishes, i, j))
    ensures Shaped(g)
    ensures var s := DishSimilarity(g, dishes[i], dishes[j]);
      var next := AddEdges(g1, SimilarRow(sim, dishes, i, j + 1));
      && (s > 0.3 ==> next == AddEdgeState(g, Edge(dishes[i].id, dishes[j].id, SimilarTo, s, map[])))
      && (s <= 0.3 ==> next == g)
  {
    var before, row := SimilarEdges(sim, dishes, i), SimilarRow(sim, dishes, i, j);
    AddEdgesAppend(g0, before, row);
    SimilarKinds(sim, dishes, i, j);
    SimilarityKept(g0, before + row, SimilarTo, dishes[i], dishes[j]);
    SimilarRowStep(sim, dishes, i, j);
    if sim(dishes[i], dishes[j]) > 0.3 {
      AddEdgesSnoc(g1, row, SimilarEdge(sim, dishes[i], dishes[j]));
    } else {
      assert row + [] == row;
    }
  }

  /** Adding `a` and then `b` is adding `a + b`. */
  lemma {:induction false} AddEdgesAppend(g: GraphState, a: seq<Edge>, b: seq<Edge>)
    ensures AddEdges(g, a + b) == AddEdges(AddEdges(g, a), b)
    decreases |b|
  {
    if b == [] {
      assert a + b == a;
    } else {
      var b' := b[..|b| - 1];
      assert (a + b)[..|a + b| - 1] == a + b';
      AddEdgesAppend(g, a, b');
    }
  }

  // ---------------------------------------------------------------------------
  // The builder
  // ---------------------------------------------------------------------------

  /**
    * `RecipeGraphBuilder`: the graph it fills. The file scan that adds the
    * recipes' nodes and edges is not part of this model; the two relation
    * passes and the similarity calculation are.
    */
  class RecipeGraphBuilder {
    const graph: RecipeGraph

    ghost predicate Valid()
      reads graph
    {
      graph.Valid()
    }

    /** A builder starts with an empty graph. */
    constructor ()
      ensures fresh(graph)
      ensures graph.State() == EmptyGraph()
      ensures Valid()
    {
      graph := new RecipeGraph();
    }

    /** `_calculate_dish_similarity`, reading both dishes' CONTAINS neighbours from the graph. */
    method CalculateDishSimilarity(d1: Node, d2: Node) returns (s: real)
      requires Shaped(graph.State())
      ensures s == DishSimilarity(graph.State(), d1, d2)
    {
      var ingredients1 := graph.GetNeighbors(d1.id, Some(Contains));
      var ingredients2 := graph.GetNeighbors(d2.id, Some(Contains));
      var a, b := IdSet(ingredients1), IdSet(ingredients2);
      if a == {} || b == {} {
        return 0.0;
      }
      var union := |a + b|;
      s := if union > 0 then (|a * b| as real) / (union as real) else 0.0;
    }

    /** The first loop of `_build_ingredient_pairings`: count every sorted id pair of every dish. */
    method CountCooccurrence(ds: seq<Node>) returns (counts: map<Pair, nat>)
      requires Shaped(graph.State())
      ensures Positive(counts)
      ensures forall p :: Count(counts, p) == Cooccurrence(graph.State(), ds, p)
    {
      ghost var g := graph.State();
      counts := map[];
      for k := 0 to |ds|
        invariant Positive(counts)
        invariant forall p :: Count(counts, p) == Cooccurrence(g, ds[..k], p)
      {
        assert ds[..k + 1][..k] == ds[..k];
        var ingredients := graph.GetNeighbors(ds[k].id, Some(Contains));
        counts := CountPairs(counts, Ids(ingredients));
      }
      assert ds[..|ds|] == ds;
    }

    /**
      * `_build_ingredient_pairings`: `order` is the order in which the counter
      * yields its pairs, which are exactly the pairs counted at least once.
      */
    method BuildIngredientPairings() returns (ghost order: seq<Pair>)
      requires Valid()
      modifies graph
      ensures Valid()
      ensures Distinct(order)
      ensures forall p :: p in order <==> Cooccurrence(old(graph.State()), old(graph.FindNodesByType(Dish)), p) > 0
      ensures graph.State() == AddEdges(old(graph.State()), PairingEdges(old(graph.State()), old(graph.FindNodesByType(Dish)), order))
    {
      ghost var g0 := graph.State();
      var dishes := graph.FindNodesByType(Dish);
      var counts := CountCooccurrence(dishes);
      var pairs := ListOfSet(counts.Keys);
      order := pairs;
      for k := 0 to |pairs|
        invariant graph.Valid()
        invariant graph.State() == AddEdges(g0, PairingEdges(g0, dishes, pairs[..k]))
      {
        ghost var es := PairingEdges(g0, dishes, pairs[..k]);
        PairingEdgesStep(g0, dishes, pairs, k);
        var p := pairs[k];
        var count := counts[p];
        if count > 1 {
          AddEdgesSnoc(g0, es, PairingEdge(p, count));
          graph.AddEdge(PairingEdge(p, count));
        } else {
          assert es + [] == es;
        }
      }
      assert pairs[..|pairs|] == pairs;
    }

    /** The inner loop of `_build_similar_dishes` for dish `i`. */
    method SimilarRowPass(ghost g0: GraphState, ghost sim: (Node, Node) -> real, dishes: seq<Node>, i: int)
      requires Shaped(g0) && 0 <= i < |dishes|
      requires forall j | i < j < |dishes| :: SimilarityAt(g0, sim, dishes, i, j)
      requires graph.State() == AddEdges(g0, SimilarEdges(sim, dishes, i))
      modifies graph
      ensures graph.State() == AddEdges(g0, SimilarEdges(sim, dishes, i + 1))
    {
      ghost var g1 := graph.State();
      assert SimilarRow(sim, dishes, i, i + 1) == [];
      for j := i + 1 to |dishes|
        invariant graph.State() == AddEdges(g1, SimilarRow(sim, dishes, i, j))
      {
        SimilarPair(g0, g1, sim, dishes, i, j);
      }
      AddEdgesAppend(g0, SimilarEdges(sim, dishes, i), SimilarRow(sim, dishes, i, |dishes|));
    }

    /** One comparison of `_build_similar_dishes`: link dishes `i` and `j` when they are more than 0.3 similar. */
    method SimilarPair(ghost g0: GraphState, ghost g1: GraphState, ghost sim: (Node, Node) -> real, dishes: seq<Node>, i: int, j: int)
      requires Shaped(g0) && 0 <= i < j < |dishes|
      requires SimilarityAt(g0, sim, dishes, i, j)
      requires g1 == AddEdges(g0, SimilarEdges(sim, dishes, i))
      requires graph.State() == AddEdges(g1, SimilarRow(sim, dishes, i, j))
      modifies graph
      ensures graph.State() == AddEdges(g1, SimilarRow(sim, dishes, i, j + 1))
    {
      SimilarPassStep(g0, g1, sim, dishes, i, j, graph.State());
      var similarity := CalculateDishSimilarity(dishes[i], dishes[j]);
      if similarity > 0.3 {
        graph.AddEdge(Edge(dishes[i].id, dishes[j].id, SimilarTo, similarity, map[]));
      }
    }

    /** `_build_similar_dishes`: compare every dish with every later one and link those more than 0.3 similar. */
    method BuildSimilarDishes()
      requires Valid()
      modifies graph
      ensures Valid()
      ensures graph.State() == AddEdges(old(graph.State()),
        SimilarEdges(Similarity(old(graph.State())), old(graph.FindNodesByType(Dish)), |old(graph.FindNodesByType(Dish))|))
    {
      ghost var g0 := graph.State();
      var dishes := graph.FindNodesByType(Dish);
      for i := 0 to |dishes|
        invariant graph.State() == AddEdges(g0, SimilarEdges(Similarity(g0), dishes, i))
      {
        SimilarRowPass(g0, Similarity(g0), dishes, i);
      }
      AddEdgesConsistent(g0, SimilarEdges(Similarity(g0), dishes, |dishes|));
    }

    /**
      * Steps 3 and 4 of `build_graph`, once the recipe files have filled the
      * graph: the pairing pass, then the similarity pass, which sees the same
      * dishes and the same similarities as the graph before either pass.
      */
    method BuildRelations() returns (ghost order: seq<Pair>)
      requires Valid()
      modifies graph
      ensures Valid()
      ensures var g0, ds := old(graph.State()), old(graph.FindNodesByType(Dish));
        graph.State() == AddEdges(AddEdges(g0, PairingEdges(g0, ds, order)), SimilarEdges(Similarity(g0), ds, |ds|))
      ensures Distinct(order)
      ensures forall p :: p in order <==> Cooccurrence(old(graph.State()), old(graph.FindNodesByType(Dish)), p) > 0
    {
      ghost var g0 := graph.State();
      ghost var ds := graph.FindNodesByType(Dish);
      order := BuildIngredientPairings();
      ghost var es := PairingEdges(g0, ds, order);
      ghost var g1 := graph.State();
      AddEdgesConsistent(g0, es);
      assert graph.FindNodesByType(Dish) == ds;
      forall i, j | 0 <= i < |ds| && 0 <= j < |ds|
        ensures Similarity(g1)(ds[i], ds[j]) == Similarity(g0)(ds[i], ds[j])
      {
        SimilarityKept(g0, es, PairsWith, ds[i], ds[j]);
      }
      assert Agree(Similarity(g1), Similarity(g0), ds);
      SimilarEdgesAgree(Similarity(g1), Similarity(g0), ds, |ds|);
      BuildSimilarDishes();
    }
  }
}
