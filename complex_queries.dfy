/**
  * The query processor on top of the recipe graph: routing a question to one
  * kind of query by the keywords it mentions, picking the known ingredient and
  * cooking-method words out of it, the name an analysis question is about, the
  * "one entry per name, the highest score kept, sorted" post-processing of the
  * `_process_*` queries, trending combinations as result nodes, and the
  * ingredient compatibility matrix.
  */
module ComplexQueries {
  import opened Wrappers
  import opened Text
  import opened Dicts
  import opened Ranking
  import opened GraphModels
  import opened RecipeGraphs
  import opened QueryEngines
  import opened Trending
  import RecommendationEngines

  // ---------------------------------------------------------------------------
  // Routing
  // ---------------------------------------------------------------------------

  /** The query kinds `process_natural_language_query` dispatches to. */
  datatype QueryKind =
    | DiscoveryQuery | SimilarityQuery | RecommendationQuery | SubstitutionQuery
    | PairingQuery | CookingMethodQuery | IngredientQuery | AnalysisQuery | GeneralQuery

  const DiscoveryWords: seq<string> := ["发现", "热门", "流行", "趋势"]
  const SimilarityWords: seq<string> := ["相似", "类似", "像"]
  const RecommendationWords: seq<string> := ["推荐", "建议", "可以"]
  const SubstitutionWords: seq<string> := ["替代", "替换", "代替"]
  const PairingWords: seq<string> := ["搭配", "配", "和", "一起"]
  const MethodWords: seq<string> := ["方法", "做法", "烹饪"]
  const IngredientWords: seq<string> := ["食材", "原料", "材料"]
  const AnalysisWords: seq<string> := ["分析", "了解", "介绍", "说明"]

  /** The keyword groups in the order they are tried, each with the kind it selects. */
  const Groups: seq<(seq<string>, QueryKind)> := [
    (DiscoveryWords, DiscoveryQuery), (SimilarityWords, SimilarityQuery),
    (RecommendationWords, RecommendationQuery), (SubstitutionWords, SubstitutionQuery),
    (PairingWords, PairingQuery), (MethodWords, CookingMethodQuery),
    (IngredientWords, IngredientQuery), (AnalysisWords, AnalysisQuery)]

  /** `any(keyword in q for keyword in words)`. */
  predicate Mentions(q: string, words: seq<string>) {
    exists w | w in words :: Text.Contains(q, w)
  }

  /**
    * The if-chain of `process_natural_language_query` over the lowered query:
    * discovery exactly when a discovery word is mentioned, and the general
    * query exactly when no group's word is.
    */
  function Route(query: string): (r: QueryKind)
    ensures r == DiscoveryQuery <==> Mentions(Lower(query), DiscoveryWords)
    ensures r == GeneralQuery <==> forall j | 0 <= j < |Groups| :: !Mentions(Lower(query), Groups[j].0)
  {
    var q := Lower(query);
    assert Groups[0].0 == DiscoveryWords && Groups[1].0 == SimilarityWords && Groups[2].0 == RecommendationWords;
    assert Groups[3].0 == SubstitutionWords && Groups[4].0 == PairingWords && Groups[5].0 == MethodWords;
    assert Groups[6].0 == IngredientWords && Groups[7].0 == AnalysisWords;
    if Mentions(q, DiscoveryWords) then DiscoveryQuery
    else if Mentions(q, SimilarityWords) then SimilarityQuery
    else if Mentions(q, RecommendationWords) then RecommendationQuery
    else if Mentions(q, SubstitutionWords) then SubstitutionQuery
    else if Mentions(q, PairingWords) then PairingQuery
    else if Mentions(q, MethodWords) then CookingMethodQuery
    else if Mentions(q, IngredientWords) then IngredientQuery
    else if Mentions(q, AnalysisWords) then AnalysisQuery
    else GeneralQuery
  }

  /**
    * A query goes to the kind of the first group, in priority order, that the
    * lowered query mentions.
    */
  lemma RouteFirstGroup(query: string, i: int)
    requires 0 <= i < |Groups|
    ensures Route(query) == Groups[i].1 <==>
      Mentions(Lower(query), Groups[i].0) && forall j | 0 <= j < i :: !Mentions(Lower(query), Groups[j].0)
  {
    var q := Lower(query);
    assert Groups[0] == (DiscoveryWords, DiscoveryQuery) && Groups[1] == (SimilarityWords, SimilarityQuery);
    assert Groups[2] == (RecommendationWords, RecommendationQuery) && Groups[3] == (SubstitutionWords, SubstitutionQuery);
    assert Groups[4] == (PairingWords, PairingQuery) && Groups[5] == (MethodWords, CookingMethodQuery);
    assert Groups[6] == (IngredientWords, IngredientQuery) && Groups[7] == (AnalysisWords, AnalysisQuery);
  }

  /** A query that mentions no group's word goes to the general query, and only such a query. */
  lemma RouteGeneral(query: string)
    ensures Route(query) == GeneralQuery <==> forall j | 0 <= j < |Groups| :: !Mentions(Lower(query), Groups[j].0)
  {
    var q := Lower(query);
    assert Groups[0].0 == DiscoveryWords && Groups[1].0 == SimilarityWords && Groups[2].0 == RecommendationWords;
    assert Groups[3].0 == SubstitutionWords && Groups[4].0 == PairingWords && Groups[5].0 == MethodWords;
    assert Groups[6].0 == IngredientWords && Groups[7].0 == AnalysisWords;
  }

  /** Any query mentioning a discovery word is a discovery query, whatever else it mentions. */
  lemma DiscoveryFirst(query: string, w: string)
    requires w in DiscoveryWords && Text.Contains(query, w)
    ensures Route(query) == DiscoveryQuery
  {
    var q := Lower(query);
    var i :| 0 <= i <= |query| && OccursAt(query, w, i);
    assert Lower(w) == w;
    LowerKeepsContains(query, w);
  }

  // ---------------------------------------------------------------------------
  // Keyword extraction
  // ---------------------------------------------------------------------------

  const IngredientKeywords: seq<string> := [
    "鸡", "鸭", "猪", "牛", "羊", "鱼", "虾", "蟹",
    "白菜", "萝卜", "土豆", "西红柿", "黄瓜", "茄子", "豆角", "青椒", "红椒",
    "洋葱", "蒜", "姜", "葱", "韭菜", "菠菜", "芹菜", "花菜", "西兰花",
    "胡萝卜", "冬瓜", "南瓜", "丝瓜", "苦瓜", "豆芽", "蘑菇", "香菇",
    "金针菇", "木耳", "银耳", "鸡蛋", "鸭蛋", "豆腐", "豆干", "豆皮",
    "米", "面", "面条", "挂面", "意面", "饺子", "包子", "馒头", "饼", "饭", "粥"]

  const CookingMethodKeywords: seq<string> := [
    "炒", "煮", "蒸", "炸", "烤", "炖", "焖", "煎", "拌", "凉拌",
    "红烧", "清炒", "爆炒", "干煸", "水煮", "清蒸", "糖醋",
    "麻辣", "香辣", "酸辣", "蒜蓉", "蚝油", "白灼", "上汤", "勾芡"]

  /** `for keyword in keywords: if keyword in query: found.append(keyword)`. */
  method KeywordsIn(keywords: seq<string>, query: string) returns (found: seq<string>)
    ensures found == Filter(keywords, w => Text.Contains(query, w))
  {
    found := [];
    for i := 0 to |keywords|
      invariant found == Filter(keywords[..i], w => Text.Contains(query, w))
    {
      assert keywords[..i + 1][..i] == keywords[..i];
      if Text.Contains(query, keywords[i]) {
        found := found + [keywords[i]];
      }
    }
    assert keywords[..|keywords|] == keywords;
  }

  /** The listed ingredient words occurring in the query, in list order. */
  function IngredientsIn(query: string): seq<string> {
    Filter(IngredientKeywords, w => Text.Contains(query, w))
  }

  /** The listed cooking-method words occurring in the query, in list order. */
  function MethodsIn(query: string): seq<string> {
    Filter(CookingMethodKeywords, w => Text.Contains(query, w))
  }

  /**
    * `_extract_ingredients_from_query`: the listed ingredient words that occur
    * in the query as it was typed, in list order.
    */
  method ExtractIngredients(query: string) returns (found: seq<string>)
    ensures found == IngredientsIn(query)
    ensures forall w :: w in found <==> w in IngredientKeywords && Text.Contains(query, w)
  {
    found := KeywordsIn(IngredientKeywords, query);
  }

  /** `_extract_cooking_methods_from_query`: the listed cooking-method words that occur in the query, in list order. */
  method ExtractCookingMethods(query: string) returns (found: seq<string>)
    ensures found == MethodsIn(query)
    ensures forall w :: w in found <==> w in CookingMethodKeywords && Text.Contains(query, w)
  {
    found := KeywordsIn(CookingMethodKeywords, query);
  }

  /**
    * The filter keeps the list's order: whatever two kept words are in the
    * result, they appear in that order in the list.
    */
  lemma {:induction false} FilterKeepsOrder<T>(xs: seq<T>, p: T -> bool, i: int, j: int)
    requires 0 <= i < j < |Filter(xs, p)|
    ensures exists a, b :: 0 <= a < b < |xs| && xs[a] == Filter(xs, p)[i] && xs[b] == Filter(xs, p)[j]
  {
    var n := |xs| - 1;
    var front, r := Filter(xs[..n], p), Filter(xs, p);
    assert xs == xs[..n] + [xs[n]];
    if j < |front| {
      FilterKeepsOrder(xs[..n], p, i, j);
      var a, b :| 0 <= a < b < n && xs[..n][a] == front[i] && xs[..n][b] == front[j];
      assert xs[a] == r[i] && xs[b] == r[j];
    } else {
      assert r[j] == xs[n];
      assert r[i] == front[i] && front[i] in xs[..n];
      var a :| 0 <= a < n && xs[..n][a] == front[i];
      assert xs[a] == r[i];
    }
  }

  // ---------------------------------------------------------------------------
  // The object of an analysis question
  // ---------------------------------------------------------------------------

  const AnalysisRemovals: seq<string> := ["分析", "了解", "介绍", "说明", "一下", "的"]
  const StopWords: seq<string> := ["一下", "的", "这个", "那个", "什么", "如何", "怎样"]

  /** `for w in words: target = target.replace(w, '').strip()`. */
  function Scrub(s: string, words: seq<string>): string
    requires forall k | 0 <= k < |words| :: words[k] != []
  {
    if words == [] then s
    else Strip(RemoveAll(Scrub(s, words[..|words| - 1]), words[|words| - 1]))
  }

  /** What is left of the query once both word lists are removed. */
  function Residue(query: string): string {
    WordsNonEmpty();
    Scrub(Scrub(query, AnalysisRemovals), StopWords)
  }

  lemma WordsNonEmpty()
    ensures forall k | 0 <= k < |AnalysisRemovals| :: AnalysisRemovals[k] != []
    ensures forall k | 0 <= k < |StopWords| :: StopWords[k] != []
  {
    assert |AnalysisRemovals[0]| == |AnalysisRemovals[1]| == |AnalysisRemovals[2]| == |AnalysisRemovals[3]| == |AnalysisRemovals[4]| == 2;
    assert |AnalysisRemovals[5]| == 1;
    assert |StopWords[0]| == |StopWords[2]| == |StopWords[3]| == |StopWords[4]| == |StopWords[5]| == |StopWords[6]| == 2;
    assert |StopWords[1]| == 1;
  }

  /** After at least one removal the text is stripped: it neither starts nor ends with a space. */
  lemma ScrubTrimmed(s: string, words: seq<string>)
    requires forall k | 0 <= k < |words| :: words[k] != []
    requires words != []
    ensures Trimmed(Scrub(s, words))
  {
    StripTrims(RemoveAll(Scrub(s, words[..|words| - 1]), words[|words| - 1]));
  }

  /** One removal pass over a word list. */
  method ScrubAll(s: string, words: seq<string>) returns (target: string)
    requires forall k | 0 <= k < |words| :: words[k] != []
    ensures target == Scrub(s, words)
  {
    target := s;
    for i := 0 to |words|
      invariant target == Scrub(s, words[..i])
    {
      assert words[..i + 1][..i] == words[..i];
      target := Strip(RemoveAll(target, words[i]));
    }
    assert words[..|words|] == words;
  }

  /**
    * `_extract_target_from_analysis_query`: the residue of the query after the
    * analysis words and then the stop words are removed, each removal followed
    * by `strip()`; an empty residue is no target at all, so a target is never
    * the empty string, and it never starts or ends with a space.
    */
  method ExtractTarget(query: string) returns (r: Option<string>)
    ensures Residue(query) == [] ==> r == None
    ensures Residue(query) != [] ==> r == Some(Residue(query))
    ensures r.Some? ==> r.value != [] && Trimmed(r.value)
  {
    WordsNonEmpty();
    var target := ScrubAll(query, AnalysisRemovals);
    target := ScrubAll(target, StopWords);
    ScrubTrimmed(Scrub(query, AnalysisRemovals), StopWords);
    if target == [] {
      r := None;
    } else {
      r := Some(target);
    }
  }

  // ---------------------------------------------------------------------------
  // One entry per name, the highest score kept, sorted
  // ---------------------------------------------------------------------------

  /** The name of the node of a result pair. */
  function PairName<S>(p: (Node, S)): string {
    p.0.name
  }

  /**
    * The block every `_process_*` query ends with: the dictionary keeping one
    * entry per name (a later entry replaces it only with a strictly larger
    * score), `list(d.values())`, sorted by score, largest first.
    */
  function Dedupe<T>(xs: seq<T>, name: T -> string, score: T -> real): (r: seq<T>)
    ensures SortedDesc(r, score)
    ensures UniqueNames(r, name)
  {
    var vs := BestValues(xs, name, score);
    BestValuesDistinctNames(xs, name, score);
    PermutedUniqueNames(vs, SortDesc(vs, score), name);
    SortDesc(vs, score)
  }

  /**
    * What the block promises: each name of the input once, with an input
    * entry of that name whose score no other entry of the name exceeds, sorted
    * by score, largest first.
    */
  lemma DedupeSpec<T>(xs: seq<T>, name: T -> string, score: T -> real)
    ensures var r := Dedupe(xs, name, score);
      && SortedDesc(r, score)
      && UniqueNames(r, name)
      && (forall y | y in r :: y in xs && forall x | x in xs && name(x) == name(y) :: score(x) <= score(y))
      && (forall x | x in xs :: exists y :: y in r && name(y) == name(x))
  {
    DedupeMembers(xs, name, score);
    DedupeComplete(xs, name, score);
  }

  lemma DedupeMembers<T>(xs: seq<T>, name: T -> string, score: T -> real)
    ensures forall y | y in Dedupe(xs, name, score) ::
      y in xs && forall x | x in xs && name(x) == name(y) :: score(x) <= score(y)
  {
    forall y | y in Dedupe(xs, name, score)
      ensures y in xs && forall x | x in xs && name(x) == name(y) :: score(x) <= score(y)
    {
      DedupeMax(xs, name, score, y);
    }
  }

  /** A kept entry is an input entry that no input entry of its name outscores. */
  lemma DedupeMax<T>(xs: seq<T>, name: T -> string, score: T -> real, y: T)
    requires y in Dedupe(xs, name, score)
    ensures y in xs && forall x | x in xs && name(x) == name(y) :: score(x) <= score(y)
  {
    var d := BestByName(xs, name, score);
    var vs := BestValues(xs, name, score);
    assert y in multiset(vs);
    var i :| 0 <= i < |vs| && vs[i] == y;
    assert y == d.vals[d.keys[i]];
    BestItems(xs, name, score);
    BestMax(xs, name, score);
  }

  lemma DedupeComplete<T>(xs: seq<T>, name: T -> string, score: T -> real)
    ensures forall x | x in xs :: exists y :: y in Dedupe(xs, name, score) && name(y) == name(x)
  {
    forall x | x in xs
      ensures exists y :: y in Dedupe(xs, name, score) && name(y) == name(x)
    {
      DedupeHas(xs, name, score, x);
    }
  }

  /** Every input name is kept. */
  lemma DedupeHas<T>(xs: seq<T>, name: T -> string, score: T -> real, x: T)
    requires x in xs
    ensures exists y :: y in Dedupe(xs, name, score) && name(y) == name(x)
  {
    var d := BestByName(xs, name, score);
    var vs := BestValues(xs, name, score);
    BestKeys(xs, name, score);
    assert name(x) in d.vals;
    var i :| 0 <= i < |d.keys| && d.keys[i] == name(x);
    BestItems(xs, name, score);
    assert name(vs[i]) == name(x);
    assert vs[i] in multiset(Dedupe(xs, name, score));
  }

  /** The dedupe loops, on a list of pairs. */
  method DedupePairs<S>(xs: seq<(Node, S)>, score: ((Node, S)) -> real) returns (r: seq<(Node, S)>)
    ensures r == Dedupe(xs, PairName, score)
  {
    var vs := KeepBest(xs, PairName, score);
    r := SortDesc(vs, score);
  }

  // ---------------------------------------------------------------------------
  // Compatibility
  // ---------------------------------------------------------------------------

  /** `{pair[0].name: pair[1] for pair in pairs}`: a later pair of a name overrides an earlier one. */
  function PartnerCounts(pairs: seq<(Node, nat)>): map<string, nat> {
    if pairs == [] then map[]
    else PartnerCounts(pairs[..|pairs| - 1])[pairs[|pairs| - 1].0.name := pairs[|pairs| - 1].1]
  }

  /** The position of the last pair named `b`, or -1 when no pair has that name. */
  function LastNamed(pairs: seq<(Node, nat)>, b: string): (k: int)
    ensures -1 <= k < |pairs|
    ensures k >= 0 ==> pairs[k].0.name == b && forall l | k < l < |pairs| :: pairs[l].0.name != b
    ensures k == -1 ==> forall l | 0 <= l < |pairs| :: pairs[l].0.name != b
  {
    if pairs == [] then -1
    else if pairs[|pairs| - 1].0.name == b then |pairs| - 1
    else LastNamed(pairs[..|pairs| - 1], b)
  }

  /** The comprehension keys the names of the pairs, and a name's count is the count of its last pair. */
  lemma {:induction false} PartnerCountsSpec(pairs: seq<(Node, nat)>, b: string)
    ensures b in PartnerCounts(pairs) <==> LastNamed(pairs, b) >= 0
    ensures b in PartnerCounts(pairs) ==> PartnerCounts(pairs)[b] == pairs[LastNamed(pairs, b)].1
  {
    if pairs != [] {
      PartnerCountsSpec(pairs[..|pairs| - 1], b);
    }
  }

  /** `min(pair_dict.get(b, 0) / 10.0, 1.0)`. */
  function Compatibility(counts: map<string, nat>, b: string): (c: real)
    ensures 0.0 <= c <= 1.0
    ensures b !in counts ==> c == 0.0
    ensures b in counts && counts[b] >= 10 ==> c == 1.0
  {
    var x := (if b in counts then counts[b] else 0) as real / 10.0;
    if x < 1.0 then x else 1.0
  }

  /** The last position of `x` in `xs`, or -1 when it does not occur. */
  function LastIndex(xs: seq<string>, x: string): (k: int)
    ensures -1 <= k < |xs|
    ensures k >= 0 ==> xs[k] == x && forall l | k < l < |xs| :: xs[l] != x
    ensures k == -1 ==> x !in xs
  {
    if xs == [] then -1
    else if xs[|xs| - 1] == x then |xs| - 1
    else LastIndex(xs[..|xs| - 1], x)
  }

  /**
    * The cell of a row built at position `i`: the inner loop writes 1.0 at
    * `j == i` and the capped count elsewhere, and the last write to a name is
    * the one at its last position.
    */
  function Cell(names: seq<string>, i: int, counts: map<string, nat>, b: string): real {
    if LastIndex(names, b) == i then 1.0 else Compatibility(counts, b)
  }

  /** Two names of the list have the same last position exactly when they are the same name. */
  lemma LastIndexSame(names: seq<string>, a: string, b: string)
    requires a in names && b in names
    ensures LastIndex(names, a) == LastIndex(names, b) <==> a == b
  {
  }

  /** Appending a name moves its own last position to the end and keeps every other name's. */
  lemma LastIndexSnoc(names: seq<string>, j: int, b: string)
    requires 0 <= j < |names|
    ensures LastIndex(names[..j + 1], b) == if names[j] == b then j else LastIndex(names[..j], b)
  {
    assert names[..j + 1][..j] == names[..j];
  }

  // ---------------------------------------------------------------------------
  // What the query engine answers, in the state `e` it reads
  // ---------------------------------------------------------------------------

  /**
    * `r` is a list that `find_ingredient_pairs` (ingredients, CONTAINS then
    * CONTAINS, a match never its own partner, `min` 2),
    * `find_cooking_methods_for_ingredient` (ingredients, CONTAINS then
    * USES_METHOD) or `find_ingredients_by_cooking_method` (cooking methods,
    * USES_METHOD then CONTAINS) may return for `name`.
    */
  ghost predicate TallyAnswer(e: Env, name: string, t: NodeType, first: EdgeType, second: EdgeType, skipSelf: bool, min: int,
                              r: seq<(Node, nat)>)
    requires Shaped(e.g)
  {
    exists xs: seq<Node>, counts: map<string, nat> :: TallyBy(e, name, t, first, second, skipSelf, min, r, xs, counts)
  }

  /** `r` is the tally's answer when the search matched `xs` and the counter ended as `counts`. */
  ghost predicate TallyBy(e: Env, name: string, t: NodeType, first: EdgeType, second: EdgeType, skipSelf: bool, min: int,
                          r: seq<(Node, nat)>, xs: seq<Node>, counts: map<string, nat>)
    requires Shaped(e.g)
  {
    && FoundIn(e, xs, name, Some(t), 10)
    && Positive(counts)
    && (forall y :: Count(counts, y) == TwoHopCount(e.g, xs, Some(first), Some(second), skipSelf, y))
    && (xs == [] ==> r == [])
    && (xs != [] ==> RankedCounts(e.g, counts, min, r))
  }

  /** The three two-hop tallies the queries run on a name. */
  datatype Tally =
    | PairsOf        // find_ingredient_pairs(name), min_cooccurrence 2
    | MethodsOf      // find_cooking_methods_for_ingredient(name)
    | IngredientsOf  // find_ingredients_by_cooking_method(name)

  /** A list the tally `k` may return for `name`. */
  ghost predicate Tallied(e: Env, k: Tally, name: string, r: seq<(Node, nat)>)
    requires Shaped(e.g)
  {
    match k
    case PairsOf => TallyAnswer(e, name, Ingredient, Contains, Contains, true, 2, r)
    case MethodsOf => TallyAnswer(e, name, Ingredient, Contains, UsesMethod, false, 0, r)
    case IngredientsOf => TallyAnswer(e, name, CookingMethod, UsesMethod, Contains, false, 0, r)
  }

  /** A list `find_ingredient_pairs(name)` may return. */
  ghost predicate PairsAnswer(e: Env, name: string, r: seq<(Node, nat)>)
    requires Shaped(e.g)
  {
    Tallied(e, PairsOf, name, r)
  }

  /** A list `find_similar_dishes(name)` may return: the similar dishes of the matched dishes, cut to five. */
  ghost predicate SimilarAnswer(e: Env, name: string, r: seq<(Node, real)>)
    requires Shaped(e.g)
  {
    exists ds: seq<Node> :: SimilarBy(e, name, r, ds)
  }

  /** `r` is the similar-dish answer when the dish search matched `ds`. */
  ghost predicate SimilarBy(e: Env, name: string, r: seq<(Node, real)>, ds: seq<Node>)
    requires Shaped(e.g)
  {
    FoundIn(e, ds, name, Some(Dish), 10) && r == Take(SortDesc(SimilarOf(e.g, ds), ScoreOf), 5)
  }

  /** A list `get_ingredient_substitution_suggestions(name)` may return. */
  ghost predicate SubstitutesAnswer(e: Env, name: string, r: seq<(Node, real)>)
    requires Shaped(e.g)
  {
    exists xs: seq<Node> :: SubstitutesBy(e, name, r, xs)
  }

  /** `r` is the substitution answer when the ingredient search matched `xs`. */
  ghost predicate SubstitutesBy(e: Env, name: string, r: seq<(Node, real)>, xs: seq<Node>)
    requires Shaped(e.g)
  {
    FoundIn(e, xs, name, Some(Ingredient), 10) && r == Take(SortDesc(SuggestionsOf(e.g, xs), ScoreOf), 10)
  }

  /** A list `find_dishes_by_ingredients(names)` may return, without `require_all`. */
  ghost predicate DishesAnswer(e: Env, names: seq<string>, r: seq<(Node, nat)>)
    requires Shaped(e.g)
  {
    exists parts: seq<seq<Node>>, counts: map<string, nat> :: DishesBy(e, names, r, parts, counts)
  }

  /** `r` is the dish ranking when the searches matched `parts` and the counter ended as `counts`. */
  ghost predicate DishesBy(e: Env, names: seq<string>, r: seq<(Node, nat)>, parts: seq<seq<Node>>, counts: map<string, nat>)
    requires Shaped(e.g)
  {
    && |parts| == |names|
    && (forall i | 0 <= i < |names| :: FoundIn(e, parts[i], names[i], Some(Ingredient), 10))
    && Positive(counts)
    && (forall y :: Count(counts, y) == HopCount(e.g, Concat(parts), Some(Contains), y))
    && (Concat(parts) == [] ==> r == [])
    && (Concat(parts) != [] ==> RankedCounts(e.g, counts, 0, r))
  }

  /** The witnesses a tally call hands back make its list an answer. */
  lemma TallyIntro(e: Env, name: string, t: NodeType, first: EdgeType, second: EdgeType, skipSelf: bool, min: int,
                   r: seq<(Node, nat)>, xs: seq<Node>, counts: map<string, nat>)
    requires Shaped(e.g)
    requires FoundIn(e, xs, name, Some(t), 10)
    requires Positive(counts)
    requires forall y :: Count(counts, y) == TwoHopCount(e.g, xs, Some(first), Some(second), skipSelf, y)
    requires xs == [] ==> r == []
    requires xs != [] ==> RankedCounts(e.g, counts, min, r)
    ensures TallyAnswer(e, name, t, first, second, skipSelf, min, r)
  {
    assert TallyBy(e, name, t, first, second, skipSelf, min, r, xs, counts);
  }

  lemma SimilarIntro(e: Env, name: string, r: seq<(Node, real)>, ds: seq<Node>)
    requires Shaped(e.g)
    requires FoundIn(e, ds, name, Some(Dish), 10) && r == Take(SortDesc(SimilarOf(e.g, ds), ScoreOf), 5)
    ensures SimilarAnswer(e, name, r)
  {
    assert SimilarBy(e, name, r, ds);
  }

  lemma SubstitutesIntro(e: Env, name: string, r: seq<(Node, real)>, xs: seq<Node>)
    requires Shaped(e.g)
    requires FoundIn(e, xs, name, Some(Ingredient), 10) && r == Take(SortDesc(SuggestionsOf(e.g, xs), ScoreOf), 10)
    ensures SubstitutesAnswer(e, name, r)
  {
    assert SubstitutesBy(e, name, r, xs);
  }

  lemma TalliedExtend(e: Env, k: Tally, names: seq<string>, parts: seq<seq<(Node, nat)>>, rs: seq<(Node, nat)>)
    requires Shaped(e.g) && |parts| < |names|
    requires forall j | 0 <= j < |parts| :: Tallied(e, k, names[j], parts[j])
    requires Tallied(e, k, names[|parts|], rs)
    ensures forall j | 0 <= j < |parts| + 1 :: Tallied(e, k, names[j], (parts + [rs])[j])
  {
    forall j | 0 <= j < |parts| + 1
      ensures Tallied(e, k, names[j], (parts + [rs])[j])
    {
      if j < |parts| {
        assert (parts + [rs])[j] == parts[j];
      }
    }
  }

  lemma PairsExtend(e: Env, names: seq<string>, parts: seq<seq<(Node, nat)>>, rs: seq<(Node, nat)>)
    requires Shaped(e.g) && |parts| < |names|
    requires forall j | 0 <= j < |parts| :: PairsAnswer(e, names[j], parts[j])
    requires PairsAnswer(e, names[|parts|], rs)
    ensures forall j | 0 <= j < |parts| + 1 :: PairsAnswer(e, names[j], (parts + [rs])[j])
  {
    forall j | 0 <= j < |parts| + 1
      ensures PairsAnswer(e, names[j], (parts + [rs])[j])
    {
      if j < |parts| {
        assert (parts + [rs])[j] == parts[j];
      }
    }
  }

  ghost predicate SimilarAll(e: Env, names: seq<string>, parts: seq<seq<(Node, real)>>)
    requires Shaped(e.g)
  {
    |parts| <= |names| && forall j | 0 <= j < |parts| :: SimilarAnswer(e, names[j], parts[j])
  }

  lemma SimilarExtend(e: Env, names: seq<string>, parts: seq<seq<(Node, real)>>, rs: seq<(Node, real)>)
    requires Shaped(e.g) && |parts| < |names|
    requires SimilarAll(e, names, parts)
    requires SimilarAnswer(e, names[|parts|], rs)
    ensures SimilarAll(e, names, parts + [rs])
  {
    forall j | 0 <= j < |parts| + 1
      ensures SimilarAnswer(e, names[j], (parts + [rs])[j])
    {
      if j < |parts| {
        assert (parts + [rs])[j] == parts[j];
      }
    }
  }

  ghost predicate SubstitutesAll(e: Env, names: seq<string>, parts: seq<seq<(Node, real)>>)
    requires Shaped(e.g)
  {
    |parts| <= |names| && forall j | 0 <= j < |parts| :: SubstitutesAnswer(e, names[j], parts[j])
  }

  lemma SubstitutesExtend(e: Env, names: seq<string>, parts: seq<seq<(Node, real)>>, rs: seq<(Node, real)>)
    requires Shaped(e.g) && |parts| < |names|
    requires SubstitutesAll(e, names, parts)
    requires SubstitutesAnswer(e, names[|parts|], rs)
    ensures SubstitutesAll(e, names, parts + [rs])
  {
    forall j | 0 <= j < |parts| + 1
      ensures SubstitutesAnswer(e, names[j], (parts + [rs])[j])
    {
      if j < |parts| {
        assert (parts + [rs])[j] == parts[j];
      }
    }
  }

  lemma DishesIntro(e: Env, names: seq<string>, r: seq<(Node, nat)>, parts: seq<seq<Node>>, counts: map<string, nat>)
    requires Shaped(e.g)
    requires |parts| == |names| && forall i | 0 <= i < |names| :: FoundIn(e, parts[i], names[i], Some(Ingredient), 10)
    requires Positive(counts)
    requires forall y :: Count(counts, y) == HopCount(e.g, Concat(parts), Some(Contains), y)
    requires Concat(parts) == [] ==> r == []
    requires Concat(parts) != [] ==> RankedCounts(e.g, counts, 0, r)
    ensures DishesAnswer(e, names, r)
  {
    assert DishesBy(e, names, r, parts, counts);
  }

  /** The dish counts carried as scores, next to the similarity scores. */
  function Scored(xs: seq<(Node, nat)>): seq<(Node, real)> {
    seq(|xs|, k requires 0 <= k < |xs| => (xs[k].0, xs[k].1 as real))
  }

  /** An element of a concatenation is an element of one of its parts. */
  lemma {:induction false} InConcat<T>(parts: seq<seq<T>>, y: T)
    requires y in Concat(parts)
    ensures exists i | 0 <= i < |parts| :: y in parts[i]
  {
    var n := |parts| - 1;
    if y !in parts[n] {
      InConcat(parts[..n], y);
      var i :| 0 <= i < n && y in parts[..n][i];
      assert parts[..n][i] == parts[i];
    }
  }

  /**
    * The pairs kept for a query are stored nodes, each named once, each with
    * the largest count any of the ingredients' partner lists gave its name,
    * that count at least 2, sorted by count, largest first.
    */
  lemma PairingSound(e: Env, ings: seq<string>, parts: seq<seq<(Node, nat)>>, r: seq<(Node, nat)>)
    requires Shaped(e.g)
    requires |parts| == |ings| && forall i | 0 <= i < |ings| :: PairsAnswer(e, ings[i], parts[i])
    requires r == Dedupe(Concat(parts), PairName, CountOf)
    ensures SortedDesc(r, CountOf) && UniqueNames(r, PairName)
    ensures forall y | y in r :: IsNodeOf(e.g, y.0) && y.1 >= 2
    ensures forall i: int, x: (Node, nat) | 0 <= i < |parts| && x in parts[i] :: Covered(r, x)
  {
    PairingStored(e, ings, parts, r);
    PairingCovers(parts, r);
  }

  /** The pairs kept are stored nodes counted at least twice. */
  lemma PairingStored(e: Env, ings: seq<string>, parts: seq<seq<(Node, nat)>>, r: seq<(Node, nat)>)
    requires Shaped(e.g)
    requires |parts| == |ings| && forall i | 0 <= i < |ings| :: PairsAnswer(e, ings[i], parts[i])
    requires r == Dedupe(Concat(parts), PairName, CountOf)
    ensures forall y | y in r :: IsNodeOf(e.g, y.0) && y.1 >= 2
  {
    forall y | y in r
      ensures IsNodeOf(e.g, y.0) && y.1 >= 2
    {
      DedupeMax(Concat(parts), PairName, CountOf, y);
      InConcat(parts, y);
      var i :| 0 <= i < |parts| && y in parts[i];
      PairsMember(e, ings[i], parts[i], y);
    }
  }

  /** An entry of a part is outscored, or matched, by the kept entry of its name. */
  lemma DedupeCovers<T>(parts: seq<seq<(Node, T)>>, score: ((Node, T)) -> real, i: int, x: (Node, T)) returns (y: (Node, T))
    requires 0 <= i < |parts| && x in parts[i]
    ensures y in Dedupe(Concat(parts), PairName, score) && y.0.name == x.0.name && score(x) <= score(y)
  {
    var xs := Concat(parts);
    ConcatHas(parts, i, x);
    DedupeHas(xs, PairName, score, x);
    y :| y in Dedupe(xs, PairName, score) && PairName(y) == PairName(x);
    DedupeMax(xs, PairName, score, y);
  }

  /** Some kept pair has the name of `x` and a count at least that of `x`. */
  predicate Covered(r: seq<(Node, nat)>, x: (Node, nat)) {
    exists y :: y in r && y.0.name == x.0.name && x.1 <= y.1
  }

  /** Every entry of every part is outscored, or matched, by the kept entry of its name. */
  lemma PairingCovers(parts: seq<seq<(Node, nat)>>, r: seq<(Node, nat)>)
    requires r == Dedupe(Concat(parts), PairName, CountOf)
    ensures forall i: int, x: (Node, nat) | 0 <= i < |parts| && x in parts[i] :: Covered(r, x)
  {
    forall i: int, x: (Node, nat) | 0 <= i < |parts| && x in parts[i]
      ensures Covered(r, x)
    {
      var y := DedupeCovers<nat>(parts, CountOf, i, x);
      assert x.1 <= y.1;
    }
  }

  /** Every pair of a partner list is a stored node counted at least twice. */
  lemma PairsMember(e: Env, name: string, r: seq<(Node, nat)>, y: (Node, nat))
    requires Shaped(e.g) && PairsAnswer(e, name, r) && y in r
    ensures IsNodeOf(e.g, y.0) && y.1 >= 2
  {
    var xs: seq<Node>, counts: map<string, nat> :| TallyBy(e, name, Ingredient, Contains, Contains, true, 2, r, xs, counts);
    var k :| 0 <= k < |r| && r[k] == y;
  }

  /** An element of a part is an element of the concatenation. */
  lemma {:induction false} ConcatHas<T>(parts: seq<seq<T>>, i: int, x: T)
    requires 0 <= i < |parts| && x in parts[i]
    ensures x in Concat(parts)
  {
    var n := |parts| - 1;
    if i < n {
      ConcatHas(parts[..n], i, x);
    }
  }

  // ---------------------------------------------------------------------------
  // Discovery results
  // ---------------------------------------------------------------------------

  const HotWords: seq<string> := ["热门", "流行", "趋势"]
  const ComboWords: seq<string> := ["组合", "搭配", "食材"]

  /** The stand-in node a trending pair is reported as, with its count. */
  function Combination(e: (Pair, nat)): (Node, nat) {
    var (p, count) := e;
    (Node("combination_" + p.0 + "_" + p.1, Ingredient, p.0 + " + " + p.1,
          map["type" := Str("ingredient_combination"), "ingredients" := StrList([p.0, p.1]),
              "cooccurrence_count" := Num(count as real)]),
     count)
  }

  function Combinations(trend: seq<(Pair, nat)>): seq<(Node, nat)> {
    seq(|trend|, k requires 0 <= k < |trend| => Combination(trend[k]))
  }

  /**
    * The combination nodes keep the trending list's order and counts: sorted
    * by count, largest first, each named after its two ingredients.
    */
  lemma CombinationsRanked(trend: seq<(Pair, nat)>)
    requires SortedDesc(trend, CountKey)
    ensures |Combinations(trend)| == |trend|
    ensures SortedDesc(Combinations(trend), CountOf)
    ensures forall k | 0 <= k < |trend| ::
      var (p, count) := trend[k];
      Combinations(trend)[k].1 == count && Combinations(trend)[k].0.name == p.0 + " + " + p.1
  {
    var r := Combinations(trend);
    forall i, j | 0 <= i < j < |r|
      ensures CountOf(r[i]) >= CountOf(r[j])
    {
      assert CountKey(trend[i]) >= CountKey(trend[j]);
    }
  }

  /** The trend words and the combination words of a hot-combination discovery query, in the lowered query. */
  predicate HotCombination(query: string) {
    var q := Lower(query);
    Mentions(q, HotWords) && Mentions(q, ComboWords)
  }

  /** The loop turning each trending pair into its combination node. */
  method CombinationNodes(trend: seq<(Pair, nat)>) returns (results: seq<(Node, nat)>)
    ensures results == Combinations(trend)
  {
    results := [];
    for k := 0 to |trend|
      invariant results == Combinations(trend[..k])
    {
      assert Combinations(trend[..k + 1]) == Combinations(trend[..k]) + [Combination(trend[k])];
      results := results + [Combination(trend[k])];
    }
    assert trend[..|trend|] == trend;
  }

  // ---------------------------------------------------------------------------
  // Compatibility matrix
  // ---------------------------------------------------------------------------

  /**
    * The inner loop of the matrix: for every position `j` of the list, 1.0 at
    * the row's own position `i` and the capped count elsewhere; a name listed
    * twice keeps what its last position wrote.
    */
  method BuildRow(names: seq<string>, i: int, counts: map<string, nat>) returns (row: map<string, real>)
    requires 0 <= i < |names|
    ensures RowOf(row, names, i, counts)
  {
    row := map[];
    for j := 0 to |names|
      invariant forall b :: b in row <==> b in names[..j]
      invariant forall b | b in row :: row[b] == Cell(names[..j], i, counts, b)
    {
      RowStep(names, i, j, counts, row);
      if i == j {
        row := row[names[j] := 1.0];
      } else {
        row := row[names[j] := Compatibility(counts, names[j])];
      }
    }
    assert names[..|names|] == names;
  }

  /** One cell written: the new name's last position is `j`, every other name's is unchanged. */
  lemma RowStep(names: seq<string>, i: int, j: int, counts: map<string, nat>, row: map<string, real>)
    requires 0 <= j < |names|
    requires forall b :: b in row <==> b in names[..j]
    requires forall b | b in row :: row[b] == Cell(names[..j], i, counts, b)
    ensures var next := row[names[j] := if i == j then 1.0 else Compatibility(counts, names[j])];
      && (forall b :: b in next <==> b in names[..j + 1])
      && (forall b | b in next :: next[b] == Cell(names[..j + 1], i, counts, b))
  {
    assert names[..j + 1] == names[..j] + [names[j]];
    forall b | b in names[..j + 1]
      ensures LastIndex(names[..j + 1], b) == if names[j] == b then j else LastIndex(names[..j], b)
    {
      LastIndexSnoc(names, j, b);
    }
  }

  /** After `i` rows: a row for each of the first `i` names, the one written at that name's last position so far. */
  ghost predicate MatrixSoFar(matrix: Matrix, names: seq<string>, i: int, rows: seq<seq<(Node, nat)>>)
    requires 0 <= i <= |names| && |rows| == i
  {
    && (forall a :: a in matrix <==> a in names[..i])
    && (forall a | a in matrix ::
         var k := LastIndex(names[..i], a);
         0 <= k < i && RowOf(matrix[a], names, k, PartnerCounts(rows[k])))
  }

  lemma MatrixStep(names: seq<string>, i: int, matrix: Matrix, rows: seq<seq<(Node, nat)>>, row: map<string, real>, pairs: seq<(Node, nat)>)
    requires 0 <= i < |names| && |rows| == i
    requires MatrixSoFar(matrix, names, i, rows)
    requires RowOf(row, names, i, PartnerCounts(pairs))
    ensures MatrixSoFar(matrix[names[i] := row], names, i + 1, rows + [pairs])
  {
    var m := matrix[names[i] := row];
    var rs := rows + [pairs];
    assert names[..i + 1] == names[..i] + [names[i]];
    forall a | a in m
      ensures var k := LastIndex(names[..i + 1], a); 0 <= k < i + 1 && RowOf(m[a], names, k, PartnerCounts(rs[k]))
    {
      MatrixStepAt(names, i, matrix, rows, row, pairs, a);
    }
  }

  /** The step for one name of the matrix. */
  lemma MatrixStepAt(names: seq<string>, i: int, matrix: Matrix, rows: seq<seq<(Node, nat)>>, row: map<string, real>,
                     pairs: seq<(Node, nat)>, a: string)
    requires 0 <= i < |names| && |rows| == i
    requires MatrixSoFar(matrix, names, i, rows)
    requires RowOf(row, names, i, PartnerCounts(pairs))
    requires a in matrix || a == names[i]
    ensures var k := LastIndex(names[..i + 1], a);
      0 <= k < i + 1 && RowOf(matrix[names[i] := row][a], names, k, PartnerCounts((rows + [pairs])[k]))
  {
    LastIndexSnoc(names, i, a);
    if a != names[i] {
      var k := LastIndex(names[..i], a);
      assert (rows + [pairs])[k] == rows[k];
    }
  }

  /** Reading the finished rows: 1.0 on the diagonal, the capped count off it. */
  lemma MatrixCells(names: seq<string>, matrix: Matrix, rows: seq<seq<(Node, nat)>>)
    requires |rows| == |names|
    requires MatrixSoFar(matrix, names[..|names|], |names|, rows)
    requires names[..|names|] == names
    ensures forall a :: a in matrix <==> a in names
    ensures forall a | a in matrix :: forall b :: b in matrix[a] <==> b in names
    ensures forall a, b | a in matrix && b in matrix[a] ::
      matrix[a][b] == if a == b then 1.0 else Compatibility(PartnerCounts(rows[LastIndex(names, a)]), b)
    ensures forall a, b | a in matrix && b in matrix[a] :: 0.0 <= matrix[a][b] <= 1.0
  {
    forall a, b | a in matrix && b in matrix[a]
      ensures matrix[a][b] == if a == b then 1.0 else Compatibility(PartnerCounts(rows[LastIndex(names, a)]), b)
    {
      LastIndexSame(names, a, b);
    }
  }

  // ---------------------------------------------------------------------------
  // The processor
  // ---------------------------------------------------------------------------

  /** `QueryResult`: the query kind, the result list and, from the metadata, the error message when there is one. */
  datatype QueryResult<T> = QueryResult(queryType: string, results: seq<T>, error: Option<string>)

  /** `{ingredient: {partner: score}}`, one row per listed ingredient. */
  type Matrix = map<string, map<string, real>>

  /**
    * The matrix row written for the ingredient at position `i` of `names`: a
    * cell for every listed name, holding the row's entry for that name as
    * `Cell` gives it.
    */
  ghost predicate RowOf(row: map<string, real>, names: seq<string>, i: int, counts: map<string, nat>) {
    && (forall b :: b in row <==> b in names)
    && (forall b | b in row :: row[b] == Cell(names, i, counts, b))
  }

  class ComplexQueryProcessor {
    const engine: QueryEngine
    const recommender: Option<RecommendationEngines.RecommendationEngine>

    /** `ComplexQueryProcessor(query_engine, recommendation_engine)`; the LLM hand-off is not part of this model. */
    constructor (engine: QueryEngine, recommender: Option<RecommendationEngines.RecommendationEngine>)
      ensures this.engine == engine && this.recommender == recommender
    {
      this.engine := engine;
      this.recommender := recommender;
    }

    /** The graph trending pairs are counted on: the recommendation engine's when there is one, else the processor's own. */
    function TrendGraph(): RecipeGraph {
      if recommender.Some? then recommender.value.engine.graph else engine.graph
    }

    // -------------------------------------------------------------------------
    // One query-engine call per name, and the loops over the names
    // -------------------------------------------------------------------------

    method RunTally(k: Tally, name: string) returns (r: seq<(Node, nat)>)
      requires Shaped(engine.graph.State())
      ensures Tallied(engine.Snapshot(), k, name, r)
    {
      ghost var e := engine.Snapshot();
      var xs;
      ghost var counts;
      match k
      case PairsOf =>
        r, xs, counts := engine.FindIngredientPairs(name, 2);
        TallyIntro(e, name, Ingredient, Contains, Contains, true, 2, r, xs, counts);
      case MethodsOf =>
        r, xs, counts := engine.FindCookingMethodsForIngredient(name);
        TallyIntro(e, name, Ingredient, Contains, UsesMethod, false, 0, r, xs, counts);
      case IngredientsOf =>
        r, xs, counts := engine.FindIngredientsByCookingMethod(name);
        TallyIntro(e, name, CookingMethod, UsesMethod, Contains, false, 0, r, xs, counts);
    }

    method RunSimilar(name: string) returns (r: seq<(Node, real)>)
      requires Shaped(engine.graph.State())
      ensures SimilarAnswer(engine.Snapshot(), name, r)
    {
      var ds;
      r, ds := engine.FindSimilarDishes(name, 5);
      SimilarIntro(engine.Snapshot(), name, r, ds);
    }

    method RunSubstitutes(name: string) returns (r: seq<(Node, real)>)
      requires Shaped(engine.graph.State())
      ensures SubstitutesAnswer(engine.Snapshot(), name, r)
    {
      var xs;
      r, xs := engine.GetSubstitutionSuggestions(name);
      SubstitutesIntro(engine.Snapshot(), name, r, xs);
    }

    /** The tally `k` for every name, appended in order. */
    method CollectTallies(k: Tally, names: seq<string>) returns (all: seq<(Node, nat)>, ghost parts: seq<seq<(Node, nat)>>)
      requires Shaped(engine.graph.State())
      ensures |parts| == |names| && forall i | 0 <= i < |names| :: Tallied(engine.Snapshot(), k, names[i], parts[i])
      ensures all == Concat(parts)
    {
      ghost var e := engine.Snapshot();
      all := [];
      parts := [];
      for i := 0 to |names|
        invariant |parts| == i && forall j | 0 <= j < i :: Tallied(e, k, names[j], parts[j])
        invariant all == Concat(parts)
      {
        var rs := RunTally(k, names[i]);
        TalliedExtend(e, k, names, parts, rs);
        assert (parts + [rs])[..i] == parts;
        parts := parts + [rs];
        all := all + rs;
      }
    }

    /** `find_similar_dishes(name)` for every name, appended in order. */
    method CollectSimilar(names: seq<string>) returns (all: seq<(Node, real)>, ghost parts: seq<seq<(Node, real)>>)
      requires Shaped(engine.graph.State())
      ensures |parts| == |names| && SimilarAll(engine.Snapshot(), names, parts)
      ensures all == Concat(parts)
    {
      ghost var e := engine.Snapshot();
      all := [];
      parts := [];
      for i := 0 to |names|
        invariant |parts| == i && SimilarAll(e, names, parts)
        invariant all == Concat(parts)
      {
        var rs := RunSimilar(names[i]);
        SimilarExtend(e, names, parts, rs);
        assert (parts + [rs])[..i] == parts;
        parts := parts + [rs];
        all := all + rs;
      }
    }

    /** `get_ingredient_substitution_suggestions(name)` for every name, appended in order. */
    method CollectSubstitutes(names: seq<string>) returns (all: seq<(Node, real)>, ghost parts: seq<seq<(Node, real)>>)
      requires Shaped(engine.graph.State())
      ensures |parts| == |names| && SubstitutesAll(engine.Snapshot(), names, parts)
      ensures all == Concat(parts)
    {
      ghost var e := engine.Snapshot();
      all := [];
      parts := [];
      for i := 0 to |names|
        invariant |parts| == i && SubstitutesAll(e, names, parts)
        invariant all == Concat(parts)
      {
        var rs := RunSubstitutes(names[i]);
        SubstitutesExtend(e, names, parts, rs);
        assert (parts + [rs])[..i] == parts;
        parts := parts + [rs];
        all := all + rs;
      }
    }

    method RunDishes(names: seq<string>) returns (r: seq<(Node, nat)>)
      requires Shaped(engine.graph.State())
      ensures DishesAnswer(engine.Snapshot(), names, r)
    {
      var xs;
      ghost var parts, counts;
      r, xs, parts, counts := engine.FindDishesByIngredients(names, false);
      DishesIntro(engine.Snapshot(), names, r, parts, counts);
    }

    /** The dishes ranked for the listed ingredients the query names, none when it names none. */
    method DishesForQuery(query: string) returns (found: seq<(Node, nat)>)
      requires Shaped(engine.graph.State())
      ensures IngredientsIn(query) == [] ==> found == []
      ensures IngredientsIn(query) != [] ==> DishesAnswer(engine.Snapshot(), IngredientsIn(query), found)
    {
      var ings := ExtractIngredients(query);
      found := [];
      if ings != [] {
        found := RunDishes(ings);
      }
    }

    // -------------------------------------------------------------------------
    // The query kinds
    // -------------------------------------------------------------------------

    /**
      * `_process_pairing_query`: an error result when the query names no
      * listed ingredient; otherwise the partner lists of every named
      * ingredient, one entry per partner name with its largest count, sorted
      * by count, largest first.
      */
    method ProcessPairing(query: string) returns (r: QueryResult<(Node, nat)>, ghost parts: seq<seq<(Node, nat)>>)
      requires Shaped(engine.graph.State())
      ensures IngredientsIn(query) == [] ==> r == QueryResult("pairing", [], Some("未找到食材信息"))
      ensures IngredientsIn(query) != [] ==>
        && |parts| == |IngredientsIn(query)|
        && (forall i | 0 <= i < |parts| :: PairsAnswer(engine.Snapshot(), IngredientsIn(query)[i], parts[i]))
        && r == QueryResult("pairing", Dedupe(Concat(parts), PairName, CountOf), None)
    {
      var ings := ExtractIngredients(query);
      if ings == [] {
        parts := [];
        return QueryResult("pairing", [], Some("未找到食材信息")), parts;
      }
      var all;
      all, parts := CollectTallies(PairsOf, ings);
      var results := DedupePairs<nat>(all, CountOf);
      r := QueryResult("pairing", results, None);
    }

    /**
      * `_process_recommendation_query`: the dishes `find_dishes_by_ingredients`
      * ranks for the listed ingredients the query names, then the similar
      * dishes of every dish name `dishes` holds, one entry per name with its
      * largest score, sorted by score, largest first.
      */
    method ProcessRecommendation(query: string, dishes: seq<string>)
      returns (r: QueryResult<(Node, real)>, ghost found: seq<(Node, nat)>, ghost parts: seq<seq<(Node, real)>>)
      requires Shaped(engine.graph.State())
      ensures IngredientsIn(query) == [] ==> found == []
      ensures IngredientsIn(query) != [] ==> DishesAnswer(engine.Snapshot(), IngredientsIn(query), found)
      ensures |parts| == |dishes| && forall i | 0 <= i < |dishes| :: SimilarAnswer(engine.Snapshot(), dishes[i], parts[i])
      ensures r == QueryResult("recommendation", Dedupe(Scored(found) + Concat(parts), PairName, ScoreOf), None)
    {
      var byIngredients := DishesForQuery(query);
      found := byIngredients;
      var similar;
      similar, parts := CollectSimilar(dishes);
      var recommendations := Scored(byIngredients) + similar;
      var results := DedupePairs<real>(recommendations, ScoreOf);
      r := QueryResult("recommendation", results, None);
    }

    /**
      * `_process_substitution_query`: an error result when the query names no
      * listed ingredient; otherwise the substitution suggestions for every
      * named ingredient, one entry per name with its largest score, sorted.
      */
    method ProcessSubstitution(query: string) returns (r: QueryResult<(Node, real)>, ghost parts: seq<seq<(Node, real)>>)
      requires Shaped(engine.graph.State())
      ensures IngredientsIn(query) == [] ==> r == QueryResult("substitution", [], Some("未找到食材信息"))
      ensures IngredientsIn(query) != [] ==>
        && |parts| == |IngredientsIn(query)|
        && (forall i | 0 <= i < |parts| :: SubstitutesAnswer(engine.Snapshot(), IngredientsIn(query)[i], parts[i]))
        && r == QueryResult("substitution", Dedupe(Concat(parts), PairName, ScoreOf), None)
    {
      var ings := ExtractIngredients(query);
      if ings == [] {
        parts := [];
        return QueryResult("substitution", [], Some("未找到食材信息")), parts;
      }
      var all;
      all, parts := CollectSubstitutes(ings);
      var results := DedupePairs<real>(all, ScoreOf);
      r := QueryResult("substitution", results, None);
    }

    /**
      * `_process_similarity_query` on the dish names picked out of the query:
      * an error result when there are none; otherwise the similar dishes of
      * every name, one entry per name with its largest score, sorted.
      */
    method ProcessSimilarity(dishes: seq<string>) returns (r: QueryResult<(Node, real)>, ghost parts: seq<seq<(Node, real)>>)
      requires Shaped(engine.graph.State())
      ensures dishes == [] ==> r == QueryResult("similarity", [], Some("未找到菜品信息"))
      ensures dishes != [] ==>
        && |parts| == |dishes|
        && (forall i | 0 <= i < |parts| :: SimilarAnswer(engine.Snapshot(), dishes[i], parts[i]))
        && r == QueryResult("similarity", Dedupe(Concat(parts), PairName, ScoreOf), None)
    {
      if dishes == [] {
        parts := [];
        return QueryResult("similarity", [], Some("未找到菜品信息")), parts;
      }
      var all;
      all, parts := CollectSimilar(dishes);
      var results := DedupePairs<real>(all, ScoreOf);
      r := QueryResult("similarity", results, None);
    }

    /**
      * `_process_cooking_method_query`: the cooking methods of every listed
      * ingredient the query names, then the ingredients of every listed
      * cooking method it names, one entry per name with its largest count,
      * sorted by count, largest first.
      */
    method ProcessCookingMethod(query: string)
      returns (r: QueryResult<(Node, nat)>, ghost forIngredients: seq<seq<(Node, nat)>>, ghost forMethods: seq<seq<(Node, nat)>>)
      requires Shaped(engine.graph.State())
      ensures |forIngredients| == |IngredientsIn(query)|
      ensures forall i | 0 <= i < |forIngredients| :: Tallied(engine.Snapshot(), MethodsOf, IngredientsIn(query)[i], forIngredients[i])
      ensures |forMethods| == |MethodsIn(query)|
      ensures forall i | 0 <= i < |forMethods| :: Tallied(engine.Snapshot(), IngredientsOf, MethodsIn(query)[i], forMethods[i])
      ensures r == QueryResult("cooking_method", Dedupe(Concat(forIngredients) + Concat(forMethods), PairName, CountOf), None)
    {
      var ings := ExtractIngredients(query);
      var methods := ExtractCookingMethods(query);
      var first, second;
      first, forIngredients := CollectTallies(MethodsOf, ings);
      second, forMethods := CollectTallies(IngredientsOf, methods);
      var results := DedupePairs<nat>(first + second, CountOf);
      r := QueryResult("cooking_method", results, None);
    }

    /**
      * `_process_discovery_query`: a query mentioning a trend word and a
      * combination word gets the trending ingredient pairs, counted with
      * `min_cooccurrence` 3 on the recommendation engine's graph when there is
      * one and on the processor's own graph otherwise, each reported as a
      * combination node; any other discovery query gets the "unsupported"
      * error result.
      */
    method ProcessDiscovery(query: string) returns (r: QueryResult<(Node, nat)>, ghost trend: seq<(Pair, nat)>, ghost counts: map<Pair, nat>)
      requires Shaped(TrendGraph().State())
      ensures !HotCombination(query) ==> r == QueryResult("discovery", [], Some("未支持的发现查询类型"))
      ensures HotCombination(query) ==>
        && (forall p :: Count(counts, p) == TrendCount(TrendGraph().State(), TrendGraph().FindNodesByType(Dish), p))
        && IsTopK(trend, multiset(Qualifying(counts, 3)), CountKey, 20)
        && r == QueryResult("discovery", Combinations(trend), None)
    {
      if !HotCombination(query) {
        trend, counts := [], map[];
        return QueryResult("discovery", [], Some("未支持的发现查询类型")), trend, counts;
      }
      var pairs;
      pairs, counts := Trending.DiscoverTrending(TrendGraph(), 3);
      trend := pairs;
      var results := CombinationNodes(pairs);
      r := QueryResult("discovery", results, None);
    }

    /**
      * `get_ingredient_compatibility_matrix`: a row for every listed
      * ingredient, written at its last position in the list (an earlier row of
      * the same name is replaced), holding 1.0 for the ingredient itself and
      * `min(count / 10, 1.0)` for every other listed name, the count being the
      * partner count `find_ingredient_pairs` gave that row (0 when absent).
      */
    method CompatibilityMatrix(ingredients: seq<string>) returns (matrix: Matrix, ghost rows: seq<seq<(Node, nat)>>)
      requires Shaped(engine.graph.State())
      ensures |rows| == |ingredients|
      ensures forall i | 0 <= i < |ingredients| :: PairsAnswer(engine.Snapshot(), ingredients[i], rows[i])
      ensures forall a :: a in matrix <==> a in ingredients
      ensures forall a | a in matrix :: forall b :: b in matrix[a] <==> b in ingredients
      ensures forall a, b | a in matrix && b in matrix[a] ::
        matrix[a][b] == if a == b then 1.0 else Compatibility(PartnerCounts(rows[LastIndex(ingredients, a)]), b)
      ensures forall a, b | a in matrix && b in matrix[a] :: 0.0 <= matrix[a][b] <= 1.0
    {
      ghost var e := engine.Snapshot();
      matrix := map[];
      rows := [];
      for i := 0 to |ingredients|
        invariant |rows| == i && forall j | 0 <= j < i :: PairsAnswer(e, ingredients[j], rows[j])
        invariant MatrixSoFar(matrix, ingredients, i, rows)
      {
        var pairs := RunTally(PairsOf, ingredients[i]);
        assert PairsAnswer(e, ingredients[i], pairs);
        PairsExtend(e, ingredients, rows, pairs);
        var partners := PartnerCounts(pairs);
        var row := BuildRow(ingredients, i, partners);
        MatrixStep(ingredients, i, matrix, rows, row, pairs);
        assert (rows + [pairs])[..i] == rows;
        matrix := matrix[ingredients[i] := row];
        rows := rows + [pairs];
      }
      assert ingredients[..|ingredients|] == ingredients;
      MatrixCells(ingredients, matrix, rows);
    }
  }
}
