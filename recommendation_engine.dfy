/**
  * `GraphRecommendationEngine`: recommendations built on the query engine's
  * answers (dishes for a list of available ingredients, partner ingredients
  * for a dish, similar dishes, dishes for a cooking method or a category,
  * substitutes for an ingredient), each scored by a closed-form rule, and the
  * hybrid that merges several of them, keeping one entry per name.
  */
module RecommendationEngines {
  import opened Wrappers
  import opened Dicts
  import opened Ranking
  import opened GraphModels
  import opened RecipeGraphs
  import opened QueryEngines
  import opened Trending

  // ---------------------------------------------------------------------------
  // Recommendations
  // ---------------------------------------------------------------------------

  /** The `metadata` dictionary each strategy attaches, one variant per strategy. */
  datatype Metadata =
    | ByIngredients(matchCount: nat, totalIngredients: nat, missingIngredients: seq<string>, completionRate: real)
    | Pairing(baseIngredient: string, cooccurrenceCount: nat, targetDish: string)
    | BySimilarity(similarityScore: real, ingredientCount: nat, cookingMethods: seq<string>)
    | ByMethod(cookingMethod: string, commonIngredientCount: nat, totalIngredients: nat)
    | ByCategory(category: string, ingredientCount: nat, cookingMethods: seq<string>, difficulty: PropValue)
    | Substitution(originalIngredient: string, substitutionScore: real, commonPairings: seq<string>)

  /** `Recommendation`; the templated `reason` text is not modelled. */
  datatype Recommendation = Recommendation(item: Node, score: real, metadata: Metadata)

  function ItemName(r: Recommendation): string {
    r.item.name
  }

  function RecScore(r: Recommendation): real {
    r.score
  }

  // ---------------------------------------------------------------------------
  // The scorers
  // ---------------------------------------------------------------------------

  /** The complexity factor of `_calculate_ingredient_based_score`. */
  function ComplexityFactor(total: nat): (f: real)
    ensures f == 1.2 <==> 3 <= total <= 8
    ensures f == 0.8 <==> total > 10
    ensures f == 1.0 <==> total < 3 || 9 <= total <= 10
  {
    if 3 <= total <= 8 then 1.2 else if total > 10 then 0.8 else 1.0
  }

  /** `match_count / len(dish_ingredients) if dish_ingredients else 0`. */
  function CompletionRate(matches: nat, total: nat): real {
    if total == 0 then 0.0 else matches as real / total as real
  }

  /** `_calculate_ingredient_based_score`: the matched share of the dish's ingredients, scaled by the complexity factor. */
  function IngredientScore(matches: nat, total: nat): (s: real)
    ensures s == CompletionRate(matches, total) * ComplexityFactor(total)
    ensures 0.0 <= s
    ensures s == 0.0 <==> total == 0 || matches == 0
    ensures matches <= total ==> s <= ComplexityFactor(total)
  {
    if total == 0 then 0.0
    else
      var rate := matches as real / total as real;
      assert matches <= total ==> rate <= 1.0 by {
        if matches <= total {
          RatioBounds(matches, total);
        }
      }
      assert rate > 0.0 <==> matches > 0;
      rate * ComplexityFactor(total)
  }

  /**
    * The score is the completion rate times the factor; it is 0 exactly when the
    * dish has no ingredients or nothing matched, and it never exceeds the factor
    * while the matches do not outnumber the ingredients.
    */
  lemma IngredientScoreRange(matches: nat, total: nat)
    ensures IngredientScore(matches, total) == CompletionRate(matches, total) * ComplexityFactor(total)
    ensures IngredientScore(matches, total) >= 0.0
    ensures IngredientScore(matches, total) == 0.0 <==> total == 0 || matches == 0
    ensures matches <= total ==> IngredientScore(matches, total) <= ComplexityFactor(total)
  {
    if 0 < total && matches <= total {
      RatioBounds(matches, total);
    }
  }

  /** More matches never lower the score of a dish. */
  lemma IngredientScoreMonotone(m1: nat, m2: nat, total: nat)
    requires m1 <= m2
    ensures IngredientScore(m1, total) <= IngredientScore(m2, total)
  {
    if total > 0 {
      assert m1 as real / total as real <= m2 as real / total as real;
    }
  }

  /** `_calculate_category_based_score` for a dish with `complexity` ingredients and methods together. */
  function CategoryScore(complexity: nat): (s: real)
    ensures s == 1.0 <==> 4 <= complexity <= 10
    ensures s == 0.8 <==> complexity < 4
    ensures s == 0.6 <==> complexity > 10
  {
    if 4 <= complexity <= 10 then 1.0 else if complexity < 4 then 0.8 else 0.6
  }

  /** `_calculate_method_based_score`: the share of the dish's ingredients that suit the method. */
  function MethodScore(common: nat, total: nat): (s: real)
    ensures total == 0 ==> s == 0.0
    ensures 0 < common <= total ==> 0.0 < s <= 1.0
    ensures 0 < common <= total ==> (s == 1.0 <==> common == total)
  {
    if total == 0 then 0.0
    else if common <= total then
      RatioBounds(common, total);
      common as real / total as real
    else common as real / total as real
  }

  /**
    * `_calculate_pairing_score`: `min(log(count + 1) / 5, 1.0)`, with the
    * natural logarithm `ln` a parameter.
    */
  function PairingScore(ln: real -> real, count: nat): (s: real)
    ensures s <= 1.0
    ensures s == 1.0 || s == ln((count + 1) as real) / 5.0
    ensures ln((count + 1) as real) / 5.0 <= 1.0 ==> s == ln((count + 1) as real) / 5.0
  {
    var l := ln((count + 1) as real) / 5.0;
    if l <= 1.0 then l else 1.0
  }

  // ---------------------------------------------------------------------------
  // Dishes for the available ingredients
  // ---------------------------------------------------------------------------

  /** `[ing.name for ing in ns if ing.name not in available]`, as the loop appends them. */
  function Missing(ns: seq<Node>, available: seq<string>): seq<string> {
    if ns == [] then []
    else
      var n := ns[|ns| - 1];
      Missing(ns[..|ns| - 1], available) + (if n.name !in available then [n.name] else [])
  }

  /** The missing names are exactly the dish's ingredient names that are not available. */
  lemma {:induction false} MissingMembers(ns: seq<Node>, available: seq<string>, x: string)
    ensures x in Missing(ns, available) <==> x in Names(ns) && x !in available
  {
    if ns != [] {
      var ns0, n := ns[..|ns| - 1], ns[|ns| - 1];
      MissingMembers(ns0, available, x);
      assert Names(ns) == Names(ns0) + [n.name];
    }
  }

  /** The recommendation `recommend_dishes_by_ingredients` makes of one candidate `(dish, match_count)`. */
  function DishRec(g: GraphState, available: seq<string>, c: (Node, nat)): Recommendation
    requires Shaped(g)
  {
    var ns := Neighbors(g, c.0.id, Some(Contains));
    Recommendation(c.0, IngredientScore(c.1, |ns|),
      ByIngredients(c.1, |ns|, Take(Missing(ns, available), 5), CompletionRate(c.1, |ns|)))
  }

  /** The recommendations of the candidates `cs`, in candidate order. */
  function DishRecs(g: GraphState, available: seq<string>, cs: seq<(Node, nat)>): (r: seq<Recommendation>)
    requires Shaped(g)
    ensures |r| == |cs|
  {
    if cs == [] then [] else DishRecs(g, available, cs[..|cs| - 1]) + [DishRec(g, available, cs[|cs| - 1])]
  }

  lemma {:induction false} DishRecsAt(g: GraphState, available: seq<string>, cs: seq<(Node, nat)>, k: int)
    requires Shaped(g) && 0 <= k < |cs|
    ensures DishRecs(g, available, cs)[k] == DishRec(g, available, cs[k])
  {
    if k < |cs| - 1 {
      DishRecsAt(g, available, cs[..|cs| - 1], k);
    }
  }

  /**
    * Each recommendation carries its candidate's dish and match count and the
    * dish's number of ingredients; at most five missing names, each the name
    * of one of the dish's ingredients that is not available; the completion
    * rate; and the ingredient-based score (the completion rate times the
    * complexity factor, by `IngredientScoreRange`).
    */
  lemma DishRecFacts(g: GraphState, available: seq<string>, c: (Node, nat))
    requires Shaped(g)
    ensures var r := DishRec(g, available, c);
      && r.item == c.0
      && r.metadata.ByIngredients?
      && r.metadata.matchCount == c.1
      && r.metadata.totalIngredients == |IngredientNames(g, c.0)|
      && |r.metadata.missingIngredients| <= 5
      && (forall x | x in r.metadata.missingIngredients :: x in IngredientNames(g, c.0) && x !in available)
      && r.metadata.completionRate == CompletionRate(c.1, r.metadata.totalIngredients)
      && r.score == IngredientScore(c.1, r.metadata.totalIngredients)
  {
    var ns := Neighbors(g, c.0.id, Some(Contains));
    MissingTaken(ns, available);
  }

  /** The first five missing names are still ingredient names that are not available. */
  lemma MissingTaken(ns: seq<Node>, available: seq<string>)
    ensures forall x | x in Take(Missing(ns, available), 5) :: x in Names(ns) && x !in available
  {
    var m := Missing(ns, available);
    forall x | x in Take(m, 5)
      ensures x in Names(ns) && x !in available
    {
      assert x in m;
      MissingMembers(ns, available, x);
    }
  }

  // ---------------------------------------------------------------------------
  // Similar dishes
  // ---------------------------------------------------------------------------

  /** `[method.name for method in cooking_methods[:3]]`. */
  function MethodNames(g: GraphState, d: Node): seq<string>
    requires Shaped(g)
  {
    Names(Take(Neighbors(g, d.id, Some(UsesMethod)), 3))
  }

  /** The recommendation `recommend_similar_dishes` makes of one `(dish, similarity)` pair. */
  function SimilarRec(g: GraphState, p: (Node, real)): Recommendation
    requires Shaped(g)
  {
    Recommendation(p.0, p.1, BySimilarity(p.1, |Neighbors(g, p.0.id, Some(Contains))|, MethodNames(g, p.0)))
  }

  function SimilarRecs(g: GraphState, ps: seq<(Node, real)>): (r: seq<Recommendation>)
    requires Shaped(g)
    ensures |r| == |ps|
  {
    if ps == [] then [] else SimilarRecs(g, ps[..|ps| - 1]) + [SimilarRec(g, ps[|ps| - 1])]
  }

  lemma {:induction false} SimilarRecsAt(g: GraphState, ps: seq<(Node, real)>, k: int)
    requires Shaped(g) && 0 <= k < |ps|
    ensures SimilarRecs(g, ps)[k] == SimilarRec(g, ps[k])
  {
    if k < |ps| - 1 {
      SimilarRecsAt(g, ps[..|ps| - 1], k);
    }
  }

  /**
    * The recommendations keep the pairs' dishes and similarities position by
    * position, so a list of pairs sorted by similarity gives recommendations
    * sorted by score without sorting again.
    */
  lemma SimilarRecsSorted(g: GraphState, ps: seq<(Node, real)>)
    requires Shaped(g)
    requires SortedDesc(ps, ScoreOf)
    ensures forall k | 0 <= k < |ps| :: SimilarRecs(g, ps)[k].item == ps[k].0 && SimilarRecs(g, ps)[k].score == ps[k].1
    ensures SortedDesc(SimilarRecs(g, ps), RecScore)
  {
    forall k | 0 <= k < |ps|
      ensures SimilarRecs(g, ps)[k].item == ps[k].0 && SimilarRecs(g, ps)[k].score == ps[k].1
    {
      SimilarRecsAt(g, ps, k);
    }
  }

  // ---------------------------------------------------------------------------
  // Dishes for a cooking method
  // ---------------------------------------------------------------------------

  /** The names the `ingredient_frequency` counter is keyed by. */
  function NameSet(ims: seq<(Node, nat)>): set<string> {
    set k | 0 <= k < |ims| :: ims[k].0.name
  }

  /** `all_dishes`: the CONTAINS neighbours of every ingredient of `ims`, as a set. */
  function DishesOf(g: GraphState, ims: seq<(Node, nat)>): set<Node>
    requires Shaped(g)
  {
    if ims == [] then {}
    else DishesOf(g, ims[..|ims| - 1]) + Elements(Neighbors(g, ims[|ims| - 1].0.id, Some(Contains)))
  }

  /** `set(ns)`. */
  function Elements(ns: seq<Node>): set<Node> {
    set k | 0 <= k < |ns| :: ns[k]
  }

  /** How many of the dish's ingredients `ns` have a name in `names`. */
  function Common(ns: seq<Node>, names: set<string>): (c: nat)
    ensures c <= |ns|
  {
    if ns == [] then 0 else Common(ns[..|ns| - 1], names) + (if ns[|ns| - 1].name in names then 1 else 0)
  }

  /** The recommendation `recommend_by_cooking_method` makes of one dish. */
  function MethodRec(g: GraphState, m: string, names: set<string>, d: Node): Recommendation
    requires Shaped(g)
  {
    var ns := Neighbors(g, d.id, Some(Contains));
    var c := Common(ns, names);
    Recommendation(d, MethodScore(c, |ns|), ByMethod(m, c, |ns|))
  }

  /** The recommendations for the dishes `ds`, in order, skipping dishes with no suitable ingredient. */
  function MethodRecs(g: GraphState, m: string, names: set<string>, ds: seq<Node>): seq<Recommendation>
    requires Shaped(g)
  {
    if ds == [] then []
    else
      var d := ds[|ds| - 1];
      var keep := Common(Neighbors(g, d.id, Some(Contains)), names) > 0;
      MethodRecs(g, m, names, ds[..|ds| - 1]) + (if keep then [MethodRec(g, m, names, d)] else [])
  }

  lemma MethodRecsStep(g: GraphState, m: string, names: set<string>, ds: seq<Node>, i: int)
    requires Shaped(g) && 0 <= i < |ds|
    ensures MethodRecs(g, m, names, ds[..i + 1]) == MethodRecs(g, m, names, ds[..i]) +
      (if Common(Neighbors(g, ds[i].id, Some(Contains)), names) > 0 then [MethodRec(g, m, names, ds[i])] else [])
  {
    assert ds[..i + 1][..i] == ds[..i];
  }

  /**
    * Every recommendation is for one of the dishes, has at least one suitable
    * ingredient, and scores their share of the dish's ingredients, a number in
    * (0, 1].
    */
  lemma {:induction false} MethodRecsSound(g: GraphState, m: string, names: set<string>, ds: seq<Node>, r: Recommendation)
    requires Shaped(g)
    requires r in MethodRecs(g, m, names, ds)
    ensures r.item in ds && r == MethodRec(g, m, names, r.item)
    ensures r.metadata.ByMethod? && r.metadata.cookingMethod == m
    ensures 0 < r.metadata.commonIngredientCount <= r.metadata.totalIngredients
    ensures r.score == r.metadata.commonIngredientCount as real / r.metadata.totalIngredients as real
    ensures 0.0 < r.score <= 1.0
  {
    var ds0, d := ds[..|ds| - 1], ds[|ds| - 1];
    if r in MethodRecs(g, m, names, ds0) {
      MethodRecsSound(g, m, names, ds0, r);
    }
  }

  /** Every dish with at least one suitable ingredient is recommended. */
  lemma {:induction false} MethodRecsComplete(g: GraphState, m: string, names: set<string>, ds: seq<Node>, d: Node)
    requires Shaped(g)
    requires d in ds && Common(Neighbors(g, d.id, Some(Contains)), names) > 0
    ensures MethodRec(g, m, names, d) in MethodRecs(g, m, names, ds)
  {
    var ds0 := ds[..|ds| - 1];
    if d != ds[|ds| - 1] {
      assert d in ds0 by {
        var k :| 0 <= k < |ds| && ds[k] == d;
        assert ds0[k] == d;
      }
      MethodRecsComplete(g, m, names, ds0, d);
    }
  }

  // ---------------------------------------------------------------------------
  // Dishes of a category
  // ---------------------------------------------------------------------------

  /** `dish.properties.get('difficulty', '未知')`. */
  function Difficulty(d: Node): PropValue {
    if "difficulty" in d.properties then d.properties["difficulty"] else Str("未知")
  }

  /** The recommendation `recommend_by_category` makes of one dish of the category. */
  function CategoryRec(g: GraphState, category: string, d: Node): Recommendation
    requires Shaped(g)
  {
    var ings := Neighbors(g, d.id, Some(Contains));
    var ms := Neighbors(g, d.id, Some(UsesMethod));
    Recommendation(d, CategoryScore(|ings| + |ms|), ByCategory(category, |ings|, Names(Take(ms, 3)), Difficulty(d)))
  }

  function CategoryRecs(g: GraphState, category: string, ds: seq<Node>): (r: seq<Recommendation>)
    requires Shaped(g)
    ensures |r| == |ds|
  {
    if ds == [] then [] else CategoryRecs(g, category, ds[..|ds| - 1]) + [CategoryRec(g, category, ds[|ds| - 1])]
  }

  lemma CategoryRecsStep(g: GraphState, category: string, ds: seq<Node>, i: int)
    requires Shaped(g) && 0 <= i < |ds|
    ensures CategoryRecs(g, category, ds[..i + 1]) == CategoryRecs(g, category, ds[..i]) + [CategoryRec(g, category, ds[i])]
  {
    assert ds[..i + 1][..i] == ds[..i];
  }

  /**
    * Every dish of the category is recommended once, in order, with the score
    * of its ingredient-and-method count: 1.0 for 4 to 10, 0.8 below, 0.6 above.
    */
  lemma {:induction false} CategoryRecsAt(g: GraphState, category: string, ds: seq<Node>, k: int)
    requires Shaped(g) && 0 <= k < |ds|
    ensures var r := CategoryRecs(g, category, ds)[k];
      var c := |Neighbors(g, ds[k].id, Some(Contains))| + |Neighbors(g, ds[k].id, Some(UsesMethod))|;
      && r.item == ds[k]
      && r.metadata.ByCategory? && r.metadata.category == category
      && r.metadata.ingredientCount == |IngredientNames(g, ds[k])|
      && |r.metadata.cookingMethods| <= 3
      && (r.score == 1.0 <==> 4 <= c <= 10)
      && (r.score == 0.8 <==> c < 4)
      && (r.score == 0.6 <==> c > 10)
  {
    if k < |ds| - 1 {
      CategoryRecsAt(g, category, ds[..|ds| - 1], k);
    }
  }

  // ---------------------------------------------------------------------------
  // The hybrid's strategies
  // ---------------------------------------------------------------------------

  /** The user preferences `hybrid_recommend` reads; a key that is not present is `None`. */
  datatype Preferences = Preferences(
    availableIngredients: Option<seq<string>>,
    preferredCookingMethods: Option<seq<string>>,
    preferredCategories: Option<seq<string>>,
    favoriteDishes: Option<seq<string>>)

  /** One of the calls the hybrid makes. */
  datatype Strategy =
    | FromIngredients(names: seq<string>)
    | FromMethod(cookingMethod: string)
    | FromCategory(category: string)
    | FromDish(dishName: string)

  /** One call per entry of a preference list, none when the key is absent. */
  function Each(xs: Option<seq<string>>, f: string -> Strategy): (r: seq<Strategy>)
    ensures xs.None? ==> r == []
    ensures xs.Some? ==> |r| == |xs.value| && forall i | 0 <= i < |r| :: r[i] == f(xs.value[i])
  {
    if xs.None? then [] else seq(|xs.value|, i requires 0 <= i < |xs.value| => f(xs.value[i]))
  }

  /**
    * The calls `hybrid_recommend` makes, in order: the ingredient strategy, then
    * one per preferred method, per preferred category and per favourite dish,
    * each only when its key is present.
    */
  function Strategies(p: Preferences): seq<Strategy> {
    (if p.availableIngredients.Some? then [FromIngredients(p.availableIngredients.value)] else [])
    + Each(p.preferredCookingMethods, s => FromMethod(s))
    + Each(p.preferredCategories, s => FromCategory(s))
    + Each(p.favoriteDishes, s => FromDish(s))
  }

  // ---------------------------------------------------------------------------
  // Loops that need no graph
  // ---------------------------------------------------------------------------

  /** The missing-ingredient loop of `recommend_dishes_by_ingredients`. */
  method MissingOf(ns: seq<Node>, available: seq<string>) returns (missing: seq<string>)
    ensures missing == Missing(ns, available)
  {
    missing := [];
    for k := 0 to |ns|
      invariant missing == Missing(ns[..k], available)
    {
      assert ns[..k + 1][..k] == ns[..k];
      if ns[k].name !in available {
        missing := missing + [ns[k].name];
      }
    }
    assert ns[..|ns|] == ns;
  }

  /** The `common_ingredient_count` loop of `recommend_by_cooking_method`. */
  method CommonOf(ns: seq<Node>, names: set<string>) returns (c: nat)
    ensures c == Common(ns, names)
  {
    c := 0;
    for k := 0 to |ns|
      invariant c == Common(ns[..k], names)
    {
      assert ns[..k + 1][..k] == ns[..k];
      if ns[k].name in names {
        c := c + 1;
      }
    }
    assert ns[..|ns|] == ns;
  }

  /** `set(ing.name for ing, _ in ims)`: the keys the `ingredient_frequency` counter receives. */
  method NameSetOf(ims: seq<(Node, nat)>) returns (names: set<string>)
    ensures names == NameSet(ims)
  {
    names := {};
    for i := 0 to |ims|
      invariant names == NameSet(ims[..i])
    {
      assert NameSet(ims[..i + 1]) == NameSet(ims[..i]) + {ims[i].0.name} by {
        assert forall k | 0 <= k < i :: ims[..i + 1][k] == ims[..i][k];
      }
      names := names + {ims[i].0.name};
    }
    assert ims[..|ims|] == ims;
  }

  /**
    * Cutting the substitutes, which carry the suggestions' scores position by
    * position, keeps them sorted by score, and every score lies in (0.1, 1].
    */
  lemma SubstituteScores(all: seq<(Node, real)>, subs: seq<(Node, real)>, recs: seq<Recommendation>, max: int)
    requires forall p | p in all :: 0.1 < p.1 <= 1.0
    requires subs == Take(SortDesc(all, ScoreOf), 10)
    requires |recs| == |subs| && forall k | 0 <= k < |recs| :: recs[k].score == subs[k].1
    ensures SortedDesc(Take(recs, max), RecScore)
    ensures forall y | y in Take(recs, max) :: 0.1 < y.score <= 1.0
  {
    SortedTake(all, ScoreOf, 10);
    SortedScores(subs, recs, max);
    var r := Take(recs, max);
    forall y | y in r
      ensures 0.1 < y.score <= 1.0
    {
      var k :| 0 <= k < |r| && r[k] == y;
      assert recs[k] == y && subs[k] in subs;
    }
  }

  /** Recommendations that carry the scores of a sorted list position by position are sorted too, and so is every prefix. */
  lemma SortedScores(subs: seq<(Node, real)>, recs: seq<Recommendation>, max: int)
    requires SortedDesc(subs, ScoreOf)
    requires |recs| == |subs| && forall k | 0 <= k < |recs| :: recs[k].score == subs[k].1
    ensures SortedDesc(Take(recs, max), RecScore)
  {
    var r := Take(recs, max);
    forall i, j | 0 <= i < j < |r|
      ensures RecScore(r[i]) >= RecScore(r[j])
    {
      assert r[i] == recs[i] && r[j] == recs[j];
      assert ScoreOf(subs[i]) >= ScoreOf(subs[j]);
    }
  }

  /** Every suggestion scores in (0.1, 1]. */
  lemma SuggestionBounds(g: GraphState, xs: seq<Node>)
    requires Shaped(g)
    ensures forall p | p in SuggestionsOf(g, xs) :: 0.1 < p.1 <= 1.0
  {
    forall p | p in SuggestionsOf(g, xs)
      ensures 0.1 < p.1 <= 1.0
    {
      SuggestionsSound(g, xs, p);
    }
  }

  /** `[pair[0].name for pair in ps]`. */
  function PairNames(ps: seq<(Node, nat)>): (r: seq<string>)
    ensures |r| == |ps|
  {
    seq(|ps|, k requires 0 <= k < |ps| => ps[k].0.name)
  }

  /**
    * `_merge_recommendations`: one entry per item name, the first of the
    * highest-scoring ones, sorted by score and cut to `max`.
    */
  method MergeRecommendations(recs: seq<Recommendation>, max: int) returns (r: seq<Recommendation>)
    ensures r == MergeBest(recs, ItemName, RecScore, max)
    ensures UniqueNames(r, ItemName)
    ensures forall y | y in r :: y in recs && forall x | x in recs && x.item.name == y.item.name :: x.score <= y.score
    ensures SortedDesc(r, RecScore)
    ensures IsTopK(r, multiset(BestValues(recs, ItemName, RecScore)), RecScore, max)
  {
    var unique := KeepBest(recs, ItemName, RecScore);
    r := Take(SortDesc(unique, RecScore), max);
    MergeBestSpec(recs, ItemName, RecScore, max);
  }

  // ---------------------------------------------------------------------------
  // What the strategies return, in the state `e` the queries read
  // ---------------------------------------------------------------------------

  /**
    * `r` is what `recommend_dishes_by_ingredients(available, max)` returns
    * when `find_dishes_by_ingredients` matched `parts` for the names, tallied
    * `counts` and ranked the candidates `cands`: their recommendations,
    * sorted by score and cut to `max`.
    */
  ghost predicate IngredientsAnswer(e: Env, available: seq<string>, max: int, cands: seq<(Node, nat)>,
                                    parts: seq<seq<Node>>, counts: map<string, nat>, r: seq<Recommendation>)
    requires Shaped(e.g)
  {
    var g := e.g;
    && |parts| == |available|
    && (forall i | 0 <= i < |available| :: FoundIn(e, parts[i], available[i], Some(Ingredient), 10))
    && Positive(counts)
    && (forall y :: Count(counts, y) == HopCount(g, Concat(parts), Some(Contains), y))
    && (Concat(parts) == [] ==> cands == [])
    && (Concat(parts) != [] ==> RankedCounts(g, counts, 0, cands))
    && r == Take(SortDesc(DishRecs(g, available, cands), RecScore), max)
  }

  /**
    * `r` is what `recommend_similar_dishes(dishName, max)` returns when the
    * dish search matched `ds`: the recommendations of the five most similar
    * pairs `find_similar_dishes` ranks, in that order, cut to `max`.
    */
  ghost predicate SimilarAnswer(e: Env, dishName: string, max: int, ds: seq<Node>, r: seq<Recommendation>)
    requires Shaped(e.g)
  {
    var g := e.g;
    && FoundIn(e, ds, dishName, Some(Dish), 10)
    && r == Take(SimilarRecs(g, Take(SortDesc(SimilarOf(g, ds), ScoreOf), 5)), max)
  }

  /**
    * `r` is what `recommend_by_cooking_method(m, max)` returns when
    * `find_ingredients_by_cooking_method` matched the methods `ms`, tallied
    * `counts` and ranked the ingredients `ims`, and the set of their dishes
    * was listed as `dishes`: the recommendations of the dishes with a
    * suitable ingredient, sorted by score and cut to `max`.
    */
  ghost predicate MethodAnswer(e: Env, m: string, max: int, ims: seq<(Node, nat)>, ms: seq<Node>, counts: map<string, nat>,
                               dishes: seq<Node>, r: seq<Recommendation>)
    requires Shaped(e.g)
  {
    var g := e.g;
    && FoundIn(e, ms, m, Some(CookingMethod), 10)
    && Positive(counts)
    && (forall y :: Count(counts, y) == TwoHopCount(g, ms, Some(UsesMethod), Some(Contains), false, y))
    && (ms == [] ==> ims == [])
    && (ms != [] ==> RankedCounts(g, counts, 0, ims))
    && Distinct(dishes)
    && (forall d :: d in dishes <==> d in DishesOf(g, ims))
    && r == Take(SortDesc(MethodRecs(g, m, NameSet(ims), dishes), RecScore), max)
  }

  /**
    * `r` is what `recommend_by_category(category, max)` returns when the
    * category search matched `cs`: nothing without a match, otherwise the
    * recommendations of the BELONGS_TO neighbours of the first match, sorted
    * by score and cut to `max`.
    */
  ghost predicate CategoryAnswer(e: Env, category: string, max: int, cs: seq<Node>, r: seq<Recommendation>)
    requires Shaped(e.g)
  {
    var g := e.g;
    && FoundIn(e, cs, category, Some(Category), 10)
    && (cs == [] ==> r == [])
    && (cs != [] ==> r == Take(SortDesc(CategoryRecs(g, category, Neighbors(g, cs[0].id, Some(BelongsTo))), RecScore), max))
  }

  /** `r` is a list the strategy `s` may return. */
  ghost predicate Answers(e: Env, s: Strategy, max: int, r: seq<Recommendation>)
    requires Shaped(e.g)
  {
    match s
    case FromIngredients(names) => exists cands, parts, counts :: IngredientsAnswer(e, names, max, cands, parts, counts, r)
    case FromMethod(m) => exists ims, ms, counts, dishes :: MethodAnswer(e, m, max, ims, ms, counts, dishes, r)
    case FromCategory(c) => exists cs :: CategoryAnswer(e, c, max, cs, r)
    case FromDish(d) => exists ds :: SimilarAnswer(e, d, max, ds, r)
  }

  /** One more strategy's answer, after the answers to the strategies before it. */
  lemma AnswersExtend(e: Env, ss: seq<Strategy>, max: int, parts: seq<seq<Recommendation>>, rs: seq<Recommendation>)
    requires Shaped(e.g) && |parts| < |ss|
    requires forall j | 0 <= j < |parts| :: Answers(e, ss[j], max, parts[j])
    requires Answers(e, ss[|parts|], max, rs)
    ensures forall j | 0 <= j < |parts| + 1 :: Answers(e, ss[j], max, (parts + [rs])[j])
  {
    forall j | 0 <= j < |parts| + 1
      ensures Answers(e, ss[j], max, (parts + [rs])[j])
    {
      if j < |parts| {
        assert (parts + [rs])[j] == parts[j];
      }
    }
  }

  /** A partner `n` of `base`, counted `c` times, not named in the dish `ds[i]`, is a proposal. */
  lemma PairProposed(e: Env, ds: seq<Node>, i: int, dishName: string, ln: real -> real, base: string,
                     xs: seq<Node>, counts: map<string, nat>, n: Node, c: nat, recs: seq<Recommendation>)
    requires Shaped(e.g) && 0 <= i < |ds|
    requires base in IngredientNames(e.g, ds[i]) && n.name !in IngredientNames(e.g, ds[i])
    requires FoundIn(e, xs, base, Some(Ingredient), 10)
    requires Count(counts, n.id) == TwoHopCount(e.g, xs, Some(Contains), Some(Contains), true, n.id)
    requires IsNodeOf(e.g, n) && n.id in counts && counts[n.id] == c && c >= 2
    requires forall rec | rec in recs :: Proposed(e, ds, dishName, ln, rec)
    ensures forall rec | rec in recs + [Recommendation(n, PairingScore(ln, c), Pairing(base, c, dishName))] ::
      Proposed(e, ds, dishName, ln, rec)
  {
    assert Count(counts, n.id) == c;
    assert Proposed(e, ds, dishName, ln, Recommendation(n, PairingScore(ln, c), Pairing(base, c, dishName)));
  }

  /**
    * `rec` is one of the proposals `recommend_ingredients_by_dish` collects
    * for the dishes `ds`: a stored ingredient paired, at least twice, with an
    * ingredient of one of the dishes, as tallied by `find_ingredient_pairs`
    * for that ingredient's name, and not itself named among that dish's
    * ingredients.
    */
  ghost predicate Proposed(e: Env, ds: seq<Node>, dishName: string, ln: real -> real, rec: Recommendation)
    requires Shaped(e.g)
  {
    var g := e.g;
    && rec.metadata.Pairing?
    && rec.metadata.targetDish == dishName
    && rec.metadata.cooccurrenceCount >= 2
    && rec.score == PairingScore(ln, rec.metadata.cooccurrenceCount)
    && IsNodeOf(g, rec.item)
    && (exists i | 0 <= i < |ds| ::
          rec.metadata.baseIngredient in IngredientNames(g, ds[i]) && rec.item.name !in IngredientNames(g, ds[i]))
    && (exists xs :: FoundIn(e, xs, rec.metadata.baseIngredient, Some(Ingredient), 10) &&
          rec.metadata.cooccurrenceCount == TwoHopCount(g, xs, Some(Contains), Some(Contains), true, rec.item.id))
  }

  /**
    * `r` is the merge of the proposals `recs` for the dishes `ds`: for each
    * name one proposal with the highest score among that name's, sorted by
    * score.
    */
  ghost predicate Merged(e: Env, dishName: string, max: int, ln: real -> real, ds: seq<Node>, recs: seq<Recommendation>, r: seq<Recommendation>)
    requires Shaped(e.g)
  {
    && r == MergeBest(recs, ItemName, RecScore, max)
    && (forall rec | rec in recs :: Proposed(e, ds, dishName, ln, rec))
    && (forall y | y in r :: Proposed(e, ds, dishName, ln, y) && forall x | x in recs && x.item.name == y.item.name :: x.score <= y.score)
    && UniqueNames(r, ItemName) && SortedDesc(r, RecScore)
  }

  /** Merging keeps only proposals, the best of each name. */
  lemma MergedProposals(e: Env, dishName: string, max: int, ln: real -> real, ds: seq<Node>, recs: seq<Recommendation>)
    requires Shaped(e.g)
    requires forall rec | rec in recs :: Proposed(e, ds, dishName, ln, rec)
    ensures Merged(e, dishName, max, ln, ds, recs, MergeBest(recs, ItemName, RecScore, max))
  {
    MergeBestSpec(recs, ItemName, RecScore, max);
  }

  /**
    * `x` is the name of a stored node that `find_ingredient_pairs(base)`
    * tallies at least twice.
    */
  ghost predicate PairedWith(e: Env, base: string, x: string)
    requires Shaped(e.g)
  {
    var g := e.g;
    exists n, ys :: IsNodeOf(g, n) && n.name == x && FoundIn(e, ys, base, Some(Ingredient), 10)
      && TwoHopCount(g, ys, Some(Contains), Some(Contains), true, n.id) >= 2
  }

  /**
    * `rec` is the recommendation `recommend_ingredient_substitutions` makes of
    * the suggestion `sub` for `original`: the suggested ingredient with its
    * substitution score, and at most five names it is paired with.
    */
  ghost predicate Substitutes(e: Env, original: string, sub: (Node, real), rec: Recommendation)
    requires Shaped(e.g)
  {
    && rec.item == sub.0 && rec.score == sub.1
    && rec.metadata.Substitution?
    && rec.metadata.originalIngredient == original
    && rec.metadata.substitutionScore == sub.1
    && |rec.metadata.commonPairings| <= 5
    && (forall k | 0 <= k < |rec.metadata.commonPairings| :: PairedWith(e, rec.item.name, rec.metadata.commonPairings[k]))
    && CommonPairingsOf(e, rec.item.name, rec.metadata.commonPairings)
  }

  /**
    * `pairs` is the list `find_ingredient_pairs(name)` returns when its search
    * matched `ys` and its counter ended as `counts`.
    */
  ghost predicate PairsFoundBy(e: Env, name: string, pairs: seq<(Node, nat)>, ys: seq<Node>, counts: map<string, nat>)
    requires Shaped(e.g)
  {
    && FoundIn(e, ys, name, Some(Ingredient), 10)
    && (forall y :: Count(counts, y) == TwoHopCount(e.g, ys, Some(Contains), Some(Contains), true, y))
    && (ys == [] ==> pairs == [])
    && (ys != [] ==> RankedCounts(e.g, counts, 2, pairs))
  }

  /** `common` is the names of the first five partners of a list `find_ingredient_pairs(name)` may return. */
  ghost predicate CommonPairingsOf(e: Env, name: string, common: seq<string>)
    requires Shaped(e.g)
  {
    exists pairs: seq<(Node, nat)>, ys: seq<Node>, counts: map<string, nat> ::
      PairsFoundBy(e, name, pairs, ys, counts) && common == PairNames(Take(pairs, 5))
  }

  /** The common pairings are at most five names, each paired with `name`. */
  lemma CommonPairingsSound(e: Env, name: string, common: seq<string>)
    requires Shaped(e.g)
    requires CommonPairingsOf(e, name, common)
    ensures |common| <= 5
    ensures forall k | 0 <= k < |common| :: PairedWith(e, name, common[k])
  {
    var pairs, ys, counts :| PairsFoundBy(e, name, pairs, ys, counts) && common == PairNames(Take(pairs, 5));
    PairedAll(e, name, pairs, ys, counts);
  }

  /** The first five partners `find_ingredient_pairs(name)` ranks are all paired with `name`. */
  lemma PairedAll(e: Env, name: string, pairs: seq<(Node, nat)>, ys: seq<Node>, counts: map<string, nat>)
    requires Shaped(e.g)
    requires FoundIn(e, ys, name, Some(Ingredient), 10)
    requires forall y :: Count(counts, y) == TwoHopCount(e.g, ys, Some(Contains), Some(Contains), true, y)
    requires ys == [] ==> pairs == []
    requires ys != [] ==> RankedCounts(e.g, counts, 2, pairs)
    ensures var common := PairNames(Take(pairs, 5));
      forall k | 0 <= k < |common| :: PairedWith(e, name, common[k])
  {
    var common := PairNames(Take(pairs, 5));
    forall k | 0 <= k < |common|
      ensures PairedWith(e, name, common[k])
    {
      PairedAt(e, name, pairs, ys, counts, k);
    }
  }

  /** Every partner `find_ingredient_pairs(name)` ranks is paired with `name`. */
  lemma PairedAt(e: Env, name: string, pairs: seq<(Node, nat)>, ys: seq<Node>, counts: map<string, nat>, k: int)
    requires Shaped(e.g)
    requires FoundIn(e, ys, name, Some(Ingredient), 10)
    requires forall y :: Count(counts, y) == TwoHopCount(e.g, ys, Some(Contains), Some(Contains), true, y)
    requires ys == [] ==> pairs == []
    requires ys != [] ==> RankedCounts(e.g, counts, 2, pairs)
    requires 0 <= k < |pairs|
    ensures PairedWith(e, name, pairs[k].0.name)
  {
    var g := e.g;
    var n := pairs[k].0;
    assert IsNodeOf(g, n) && n.id in counts && counts[n.id] >= 2;
    assert Count(counts, n.id) == counts[n.id];
    assert TwoHopCount(g, ys, Some(Contains), Some(Contains), true, n.id) >= 2;
  }

  /**
    * The dishes recommended for the available ingredients are sorted by
    * score, one per candidate up to `max`, each the recommendation of one of
    * the candidates `find_dishes_by_ingredients` ranked.
    */
  lemma IngredientsAnswerSound(e: Env, available: seq<string>, max: int, cands: seq<(Node, nat)>,
                               parts: seq<seq<Node>>, counts: map<string, nat>, r: seq<Recommendation>)
    requires Shaped(e.g)
    requires IngredientsAnswer(e, available, max, cands, parts, counts, r)
    ensures SortedDesc(r, RecScore) && |r| == TakeLen(|cands|, max)
    ensures forall y | y in r :: exists k | 0 <= k < |cands| :: y == DishRec(e.g, available, cands[k])
  {
    IngredientsCutSound(e.g, available, cands, max, r);
  }

  /** What `IngredientsAnswerSound` states, for the cut of the ranked candidates `cands`. */
  lemma IngredientsCutSound(g: GraphState, available: seq<string>, cands: seq<(Node, nat)>, max: int, r: seq<Recommendation>)
    requires Shaped(g)
    requires r == Take(SortDesc(DishRecs(g, available, cands), RecScore), max)
    ensures SortedDesc(r, RecScore) && |r| == TakeLen(|cands|, max)
    ensures forall y | y in r :: exists k | 0 <= k < |cands| :: y == DishRec(g, available, cands[k])
  {
    var recs := DishRecs(g, available, cands);
    SortedTake(recs, RecScore, max);
    forall y | y in r
      ensures exists k | 0 <= k < |cands| :: y == DishRec(g, available, cands[k])
    {
      var k :| 0 <= k < |recs| && recs[k] == y;
      DishRecsAt(g, available, cands, k);
    }
  }

  /**
    * In a consistent graph the similar dishes recommended are stored dishes
    * reached by a SIMILAR_TO edge from a matched dish, scored by that edge's
    * weight, sorted by score, at most five.
    */
  lemma SimilarAnswerSound(e: Env, dishName: string, max: int, ds: seq<Node>, r: seq<Recommendation>)
    requires Consistent(e.g)
    requires SimilarAnswer(e, dishName, max, ds, r)
    ensures SortedDesc(r, RecScore) && |r| <= 5
    ensures forall y | y in r :: y.metadata.BySimilarity? && y.metadata.similarityScore == y.score
    ensures forall y | y in r :: IsNodeOf(e.g, y.item) && SomeSimilar(e.g, ds, y.item.id, y.score)
  {
    SimilarTakeSound(e.g, ds, max, r);
  }

  /** What `SimilarAnswerSound` states, for the list cut from the dishes `ds`. */
  lemma SimilarTakeSound(g: GraphState, ds: seq<Node>, max: int, r: seq<Recommendation>)
    requires Consistent(g)
    requires r == Take(SimilarRecs(g, Take(SortDesc(SimilarOf(g, ds), ScoreOf), 5)), max)
    ensures SortedDesc(r, RecScore) && |r| <= 5
    ensures forall y | y in r :: y.metadata.BySimilarity? && y.metadata.similarityScore == y.score
    ensures forall y | y in r :: IsNodeOf(g, y.item) && SomeSimilar(g, ds, y.item.id, y.score)
  {
    var ps := Take(SortDesc(SimilarOf(g, ds), ScoreOf), 5);
    SortedTake(SimilarOf(g, ds), ScoreOf, 5);
    SimilarTakeSorted(g, ps, max, r);
    SimilarTakeMembers(g, ds, ps, max, r);
  }

  lemma SimilarTakeSorted(g: GraphState, ps: seq<(Node, real)>, max: int, r: seq<Recommendation>)
    requires Shaped(g) && SortedDesc(ps, ScoreOf)
    requires r == Take(SimilarRecs(g, ps), max)
    ensures SortedDesc(r, RecScore) && |r| <= |ps|
  {
    SimilarRecsSorted(g, ps);
  }

  lemma SimilarTakeMembers(g: GraphState, ds: seq<Node>, ps: seq<(Node, real)>, max: int, r: seq<Recommendation>)
    requires Consistent(g)
    requires forall p | p in ps :: p in SimilarOf(g, ds)
    requires r == Take(SimilarRecs(g, ps), max)
    ensures forall y | y in r :: y.metadata.BySimilarity? && y.metadata.similarityScore == y.score
    ensures forall y | y in r :: IsNodeOf(g, y.item) && SomeSimilar(g, ds, y.item.id, y.score)
  {
    forall y | y in r
      ensures y.metadata.BySimilarity? && y.metadata.similarityScore == y.score
      ensures IsNodeOf(g, y.item) && SomeSimilar(g, ds, y.item.id, y.score)
    {
      var k :| 0 <= k < |r| && r[k] == y;
      SimilarPickSound(g, ds, ps, k);
    }
  }

  /** The `k`-th recommendation made from similar dishes of `ds`. */
  lemma SimilarPickSound(g: GraphState, ds: seq<Node>, ps: seq<(Node, real)>, k: int)
    requires Consistent(g) && 0 <= k < |ps|
    requires forall p | p in ps :: p in SimilarOf(g, ds)
    ensures var y := SimilarRecs(g, ps)[k];
      && y.metadata.BySimilarity? && y.metadata.similarityScore == y.score
      && IsNodeOf(g, y.item) && SomeSimilar(g, ds, y.item.id, y.score)
  {
    SimilarRecsAt(g, ps, k);
    assert ps[k] in ps;
    SimilarMembers(g, ds, ps[k].0, ps[k].1);
  }

  /**
    * The dishes recommended for a cooking method each contain one of the
    * ranked ingredients, score their share of suitable ingredients, a number
    * in (0, 1], and come sorted by score.
    */
  lemma MethodAnswerSound(e: Env, m: string, max: int, ims: seq<(Node, nat)>, ms: seq<Node>, counts: map<string, nat>,
                          dishes: seq<Node>, r: seq<Recommendation>)
    requires Shaped(e.g)
    requires MethodAnswer(e, m, max, ims, ms, counts, dishes, r)
    ensures SortedDesc(r, RecScore)
    ensures forall y | y in r :: y.item in DishesOf(e.g, ims) && y.metadata.ByMethod? && y.metadata.cookingMethod == m
    ensures forall y | y in r :: 0.0 < y.score <= 1.0
  {
    var g := e.g;
    var recs := MethodRecs(g, m, NameSet(ims), dishes);
    SortedTake(recs, RecScore, max);
    forall y | y in r
      ensures y.item in DishesOf(g, ims) && y.metadata.ByMethod? && y.metadata.cookingMethod == m
      ensures 0.0 < y.score <= 1.0
    {
      MethodRecsSound(g, m, NameSet(ims), dishes, y);
    }
  }

  /**
    * The dishes recommended for a category are BELONGS_TO neighbours of the
    * first matching category, as many as the slice allows, each scored 1.0,
    * 0.8 or 0.6, sorted by score.
    */
  lemma CategoryAnswerSound(e: Env, category: string, max: int, cs: seq<Node>, r: seq<Recommendation>)
    requires Shaped(e.g)
    requires CategoryAnswer(e, category, max, cs, r)
    requires cs != []
    ensures var ds := Neighbors(e.g, cs[0].id, Some(BelongsTo));
      && SortedDesc(r, RecScore) && |r| == TakeLen(|ds|, max)
      && forall y | y in r :: y.item in ds && (y.score == 1.0 || y.score == 0.8 || y.score == 0.6)
  {
    CategoryCutSound(e.g, category, Neighbors(e.g, cs[0].id, Some(BelongsTo)), max, r);
  }

  /** What `CategoryAnswerSound` states, for the cut of the recommendations made from the dishes `ds`. */
  lemma CategoryCutSound(g: GraphState, category: string, ds: seq<Node>, max: int, r: seq<Recommendation>)
    requires Shaped(g)
    requires r == Take(SortDesc(CategoryRecs(g, category, ds), RecScore), max)
    ensures SortedDesc(r, RecScore) && |r| == TakeLen(|ds|, max)
    ensures forall y | y in r :: y.item in ds && (y.score == 1.0 || y.score == 0.8 || y.score == 0.6)
  {
    var recs := CategoryRecs(g, category, ds);
    SortedTake(recs, RecScore, max);
    forall y | y in r
      ensures y.item in ds && (y.score == 1.0 || y.score == 0.8 || y.score == 0.6)
    {
      var k :| 0 <= k < |recs| && recs[k] == y;
      CategoryRecsAt(g, category, ds, k);
    }
  }

  // ---------------------------------------------------------------------------
  // The engine
  // ---------------------------------------------------------------------------

  class RecommendationEngine {
    const engine: QueryEngine

    /** `GraphRecommendationEngine(query_engine)`; its `graph` is the query engine's graph. */
    constructor (engine: QueryEngine)
      ensures this.engine == engine
    {
      this.engine := engine;
    }

    // -------------------------------------------------------------------------
    // The strategies
    // -------------------------------------------------------------------------

    /**
      * `recommend_dishes_by_ingredients`: the dishes `find_dishes_by_ingredients`
      * ranks for the available names, each scored by the share of its
      * ingredients that are available, sorted by score and cut to `max`.
      */
    method RecommendDishesByIngredients(available: seq<string>, max: int)
      returns (r: seq<Recommendation>, cands: seq<(Node, nat)>, ghost parts: seq<seq<Node>>, ghost counts: map<string, nat>)
      requires Shaped(engine.graph.State())
      ensures IngredientsAnswer(engine.Snapshot(), available, max, cands, parts, counts, r)
      ensures IsTopK(r, multiset(DishRecs(engine.graph.State(), available, cands)), RecScore, max)
    {
      var xs;
      cands, xs, parts, counts := engine.FindDishesByIngredients(available, false);
      var recs := CollectDishRecs(available, cands);
      r := Take(SortDesc(recs, RecScore), max);
      TopKOfSorted(recs, RecScore, max);
    }

    /** The loop of `recommend_dishes_by_ingredients` over the candidates. */
    method CollectDishRecs(available: seq<string>, cands: seq<(Node, nat)>) returns (recs: seq<Recommendation>)
      requires Shaped(engine.graph.State())
      ensures recs == DishRecs(engine.graph.State(), available, cands)
    {
      ghost var g := engine.graph.State();
      recs := [];
      for i := 0 to |cands|
        invariant recs == DishRecs(g, available, cands[..i])
      {
        assert cands[..i + 1][..i] == cands[..i];
        var dish, matches := cands[i].0, cands[i].1;
        var ns := engine.graph.GetNeighbors(dish.id, Some(Contains));
        var missing := MissingOf(ns, available);
        var rec := Recommendation(dish, IngredientScore(matches, |ns|),
          ByIngredients(matches, |ns|, Take(missing, 5), CompletionRate(matches, |ns|)));
        recs := recs + [rec];
      }
      assert cands[..|cands|] == cands;
    }

    /**
      * `recommend_similar_dishes`: the pairs of `find_similar_dishes` (at most
      * five, by similarity), each recommended with its similarity as score,
      * in that order, cut to `max`.
      */
    method RecommendSimilarDishes(dishName: string, max: int) returns (r: seq<Recommendation>, ds: seq<Node>)
      requires Shaped(engine.graph.State())
      ensures SimilarAnswer(engine.Snapshot(), dishName, max, ds, r)
    {
      var similar;
      similar, ds := engine.FindSimilarDishes(dishName, 5);
      var recs := CollectSimilarRecs(similar);
      r := Take(recs, max);
    }

    /** The loop of `recommend_similar_dishes` over the similar pairs. */
    method CollectSimilarRecs(ps: seq<(Node, real)>) returns (recs: seq<Recommendation>)
      requires Shaped(engine.graph.State())
      ensures recs == SimilarRecs(engine.graph.State(), ps)
    {
      ghost var g := engine.graph.State();
      recs := [];
      for i := 0 to |ps|
        invariant recs == SimilarRecs(g, ps[..i])
      {
        assert ps[..i + 1][..i] == ps[..i];
        var dish, similarity := ps[i].0, ps[i].1;
        var ings := engine.graph.GetNeighbors(dish.id, Some(Contains));
        var ms := engine.graph.GetNeighbors(dish.id, Some(UsesMethod));
        recs := recs + [Recommendation(dish, similarity, BySimilarity(similarity, |ings|, Names(Take(ms, 3))))];
      }
      assert ps[..|ps|] == ps;
    }

    /**
      * `recommend_by_category`: the dishes of the first category matching
      * `category`, scored by their ingredient-and-method count, sorted by
      * score and cut to `max`; nothing when no category matches.
      */
    method RecommendByCategory(category: string, max: int) returns (r: seq<Recommendation>, cs: seq<Node>)
      requires Shaped(engine.graph.State())
      ensures CategoryAnswer(engine.Snapshot(), category, max, cs, r)
    {
      cs := engine.SearchNodes(category, Some(Category), 10);
      if cs == [] {
        return [], cs;
      }
      var ds := engine.graph.GetNeighbors(cs[0].id, Some(BelongsTo));
      var recs := CollectCategoryRecs(category, ds);
      r := Take(SortDesc(recs, RecScore), max);
    }

    /** The loop of `recommend_by_category` over the category's dishes. */
    method CollectCategoryRecs(category: string, ds: seq<Node>) returns (recs: seq<Recommendation>)
      requires Shaped(engine.graph.State())
      ensures recs == CategoryRecs(engine.graph.State(), category, ds)
    {
      ghost var g := engine.graph.State();
      recs := [];
      for i := 0 to |ds|
        invariant recs == CategoryRecs(g, category, ds[..i])
      {
        CategoryRecsStep(g, category, ds, i);
        var ings := engine.graph.GetNeighbors(ds[i].id, Some(Contains));
        var ms := engine.graph.GetNeighbors(ds[i].id, Some(UsesMethod));
        var rec := Recommendation(ds[i], CategoryScore(|ings| + |ms|),
          ByCategory(category, |ings|, Names(Take(ms, 3)), Difficulty(ds[i])));
        assert rec == CategoryRec(g, category, ds[i]);
        recs := recs + [rec];
      }
      assert ds[..|ds|] == ds;
    }

    /**
      * `recommend_by_cooking_method`: the ingredients `find_ingredients_by_cooking_method`
      * ranks, every dish containing one of them, and for each such dish with
      * at least one of those ingredients the share of its ingredients they
      * make up, sorted by score and cut to `max`.
      */
    method RecommendByCookingMethod(m: string, max: int)
      returns (r: seq<Recommendation>, ims: seq<(Node, nat)>, ms: seq<Node>, ghost counts: map<string, nat>, dishes: seq<Node>)
      requires Shaped(engine.graph.State())
      ensures MethodAnswer(engine.Snapshot(), m, max, ims, ms, counts, dishes, r)
      ensures IsTopK(r, multiset(MethodRecs(engine.graph.State(), m, NameSet(ims), dishes)), RecScore, max)
    {
      ims, ms, counts := engine.FindIngredientsByCookingMethod(m);
      var names := NameSetOf(ims);
      var all := CollectDishes(ims);
      dishes := ListOfSet(all);
      var recs := CollectMethodRecs(m, names, dishes);
      r := Take(SortDesc(recs, RecScore), max);
      TopKOfSorted(recs, RecScore, max);
    }

    /** `all_dishes`: the loop of `recommend_by_cooking_method` that gathers the ingredients' CONTAINS neighbours. */
    method CollectDishes(ims: seq<(Node, nat)>) returns (all: set<Node>)
      requires Shaped(engine.graph.State())
      ensures all == DishesOf(engine.graph.State(), ims)
    {
      ghost var g := engine.graph.State();
      all := {};
      for i := 0 to |ims|
        invariant all == DishesOf(g, ims[..i])
      {
        assert ims[..i + 1][..i] == ims[..i];
        var ns := engine.graph.GetNeighbors(ims[i].0.id, Some(Contains));
        all := all + Elements(ns);
      }
      assert ims[..|ims|] == ims;
    }

    /** The scoring loop of `recommend_by_cooking_method` over the gathered dishes. */
    method CollectMethodRecs(m: string, names: set<string>, ds: seq<Node>) returns (recs: seq<Recommendation>)
      requires Shaped(engine.graph.State())
      ensures recs == MethodRecs(engine.graph.State(), m, names, ds)
    {
      ghost var g := engine.graph.State();
      recs := [];
      for i := 0 to |ds|
        invariant recs == MethodRecs(g, m, names, ds[..i])
      {
        MethodRecsStep(g, m, names, ds, i);
        var ns := engine.graph.GetNeighbors(ds[i].id, Some(Contains));
        var c := CommonOf(ns, names);
        if c > 0 {
          var rec := Recommendation(ds[i], MethodScore(c, |ns|), ByMethod(m, c, |ns|));
          assert rec == MethodRec(g, m, names, ds[i]);
          recs := recs + [rec];
        }
      }
      assert ds[..|ds|] == ds;
    }

    /**
      * `recommend_ingredients_by_dish`: for every dish matching `dishName` and
      * every ingredient of it, the partners `find_ingredient_pairs` ranks for
      * the ingredient's name that are not already in the dish, scored by the
      * pairing score of their co-occurrence count; then merged, one per name
      * with the highest score, sorted and cut to `max`.
      */
    method RecommendIngredientsByDish(dishName: string, max: int, ln: real -> real)
      returns (r: seq<Recommendation>, ds: seq<Node>, ghost recs: seq<Recommendation>)
      requires Shaped(engine.graph.State())
      ensures engine.Found(ds, dishName, Some(Dish), 10)
      ensures ds == [] ==> r == [] && recs == []
      ensures Merged(engine.Snapshot(), dishName, max, ln, ds, recs, r)
    {
      ds := engine.SearchNodes(dishName, Some(Dish), 10);
      if ds == [] {
        MergedProposals(engine.Snapshot(), dishName, max, ln, ds, []);
        MergeBestEmpty(ItemName, RecScore, max);
        return [], ds, [];
      }
      r, recs := ProposeAndMerge(ds, dishName, max, ln);
    }

    /** The proposals for every matched dish, merged. */
    method ProposeAndMerge(ds: seq<Node>, dishName: string, max: int, ln: real -> real)
      returns (r: seq<Recommendation>, ghost recs: seq<Recommendation>)
      requires Shaped(engine.graph.State())
      ensures Merged(engine.Snapshot(), dishName, max, ln, ds, recs, r)
    {
      var all := ProposeAll(ds, dishName, ln);
      recs := all;
      r := MergeRecommendations(all, max);
      MergedProposals(engine.Snapshot(), dishName, max, ln, ds, recs);
    }

    /** The loop of `recommend_ingredients_by_dish` over the matched dishes. */
    method ProposeAll(ds: seq<Node>, dishName: string, ln: real -> real) returns (all: seq<Recommendation>)
      requires Shaped(engine.graph.State())
      ensures forall rec | rec in all :: Proposed(engine.Snapshot(), ds, dishName, ln, rec)
    {
      all := [];
      for i := 0 to |ds|
        invariant forall rec | rec in all :: Proposed(engine.Snapshot(), ds, dishName, ln, rec)
      {
        all := ProposeFor(ds, i, dishName, ln, all);
      }
    }

    /** The proposals for the ingredients of the dish `ds[i]`, appended to `recs0`. */
    method ProposeFor(ds: seq<Node>, i: int, dishName: string, ln: real -> real, recs0: seq<Recommendation>)
      returns (recs: seq<Recommendation>)
      requires Shaped(engine.graph.State()) && 0 <= i < |ds|
      requires forall rec | rec in recs0 :: Proposed(engine.Snapshot(), ds, dishName, ln, rec)
      ensures forall rec | rec in recs :: Proposed(engine.Snapshot(), ds, dishName, ln, rec)
    {
      var ings := engine.graph.GetNeighbors(ds[i].id, Some(Contains));
      var names := Names(ings);
      recs := recs0;
      for j := 0 to |ings|
        invariant forall rec | rec in recs :: Proposed(engine.Snapshot(), ds, dishName, ln, rec)
      {
        assert names[j] == ings[j].name;
        var pairs, xs;
        ghost var counts;
        pairs, xs, counts := engine.FindIngredientPairs(ings[j].name, 2);
        recs := ProposePairs(ds, i, dishName, ln, names, ings[j].name, pairs, xs, counts, recs);
      }
    }

    /** The proposals from the partners `pairs` of the ingredient `base` of the dish `ds[i]`. */
    method ProposePairs(ds: seq<Node>, i: int, dishName: string, ln: real -> real, names: seq<string>, base: string,
                        pairs: seq<(Node, nat)>, xs: seq<Node>, ghost counts: map<string, nat>, recs0: seq<Recommendation>)
      returns (recs: seq<Recommendation>)
      requires Shaped(engine.graph.State()) && 0 <= i < |ds|
      requires names == IngredientNames(engine.graph.State(), ds[i]) && base in names
      requires engine.Found(xs, base, Some(Ingredient), 10)
      requires forall y :: Count(counts, y) == TwoHopCount(engine.graph.State(), xs, Some(Contains), Some(Contains), true, y)
      requires xs == [] ==> pairs == []
      requires xs != [] ==> RankedCounts(engine.graph.State(), counts, 2, pairs)
      requires forall rec | rec in recs0 :: Proposed(engine.Snapshot(), ds, dishName, ln, rec)
      ensures forall rec | rec in recs :: Proposed(engine.Snapshot(), ds, dishName, ln, rec)
    {
      ghost var e := engine.Snapshot();
      recs := recs0;
      for k := 0 to |pairs|
        invariant forall rec | rec in recs :: Proposed(e, ds, dishName, ln, rec)
      {
        var n, c := pairs[k].0, pairs[k].1;
        if n.name !in names {
          var rec := Recommendation(n, PairingScore(ln, c), Pairing(base, c, dishName));
          assert IsNodeOf(e.g, n) && c == counts[n.id] && c >= 2;
          PairProposed(e, ds, i, dishName, ln, base, xs, counts, n, c, recs);
          recs := recs + [rec];
        }
      }
    }

    /**
      * `recommend_ingredient_substitutions`: the suggestions of
      * `get_ingredient_substitution_suggestions`, in their order, each scored
      * by its substitution score and listing the names of its first five
      * partners, cut to `max`.
      */
    method RecommendIngredientSubstitutions(original: string, max: int)
      returns (r: seq<Recommendation>, subs: seq<(Node, real)>, xs: seq<Node>, ghost all: seq<Recommendation>)
      requires Shaped(engine.graph.State())
      ensures engine.Found(xs, original, Some(Ingredient), 10)
      ensures subs == Take(SortDesc(SuggestionsOf(engine.graph.State(), xs), ScoreOf), 10)
      ensures |all| == |subs| && forall k | 0 <= k < |subs| :: Substitutes(engine.Snapshot(), original, subs[k], all[k])
      ensures r == Take(all, max)
      ensures SortedDesc(r, RecScore)
      ensures forall y | y in r :: 0.1 < y.score <= 1.0
    {
      subs, xs := engine.GetSubstitutionSuggestions(original);
      var recs := SubstituteAll(original, subs);
      all := recs;
      r := Take(recs, max);
      SuggestionBounds(engine.graph.State(), xs);
      SubstituteScores(SuggestionsOf(engine.graph.State(), xs), subs, recs, max);
    }

    /** The loop of `recommend_ingredient_substitutions` over the suggestions. */
    method SubstituteAll(original: string, subs: seq<(Node, real)>) returns (recs: seq<Recommendation>)
      requires Shaped(engine.graph.State())
      ensures |recs| == |subs|
      ensures forall k | 0 <= k < |subs| :: Substitutes(engine.Snapshot(), original, subs[k], recs[k])
      ensures forall k | 0 <= k < |subs| :: recs[k].score == subs[k].1
    {
      recs := [];
      for i := 0 to |subs|
        invariant |recs| == i
        invariant forall k | 0 <= k < i :: Substitutes(engine.Snapshot(), original, subs[k], recs[k])
        invariant forall k | 0 <= k < i :: recs[k].score == subs[k].1
      {
        var rec := Substitute(original, subs[i]);
        ghost var prev := recs;
        recs := recs + [rec];
        assert forall k | 0 <= k < i :: recs[k] == prev[k];
      }
    }

    /** The body of the loop of `recommend_ingredient_substitutions`, for one suggestion. */
    method Substitute(original: string, sub: (Node, real)) returns (rec: Recommendation)
      requires Shaped(engine.graph.State())
      ensures Substitutes(engine.Snapshot(), original, sub, rec)
    {
      var ingredient, score := sub.0, sub.1;
      var common := CommonPairings(ingredient.name);
      rec := Recommendation(ingredient, score, Substitution(original, score, common));
    }

    /** `[pair[0].name for pair in find_ingredient_pairs(name)[:5]]`. */
    method CommonPairings(name: string) returns (common: seq<string>)
      requires Shaped(engine.graph.State())
      ensures |common| <= 5
      ensures forall k | 0 <= k < |common| :: PairedWith(engine.Snapshot(), name, common[k])
      ensures CommonPairingsOf(engine.Snapshot(), name, common)
    {
      ghost var g := engine.graph.State();
      var pairs, ys;
      ghost var counts;
      pairs, ys, counts := engine.FindIngredientPairs(name, 2);
      common := PairNames(Take(pairs, 5));
      PairedAll(engine.Snapshot(), name, pairs, ys, counts);
      assert PairsFoundBy(engine.Snapshot(), name, pairs, ys, counts);
    }

    // -------------------------------------------------------------------------
    // The hybrid
    // -------------------------------------------------------------------------

    /** One strategy of `hybrid_recommend`, with the hybrid's `max` passed on. */
    method RunOne(s: Strategy, max: int) returns (rs: seq<Recommendation>)
      requires Shaped(engine.graph.State())
      ensures Answers(engine.Snapshot(), s, max, rs)
    {
      match s {
        case FromIngredients(names) =>
          var cands;
          ghost var parts, counts;
          rs, cands, parts, counts := RecommendDishesByIngredients(names, max);
        case FromMethod(m) =>
          var ims, ms, dishes;
          ghost var counts;
          rs, ims, ms, counts, dishes := RecommendByCookingMethod(m, max);
        case FromCategory(c) =>
          var cs;
          rs, cs := RecommendByCategory(c, max);
        case FromDish(d) =>
          var ds;
          rs, ds := RecommendSimilarDishes(d, max);
      }
    }

    /** The strategies in turn, their answers collected one after the other. */
    method RunAll(ss: seq<Strategy>, max: int) returns (all: seq<Recommendation>, ghost parts: seq<seq<Recommendation>>)
      requires Shaped(engine.graph.State())
      ensures |parts| == |ss| && forall i | 0 <= i < |ss| :: Answers(engine.Snapshot(), ss[i], max, parts[i])
      ensures all == Concat(parts)
    {
      ghost var e := engine.Snapshot();
      all := [];
      parts := [];
      for i := 0 to |ss|
        invariant |parts| == i && forall j | 0 <= j < i :: Answers(e, ss[j], max, parts[j])
        invariant all == Concat(parts)
      {
        var rs := RunOne(ss[i], max);
        assert Answers(e, ss[i], max, rs);
        AnswersExtend(e, ss, max, parts, rs);
        assert (parts + [rs])[..i] == parts;
        parts := parts + [rs];
        all := all + rs;
      }
    }

    /**
      * `hybrid_recommend`: every strategy the preferences ask for, in order,
      * each with `max`, and the merge of all their answers: one entry per name,
      * the first with the highest score, sorted and cut to `max`.
      */
    method HybridRecommend(prefs: Preferences, max: int) returns (r: seq<Recommendation>, ghost parts: seq<seq<Recommendation>>)
      requires Shaped(engine.graph.State())
      ensures |parts| == |Strategies(prefs)|
      ensures forall i | 0 <= i < |parts| :: Answers(engine.Snapshot(), Strategies(prefs)[i], max, parts[i])
      ensures r == MergeBest(Concat(parts), ItemName, RecScore, max)
      ensures UniqueNames(r, ItemName) && SortedDesc(r, RecScore)
      ensures forall y | y in r :: y in Concat(parts) && forall x | x in Concat(parts) && x.item.name == y.item.name :: x.score <= y.score
    {
      var all;
      all, parts := RunAll(Strategies(prefs), max);
      r := MergeRecommendations(all, max);
    }
  }
}
