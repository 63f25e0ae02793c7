# Recipe knowledge graph — a Dafny model

This project models the in-memory core of a recipe knowledge graph (the
`graphRAG` package) in Dafny. The graph's nodes are dishes, ingredients,
cooking methods, categories, tools and seasonings. Its edges are typed and
weighted: CONTAINS, USES_METHOD, BELONGS_TO, PAIRS_WITH, SIMILAR_TO,
REQUIRES_TOOL and USES_SEASONING. Five pieces are modelled:

- **`RecipeGraph`** (`graph_models.dfy`, `recipe_graph.dfy`, `graph_data.dfy`).
  - The container keeps a node dictionary, an edge list and a forward adjacency dictionary.
  - `add_edge` is its only way in for edges, and an edge's identity is (source, target, type).
  - Neighbour, edge, statistics and two-hop queries are specified as functions of the graph's value.
  - The class's methods are proved equal to those functions.
  - `to_dict` and the rebuild loops of `load_from_file` form a proved round trip.
- **The index layer and the query engine** (`graph_storage.dfy`, `query_engine.dfy`, `paths.dfy`).
  - `GraphStorage._build_indexes` builds the name index, the type index and the reverse adjacency.
  - `GraphQueryEngine` covers search ranked by name similarity, two-hop co-occurrence tallies and Jaccard substitution scores.
  - It also has a depth-bounded breadth-first shortest path. The path is proved to be shortest, and a `None` result is proved to mean that no path exists within the bound.
- **The recommendation engine** (`recommendation_engine.dfy`, `trending.dfy`, `ranking.dfy`): the closed-form scorers, every `recommend_*` list builder, the name-deduplicating merge, `hybrid_recommend` and trending-pair discovery.
- **Query dispatch** (`complex_queries.dfy`): keyword-priority routing, keyword extraction, the analysis-target extraction, the five dedupe-max-sort result blocks, discovery and the compatibility matrix.
- **Graph construction rules** (`graph_builder.dfy`): the PAIRS_WITH and SIMILAR_TO passes, which are proved against the edge lists they add, plus the keyword classifiers, the ingredient-category rule and the path-category rule.

How the code is modelled:

- **Imperative code becomes classes and loops.** Code that mutates state or loops is written as Dafny classes and methods with loop invariants. Each method's `ensures` ties its result or new state to a specification function. The specification functions carry the proved properties.
- **Values:**
  - Scores are exact `real`s.
  - Counts are `nat`s.
  - Strings are `seq<char>`, and `str.lower` is ASCII lowering.
- **Dictionaries:**
  - A Python dictionary whose iteration order the code observes (the node dictionary, the adjacency dictionary and its rows) is an insertion-ordered `Dicts.Dict`.
  - Counters and sets are `map` and `set`, iterated in an unspecified order.
  - Sorted outputs are therefore specified as "a permutation of the pool, sorted descending", with ties in any order.
- **Two behaviours a reader may not expect, which the model follows:**
  - `get_neighbors` does not deduplicate. A node reached both by an out-edge and by an in-edge is listed twice, and `GraphModels.NeighborCount` states the exact multiplicity.
  - `find_dishes_by_ingredients` scores a dish by the number of matched ingredient *nodes* it contains, not the number of distinct input names. `require_all` compares that count with `len(ingredient_names)`.

## Model

| member | source | states |
|---|---|---|
| GraphModels.ParseNodeType | graphRAG/graph_models.py:12-19 | `NodeType(s)` is the type whose value is `s`, and fails (None) exactly when no type has that value |
| GraphModels.ParseEdgeType | graphRAG/graph_models.py:22-30 | `EdgeType(s)` is the edge type whose value is `s`, and fails exactly when none has it |
| GraphModels.ParseValues | graphRAG/graph_models.py:12-30 | reading back any type's string value gives that type again |
| GraphModels.AddNodeSpec | graphRAG/graph_models.py:75-79 | after `add_node(n)`, `nodes[n.id] == n`, edges unchanged, an existing adjacency entry kept, otherwise an empty one created; the graph invariant is preserved |
| GraphModels.AddEdgeSpec | graphRAG/graph_models.py:81-92 | `add_edge` preserves the invariant (every edge filed in its adjacency cell, every cell exactly the edges between its ends, no two edges with one key); an edge whose key is present changes nothing, otherwise it is appended at the end |
| GraphModels.AddEdgeStores | graphRAG/graph_models.py:81-84 | after `add_edge(e)` an edge with e's key is stored, every earlier edge keeps its position, and the list grows by at most one |
| GraphModels.AddEdgeIdempotent | graphRAG/graph_models.py:57-64 | re-adding an edge with the same (source, target, type), whatever its weight, leaves the graph unchanged |
| GraphModels.LinkedAfterAddEdge | graphRAG/graph_models.py:81-92 | after `add_edge`, s is linked to t (optionally by type) iff it was before, or the edge was new and runs s→t with that type |
| GraphModels.LinkedBetween | graphRAG/graph_models.py:86-92 | a typed link s→t exists iff the edges between s and t are non-empty and one has that type |
| GraphModels.Neighbors | graphRAG/graph_models.py:98-119 | every neighbour returned is the stored node of its id (ids without a node are skipped) |
| GraphModels.NeighborCount | graphRAG/graph_models.py:98-119 | the number of times a node id occurs among `get_neighbors(id, t)` is 1 per direction (out, in) in which it is adjacent by type t, so duplicates are kept |
| GraphModels.NeighborMember | graphRAG/graph_models.py:98-119 | n is a neighbour of a iff n is stored and a and n are adjacent in either direction by the type |
| GraphModels.EdgeNeighbors | graphRAG/graph_models.py:98-119 | for a stored edge a→b of type t with both ends present, b is a neighbour of a and a of b, with type t and without a type filter |
| GraphModels.EdgesOfType | graphRAG/graph_models.py:128-131 | the type filter keeps exactly the edges of the type (all of them with no type) |
| GraphModels.EdgeInRow | graphRAG/graph_models.py:86-92 | every stored edge's target is a key of its source's adjacency row |
| GraphModels.CellMembers | graphRAG/graph_models.py:86-92 | an adjacency cell holds exactly the stored edges between its two ends |
| GraphModels.EdgesFromMembers | graphRAG/graph_models.py:121-133 | `get_edges(s, t?, ty?)` holds exactly the stored edges from s matching the optional target and type (none when s has no row) |
| GraphModels.TwoHopMembers | graphRAG/graph_models.py:146-163 | a two-hop tally from the start nodes is positive iff some start node (other than the target when self is skipped) reaches the target through a common neighbour |
| GraphModels.PairCountSymmetric | graphRAG/graph_storage.py:153-183 | when each name resolves to a single node, X's co-occurrence count for Y is the number of walks X–d–Y, and equals Y's count for X |
| GraphModels.HopCountNodes | graphRAG/graph_storage.py:163-172 | only stored nodes receive a positive one-hop count |
| GraphModels.TwoHopCountNodes | graphRAG/graph_storage.py:163-172 | only stored nodes receive a positive two-hop count |
| GraphData.TallyLabels | graphRAG/graph_models.py:201-224 | the per-type counter counts each label exactly as many times as it occurs, and holds only positive counts |
| GraphData.LabelCountPositive | graphRAG/graph_models.py:201-224 | a label's count is positive iff some item carries it |
| GraphData.NodeOfRecord | graphRAG/graph_models.py:264-271 | a node record rebuilds a node with its id, name and type, and fails exactly on an unknown type value |
| GraphData.EdgeOfRecord | graphRAG/graph_models.py:274-282 | an edge record rebuilds an edge with its ends and type, and fails exactly on an unknown type value |
| GraphData.LoadNodesFails | graphRAG/graph_models.py:264-271 | the node loop fails iff some record has an unknown type |
| GraphData.LoadEdgesFails | graphRAG/graph_models.py:274-282 | the edge loop fails iff some record has an unknown type |
| GraphData.LoadNodesStops | graphRAG/graph_models.py:264-271 | a failure on a prefix of the records is a failure of the whole load |
| GraphData.LoadConsistent | graphRAG/graph_models.py:261-284 | a successful load yields a graph that satisfies the container invariant |
| GraphData.RecordRoundTrip | graphRAG/graph_models.py:226-248 | reading a node's or an edge's own record rebuilds it exactly |
| GraphData.LoadNodeRecords | graphRAG/graph_models.py:264-271 | loading the records of a node list is adding those nodes in order |
| GraphData.LoadEdgeRecords | graphRAG/graph_models.py:274-282 | loading the records of an edge list is adding those edges in order |
| GraphData.ReloadNodes | graphRAG/graph_models.py:226-271 | loading `to_dict`'s node records into an empty graph gives back the same node dictionary, in the same order |
| GraphData.ReloadEdges | graphRAG/graph_models.py:226-282 | loading an edge list with distinct keys gives back the same edges in the same order |
| GraphData.RoundTrip | graphRAG/graph_models.py:226-284 | for any consistent graph, rebuilding from `to_dict()` succeeds with the same nodes, the same edges in the same order (weights included) and the same adjacency cells |
| RecipeGraphs.RecipeGraph.constructor | graphRAG/graph_models.py:70-73 | a new graph is empty and consistent |
| RecipeGraphs.RecipeGraph.AddNode | graphRAG/graph_models.py:75-79 | the new state is `AddNodeState(old, n)` and the invariant is kept |
| RecipeGraphs.RecipeGraph.AddEdge | graphRAG/graph_models.py:81-92 | the new state is `AddEdgeState(old, e)` and the invariant is kept |
| RecipeGraphs.RecipeGraph.GetNode | graphRAG/graph_models.py:94-96 | returns the stored node of the id, and None exactly when the id is absent |
| RecipeGraphs.RecipeGraph.GetNeighbors | graphRAG/graph_models.py:98-119 | the out-then-in loops return exactly `Neighbors(state, id, t)` |
| RecipeGraphs.RecipeGraph.GetEdges | graphRAG/graph_models.py:121-133 | the loop returns exactly `EdgesFrom(state, s, t?, ty?)` |
| RecipeGraphs.RecipeGraph.FindNodesByType | graphRAG/graph_models.py:135-137 | returns exactly the stored nodes of the type |
| RecipeGraphs.RecipeGraph.FindNodesByName | graphRAG/graph_models.py:139-144 | returns exactly the stored nodes whose lowered name contains the lowered query, of the type when one is given |
| RecipeGraphs.RecipeGraph.CountTwoHop | graphRAG/graph_models.py:146-163 | the counter holds, for every node id, its two-hop tally from the start nodes, and only positive counts |
| RecipeGraphs.RecipeGraph.AddHops | graphRAG/graph_models.py:176-182 | each id's count grows by its one-hop tally (nothing for the skipped id) |
| RecipeGraphs.PairsMembers | graphRAG/graph_models.py:146-163 | an ingredient is a pair of the matched ones iff it is stored, differs from some matched ingredient and shares a dish with it |
| RecipeGraphs.RecipeGraph.GetIngredientPairs | graphRAG/graph_models.py:146-163 | returns each paired ingredient once, and exactly those |
| RecipeGraphs.RecipeGraph.GetDishesByIngredients | graphRAG/graph_models.py:165-186 | returns exactly the stored dishes containing a matched ingredient, each once, sorted by match count descending |
| RecipeGraphs.MethodsMembers | graphRAG/graph_models.py:188-199 | a node is a method of the matched dishes iff it is stored and some matched dish uses it |
| RecipeGraphs.RecipeGraph.GetCookingMethodsForDish | graphRAG/graph_models.py:188-199 | returns each method of the matched dishes once, and exactly those |
| RecipeGraphs.RecipeGraph.GetStatistics | graphRAG/graph_models.py:201-224 | `total_nodes` and `total_edges` are the sizes, per-type counts are the true tallies, and they sum to the totals |
| RecipeGraphs.RecipeGraph.ToDict | graphRAG/graph_models.py:226-248 | one record per node and edge; reloading them gives the same nodes and edges |
| RecipeGraphs.RecipeGraph.AddNodeRecords | graphRAG/graph_models.py:264-271 | the node loop succeeds iff every type value parses, and then the state is the loaded one |
| RecipeGraphs.RecipeGraph.AddEdgeRecords | graphRAG/graph_models.py:274-282 | the edge loop succeeds iff every type value parses, and then the state is the loaded one |
| RecipeGraphs.RankCounts | graphRAG/graph_storage.py:172-183 | the ranked list holds every stored node whose count reaches the minimum, once, with its count, sorted by count descending |
| RecipeGraphs.RankedHops | graphRAG/graph_models.py:184-186 | ranking the one-hop counter yields exactly the dishes with a positive count, each once, by count descending |
| RecipeGraphs.ValuesAreNodes | graphRAG/graph_models.py:135-137 | the node dictionary's values are exactly the stored nodes |
| GraphStorages.NameIndexMembers | graphRAG/graph_storage.py:71-78 | an id is filed under key k iff some node with that id has k as its full name or as a whitespace token longer than one character |
| GraphStorages.NameIndexKeys | graphRAG/graph_storage.py:71-78 | no key of the name index is filed with an empty set |
| GraphStorages.NameKeyInName | graphRAG/graph_storage.py:71-78 | every key a node is filed under occurs in its name |
| GraphStorages.ReverseCells | graphRAG/graph_storage.py:85-86 | `reverse[t][s]` holds exactly the edges s→t, in edge-list order, and exists iff there is one |
| GraphStorages.GraphStorage.constructor | graphRAG/graph_storage.py:19-30 | the three indexes start empty |
| GraphStorages.GraphStorage.BuildIndexes | graphRAG/graph_storage.py:61-86 | after the rebuild the three indexes are exactly those of the graph's nodes and edges |
| GraphStorages.IndexNames | graphRAG/graph_storage.py:71-78 | the name loop builds exactly the name index of the nodes |
| GraphStorages.IndexTypes | graphRAG/graph_storage.py:81-82 | the type loop builds exactly the type index of the nodes |
| GraphStorages.IndexReverse | graphRAG/graph_storage.py:85-86 | the edge loop builds exactly the reverse adjacency of the edges |
| QueryEngines.NameSimilarity | graphRAG/graph_storage.py:338-355 | the name similarity lies in [0, 1] |
| QueryEngines.NameSimilarityRanks | graphRAG/graph_storage.py:338-355 | equal lowered strings score 1.0, a contained query at least 0.8, and a score of 1.0 means equal lowered character sets |
| QueryEngines.SyncedPool | graphRAG/graph_storage.py:127-151 | with built indexes, every search candidate is a stored node whose lowered name contains the lowered query (similarity at least 0.8), of the requested type |
| QueryEngines.QueryEngine.SearchNodes | graphRAG/graph_storage.py:127-151 | the result is a top-`limit` of the candidate nodes by name similarity: sorted descending, as long as the limit allows, nothing left out ranking above anything kept |
| QueryEngines.QueryEngine.NodesOf | graphRAG/graph_storage.py:142-146 | keeps, once each, exactly the stored nodes of the candidate ids |
| QueryEngines.HitIds | graphRAG/graph_storage.py:132-135 | the candidates are the union of the ids under every key whose lowered form contains the query |
| QueryEngines.QueryEngine.FindIngredientPairs | graphRAG/graph_storage.py:153-183 | [] when nothing resolves; otherwise every stored node with two-hop count at least the minimum (the matched ingredient never its own partner), once, by count descending |
| QueryEngines.QueryEngine.FindDishesByIngredients | graphRAG/graph_storage.py:185-216 | [] when nothing resolves; otherwise every dish by its count of matched ingredient nodes, with `require_all` demanding at least `len(names)`, by count descending |
| QueryEngines.SimilarMembers | graphRAG/graph_storage.py:218-236 | a (dish, weight) pair is collected iff the dish is stored and some matched dish has a SIMILAR_TO edge to it with that weight |
| QueryEngines.SimilarOf | graphRAG/graph_storage.py:225-231 | the (dish, weight) pairs collected from the matched dishes' SIMILAR_TO edges name only stored nodes |
| QueryEngines.QueryEngine.FindSimilarDishes | graphRAG/graph_storage.py:218-236 | returns the collected pairs sorted by weight and cut to the limit |
| QueryEngines.QueryEngine.FindCookingMethodsForIngredient | graphRAG/graph_storage.py:238-266 | [] when nothing resolves; otherwise every method reached ingredient–dish–method, by count descending |
| QueryEngines.QueryEngine.FindIngredientsByCookingMethod | graphRAG/graph_storage.py:268-296 | [] when nothing resolves; otherwise every ingredient reached method–dish–ingredient, by count descending |
| QueryEngines.SubstitutionScore | graphRAG/graph_storage.py:357-370 | the score lies in [0, 1], is 0 when either PAIRS_WITH set is empty, and is 1 exactly when the sets are equal and non-empty |
| QueryEngines.SuggestionsSound | graphRAG/graph_storage.py:298-317 | every suggestion is a PAIRS_WITH neighbour of a matched ingredient, with its substitution score, which is above 0.1 |
| QueryEngines.SuggestionsOf | graphRAG/graph_storage.py:305-315 | every suggestion collected from the PAIRS_WITH partners scores in (0.1, 1] |
| QueryEngines.QueryEngine.GetSubstitutionSuggestions | graphRAG/graph_storage.py:298-317 | returns the suggestions sorted by score and cut to 10 |
| QueryEngines.QueryEngine.FindShortestPath | graphRAG/graph_storage.py:372-397 | `[start]` when start is end; a result is a path start→end of neighbour steps with no repeated node, within `max_depth` hops and no longer than any path; None only when no path of at most `max_depth` hops exists |
| QueryEngines.QueryEngine.Turn | graphRAG/graph_storage.py:380-395 | one pop of the queue keeps the search invariant or returns a shortest path, and the unvisited set or the queue shrinks |
| QueryEngines.QueryEngine.Expand | graphRAG/graph_storage.py:386-395 | expanding a path's neighbours keeps the search invariant, or returns the shortest path on meeting the end |
| QueryEngines.QueryEngine.FindPathBetweenIngredients | graphRAG/graph_storage.py:319-336 | the paths are shortest paths for (first match, second match) index pairs in order, and every pair without a path is unreachable within `max_depth` |
| Paths.WalkVisited | graphRAG/graph_storage.py:372-397 | every node on a walk from the start has a recorded depth no greater than its position |
| Paths.NoShortPath | graphRAG/graph_storage.py:372-397 | once the search has closed all nodes up to a depth, no path to the end is that short |
| Paths.Exhausted | graphRAG/graph_storage.py:380-397 | an empty queue means the end is unreachable within `max_depth` |
| Paths.VisitEnd | graphRAG/graph_storage.py:389-391 | the path that first reaches the end is a shortest path |
| Paths.SearchStart | graphRAG/graph_storage.py:377-378 | the initial queue and visited set satisfy the search invariant |
| Ranking.SortDesc | graphRAG/recommendation_engine.py:72-73 | sorting gives a permutation sorted by key descending |
| Ranking.TopKOfSorted | graphRAG/graph_storage.py:148-151 | sorting and cutting to the limit gives a top-`limit` of the pool |
| Ranking.MergeBestSpec | graphRAG/recommendation_engine.py:401-416 | the merge keeps one entry per name, each the best score of its name among the inputs, sorted descending, a top-`max` of those bests |
| Ranking.BestByNameKeepsMax | graphRAG/recommendation_engine.py:404-411 | the per-name table has exactly the input names, each mapped to an input of that name whose score is maximal |
| Ranking.JaccardBounds | graphRAG/graph_builder.py:400-413 | Jaccard lies in [0, 1], is symmetric, and is 0 when either set is empty |
| Ranking.JaccardOne | graphRAG/graph_storage.py:357-370 | Jaccard is 1 exactly when the sets are equal and non-empty |
| Trending.OrderedSymmetric | graphRAG/recommendation_engine.py:328 | sorting a pair of names forgets which came first |
| Trending.DishPairsCount | graphRAG/recommendation_engine.py:323-329 | a pair's count from one dish is the number of index pairs i < j whose names sort to it |
| Trending.TrendCountSorted | graphRAG/recommendation_engine.py:313-338 | a pair counted at all is in sorted order and comes from some dish's ingredient index pairs |
| Trending.TrendCount | graphRAG/recommendation_engine.py:320-329 | the counter of a pair after the loop over the dishes is positive only for a pair in sorted order |
| Trending.CountDishes | graphRAG/recommendation_engine.py:318-329 | the counter holds, for every pair, its total count over the dishes |
| Trending.RankPairs | graphRAG/recommendation_engine.py:331-338 | keeps a top-20 by count of the pairs counted at least the minimum |
| Trending.DiscoverTrending | graphRAG/recommendation_engine.py:313-338 | at most 20 pairs, each in sorted order, with its true count, at least the minimum and positive, sorted by count, a top-20 of the qualifying pairs |
| RecommendationEngines.ComplexityFactor | graphRAG/recommendation_engine.py:352-357 | the factor is 1.2 exactly for 3..8 ingredients, 0.8 exactly above 10, 1.0 exactly otherwise |
| RecommendationEngines.IngredientScoreRange | graphRAG/recommendation_engine.py:340-359 | the score is completion rate × factor, non-negative, 0 exactly without ingredients or matches, at most the factor |
| RecommendationEngines.IngredientScore | graphRAG/recommendation_engine.py:340-359 | completion rate × complexity factor: non-negative, 0 exactly without ingredients or matches, at most the factor when matches do not outnumber ingredients |
| RecommendationEngines.IngredientScoreMonotone | graphRAG/recommendation_engine.py:340-359 | more matches never lower the score |
| RecommendationEngines.CategoryScore | graphRAG/recommendation_engine.py:382-395 | 1.0 exactly for 4..10 ingredients plus methods, 0.8 exactly below 4, 0.6 exactly above 10 |
| RecommendationEngines.MethodScore | graphRAG/recommendation_engine.py:375-380 | 0 without ingredients; with some common ingredient the score lies in (0, 1] and is 1 exactly when all are common |
| RecommendationEngines.PairingScore | graphRAG/recommendation_engine.py:361-369 | the score is `ln(count + 1) / 5` capped at 1.0 |
| RecommendationEngines.DishRecFacts | graphRAG/recommendation_engine.py:44-67 | a dish recommendation carries the match count, the dish's ingredient total, completion rate, at most 5 missing names none of them available, and the ingredient score |
| RecommendationEngines.MissingTaken | graphRAG/recommendation_engine.py:52-56 | every listed missing ingredient belongs to the dish and is not available |
| RecommendationEngines.IngredientsAnswerSound | graphRAG/recommendation_engine.py:36-73 | the by-ingredients answer is sorted, one per candidate up to `max`, each the candidate's own recommendation |
| RecommendationEngines.RecommendationEngine.RecommendDishesByIngredients | graphRAG/recommendation_engine.py:36-73 | the result is the candidates' recommendations sorted by score and cut to `max` (a top-`max` of them) |
| RecommendationEngines.SimilarAnswerSound | graphRAG/recommendation_engine.py:127-158 | at most 5, sorted, each a stored dish that a matched dish has a SIMILAR_TO edge to with exactly that score |
| RecommendationEngines.RecommendationEngine.RecommendSimilarDishes | graphRAG/recommendation_engine.py:127-158 | the result is the recommendations of the 5 most similar pairs, in order, cut to `max` |
| RecommendationEngines.MethodRecsSound | graphRAG/recommendation_engine.py:179-204 | every method recommendation is of a listed dish with at least one common ingredient, scored common / total in (0, 1] |
| RecommendationEngines.MethodRecsComplete | graphRAG/recommendation_engine.py:179-204 | every listed dish with a common ingredient is recommended |
| RecommendationEngines.MethodAnswerSound | graphRAG/recommendation_engine.py:160-208 | the by-method answer is sorted, of dishes of the ranked ingredients, for the method, scored in (0, 1] |
| RecommendationEngines.RecommendationEngine.RecommendByCookingMethod | graphRAG/recommendation_engine.py:160-208 | the result is a top-`max` of the dish recommendations for the method |
| RecommendationEngines.CategoryRecsAt | graphRAG/recommendation_engine.py:223-244 | each category recommendation names its dish, the category, its ingredient count, at most 3 methods, and the three-tier score |
| RecommendationEngines.CategoryAnswerSound | graphRAG/recommendation_engine.py:210-248 | the by-category answer is sorted, one per BELONGS_TO dish of the first match up to `max`, each scored 1.0, 0.8 or 0.6 |
| RecommendationEngines.RecommendationEngine.RecommendByCategory | graphRAG/recommendation_engine.py:210-248 | nothing without a matched category, otherwise that category's dishes' recommendations sorted and cut |
| RecommendationEngines.PairProposed | graphRAG/recommendation_engine.py:85-111 | a proposal is a stored partner, counted at least twice from an ingredient of a matched dish, not already in that dish, scored by the pairing score |
| RecommendationEngines.MergedProposals | graphRAG/recommendation_engine.py:113-125 | merging the proposals keeps one per name, the best-scoring proposal of that name, sorted |
| RecommendationEngines.RecommendationEngine.RecommendIngredientsByDish | graphRAG/recommendation_engine.py:75-125 | [] when no dish matches; otherwise only proposals (never an ingredient already in the dish), one per name with the max score, sorted |
| RecommendationEngines.SuggestionBounds | graphRAG/graph_storage.py:310-314 | every substitution suggestion's score lies in (0.1, 1] |
| RecommendationEngines.SubstituteScores | graphRAG/recommendation_engine.py:283-311 | the substitution recommendations are sorted and each score lies in (0.1, 1] |
| RecommendationEngines.PairedAll | graphRAG/recommendation_engine.py:297-306 | each of the first five partner names is a stored ingredient counted at least twice with the suggestion |
| RecommendationEngines.RecommendationEngine.RecommendIngredientSubstitutions | graphRAG/recommendation_engine.py:283-311 | one recommendation per top-10 suggestion with its score, whose `common_pairings` are exactly the names of the first five partners `find_ingredient_pairs` ranks for it; cut to `max`, sorted, scores in (0.1, 1] |
| RecommendationEngines.RecommendationEngine.CommonPairings | graphRAG/recommendation_engine.py:297-306 | the names of the first five entries of a `find_ingredient_pairs(name)` answer (min count 2), in its order |
| RecommendationEngines.CommonPairingsSound | graphRAG/recommendation_engine.py:297-306 | such a list has at most five names, each a stored ingredient counted at least twice with `name` |
| RecommendationEngines.MergeRecommendations | graphRAG/recommendation_engine.py:401-416 | one result per name, each with the max score among that name's inputs, sorted descending, a top-`max` of the per-name bests |
| RecommendationEngines.Each | graphRAG/recommendation_engine.py:255-279 | one strategy per listed preference, none when the key is absent |
| RecommendationEngines.RecommendationEngine.RunAll | graphRAG/recommendation_engine.py:253-279 | the concatenation of one valid answer per strategy, in order |
| RecommendationEngines.RecommendationEngine.HybridRecommend | graphRAG/recommendation_engine.py:250-281 | the merge of exactly the answers of the strategies whose keys are present: one per name, the best score, sorted |
| ComplexQueries.RouteFirstGroup | graphRAG/complex_queries.py:36-58 | a query goes to a group's kind iff the lowered query mentions that group and no group before it |
| ComplexQueries.Route | graphRAG/complex_queries.py:36-58 | a discovery query exactly when a discovery word occurs in the lowered query, and the general query exactly when no group's word does |
| ComplexQueries.RouteGeneral | graphRAG/complex_queries.py:36-58 | a query is general iff it mentions no group's keyword |
| ComplexQueries.DiscoveryFirst | graphRAG/complex_queries.py:41-42 | any query mentioning a discovery keyword is a discovery query |
| ComplexQueries.KeywordsIn | graphRAG/complex_queries.py:599-618 | keeps exactly the keywords occurring in the query, in list order |
| ComplexQueries.ExtractIngredients | graphRAG/complex_queries.py:599-618 | returns exactly the ingredient keywords occurring in the query |
| ComplexQueries.ExtractCookingMethods | graphRAG/complex_queries.py:699-713 | returns exactly the cooking-method keywords occurring in the query |
| ComplexQueries.FilterKeepsOrder | graphRAG/complex_queries.py:614-618 | the extracted keywords keep the list's order |
| ComplexQueries.ScrubTrimmed | graphRAG/complex_queries.py:502-516 | after the removals and stripping, the residue has no surrounding whitespace |
| ComplexQueries.ExtractTarget | graphRAG/complex_queries.py:502-516 | None exactly when the residue is empty, otherwise the non-empty trimmed residue |
| ComplexQueries.DedupeSpec | graphRAG/complex_queries.py:75-85 | the dedupe returns one entry per name, sorted descending, each with the max score of its name, and every input name is represented |
| ComplexQueries.Dedupe | graphRAG/complex_queries.py:75-85 | the deduplicated list is sorted by score, largest first, and names each item at most once |
| ComplexQueries.DedupeComplete | graphRAG/complex_queries.py:75-85 | every input's name appears in the dedupe's output |
| ComplexQueries.DedupePairs | graphRAG/complex_queries.py:75-85 | the dictionary loop computes the dedupe |
| ComplexQueries.PairingSound | graphRAG/complex_queries.py:60-90 | the pairing result is sorted, one per name, stored nodes with count at least 2, each input pair dominated by the entry of its name |
| ComplexQueries.ComplexQueryProcessor.constructor | graphRAG/complex_queries.py:30-34 | keeps the engine and the optional recommender |
| ComplexQueries.ComplexQueryProcessor.ProcessPairing | graphRAG/complex_queries.py:60-90 | an error result without ingredient keywords; otherwise the dedupe of every keyword's pair tally |
| ComplexQueries.ComplexQueryProcessor.DishesForQuery | graphRAG/complex_queries.py:95-103 | no dishes without ingredient keywords, otherwise the dish search for them |
| ComplexQueries.ComplexQueryProcessor.ProcessRecommendation | graphRAG/complex_queries.py:92-127 | the dedupe of the dishes found for the ingredients followed by each named dish's similar dishes |
| ComplexQueries.ComplexQueryProcessor.ProcessSubstitution | graphRAG/complex_queries.py:129-156 | an error result without ingredient keywords; otherwise the dedupe of every keyword's substitution suggestions |
| ComplexQueries.ComplexQueryProcessor.ProcessSimilarity | graphRAG/complex_queries.py:158-185 | an error result without dish names; otherwise the dedupe of every dish's similar dishes |
| ComplexQueries.ComplexQueryProcessor.ProcessCookingMethod | graphRAG/complex_queries.py:187-222 | the dedupe of the methods of each ingredient keyword followed by the ingredients of each method keyword |
| ComplexQueries.CombinationsRanked | graphRAG/complex_queries.py:268-282 | the combination nodes keep the trending order and counts, each named "a + b" |
| ComplexQueries.CombinationNodes | graphRAG/complex_queries.py:268-282 | the loop builds the combination node of every trending pair, in order |
| ComplexQueries.ComplexQueryProcessor.ProcessDiscovery | graphRAG/complex_queries.py:254-320 | an error result unless the query mentions a hot word and a combination word; otherwise the combination nodes of a top-20 of the pairs counted at least 3 times |
| ComplexQueries.PartnerCountsSpec | graphRAG/complex_queries.py:770-771 | the partner table holds a name iff it is paired, with the count of its last entry |
| ComplexQueries.Compatibility | graphRAG/complex_queries.py:776-779 | a compatibility lies in [0, 1], is 0 for an absent partner and 1 from 10 co-occurrences |
| ComplexQueries.BuildRow | graphRAG/complex_queries.py:773-779 | a row has exactly the listed names, 1.0 at the row's own position, the capped count elsewhere, a repeated name keeping its last position |
| ComplexQueries.MatrixCells | graphRAG/complex_queries.py:764-781 | the matrix's rows and columns are exactly the names; a cell is 1.0 on the diagonal and the capped count otherwise, and lies in [0, 1] |
| ComplexQueries.ComplexQueryProcessor.CompatibilityMatrix | graphRAG/complex_queries.py:764-781 | rows and columns are exactly the names; each cell is 1.0 on the diagonal, otherwise `min(count / 10, 1.0)` of that row's pair tally, in [0, 1] |
| GraphBuilders.ToolOrSeasoningSpec | graphRAG/graph_builder.py:335-345 | an item is a tool or seasoning iff a tool or a seasoning keyword occurs in it; every keyword itself qualifies |
| GraphBuilders.IsTool | graphRAG/graph_builder.py:339-341 | true iff some tool keyword occurs in the item; every tool keyword is itself a tool |
| GraphBuilders.IsSeasoning | graphRAG/graph_builder.py:343-345 | true iff some seasoning keyword occurs in the item; every seasoning keyword is itself a seasoning |
| GraphBuilders.IsToolOrSeasoning | graphRAG/graph_builder.py:335-337 | true iff a keyword of the tool and seasoning lists together occurs in the item |
| GraphBuilders.MentionsUnion | graphRAG/graph_builder.py:335-337 | mentioning a word of either list is mentioning a word of their union |
| GraphBuilders.MentionsGrows | graphRAG/graph_builder.py:339-345 | a name containing a part that mentions a keyword mentions it too |
| GraphBuilders.IngredientCategorySpec | graphRAG/graph_builder.py:347-352 | the category is that of the first category in table order whose keyword occurs in the name |
| GraphBuilders.IngredientCategory | graphRAG/graph_builder.py:347-352 | None iff no category's keyword occurs in the name; otherwise the first category in table order with a keyword in the name |
| GraphBuilders.IngredientCategoryNone | graphRAG/graph_builder.py:347-352 | None exactly when no category's keyword occurs in the name |
| GraphBuilders.EggFiledAsMeat | graphRAG/graph_builder.py:47-55 | "鸡蛋" is listed under 蛋类 yet the rule files it under 肉类 |
| GraphBuilders.ListedCategorySpec | graphRAG/graph_builder.py:347-352 | with the intended rule, a listed name gets the first category that lists it |
| GraphBuilders.ListedCategoryFallback | graphRAG/graph_builder.py:347-352 | with the intended rule, an unlisted name gets the keyword rule's answer |
| GraphBuilders.EggFiledAsEgg | graphRAG/graph_builder.py:47-55 | with the intended rule, "鸡蛋" is filed under 蛋类 |
| GraphBuilders.ExtractCategory | graphRAG/graph_builder.py:235-242 | the component right after the first "dishes", and None when "dishes" is absent or last |
| GraphBuilders.IngredientIdsMembers | graphRAG/graph_builder.py:403-404 | a dish's ingredient id set is exactly the stored ids CONTAINS-adjacent to it |
| GraphBuilders.DishSimilaritySpec | graphRAG/graph_builder.py:400-413 | dish similarity lies in [0, 1], is symmetric, 0 when a set is empty, positive iff the sets meet, 1 iff equal and non-empty |
| GraphBuilders.DishSimilarity | graphRAG/graph_builder.py:400-413 | the similarity of two dishes' ingredient-id sets lies in [0, 1], is symmetric, and is 0 when either set is empty |
| GraphBuilders.AddEdgeKeepsNeighbors | graphRAG/graph_builder.py:373-398 | adding an edge of another type leaves every node's typed neighbours unchanged |
| GraphBuilders.AddEdgesConsistent | graphRAG/graph_models.py:81-92 | adding any edge list keeps the invariant and the nodes |
| GraphBuilders.AddEdgesKeepNeighbors | graphRAG/graph_builder.py:384-398 | adding PAIRS_WITH or SIMILAR_TO edges never changes CONTAINS neighbours, so similarities stay those of the unbuilt graph |
| GraphBuilders.CooccurrenceSorted | graphRAG/graph_builder.py:362-371 | a counted pair is in sorted order and comes from some dish's ingredient index pairs |
| GraphBuilders.PairingEdgesMember | graphRAG/graph_builder.py:373-382 | an edge is added iff its pair was counted more than once and it carries the PAIRS_WITH type and the count |
| GraphBuilders.PairingsBuilt | graphRAG/graph_builder.py:354-382 | the old edges stay first; every pair counted more than once gets a PAIRS_WITH edge smaller id → larger id weighted by its count; every new edge is such an edge |
| GraphBuilders.SimilarBuilt | graphRAG/graph_builder.py:384-398 | the old edges stay first; every dish pair i < j with similarity > 0.3 gets a SIMILAR_TO edge weighted by it; every new edge is such an edge |
| GraphBuilders.SimilarPassStep | graphRAG/graph_builder.py:388-398 | similarity read from the partially built graph equals that of the unbuilt graph, so each pair adds its edge exactly when above 0.3 |
| GraphBuilders.AddEdgesAppend | graphRAG/graph_builder.py:384-398 | adding two edge lists in turn is adding their concatenation |
| GraphBuilders.RecipeGraphBuilder.constructor | graphRAG/graph_builder.py:22-55 | a new builder holds a fresh empty graph |
| GraphBuilders.RecipeGraphBuilder.CalculateDishSimilarity | graphRAG/graph_builder.py:400-413 | returns the Jaccard of the two dishes' ingredient id sets |
| GraphBuilders.RecipeGraphBuilder.CountCooccurrence | graphRAG/graph_builder.py:362-371 | the counter holds each sorted pair's co-occurrence count over the dishes, positive counts only |
| GraphBuilders.RecipeGraphBuilder.BuildIngredientPairings | graphRAG/graph_builder.py:354-382 | the new graph is the old one plus the PAIRS_WITH edges of the counted pairs, in the counter's order |
| GraphBuilders.RecipeGraphBuilder.SimilarRowPass | graphRAG/graph_builder.py:388-398 | one dish's pass adds exactly its row of SIMILAR_TO edges |
| GraphBuilders.RecipeGraphBuilder.BuildSimilarDishes | graphRAG/graph_builder.py:384-398 | the new graph is the old one plus the SIMILAR_TO edges of the dish pairs above 0.3, in pair order |
| GraphBuilders.RecipeGraphBuilder.BuildRelations | graphRAG/graph_builder.py:71-77 | the build's relation steps add the pairing edges, then the similar-dish edges measured on the graph before either |

## Left out

- File I/O is not modelled. This covers `save_to_file`, the JSON reading of `load_from_file`, `GraphStorage.save_graph`/`load_graph` and the pickle index persistence (`_save_indexes`, `_load_indexes`). The round trip is proved on the dictionary form that those files hold.
- Markdown parsing is not modelled. This covers the recipe directory scan and the reading of each recipe file (`build_graph`'s file loop, `_scan_recipe_files`, `_process_recipe_file`) and the regex extractors that feed them. Those rely on file I/O and on Python regex semantics. The builder's graph is taken as given, and only the relation passes are run on it.
- `_extract_dishes_from_query` is a regex extractor and is not modelled. The dish names it yields are a parameter of `ProcessRecommendation` and `ProcessSimilarity`.
- `_process_ingredient_query`, `_process_analysis_query`, `_process_general_query`, `_analyze_dish_network`, `_analyze_cooking_method_network` and `analyze_ingredient_network` are not modelled. They assemble descriptive dictionaries from the queries above. Their target extraction (`ExtractTarget`) and routing are modelled.
- `find_recipe_paths` is not modelled separately. It only forwards to `find_path_between_ingredients`, which is modelled.
- `generate_llm_enhanced_answer`, `_generate_simple_answer`, the LLM integration, `main`, `demo` and `config` are not modelled. They are text formatting and calls to a foreign service.
- The human-readable `reason` strings of recommendations and the descriptive metadata dictionaries of query results are not modelled. Only the error message of an error result is kept.
- `math.log` in the pairing score is the parameter `ln`, because it is a floating-point transcendental.
- Floating point is modelled as exact real arithmetic. The 0.3, 0.1 and 0.8 thresholds are compared exactly.
- `_calculate_similarity_score` and `_calculate_substitution_score` of the recommendation engine are identities. They are folded into the recommendations they build: the score equals the similarity or the substitution score.
- `str.lower` lowers ASCII letters only.
- The order of Python set and dictionary iteration is unspecified in the model. The pair counters, candidate sets and the builder's co-occurrence counter are iterated in an order the proofs leave open (the ghost `order` of the builder). Ties in sorting may come in any order.
- `hybrid_recommend`'s preferences are a record of optional lists rather than a free-form dictionary.
- `GraphData.RoundTrip`: the order of keys within a rebuilt adjacency row is not stated. Rows are re-created in edge order, so the order of in-neighbours may differ after a reload. Cells, nodes and edges are equal.
- `RecommendationEngines.RecommendationEngine.RecommendIngredientsByDish`: soundness is proved, meaning every result is a valid proposal with its name's best score. It is not proved that every valid proposal is represented.
- `ComplexQueries.ComplexQueryProcessor.CompatibilityMatrix`: a name listed twice yields one row. The row is the one its last position wrote, and the model states that without modelling the dictionary's key order.
- `GraphBuilders.RecipeGraphBuilder.BuildIngredientPairings`: the counter's iteration order is a ghost `order`, so the relative order of the added pairing edges is left open.

## Findings

| source | as written | input that shows it | evidently intended | confidence | as-written member | corrected member |
|---|---|---|---|---|---|---|
| graphRAG/graph_builder.py:347-352 | the first category with any keyword occurring in the name wins; 肉类 comes first and its keyword "鸡" occurs in "鸡蛋", which 蛋类 lists verbatim | "鸡蛋" | an ingredient listed verbatim under a category (蛋类 for "鸡蛋") belongs to that category | not executed | GraphBuilders.EggFiledAsMeat | GraphBuilders.EggFiledAsEgg (rule `GraphBuilders.ListedCategory`) |
