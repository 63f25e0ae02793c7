/**
  * Trending ingredient combinations, as both `discover_trending_combinations`
  * and `_discover_trending_combinations_direct` compute them: every dish's
  * CONTAINS neighbours, read as a list of names, contribute one count for each
  * pair of positions i < j, filed under the two names in sorted order; the
  * pairs counted at least `min` times are ranked by count and cut to 20.
  */
module Trending {
  import opened Wrappers
  import opened Text
  import opened Dicts
  import opened Ranking
  import opened GraphModels
  import opened RecipeGraphs

  /** A combination: two ingredient names, the smaller first. */
  type Pair = (string, string)

  /** The names of a node list, in order: `[ing.name for ing in ingredients]`. */
  function Names(ns: seq<Node>): seq<string> {
    seq(|ns|, k requires 0 <= k < |ns| => ns[k].name)
  }

  /** `tuple(sorted([a, b]))`: the same two names, the smaller one first. */
  function Ordered(a: string, b: string): (p: Pair)
    ensures p == (a, b) || p == (b, a)
    ensures !StrLess(p.1, p.0)
  {
    StrLessTotal(a, b);
    if StrLess(b, a) then (b, a) else (a, b)
  }

  /** Sorting a pair forgets which name came first. */
  lemma OrderedSymmetric(a: string, b: string)
    ensures Ordered(a, b) == Ordered(b, a)
  {
    StrLessTotal(a, b);
  }

  // ---------------------------------------------------------------------------
  // Counting the index pairs of one dish
  // ---------------------------------------------------------------------------

  /** The positions k with i < k < j whose name, with `names[i]`, sorts into `p`. */
  function RowCount(names: seq<string>, i: int, j: int, p: Pair): nat
    requires 0 <= i < |names| && j <= |names|
    decreases j
  {
    if j <= i + 1 then 0
    else RowCount(names, i, j - 1, p) + (if Ordered(names[i], names[j - 1]) == p then 1 else 0)
  }

  /** The index pairs a < b with a < i that sort into `p`, row by row as the outer loop visits them. */
  function PairCount(names: seq<string>, i: int, p: Pair): nat
    requires 0 <= i <= |names|
  {
    if i == 0 then 0 else PairCount(names, i - 1, p) + RowCount(names, i - 1, |names|, p)
  }

  /** What one dish adds to the counter of `p`. */
  function DishPairs(names: seq<string>, p: Pair): nat {
    PairCount(names, |names|, p)
  }

  /** The index pairs i < j of `names` whose names sort into `p`. */
  function IndexPairs(names: seq<string>, p: Pair): set<(int, int)> {
    set a, b | 0 <= a < b < |names| && Ordered(names[a], names[b]) == p :: (a, b)
  }

  function RowSet(names: seq<string>, a: int, j: int, p: Pair): set<(int, int)>
    requires 0 <= a < |names| && j <= |names|
  {
    set b | a < b < j && Ordered(names[a], names[b]) == p :: (a, b)
  }

  function UpTo(names: seq<string>, i: int, p: Pair): set<(int, int)>
    requires 0 <= i <= |names|
  {
    set a, b | 0 <= a < i && a < b < |names| && Ordered(names[a], names[b]) == p :: (a, b)
  }

  /** Membership in a row's set, spelled out. */
  lemma RowSetMember(names: seq<string>, a: int, j: int, p: Pair, x: (int, int))
    requires 0 <= a < |names| && j <= |names|
    ensures x in RowSet(names, a, j, p) <==> x.0 == a && a < x.1 < j && Ordered(names[a], names[x.1]) == p
  {
    if x.0 == a && a < x.1 < j && Ordered(names[a], names[x.1]) == p {
      assert x == (a, x.1);
    }
  }

  /** Membership in the set of the first `i` rows, spelled out. */
  lemma UpToMember(names: seq<string>, i: int, p: Pair, x: (int, int))
    requires 0 <= i <= |names|
    ensures x in UpTo(names, i, p) <==> 0 <= x.0 < i && x.0 < x.1 < |names| && Ordered(names[x.0], names[x.1]) == p
  {
    if 0 <= x.0 < i && x.0 < x.1 < |names| && Ordered(names[x.0], names[x.1]) == p {
      assert x == (x.0, x.1);
    }
  }

  lemma {:induction false} RowSetCard(names: seq<string>, a: int, j: int, p: Pair)
    requires 0 <= a < |names| && j <= |names|
    ensures |RowSet(names, a, j, p)| == RowCount(names, a, j, p)
    decreases j
  {
    var row := RowSet(names, a, j, p);
    if j <= a + 1 {
      forall x | x in row
        ensures false
      {
        RowSetMember(names, a, j, p, x);
      }
      assert row == {};
    } else {
      RowSetCard(names, a, j - 1, p);
      var row0 := RowSet(names, a, j - 1, p);
      var last: set<(int, int)> := if Ordered(names[a], names[j - 1]) == p then {(a, j - 1)} else {};
      forall x
        ensures x in row <==> x in row0 || x in last
      {
        RowSetMember(names, a, j, p, x);
        RowSetMember(names, a, j - 1, p, x);
      }
      assert row == row0 + last;
      RowSetMember(names, a, j - 1, p, (a, j - 1));
      assert row0 * last == {};
    }
  }

  lemma {:induction false} UpToCard(names: seq<string>, i: int, p: Pair)
    requires 0 <= i <= |names|
    ensures |UpTo(names, i, p)| == PairCount(names, i, p)
  {
    var upto := UpTo(names, i, p);
    if i == 0 {
      forall x | x in upto
        ensures false
      {
        UpToMember(names, i, p, x);
      }
      assert upto == {};
    } else {
      UpToCard(names, i - 1, p);
      RowSetCard(names, i - 1, |names|, p);
      var before, row := UpTo(names, i - 1, p), RowSet(names, i - 1, |names|, p);
      forall x
        ensures x in upto <==> x in before || x in row
        ensures !(x in before && x in row)
      {
        UpToMember(names, i, p, x);
        UpToMember(names, i - 1, p, x);
        RowSetMember(names, i - 1, |names|, p, x);
      }
      assert upto == before + row;
      assert before * row == {};
    }
  }

  /** A dish adds to the counter of `p` exactly the number of its index pairs i < j whose names sort into `p`. */
  lemma DishPairsCount(names: seq<string>, p: Pair)
    ensures DishPairs(names, p) == |IndexPairs(names, p)|
  {
    UpToCard(names, |names|, p);
    assert UpTo(names, |names|, p) == IndexPairs(names, p);
  }

  /** Only sorted pairs are ever counted. */
  lemma DishPairsSorted(names: seq<string>, p: Pair)
    requires DishPairs(names, p) > 0
    ensures !StrLess(p.1, p.0)
  {
    DishPairsCount(names, p);
    var ab :| ab in IndexPairs(names, p);
  }

  // ---------------------------------------------------------------------------
  // Counting over all dishes
  // ---------------------------------------------------------------------------

  /** The names of a dish's CONTAINS neighbours, as the loop reads them. */
  function IngredientNames(g: GraphState, d: Node): seq<string>
    requires Shaped(g)
  {
    Names(Neighbors(g, d.id, Some(Contains)))
  }

  /** The counter of `p` after the loop over the dishes `ds`. */
  function TrendCount(g: GraphState, ds: seq<Node>, p: Pair): (c: nat)
    requires Shaped(g)
    ensures c > 0 ==> !StrLess(p.1, p.0)
  {
    if ds == [] then 0
    else
      var names := IngredientNames(g, ds[|ds| - 1]);
      assert DishPairs(names, p) > 0 ==> !StrLess(p.1, p.0) by {
        if DishPairs(names, p) > 0 {
          DishPairsSorted(names, p);
        }
      }
      TrendCount(g, ds[..|ds| - 1], p) + DishPairs(names, p)
  }

  /** A pair is counted only if some dish lists its two names at two positions, and then it is sorted. */
  lemma {:induction false} TrendCountSorted(g: GraphState, ds: seq<Node>, p: Pair)
    requires Shaped(g)
    requires TrendCount(g, ds, p) > 0
    ensures !StrLess(p.1, p.0)
    ensures exists k | 0 <= k < |ds| :: IndexPairs(IngredientNames(g, ds[k]), p) != {}
  {
    var ds0, d := ds[..|ds| - 1], ds[|ds| - 1];
    if TrendCount(g, ds0, p) > 0 {
      TrendCountSorted(g, ds0, p);
      var k :| 0 <= k < |ds0| && IndexPairs(IngredientNames(g, ds0[k]), p) != {};
      assert ds[k] == ds0[k];
    } else {
      DishPairsSorted(IngredientNames(g, d), p);
      DishPairsCount(IngredientNames(g, d), p);
      assert IndexPairs(IngredientNames(g, ds[|ds| - 1]), p) != {};
    }
  }

  /** The inner loop over j for a fixed i: each later position bumps the counter of the sorted pair. */
  method CountRow(counts: map<Pair, nat>, names: seq<string>, i: int) returns (r: map<Pair, nat>)
    requires 0 <= i < |names|
    requires Positive(counts)
    ensures Positive(r)
    ensures forall p :: Count(r, p) == Count(counts, p) + RowCount(names, i, |names|, p)
  {
    r := counts;
    for j := i + 1 to |names|
      invariant Positive(r)
      invariant forall p :: Count(r, p) == Count(counts, p) + RowCount(names, i, j, p)
    {
      var q := Ordered(names[i], names[j]);
      r := r[q := Count(r, q) + 1];
    }
  }

  /** Both loops over the positions of one dish's names. */
  method CountPairs(counts: map<Pair, nat>, names: seq<string>) returns (r: map<Pair, nat>)
    requires Positive(counts)
    ensures Positive(r)
    ensures forall p :: Count(r, p) == Count(counts, p) + DishPairs(names, p)
  {
    r := counts;
    for i := 0 to |names|
      invariant Positive(r)
      invariant forall p :: Count(r, p) == Count(counts, p) + PairCount(names, i, p)
    {
      r := CountRow(r, names, i);
    }
  }

  /** The loop over the dishes, reading each one's CONTAINS neighbours from the graph. */
  method CountDishes(graph: RecipeGraph, ds: seq<Node>) returns (counts: map<Pair, nat>)
    requires Shaped(graph.State())
    ensures Positive(counts)
    ensures forall p :: Count(counts, p) == TrendCount(graph.State(), ds, p)
  {
    ghost var g := graph.State();
    counts := map[];
    for k := 0 to |ds|
      invariant Positive(counts)
      invariant forall p :: Count(counts, p) == TrendCount(g, ds[..k], p)
    {
      assert ds[..k + 1][..k] == ds[..k];
      var ingredients := graph.GetNeighbors(ds[k].id, Some(Contains));
      counts := CountPairs(counts, Names(ingredients));
    }
    assert ds[..|ds|] == ds;
  }

  // ---------------------------------------------------------------------------
  // Filtering and ranking
  // ---------------------------------------------------------------------------

  function CountKey(e: (Pair, nat)): real {
    e.1 as real
  }

  /** The counter's entries that reach `min`. */
  function Qualifying(counts: map<Pair, nat>, min: int): set<(Pair, nat)> {
    set p | p in counts && counts[p] >= min :: (p, counts[p])
  }

  /**
    * `for pair, count in counter.items(): if count >= min: results.append(...)`,
    * then the sort by count, largest first, and the cut to 20.
    */
  method RankPairs(counts: map<Pair, nat>, min: int) returns (r: seq<(Pair, nat)>)
    ensures IsTopK(r, multiset(Qualifying(counts, min)), CountKey, 20)
  {
    var keys := ListOfSet(counts.Keys);
    var found: seq<(Pair, nat)> := [];
    for k := 0 to |keys|
      invariant Distinct(found)
      invariant forall e :: e in found <==> e in Qualifying(counts, min) && e.0 in keys[..k]
    {
      assert keys[..k + 1] == keys[..k] + [keys[k]];
      var p := keys[k];
      if counts[p] >= min {
        assert p !in keys[..k];
        found := found + [(p, counts[p])];
      }
    }
    assert keys[..|keys|] == keys;
    DistinctMultiset(found, Qualifying(counts, min));
    r := Take(SortDesc(found, CountKey), 20);
    TopKOfSorted(found, CountKey, 20);
  }

  /**
    * The whole computation over the stored dishes: at most 20 entries, sorted
    * by count, each a sorted pair of names with the number of index pairs,
    * over all dishes, that carry it, that number at least `min`; no pair
    * left out has a larger count than a pair kept.
    */
  method DiscoverTrending(graph: RecipeGraph, min: int) returns (r: seq<(Pair, nat)>, ghost counts: map<Pair, nat>)
    requires Shaped(graph.State())
    ensures forall p :: Count(counts, p) == TrendCount(graph.State(), graph.FindNodesByType(Dish), p)
    ensures Positive(counts)
    ensures IsTopK(r, multiset(Qualifying(counts, min)), CountKey, 20)
    ensures |r| <= 20
    ensures forall k | 0 <= k < |r| ::
      && r[k].1 == TrendCount(graph.State(), graph.FindNodesByType(Dish), r[k].0)
      && r[k].1 >= min && r[k].1 > 0
      && !StrLess(r[k].0.1, r[k].0.0)
  {
    var ds := graph.FindNodesByType(Dish);
    var tally := CountDishes(graph, ds);
    counts := tally;
    r := RankPairs(tally, min);
    forall k | 0 <= k < |r|
      ensures r[k].1 == TrendCount(graph.State(), ds, r[k].0) && r[k].1 >= min && r[k].1 > 0
      ensures !StrLess(r[k].0.1, r[k].0.0)
    {
      assert r[k] in multiset(Qualifying(counts, min));
      TrendCountSorted(graph.State(), ds, r[k].0);
    }
  }
}
