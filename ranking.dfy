/**
  * The list idioms every query and recommender in the recipe graph ends with:
  * `sort(key=..., reverse=True)` (stable), the slice `xs[:n]`, `list(some_set)`,
  * the "keep one entry per name, the one with the highest score" dictionary,
  * and the character/neighbour-set Jaccard ratio.
  */
module Ranking {
  import opened Dicts

  // ---------------------------------------------------------------------------
  // Sorting by a key, largest first
  // ---------------------------------------------------------------------------

  predicate SortedDesc<T>(xs: seq<T>, key: T -> real) {
    forall i, j :: 0 <= i < j < |xs| ==> key(xs[i]) >= key(xs[j])
  }

  /** Places `x` in front of the first element whose key is not larger than its own. */
  function InsertDesc<T>(x: T, ys: seq<T>, key: T -> real): (r: seq<T>)
    requires SortedDesc(ys, key)
    ensures |r| == |ys| + 1
    ensures r[0] == x || (ys != [] && r[0] == ys[0])
    ensures SortedDesc(r, key)
    ensures multiset(r) == multiset(ys) + multiset{x}
  {
    if ys == [] || key(ys[0]) <= key(x) then
      SortedCons(x, ys, key);
      [x] + ys
    else
      assert ys == [ys[0]] + ys[1..];
      var rest := InsertDesc(x, ys[1..], key);
      SortedCons(ys[0], rest, key);
      [ys[0]] + rest
  }

  /** Putting in front an element whose key is at least the first key keeps a list sorted. */
  lemma SortedCons<T>(y: T, rest: seq<T>, key: T -> real)
    requires SortedDesc(rest, key)
    requires rest != [] ==> key(y) >= key(rest[0])
    ensures SortedDesc([y] + rest, key)
  {
    var r := [y] + rest;
    forall i, j | 0 <= i < j < |r|
      ensures key(r[i]) >= key(r[j])
    {
      if i == 0 {
        assert key(rest[0]) >= key(rest[j - 1]) || j == 1;
      }
    }
  }

  /**
    * `sorted(xs, key=key, reverse=True)`: a stable sort, so elements with equal
    * keys keep their relative order.
    */
  function SortDesc<T>(xs: seq<T>, key: T -> real): (r: seq<T>)
    ensures SortedDesc(r, key)
    ensures multiset(r) == multiset(xs)
    ensures |r| == |xs|
  {
    if xs == [] then []
    else
      assert xs == [xs[0]] + xs[1..];
      InsertDesc(xs[0], SortDesc(xs[1..], key), key)
  }

  // ---------------------------------------------------------------------------
  // Slicing
  // ---------------------------------------------------------------------------

  /** The length of `xs[:n]` for a list of length `len`; a negative `n` counts from the end. */
  function TakeLen(len: nat, n: int): (m: nat)
    ensures m <= len
  {
    if n >= 0 then (if n < len then n else len)
    else if len + n > 0 then len + n else 0
  }

  /** Python's `xs[:n]`. */
  function Take<T>(xs: seq<T>, n: int): (r: seq<T>)
    ensures r == xs[..TakeLen(|xs|, n)]
  {
    xs[..TakeLen(|xs|, n)]
  }

  /**
    * `r` holds the `limit`-slice of the items of `pool` ranked by `key`: it is
    * a sub-multiset of the pool, sorted largest first, as long as the slice
    * allows, and no item left out ranks above an item kept.
    */
  ghost predicate IsTopK<T>(r: seq<T>, pool: multiset<T>, key: T -> real, limit: int) {
    && multiset(r) <= pool
    && SortedDesc(r, key)
    && |r| == TakeLen(|pool|, limit)
    && forall x, y :: x in pool - multiset(r) && y in r ==> key(x) <= key(y)
  }

  /** In a list sorted largest first, nothing after position `m` outranks anything before it. */
  lemma SortedSplit<T>(ys: seq<T>, m: nat, key: T -> real)
    requires SortedDesc(ys, key) && m <= |ys|
    ensures forall x, y :: x in ys[m..] && y in ys[..m] ==> key(x) <= key(y)
  {
    forall x, y | x in ys[m..] && y in ys[..m]
      ensures key(x) <= key(y)
    {
      var i :| m <= i < |ys| && ys[i] == x;
      var j :| 0 <= j < m && ys[j] == y;
    }
  }

  /** Cutting a list in two splits its multiset in two. */
  lemma CutMultiset<T>(ys: seq<T>, m: nat)
    requires m <= |ys|
    ensures multiset(ys[..m]) <= multiset(ys)
    ensures multiset(ys) - multiset(ys[..m]) == multiset(ys[m..])
  {
    assert ys == ys[..m] + ys[m..];
  }

  /** What is left out of a prefix of a sorted list ranks no higher than what the prefix keeps. */
  lemma RestBelow<T>(ys: seq<T>, m: nat, key: T -> real)
    requires SortedDesc(ys, key) && m <= |ys|
    ensures forall x, y :: x in multiset(ys) - multiset(ys[..m]) && y in ys[..m] ==> key(x) <= key(y)
  {
    CutMultiset(ys, m);
    SortedSplit(ys, m, key);
    forall x, y | x in multiset(ys) - multiset(ys[..m]) && y in ys[..m]
      ensures key(x) <= key(y)
    {
      assert x in multiset(ys[m..]);
    }
  }

  /** Sorting and then slicing keeps the top of the list. */
  lemma {:induction false} TopKOfSorted<T>(xs: seq<T>, key: T -> real, limit: int)
    ensures IsTopK(Take(SortDesc(xs, key), limit), multiset(xs), key, limit)
  {
    var ys := SortDesc(xs, key);
    var m := TakeLen(|ys|, limit);
    CutMultiset(ys, m);
    RestBelow(ys, m, key);
    assert |multiset(xs)| == |xs|;
  }

  /** The top of a sorted list is sorted, as long as the slice allows, and drawn from the list. */
  lemma SortedTake<T>(xs: seq<T>, key: T -> real, limit: int)
    ensures var r := Take(SortDesc(xs, key), limit);
      && SortedDesc(r, key) && |r| == TakeLen(|xs|, limit)
      && forall y | y in r :: y in xs
  {
    var r := Take(SortDesc(xs, key), limit);
    TopKOfSorted(xs, key, limit);
    forall y | y in r
      ensures y in xs
    {
      assert y in multiset(r);
    }
  }

  // ---------------------------------------------------------------------------
  // Comprehensions
  // ---------------------------------------------------------------------------

  /** `[x for x in xs if p(x)]`. */
  function Filter<T>(xs: seq<T>, p: T -> bool): (r: seq<T>)
    ensures |r| <= |xs|
    ensures forall i | 0 <= i < |r| :: r[i] in xs && p(r[i])
    ensures forall i | 0 <= i < |xs| && p(xs[i]) :: xs[i] in r
  {
    if xs == [] then []
    else
      assert xs == xs[..|xs| - 1] + [xs[|xs| - 1]];
      Filter(xs[..|xs| - 1], p) + (if p(xs[|xs| - 1]) then [xs[|xs| - 1]] else [])
  }

  // ---------------------------------------------------------------------------
  // `list(s)` for a set `s`
  // ---------------------------------------------------------------------------

  predicate Distinct<T(==)>(xs: seq<T>) {
    forall i, j :: 0 <= i < j < |xs| ==> xs[i] != xs[j]
  }

  /** `list(s)`: every element once, in an order Python does not promise. */
  method ListOfSet<T(==)>(s: set<T>) returns (xs: seq<T>)
    ensures Distinct(xs)
    ensures forall x :: x in xs <==> x in s
    ensures |xs| == |s|
  {
    xs := [];
    var rest := s;
    while rest != {}
      invariant rest <= s
      invariant Distinct(xs)
      invariant forall x :: x in xs <==> x in s - rest
      invariant |xs| + |rest| == |s|
      decreases |rest|
    {
      var x :| x in rest;
      assert x !in xs;
      xs := xs + [x];
      rest := rest - {x};
    }
  }

  /** A list without repeats that lists exactly the elements of a set has that set's multiset. */
  lemma {:induction false} DistinctMultiset<T>(xs: seq<T>, s: set<T>)
    requires Distinct(xs)
    requires forall x :: x in xs <==> x in s
    ensures multiset(xs) == multiset(s)
    decreases |xs|
  {
    if xs == [] {
      assert s == {};
    } else {
      var xs0, x := xs[..|xs| - 1], xs[|xs| - 1];
      assert xs == xs0 + [x];
      assert x !in xs0;
      DistinctMultiset(xs0, s - {x});
      assert s == (s - {x}) + {x};
    }
  }

  /** `for part in parts: xs.extend(part)`. */
  function Concat<T>(parts: seq<seq<T>>): seq<T> {
    if parts == [] then [] else Concat(parts[..|parts| - 1]) + parts[|parts| - 1]
  }

  /** Extending by two runs of parts one after the other. */
  lemma {:induction false} ConcatAppend<T>(a: seq<seq<T>>, b: seq<seq<T>>)
    ensures Concat(a + b) == Concat(a) + Concat(b)
    decreases |b|
  {
    if b == [] {
      assert a + b == a;
    } else {
      var b0, last := b[..|b| - 1], b[|b| - 1];
      ConcatAppend(a, b0);
      assert (a + b)[..|a + b| - 1] == a + b0;
      calc {
        Concat(a + b);
        Concat(a + b0) + last;
        Concat(a) + Concat(b0) + last;
        Concat(a) + Concat(b);
      }
    }
  }

  // ---------------------------------------------------------------------------
  // One entry per name, keeping the highest score
  // ---------------------------------------------------------------------------

  /**
    * The dictionary the five "deduplicate" loops build: the first entry seen
    * for a name claims its place; a later entry for that name replaces the
    * stored one only when its score is strictly larger.
    */
  function BestByName<T>(xs: seq<T>, name: T -> string, score: T -> real): (d: Dict<string, T>)
    ensures d.Valid()
  {
    if xs == [] then EmptyDict()
    else
      var d0 := BestByName(xs[..|xs| - 1], name, score);
      var x := xs[|xs| - 1];
      if name(x) !in d0.vals || score(x) > score(d0.vals[name(x)]) then d0.Put(name(x), x) else d0
  }

  /**
    * The dictionary has one key per name occurring in the input, and the value
    * stored under a name is an input item of that name whose score no other
    * item of that name exceeds.
    */
  lemma {:induction false} BestByNameKeepsMax<T>(xs: seq<T>, name: T -> string, score: T -> real)
    ensures var d := BestByName(xs, name, score);
      && (forall k :: k in d.vals <==> exists x :: x in xs && name(x) == k)
      && (forall k :: k in d.vals ==> d.vals[k] in xs && name(d.vals[k]) == k)
      && (forall x :: x in xs ==> score(x) <= score(d.vals[name(x)]))
  {
    BestKeys(xs, name, score);
    BestItems(xs, name, score);
    BestMax(xs, name, score);
  }

  /** An element of a non-empty list is in its front or is its last element. */
  lemma InSnoc<T>(xs: seq<T>)
    requires xs != []
    ensures forall y :: y in xs <==> y in xs[..|xs| - 1] || y == xs[|xs| - 1]
  {
    assert xs == xs[..|xs| - 1] + [xs[|xs| - 1]];
  }

  lemma {:induction false} BestKeys<T>(xs: seq<T>, name: T -> string, score: T -> real)
    ensures forall k :: k in BestByName(xs, name, score).vals <==> exists x :: x in xs && name(x) == k
  {
    if xs != [] {
      var xs0, x := xs[..|xs| - 1], xs[|xs| - 1];
      BestKeys(xs0, name, score);
      InSnoc(xs);
      var d0, d := BestByName(xs0, name, score), BestByName(xs, name, score);
      assert d.vals.Keys == d0.vals.Keys + {name(x)};
      forall k
        ensures k in d.vals <==> exists y :: y in xs && name(y) == k
      {
        if k in d0.vals {
          var y :| y in xs0 && name(y) == k;
          assert y in xs;
        } else if k != name(x) {
          assert forall y | y in xs :: name(y) != k;
        } else {
          assert x in xs;
        }
      }
    }
  }

  lemma {:induction false} BestItems<T>(xs: seq<T>, name: T -> string, score: T -> real)
    ensures forall k :: k in BestByName(xs, name, score).vals ==>
      BestByName(xs, name, score).vals[k] in xs && name(BestByName(xs, name, score).vals[k]) == k
  {
    if xs != [] {
      var xs0, x := xs[..|xs| - 1], xs[|xs| - 1];
      BestItems(xs0, name, score);
      InSnoc(xs);
      var d0, d := BestByName(xs0, name, score), BestByName(xs, name, score);
      forall k | k in d.vals
        ensures d.vals[k] in xs && name(d.vals[k]) == k
      {
        if d.vals[k] != x {
          assert k in d0.vals && d.vals[k] == d0.vals[k];
        }
      }
    }
  }

  lemma {:induction false} BestMax<T>(xs: seq<T>, name: T -> string, score: T -> real)
    ensures forall x :: x in xs ==>
      name(x) in BestByName(xs, name, score).vals && score(x) <= score(BestByName(xs, name, score).vals[name(x)])
  {
    if xs != [] {
      var xs0, x := xs[..|xs| - 1], xs[|xs| - 1];
      BestMax(xs0, name, score);
      InSnoc(xs);
      var d0, d := BestByName(xs0, name, score), BestByName(xs, name, score);
      forall y | y in xs
        ensures name(y) in d.vals && score(y) <= score(d.vals[name(y)])
      {
        if y in xs0 {
          assert name(y) in d0.vals && score(y) <= score(d0.vals[name(y)]);
        }
      }
    }
  }

  /** The deduplicated items in first-seen order, as `list(d.values())`. */
  function BestValues<T>(xs: seq<T>, name: T -> string, score: T -> real): seq<T> {
    var d := BestByName(xs, name, score);
    d.Values()
  }

  /** The deduplicated list carries each name once. */
  lemma BestValuesDistinctNames<T>(xs: seq<T>, name: T -> string, score: T -> real)
    ensures var vs := BestValues(xs, name, score);
      forall i, j :: 0 <= i < j < |vs| ==> name(vs[i]) != name(vs[j])
  {
    var d := BestByName(xs, name, score);
    BestByNameKeepsMax(xs, name, score);
  }

  /**
    * `_merge_recommendations` and the dedupe blocks: deduplicate by name with
    * the maximum kept, sort by score descending, and slice.
    */
  function MergeBest<T>(xs: seq<T>, name: T -> string, score: T -> real, limit: int): seq<T> {
    Take(SortDesc(BestValues(xs, name, score), score), limit)
  }

  /**
    * The dictionary loop itself: `if name not in d: d[name] = x` and otherwise
    * `if score(x) > score(d[name]): d[name] = x`, then `list(d.values())`.
    */
  method KeepBest<T>(xs: seq<T>, name: T -> string, score: T -> real) returns (vs: seq<T>)
    ensures vs == BestValues(xs, name, score)
  {
    var d: Dict<string, T> := EmptyDict();
    for i := 0 to |xs|
      invariant d == BestByName(xs[..i], name, score)
    {
      assert xs[..i + 1][..i] == xs[..i];
      var x := xs[i];
      if name(x) !in d.vals {
        d := d.Put(name(x), x);
      } else if score(x) > score(d.vals[name(x)]) {
        d := d.Put(name(x), x);
      }
    }
    assert xs[..|xs|] == xs;
    vs := d.Values();
  }

  /** Whether two positions of a list never share a name. */
  predicate UniqueNames<T>(r: seq<T>, name: T -> string) {
    forall i, j :: 0 <= i < j < |r| ==> name(r[i]) != name(r[j])
  }

  /** Merging nothing gives nothing. */
  lemma MergeBestEmpty<T>(name: T -> string, score: T -> real, limit: int)
    ensures MergeBest([], name, score, limit) == []
  {
    assert BestValues([], name, score) == [];
  }

  /**
    * What the merge promises: at most one result per name, each result an input
    * item whose score is the largest among the inputs of its name, sorted
    * descending, and as many results as distinct names allow under the slice.
    */
  lemma {:induction false} MergeBestSpec<T>(xs: seq<T>, name: T -> string, score: T -> real, limit: int)
    ensures var r := MergeBest(xs, name, score, limit);
      && UniqueNames(r, name)
      && (forall y :: y in r ==> y in xs && forall x :: x in xs && name(x) == name(y) ==> score(x) <= score(y))
      && SortedDesc(r, score)
      && |r| == TakeLen(|BestByName(xs, name, score).keys|, limit)
      && IsTopK(r, multiset(BestValues(xs, name, score)), score, limit)
  {
    TopKOfSorted(BestValues(xs, name, score), score, limit);
    MergeBestNames(xs, name, score, limit);
    MergeBestMembers(xs, name, score, limit);
  }

  /** Every item kept by the merge is one of the deduplicated items. */
  lemma MergeBestFromValues<T>(xs: seq<T>, name: T -> string, score: T -> real, limit: int)
    ensures forall y :: y in MergeBest(xs, name, score, limit) ==> y in BestValues(xs, name, score)
  {
    var vs := BestValues(xs, name, score);
    var s := SortDesc(vs, score);
    TopKOfSorted(vs, score, limit);
    forall y | y in Take(s, limit)
      ensures y in vs
    {
      assert y in multiset(s);
    }
  }

  lemma MergeBestNames<T>(xs: seq<T>, name: T -> string, score: T -> real, limit: int)
    ensures UniqueNames(MergeBest(xs, name, score, limit), name)
  {
    var vs := BestValues(xs, name, score);
    BestValuesDistinctNames(xs, name, score);
    var s := SortDesc(vs, score);
    TopKOfSorted(vs, score, limit);
    var r := Take(s, limit);
    forall i, j | 0 <= i < j < |r|
      ensures name(r[i]) != name(r[j])
    {
      NoNameTwice(vs, s, name, i, j);
    }
  }

  lemma MergeBestMembers<T>(xs: seq<T>, name: T -> string, score: T -> real, limit: int)
    ensures forall y :: y in MergeBest(xs, name, score, limit) ==>
      y in xs && forall x :: x in xs && name(x) == name(y) ==> score(x) <= score(y)
  {
    var d := BestByName(xs, name, score);
    var vs := BestValues(xs, name, score);
    BestByNameKeepsMax(xs, name, score);
    MergeBestFromValues(xs, name, score, limit);
    forall y | y in MergeBest(xs, name, score, limit)
      ensures y in xs && forall x :: x in xs && name(x) == name(y) ==> score(x) <= score(y)
    {
      var i :| 0 <= i < |vs| && vs[i] == y;
      assert y == d.vals[d.keys[i]];
    }
  }

  /** Reordering a list whose names are unique keeps them unique. */
  lemma PermutedUniqueNames<T>(vs: seq<T>, s: seq<T>, name: T -> string)
    requires multiset(s) == multiset(vs)
    requires UniqueNames(vs, name)
    ensures UniqueNames(s, name)
  {
    forall i, j | 0 <= i < j < |s|
      ensures name(s[i]) != name(s[j])
    {
      NoNameTwice(vs, s, name, i, j);
    }
  }

  /** A permutation of a list with unique names has unique names. */
  lemma NoNameTwice<T>(vs: seq<T>, s: seq<T>, name: T -> string, i: int, j: int)
    requires multiset(s) == multiset(vs)
    requires UniqueNames(vs, name)
    requires 0 <= i < j < |s|
    ensures name(s[i]) != name(s[j])
  {
    if name(s[i]) == name(s[j]) {
      assert s[i] in multiset(vs) && s[j] in multiset(vs);
      var a :| 0 <= a < |vs| && vs[a] == s[i];
      var b :| 0 <= b < |vs| && vs[b] == s[j];
      assert a == b;
      assert s[i] == s[j];
      var m := multiset(s);
      assert s == s[..i] + [s[i]] + s[i + 1..j] + [s[j]] + s[j + 1..];
      assert m[s[i]] >= 2;
      UniqueMultiplicity(vs, name, a);
      assert false;
    }
  }

  /** In a list with unique names every item occurs once. */
  lemma UniqueMultiplicity<T>(vs: seq<T>, name: T -> string, a: int)
    requires UniqueNames(vs, name)
    requires 0 <= a < |vs|
    ensures multiset(vs)[vs[a]] == 1
  {
    var x := vs[a];
    forall k | 0 <= k < |vs| && k != a
      ensures vs[k] != x
    {
      if k < a {
        assert name(vs[k]) != name(vs[a]);
      } else {
        assert name(vs[a]) != name(vs[k]);
      }
    }
    assert vs == vs[..a] + [x] + vs[a + 1..];
    assert x !in vs[..a];
    assert x !in vs[a + 1..];
  }

  // ---------------------------------------------------------------------------
  // Jaccard ratio of two sets
  // ---------------------------------------------------------------------------

  /** `len(a & b) / len(a | b) if len(a | b) > 0 else 0.0`. */
  function Jaccard<T>(a: set<T>, b: set<T>): real {
    if |a + b| > 0 then (|a * b| as real) / (|a + b| as real) else 0.0
  }

  lemma SubsetCard<T>(a: set<T>, b: set<T>)
    requires a <= b
    ensures |a| <= |b|
  {
    assert b == a + (b - a);
  }

  /** A ratio of two counts, the first no larger than the second, is a fraction in [0, 1]. */
  lemma RatioBounds(p: nat, q: nat)
    requires 0 < q && p <= q
    ensures 0.0 <= (p as real) / (q as real) <= 1.0
    ensures (p as real) / (q as real) == 1.0 <==> p == q
  {
    var r := (p as real) / (q as real);
    assert r * (q as real) == p as real;
    if r == 1.0 {
      assert p as real == q as real;
    }
  }

  /** The ratio is a fraction in [0, 1], symmetric, and 0 when either set is empty. */
  lemma JaccardBounds<T>(a: set<T>, b: set<T>)
    ensures 0.0 <= Jaccard(a, b) <= 1.0
    ensures Jaccard(a, b) == Jaccard(b, a)
    ensures a == {} || b == {} ==> Jaccard(a, b) == 0.0
  {
    SubsetCard(a * b, a + b);
    assert a * b == b * a && a + b == b + a;
    if |a + b| > 0 {
      RatioBounds(|a * b|, |a + b|);
    }
  }

  /** The ratio is 1 exactly when the two sets are equal and non-empty. */
  lemma JaccardOne<T>(a: set<T>, b: set<T>)
    ensures Jaccard(a, b) == 1.0 <==> a == b && a != {}
  {
    SubsetCard(a * b, a + b);
    if |a + b| > 0 {
      RatioBounds(|a * b|, |a + b|);
    }
    if a == b {
      assert a * b == a + b;
    } else {
      var x :| x in (a + b) && x !in (a * b);
      SubsetCard(a * b, (a + b) - {x});
      assert |a * b| < |a + b|;
    }
  }
}
