/**
  * Walks through the recipe graph, in either direction along its edges (the
  * neighbour relation of `get_neighbors` without a type filter), and the
  * facts the breadth-first search of `_find_shortest_path` keeps while it
  * runs, from which it follows that the walk it returns is a shortest one.
  */
module Paths {
  import opened Wrappers
  import opened GraphModels

  /** `p` is a walk: each node after the first is a neighbour of the one before it. */
  predicate Walk(g: GraphState, p: seq<Node>)
    requires Shaped(g)
  {
    |p| > 0 && forall i | 0 <= i < |p| - 1 :: p[i + 1] in Neighbors(g, p[i].id, None)
  }

  /** `p` is a walk from the node with id `s` to a node with id `t`. */
  predicate PathTo(g: GraphState, s: string, t: string, p: seq<Node>)
    requires Shaped(g)
  {
    Walk(g, p) && p[0].id == s && p[|p| - 1].id == t
  }

  /** No walk of at most `maxDepth` hops leads from `s` to `t`. */
  ghost predicate Unreached(g: GraphState, s: string, t: string, maxDepth: int)
    requires Shaped(g)
  {
    forall p | PathTo(g, s, t, p) :: |p| - 1 > maxDepth
  }

  /** No node id occurs twice on `p`. */
  predicate DistinctIds(p: seq<Node>) {
    forall i, j | 0 <= i < j < |p| :: p[i].id != p[j].id
  }

  /** Dropping the last node of a walk leaves a walk. */
  lemma WalkPrefix(g: GraphState, p: seq<Node>)
    requires Shaped(g) && Walk(g, p) && |p| > 1
    ensures Walk(g, p[..|p| - 1])
  {
    var q := p[..|p| - 1];
    forall i | 0 <= i < |q| - 1
      ensures q[i + 1] in Neighbors(g, q[i].id, None)
    {
      assert q[i + 1] == p[i + 1] && q[i] == p[i];
    }
  }

  /** A walk followed by a neighbour of its last node is a walk. */
  lemma WalkExtends(g: GraphState, p: seq<Node>, n: Node)
    requires Shaped(g) && Walk(g, p) && n in Neighbors(g, p[|p| - 1].id, None)
    ensures Walk(g, p + [n])
  {
    var q := p + [n];
    forall i | 0 <= i < |q| - 1
      ensures q[i + 1] in Neighbors(g, q[i].id, None)
    {
      if i < |p| - 1 {
        assert q[i + 1] == p[i + 1] && q[i] == p[i];
      }
    }
  }

  // ---------------------------------------------------------------------------
  // What the breadth-first search keeps
  // ---------------------------------------------------------------------------
  //
  // The search keeps the ids it has visited, each with the hop count `H` of the
  // path it was queued with, and the ids `P` it has taken off the queue.

  /** A queue entry: a node and a walk from `start` ending at it, with no id twice and every id visited. */
  ghost predicate Entry(g: GraphState, start: Node, H: map<string, nat>, e: (Node, seq<Node>))
    requires Shaped(g)
  {
    && Walk(g, e.1) && e.1[0] == start && e.1[|e.1| - 1] == e.0
    && DistinctIds(e.1)
    && (forall j | 0 <= j < |e.1| :: e.1[j].id in H)
    && H[e.0.id] == |e.1| - 1
  }

  /** Every entry is sound, the walks are queued shortest first, and their hop counts lie in `[lo, lo + 1]`. */
  ghost predicate Queued(g: GraphState, start: Node, H: map<string, nat>, queue: seq<(Node, seq<Node>)>, lo: int)
    requires Shaped(g)
  {
    && (forall i | 0 <= i < |queue| :: Entry(g, start, H, queue[i]) && lo <= |queue[i].1| - 1 <= lo + 1)
    && (forall i, j | 0 <= i < j < |queue| :: |queue[i].1| <= |queue[j].1|)
  }

  /** Every visited id not yet taken off the queue, other than those of `except`, is still queued. */
  ghost predicate Pending(H: map<string, nat>, P: set<string>, queue: seq<(Node, seq<Node>)>, except: set<string>) {
    forall v | v in H && v !in P && v !in except :: exists i | 0 <= i < |queue| :: queue[i].0.id == v
  }

  /** Every id taken off the queue within the depth limit has all its neighbours visited, at most one hop further. */
  ghost predicate Closed(g: GraphState, P: set<string>, H: map<string, nat>, maxDepth: int)
    requires Shaped(g)
  {
    forall u {:trigger Neighbors(g, u, None)} | u in P && u in H && H[u] < maxDepth ::
      forall n | n in Neighbors(g, u, None) :: n.id in H && H[n.id] <= H[u] + 1
  }

  /**
    * Once every id visited at fewer than `h` hops has been taken off the queue,
    * the end of every walk from `s` of at most `h` hops has been visited, at no
    * more hops than the walk has.
    */
  lemma {:induction false} WalkVisited(g: GraphState, s: string, H: map<string, nat>, P: set<string>, maxDepth: int, h: int, p: seq<Node>)
    requires Shaped(g)
    requires s in H && H[s] == 0
    requires Closed(g, P, H, maxDepth)
    requires forall v | v in H && H[v] < h :: v in P
    requires h <= maxDepth
    requires Walk(g, p) && p[0].id == s && |p| - 1 <= h
    ensures p[|p| - 1].id in H && H[p[|p| - 1].id] <= |p| - 1
  {
    if |p| > 1 {
      var q := p[..|p| - 1];
      WalkPrefix(g, p);
      WalkVisited(g, s, H, P, maxDepth, h, q);
      var u := q[|q| - 1].id;
      assert u in P;
      assert p[|p| - 1] in Neighbors(g, u, None);
      ClosedAt(g, P, H, maxDepth, u, p[|p| - 1]);
    }
  }

  /** Under the same conditions, an id never visited is at the end of no walk from `s` of at most `h` hops. */
  lemma NoShortPath(g: GraphState, s: string, t: string, H: map<string, nat>, P: set<string>, maxDepth: int, h: int)
    requires Shaped(g)
    requires s in H && H[s] == 0
    requires Closed(g, P, H, maxDepth)
    requires forall v | v in H && H[v] < h :: v in P
    requires h <= maxDepth && t !in H
    ensures forall p | PathTo(g, s, t, p) :: |p| - 1 > h
  {
    forall p | PathTo(g, s, t, p)
      ensures |p| - 1 > h
    {
      if |p| - 1 <= h {
        WalkVisited(g, s, H, P, maxDepth, h, p);
      }
    }
  }

  lemma ClosedAt(g: GraphState, P: set<string>, H: map<string, nat>, maxDepth: int, u: string, n: Node)
    requires Shaped(g) && Closed(g, P, H, maxDepth)
    requires u in P && u in H && H[u] < maxDepth && n in Neighbors(g, u, None)
    ensures n.id in H && H[n.id] <= H[u] + 1
  {
  }

  /** Adding `u`, queued at `maxDepth` hops or more, to the ids taken off the queue keeps them closed. */
  lemma ClosedSkip(g: GraphState, P: set<string>, H: map<string, nat>, maxDepth: int, u: string)
    requires Shaped(g) && Closed(g, P, H, maxDepth)
    requires u in H && H[u] >= maxDepth
    ensures Closed(g, P + {u}, H, maxDepth)
  {
  }

  /** Visiting more ids, without changing the hop counts already recorded, keeps the taken ids closed. */
  lemma ClosedGrows(g: GraphState, P: set<string>, H0: map<string, nat>, H: map<string, nat>, maxDepth: int)
    requires Shaped(g) && Closed(g, P, H0, maxDepth) && P <= H0.Keys
    requires forall v | v in H0 :: v in H && H[v] == H0[v]
    ensures Closed(g, P, H, maxDepth)
  {
    forall u | u in P && u in H && H[u] < maxDepth
      ensures forall n | n in Neighbors(g, u, None) :: n.id in H && H[n.id] <= H[u] + 1
    {
      if u in H0 {
        forall n | n in Neighbors(g, u, None)
          ensures n.id in H && H[n.id] <= H[u] + 1
        {
          assert n.id in H0;
        }
      }
    }
  }

  /** Adding `u`, whose neighbours are all visited at most one hop further, to the ids taken off the queue keeps them closed. */
  lemma ClosedAdd(g: GraphState, P: set<string>, H: map<string, nat>, maxDepth: int, u: string)
    requires Shaped(g) && Closed(g, P, H, maxDepth)
    requires u in H && forall n | n in Neighbors(g, u, None) :: n.id in H && H[n.id] <= H[u] + 1
    ensures Closed(g, P + {u}, H, maxDepth)
  {
  }

  // ---------------------------------------------------------------------------
  // The queue
  // ---------------------------------------------------------------------------

  /** Taking the first entry off the queue leaves a queue whose hop counts lie in `[h, h + 1]`, `h` being the first entry's. */
  lemma QueuedPop(g: GraphState, start: Node, H: map<string, nat>, queue: seq<(Node, seq<Node>)>, lo: int)
    requires Shaped(g) && Queued(g, start, H, queue, lo) && queue != []
    ensures Queued(g, start, H, queue[1..], |queue[0].1| - 1)
  {
    var q := queue[1..];
    forall i | 0 <= i < |q|
      ensures Entry(g, start, H, q[i]) && |queue[0].1| - 1 <= |q[i].1| - 1 <= |queue[0].1|
    {
      assert q[i] == queue[i + 1];
    }
    forall i, j | 0 <= i < j < |q|
      ensures |q[i].1| <= |q[j].1|
    {
      assert q[i] == queue[i + 1] && q[j] == queue[j + 1];
    }
  }

  /** Recording more visited ids, without changing the hop counts already recorded, keeps the queue sound. */
  lemma QueuedGrows(g: GraphState, start: Node, H0: map<string, nat>, H: map<string, nat>, queue: seq<(Node, seq<Node>)>, lo: int)
    requires Shaped(g) && Queued(g, start, H0, queue, lo)
    requires forall v | v in H0 :: v in H && H[v] == H0[v]
    ensures Queued(g, start, H, queue, lo)
  {
    forall i | 0 <= i < |queue|
      ensures Entry(g, start, H, queue[i])
    {
      var e := queue[i];
      assert Entry(g, start, H0, e);
      forall j | 0 <= j < |e.1|
        ensures e.1[j].id in H
      {
        assert e.1[j].id in H0;
      }
      assert e.1[|e.1| - 1].id in H0;
    }
  }

  /** A walk one hop longer than every queued one goes at the back of the queue. */
  lemma QueuedSnoc(g: GraphState, start: Node, H: map<string, nat>, queue: seq<(Node, seq<Node>)>, lo: int, e: (Node, seq<Node>))
    requires Shaped(g) && Queued(g, start, H, queue, lo)
    requires Entry(g, start, H, e) && |e.1| - 1 == lo + 1
    ensures Queued(g, start, H, queue + [e], lo)
  {
    var q := queue + [e];
    forall i | 0 <= i < |q|
      ensures Entry(g, start, H, q[i]) && lo <= |q[i].1| - 1 <= lo + 1
    {
      if i < |queue| {
        assert q[i] == queue[i];
      }
    }
    forall i, j | 0 <= i < j < |q|
      ensures |q[i].1| <= |q[j].1|
    {
      assert q[i] == queue[i];
      if j < |queue| {
        assert q[j] == queue[j];
      }
    }
  }

  /** A queued walk extended by an unvisited neighbour of its end is a queue entry once that neighbour is visited. */
  lemma EntryExtends(g: GraphState, start: Node, H: map<string, nat>, path: seq<Node>, n: Node)
    requires Shaped(g) && Walk(g, path) && path[0] == start && DistinctIds(path)
    requires forall j | 0 <= j < |path| :: path[j].id in H
    requires n in Neighbors(g, path[|path| - 1].id, None) && n.id !in H
    ensures Entry(g, start, H[n.id := |path|], (n, path + [n]))
  {
    WalkExtends(g, path, n);
    DistinctSnoc(H, path, n);
  }

  /** Adding a node whose id is not among the (recorded) ids of `path` keeps the ids distinct. */
  lemma DistinctSnoc(H: map<string, nat>, path: seq<Node>, n: Node)
    requires DistinctIds(path) && n.id !in H
    requires forall j | 0 <= j < |path| :: path[j].id in H
    ensures DistinctIds(path + [n])
  {
    var q := path + [n];
    forall i, j | 0 <= i < j < |q|
      ensures q[i].id != q[j].id
    {
      assert q[i] == path[i];
    }
  }

  /** When the first queued walk has `h` hops, every id visited at fewer hops has been taken off the queue. */
  lemma TakenBelow(g: GraphState, start: Node, H: map<string, nat>, P: set<string>, queue: seq<(Node, seq<Node>)>, lo: int)
    requires Shaped(g) && Queued(g, start, H, queue, lo) && queue != []
    requires Pending(H, P, queue, {})
    ensures forall v | v in H && H[v] < |queue[0].1| - 1 :: v in P
  {
    forall v | v in H && v !in P
      ensures H[v] >= |queue[0].1| - 1
    {
      var i :| 0 <= i < |queue| && queue[i].0.id == v;
      assert Entry(g, start, H, queue[i]);
      if i > 0 {
        assert |queue[0].1| <= |queue[i].1|;
      }
    }
  }

  /** Taking the first entry off the queue leaves every other pending id queued. */
  lemma PendingPop(H: map<string, nat>, P: set<string>, queue: seq<(Node, seq<Node>)>)
    requires Pending(H, P, queue, {}) && queue != []
    ensures Pending(H, P, queue[1..], {queue[0].0.id})
  {
    forall v | v in H && v !in P && v !in {queue[0].0.id}
      ensures exists i | 0 <= i < |queue[1..]| :: queue[1..][i].0.id == v
    {
      var i :| 0 <= i < |queue| && queue[i].0.id == v;
      assert queue[1..][i - 1] == queue[i];
    }
  }

  /** Queuing a newly visited node keeps every pending id queued. */
  lemma PendingSnoc(H: map<string, nat>, P: set<string>, queue: seq<(Node, seq<Node>)>, except: set<string>, e: (Node, seq<Node>), d: nat)
    requires Pending(H, P, queue, except)
    ensures Pending(H[e.0.id := d], P, queue + [e], except)
  {
    var q := queue + [e];
    forall v | v in H[e.0.id := d] && v !in P && v !in except
      ensures exists i | 0 <= i < |q| :: q[i].0.id == v
    {
      if v == e.0.id {
        assert q[|queue|] == e;
      } else {
        var i :| 0 <= i < |queue| && queue[i].0.id == v;
        assert q[i] == queue[i];
      }
    }
  }

  /** The first queue: the walk of `start` alone. */
  lemma QueuedStart(g: GraphState, start: Node)
    requires Shaped(g)
    ensures Queued(g, start, map[start.id := 0], [(start, [start])], 0)
  {
    assert Entry(g, start, map[start.id := 0], (start, [start]));
  }

  /**
    * What the search keeps between two turns of its loop: the visited ids are
    * those with a recorded hop count, among `all`; `start` is visited at no
    * hops and `end` is not visited; the queue is sound with hop counts in
    * `[lo, lo + 1]`, no visited id is further; every visited id is taken or
    * queued; and the taken ids are closed.
    */
  ghost predicate Searching(g: GraphState, start: Node, end: Node, maxDepth: int, all: set<string>, queue: seq<(Node, seq<Node>)>, visited: set<string>, H: map<string, nat>, P: set<string>, lo: int)
    requires Shaped(g)
  {
    && visited == H.Keys && visited <= all && P <= visited
    && start.id in H && H[start.id] == 0 && end.id !in H
    && Queued(g, start, H, queue, lo)
    && (forall v | v in H :: H[v] <= lo + 1)
    && Pending(H, P, queue, {})
    && Closed(g, P, H, maxDepth)
  }

  /**
    * `p` is what the search may return for `start` and `end`: a walk between
    * them with no id twice, of at most `maxDepth` hops unless the two ids are
    * the same, and no longer than any other walk between them.
    */
  ghost predicate ShortestPath(g: GraphState, start: Node, end: Node, maxDepth: int, p: seq<Node>)
    requires Shaped(g)
  {
    && PathTo(g, start.id, end.id, p) && p[0] == start && DistinctIds(p)
    && (start.id != end.id ==> |p| - 1 <= maxDepth)
    && forall q | PathTo(g, start.id, end.id, q) :: |p| <= |q|
  }

  // ---------------------------------------------------------------------------
  // One turn of the search
  // ---------------------------------------------------------------------------

  /** The search at its start: only `start` visited, and its walk queued. */
  lemma SearchStart(g: GraphState, start: Node, end: Node, maxDepth: int, all: set<string>)
    requires Shaped(g) && start.id != end.id && start.id in all
    ensures Searching(g, start, end, maxDepth, all, [(start, [start])], {start.id}, map[start.id := 0], {}, 0)
  {
    QueuedStart(g, start);
    assert [(start, [start])][0].0.id == start.id;
  }

  /**
    * What holds when the walk `path` has just been taken off the queue and is
    * short enough to expand; `queue` is the rest of the queue.
    */
  ghost predicate Popped(g: GraphState, start: Node, end: Node, maxDepth: int, all: set<string>, path: seq<Node>, queue: seq<(Node, seq<Node>)>, visited: set<string>, H: map<string, nat>, P: set<string>)
    requires Shaped(g)
  {
    && 0 < |path| <= maxDepth && Entry(g, start, H, (path[|path| - 1], path))
    && visited == H.Keys && visited <= all && P <= visited
    && start.id in H && H[start.id] == 0 && end.id !in H
    && Queued(g, start, H, queue, |path| - 1)
    && (forall v | v in H :: H[v] <= |path|)
    && (forall v | v in H && H[v] < |path| - 1 :: v in P)
    && Pending(H, P, queue, {path[|path| - 1].id})
    && Closed(g, P, H, maxDepth)
  }

  /** Taking the first walk off the queue, when it is short enough to expand. */
  lemma PopStep(g: GraphState, start: Node, end: Node, maxDepth: int, all: set<string>, queue: seq<(Node, seq<Node>)>, visited: set<string>, H: map<string, nat>, P: set<string>, lo: int)
    requires Shaped(g) && Searching(g, start, end, maxDepth, all, queue, visited, H, P, lo)
    requires queue != [] && |queue[0].1| <= maxDepth
    ensures Popped(g, start, end, maxDepth, all, queue[0].1, queue[1..], visited, H, P)
  {
    assert Entry(g, start, H, queue[0]);
    TakenBelow(g, start, H, P, queue, lo);
    QueuedPop(g, start, H, queue, lo);
    PendingPop(H, P, queue);
  }

  /** Taking the first walk off the queue when it is too long to expand: its end is taken without visiting anything. */
  lemma SkipStep(g: GraphState, start: Node, end: Node, maxDepth: int, all: set<string>, queue: seq<(Node, seq<Node>)>, visited: set<string>, H: map<string, nat>, P: set<string>, lo: int)
    requires Shaped(g) && Searching(g, start, end, maxDepth, all, queue, visited, H, P, lo)
    requires queue != [] && |queue[0].1| > maxDepth
    ensures Searching(g, start, end, maxDepth, all, queue[1..], visited, H, P + {queue[0].0.id}, |queue[0].1| - 1)
  {
    assert Entry(g, start, H, queue[0]);
    QueuedPop(g, start, H, queue, lo);
    PendingPop(H, P, queue);
    ClosedSkip(g, P, H, maxDepth, queue[0].0.id);
  }

  /** With nothing left on the queue, no walk of at most `maxDepth` hops reaches `end`. */
  lemma Exhausted(g: GraphState, start: Node, end: Node, maxDepth: int, all: set<string>, visited: set<string>, H: map<string, nat>, P: set<string>, lo: int)
    requires Shaped(g) && Searching(g, start, end, maxDepth, all, [], visited, H, P, lo)
    ensures Unreached(g, start.id, end.id, maxDepth)
  {
    if maxDepth >= 0 {
      NoShortPath(g, start.id, end.id, H, P, maxDepth, maxDepth);
    }
  }

  /**
    * What holds while the neighbours `ns` of the end of `path` are visited in
    * turn, before the `j`-th: `H0`, `queue0` and `visited0` are the state when
    * `path` was taken off the queue.
    */
  ghost predicate Expanding(g: GraphState, start: Node, end: Node, all: set<string>, path: seq<Node>, ns: seq<Node>, j: int,
                            H0: map<string, nat>, P: set<string>, queue0: seq<(Node, seq<Node>)>, visited0: set<string>,
                            queue: seq<(Node, seq<Node>)>, visited: set<string>, H: map<string, nat>)
    requires Shaped(g) && 0 <= j <= |ns| && 0 < |path|
  {
    && visited == H.Keys && visited0 <= visited <= all
    && (forall v | v in H0 :: v in H && H[v] == H0[v])
    && end.id !in H
    && Queued(g, start, H, queue, |path| - 1)
    && (forall v | v in H :: H[v] <= |path|)
    && (forall v | v in H && H[v] < |path| - 1 :: v in P)
    && Pending(H, P, queue, {path[|path| - 1].id})
    && (forall k | 0 <= k < j :: ns[k].id in H && H[ns[k].id] <= |path|)
    && (visited == visited0 ==> queue == queue0)
  }

  lemma ExpandStart(g: GraphState, start: Node, end: Node, maxDepth: int, all: set<string>, path: seq<Node>, ns: seq<Node>,
                    queue0: seq<(Node, seq<Node>)>, visited0: set<string>, H0: map<string, nat>, P: set<string>)
    requires Shaped(g) && Popped(g, start, end, maxDepth, all, path, queue0, visited0, H0, P)
    ensures Expanding(g, start, end, all, path, ns, 0, H0, P, queue0, visited0, queue0, visited0, H0)
  {
  }

  /** The neighbour `ns[j]` is not yet visited: it is visited one hop further, and its walk queued. */
  lemma VisitNew(g: GraphState, start: Node, end: Node, all: set<string>, path: seq<Node>, ns: seq<Node>, j: int,
                 H0: map<string, nat>, P: set<string>, queue0: seq<(Node, seq<Node>)>, visited0: set<string>,
                 queue: seq<(Node, seq<Node>)>, visited: set<string>, H: map<string, nat>)
    requires Shaped(g) && g.nodes.vals.Keys <= all
    requires 0 < |path| && Entry(g, start, H0, (path[|path| - 1], path))
    requires ns == Neighbors(g, path[|path| - 1].id, None) && 0 <= j < |ns|
    requires Expanding(g, start, end, all, path, ns, j, H0, P, queue0, visited0, queue, visited, H)
    requires ns[j].id != end.id && ns[j].id !in visited
    ensures Expanding(g, start, end, all, path, ns, j + 1, H0, P, queue0, visited0,
                      queue + [(ns[j], path + [ns[j]])], visited + {ns[j].id}, H[ns[j].id := |path|])
  {
    var n := ns[j];
    var e := (n, path + [n]);
    var H1 := H[n.id := |path|];
    forall k | 0 <= k < |path|
      ensures path[k].id in H
    {
      assert path[k].id in H0;
    }
    QueueNew(g, start, path, n, P, queue, H);
    assert n.id in g.nodes.vals;
    assert visited + {n.id} != visited0 by {
      assert n.id !in visited0;
    }
    forall v | v in H0
      ensures v in H1 && H1[v] == H0[v]
    {
      assert v in H;
    }
    forall k | 0 <= k < j + 1
      ensures ns[k].id in H1 && H1[ns[k].id] <= |path|
    {
      if k < j {
        assert ns[k].id in H;
      }
    }
  }

  /** Queuing the walk to a newly visited neighbour keeps the queue sound and every pending id queued. */
  lemma QueueNew(g: GraphState, start: Node, path: seq<Node>, n: Node, P: set<string>, queue: seq<(Node, seq<Node>)>, H: map<string, nat>)
    requires Shaped(g) && 0 < |path| && Walk(g, path) && path[0] == start && DistinctIds(path)
    requires forall k | 0 <= k < |path| :: path[k].id in H
    requires n in Neighbors(g, path[|path| - 1].id, None) && n.id !in H
    requires Queued(g, start, H, queue, |path| - 1) && Pending(H, P, queue, {path[|path| - 1].id})
    ensures Queued(g, start, H[n.id := |path|], queue + [(n, path + [n])], |path| - 1)
    ensures Pending(H[n.id := |path|], P, queue + [(n, path + [n])], {path[|path| - 1].id})
  {
    var e := (n, path + [n]);
    var H1 := H[n.id := |path|];
    EntryExtends(g, start, H, path, n);
    QueuedGrows(g, start, H, H1, queue, |path| - 1);
    QueuedSnoc(g, start, H1, queue, |path| - 1, e);
    PendingSnoc(H, P, queue, {path[|path| - 1].id}, e, |path|);
  }

  /** The neighbour `ns[j]` is already visited: nothing changes. */
  lemma VisitKnown(g: GraphState, start: Node, end: Node, all: set<string>, path: seq<Node>, ns: seq<Node>, j: int,
                   H0: map<string, nat>, P: set<string>, queue0: seq<(Node, seq<Node>)>, visited0: set<string>,
                   queue: seq<(Node, seq<Node>)>, visited: set<string>, H: map<string, nat>)
    requires Shaped(g) && 0 <= j < |ns| && 0 < |path|
    requires Expanding(g, start, end, all, path, ns, j, H0, P, queue0, visited0, queue, visited, H)
    requires ns[j].id in visited
    ensures Expanding(g, start, end, all, path, ns, j + 1, H0, P, queue0, visited0, queue, visited, H)
  {
  }

  /** The neighbour `ns[j]` is `end`: the walk to it is a shortest one. */
  lemma VisitEnd(g: GraphState, start: Node, end: Node, maxDepth: int, all: set<string>, path: seq<Node>, ns: seq<Node>, j: int,
                 H0: map<string, nat>, P: set<string>, queue0: seq<(Node, seq<Node>)>, visited0: set<string>,
                 queue: seq<(Node, seq<Node>)>, visited: set<string>, H: map<string, nat>)
    requires Shaped(g)
    requires Popped(g, start, end, maxDepth, all, path, queue0, visited0, H0, P)
    requires ns == Neighbors(g, path[|path| - 1].id, None) && 0 <= j < |ns|
    requires Expanding(g, start, end, all, path, ns, j, H0, P, queue0, visited0, queue, visited, H)
    requires ns[j].id == end.id
    ensures ShortestPath(g, start, end, maxDepth, path + [ns[j]])
  {
    var n := ns[j];
    assert Entry(g, start, H0, (path[|path| - 1], path));
    forall k | 0 <= k < |path|
      ensures path[k].id in H
    {
      assert path[k].id in H0;
    }
    ClosedGrows(g, P, H0, H, maxDepth);
    NoShortPath(g, start.id, end.id, H, P, maxDepth, |path| - 1);
    WalkExtends(g, path, n);
    DistinctSnoc(H, path, n);
  }

  /** Every neighbour visited: the end of `path` is taken, and the search goes on one level further. */
  lemma ExpandEnd(g: GraphState, start: Node, end: Node, maxDepth: int, all: set<string>, path: seq<Node>, ns: seq<Node>,
                  H0: map<string, nat>, P: set<string>, queue0: seq<(Node, seq<Node>)>, visited0: set<string>,
                  queue: seq<(Node, seq<Node>)>, visited: set<string>, H: map<string, nat>)
    requires Shaped(g)
    requires Popped(g, start, end, maxDepth, all, path, queue0, visited0, H0, P)
    requires ns == Neighbors(g, path[|path| - 1].id, None)
    requires Expanding(g, start, end, all, path, ns, |ns|, H0, P, queue0, visited0, queue, visited, H)
    ensures Searching(g, start, end, maxDepth, all, queue, visited, H, P + {path[|path| - 1].id}, |path| - 1)
  {
    var u := path[|path| - 1].id;
    assert Entry(g, start, H0, (path[|path| - 1], path));
    ClosedGrows(g, P, H0, H, maxDepth);
    forall n | n in ns
      ensures n.id in H && H[n.id] <= H[u] + 1
    {
      var k :| 0 <= k < |ns| && ns[k] == n;
    }
    ClosedAdd(g, P, H, maxDepth, u);
  }
}
