/**
 * The relaxation phase of ResourceDistribution.distributeResource: a
 * Dijkstra-style loop over a queue of NodeDistance entries that records a
 * distance and a predecessor for each island it reaches.
 *
 * The expansion of one island (the inner loop over its routes) is described
 * in closed form: after it, every route of the island that offered a shorter
 * distance has lowered its destination, and nothing else changed. The outer
 * loop comes twice: as written, where an entry is skipped when its island's
 * recorded distance is at most the entry's, and corrected, where only
 * strictly shorter recorded distances skip it.
 */
module ResourceRelaxation {
  import opened Islands
  import opened Routes
  import opened Predecessors
  import opened NodeDistances

  /** The recorded distances, predecessors and queue of the relaxation. */
  datatype Frontier = Frontier(dist: map<Name, nat>, prev: map<Name, Name>, queue: multiset<NodeDistance>)

  /** `candidate < distances.getOrDefault(v, POSITIVE_INFINITY)` */
  predicate Lowers(dist: map<Name, nat>, v: Name, candidate: int) {
    v !in dist || candidate < dist[v]
  }

  /** The routes of `u` among `done` whose destination the distance `du` of `u` lowers. */
  ghost function Lowered(sea: Sea, u: Name, du: nat, dist: map<Name, nat>, done: set<Name>): set<Name>
    requires u in sea.islands
  {
    set v | v in done && v in sea.islands[u].routes && Lowers(dist, v, du + sea.islands[u].routes[v])
  }

  /** The distances after the routes of `u` in `done` were expanded from `dist`. */
  ghost function ExpandedDist(sea: Sea, u: Name, du: nat, dist: map<Name, nat>, done: set<Name>): map<Name, nat>
    requires u in sea.islands && IslandFits(sea, u)
  {
    var low := Lowered(sea, u, du, dist, done);
    map x | x in dist.Keys + low :: if x in low then du + sea.islands[u].routes[x] else dist[x]
  }

  /**
   * Expansion only lowers: it keeps every distance it does not lower, adds
   * the routes it expanded, and leaves each expanded route no shorter a way
   * to its destination than the one recorded.
   */
  lemma ExpandedDistFacts(sea: Sea, u: Name, du: nat, dist: map<Name, nat>, done: set<Name>)
    requires u in sea.islands && IslandFits(sea, u)
    ensures var r := ExpandedDist(sea, u, du, dist, done);
      && r.Keys == dist.Keys + (done * sea.islands[u].routes.Keys)
      && (forall x :: x in dist ==> r[x] <= dist[x])
      && (forall v :: v in done && v in sea.islands[u].routes ==> r[v] <= du + sea.islands[u].routes[v])
      && (forall x :: x in r ==> (x in dist && r[x] == dist[x]) || (x in sea.islands[u].routes && r[x] == du + sea.islands[u].routes[x]))
  {
  }

  /** Expansion never lowers `u` itself: travel times are not negative. */
  lemma ExpandedKeepsOrigin(sea: Sea, u: Name, du: nat, dist: map<Name, nat>, done: set<Name>)
    requires u in sea.islands && IslandFits(sea, u)
    requires u in dist && dist[u] == du
    ensures u in ExpandedDist(sea, u, du, dist, done) && ExpandedDist(sea, u, du, dist, done)[u] == du
  {
    assert u !in Lowered(sea, u, du, dist, done);
  }

  /** The predecessors after the routes of `u` in `done` were expanded. */
  ghost function ExpandedPrev(sea: Sea, u: Name, du: nat, dist: map<Name, nat>, prev: map<Name, Name>, done: set<Name>): map<Name, Name>
    requires u in sea.islands
  {
    var low := Lowered(sea, u, du, dist, done);
    map x | x in prev.Keys + low :: if x in low then u else prev[x]
  }

  /** The entry queued for a route of `u` that lowered its destination `v`. */
  function Offered(sea: Sea, u: Name, du: nat, v: Name): NodeDistance
    requires SoundRoute(sea, u, v)
  {
    NodeDistance(v, du + Weight(sea, u, v), Weight(sea, u, v))
  }

  /** `e` is the entry queued for a route of `u` among `done` that lowered its destination. */
  ghost predicate PushedFor(sea: Sea, u: Name, du: nat, dist: map<Name, nat>, done: set<Name>, e: NodeDistance)
    requires u in sea.islands && IslandFits(sea, u)
  {
    e.islandName in Lowered(sea, u, du, dist, done) && e == Offered(sea, u, du, e.islandName)
  }

  /**
   * The queue after the routes of `u` in `done` were expanded from `queue`:
   * it keeps every old entry and gains one entry for each lowered route.
   */
  ghost predicate ExpandedQueue(sea: Sea, u: Name, du: nat, dist: map<Name, nat>, done: set<Name>, queue: multiset<NodeDistance>, r: multiset<NodeDistance>)
    requires u in sea.islands && IslandFits(sea, u)
  {
    forall e :: r[e] == queue[e] + if PushedFor(sea, u, du, dist, done, e) then 1 else 0
  }

  /** Before any route is expanded nothing has changed. */
  lemma ExpandNothing(sea: Sea, u: Name, du: nat, dist: map<Name, nat>, prev: map<Name, Name>)
    requires u in sea.islands && IslandFits(sea, u)
    ensures ExpandedDist(sea, u, du, dist, {}) == dist
    ensures ExpandedPrev(sea, u, du, dist, prev, {}) == prev
  {
    assert Lowered(sea, u, du, dist, {}) == {};
  }

  lemma QueueNothing(sea: Sea, u: Name, du: nat, dist: map<Name, nat>, queue: multiset<NodeDistance>)
    requires u in sea.islands && IslandFits(sea, u)
    ensures ExpandedQueue(sea, u, du, dist, {}, queue, queue)
  {
    assert Lowered(sea, u, du, dist, {}) == {};
  }

  /** Lowering `v` queues one entry for it. */
  lemma QueueStepLowers(sea: Sea, u: Name, du: nat, dist: map<Name, nat>, done: set<Name>, v: Name, queue: multiset<NodeDistance>, r: multiset<NodeDistance>)
    requires u in sea.islands && IslandFits(sea, u)
    requires v in sea.islands[u].routes && v !in done
    requires Lowers(dist, v, du + sea.islands[u].routes[v])
    requires ExpandedQueue(sea, u, du, dist, done, queue, r)
    ensures ExpandedQueue(sea, u, du, dist, done + {v}, queue, r + multiset{Offered(sea, u, du, v)})
  {
    LoweredStep(sea, u, du, dist, done, v);
  }

  /** A route that does not lower its destination queues nothing. */
  lemma QueueStepKeeps(sea: Sea, u: Name, du: nat, dist: map<Name, nat>, done: set<Name>, v: Name, queue: multiset<NodeDistance>, r: multiset<NodeDistance>)
    requires u in sea.islands && IslandFits(sea, u)
    requires v in sea.islands[u].routes && v !in done
    requires !Lowers(dist, v, du + sea.islands[u].routes[v])
    requires ExpandedQueue(sea, u, du, dist, done, queue, r)
    ensures ExpandedQueue(sea, u, du, dist, done + {v}, queue, r)
  {
    LoweredStep(sea, u, du, dist, done, v);
  }

  /** Expanding one more route `v` of `u`: `v` is lowered exactly when its recorded distance was larger. */
  lemma LoweredStep(sea: Sea, u: Name, du: nat, dist: map<Name, nat>, done: set<Name>, v: Name)
    requires u in sea.islands && IslandFits(sea, u)
    requires v in sea.islands[u].routes && v !in done
    ensures var c := du + sea.islands[u].routes[v];
      && (Lowers(ExpandedDist(sea, u, du, dist, done), v, c) <==> Lowers(dist, v, c))
      && Lowered(sea, u, du, dist, done + {v}) == Lowered(sea, u, du, dist, done) + (if Lowers(dist, v, c) then {v} else {})
  {
  }

  /** Lowering `v` adds one distance to the closed form. */
  lemma DistStepLowers(sea: Sea, u: Name, du: nat, dist: map<Name, nat>, done: set<Name>, v: Name)
    requires u in sea.islands && IslandFits(sea, u)
    requires v in sea.islands[u].routes && v !in done
    requires Lowers(dist, v, du + sea.islands[u].routes[v])
    ensures ExpandedDist(sea, u, du, dist, done + {v}) == ExpandedDist(sea, u, du, dist, done)[v := du + sea.islands[u].routes[v]]
  {
    LoweredStep(sea, u, du, dist, done, v);
  }

  /** Lowering `v` makes `u` its predecessor. */
  lemma PrevStepLowers(sea: Sea, u: Name, du: nat, dist: map<Name, nat>, prev: map<Name, Name>, done: set<Name>, v: Name)
    requires u in sea.islands && IslandFits(sea, u)
    requires v in sea.islands[u].routes && v !in done
    requires Lowers(dist, v, du + sea.islands[u].routes[v])
    ensures ExpandedPrev(sea, u, du, dist, prev, done + {v}) == ExpandedPrev(sea, u, du, dist, prev, done)[v := u]
  {
    LoweredStep(sea, u, du, dist, done, v);
  }

  /** The closed forms stay put when `v` is not lowered. */
  lemma ExpandStepKeeps(sea: Sea, u: Name, du: nat, dist: map<Name, nat>, prev: map<Name, Name>, done: set<Name>, v: Name)
    requires u in sea.islands && IslandFits(sea, u)
    requires v in sea.islands[u].routes && v !in done
    requires !Lowers(dist, v, du + sea.islands[u].routes[v])
    ensures Lowered(sea, u, du, dist, done + {v}) == Lowered(sea, u, du, dist, done)
  {
    LoweredStep(sea, u, du, dist, done, v);
  }

  /** Every `stamp` lies before `clock`. */
  ghost predicate StampsBefore(stamp: map<Name, nat>, clock: nat) {
    forall k :: k in stamp ==> stamp[k] < clock
  }

  /** The islands an expansion of all routes of `u` lowers. */
  ghost function LoweredAll(sea: Sea, u: Name, du: nat, dist: map<Name, nat>): set<Name>
    requires u in sea.islands
  {
    Lowered(sea, u, du, dist, sea.islands[u].routes.Keys)
  }

  /** Every lowered island is stamped with `clock`. */
  ghost function StampLowered(stamp: map<Name, nat>, low: set<Name>, clock: nat): map<Name, nat> {
    map x | x in stamp.Keys + low :: if x in low then clock else stamp[x]
  }

  /** Every lowered island is reached by the walk to `u` and one more route. */
  ghost function WalksLowered(walks: map<Name, seq<Name>>, low: set<Name>, u: Name): map<Name, seq<Name>>
    requires u in walks
  {
    map x | x in walks.Keys + low :: if x in low then walks[u] + [x] else walks[x]
  }

  /** Expanding `u` keeps the predecessors a forest under the recorded distances. */
  lemma ExpansionKeepsForest(sea: Sea, root: Name, u: Name, du: nat, dist: map<Name, nat>, prev: map<Name, Name>, stamp: map<Name, nat>, clock: nat)
    requires u in sea.islands && IslandFits(sea, u)
    requires Forest(sea, root, dist, prev, stamp) && StampsBefore(stamp, clock)
    requires u in dist && dist[u] == du
    ensures var low := LoweredAll(sea, u, du, dist);
      && Forest(sea, root, ExpandedDist(sea, u, du, dist, sea.islands[u].routes.Keys),
                ExpandedPrev(sea, u, du, dist, prev, sea.islands[u].routes.Keys), StampLowered(stamp, low, clock))
      && StampsBefore(StampLowered(stamp, low, clock), clock + 1)
  {
    var routes := sea.islands[u].routes;
    var low := LoweredAll(sea, u, du, dist);
    var dist', prev', stamp' := ExpandedDist(sea, u, du, dist, routes.Keys), ExpandedPrev(sea, u, du, dist, prev, routes.Keys), StampLowered(stamp, low, clock);
    assert u !in low && root !in low;
    assert dist'.Keys == dist.Keys + low;
    assert prev'.Keys == prev.Keys + low;
    assert stamp'.Keys == stamp.Keys + low;
    assert dist'[root] == 0;
    forall x | x in prev'
      ensures LinkOk(sea, dist', prev', stamp', x)
    {
      LinkAfterExpansion(sea, root, u, du, dist, prev, stamp, clock, x);
    }
  }

  /** The link of one island after the expansion of `u`. */
  lemma LinkAfterExpansion(sea: Sea, root: Name, u: Name, du: nat, dist: map<Name, nat>, prev: map<Name, Name>, stamp: map<Name, nat>, clock: nat, x: Name)
    requires u in sea.islands && IslandFits(sea, u)
    requires Forest(sea, root, dist, prev, stamp) && StampsBefore(stamp, clock)
    requires u in dist && dist[u] == du
    requires x in ExpandedPrev(sea, u, du, dist, prev, sea.islands[u].routes.Keys)
    ensures var low := LoweredAll(sea, u, du, dist);
      var dist', stamp' := ExpandedDist(sea, u, du, dist, sea.islands[u].routes.Keys), StampLowered(stamp, low, clock);
      && x in dist' && stamp'.Keys == dist'.Keys
      && LinkOk(sea, dist', ExpandedPrev(sea, u, du, dist, prev, sea.islands[u].routes.Keys), stamp', x)
  {
    var low := LoweredAll(sea, u, du, dist);
    assert u !in low;
    if x !in low {
      assert LinkOk(sea, dist, prev, stamp, x);
      var y := prev[x];
      if y in low {
        assert ExpandedDist(sea, u, du, dist, sea.islands[u].routes.Keys)[y] < dist[y];
      }
    }
  }

  /** Expanding `u` keeps every distance the cost of a recorded walk from the root. */
  lemma ExpansionKeepsAchieved(sea: Sea, root: Name, u: Name, du: nat, dist: map<Name, nat>, walks: map<Name, seq<Name>>)
    requires u in sea.islands && IslandFits(sea, u)
    requires Achieved(sea, root, dist, walks)
    requires u in dist && dist[u] == du
    ensures Achieved(sea, root, ExpandedDist(sea, u, du, dist, sea.islands[u].routes.Keys), WalksLowered(walks, LoweredAll(sea, u, du, dist), u))
  {
    var routes := sea.islands[u].routes;
    var low := LoweredAll(sea, u, du, dist);
    var dist', walks' := ExpandedDist(sea, u, du, dist, routes.Keys), WalksLowered(walks, low, u);
    forall v | v in dist'
      ensures v in walks' && WalkFromTo(sea, walks'[v], root, v) && Cost(sea, walks'[v]) == dist'[v]
    {
      if v in low {
        ExtendWalk(sea, walks[u], v);
      }
    }
  }

  /** An expansion that lowers something discovers an island or lowers the sum of distances. */
  lemma ExpansionProgresses(sea: Sea, u: Name, du: nat, dist: map<Name, nat>)
    requires u in sea.islands && IslandFits(sea, u)
    requires dist.Keys <= sea.islands.Keys
    requires LoweredAll(sea, u, du, dist) != {}
    ensures Progress(sea, ExpandedDist(sea, u, du, dist, sea.islands[u].routes.Keys), dist)
  {
    var routes := sea.islands[u].routes;
    var low := LoweredAll(sea, u, du, dist);
    var dist' := ExpandedDist(sea, u, du, dist, routes.Keys);
    ExpandedDistFacts(sea, u, du, dist, routes.Keys);
    if v :| v in low && v !in dist {
      DiscoveryCounts(sea, dist, dist', v);
    } else {
      var v :| v in low;
      assert dist'.Keys == dist.Keys;
      SumDistLower(dist, dist', v);
    }
  }

  /** An expansion that lowers nothing changes nothing. */
  lemma ExpansionIdle(sea: Sea, u: Name, du: nat, dist: map<Name, nat>, prev: map<Name, Name>, queue: multiset<NodeDistance>, r: multiset<NodeDistance>)
    requires u in sea.islands && IslandFits(sea, u)
    requires LoweredAll(sea, u, du, dist) == {}
    requires ExpandedQueue(sea, u, du, dist, sea.islands[u].routes.Keys, queue, r)
    ensures ExpandedDist(sea, u, du, dist, sea.islands[u].routes.Keys) == dist
    ensures ExpandedPrev(sea, u, du, dist, prev, sea.islands[u].routes.Keys) == prev
    ensures r == queue
  {
    assert forall e :: r[e] == queue[e];
  }

  /**
   * The loop over the routes of `u` in distributeResource: every route whose
   * destination gets a shorter distance through `u` records that distance and
   * `u` as predecessor, and queues an entry; nothing else changes.
   */
  method ExpandRoutes(sea: Sea, u: Name, du: nat, f: Frontier) returns (g: Frontier)
    requires u in sea.islands && IslandFits(sea, u)
    ensures g.dist == ExpandedDist(sea, u, du, f.dist, sea.islands[u].routes.Keys)
    ensures g.prev == ExpandedPrev(sea, u, du, f.dist, f.prev, sea.islands[u].routes.Keys)
    ensures ExpandedQueue(sea, u, du, f.dist, sea.islands[u].routes.Keys, f.queue, g.queue)
  {
    var routes := sea.islands[u].routes;
    g := f;
    var todo := routes.Keys;
    ghost var done: set<Name> := {};
    ExpandNothing(sea, u, du, f.dist, f.prev);
    QueueNothing(sea, u, du, f.dist, f.queue);
    while todo != {}
      invariant todo + done == routes.Keys && todo !! done
      invariant g.dist == ExpandedDist(sea, u, du, f.dist, done)
      invariant g.prev == ExpandedPrev(sea, u, du, f.dist, f.prev, done)
      invariant ExpandedQueue(sea, u, du, f.dist, done, f.queue, g.queue)
      decreases todo
    {
      var v :| v in todo;
      var travelTime := routes[v];
      var newDistance := du + travelTime;
      LoweredStep(sea, u, du, f.dist, done, v);
      if Lowers(g.dist, v, newDistance) {
        DistStepLowers(sea, u, du, f.dist, done, v);
        PrevStepLowers(sea, u, du, f.dist, f.prev, done, v);
        QueueStepLowers(sea, u, du, f.dist, done, v, f.queue, g.queue);
        g := Frontier(g.dist[v := newDistance], g.prev[v := u], g.queue + multiset{NodeDistance(v, newDistance, travelTime)});
      } else {
        ExpandStepKeeps(sea, u, du, f.dist, f.prev, done, v);
        QueueStepKeeps(sea, u, du, f.dist, done, v, f.queue, g.queue);
      }
      todo, done := todo - {v}, done + {v};
    }
  }

  // ---------------------------------------------------------------------------
  // The outer loop

  /** A queued entry never carries less than its island's recorded distance. */
  ghost predicate QueueSound(dist: map<Name, nat>, queue: multiset<NodeDistance>) {
    forall e :: e in queue ==> e.islandName in dist && dist[e.islandName] <= e.distance
  }

  /** An entry for `x` at distance `d` is still queued. */
  ghost predicate Pending(queue: multiset<NodeDistance>, x: Name, d: nat) {
    exists c :: NodeDistance(x, d, c) in queue
  }

  /** No route of `x` leads to a shorter distance than the one recorded. */
  ghost predicate Relaxed(sea: Sea, dist: map<Name, nat>, x: Name)
    requires x in sea.islands && x in dist
  {
    forall v :: v in sea.islands[x].routes ==> v in dist && dist[v] <= dist[x] + sea.islands[x].routes[v]
  }

  /** Every recorded island outside `skip` is either still queued at its distance or relaxed. */
  ghost predicate SettledExcept(sea: Sea, dist: map<Name, nat>, queue: multiset<NodeDistance>, skip: set<Name>)
    requires dist.Keys <= sea.islands.Keys
  {
    forall x :: x in dist && x !in skip ==> Pending(queue, x, dist[x]) || Relaxed(sea, dist, x)
  }

  /** Polling an entry its island has already beaten loses nothing. */
  lemma PollStale(sea: Sea, dist: map<Name, nat>, queue: multiset<NodeDistance>, e: NodeDistance)
    requires dist.Keys <= sea.islands.Keys
    requires QueueSound(dist, queue) && SettledExcept(sea, dist, queue, {})
    requires e in queue && e.islandName in dist && dist[e.islandName] < e.distance
    ensures QueueSound(dist, queue - multiset{e}) && SettledExcept(sea, dist, queue - multiset{e}, {})
  {
    forall x | x in dist && Pending(queue, x, dist[x])
      ensures Pending(queue - multiset{e}, x, dist[x])
    {
      var c :| NodeDistance(x, dist[x], c) in queue;
      assert NodeDistance(x, dist[x], c) != e;
      assert NodeDistance(x, dist[x], c) in queue - multiset{e};
    }
  }

  /** Polling the entry that carries its island's distance leaves only that island unsettled. */
  lemma PollCurrent(sea: Sea, dist: map<Name, nat>, queue: multiset<NodeDistance>, e: NodeDistance)
    requires dist.Keys <= sea.islands.Keys
    requires QueueSound(dist, queue) && SettledExcept(sea, dist, queue, {})
    requires e in queue && e.islandName in dist && dist[e.islandName] == e.distance
    ensures QueueSound(dist, queue - multiset{e}) && SettledExcept(sea, dist, queue - multiset{e}, {e.islandName})
  {
    forall x | x in dist && x != e.islandName && Pending(queue, x, dist[x])
      ensures Pending(queue - multiset{e}, x, dist[x])
    {
      var c :| NodeDistance(x, dist[x], c) in queue;
      assert NodeDistance(x, dist[x], c) in queue - multiset{e};
    }
  }

  /** Expanding `u` relaxes it and queues every island it lowers, so all are settled again. */
  lemma ExpansionSettles(sea: Sea, u: Name, du: nat, dist: map<Name, nat>, queue: multiset<NodeDistance>, r: multiset<NodeDistance>)
    requires u in sea.islands && IslandFits(sea, u)
    requires dist.Keys <= sea.islands.Keys && u in dist && dist[u] == du
    requires QueueSound(dist, queue) && SettledExcept(sea, dist, queue, {u})
    requires ExpandedQueue(sea, u, du, dist, sea.islands[u].routes.Keys, queue, r)
    ensures var dist' := ExpandedDist(sea, u, du, dist, sea.islands[u].routes.Keys);
      && dist'.Keys <= sea.islands.Keys
      && QueueSound(dist', r) && SettledExcept(sea, dist', r, {})
  {
    var routes := sea.islands[u].routes;
    var dist' := ExpandedDist(sea, u, du, dist, routes.Keys);
    ExpandedDistFacts(sea, u, du, dist, routes.Keys);
    ExpansionQueueSound(sea, u, du, dist, queue, r);
    forall x | x in dist'
      ensures Pending(r, x, dist'[x]) || Relaxed(sea, dist', x)
    {
      SettledAfterExpansion(sea, u, du, dist, queue, r, x);
    }
  }

  lemma ExpansionQueueSound(sea: Sea, u: Name, du: nat, dist: map<Name, nat>, queue: multiset<NodeDistance>, r: multiset<NodeDistance>)
    requires u in sea.islands && IslandFits(sea, u)
    requires QueueSound(dist, queue)
    requires ExpandedQueue(sea, u, du, dist, sea.islands[u].routes.Keys, queue, r)
    ensures QueueSound(ExpandedDist(sea, u, du, dist, sea.islands[u].routes.Keys), r)
  {
    var routes := sea.islands[u].routes;
    var dist' := ExpandedDist(sea, u, du, dist, routes.Keys);
    ExpandedDistFacts(sea, u, du, dist, routes.Keys);
    forall e | e in r
      ensures e.islandName in dist' && dist'[e.islandName] <= e.distance
    {
      if e !in queue {
        assert PushedFor(sea, u, du, dist, routes.Keys, e);
      }
    }
  }

  /** One island after the expansion of `u`: queued at its distance, or relaxed. */
  lemma SettledAfterExpansion(sea: Sea, u: Name, du: nat, dist: map<Name, nat>, queue: multiset<NodeDistance>, r: multiset<NodeDistance>, x: Name)
    requires u in sea.islands && IslandFits(sea, u)
    requires dist.Keys <= sea.islands.Keys && u in dist && dist[u] == du
    requires SettledExcept(sea, dist, queue, {u})
    requires ExpandedQueue(sea, u, du, dist, sea.islands[u].routes.Keys, queue, r)
    requires x in ExpandedDist(sea, u, du, dist, sea.islands[u].routes.Keys)
    ensures var dist' := ExpandedDist(sea, u, du, dist, sea.islands[u].routes.Keys);
      && dist'.Keys <= sea.islands.Keys
      && (Pending(r, x, dist'[x]) || Relaxed(sea, dist', x))
  {
    var routes := sea.islands[u].routes;
    var low := LoweredAll(sea, u, du, dist);
    ExpandedDistFacts(sea, u, du, dist, routes.Keys);
    assert u !in low;
    if x in low {
      assert PushedFor(sea, u, du, dist, routes.Keys, Offered(sea, u, du, x));
      assert Offered(sea, u, du, x) in r;
    } else if x != u {
      if Pending(queue, x, dist[x]) {
        var c :| NodeDistance(x, dist[x], c) in queue;
        assert NodeDistance(x, dist[x], c) in r;
      }
    }
  }

  /** The state before the first poll: only the source is queued, at distance 0. */
  predicate Initial(source: Name, f: Frontier) {
    f == Frontier(map[], map[], multiset{NodeDistance(source, 0, 0)})
  }

  /** What the corrected loop keeps once the source has been expanded. */
  ghost predicate Searching(sea: Sea, source: Name, f: Frontier, stamp: map<Name, nat>, clock: nat, walks: map<Name, seq<Name>>) {
    && Forest(sea, source, f.dist, f.prev, stamp) && StampsBefore(stamp, clock)
    && Achieved(sea, source, f.dist, walks)
    && QueueSound(f.dist, f.queue)
    && SettledExcept(sea, f.dist, f.queue, {})
  }

  /** `g` is below `f` in (undiscovered islands, sum of distances, queue size). */
  ghost predicate Shrinks(sea: Sea, g: Frontier, f: Frontier) {
    || Undiscovered(sea, g.dist) < Undiscovered(sea, f.dist)
    || (Undiscovered(sea, g.dist) == Undiscovered(sea, f.dist) && SumDist(g.dist) < SumDist(f.dist))
    || (Undiscovered(sea, g.dist) == Undiscovered(sea, f.dist) && SumDist(g.dist) == SumDist(f.dist) && |g.queue| < |f.queue|)
  }

  /**
   * Records nothing new for `u` and expands its routes: the forest, the
   * walks and the settled islands carry over, and the frontier either stays
   * as it was or makes progress.
   */
  method ExpandCurrent(sea: Sea, source: Name, u: Name, du: nat, before: Frontier,
                       ghost stamp: map<Name, nat>, ghost clock: nat, ghost walks: map<Name, seq<Name>>)
    returns (g: Frontier, ghost stamp': map<Name, nat>, ghost clock': nat, ghost walks': map<Name, seq<Name>>)
    requires u in sea.islands && IslandFits(sea, u)
    requires u in before.dist && before.dist[u] == du
    requires Forest(sea, source, before.dist, before.prev, stamp) && StampsBefore(stamp, clock)
    requires Achieved(sea, source, before.dist, walks)
    requires QueueSound(before.dist, before.queue) && SettledExcept(sea, before.dist, before.queue, {u})
    ensures Searching(sea, source, g, stamp', clock', walks')
    ensures Progress(sea, g.dist, before.dist) || (g.dist == before.dist && g.queue == before.queue)
    ensures g.dist == ExpandedDist(sea, u, du, before.dist, sea.islands[u].routes.Keys)
    ensures g.prev == ExpandedPrev(sea, u, du, before.dist, before.prev, sea.islands[u].routes.Keys)
  {
    g := ExpandRoutes(sea, u, du, before);
    ghost var low := LoweredAll(sea, u, du, before.dist);
    stamp', clock', walks' := StampLowered(stamp, low, clock), clock + 1, WalksLowered(walks, low, u);
    ExpansionKeepsForest(sea, source, u, du, before.dist, before.prev, stamp, clock);
    ExpansionKeepsAchieved(sea, source, u, du, before.dist, walks);
    ExpansionSettles(sea, u, du, before.dist, before.queue, g.queue);
    if low == {} {
      ExpansionIdle(sea, u, du, before.dist, before.prev, before.queue, g.queue);
    } else {
      ExpansionProgresses(sea, u, du, before.dist);
    }
  }

  /**
   * The first round of either loop: the only entry, the source at distance
   * 0, is polled; the source has no distance yet, so it is recorded at 0 and
   * its routes are expanded.
   */
  method FirstRound(sea: Sea, source: Name, f: Frontier)
    returns (g: Frontier, ghost stamp: map<Name, nat>, ghost clock: nat, ghost walks: map<Name, seq<Name>>)
    requires WellFormed(sea) && source in sea.islands
    requires Initial(source, f)
    ensures Searching(sea, source, g, stamp, clock, walks)
    ensures Undiscovered(sea, g.dist) < Undiscovered(sea, f.dist)
    ensures g.dist == ExpandedDist(sea, source, 0, map[source := 0], sea.islands[source].routes.Keys)
    ensures g.prev == ExpandedPrev(sea, source, 0, map[source := 0], map[], sea.islands[source].routes.Keys)
  {
    var current := NodeDistance(source, 0, 0);
    assert IsPolledFirst(f.queue, current);
    var queue := f.queue - multiset{current};
    assert queue == multiset{};
    var u := current.islandName;
    assert f.dist[u := current.distance] == map[source := 0];
    assert IslandFits(sea, u);
    g, stamp, clock, walks := ExpandCurrent(sea, source, u, 0, Frontier(map[source := 0], map[], multiset{}), map[source := 0], 1, map[source := [source]]);
    DiscoveryCounts(sea, f.dist, g.dist, source);
  }

  /** Skipping a stale entry keeps the loop's invariant and shrinks the queue. */
  lemma StaleRoundKeeps(sea: Sea, source: Name, f: Frontier, current: NodeDistance, stamp: map<Name, nat>, clock: nat, walks: map<Name, seq<Name>>)
    requires Searching(sea, source, f, stamp, clock, walks)
    requires current in f.queue && current.islandName in f.dist && f.dist[current.islandName] < current.distance
    ensures Searching(sea, source, Frontier(f.dist, f.prev, f.queue - multiset{current}), stamp, clock, walks)
    ensures |f.queue - multiset{current}| < |f.queue|
  {
    PollStale(sea, f.dist, f.queue, current);
  }

  /** Polling an entry that carries its island's distance: the island is expanded. */
  method CurrentRound(sea: Sea, source: Name, f: Frontier, current: NodeDistance, ghost stamp: map<Name, nat>, ghost clock: nat, ghost walks: map<Name, seq<Name>>)
    returns (g: Frontier, ghost stamp': map<Name, nat>, ghost clock': nat, ghost walks': map<Name, seq<Name>>)
    requires current.islandName in sea.islands && IslandFits(sea, current.islandName)
    requires Searching(sea, source, f, stamp, clock, walks)
    requires current in f.queue && !(current.islandName in f.dist && f.dist[current.islandName] < current.distance)
    ensures Searching(sea, source, g, stamp', clock', walks')
    ensures Shrinks(sea, g, f)
  {
    var queue := f.queue - multiset{current};
    var u := current.islandName;
    PollCurrent(sea, f.dist, f.queue, current);
    var dist := f.dist[u := current.distance];
    assert dist == f.dist;
    g, stamp', clock', walks' := ExpandCurrent(sea, source, u, current.distance, Frontier(dist, f.prev, queue), stamp, clock, walks);
  }

  /**
   * One round of the corrected loop: poll an entry, skip it when its island
   * already has a strictly shorter distance, otherwise record the distance
   * and expand the island's routes.
   */
  method StrictRound(sea: Sea, source: Name, f: Frontier, ghost stamp: map<Name, nat>, ghost clock: nat, ghost walks: map<Name, seq<Name>>)
    returns (g: Frontier, ghost stamp': map<Name, nat>, ghost clock': nat, ghost walks': map<Name, seq<Name>>)
    requires WellFormed(sea)
    requires Searching(sea, source, f, stamp, clock, walks)
    requires f.queue != multiset{}
    ensures Searching(sea, source, g, stamp', clock', walks')
    ensures Shrinks(sea, g, f)
  {
    QueueHasHead(f.queue);
    var current :| IsPolledFirst(f.queue, current);
    var u := current.islandName;
    if u in f.dist && f.dist[u] < current.distance {
      g, stamp', clock', walks' := Frontier(f.dist, f.prev, f.queue - multiset{current}), stamp, clock, walks;
      StaleRoundKeeps(sea, source, f, current, stamp, clock, walks);
    } else {
      assert IslandFits(sea, u);
      g, stamp', clock', walks' := CurrentRound(sea, source, f, current, stamp, clock, walks);
    }
  }

  /** No recorded island has a route to a shorter distance. */
  ghost predicate AllRelaxed(sea: Sea, dist: map<Name, nat>)
    requires dist.Keys <= sea.islands.Keys
  {
    forall x :: x in dist ==> Relaxed(sea, dist, x)
  }

  /** Some walk from `source` to `x` costs exactly the recorded distance. */
  ghost predicate Attained(sea: Sea, source: Name, dist: map<Name, nat>, x: Name)
    requires x in dist
  {
    exists p :: WalkFromTo(sea, p, source, x) && Cost(sea, p) == dist[x]
  }

  /** Following `prev` back from `x` to `source` and reading it forwards is a walk without repeats. */
  ghost predicate TracesBack(sea: Sea, prev: map<Name, Name>, source: Name, x: Name) {
    var w := Backtrack(prev, x, {source});
    WalkFromTo(sea, Reverse(w), source, x) && NoRepeats(Reverse(w))
  }

  /** When every island is relaxed, no walk from the source beats a recorded distance. */
  lemma {:induction false} RelaxedIsOptimal(sea: Sea, source: Name, dist: map<Name, nat>, p: seq<Name>)
    requires dist.Keys <= sea.islands.Keys && AllRelaxed(sea, dist)
    requires source in dist && dist[source] == 0
    requires IsWalk(sea, p) && p[0] == source
    ensures p[|p| - 1] in dist && dist[p[|p| - 1]] <= Cost(sea, p)
    decreases |p|
  {
    if |p| > 1 {
      var q := p[..|p| - 1];
      assert forall i :: 0 <= i < |q| - 1 ==> RouteAt(sea, q, i) by {
        forall i | 0 <= i < |q| - 1
          ensures RouteAt(sea, q, i)
        {
          assert RouteAt(sea, p, i);
        }
      }
      RelaxedIsOptimal(sea, source, dist, q);
      var y, x := p[|p| - 2], p[|p| - 1];
      assert RouteAt(sea, p, |p| - 2);
      assert Relaxed(sea, dist, y);
    }
  }

  /** A drained queue leaves every recorded island relaxed. */
  lemma DrainedIsRelaxed(sea: Sea, source: Name, f: Frontier, stamp: map<Name, nat>, clock: nat, walks: map<Name, seq<Name>>)
    requires Searching(sea, source, f, stamp, clock, walks) && f.queue == multiset{}
    ensures f.dist.Keys <= sea.islands.Keys && AllRelaxed(sea, f.dist)
  {
    forall x | x in f.dist
      ensures Relaxed(sea, f.dist, x)
    {
      assert !Pending(f.queue, x, f.dist[x]);
    }
  }

  /** Once all is relaxed, every walk from the source ends at a recorded island, at no less than its distance. */
  lemma RelaxedBeatsEveryWalk(sea: Sea, source: Name, dist: map<Name, nat>)
    requires dist.Keys <= sea.islands.Keys && AllRelaxed(sea, dist)
    requires source in dist && dist[source] == 0
    ensures forall x, p :: WalkFromTo(sea, p, source, x) ==> x in dist && dist[x] <= Cost(sea, p)
  {
    forall x, p | WalkFromTo(sea, p, source, x)
      ensures x in dist && dist[x] <= Cost(sea, p)
    {
      RelaxedIsOptimal(sea, source, dist, p);
    }
  }

  /** Every recorded distance is the cost of a walk from the source. */
  lemma AchievedIsAttained(sea: Sea, source: Name, dist: map<Name, nat>, walks: map<Name, seq<Name>>)
    requires Achieved(sea, source, dist, walks)
    ensures forall x :: x in dist ==> Attained(sea, source, dist, x) && Reachable(sea, source, x)
  {
    forall x | x in dist
      ensures Attained(sea, source, dist, x) && Reachable(sea, source, x)
    {
      assert WalkFromTo(sea, walks[x], source, x);
    }
  }

  /** In a forest every recorded island traces back to the root, through recorded islands. */
  lemma ForestTracesBack(sea: Sea, source: Name, dist: map<Name, nat>, prev: map<Name, Name>, stamp: map<Name, nat>)
    requires Forest(sea, source, dist, prev, stamp)
    ensures forall x :: x in dist ==> TracesBack(sea, prev, source, x)
    ensures forall k :: k in prev ==> prev[k] in dist
  {
    forall x | x in dist
      ensures TracesBack(sea, prev, source, x)
    {
      PathFromRoot(sea, source, dist, prev, stamp, x, {source});
    }
    forall k | k in prev
      ensures prev[k] in dist
    {
      assert LinkOk(sea, dist, prev, stamp, k);
    }
  }

  /**
   * The relaxation of distributeResource with the skip test corrected to a
   * strict comparison: it records exactly the islands reachable from
   * `source`, each at the least travel time of any walk to it, and the
   * predecessors trace every one of them back to `source`.
   */
  method RelaxStrict(sea: Sea, source: Name) returns (dist: map<Name, nat>, prev: map<Name, Name>)
    requires WellFormed(sea) && source in sea.islands
    ensures forall x :: x in dist <==> Reachable(sea, source, x)
    ensures forall x :: x in dist ==> Attained(sea, source, dist, x)
    ensures forall x, p :: WalkFromTo(sea, p, source, x) ==> x in dist && dist[x] <= Cost(sea, p)
    ensures forall x :: x in dist ==> TracesBack(sea, prev, source, x)
    ensures prev.Keys == dist.Keys - {source} && forall k :: k in prev ==> prev[k] in dist
  {
    var f := Frontier(map[], map[], multiset{NodeDistance(source, 0, 0)});
    ghost var stamp, clock, walks;
    f, stamp, clock, walks := FirstRound(sea, source, f);
    while f.queue != multiset{}
      invariant Searching(sea, source, f, stamp, clock, walks)
      decreases Undiscovered(sea, f.dist), SumDist(f.dist), |f.queue|
    {
      f, stamp, clock, walks := StrictRound(sea, source, f, stamp, clock, walks);
    }
    DrainedIsRelaxed(sea, source, f, stamp, clock, walks);
    RelaxedBeatsEveryWalk(sea, source, f.dist);
    AchievedIsAttained(sea, source, f.dist, walks);
    ForestTracesBack(sea, source, f.dist, f.prev, stamp);
    dist, prev := f.dist, f.prev;
  }

  // ---------------------------------------------------------------------------
  // The loop as written: an entry is skipped when its island's recorded
  // distance is at most the entry's, which every queued entry satisfies.

  /** Every queued entry names an island of the sea, so `getIsland` finds it. */
  ghost predicate QueueInSea(sea: Sea, queue: multiset<NodeDistance>) {
    forall e :: e in queue ==> e.islandName in sea.islands
  }

  /** The distances the loop as written ends with: the source at 0 and its direct routes. */
  ghost function WrittenDist(sea: Sea, source: Name): (r: map<Name, nat>)
    requires source in sea.islands && IslandFits(sea, source)
    ensures r.Keys == sea.islands[source].routes.Keys + {source}
    ensures r[source] == 0
    ensures forall v :: v in sea.islands[source].routes && v != source ==> r[v] == sea.islands[source].routes[v]
  {
    var routes := sea.islands[source].routes;
    assert Lowered(sea, source, 0, map[source := 0], routes.Keys) == routes.Keys - {source};
    ExpandedDist(sea, source, 0, map[source := 0], routes.Keys)
  }

  /** The predecessors the loop as written ends with: the source for each of its direct routes. */
  ghost function WrittenPrev(sea: Sea, source: Name): (r: map<Name, Name>)
    requires source in sea.islands && IslandFits(sea, source)
    ensures r.Keys == sea.islands[source].routes.Keys - {source}
    ensures forall v :: v in r ==> r[v] == source
  {
    var routes := sea.islands[source].routes;
    assert Lowered(sea, source, 0, map[source := 0], routes.Keys) == routes.Keys - {source};
    ExpandedPrev(sea, source, 0, map[source := 0], map[], routes.Keys)
  }

  /**
   * One round of the loop as written. Whenever every queued entry carries at
   * least its island's distance, the polled entry is skipped and only the
   * queue shrinks.
   */
  method WrittenRound(sea: Sea, f: Frontier) returns (g: Frontier)
    requires WellFormed(sea)
    requires QueueInSea(sea, f.queue) && f.queue != multiset{}
    ensures QueueInSea(sea, g.queue)
    ensures QueueSound(f.dist, f.queue) ==>
      g.dist == f.dist && g.prev == f.prev && QueueSound(g.dist, g.queue) && |g.queue| < |f.queue|
  {
    QueueHasHead(f.queue);
    var current :| IsPolledFirst(f.queue, current);
    var queue := f.queue - multiset{current};
    var u := current.islandName;
    if u in f.dist && f.dist[u] <= current.distance {
      g := Frontier(f.dist, f.prev, queue);
    } else {
      var dist := f.dist[u := current.distance];
      assert IslandFits(sea, u);
      g := ExpandRoutes(sea, u, current.distance, Frontier(dist, f.prev, queue));
      forall e | e in g.queue
        ensures e.islandName in sea.islands
      {
        if e !in queue {
          assert PushedFor(sea, u, current.distance, dist, sea.islands[u].routes.Keys, e);
        }
      }
    }
  }

  /** The first round, as the loop as written sees it. */
  method WrittenStart(sea: Sea, source: Name) returns (f: Frontier)
    requires WellFormed(sea) && source in sea.islands
    ensures IslandFits(sea, source)
    ensures f.dist == WrittenDist(sea, source) && f.prev == WrittenPrev(sea, source)
    ensures QueueSound(f.dist, f.queue) && QueueInSea(sea, f.queue)
  {
    assert IslandFits(sea, source);
    ghost var stamp, clock, walks;
    f, stamp, clock, walks := FirstRound(sea, source, Frontier(map[], map[], multiset{NodeDistance(source, 0, 0)}));
  }

  /**
   * The relaxation of distributeResource as written. The source is expanded
   * in the first round; every later entry is skipped, so only the source's
   * own routes get a distance and a predecessor.
   */
  method RelaxAsWritten(sea: Sea, source: Name) returns (dist: map<Name, nat>, prev: map<Name, Name>)
    requires WellFormed(sea) && source in sea.islands
    ensures IslandFits(sea, source)
    ensures dist == WrittenDist(sea, source) && prev == WrittenPrev(sea, source)
  {
    var f := WrittenStart(sea, source);
    while f.queue != multiset{}
      invariant f.dist == WrittenDist(sea, source) && f.prev == WrittenPrev(sea, source)
      invariant QueueSound(f.dist, f.queue) && QueueInSea(sea, f.queue)
      decreases |f.queue|
    {
      f := WrittenRound(sea, f);
    }
    dist, prev := f.dist, f.prev;
  }

  /** Three islands in a row: `A` has a route to `B`, `B` to `C`, one unit each. */
  function Chain(): (sea: Sea)
    ensures sea.islands.Keys == {"A", "B", "C"}
  {
    Sea(map[
      "A" := Island("A", 0, map["B" := 1], map[]),
      "B" := Island("B", 0, map["C" := 1], map[]),
      "C" := Island("C", 0, map[], map[])])
  }

  /** As written, the relaxation from `A` never records `C`, although `C` is reachable from `A`. */
  lemma WrittenMissesSecondHop()
    ensures WellFormed(Chain()) && IslandFits(Chain(), "A")
    ensures "C" !in WrittenDist(Chain(), "A")
    ensures Reachable(Chain(), "A", "C")
  {
    var sea := Chain();
    assert IslandFits(sea, "A") && IslandFits(sea, "B") && IslandFits(sea, "C");
    var p := ["A", "B", "C"];
    assert RouteAt(sea, p, 0) && RouteAt(sea, p, 1);
    assert WalkFromTo(sea, p, "A", "C");
  }
}
