/**
 * KnowledgeSharing.findShortestPath: relaxation from a start island until the
 * end island is polled from the queue, then the path rebuilt by walking
 * predecessors back from the end.
 *
 * The queue is ordered by island POPULATION (getDistance), not by distance
 * travelled, so the path found is a valid route path but not necessarily the
 * cheapest one. Every property below holds whichever minimum the queue hands
 * out and in whatever order an island's routes are visited.
 */
module KnowledgeSharing {
  import opened Wrappers
  import opened Islands
  import opened Routes
  import opened Predecessors

  /** getDistance: the queue key of an island is its population. */
  function PriorityKey(sea: Sea, n: Name): (r: int)
    requires n in sea.islands
    ensures r == sea.islands[n].population
  {
    sea.islands[n].population
  }

  /** `u` may be handed out by `poll`: no island in the queue has a smaller key. */
  predicate IsPolledFirst(sea: Sea, queue: multiset<Name>, u: Name)
    requires forall x :: x in queue ==> x in sea.islands
  {
    u in queue && forall x :: x in queue ==> PriorityKey(sea, u) <= PriorityKey(sea, x)
  }

  /** A non-empty queue always has an island to poll. */
  lemma {:induction false} QueueHasFirst(sea: Sea, queue: multiset<Name>)
    requires queue != multiset{}
    requires forall x :: x in queue ==> x in sea.islands
    ensures exists u :: IsPolledFirst(sea, queue, u)
    decreases |queue|
  {
    var y :| y in queue;
    var rest := queue - multiset{y};
    assert queue == rest + multiset{y};
    if rest == multiset{} {
      assert IsPolledFirst(sea, queue, y);
    } else {
      QueueHasFirst(sea, rest);
      var u :| IsPolledFirst(sea, rest, u);
      assert forall x :: x in queue ==> x == y || x in rest;
      if PriorityKey(sea, y) <= PriorityKey(sea, u) {
        assert IsPolledFirst(sea, queue, y);
      } else {
        assert IsPolledFirst(sea, queue, u);
      }
    }
  }

  /** Position `i + 1` of `path` has position `i` as recorded predecessor. */
  predicate LinkedAt(prev: map<Name, Name>, path: seq<Name>, i: int) {
    0 <= i < |path| - 1 && path[i + 1] in prev && prev[path[i + 1]] == path[i]
  }

  /**
   * constructPath: collects `end`, its predecessor, that one's predecessor
   * and so on, then reverses the list.
   */
  function ConstructPath(prev: map<Name, Name>, end: Name): (path: seq<Name>)
    ensures |path| >= 1 && path[|path| - 1] == end
    ensures path[0] !in prev || path[0] in path[1..]
    ensures forall i :: 0 <= i < |path| - 1 ==> LinkedAt(prev, path, i)
  {
    var w := Backtrack(prev, end, {});
    ReversedBacktrackIsLinked(prev, w);
    Reverse(w)
  }

  lemma ReversedBacktrackIsLinked(prev: map<Name, Name>, w: seq<Name>)
    requires |w| >= 1
    requires forall i :: 0 <= i < |w| - 1 ==> PrevAt(prev, {}, w, i)
    requires WalkStopped(prev, {}, w)
    ensures var path := Reverse(w);
      && (path[0] !in prev || path[0] in path[1..])
      && (forall i :: 0 <= i < |path| - 1 ==> LinkedAt(prev, path, i))
  {
    var path := Reverse(w);
    forall i | 0 <= i < |path| - 1
      ensures LinkedAt(prev, path, i)
    {
      assert PrevAt(prev, {}, w, |w| - 2 - i);
      assert path[i] == w[|w| - 1 - i] && path[i + 1] == w[|w| - 2 - i];
    }
    if path[0] in prev {
      var k :| 0 <= k < |w| - 1 && w[k] == w[|w| - 1];
      assert path[|w| - 1 - k] == path[0];
      assert path[1..][|w| - 2 - k] == path[0];
    }
  }

  datatype Search = Search(
    dist: map<Name, nat>,     // islands without entry are at Double.MAX_VALUE
    prev: map<Name, Name>,
    queue: multiset<Name>
  )

  /** The distance through `u` is strictly below what is recorded for `v`. */
  predicate Improves(sea: Sea, s: Search, u: Name, v: Name)
    requires u in s.dist && SoundRoute(sea, u, v)
  {
    v !in s.dist || s.dist[u] + Weight(sea, u, v) < s.dist[v]
  }

  /**
   * One step of the inner loop: relaxes the route `u` to `v`. A recorded
   * distance only ever changes to a strictly smaller candidate.
   */
  function Relax(sea: Sea, s: Search, u: Name, v: Name): (r: Search)
    requires u in s.dist && SoundRoute(sea, u, v) && Weight(sea, u, v) >= 0
    ensures r.dist.Keys == s.dist.Keys + {v}
    ensures forall x :: x in s.dist && x != v ==> r.dist[x] == s.dist[x]
    ensures r.dist[v] <= s.dist[u] + Weight(sea, u, v)
    ensures v in s.dist ==> r.dist[v] <= s.dist[v]
    ensures Improves(sea, s, u, v) ==> r.dist[v] == s.dist[u] + Weight(sea, u, v)
    ensures !Improves(sea, s, u, v) ==> r == s
    ensures Improves(sea, s, u, v) ==> r.prev == s.prev[v := u] && r.queue == s.queue + multiset{v}
  {
    var candidate := s.dist[u] + Weight(sea, u, v);
    if v !in s.dist || candidate < s.dist[v] then
      assert v in s.dist[v := candidate];
      Search(s.dist[v := candidate], s.prev[v := u], s.queue + multiset{v})
    else
      s
  }

  /** `u` has been expanded for good: it is not the end and all its neighbours have distances. */
  ghost predicate Settled(sea: Sea, dist: map<Name, nat>, end: Name, u: Name)
    requires u in sea.islands
  {
    u != end && forall v :: v in sea.islands[u].routes ==> v in dist
  }

  ghost predicate SearchInv(sea: Sea, start: Name, s: Search, stamp: map<Name, nat>, clock: nat, walks: map<Name, seq<Name>>) {
    && Forest(sea, start, s.dist, s.prev, stamp)
    && (forall k :: k in stamp ==> stamp[k] < clock)
    && (forall x :: x in s.queue ==> x in s.dist)
    && Achieved(sea, start, s.dist, walks)
  }

  /**
   * Every island with a distance is still queued or settled, except `u`,
   * whose routes outside `todo` have been relaxed.
   */
  ghost predicate ClosedExcept(sea: Sea, end: Name, s: Search, u: Name, todo: set<Name>)
    requires s.dist.Keys <= sea.islands.Keys && u in sea.islands
  {
    && (forall x :: x in s.dist && x != u ==> x in s.queue || Settled(sea, s.dist, end, x))
    && (forall v :: v in sea.islands[u].routes && v !in todo ==> v in s.dist)
  }

  ghost predicate Closed(sea: Sea, end: Name, s: Search)
    requires s.dist.Keys <= sea.islands.Keys
  {
    forall x :: x in s.dist ==> x in s.queue || Settled(sea, s.dist, end, x)
  }

  /** Recording a strictly better distance for `v` through `u` keeps the search invariant. */
  lemma ImprovementKeepsSearchInv(sea: Sea, start: Name, s: Search, r: Search, stamp: map<Name, nat>, clock: nat, walks: map<Name, seq<Name>>, u: Name, v: Name)
    requires SearchInv(sea, start, s, stamp, clock, walks)
    requires u in s.dist && SoundRoute(sea, u, v) && Improves(sea, s, u, v)
    requires r.dist == s.dist[v := s.dist[u] + Weight(sea, u, v)] && r.prev == s.prev[v := u] && r.queue == s.queue + multiset{v}
    ensures SearchInv(sea, start, r, stamp[v := clock], clock + 1, walks[v := walks[u] + [v]])
  {
    AchievedUpdate(sea, start, s.dist, walks, u, v);
    ForestUpdate(sea, start, s.dist, s.prev, stamp, clock, u, v);
    QueueStaysRecorded(s.queue, s.dist, v, s.dist[u] + Weight(sea, u, v));
  }

  lemma QueueStaysRecorded(queue: multiset<Name>, dist: map<Name, nat>, v: Name, d: nat)
    requires forall x :: x in queue ==> x in dist
    ensures forall x :: x in queue + multiset{v} ==> x in dist[v := d]
  {
  }

  lemma ImprovingRelaxKeepsSearchInv(sea: Sea, start: Name, s: Search, stamp: map<Name, nat>, clock: nat, walks: map<Name, seq<Name>>, u: Name, v: Name)
    requires SearchInv(sea, start, s, stamp, clock, walks)
    requires u in s.dist && SoundRoute(sea, u, v) && Improves(sea, s, u, v)
    ensures SearchInv(sea, start, Relax(sea, s, u, v), stamp[v := clock], clock + 1, walks[v := walks[u] + [v]])
  {
    ImprovementKeepsSearchInv(sea, start, s, Relax(sea, s, u, v), stamp, clock, walks, u, v);
  }

  lemma IdleRelaxKeepsSearchInv(sea: Sea, start: Name, s: Search, stamp: map<Name, nat>, clock: nat, walks: map<Name, seq<Name>>, u: Name, v: Name)
    requires SearchInv(sea, start, s, stamp, clock, walks)
    requires u in s.dist && SoundRoute(sea, u, v) && !Improves(sea, s, u, v)
    ensures SearchInv(sea, start, Relax(sea, s, u, v), stamp, clock, walks)
  {
    assert Relax(sea, s, u, v) == s;
  }

  /** Relaxing a route of `u` keeps the search invariant, with the ghost bookkeeping updated. */
  lemma RelaxKeepsSearchInv(sea: Sea, start: Name, s: Search, stamp: map<Name, nat>, clock: nat, walks: map<Name, seq<Name>>, u: Name, v: Name)
    returns (stamp': map<Name, nat>, clock': nat, walks': map<Name, seq<Name>>)
    requires SearchInv(sea, start, s, stamp, clock, walks)
    requires u in s.dist && SoundRoute(sea, u, v)
    ensures SearchInv(sea, start, Relax(sea, s, u, v), stamp', clock', walks')
  {
    if Improves(sea, s, u, v) {
      ImprovingRelaxKeepsSearchInv(sea, start, s, stamp, clock, walks, u, v);
      stamp', clock', walks' := stamp[v := clock], clock + 1, walks[v := walks[u] + [v]];
    } else {
      IdleRelaxKeepsSearchInv(sea, start, s, stamp, clock, walks, u, v);
      stamp', clock', walks' := stamp, clock, walks;
    }
  }

  /** Relaxing the route `u` to `v` takes `v` off the routes of `u` still to visit. */
  lemma RelaxKeepsClosedExcept(sea: Sea, end: Name, s: Search, u: Name, v: Name, todo: set<Name>)
    requires s.dist.Keys <= sea.islands.Keys && u in s.dist && v in todo && todo <= sea.islands[u].routes.Keys
    requires SoundRoute(sea, u, v)
    requires ClosedExcept(sea, end, s, u, todo)
    ensures Relax(sea, s, u, v).dist.Keys <= sea.islands.Keys
    ensures ClosedExcept(sea, end, Relax(sea, s, u, v), u, todo - {v})
  {
    var r := Relax(sea, s, u, v);
    assert s.queue <= r.queue;
    forall x | x in r.dist && x != u
      ensures x in r.queue || Settled(sea, r.dist, end, x)
    {
      if x in s.dist && x !in s.queue {
        assert Settled(sea, s.dist, end, x);
      }
    }
  }

  /** A relaxation that improves a distance is progress for the termination measure. */
  lemma RelaxProgresses(sea: Sea, s: Search, u: Name, v: Name, dist0: map<Name, nat>)
    requires s.dist.Keys <= sea.islands.Keys && u in s.dist && SoundRoute(sea, u, v) && Improves(sea, s, u, v)
    requires s.dist == dist0 || Progress(sea, s.dist, dist0)
    ensures Progress(sea, Relax(sea, s, u, v).dist, dist0)
  {
    ImprovementProgresses(sea, s.dist, dist0, v, s.dist[u] + Weight(sea, u, v));
  }

  /** When the queue drains, the end island is not reachable from the start. */
  lemma DrainedMeansUnreachable(sea: Sea, start: Name, end: Name, s: Search)
    requires start in s.dist && s.dist.Keys <= sea.islands.Keys
    requires s.queue == multiset{} && Closed(sea, end, s)
    ensures end !in s.dist
    ensures !Reachable(sea, start, end)
  {
    forall x, y | x in s.dist.Keys && IsRoute(sea, x, y)
      ensures y in s.dist.Keys
    {
      assert Settled(sea, s.dist, end, x);
    }
    ClosedSetHoldsReachable(sea, s.dist.Keys, start, end);
  }

  /** The path rebuilt when the end island is polled is a route path from the start without repeats. */
  lemma FoundPathIsWalk(sea: Sea, start: Name, end: Name, s: Search, stamp: map<Name, nat>, clock: nat, walks: map<Name, seq<Name>>)
    requires SearchInv(sea, start, s, stamp, clock, walks) && end in s.dist
    ensures WalkFromTo(sea, ConstructPath(s.prev, end), start, end)
    ensures NoRepeats(ConstructPath(s.prev, end))
    ensures start == end ==> ConstructPath(s.prev, end) == [end]
  {
    PathFromRoot(sea, start, s.dist, s.prev, stamp, end, {});
    if start == end {
      assert Backtrack(s.prev, end, {}) == [end];
    }
  }

  /**
   * The inner loop of findShortestPath: relaxes every route of `current`, in
   * whatever order the route map hands them out.
   */
  method RelaxRoutes(sea: Sea, start: Name, end: Name, s0: Search, current: Name,
                     ghost stamp0: map<Name, nat>, ghost clock0: nat, ghost walks0: map<Name, seq<Name>>)
    returns (s: Search, ghost stamp: map<Name, nat>, ghost clock: nat, ghost walks: map<Name, seq<Name>>)
    requires WellFormed(sea) && SearchInv(sea, start, s0, stamp0, clock0, walks0)
    requires s0.dist.Keys <= sea.islands.Keys && current in s0.dist
    requires ClosedExcept(sea, end, s0, current, sea.islands[current].routes.Keys)
    ensures SearchInv(sea, start, s, stamp, clock, walks)
    ensures s.dist.Keys <= sea.islands.Keys && current in s.dist
    ensures ClosedExcept(sea, end, s, current, {})
    ensures s == s0 || Progress(sea, s.dist, s0.dist)
  {
    s, stamp, clock, walks := s0, stamp0, clock0, walks0;
    ghost var changed := false;
    var todo := sea.islands[current].routes.Keys;
    while todo != {}
      invariant todo <= sea.islands[current].routes.Keys
      invariant SearchInv(sea, start, s, stamp, clock, walks)
      invariant s.dist.Keys <= sea.islands.Keys
      invariant current in s.dist
      invariant ClosedExcept(sea, end, s, current, todo)
      invariant !changed ==> s == s0
      invariant changed ==> Progress(sea, s.dist, s0.dist)
      decreases todo
    {
      var neighbor :| neighbor in todo;
      RouteWeightNonNegative(sea, current, neighbor);
      stamp, clock, walks := RelaxKeepsSearchInv(sea, start, s, stamp, clock, walks, current, neighbor);
      RelaxKeepsClosedExcept(sea, end, s, current, neighbor, todo);
      if Improves(sea, s, current, neighbor) {
        RelaxProgresses(sea, s, current, neighbor, s0.dist);
        changed := true;
      }
      s := Relax(sea, s, current, neighbor);
      todo := todo - {neighbor};
    }
  }

  /** Polling `current` off the queue leaves it as the one island whose routes are still to relax. */
  lemma PollKeepsInvariant(sea: Sea, start: Name, end: Name, s: Search, stamp: map<Name, nat>, clock: nat, walks: map<Name, seq<Name>>, current: Name)
    requires SearchInv(sea, start, s, stamp, clock, walks) && s.dist.Keys <= sea.islands.Keys
    requires Closed(sea, end, s) && current in s.queue
    ensures current in s.dist
    ensures SearchInv(sea, start, s.(queue := s.queue - multiset{current}), stamp, clock, walks)
    ensures ClosedExcept(sea, end, s.(queue := s.queue - multiset{current}), current, sea.islands[current].routes.Keys)
  {
    var s' := s.(queue := s.queue - multiset{current});
    forall x | x in s'.dist && x != current
      ensures x in s'.queue || Settled(sea, s'.dist, end, x)
    {
      if x in s.queue {
        assert x in s'.queue;
      }
    }
  }

  /** Once every route of `current` is relaxed, and it is not the end, it counts as settled. */
  lemma ExpandedIsClosed(sea: Sea, end: Name, s: Search, current: Name)
    requires s.dist.Keys <= sea.islands.Keys && current in s.dist && current != end
    requires ClosedExcept(sea, end, s, current, {})
    ensures Closed(sea, end, s)
  {
    assert Settled(sea, s.dist, end, current);
  }

  /**
   * findShortestPath: empty when either island is unknown or the end cannot
   * be reached; otherwise a route path from start to end without repeated
   * islands.
   */
  method FindShortestPath(sea: Sea, startName: Name, endName: Name) returns (path: seq<Name>)
    requires WellFormed(sea)
    ensures startName !in sea.islands || endName !in sea.islands ==> path == []
    ensures startName in sea.islands && startName == endName ==> path == [startName]
    ensures path != [] ==> WalkFromTo(sea, path, startName, endName) && NoRepeats(path)
    ensures path != [] <==> startName in sea.islands && endName in sea.islands && Reachable(sea, startName, endName)
  {
    if GetIsland(sea, startName).None? || GetIsland(sea, endName).None? {
      return [];
    }
    var s := Search(map[startName := 0], map[], multiset{startName});
    ghost var stamp: map<Name, nat> := map[startName := 0];
    ghost var clock: nat := 1;
    ghost var walks := map[startName := [startName]];
    assert WalkFromTo(sea, [startName], startName, startName);
    while s.queue != multiset{}
      invariant SearchInv(sea, startName, s, stamp, clock, walks)
      invariant s.dist.Keys <= sea.islands.Keys
      invariant Closed(sea, endName, s)
      decreases Undiscovered(sea, s.dist), SumDist(s.dist), |s.queue|
    {
      QueueHasFirst(sea, s.queue);
      var current :| IsPolledFirst(sea, s.queue, current);
      PollKeepsInvariant(sea, startName, endName, s, stamp, clock, walks, current);
      s := s.(queue := s.queue - multiset{current});
      if current == endName {
        FoundPathIsWalk(sea, startName, endName, s, stamp, clock, walks);
        return ConstructPath(s.prev, endName);
      }
      s, stamp, clock, walks := RelaxRoutes(sea, startName, endName, s, current, stamp, clock, walks);
      ExpandedIsClosed(sea, endName, s, current);
    }
    DrainedMeansUnreachable(sea, startName, endName, s);
    path := [];
  }
}
