/**
 * Predecessor maps as both algorithms build them while relaxing routes, the
 * walk back along predecessors, and the facts that make that walk end at the
 * start island: a recorded predecessor always sits strictly lower in the
 * order (distance, time of last update). Also the termination measure of a
 * relaxation loop: islands still without distance, then the sum of recorded
 * distances.
 */
module Predecessors {
  import opened Islands
  import opened Routes

  /** Position `i` of `w` is not a stopping point and its predecessor is at `i + 1`. */
  predicate PrevAt(prev: map<Name, Name>, stop: set<Name>, w: seq<Name>, i: int) {
    0 <= i < |w| - 1 && w[i] !in stop && w[i] in prev && prev[w[i]] == w[i + 1]
  }

  /**
   * Follows predecessors from `at` until it meets an island in `stop` or one
   * without predecessor, and lists the islands met, `at` first. Each visited
   * key is dropped from the map, so on a cyclic map the walk ends when it
   * comes back to an island it has seen.
   */
  function Backtrack(prev: map<Name, Name>, at: Name, stop: set<Name>): (w: seq<Name>)
    ensures |w| >= 1 && w[0] == at
    ensures |w| <= |prev| + 1
    ensures forall i :: 0 <= i < |w| - 1 ==> PrevAt(prev, stop, w, i)
    ensures WalkStopped(prev, stop, w)
    decreases |prev|
  {
    if at in stop || at !in prev then [at]
    else
      assert (prev - {at}).Keys == prev.Keys - {at};
      var rest := Backtrack(prev - {at}, prev[at], stop);
      ExtendBacktrack(prev, stop, at, rest);
      [at] + rest
  }

  /** The last island of `w` stops the walk: a stopping point, one without predecessor, or one seen before. */
  predicate WalkStopped(prev: map<Name, Name>, stop: set<Name>, w: seq<Name>)
    requires |w| >= 1
  {
    var last := w[|w| - 1];
    last in stop || last !in prev || last in w[..|w| - 1]
  }

  lemma ExtendBacktrack(prev: map<Name, Name>, stop: set<Name>, at: Name, rest: seq<Name>)
    requires at !in stop && at in prev && |rest| >= 1 && rest[0] == prev[at]
    requires forall i :: 0 <= i < |rest| - 1 ==> PrevAt(prev - {at}, stop, rest, i)
    requires WalkStopped(prev - {at}, stop, rest)
    ensures forall i :: 0 <= i < |rest| ==> PrevAt(prev, stop, [at] + rest, i)
    ensures WalkStopped(prev, stop, [at] + rest)
  {
    var w := [at] + rest;
    forall i | 0 <= i < |rest|
      ensures PrevAt(prev, stop, w, i)
    {
      if i > 0 {
        assert PrevAt(prev - {at}, stop, rest, i - 1);
      }
    }
    assert w[..|w| - 1] == [at] + rest[..|rest| - 1];
  }

  /** `a` is strictly lower than `b` in the order (distance, time of last update). */
  ghost predicate Below(dist: map<Name, nat>, stamp: map<Name, nat>, a: Name, b: Name)
    requires a in dist && b in dist && a in stamp && b in stamp
  {
    dist[a] < dist[b] || (dist[a] == dist[b] && stamp[a] < stamp[b])
  }

  /** Recorded facts about one island `x` that has a predecessor. */
  ghost predicate LinkOk(sea: Sea, dist: map<Name, nat>, prev: map<Name, Name>, stamp: map<Name, nat>, x: Name)
    requires x in prev && x in dist && x in stamp && stamp.Keys == dist.Keys
  {
    && prev[x] in dist
    && IsRoute(sea, prev[x], x)
    && dist[prev[x]] + Weight(sea, prev[x], x) <= dist[x]
    && Below(dist, stamp, prev[x], x)
  }

  /**
   * The shape relaxation keeps: `root` is at distance 0 and has no
   * predecessor, every other island with a distance has one, reached by a
   * route, with a distance that route accounts for, and strictly below it.
   */
  ghost predicate Forest(sea: Sea, root: Name, dist: map<Name, nat>, prev: map<Name, Name>, stamp: map<Name, nat>) {
    && root in dist && dist[root] == 0
    && dist.Keys <= sea.islands.Keys
    && prev.Keys == dist.Keys - {root}
    && stamp.Keys == dist.Keys
    && (forall x :: x in prev ==> LinkOk(sea, dist, prev, stamp, x))
  }

  /** The only update relaxation makes: a strictly shorter distance for `v`, reached from `u`. */
  lemma ForestUpdate(sea: Sea, root: Name, dist: map<Name, nat>, prev: map<Name, Name>, stamp: map<Name, nat>, clock: nat, u: Name, v: Name)
    requires Forest(sea, root, dist, prev, stamp)
    requires forall k :: k in stamp ==> stamp[k] < clock
    requires u in dist && SoundRoute(sea, u, v)
    requires v !in dist || dist[u] + Weight(sea, u, v) < dist[v]
    ensures Forest(sea, root, dist[v := dist[u] + Weight(sea, u, v)], prev[v := u], stamp[v := clock])
  {
    var w := Weight(sea, u, v);
    var dist', prev', stamp' := dist[v := dist[u] + w], prev[v := u], stamp[v := clock];
    assert v != root;
    assert u != v;
    assert dist'.Keys == dist.Keys + {v};
    forall x | x in prev'
      ensures LinkOk(sea, dist', prev', stamp', x)
    {
      if x == v {
        assert prev'[x] == u && dist'[u] == dist[u] && stamp'[u] == stamp[u];
      } else {
        assert LinkOk(sea, dist, prev, stamp, x);
        if prev[x] == v {
          assert dist'[v] < dist[v];
        } else {
          assert prev'[x] == prev[x] && dist'[prev[x]] == dist[prev[x]] && stamp'[prev[x]] == stamp[prev[x]];
        }
      }
    }
  }

  /** What the walk back needs of a forest: every predecessor is recorded and strictly lower. */
  ghost predicate Descending(root: Name, dist: map<Name, nat>, prev: map<Name, Name>, stamp: map<Name, nat>) {
    && root in dist
    && prev.Keys == dist.Keys - {root}
    && stamp.Keys == dist.Keys
    && forall x :: x in prev ==> prev[x] in dist && Below(dist, stamp, prev[x], x)
  }

  lemma ForestDescends(sea: Sea, root: Name, dist: map<Name, nat>, prev: map<Name, Name>, stamp: map<Name, nat>)
    requires Forest(sea, root, dist, prev, stamp)
    ensures Descending(root, dist, prev, stamp)
  {
    forall x | x in prev
      ensures prev[x] in dist && Below(dist, stamp, prev[x], x)
    {
      assert LinkOk(sea, dist, prev, stamp, x);
    }
  }

  /**
   * Walking predecessors from an island with a distance ends at the root.
   * `m` is `prev` with some keys already dropped, all of them above `x` in
   * the order, so the walk never meets one of them.
   */
  lemma {:induction false} BacktrackEndsAtRoot(root: Name, dist: map<Name, nat>, prev: map<Name, Name>, stamp: map<Name, nat>, m: map<Name, Name>, x: Name, stop: set<Name>)
    requires Descending(root, dist, prev, stamp)
    requires x in dist && stop <= {root}
    requires forall k :: k in m ==> k in prev && m[k] == prev[k]
    requires forall k :: k in prev && k !in m ==> Below(dist, stamp, x, k)
    ensures var w := Backtrack(m, x, stop); w[|w| - 1] == root
    decreases dist[x], stamp[x]
  {
    if x != root {
      assert x in m;
      var y := m[x];
      var m' := m - {x};
      DroppedStayAbove(dist, stamp, prev, m, x, y);
      BacktrackEndsAtRoot(root, dist, prev, stamp, m', y, stop);
      var rest := Backtrack(m', y, stop);
      assert Backtrack(m, x, stop) == [x] + rest;
    }
  }

  /** Dropping `x` from the walk's map keeps every dropped key above the next island `y`. */
  lemma DroppedStayAbove(dist: map<Name, nat>, stamp: map<Name, nat>, prev: map<Name, Name>, m: map<Name, Name>, x: Name, y: Name)
    requires stamp.Keys == dist.Keys && prev.Keys <= dist.Keys && x in dist && y in dist
    requires Below(dist, stamp, y, x)
    requires forall k :: k in prev && k !in m ==> Below(dist, stamp, x, k)
    ensures forall k :: k in prev && k !in m - {x} ==> Below(dist, stamp, y, k)
  {
    forall k | k in prev && k !in m - {x}
      ensures Below(dist, stamp, y, k)
    {
      if k != x {
        assert Below(dist, stamp, x, k);
      }
    }
  }

  /** Position `i + 1` of `w` is strictly below position `i`. */
  ghost predicate DescendsAt(dist: map<Name, nat>, stamp: map<Name, nat>, w: seq<Name>, i: int) {
    0 <= i < |w| - 1 && w[i] in dist && w[i] in stamp && w[i + 1] in dist && w[i + 1] in stamp
    && Below(dist, stamp, w[i + 1], w[i])
  }

  /** A sequence that descends step by step descends between any two positions. */
  lemma {:induction false} DescendingChain(dist: map<Name, nat>, stamp: map<Name, nat>, w: seq<Name>, i: nat, j: nat)
    requires forall k :: 0 <= k < |w| - 1 ==> DescendsAt(dist, stamp, w, k)
    requires i < j < |w|
    ensures w[i] in dist && w[i] in stamp && w[j] in dist && w[j] in stamp
    ensures Below(dist, stamp, w[j], w[i])
    decreases j - i
  {
    assert DescendsAt(dist, stamp, w, i);
    if j > i + 1 {
      DescendingChain(dist, stamp, w, i + 1, j);
    }
  }

  /** Every step of the predecessor walk goes back along a route to a strictly lower island. */
  lemma BacktrackSteps(sea: Sea, root: Name, dist: map<Name, nat>, prev: map<Name, Name>, stamp: map<Name, nat>, x: Name, stop: set<Name>)
    requires Forest(sea, root, dist, prev, stamp)
    requires x in dist
    ensures var w := Backtrack(prev, x, stop);
      && (forall i :: 0 <= i < |w| ==> w[i] in sea.islands)
      && (forall i :: 0 <= i < |w| - 1 ==> BackRouteAt(sea, w, i) && DescendsAt(dist, stamp, w, i))
  {
    var w := Backtrack(prev, x, stop);
    forall i | 0 <= i < |w|
      ensures w[i] in dist
    {
      if i > 0 {
        assert PrevAt(prev, stop, w, i - 1);
      }
    }
    forall i | 0 <= i < |w| - 1
      ensures BackRouteAt(sea, w, i) && DescendsAt(dist, stamp, w, i)
    {
      assert PrevAt(prev, stop, w, i);
      assert LinkOk(sea, dist, prev, stamp, w[i]);
    }
  }

  /** Reading a sequence without repeats backwards repeats nothing either. */
  lemma ReverseNoRepeats(w: seq<Name>)
    requires NoRepeats(w)
    ensures NoRepeats(Reverse(w))
  {
    var p := Reverse(w);
    forall i, j | 0 <= i < j < |p|
      ensures p[i] != p[j]
    {
      assert p[i] == w[|w| - 1 - i] && p[j] == w[|w| - 1 - j];
    }
  }

  /** A sequence that descends step by step, read backwards, has no repeats. */
  lemma DescendingHasNoRepeats(dist: map<Name, nat>, stamp: map<Name, nat>, w: seq<Name>)
    requires forall k :: 0 <= k < |w| - 1 ==> DescendsAt(dist, stamp, w, k)
    ensures NoRepeats(Reverse(w))
  {
    forall a, b | 0 <= a < b < |w|
      ensures w[a] != w[b]
    {
      DescendingChain(dist, stamp, w, a, b);
    }
    ReverseNoRepeats(w);
  }

  /** The predecessor walk from `x`, read backwards, is a walk from the root to `x` without repeats. */
  lemma PathFromRoot(sea: Sea, root: Name, dist: map<Name, nat>, prev: map<Name, Name>, stamp: map<Name, nat>, x: Name, stop: set<Name>)
    requires Forest(sea, root, dist, prev, stamp)
    requires x in dist && stop <= {root}
    ensures var w := Backtrack(prev, x, stop);
      && w[|w| - 1] == root
      && (forall i :: 0 <= i < |w| - 1 ==> BackRouteAt(sea, w, i))
    ensures WalkFromTo(sea, Reverse(Backtrack(prev, x, stop)), root, x)
    ensures NoRepeats(Reverse(Backtrack(prev, x, stop)))
  {
    var w := Backtrack(prev, x, stop);
    ForestDescends(sea, root, dist, prev, stamp);
    BacktrackEndsAtRoot(root, dist, prev, stamp, prev, x, stop);
    BacktrackSteps(sea, root, dist, prev, stamp, x, stop);
    ReverseIsWalk(sea, w);
    DescendingHasNoRepeats(dist, stamp, w);
    var p := Reverse(w);
    assert p[0] == w[|w| - 1];
    assert p[|p| - 1] == w[0];
  }

  /** Every recorded distance is the cost of a walk from the root, kept in `walks`. */
  ghost predicate Achieved(sea: Sea, root: Name, dist: map<Name, nat>, walks: map<Name, seq<Name>>) {
    forall v :: v in dist ==> v in walks && WalkFromTo(sea, walks[v], root, v) && Cost(sea, walks[v]) == dist[v]
  }

  /** Recording the distance through `u` for `v` keeps every distance the cost of a walk. */
  lemma AchievedUpdate(sea: Sea, root: Name, dist: map<Name, nat>, walks: map<Name, seq<Name>>, u: Name, v: Name)
    requires Achieved(sea, root, dist, walks)
    requires u in dist && SoundRoute(sea, u, v)
    ensures Achieved(sea, root, dist[v := dist[u] + Weight(sea, u, v)], walks[v := walks[u] + [v]])
  {
    ExtendWalk(sea, walks[u], v);
  }

  // ---------------------------------------------------------------------------
  // Termination measure of relaxation loops

  ghost function PickKey(m: map<Name, nat>): Name
    requires m != map[]
  {
    var k :| k in m; k
  }

  /** Sum of all recorded distances. */
  ghost function SumDist(m: map<Name, nat>): nat
    decreases |m|
  {
    if m == map[] then 0
    else
      var k := PickKey(m);
      assert (m - {k}).Keys == m.Keys - {k};
      m[k] + SumDist(m - {k})
  }

  lemma {:induction false} SumDistRemove(m: map<Name, nat>, k: Name)
    requires k in m
    ensures SumDist(m) == m[k] + SumDist(m - {k})
    decreases |m|
  {
    var j := PickKey(m);
    if j != k {
      assert (m - {j}).Keys == m.Keys - {j};
      assert (m - {k}).Keys == m.Keys - {k};
      SumDistRemove(m - {j}, k);
      SumDistRemove(m - {k}, j);
      assert m - {j} - {k} == m - {k} - {j};
    }
  }

  /** Islands of the sea that have no distance yet. */
  ghost function Undiscovered(sea: Sea, dist: map<Name, nat>): nat {
    |sea.islands.Keys - dist.Keys|
  }

  /** `dist` is lexicographically smaller than `dist0` in (undiscovered islands, sum of distances). */
  ghost predicate Progress(sea: Sea, dist: map<Name, nat>, dist0: map<Name, nat>) {
    || Undiscovered(sea, dist) < Undiscovered(sea, dist0)
    || (Undiscovered(sea, dist) == Undiscovered(sea, dist0) && SumDist(dist) < SumDist(dist0))
  }

  /** Discovering an island or lowering a distance is progress, and progress accumulates. */
  lemma ImprovementProgresses(sea: Sea, dist: map<Name, nat>, dist0: map<Name, nat>, v: Name, d: nat)
    requires dist.Keys <= sea.islands.Keys && v in sea.islands
    requires v !in dist || d < dist[v]
    requires dist == dist0 || Progress(sea, dist, dist0)
    ensures Progress(sea, dist[v := d], dist0)
  {
    if v !in dist {
      DiscoveryShrinks(sea, dist, v, d);
    } else {
      LoweringShrinks(sea, dist, v, d);
    }
  }

  lemma DiscoveryShrinks(sea: Sea, dist: map<Name, nat>, v: Name, d: nat)
    requires v in sea.islands && v !in dist
    ensures Undiscovered(sea, dist[v := d]) < Undiscovered(sea, dist)
  {
    assert sea.islands.Keys - dist.Keys == (sea.islands.Keys - dist[v := d].Keys) + {v};
  }

  lemma LoweringShrinks(sea: Sea, dist: map<Name, nat>, v: Name, d: nat)
    requires v in dist && d < dist[v]
    ensures Undiscovered(sea, dist[v := d]) == Undiscovered(sea, dist)
    ensures SumDist(dist[v := d]) < SumDist(dist)
  {
    assert dist[v := d].Keys == dist.Keys;
    SumDistRemove(dist, v);
    SumDistRemove(dist[v := d], v);
    assert dist[v := d] - {v} == dist - {v};
  }

  /** Lowering some distances and raising none never raises the sum. */
  lemma {:induction false} SumDistNoHigher(m: map<Name, nat>, m': map<Name, nat>)
    requires m'.Keys == m.Keys
    requires forall k :: k in m ==> m'[k] <= m[k]
    ensures SumDist(m') <= SumDist(m)
    decreases |m|
  {
    if m != map[] {
      var j :| j in m;
      SumDistRemove(m, j);
      SumDistRemove(m', j);
      assert (m' - {j}).Keys == (m - {j}).Keys;
      SumDistNoHigher(m - {j}, m' - {j});
    }
  }

  /** Lowering at least one distance and raising none lowers the sum. */
  lemma SumDistLower(m: map<Name, nat>, m': map<Name, nat>, k: Name)
    requires m'.Keys == m.Keys
    requires forall x :: x in m ==> m'[x] <= m[x]
    requires k in m && m'[k] < m[k]
    ensures SumDist(m') < SumDist(m)
  {
    SumDistRemove(m, k);
    SumDistRemove(m', k);
    assert (m' - {k}).Keys == (m - {k}).Keys;
    SumDistNoHigher(m - {k}, m' - {k});
  }

  /** Giving a distance to one more island of the sea, and to no island outside it, is discovery. */
  lemma DiscoveryCounts(sea: Sea, dist: map<Name, nat>, dist': map<Name, nat>, v: Name)
    requires dist.Keys <= dist'.Keys <= sea.islands.Keys
    requires v in dist' && v !in dist
    ensures Undiscovered(sea, dist') < Undiscovered(sea, dist)
  {
    var before, after := sea.islands.Keys - dist.Keys, sea.islands.Keys - dist'.Keys;
    SubsetNoLarger(after, before - {v});
  }

  lemma {:induction false} SubsetNoLarger(a: set<Name>, b: set<Name>)
    requires a <= b
    ensures |a| <= |b|
    decreases |a|
  {
    if a != {} {
      var x :| x in a;
      SubsetNoLarger(a - {x}, b - {x});
    }
  }
}
