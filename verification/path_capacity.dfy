/**
 * ResourceDistribution.getPathCapacity: walks predecessors from `target`
 * back towards `source` and keeps the smallest route travel time it finds,
 * read as the capacity of the path. Infinity (nothing found) becomes 0.
 *
 * The route map of an island is keyed by Island objects. The source looks it
 * up with a String, which a HashMap compares with `equals`; a String is never
 * equal to an Island, so that lookup never finds anything. `Probe` says which
 * key the lookup uses, so the walk can be stated both as written and as
 * intended.
 */
module PathCapacity {
  import opened Wrappers
  import opened Islands
  import opened Routes
  import opened Predecessors

  /** The key handed to `getRoutes().get`: an island's name (as written) or the island itself. */
  datatype Probe = ByName | ByIsland

  /** `getRoutes().get` on the routes of `from`, probing for `to`. */
  function RouteLookup(sea: Sea, from: Name, to: Name, probe: Probe): (r: Option<int>)
    requires from in sea.islands
    ensures probe == ByName ==> r == None
    ensures probe == ByIsland ==> (r.Some? <==> IsRoute(sea, from, to))
    ensures probe == ByIsland && r.Some? ==> r.value == Weight(sea, from, to)
  {
    match probe
    case ByName => None
    case ByIsland => if to in sea.islands[from].routes then Some(sea.islands[from].routes[to]) else None
  }

  /** `Double.POSITIVE_INFINITY` or a finite capacity. */
  datatype Bound = Unbounded | AtMost(limit: int)

  /** `Math.min(pathCapacity, neighborCapacity)`, skipped when the lookup found nothing. */
  function Narrow(b: Bound, found: Option<int>): (r: Bound)
    ensures found.None? ==> r == b
    ensures found.Some? ==> r.AtMost? && r.limit <= found.value
    ensures found.Some? && b.AtMost? ==> r.limit <= b.limit
    ensures r.AtMost? ==> (b.AtMost? && r.limit == b.limit) || (found.Some? && r.limit == found.value)
  {
    match found
    case None => b
    case Some(c) =>
      match b
      case Unbounded => AtMost(c)
      case AtMost(limit) => AtMost(if c < limit then c else limit)
  }

  /** Every island the walk steps back to is in the sea (otherwise `getIsland` yields null). */
  ghost predicate StepsInSea(sea: Sea, w: seq<Name>) {
    forall i :: 0 < i < |w| ==> w[i] in sea.islands
  }

  /** The lookup for the step from `w[i + 1]` back to `w[i]` found `c`. */
  ghost predicate FoundAt(sea: Sea, w: seq<Name>, probe: Probe, i: int, c: int) {
    0 <= i < |w| - 1 && w[i + 1] in sea.islands && RouteLookup(sea, w[i + 1], w[i], probe) == Some(c)
  }

  /**
   * The loop of getPathCapacity from step `i` on, with `acc` the capacity so
   * far: the result is `acc` narrowed by every lookup that finds a route.
   */
  function Accumulate(sea: Sea, w: seq<Name>, probe: Probe, i: nat, acc: Bound): (b: Bound)
    requires StepsInSea(sea, w)
    ensures forall j, c :: i <= j && FoundAt(sea, w, probe, j, c) ==> b.AtMost? && b.limit <= c
    ensures acc.AtMost? ==> b.AtMost? && b.limit <= acc.limit
    ensures b.AtMost? ==> (acc.AtMost? && b.limit == acc.limit) || exists j :: i <= j && FoundAt(sea, w, probe, j, b.limit)
    ensures b.Unbounded? ==> acc.Unbounded?
    decreases |w| - i
  {
    if i + 1 >= |w| then acc
    else
      var found := RouteLookup(sea, w[i + 1], w[i], probe);
      assert found.Some? ==> FoundAt(sea, w, probe, i, found.value);
      Accumulate(sea, w, probe, i + 1, Narrow(acc, found))
  }

  /** The predecessor walk from `target`, stopping at `source` or at an island without predecessor. */
  function CapacityWalk(prev: map<Name, Name>, source: Name, target: Name): (w: seq<Name>)
    ensures |w| >= 1 && w[0] == target
    ensures forall i :: 0 <= i < |w| - 1 ==> PrevAt(prev, {source}, w, i)
    ensures w[|w| - 1] == source || w[|w| - 1] !in prev || w[|w| - 1] in w[..|w| - 1]
  {
    Backtrack(prev, target, {source})
  }

  lemma WalkStepsInSea(sea: Sea, prev: map<Name, Name>, source: Name, target: Name)
    requires forall k :: k in prev ==> prev[k] in sea.islands
    ensures StepsInSea(sea, CapacityWalk(prev, source, target))
  {
    var w := CapacityWalk(prev, source, target);
    forall i | 0 < i < |w|
      ensures w[i] in sea.islands
    {
      assert PrevAt(prev, {source}, w, i - 1);
    }
  }

  /**
   * getPathCapacity: the smallest travel time found on the walk back from
   * `target`, or 0 when no lookup found one. Every value in `prev` must be an
   * island of the sea.
   */
  function GetPathCapacity(sea: Sea, prev: map<Name, Name>, source: Name, target: Name, probe: Probe): (r: int)
    requires forall k :: k in prev ==> prev[k] in sea.islands
    ensures var w := CapacityWalk(prev, source, target);
      && (forall i, c :: FoundAt(sea, w, probe, i, c) ==> r <= c)
      && ((exists i, c :: FoundAt(sea, w, probe, i, c)) ==> exists i :: FoundAt(sea, w, probe, i, r))
      && ((forall i, c :: !FoundAt(sea, w, probe, i, c)) ==> r == 0)
  {
    WalkStepsInSea(sea, prev, source, target);
    var w := CapacityWalk(prev, source, target);
    match Accumulate(sea, w, probe, 0, Unbounded)
    case Unbounded => 0
    case AtMost(limit) => limit
  }

  /** Looking routes up by name never finds one, so the capacity is always 0. */
  lemma ByNameCapacityIsZero(sea: Sea, prev: map<Name, Name>, source: Name, target: Name)
    requires forall k :: k in prev ==> prev[k] in sea.islands
    ensures GetPathCapacity(sea, prev, source, target, ByName) == 0
  {
    var w := CapacityWalk(prev, source, target);
    forall i, c
      ensures !FoundAt(sea, w, ByName, i, c)
    {
    }
  }

  /** When source and target coincide the loop never runs and the capacity is 0. */
  lemma SameEndsCapacityIsZero(sea: Sea, prev: map<Name, Name>, island: Name, probe: Probe)
    requires forall k :: k in prev ==> prev[k] in sea.islands
    ensures GetPathCapacity(sea, prev, island, island, probe) == 0
  {
    assert CapacityWalk(prev, island, island) == [island];
  }

  /** With non-negative travel times the capacity is never negative. */
  lemma CapacityNonNegative(sea: Sea, prev: map<Name, Name>, source: Name, target: Name, probe: Probe)
    requires WellFormed(sea)
    requires forall k :: k in prev ==> prev[k] in sea.islands
    ensures GetPathCapacity(sea, prev, source, target, probe) >= 0
  {
    var r := GetPathCapacity(sea, prev, source, target, probe);
    var w := CapacityWalk(prev, source, target);
    if r != 0 {
      var i :| FoundAt(sea, w, probe, i, r);
      RouteWeightNonNegative(sea, w[i + 1], w[i]);
    }
  }

  /**
   * Looking routes up by island, the capacity is a bottleneck of the walk:
   * no larger than the travel time of any step of it that is a route.
   */
  lemma ByIslandCapacityIsBottleneck(sea: Sea, prev: map<Name, Name>, source: Name, target: Name, i: int)
    requires forall k :: k in prev ==> prev[k] in sea.islands
    requires var w := CapacityWalk(prev, source, target); 0 <= i < |w| - 1 && IsRoute(sea, w[i + 1], w[i])
    ensures var w := CapacityWalk(prev, source, target);
      GetPathCapacity(sea, prev, source, target, ByIsland) <= Weight(sea, w[i + 1], w[i])
  {
    var w := CapacityWalk(prev, source, target);
    assert FoundAt(sea, w, ByIsland, i, Weight(sea, w[i + 1], w[i]));
  }

  /** Two islands, "A" holding 10 gold with a route of travel time 5 to "B". */
  function Pair(): (sea: Sea)
    ensures WellFormed(sea) && IsRoute(sea, "A", "B") && Weight(sea, "A", "B") == 5
  {
    var sea := Sea(map["A" := Island("A", 10, map["B" := 5], map["gold" := 10]), "B" := Island("B", 20, map[], map[])]);
    assert IslandFits(sea, "A") && IslandFits(sea, "B");
    sea
  }

  /**
   * On a single route of travel time 5 recorded as the predecessor of "B",
   * the lookup by name finds nothing and the capacity comes out 0, where
   * the lookup by island gives 5.
   */
  lemma LookupByNameMisses()
    ensures GetPathCapacity(Pair(), map["B" := "A"], "A", "B", ByName) == 0
    ensures GetPathCapacity(Pair(), map["B" := "A"], "A", "B", ByIsland) == 5
  {
    var prev := map["B" := "A"];
    ByNameCapacityIsZero(Pair(), prev, "A", "B");
    var w := CapacityWalk(prev, "A", "B");
    assert Backtrack(prev, "A", {"A"}) == ["A"];
    assert w == ["B", "A"];
    assert FoundAt(Pair(), w, ByIsland, 0, 5);
  }
}
