/**
 * ResourceDistribution.distributeResource: relax distances from the source
 * island, then hand out the source's stock of one resource kind to every
 * recorded island, each getting at most the capacity of its path and never
 * more than what is left.
 *
 * Allocation adds to the target islands but never takes from the source
 * island itself: the amount handed out is tracked in a local variable only.
 */
module ResourceDistribution {
  import opened Islands
  import opened Routes
  import opened Predecessors
  import opened PathCapacity
  import opened ResourceRelaxation

  /**
   * One handout: `amount` of the resource went to `island` (the message the
   * source prints); the island receives it through Java's `(int)` cast.
   */
  datatype Allocation = Allocation(island: Name, amount: int)

  /** Sum of the amounts handed out. */
  function Total(log: seq<Allocation>): int
    decreases |log|
  {
    if log == [] then 0 else Total(log[..|log| - 1]) + log[|log| - 1].amount
  }

  function Min(a: int, b: int): (r: int)
    ensures r <= a && r <= b && (r == a || r == b)
  {
    if a <= b then a else b
  }

  /** The islands that received something. */
  ghost function Receivers(log: seq<Allocation>): set<Name> {
    set i | 0 <= i < |log| :: log[i].island
  }

  /** No island appears twice in the log. */
  ghost predicate Distinct(log: seq<Allocation>) {
    forall i, j :: 0 <= i < j < |log| ==> log[i].island != log[j].island
  }

  /** Every handout is the smaller of what was left of `pool` before it and the island's capacity. */
  ghost predicate Greedy(log: seq<Allocation>, pool: int, caps: map<Name, int>)
    decreases |log|
  {
    log != [] ==>
      var before, last := log[..|log| - 1], log[|log| - 1];
      && Greedy(before, pool, caps)
      && last.island in caps
      && last.amount == Min(pool - Total(before), caps[last.island])
  }

  /** Each receiver holds exactly what `AddResources` gives it; every other island is untouched. */
  ghost predicate Delivered(sea: Sea, r: Sea, kind: Name, log: seq<Allocation>) {
    && r.islands.Keys == sea.islands.Keys
    && (forall i :: 0 <= i < |log| ==>
          log[i].island in sea.islands && r.islands[log[i].island] == AddResources(sea.islands[log[i].island], kind, IntCast(log[i].amount)))
    && (forall n :: n in sea.islands && n !in Receivers(log) ==> r.islands[n] == sea.islands[n])
  }

  lemma TotalAppend(log: seq<Allocation>, a: Allocation)
    ensures Total(log + [a]) == Total(log) + a.amount
  {
    assert (log + [a])[..|log|] == log;
  }

  /** Handing `amount` to a new island `x` delivers it there and nowhere else. */
  lemma DeliverStep(sea: Sea, r: Sea, kind: Name, log: seq<Allocation>, x: Name, amount: int)
    requires Delivered(sea, r, kind, log) && Distinct(log)
    requires x in sea.islands && x !in Receivers(log)
    ensures var log' := log + [Allocation(x, amount)];
      && Delivered(sea, AddResourcesAt(r, x, kind, IntCast(amount)), kind, log')
      && Distinct(log')
      && Receivers(log') == Receivers(log) + {x}
  {
    var log', r' := log + [Allocation(x, amount)], AddResourcesAt(r, x, kind, IntCast(amount));
    forall y | y in Receivers(log)
      ensures y in Receivers(log')
    {
      var i :| 0 <= i < |log| && log[i].island == y;
      assert log'[i] == log[i];
    }
    assert log'[|log|].island == x;
    forall y | y in Receivers(log')
      ensures y in Receivers(log) + {x}
    {
      var i :| 0 <= i < |log'| && log'[i].island == y;
      if i < |log| {
        assert log'[i] == log[i];
      }
    }
    forall i | 0 <= i < |log'|
      ensures log'[i].island in sea.islands && r'.islands[log'[i].island] == AddResources(sea.islands[log'[i].island], kind, IntCast(log'[i].amount))
    {
      if i < |log| {
        assert log'[i] == log[i];
        assert log[i].island in Receivers(log);
      }
    }
    forall i, j | 0 <= i < j < |log'|
      ensures log'[i].island != log'[j].island
    {
      if j == |log| {
        assert log[i].island in Receivers(log);
      }
    }
  }

  /** A handout of min(what is left, capacity) keeps every handout greedy. */
  lemma GreedyStep(log: seq<Allocation>, pool: int, caps: map<Name, int>, x: Name)
    requires Greedy(log, pool, caps) && x in caps
    ensures var a := Allocation(x, Min(pool - Total(log), caps[x]));
      Greedy(log + [a], pool, caps) && Total(log + [a]) == Total(log) + a.amount
  {
    var a := Allocation(x, Min(pool - Total(log), caps[x]));
    TotalAppend(log, a);
    assert (log + [a])[..|log|] == log;
  }

  /** The state of the allocation loop: the sea so far, the handouts so far, what is left. */
  datatype Ledger = Ledger(sea: Sea, log: seq<Allocation>, available: int)

  /**
   * What the allocation loop keeps after visiting the islands in `done`:
   * handouts went to visited islands other than the source, each positive
   * and within capacity and greedy; what is left is the pool minus the
   * handouts; a visited island that got nothing had no capacity or came
   * when nothing was left.
   */
  ghost predicate Accounted(sea: Sea, source: Name, kind: Name, caps: map<Name, int>, pool: int, done: set<Name>, l: Ledger) {
    && Booked(sea, kind, caps, pool, l)
    && Served(source, caps, done, l)
  }

  /** The handouts are delivered, distinct and greedy, and `available` is what is left of `pool`. */
  ghost predicate Booked(sea: Sea, kind: Name, caps: map<Name, int>, pool: int, l: Ledger) {
    && l.available == pool - Total(l.log)
    && (l.log != [] ==> l.available >= 0)
    && Delivered(sea, l.sea, kind, l.log) && Distinct(l.log)
    && Greedy(l.log, pool, caps)
  }

  /** Handouts went to visited islands only; a visited island without one had no capacity or came too late. */
  ghost predicate Served(source: Name, caps: map<Name, int>, done: set<Name>, l: Ledger) {
    && (forall i :: 0 <= i < |l.log| ==> l.log[i].island in done && l.log[i].island != source && l.log[i].island in caps && 0 < l.log[i].amount <= caps[l.log[i].island])
    && (forall x :: x in done && x != source && x !in Receivers(l.log) ==> x in caps && (caps[x] <= 0 || l.available <= 0))
  }

  /** Handing min(what is left, capacity) to a new island, when positive, keeps the books. */
  lemma HandOutBooked(sea: Sea, kind: Name, caps: map<Name, int>, pool: int, l: Ledger, x: Name)
    requires x in sea.islands && x in caps && x !in Receivers(l.log)
    requires Booked(sea, kind, caps, pool, l)
    requires 0 < Min(l.available, caps[x])
    ensures var amount := Min(l.available, caps[x]);
      var log' := l.log + [Allocation(x, amount)];
      && Booked(sea, kind, caps, pool, Ledger(AddResourcesAt(l.sea, x, kind, IntCast(amount)), log', l.available - amount))
      && Receivers(log') == Receivers(l.log) + {x}
  {
    var amount := Min(l.available, caps[x]);
    DeliverStep(sea, l.sea, kind, l.log, x, amount);
    GreedyStep(l.log, pool, caps, x);
  }

  /** Handing a positive amount within capacity to an unvisited island keeps everyone served. */
  lemma HandOutServed(source: Name, caps: map<Name, int>, done: set<Name>, l: Ledger, x: Name, amount: int, l': Ledger)
    requires x in caps && x !in done && x != source && 0 < amount <= caps[x]
    requires Served(source, caps, done, l)
    requires l'.log == l.log + [Allocation(x, amount)] && Receivers(l'.log) == Receivers(l.log) + {x}
    requires l'.available <= l.available
    ensures Served(source, caps, done + {x}, l')
  {
    assert forall i :: 0 <= i < |l.log| ==> l'.log[i] == l.log[i];
  }

  /** A positive handout to an unvisited island keeps the account. */
  lemma HandOutKeeps(sea: Sea, source: Name, kind: Name, caps: map<Name, int>, pool: int, done: set<Name>, l: Ledger, x: Name)
    requires x in sea.islands && x in caps && x !in done && x != source
    requires Accounted(sea, source, kind, caps, pool, done, l)
    requires 0 < Min(l.available, caps[x])
    ensures var amount := Min(l.available, caps[x]);
      Accounted(sea, source, kind, caps, pool, done + {x},
        Ledger(AddResourcesAt(l.sea, x, kind, IntCast(amount)), l.log + [Allocation(x, amount)], l.available - amount))
  {
    var amount := Min(l.available, caps[x]);
    var l' := Ledger(AddResourcesAt(l.sea, x, kind, IntCast(amount)), l.log + [Allocation(x, amount)], l.available - amount);
    assert x !in Receivers(l.log);
    HandOutBooked(sea, kind, caps, pool, l, x);
    HandOutServed(source, caps, done, l, x, amount, l');
  }

  /** One round of the allocation loop: the visit of `islandName`. */
  method Visit(sea: Sea, source: Name, kind: Name, caps: map<Name, int>, pool: int, done: set<Name>, l: Ledger, islandName: Name)
    returns (l': Ledger)
    requires islandName in sea.islands && islandName in caps && islandName !in done
    requires Accounted(sea, source, kind, caps, pool, done, l)
    ensures Accounted(sea, source, kind, caps, pool, done + {islandName}, l')
  {
    if islandName == source {
      return l;
    }
    var pathCapacity := caps[islandName];
    var amountToAllocate := Min(l.available, pathCapacity);
    if amountToAllocate > 0 {
      HandOutKeeps(sea, source, kind, caps, pool, done, l, islandName);
      l' := Ledger(AddResourcesAt(l.sea, islandName, kind, IntCast(amountToAllocate)),
                   l.log + [Allocation(islandName, amountToAllocate)],
                   l.available - amountToAllocate);
    } else {
      l' := l;
    }
  }

  /** Nothing visited, nothing handed out: the account holds. */
  lemma AccountOpens(sea: Sea, source: Name, kind: Name, caps: map<Name, int>, pool: int)
    ensures Accounted(sea, source, kind, caps, pool, {}, Ledger(sea, [], pool))
  {
    assert Receivers([]) == {};
  }

  /**
   * The outcome of the allocation loop over the islands `visited`, handing
   * out of `pool`: every handout is delivered, went to a distinct visited
   * island other than the source, is positive, within that island's
   * capacity and greedy; together they never exceed the pool; and a visited
   * island that got nothing had no capacity or came when the pool was spent.
   */
  ghost predicate Allocated(sea: Sea, source: Name, kind: Name, caps: map<Name, int>, pool: int, visited: set<Name>, r: Sea, log: seq<Allocation>) {
    && Delivered(sea, r, kind, log) && Distinct(log) && Greedy(log, pool, caps)
    && (forall i :: 0 <= i < |log| ==> log[i].island in visited && log[i].island != source && log[i].island in caps && 0 < log[i].amount <= caps[log[i].island])
    && (log != [] ==> Total(log) <= pool)
    && (forall x :: x in visited && x != source && x !in Receivers(log) ==> x in caps && (caps[x] <= 0 || Total(log) >= pool))
  }

  /** What the account says once every recorded island has been visited. */
  lemma AccountCloses(sea: Sea, source: Name, kind: Name, caps: map<Name, int>, pool: int, done: set<Name>, l: Ledger)
    requires Accounted(sea, source, kind, caps, pool, done, l)
    ensures Allocated(sea, source, kind, caps, pool, done, l.sea, l.log)
  {
  }

  /**
   * The allocation loop of distributeResource over the recorded islands in
   * any order: the source is skipped; every other island gets
   * min(what is left, its capacity) when that is positive.
   */
  method Allocate(sea: Sea, source: Name, kind: Name, dist: map<Name, nat>, caps: map<Name, int>)
    returns (r: Sea, log: seq<Allocation>)
    requires source in sea.islands && kind in sea.islands[source].resources
    requires dist.Keys <= sea.islands.Keys && dist.Keys <= caps.Keys
    ensures Allocated(sea, source, kind, caps, sea.islands[source].resources[kind], dist.Keys, r, log)
  {
    var pool := sea.islands[source].resources[kind];
    var l := Ledger(sea, [], pool);
    AccountOpens(sea, source, kind, caps, pool);
    var todo, done := dist.Keys, {};
    while todo != {}
      invariant todo <= dist.Keys && done <= dist.Keys && todo !! done
      invariant forall x :: x in dist ==> x in todo || x in done
      invariant Accounted(sea, source, kind, caps, pool, done, l)
      decreases todo
    {
      var islandName :| islandName in todo;
      l := Visit(sea, source, kind, caps, pool, done, l, islandName);
      todo, done := todo - {islandName}, done + {islandName};
    }
    assert done == dist.Keys;
    AccountCloses(sea, source, kind, caps, pool, done, l);
    r, log := l.sea, l.log;
  }

  /** Every island that `prev` points back to is an island of the sea. */
  ghost predicate PrevInSea(sea: Sea, prev: map<Name, Name>) {
    forall k :: k in prev ==> prev[k] in sea.islands
  }

  /**
   * The capacities as the source computes them: for each recorded island,
   * getPathCapacity called with the island's name as `source` and the
   * resource kind as `target`, and routes looked up by name.
   */
  function WrittenCapacities(sea: Sea, prev: map<Name, Name>, dist: map<Name, nat>, kind: Name): (caps: map<Name, int>)
    requires PrevInSea(sea, prev)
    ensures caps.Keys == dist.Keys
    ensures forall x :: x in caps ==> caps[x] == 0
  {
    map x | x in dist :: ByNameCapacityIsZero(sea, prev, x, kind); GetPathCapacity(sea, prev, x, kind, ByName)
  }

  /** With no capacity anywhere the allocation loop hands out nothing and leaves the sea as it was. */
  lemma NoCapacityNoHandout(sea: Sea, source: Name, kind: Name, caps: map<Name, int>, pool: int, visited: set<Name>, r: Sea, log: seq<Allocation>)
    requires Allocated(sea, source, kind, caps, pool, visited, r, log)
    requires forall x :: x in caps ==> caps[x] == 0
    ensures log == [] && r == sea
  {
    assert r.islands == sea.islands;
  }

  /** The predecessors recorded as written all point back to the source. */
  lemma WrittenPrevInSea(sea: Sea, source: Name)
    requires WellFormed(sea) && source in sea.islands
    ensures PrevInSea(sea, WrittenPrev(sea, source))
    ensures WrittenDist(sea, source).Keys <= sea.islands.Keys
  {
    assert IslandFits(sea, source);
  }

  /**
   * distributeResource as written. Only the source is ever expanded, every
   * path capacity comes out 0, and so nothing is handed out and the sea is
   * unchanged, whatever the sea, source and resource.
   */
  method DistributeResource(sea: Sea, source: Name, kind: Name) returns (r: Sea, log: seq<Allocation>)
    requires WellFormed(sea) && source in sea.islands && kind in sea.islands[source].resources
    ensures log == [] && r == sea
  {
    var dist, prev := RelaxAsWritten(sea, source);
    WrittenPrevInSea(sea, source);
    var caps := WrittenCapacities(sea, prev, dist, kind);
    r, log := Allocate(sea, source, kind, dist, caps);
    NoCapacityNoHandout(sea, source, kind, caps, sea.islands[source].resources[kind], dist.Keys, r, log);
  }

  /** Every step of `p` is a route that takes at least `amount`. */
  ghost predicate Carries(sea: Sea, p: seq<Name>, amount: int) {
    forall i :: 0 <= i < |p| - 1 ==> IsRoute(sea, p[i], p[i + 1]) && amount <= Weight(sea, p[i], p[i + 1])
  }

  /** `a` travels from `source` along a walk without repeats each of whose steps takes at least `a.amount`. */
  ghost predicate ShippedAlong(sea: Sea, source: Name, a: Allocation) {
    exists p :: WalkFromTo(sea, p, source, a.island) && NoRepeats(p) && Carries(sea, p, a.amount)
  }

  /** `x` is reached from `source` along a walk without repeats one of whose steps takes no time. */
  ghost predicate Choked(sea: Sea, source: Name, x: Name) {
    exists p :: WalkFromTo(sea, p, source, x) && NoRepeats(p) &&
      exists i :: 0 <= i < |p| - 1 && IsRoute(sea, p[i], p[i + 1]) && Weight(sea, p[i], p[i + 1]) <= 0
  }

  /** `c` is the bottleneck of `p`: every step is a route taking at least `c`, and some step takes less than `c + 1`. */
  ghost predicate Bottleneck(sea: Sea, p: seq<Name>, c: int) {
    Carries(sea, p, c) && !Carries(sea, p, c + 1)
  }

  /** `c` is the bottleneck of some walk without repeats from `source` to `x`. */
  ghost predicate WalkCapacity(sea: Sea, source: Name, x: Name, c: int) {
    exists p :: WalkFromTo(sea, p, source, x) && NoRepeats(p) && Bottleneck(sea, p, c)
  }

  /** Read back from `x`, a traced path has a route at every step. */
  lemma TracedLegs(sea: Sea, prev: map<Name, Name>, source: Name, x: Name, i: int)
    requires TracesBack(sea, prev, source, x)
    requires 0 <= i < |Backtrack(prev, x, {source})| - 1
    ensures var w := Backtrack(prev, x, {source});
      IsRoute(sea, w[i + 1], w[i]) && Reverse(w)[|w| - 2 - i] == w[i + 1] && Reverse(w)[|w| - 1 - i] == w[i]
  {
    var w := Backtrack(prev, x, {source});
    assert RouteAt(sea, Reverse(w), |w| - 2 - i);
  }

  /**
   * The capacity of a traced path to another island, routes looked up by
   * island, is exactly the bottleneck of that path.
   */
  lemma TracedBottleneck(sea: Sea, prev: map<Name, Name>, source: Name, x: Name)
    requires PrevInSea(sea, prev) && TracesBack(sea, prev, source, x) && x != source
    ensures Bottleneck(sea, Reverse(Backtrack(prev, x, {source})), GetPathCapacity(sea, prev, source, x, ByIsland))
  {
    var w := Backtrack(prev, x, {source});
    var p := Reverse(w);
    var c := GetPathCapacity(sea, prev, source, x, ByIsland);
    forall k | 0 <= k < |p| - 1
      ensures IsRoute(sea, p[k], p[k + 1]) && c <= Weight(sea, p[k], p[k + 1])
    {
      var i := |w| - 2 - k;
      TracedLegs(sea, prev, source, x, i);
      ByIslandCapacityIsBottleneck(sea, prev, source, x, i);
    }
    assert |w| >= 2 by {
      assert p[0] == source && p[|p| - 1] == x;
    }
    TracedLegs(sea, prev, source, x, 0);
    assert FoundAt(sea, w, ByIsland, 0, Weight(sea, w[1], w[0]));
    var i :| FoundAt(sea, w, ByIsland, i, c);
    TracedLegs(sea, prev, source, x, i);
    assert Weight(sea, p[|w| - 2 - i], p[|w| - 1 - i]) == c;
  }

  lemma TracedBottlenecks(sea: Sea, prev: map<Name, Name>, source: Name)
    requires PrevInSea(sea, prev)
    ensures forall x :: x != source && TracesBack(sea, prev, source, x) ==>
      Bottleneck(sea, Reverse(Backtrack(prev, x, {source})), GetPathCapacity(sea, prev, source, x, ByIsland))
  {
    forall x | x != source && TracesBack(sea, prev, source, x)
      ensures Bottleneck(sea, Reverse(Backtrack(prev, x, {source})), GetPathCapacity(sea, prev, source, x, ByIsland))
    {
      TracedBottleneck(sea, prev, source, x);
    }
  }

  /**
   * The capacities as intended: getPathCapacity from the source to each
   * recorded island, routes looked up by island. For an island the
   * predecessors trace back to, that is the bottleneck of the traced path.
   */
  function FixedCapacities(sea: Sea, prev: map<Name, Name>, dist: map<Name, nat>, source: Name): (caps: map<Name, int>)
    requires PrevInSea(sea, prev)
    ensures caps.Keys == dist.Keys
    ensures forall x :: x in caps && x != source && TracesBack(sea, prev, source, x) ==>
      Bottleneck(sea, Reverse(Backtrack(prev, x, {source})), caps[x])
  {
    TracedBottlenecks(sea, prev, source);
    map x | x in dist :: GetPathCapacity(sea, prev, source, x, ByIsland)
  }

  /** An amount within the capacity of a traced path travels along that path. */
  lemma ShippedWithinCapacity(sea: Sea, prev: map<Name, Name>, source: Name, x: Name, amount: int)
    requires PrevInSea(sea, prev) && TracesBack(sea, prev, source, x)
    requires amount <= GetPathCapacity(sea, prev, source, x, ByIsland)
    ensures ShippedAlong(sea, source, Allocation(x, amount))
  {
    var p := Reverse(Backtrack(prev, x, {source}));
    if x != source {
      TracedBottleneck(sea, prev, source, x);
    } else {
      assert Backtrack(prev, x, {source}) == [x];
    }
    assert WalkFromTo(sea, p, source, x) && NoRepeats(p) && Carries(sea, p, amount);
  }

  /** A traced path to another island whose capacity is not positive has a step that takes no time. */
  lemma ChokedWithoutCapacity(sea: Sea, prev: map<Name, Name>, source: Name, x: Name)
    requires PrevInSea(sea, prev) && TracesBack(sea, prev, source, x) && x != source
    requires GetPathCapacity(sea, prev, source, x, ByIsland) <= 0
    ensures Choked(sea, source, x)
  {
    var p, c := Reverse(Backtrack(prev, x, {source})), GetPathCapacity(sea, prev, source, x, ByIsland);
    TracedBottleneck(sea, prev, source, x);
    assert WalkFromTo(sea, p, source, x) && NoRepeats(p) && Bottleneck(sea, p, c);
    ChokedWalk(sea, source, x, c);
  }

  /**
   * An amount within the bottleneck of a walk travels along that walk:
   * `ShippedWithinCapacity` restated for any walk rather than the traced one.
   */
  lemma ShippedWithinWalk(sea: Sea, source: Name, a: Allocation, c: int)
    requires WalkCapacity(sea, source, a.island, c) && a.amount <= c
    ensures ShippedAlong(sea, source, a)
  {
  }

  /**
   * A walk whose bottleneck is not positive has a step that takes no time:
   * `ChokedWithoutCapacity` restated for any walk rather than the traced one.
   */
  lemma ChokedWalk(sea: Sea, source: Name, x: Name, c: int)
    requires WalkCapacity(sea, source, x, c) && c <= 0
    ensures Choked(sea, source, x)
  {
    var p :| WalkFromTo(sea, p, source, x) && NoRepeats(p) && Bottleneck(sea, p, c);
    var k :| 0 <= k < |p| - 1 && !(IsRoute(sea, p[k], p[k + 1]) && c + 1 <= Weight(sea, p[k], p[k + 1]));
  }

  /** With every recorded island traced back, each intended capacity is the bottleneck of a walk to it. */
  lemma FixedCapacitiesOfWalks(sea: Sea, source: Name, dist: map<Name, nat>, prev: map<Name, Name>)
    requires PrevInSea(sea, prev)
    requires forall x :: x in dist ==> TracesBack(sea, prev, source, x)
    ensures var caps := FixedCapacities(sea, prev, dist, source);
      forall x :: x in caps && x != source ==> WalkCapacity(sea, source, x, caps[x])
  {
    var caps := FixedCapacities(sea, prev, dist, source);
    forall x | x in caps && x != source
      ensures WalkCapacity(sea, source, x, caps[x])
    {
      var p := Reverse(Backtrack(prev, x, {source}));
      assert WalkFromTo(sea, p, source, x) && NoRepeats(p) && Bottleneck(sea, p, caps[x]);
    }
  }

  /** Islands reached from the source are islands of the sea. */
  lemma ReachedInSea(sea: Sea, source: Name, dist: map<Name, nat>, prev: map<Name, Name>)
    requires forall x :: x in dist <==> Reachable(sea, source, x)
    requires forall k :: k in prev ==> prev[k] in dist
    ensures dist.Keys <= sea.islands.Keys && PrevInSea(sea, prev)
  {
    forall x | x in dist
      ensures x in sea.islands
    {
      var p :| WalkFromTo(sea, p, source, x);
      assert p[|p| - 1] in sea.islands;
    }
  }

  /**
   * Handouts within the bottleneck of a walk travel along it, and an island
   * left out without positive capacity has a step that takes no time.
   */
  lemma AllocatedAlongWalks(sea: Sea, source: Name, kind: Name, caps: map<Name, int>, pool: int, r: Sea, log: seq<Allocation>)
    requires Allocated(sea, source, kind, caps, pool, caps.Keys, r, log)
    requires forall x :: x in caps && x != source ==> WalkCapacity(sea, source, x, caps[x])
    ensures source in sea.islands ==> r.islands[source] == sea.islands[source]
    ensures forall i :: 0 <= i < |log| ==> ShippedAlong(sea, source, log[i])
    ensures forall x :: x in caps && x != source && x !in Receivers(log) ==> Choked(sea, source, x) || Total(log) >= pool
  {
    assert source !in Receivers(log);
    forall i | 0 <= i < |log|
      ensures ShippedAlong(sea, source, log[i])
    {
      ShippedWithinWalk(sea, source, log[i], caps[log[i].island]);
    }
    forall x | x in caps && x != source && x !in Receivers(log)
      ensures Choked(sea, source, x) || Total(log) >= pool
    {
      if caps[x] <= 0 {
        ChokedWalk(sea, source, x, caps[x]);
      }
    }
  }

  /**
   * distributeResource as evidently intended: full relaxation, capacities
   * from the source to each island, routes looked up by island. `caps` are
   * the capacities the loop computes: one for every island reachable from
   * the source, each the bottleneck of a walk without repeats to it. Every
   * handout goes to another island, once, and is min(what is left, its
   * capacity), so it travels along a walk that carries it; together they
   * stay within the source's stock; a reachable island that got nothing
   * has no positive capacity, so a step on its walk takes no time, or came
   * when the stock was spent.
   */
  method DistributeResourceFixed(sea: Sea, source: Name, kind: Name) returns (r: Sea, log: seq<Allocation>, caps: map<Name, int>)
    requires WellFormed(sea) && source in sea.islands && kind in sea.islands[source].resources
    ensures forall x :: x in caps <==> Reachable(sea, source, x)
    ensures forall x :: x in caps && x != source ==> WalkCapacity(sea, source, x, caps[x])
    ensures Delivered(sea, r, kind, log) && Distinct(log)
    ensures Greedy(log, sea.islands[source].resources[kind], caps)
    ensures r.islands[source] == sea.islands[source]
    ensures forall i :: 0 <= i < |log| ==> log[i].island != source && 0 < log[i].amount && ShippedAlong(sea, source, log[i])
    ensures log != [] ==> Total(log) <= sea.islands[source].resources[kind]
    ensures forall x :: x in caps && x != source && x !in Receivers(log) ==>
      caps[x] <= 0 || Total(log) >= sea.islands[source].resources[kind]
    ensures forall x :: Reachable(sea, source, x) && x != source && x !in Receivers(log) ==>
      Choked(sea, source, x) || Total(log) >= sea.islands[source].resources[kind]
  {
    var dist, prev := RelaxStrict(sea, source);
    ReachedInSea(sea, source, dist, prev);
    caps := FixedCapacities(sea, prev, dist, source);
    FixedCapacitiesOfWalks(sea, source, dist, prev);
    r, log := Allocate(sea, source, kind, dist, caps);
    AllocatedAlongWalks(sea, source, kind, caps, sea.islands[source].resources[kind], r, log);
  }

  /** On `Pair()` every walk without repeats from "A" to "B" is the single route between them. */
  lemma PairWalk(p: seq<Name>)
    requires WalkFromTo(Pair(), p, "A", "B")
    ensures p == ["A", "B"]
  {
    assert |p| >= 2;
    assert RouteAt(Pair(), p, 0);
    assert p[1] == "B" && !RouteAt(Pair(), p, 1);
  }

  /**
   * On `Pair()` the corrected capacity of "B" can only be the travel time 5
   * of its route, so the greedy handout of 10 gold gives "B" exactly 5.
   */
  lemma PairHandsOutFive(caps: map<Name, int>, log: seq<Allocation>)
    requires "B" in caps && WalkCapacity(Pair(), "A", "B", caps["B"])
    requires Greedy(log, 10, caps) && |log| == 1 && log[0].island == "B"
    ensures caps["B"] == 5 && log == [Allocation("B", 5)]
  {
    var p :| WalkFromTo(Pair(), p, "A", "B") && NoRepeats(p) && Bottleneck(Pair(), p, caps["B"]);
    PairWalk(p);
    assert log[..0] == [];
  }

  /**
   * Passing the island's name as `source` and the resource kind as `target`
   * walks back from the resource kind, which no predecessor map knows, so
   * the capacity is 0 even with routes looked up by island; in the intended
   * order it is 5.
   */
  lemma SwappedArgumentsMiss()
    ensures GetPathCapacity(Pair(), map["B" := "A"], "B", "gold", ByIsland) == 0
    ensures GetPathCapacity(Pair(), map["B" := "A"], "A", "B", ByIsland) == 5
  {
    var prev := map["B" := "A"];
    assert CapacityWalk(prev, "B", "gold") == ["gold"];
    LookupByNameMisses();
  }
}
