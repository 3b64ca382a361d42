# Sea of islands, modelled in Dafny

This project models the core of a small Java program about a "sea of islands".
It is a directed weighted graph of named islands. Each island has a population,
routes to other islands (a travel time each) and a stock of resources. Two
algorithms work on the graph:

- `KnowledgeSharing.findShortestPath` relaxes routes from a start island until
  the end island leaves the priority queue. `constructPath` then rebuilds the
  path from the recorded predecessors. The queue is ordered by island
  **population**, not by distance travelled. So the result is a valid route path
  that exists exactly when the end is reachable, but it is not necessarily the
  cheapest path. The model claims no minimality.
- `ResourceDistribution.distributeResource` relaxes distances from a source
  island. It then hands out the source's stock of one resource to the other
  recorded islands. Each island gets at most the capacity of its path: the
  smallest travel time on the predecessor walk, computed by `getPathCapacity`.

Modules, one per concept:

| file | module | what |
|---|---|---|
| `wrappers.dfy` | `Wrappers` | `Option`, Java's `null` |
| `islands.dfy` | `Islands` | `Sea`, `Island`, `addIsland`, `addRoute`, `getIsland`, `addResources`, 32-bit `int` wrap-around |
| `routes.dfy` | `Routes` | routes, walks, walk cost, reachability |
| `predecessors.dfy` | `Predecessors` | walking a predecessor map back; acyclicity through ghost stamps; the termination measure |
| `knowledge_sharing.dfy` | `KnowledgeSharing` | `findShortestPath`, `getDistance`, `constructPath` |
| `node_distance.dfy` | `NodeDistances` | `NodeDistance` and `compareTo` |
| `path_capacity.dfy` | `PathCapacity` | `getPathCapacity`, with the route lookup as a parameter |
| `resource_relaxation.dfy` | `ResourceRelaxation` | the relaxation loop of `distributeResource`, as written and corrected |
| `resource_distribution.dfy` | `ResourceDistribution` | the allocation loop and `distributeResource`, as written and corrected |

Modelling choices:

- Islands are identified by name.
  - A Java route map keyed by `Island` objects becomes a map from destination name to travel time.
- Travel times and distances are integers rather than `double`s.
  - Infinity (`Double.POSITIVE_INFINITY`, `Double.MAX_VALUE`) is a key absent from the distance map.
- Resource quantities are Java `int`s. `addResources` takes a 32-bit quantity and wraps around at 32 bits (`Wrap32`). The amount handed to it goes through Java's saturating `(int)` cast (`IntCast`).
- A priority queue is a multiset. `poll` hands out any entry that no other entry precedes, so every property holds whichever minimum is chosen.
- HashMap iteration visits the keys in an arbitrary order (`:|` over the keys not yet visited).
- A walk along predecessors is a total function: it stops at the stop island, at an island without predecessor, or at the first repeated island.
  - In Java a cycle would loop forever, so where the source can diverge the model is not faithful.
  - The corrected algorithms are proved never to build a cycle.
- `getPathCapacity` takes the route lookup as a parameter (`Probe`): `ByName` as written, `ByIsland` as intended. This makes it possible to state both the as-written behaviour and the intended bottleneck bound.
- Everything is defined for a well-formed sea (`Islands.WellFormed`):
  - every island is stored under its own name;
  - every route leads to an island of the sea;
  - no travel time is negative.

  Without this, the Java code dereferences `null` or loses the meaning of a shortest distance.

## Model

| member | source | states |
|---|---|---|
| Islands.Wrap32 | src/sea.java:58 | Java `int` addition: the result is in the 32-bit range, congruent to the exact sum modulo 2^32, and equal to it when no overflow happens |
| Islands.IntCast | src/ResourceDistribution.java:56 | Java's `(int)` cast: a value in the 32-bit range is unchanged; a value above or below it saturates at `INT_MAX` or `INT_MIN` |
| Islands.GetIsland | src/sea.java:26-28 | returns the island stored under the name exactly when the name is present, and `None` (null) otherwise |
| Islands.EmptySeaWellFormed | src/sea.java:8-10 | `new Sea()` (`EmptySea`): a fresh sea finds no island under any name and is well formed |
| Islands.AddIsland | src/sea.java:13-15 | maps the name to a fresh island with that name and population and no routes or resources, replacing any earlier island of that name; every other name is looked up as before |
| Islands.AddRoute | src/sea.java:18-24 | a no-op when either endpoint is missing; otherwise only the `from` island changes, and only in its route to `to`, which is set to the travel time; no reverse route appears; name, population and resources stay |
| Islands.AddResources | src/sea.java:55-63 | given a 32-bit `int` quantity, a present kind grows by the quantity with 32-bit wrap-around; a missing kind starts at the quantity; other kinds, the name, population and routes are unchanged |
| Islands.AddResourcesAt | src/sea.java:55-63 | applies `addResources` to the island stored under a name and to no other island |
| Islands.AddResourcesTwice | src/sea.java:55-63 | adding `a` then `b` of one kind equals adding their 32-bit sum once |
| Islands.AddIslandPreservesWellFormed | src/sea.java:13-15 | adding an island keeps every island under its own name and every route inside the sea |
| Islands.AddRoutePreservesWellFormed | src/sea.java:18-24 | adding a route with non-negative travel time keeps the sea well formed; no island's name changes |
| Islands.AddResourcesPreservesWellFormed | src/sea.java:55-63 | adding resources changes no name and no route |
| Routes.Reverse | src/KnowledgeSharing.java:71 | `Collections.reverse`: the result has the same length, and position `i` holds what stood at position `|s| - 1 - i` |
| Routes.ReverseIsWalk | src/KnowledgeSharing.java:66-72 | a sequence that runs against the routes, reversed, is a walk along the routes |
| Predecessors.Backtrack | src/KnowledgeSharing.java:66-70 | the predecessor walk starts at the given island, each step follows the recorded predecessor, and it stops only at a stop island, at an island without predecessor, or on a repeat |
| Predecessors.PathFromRoot | src/KnowledgeSharing.java:49-51 | in a predecessor forest built by strict relaxation, the walk back from a recorded island ends at the root, and reversed it is a walk from the root without repeated islands |
| Predecessors.DiscoveryCounts | src/ResourceDistribution.java:36-37 | recording a distance for a new island lowers the number of islands still without distance |
| KnowledgeSharing.PriorityKey | src/KnowledgeSharing.java:61-63 | `getDistance`: the queue key of an island is its population, not the distance travelled to it; this ordering is why `FindShortestPath` makes no claim to the cheapest path |
| KnowledgeSharing.QueueHasFirst | src/KnowledgeSharing.java:22 | a non-empty population-keyed queue always has an island that `poll` may hand out |
| KnowledgeSharing.ConstructPath | src/KnowledgeSharing.java:66-73 | the rebuilt path ends at the end island; each island in it is the recorded predecessor of the next; its first island has no predecessor unless the chain repeats |
| KnowledgeSharing.Relax | src/KnowledgeSharing.java:46-53 | when the candidate `newDist` beats the recorded distance (or there is none), the neighbour's distance becomes exactly that candidate, its predecessor the current island, and it is pushed on the queue; otherwise nothing changes; no other distance changes |
| KnowledgeSharing.RelaxKeepsSearchInv | src/KnowledgeSharing.java:46-53 | relaxing one route keeps the search invariant: every recorded distance is the cost of a walk from the start, and predecessors form an acyclic forest of routes |
| KnowledgeSharing.RelaxProgresses | src/KnowledgeSharing.java:49-52 | an improving relaxation lowers the termination measure (islands still without distance, then the sum of distances) |
| KnowledgeSharing.RelaxRoutes | src/KnowledgeSharing.java:43-54 | relaxing every route of the polled island, in any order, keeps the search invariant and leaves the island with all neighbours recorded |
| KnowledgeSharing.DrainedMeansUnreachable | src/KnowledgeSharing.java:34-57 | when the queue drains without polling the end island, the end island is not reachable from the start |
| KnowledgeSharing.FoundPathIsWalk | src/KnowledgeSharing.java:38-39 | when the end island is polled, the rebuilt path is a route walk from start to end without repeated islands, and it is just the start when start and end coincide |
| KnowledgeSharing.FindShortestPath | src/KnowledgeSharing.java:11-58 | empty when an island is unknown; `[start]` when start equals end; otherwise a route walk from start to end without repeats; non-empty exactly when the end is reachable |
| NodeDistances.Compare | src/ResourceDistribution.java:105 | `Double.compare` on non-NaN values: the sign of the difference |
| NodeDistances.CompareTo | src/ResourceDistribution.java:102-109 | negative exactly when this entry comes first (a smaller distance, or an equal distance and a larger capacity); positive exactly when the other comes first; zero exactly when both keys agree |
| NodeDistances.CompareToAntisymmetric | src/ResourceDistribution.java:102-109 | swapping the operands negates the result |
| NodeDistances.CompareToTransitive | src/ResourceDistribution.java:102-109 | the order is transitive, strictly so when one step is strict |
| NodeDistances.QueueHasHead | src/ResourceDistribution.java:18-19 | a non-empty queue always has an entry that `poll` may hand out |
| NodeDistances.PolledHasLeastDistance | src/ResourceDistribution.java:19 | the polled entry carries the smallest distance in the queue |
| PathCapacity.RouteLookup | src/ResourceDistribution.java:78 | looked up by name, the Island-keyed route map never finds anything; looked up by island, it finds exactly the existing route and its travel time |
| PathCapacity.Narrow | src/ResourceDistribution.java:80-82 | a found travel time narrows the capacity to at most that value and at most the old capacity; nothing found leaves it unchanged |
| PathCapacity.Accumulate | src/ResourceDistribution.java:74-85 | the capacity accumulated from a step on is at most every travel time found from there on, and equals the starting capacity or one of those travel times |
| PathCapacity.CapacityWalk | src/ResourceDistribution.java:73-85 | the walk starts at the target, follows predecessors, and stops at the source, at an island without predecessor, or on a repeat |
| PathCapacity.GetPathCapacity | src/ResourceDistribution.java:70-88 | the result is at most every travel time found on the walk; it is one of them whenever one is found, and 0 when none is |
| PathCapacity.ByNameCapacityIsZero | src/ResourceDistribution.java:78-87 | as written, the lookup by name never hits, so the capacity is always 0 |
| PathCapacity.SameEndsCapacityIsZero | src/ResourceDistribution.java:71-74 | when source and target coincide, the loop never runs and the capacity is 0 |
| PathCapacity.CapacityNonNegative | src/ResourceDistribution.java:87 | with non-negative travel times the capacity is never negative |
| PathCapacity.ByIslandCapacityIsBottleneck | src/ResourceDistribution.java:78-82 | looked up by island, the capacity is at most the travel time of every step of the walk that is a route |
| PathCapacity.LookupByNameMisses | src/ResourceDistribution.java:78 | on a single route of travel time 5, the lookup by name yields capacity 0, while the lookup by island yields 5 |
| ResourceRelaxation.ExpandedDistFacts | src/ResourceDistribution.java:30-40 | expanding routes adds exactly the expanded destinations, never raises a distance, leaves no expanded route shorter, and stores only old values or distance plus travel time |
| ResourceRelaxation.ExpandRoutes | src/ResourceDistribution.java:29-41 | the inner loop, in any route order, ends with the distances, predecessors and queue pushes of the strict `<` update applied to every route of the current island |
| ResourceRelaxation.PollStale | src/ResourceDistribution.java:22-23 | skipping an entry above its island's distance keeps the queue sound and every island settled |
| ResourceRelaxation.ExpansionSettles | src/ResourceDistribution.java:26-41 | expanding the polled island leaves every recorded island either still queued at its distance or with no shorter route out |
| ResourceRelaxation.ExpansionKeepsForest | src/ResourceDistribution.java:36-38 | after an expansion, predecessors still form a forest of routes that descends strictly towards the source |
| ResourceRelaxation.StrictRound | src/ResourceDistribution.java:19-41 | one round of the corrected loop keeps the search invariant and lowers the termination measure |
| ResourceRelaxation.RelaxedIsOptimal | src/ResourceDistribution.java:18-42 | when no route can lower a distance, no walk from the source is cheaper than the distance recorded for its last island |
| ResourceRelaxation.RelaxStrict | src/ResourceDistribution.java:11-42 | the corrected relaxation records exactly the reachable islands, each at the cost of its cheapest walk; following predecessors back from each is a walk from the source without repeats |
| ResourceRelaxation.WrittenDist | src/ResourceDistribution.java:16-42 | as written, the distances end as: the source at 0 and each direct successor at its travel time, and nothing else |
| ResourceRelaxation.WrittenPrev | src/ResourceDistribution.java:36-38 | as written, the predecessors end as: the source for each direct successor, and nothing else |
| ResourceRelaxation.WrittenRound | src/ResourceDistribution.java:19-24 | as written, once every queued entry carries at least its island's distance, each poll is skipped and changes nothing but the queue |
| ResourceRelaxation.RelaxAsWritten | src/ResourceDistribution.java:11-42 | the relaxation as written ends with exactly those distances and predecessors, whatever the sea |
| ResourceRelaxation.WrittenMissesSecondHop | src/ResourceDistribution.java:22 | on routes A to B to C, the relaxation as written never records C, although C is reachable from A |
| ResourceDistribution.Min | src/ResourceDistribution.java:52 | `Math.min`: at most both arguments, and equal to one of them |
| ResourceDistribution.DeliverStep | src/ResourceDistribution.java:56 | handing an amount to a new island applies `addResources` with the `(int)` cast of the amount there and touches no other island |
| ResourceDistribution.GreedyStep | src/ResourceDistribution.java:52-55 | handing out min(what is left, capacity) keeps every handout greedy, and the total grows by exactly that amount |
| ResourceDistribution.HandOutKeeps | src/ResourceDistribution.java:52-57 | a positive handout to an island not yet visited keeps the books: the pool left is the initial stock minus the total, and never negative |
| ResourceDistribution.Visit | src/ResourceDistribution.java:47-58 | one round of the allocation loop: the source is skipped; another island gets min(what is left, capacity) when that is positive, and the account is kept |
| ResourceDistribution.Allocate | src/ResourceDistribution.java:44-59 | each handout goes once to a recorded island other than the source, is positive, within capacity and greedy; the total never exceeds the stock; an island left out had no capacity or came when the stock was spent |
| ResourceDistribution.WrittenCapacities | src/ResourceDistribution.java:51 | as written, with the island name passed as `source` and the resource kind as `target`, every capacity is 0 |
| ResourceDistribution.NoCapacityNoHandout | src/ResourceDistribution.java:52-54 | with no positive capacity, the allocation loop hands out nothing and leaves the sea as it was |
| ResourceDistribution.DistributeResource | src/ResourceDistribution.java:9-59 | as written, distributeResource hands out nothing and leaves every island unchanged, for every sea, source and resource |
| ResourceDistribution.SwappedArgumentsMiss | src/ResourceDistribution.java:51 | with swapped arguments the walk starts at the resource kind and the capacity is 0 even with a working lookup; in the intended order it is 5 |
| ResourceDistribution.FixedCapacities | src/ResourceDistribution.java:51 | the intended capacities: one per recorded island; for an island other than the source that the predecessors trace back to, exactly the bottleneck of the traced path (every step takes at least it, some step takes no more) |
| ResourceDistribution.TracedBottleneck | src/ResourceDistribution.java:70-87 | with routes looked up by island, `getPathCapacity` from the source to an island traced back to is exactly the bottleneck of the traced path |
| ResourceDistribution.FixedCapacitiesOfWalks | src/ResourceDistribution.java:51 | when every recorded island traces back to the source, each intended capacity is the bottleneck of a walk from the source without repeats |
| ResourceDistribution.ShippedWithinCapacity | src/ResourceDistribution.java:51-52 | an amount within the capacity of a traced path travels along a walk from the source without repeats, every step of which takes at least that amount |
| ResourceDistribution.ChokedWithoutCapacity | src/ResourceDistribution.java:51-54 | an island other than the source whose traced path has no positive capacity is reached along a walk with a step that takes no time |
| ResourceDistribution.ShippedWithinWalk | src/ResourceDistribution.java:51-52 | an amount within the bottleneck of a walk travels along that walk |
| ResourceDistribution.ChokedWalk | src/ResourceDistribution.java:51-54 | a walk whose bottleneck is not positive has a step that takes no time |
| ResourceDistribution.AllocatedAlongWalks | src/ResourceDistribution.java:44-59 | when each capacity is the bottleneck of a walk, every handout travels along a walk that carries it, the source is untouched, and an island left out is cut off by a zero-time step or came when the stock was spent |
| ResourceDistribution.DistributeResourceFixed | src/ResourceDistribution.java:9-59 | corrected: there is a capacity for exactly the reachable islands, each the bottleneck of a walk without repeats from the source; each handout goes once to another island and is min(what is left, its capacity), so it travels along a walk that carries it; the source is untouched; the total stays within its stock; a reachable island left out has no positive capacity (a zero-time step) or came when the stock was spent |
| ResourceDistribution.PairHandsOutFive | src/ResourceDistribution.java:51-56 | on two islands, A holding 10 gold with one route of travel time 5 to B, the corrected capacity of B is 5 and the greedy handout to B is exactly 5 |

## Left out

- The `main` demo methods: they only wire up examples. One of them calls an `addIsland(Island)` overload that does not exist.
- Console output and `NodeDistance.toString`. The "Allocated ..." message becomes one `Allocation` record per handout, in the returned log.
- Floating point:
  - travel times, distances and the resource pool are integers;
  - `Double.compare` is integer comparison;
  - the `(int)` cast of the amount only saturates at the 32-bit bounds, because every amount is an integer here.
- Java object identity. An island is its name.
  - Java diverges from this when an island is re-added under an existing name. Routes of other islands still point at the old `Island` object, while in the model they lead to the new one.
- The `null` dereferences are preconditions rather than modelled exceptions: a route to an island not in the sea, and a resource kind the source does not hold (unboxed at `ResourceDistribution.java:45`).
- `sourceIsland` is passed by name. The model uses the island stored under that name in the sea.
- HashMap and PriorityQueue internals, including the order in which they hand out entries. Every result is proved for every order.
- The `Island` getters are the datatype's fields. No operation changes an island's name; `WellFormed` keeps every island stored under its own name.
- KnowledgeSharing.FindShortestPath: does not claim the path is the cheapest, because the queue is ordered by population and the source does not guarantee that.
- KnowledgeSharing.ConstructPath: a predecessor chain with a cycle is cut at the first repeat, where the Java loop would not terminate. The search is proved never to build such a chain.
- PathCapacity.GetPathCapacity: a predecessor chain with a cycle is cut at the first repeat, where the Java loop would not terminate. The corrected relaxation is proved never to build such a chain; the one as written records only the source's direct routes.
- ResourceDistribution.Allocate: it takes the capacities computed beforehand. `getPathCapacity` reads only routes and predecessors, and `addResources` changes neither, so computing a capacity before or during the loop gives the same value.
- ResourceDistribution.DistributeResourceFixed: each capacity is stated to be the bottleneck of a walk without repeats from the source (the traced predecessor path), but not that this walk is a cheapest one. The distances are proved minimal (`RelaxStrict`), but the predecessor path is only proved to be a walk without repeats.

## Findings

| source | as written | input that shows it | evidently intended | confidence | as-written member | corrected member |
|---|---|---|---|---|---|---|
| src/ResourceDistribution.java:22 | an entry is skipped when its island's distance is `<=` the entry's distance; line 37 stores exactly that distance before pushing, so every entry but the source's is skipped and only the source is expanded | routes A to B to C, each of travel time 1, source A: C never gets a distance | skip only entries whose distance is strictly above the recorded one (`<`), so that each island is expanded at its own distance | not executed | ResourceRelaxation.WrittenMissesSecondHop | ResourceRelaxation.RelaxStrict |
| src/ResourceDistribution.java:78 | `getRoutes().get(currentIsland)` looks up a `String` in a map keyed by `Island`, and `Island` does not override `equals`, so the lookup always yields `null` and every capacity is 0 | route A to B of travel time 5, predecessor of B is A: capacity from A to B is 0 | look the route up by the destination island, giving capacity 5 | not executed | PathCapacity.LookupByNameMisses | PathCapacity.ByIslandCapacityIsBottleneck |
| src/ResourceDistribution.java:51 | `getPathCapacity(sea, previousNodes, islandName, resourceName)` passes the target island as `source` and the resource kind as `target`; the walk starts at the resource kind, which has no predecessor unless some recorded island bears the same name, so the capacity is 0 even with a working lookup | route A to B of travel time 5, predecessor of B is A, resource "gold": capacity 0 instead of 5 | `getPathCapacity(sea, previousNodes, sourceIsland.getName(), islandName)` | not executed | ResourceDistribution.SwappedArgumentsMiss | ResourceDistribution.DistributeResourceFixed |

Together, these three defects make `distributeResource` as written hand out
nothing, whatever the input (`ResourceDistribution.DistributeResource`).
