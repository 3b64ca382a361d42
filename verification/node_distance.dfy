/**
 * ResourceDistribution.NodeDistance: the priority-queue entries of the
 * resource distributor, and their order. `Double.compare` is modelled on
 * integers (no NaN, no signed zero).
 */
module NodeDistances {
  import opened Islands

  /** An island, the distance it was reached at, and the travel time of the last route. */
  datatype NodeDistance = NodeDistance(islandName: Name, distance: nat, capacity: int)

  /** `Double.compare` on values that are never NaN. */
  function Compare(a: int, b: int): (r: int)
    ensures r == -1 || r == 0 || r == 1
    ensures r < 0 <==> a < b
    ensures r > 0 <==> a > b
  {
    if a < b then -1 else if a > b then 1 else 0
  }

  /**
   * The documented order of the queue: the smaller distance first, and on
   * equal distances the larger capacity first.
   */
  ghost predicate Precedes(a: NodeDistance, b: NodeDistance) {
    a.distance < b.distance || (a.distance == b.distance && b.capacity < a.capacity)
  }

  /** NodeDistance.compareTo */
  function CompareTo(self: NodeDistance, other: NodeDistance): (r: int)
    ensures r == -1 || r == 0 || r == 1
    ensures r < 0 <==> Precedes(self, other)
    ensures r > 0 <==> Precedes(other, self)
    ensures r == 0 <==> self.distance == other.distance && self.capacity == other.capacity
  {
    if self.distance != other.distance then Compare(self.distance, other.distance)
    else Compare(other.capacity, self.capacity)
  }

  /** compareTo is antisymmetric, as `Comparable` requires. */
  lemma CompareToAntisymmetric(a: NodeDistance, b: NodeDistance)
    ensures CompareTo(a, b) == -CompareTo(b, a)
  {
  }

  /** compareTo is transitive, so the queue has a well-defined head. */
  lemma CompareToTransitive(a: NodeDistance, b: NodeDistance, c: NodeDistance)
    requires CompareTo(a, b) <= 0 && CompareTo(b, c) <= 0
    ensures CompareTo(a, c) <= 0
    ensures CompareTo(a, b) < 0 || CompareTo(b, c) < 0 ==> CompareTo(a, c) < 0
  {
  }

  /** `e` may be handed out by `poll`: no entry in the queue comes before it. */
  predicate IsPolledFirst(queue: multiset<NodeDistance>, e: NodeDistance) {
    e in queue && forall x :: x in queue ==> CompareTo(e, x) <= 0
  }

  /** A non-empty queue always has an entry to poll. */
  lemma {:induction false} QueueHasHead(queue: multiset<NodeDistance>)
    requires queue != multiset{}
    ensures exists e :: IsPolledFirst(queue, e)
    decreases |queue|
  {
    var y :| y in queue;
    var rest := queue - multiset{y};
    assert queue == rest + multiset{y};
    if rest == multiset{} {
      assert IsPolledFirst(queue, y);
    } else {
      QueueHasHead(rest);
      var e :| IsPolledFirst(rest, e);
      assert forall x :: x in queue ==> x == y || x in rest;
      if CompareTo(y, e) <= 0 {
        forall x | x in queue
          ensures CompareTo(y, x) <= 0
        {
          if x != y {
            CompareToTransitive(y, e, x);
          }
        }
        assert IsPolledFirst(queue, y);
      } else {
        assert IsPolledFirst(queue, e);
      }
    }
  }

  /** The polled entry carries the smallest distance in the queue. */
  lemma PolledHasLeastDistance(queue: multiset<NodeDistance>, e: NodeDistance)
    requires IsPolledFirst(queue, e)
    ensures forall x :: x in queue ==> e.distance <= x.distance
  {
    forall x | x in queue
      ensures e.distance <= x.distance
    {
      assert CompareTo(e, x) <= 0;
    }
  }
}
