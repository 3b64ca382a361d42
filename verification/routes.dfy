/**
 * Walks along routes: sequences of island names in which each island has a
 * route to the next. Reachability and the travel cost of a walk are defined
 * here once and shared by both algorithms.
 */
module Routes {
  import opened Islands

  predicate IsRoute(sea: Sea, from: Name, to: Name) {
    from in sea.islands && to in sea.islands[from].routes
  }

  function Weight(sea: Sea, from: Name, to: Name): int
    requires IsRoute(sea, from, to)
  {
    sea.islands[from].routes[to]
  }

  /** A route that leads to an island of the sea and takes non-negative time. */
  predicate SoundRoute(sea: Sea, from: Name, to: Name) {
    IsRoute(sea, from, to) && to in sea.islands && Weight(sea, from, to) >= 0
  }

  /** In a well-formed sea every route is sound. */
  lemma RouteWeightNonNegative(sea: Sea, from: Name, to: Name)
    requires WellFormed(sea) && IsRoute(sea, from, to)
    ensures SoundRoute(sea, from, to)
  {
    assert IslandFits(sea, from);
  }

  /** Position `i` of `p` has a route to position `i + 1`. */
  ghost predicate RouteAt(sea: Sea, p: seq<Name>, i: int) {
    0 <= i < |p| - 1 && IsRoute(sea, p[i], p[i + 1])
  }

  /** Position `i + 1` of `w` has a route to position `i`: `w` runs against the routes. */
  ghost predicate BackRouteAt(sea: Sea, w: seq<Name>, i: int) {
    0 <= i < |w| - 1 && IsRoute(sea, w[i + 1], w[i])
  }

  /** A non-empty sequence of islands of the sea, each with a route to the next. */
  ghost predicate IsWalk(sea: Sea, p: seq<Name>) {
    && |p| >= 1
    && (forall i :: 0 <= i < |p| ==> p[i] in sea.islands)
    && (forall i :: 0 <= i < |p| - 1 ==> RouteAt(sea, p, i))
  }

  ghost predicate WalkFromTo(sea: Sea, p: seq<Name>, from: Name, to: Name) {
    IsWalk(sea, p) && p[0] == from && p[|p| - 1] == to
  }

  ghost predicate Reachable(sea: Sea, from: Name, to: Name) {
    exists p :: WalkFromTo(sea, p, from, to)
  }

  ghost predicate NoRepeats(p: seq<Name>) {
    forall i, j :: 0 <= i < j < |p| ==> p[i] != p[j]
  }

  /** Travel time of one step; a step without route costs nothing (it never occurs in a walk). */
  ghost function StepCost(sea: Sea, from: Name, to: Name): int {
    if IsRoute(sea, from, to) then Weight(sea, from, to) else 0
  }

  /** Total travel time of a walk. */
  ghost function Cost(sea: Sea, p: seq<Name>): int
    decreases |p|
  {
    if |p| <= 1 then 0 else Cost(sea, p[..|p| - 1]) + StepCost(sea, p[|p| - 2], p[|p| - 1])
  }

  /** Extending a walk by one route adds that route's travel time to its cost. */
  lemma ExtendWalk(sea: Sea, p: seq<Name>, to: Name)
    requires IsWalk(sea, p) && IsRoute(sea, p[|p| - 1], to) && to in sea.islands
    ensures IsWalk(sea, p + [to])
    ensures Cost(sea, p + [to]) == Cost(sea, p) + Weight(sea, p[|p| - 1], to)
  {
    var q := p + [to];
    assert q[..|p|] == p;
    forall i | 0 <= i < |q| - 1
      ensures RouteAt(sea, q, i)
    {
      if i < |p| - 1 {
        assert RouteAt(sea, p, i);
      }
    }
  }

  /** A set of islands closed under routes contains everything reachable from its members. */
  lemma {:induction false} ClosedSetHoldsReachable(sea: Sea, s: set<Name>, from: Name, to: Name)
    requires from in s
    requires forall u, v :: u in s && IsRoute(sea, u, v) ==> v in s
    ensures Reachable(sea, from, to) ==> to in s
  {
    forall p | WalkFromTo(sea, p, from, to)
      ensures to in s
    {
      WalkStaysInClosedSet(sea, s, p);
    }
  }

  lemma {:induction false} WalkStaysInClosedSet(sea: Sea, s: set<Name>, p: seq<Name>)
    requires IsWalk(sea, p) && p[0] in s
    requires forall u, v :: u in s && IsRoute(sea, u, v) ==> v in s
    ensures forall i :: 0 <= i < |p| ==> p[i] in s
    decreases |p|
  {
    if |p| > 1 {
      var q := p[..|p| - 1];
      assert forall i :: 0 <= i < |q| - 1 ==> RouteAt(sea, q, i) by {
        forall i | 0 <= i < |q| - 1
          ensures RouteAt(sea, q, i)
        {
          assert RouteAt(sea, p, i);
        }
      }
      WalkStaysInClosedSet(sea, s, q);
      assert RouteAt(sea, p, |p| - 2);
    }
  }

  /** A sequence whose routes all run backwards is, reversed, a walk. */
  lemma ReverseIsWalk(sea: Sea, w: seq<Name>)
    requires |w| >= 1
    requires forall i :: 0 <= i < |w| ==> w[i] in sea.islands
    requires forall i :: 0 <= i < |w| - 1 ==> BackRouteAt(sea, w, i)
    ensures IsWalk(sea, Reverse(w))
  {
    var p := Reverse(w);
    forall i | 0 <= i < |p| - 1
      ensures RouteAt(sea, p, i)
    {
      assert p[i] == w[|w| - 1 - i];
      assert p[i + 1] == w[|w| - 1 - i - 1];
      assert BackRouteAt(sea, w, |w| - 1 - i - 1);
    }
    forall i | 0 <= i < |p|
      ensures p[i] in sea.islands
    {
      assert p[i] == w[|w| - 1 - i];
    }
  }

  function Reverse(s: seq<Name>): (r: seq<Name>)
    ensures |r| == |s|
    ensures forall i :: 0 <= i < |s| ==> r[i] == s[|s| - 1 - i]
  {
    if s == [] then [] else Reverse(s[1..]) + [s[0]]
  }
}
