/**
 * The graph store of sea.java: a sea is a map from island name to island;
 * each island carries its name, its population, its outgoing routes
 * (destination name to travel time) and its resources (kind to quantity).
 *
 * Islands are identified by name. Travel times are integers instead of
 * `double`; resource quantities are Java `int`s and wrap around at 32 bits.
 */
module Islands {
  import opened Wrappers

  type Name = string

  const TWO_TO_THE_32: int := 0x1_0000_0000
  const INT_MIN: int := -0x8000_0000
  const INT_MAX: int := 0x7fff_ffff

  predicate IsInt32(x: int) {
    INT_MIN <= x <= INT_MAX
  }

  /** Java `int` arithmetic: the mathematical value reduced into the two's-complement range. */
  function Wrap32(x: int): (r: int)
    ensures IsInt32(r)
    ensures (x - r) % TWO_TO_THE_32 == 0
    ensures IsInt32(x) ==> r == x
  {
    (x - INT_MIN) % TWO_TO_THE_32 + INT_MIN
  }

  /**
   * Java's `(int)` cast of a (whole) number: values outside the 32-bit range
   * saturate at the nearest bound instead of wrapping.
   */
  function IntCast(x: int): (r: int)
    ensures IsInt32(r)
    ensures IsInt32(x) ==> r == x
    ensures x > INT_MAX ==> r == INT_MAX
    ensures x < INT_MIN ==> r == INT_MIN
  {
    if x > INT_MAX then INT_MAX else if x < INT_MIN then INT_MIN else x
  }

  /** Two 32-bit values that agree modulo 2^32 are equal. */
  lemma Int32Congruent(a: int, b: int)
    requires IsInt32(a) && IsInt32(b)
    requires (a - b) % TWO_TO_THE_32 == 0
    ensures a == b
  {
    var d := a - b;
    assert d == TWO_TO_THE_32 * (d / TWO_TO_THE_32);
  }

  /** A sum of two multiples of 2^32 is a multiple of 2^32. */
  lemma MultipleSum(a: int, b: int)
    requires a % TWO_TO_THE_32 == 0 && b % TWO_TO_THE_32 == 0
    ensures (a + b) % TWO_TO_THE_32 == 0
  {
    var qa, qb := a / TWO_TO_THE_32, b / TWO_TO_THE_32;
    assert a == TWO_TO_THE_32 * qa;
    assert b == TWO_TO_THE_32 * qb;
    assert a + b == TWO_TO_THE_32 * (qa + qb);
  }

  /** Wrapping an intermediate sum does not change the wrapped total. */
  lemma {:induction false} Wrap32Absorbs(x: int, y: int)
    ensures Wrap32(Wrap32(x) + y) == Wrap32(x + y)
  {
    var r1, r2 := Wrap32(Wrap32(x) + y), Wrap32(x + y);
    MultipleSum(Wrap32(x) + y - r1, x - Wrap32(x));
    MultipleSum(x + y - r1, -(x + y - r2));
    assert (x + y - r2) % TWO_TO_THE_32 == 0;
    assert (-(x + y - r2)) % TWO_TO_THE_32 == 0 by {
      var q := (x + y - r2) / TWO_TO_THE_32;
      assert x + y - r2 == TWO_TO_THE_32 * q;
      assert -(x + y - r2) == TWO_TO_THE_32 * (-q);
    }
    Int32Congruent(r1, r2);
  }

  datatype Island = Island(
    name: Name,
    population: int,
    routes: map<Name, int>,     // destination name to travel time
    resources: map<Name, int>   // resource kind to quantity
  )

  datatype Sea = Sea(islands: map<Name, Island>)

  /** A fresh sea holds no islands. */
  const EmptySea: Sea := Sea(map[])

  /**
   * What the algorithms rely on: every island is stored under its own name,
   * every route leads to an island of the sea, and travel times are not negative.
   */
  ghost predicate WellFormed(sea: Sea) {
    forall n :: n in sea.islands ==> IslandFits(sea, n)
  }

  /** The island stored under `n` carries that name and its routes stay inside the sea. */
  ghost predicate IslandFits(sea: Sea, n: Name)
    requires n in sea.islands
  {
    && sea.islands[n].name == n
    && forall d :: d in sea.islands[n].routes ==> d in sea.islands && sea.islands[n].routes[d] >= 0
  }

  /** Looks an island up by name; `None` plays the part of Java's `null`. */
  function GetIsland(sea: Sea, name: Name): (r: Option<Island>)
    ensures r.Some? <==> name in sea.islands
    ensures r.Some? ==> r.value == sea.islands[name]
  {
    if name in sea.islands then Some(sea.islands[name]) else None
  }

  /** Stores a brand-new island under `name`, replacing any island already there. */
  function AddIsland(sea: Sea, name: Name, population: int): (r: Sea)
    ensures GetIsland(r, name) == Some(Island(name, population, map[], map[]))
    ensures forall n :: n != name ==> GetIsland(r, n) == GetIsland(sea, n)
    ensures r.islands.Keys == sea.islands.Keys + {name}
  {
    Sea(sea.islands[name := Island(name, population, map[], map[])])
  }

  /**
   * Adds or overwrites the directed route `from` to `to`; nothing happens when
   * either island is missing.
   */
  function AddRoute(sea: Sea, from: Name, to: Name, travelTime: int): (r: Sea)
    ensures from !in sea.islands || to !in sea.islands ==> r == sea
    ensures r.islands.Keys == sea.islands.Keys
    ensures forall n :: n in sea.islands && n != from ==> r.islands[n] == sea.islands[n]
    ensures from in sea.islands && to in sea.islands ==>
      var before, after := sea.islands[from], r.islands[from];
      && after.name == before.name
      && after.population == before.population
      && after.resources == before.resources
      && after.routes.Keys == before.routes.Keys + {to}
      && after.routes[to] == travelTime
      && (forall d :: d in before.routes && d != to ==> after.routes[d] == before.routes[d])
  {
    match (GetIsland(sea, from), GetIsland(sea, to))
    case (Some(fromIsland), Some(_)) =>
      Sea(sea.islands[from := fromIsland.(routes := fromIsland.routes[to := travelTime])])
    case _ => sea
  }

  /**
   * Adds `quantity` of `kind` to an island: an existing quantity grows by it
   * (with Java `int` wrap-around), a missing kind starts at it.
   */
  function AddResources(island: Island, kind: Name, quantity: int): (r: Island)
    requires IsInt32(quantity)
    ensures r.name == island.name && r.population == island.population && r.routes == island.routes
    ensures r.resources.Keys == island.resources.Keys + {kind}
    ensures kind in island.resources ==> r.resources[kind] == Wrap32(island.resources[kind] + quantity)
    ensures kind !in island.resources ==> r.resources[kind] == quantity
    ensures forall k :: k in island.resources && k != kind ==> r.resources[k] == island.resources[k]
  {
    if kind in island.resources then
      island.(resources := island.resources[kind := Wrap32(island.resources[kind] + quantity)])
    else
      island.(resources := island.resources[kind := quantity])
  }

  /** Adding `a` then `b` of one kind is adding their 32-bit sum once. */
  lemma AddResourcesTwice(island: Island, kind: Name, a: int, b: int)
    requires IsInt32(a) && IsInt32(b)
    ensures AddResources(AddResources(island, kind, a), kind, b) == AddResources(island, kind, Wrap32(a + b))
  {
    if kind in island.resources {
      Wrap32Absorbs(island.resources[kind] + a, b);
      assert island.resources[kind] + a + b == island.resources[kind] + (a + b);
      Wrap32Absorbs(a + b, island.resources[kind]);
      assert Wrap32(a + b) + island.resources[kind] == island.resources[kind] + Wrap32(a + b);
      assert a + b + island.resources[kind] == island.resources[kind] + (a + b);
    }
  }

  /** Applies `AddResources` to the island stored under `name`. */
  function AddResourcesAt(sea: Sea, name: Name, kind: Name, quantity: int): (r: Sea)
    requires name in sea.islands && IsInt32(quantity)
    ensures r.islands.Keys == sea.islands.Keys
    ensures r.islands[name] == AddResources(sea.islands[name], kind, quantity)
    ensures forall n :: n in sea.islands && n != name ==> r.islands[n] == sea.islands[n]
  {
    Sea(sea.islands[name := AddResources(sea.islands[name], kind, quantity)])
  }

  /** A fresh sea is well formed. */
  lemma EmptySeaWellFormed()
    ensures forall n :: GetIsland(EmptySea, n) == None
    ensures WellFormed(EmptySea)
  {
  }

  /** Adding an island keeps every island under its own name and every route inside the sea. */
  lemma AddIslandPreservesWellFormed(sea: Sea, name: Name, population: int)
    requires WellFormed(sea)
    ensures WellFormed(AddIsland(sea, name, population))
  {
    var added := AddIsland(sea, name, population);
    forall n | n in added.islands
      ensures added.islands[n] == if n == name then Island(name, population, map[], map[]) else sea.islands[n]
    {
      assert GetIsland(added, n).Some?;
      if n != name {
        assert GetIsland(added, n) == GetIsland(sea, n);
      }
    }
    forall n | n in added.islands
      ensures IslandFits(added, n)
    {
      if n != name {
        assert IslandFits(sea, n);
      }
    }
  }

  /** Adding a route with a non-negative travel time keeps the sea well formed; no name changes. */
  lemma AddRoutePreservesWellFormed(sea: Sea, from: Name, to: Name, travelTime: int)
    requires WellFormed(sea) && travelTime >= 0
    ensures WellFormed(AddRoute(sea, from, to, travelTime))
  {
  }

  /** Adding resources touches neither names nor routes. */
  lemma AddResourcesPreservesWellFormed(sea: Sea, name: Name, kind: Name, quantity: int)
    requires WellFormed(sea) && name in sea.islands && IsInt32(quantity)
    ensures WellFormed(AddResourcesAt(sea, name, kind, quantity))
  {
  }
}
