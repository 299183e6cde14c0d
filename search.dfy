/**
 * The backtracking search, as functions that thread the state every branch
 * shares: the token set, the reuse counters, the visited names and the
 * solutions found so far. Nothing is undone when a branch returns, so what a
 * branch adds is seen by every later sibling. The working chain is handed to
 * each recursive call one hop longer and is the caller's own again afterwards,
 * so here it is simply a parameter.
 */
module Search {
  import opened Model
  import opened Preconditions
  import opened Effects

  /** The state shared by all branches of one search. */
  datatype Shared = Shared(
    tokens: set<string>,
    counts: map<string, int>,
    visited: set<string>,
    solutions: seq<seq<Hop>>)

  /** The state `findChains` starts from. */
  function Initial(start: SystemInfo): (s: Shared)
    ensures s.tokens == start.creds + {PrivName(start.priv)}
    ensures s.visited == {start.name} && s.counts == map[] && s.solutions == []
  {
    Shared(start.creds + {PrivName(start.priv)}, map[], {start.name}, [])
  }

  /** `getOrDefault(name, 0)` */
  function CountOf(counts: map<string, int>, name: string): int {
    if name in counts then counts[name] else 0
  }

  /** Hops still allowed before the bound; the search's termination measure. */
  function Budget(maxHops: int, chain: seq<Hop>): nat {
    if |chain| < maxHops then maxHops - |chain| else 0
  }

  function LocalHop(current: SystemInfo, e: Exploit): Hop {
    Hop(current.name, current.name, e.name, Local)
  }

  function LateralHop(current: SystemInfo, dest: SystemInfo, e: Exploit): Hop {
    Hop(current.name, dest.name, e.name, Lateral)
  }

  /**
   * The state after a local application: the counter is first set to 1 and
   * then incremented, so it is 2 whatever it was.
   */
  function LocalChild(s: Shared, current: SystemInfo, e: Exploit): (r: Shared)
    ensures e.name in r.counts && r.counts[e.name] == 2
    ensures forall n :: n in s.counts && n != e.name ==> n in r.counts && r.counts[n] == s.counts[n]
    ensures r.counts.Keys == s.counts.Keys + {e.name}
    ensures r.tokens == Applied(s.tokens, current, e) && r.visited == s.visited && r.solutions == s.solutions
  {
    var counts := s.counts[e.name := 1];
    s.(tokens := Applied(s.tokens, current, e), counts := counts[e.name := CountOf(counts, e.name) + 1])
  }

  /** The state after a lateral application into `dest`: one more use, `dest` visited. */
  function LateralChild(s: Shared, dest: SystemInfo, e: Exploit): (r: Shared)
    ensures e.name in r.counts && r.counts[e.name] == CountOf(s.counts, e.name) + 1
    ensures forall n :: n in s.counts && n != e.name ==> n in r.counts && r.counts[n] == s.counts[n]
    ensures r.counts.Keys == s.counts.Keys + {e.name}
    ensures r.tokens == Applied(s.tokens, dest, e) && r.visited == s.visited + {dest.name}
    ensures r.solutions == s.solutions
  {
    s.(tokens := Applied(s.tokens, dest, e),
       visited := s.visited + {dest.name},
       counts := s.counts[e.name := CountOf(s.counts, e.name) + 1])
  }

  /**
   * `doFindChain` at `current` with working chain `chain`: record the chain
   * on reaching the target, stop at the hop bound, otherwise try every
   * exploit of the catalog in order.
   */
  function Explore(sc: Scenario, target: SystemInfo, maxHops: int,
                   current: SystemInfo, chain: seq<Hop>, s: Shared): Shared
    decreases Budget(maxHops, chain), 2, 0
  {
    if current.name == target.name then s.(solutions := s.solutions + [chain])
    else if |chain| >= maxHops then s
    else ExploreExploits(sc, target, maxHops, current, chain, 0, s)
  }

  /** The loop over the catalog, from the `i`-th exploit on. */
  function ExploreExploits(sc: Scenario, target: SystemInfo, maxHops: int,
                           current: SystemInfo, chain: seq<Hop>, i: nat, s: Shared): Shared
    requires |chain| < maxHops && i <= |sc.exploits|
    decreases Budget(maxHops, chain), 1, |sc.exploits| - i
  {
    if i == |sc.exploits| then s
    else
      var e := sc.exploits[i];
      var next :=
        if e.requiredService == "" then LocalMove(sc, target, maxHops, current, chain, e, s)
        else ExploreRoutes(sc, target, maxHops, current, chain, e, 0, s);
      ExploreExploits(sc, target, maxHops, current, chain, i + 1, next)
  }

  /** A local exploit, tested and applied against `current` itself. */
  function LocalMove(sc: Scenario, target: SystemInfo, maxHops: int,
                     current: SystemInfo, chain: seq<Hop>, e: Exploit, s: Shared): Shared
    requires |chain| < maxHops
    decreases Budget(maxHops, chain), 0, 0
  {
    if !Accepts(e, current, s.tokens, s.counts) then s
    else Explore(sc, target, maxHops, current, chain + [LocalHop(current, e)], LocalChild(s, current, e))
  }

  /** The loop over `current`'s routes for lateral exploit `e`, from the `j`-th route on. */
  function ExploreRoutes(sc: Scenario, target: SystemInfo, maxHops: int,
                         current: SystemInfo, chain: seq<Hop>, e: Exploit, j: nat, s: Shared): Shared
    requires |chain| < maxHops && j <= |current.routes|
    decreases Budget(maxHops, chain), 0, |current.routes| - j
  {
    if j == |current.routes| then s
    else
      var next := LateralMove(sc, target, maxHops, current, chain, e, current.routes[j], s);
      ExploreRoutes(sc, target, maxHops, current, chain, e, j + 1, next)
  }

  /**
   * The lateral move along `r` fires when its destination exists, exposes
   * the exploit's service, has not been visited and passes the precondition test.
   */
  predicate LateralFires(sc: Scenario, e: Exploit, r: Route, s: Shared) {
    r.to in sc.systems
    && e.requiredService in sc.systems[r.to].services
    && sc.systems[r.to].name !in s.visited
    && Accepts(e, sc.systems[r.to], s.tokens, s.counts)
  }

  /** One route of a lateral exploit. */
  function LateralMove(sc: Scenario, target: SystemInfo, maxHops: int,
                       current: SystemInfo, chain: seq<Hop>, e: Exploit, r: Route, s: Shared): Shared
    requires |chain| < maxHops
    decreases Budget(maxHops, chain), 0, 0
  {
    if !LateralFires(sc, e, r, s) then s
    else
      var dest := sc.systems[r.to];
      Explore(sc, target, maxHops, dest, chain + [LateralHop(current, dest, e)], LateralChild(s, dest, e))
  }

  /** `findChains`: the solutions of a search from `start`. */
  function Chains(sc: Scenario, start: SystemInfo, target: SystemInfo, maxHops: int): seq<seq<Hop>> {
    Explore(sc, target, maxHops, start, [], Initial(start)).solutions
  }
}
