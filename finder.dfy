/**
 * The search engine as the source runs it: one object holds the state that
 * all branches share and mutate in place (the token set, the reuse counters,
 * the visited names, the working chain and the solution list), and the
 * recursive search updates it around each recursive call. Each method is
 * proved to leave exactly the state the functions of `Search` compute.
 */
module Finder {
  import opened Model
  import opened Preconditions
  import opened Effects
  import opened Search

  class ChainSearch {
    var tokens: set<string>
    var counts: map<string, int>
    var visited: set<string>
    var chain: seq<Hop>
    var solutions: seq<seq<Hop>>

    /** The shared part of the state, as a value. */
    function State(): Shared
      reads this
    {
      Shared(tokens, counts, visited, solutions)
    }

    /** The attacker's initial state at `start`, and an empty working chain. */
    constructor (start: SystemInfo)
      ensures State() == Initial(start) && chain == []
    {
      tokens := start.creds + {PrivName(start.priv)};
      counts := map[];
      visited := {start.name};
      chain := [];
      solutions := [];
    }

    /** `applyExploit`: adds the granted privilege and the harvested credentials in place. */
    method ApplyExploit(sys: SystemInfo, e: Exploit)
      modifies this`tokens
      ensures tokens == Applied(old(tokens), sys, e)
    {
      if e.gainPrivOnTarget.Some? {
        if PrivName(e.gainPrivOnTarget.value) !in tokens {
          tokens := tokens + {PrivName(e.gainPrivOnTarget.value)};
        }
      }
      ghost var granted := tokens;
      if e.addCredsOnTarget {
        var rest := sys.creds;
        while rest != {}
          invariant rest <= sys.creds
          invariant tokens == granted + (sys.creds - rest)
          decreases rest
        {
          var c :| c in rest;
          tokens := tokens + {c};
          rest := rest - {c};
        }
      }
    }

    /**
     * `doFindChain` at `current`. The working chain is the same afterwards;
     * the shared state is what `Explore` computes from the state on entry.
     */
    method DoFindChain(sc: Scenario, target: SystemInfo, current: SystemInfo, maxHops: int)
      modifies this
      ensures chain == old(chain)
      ensures State() == Explore(sc, target, maxHops, current, old(chain), old(State()))
      decreases Budget(maxHops, chain)
    {
      if current.name == target.name {
        solutions := solutions + [chain];
        return;
      }
      if |chain| >= maxHops {
        return;
      }
      ghost var chain0 := chain;
      var i := 0;
      while i < |sc.exploits|
        invariant 0 <= i <= |sc.exploits|
        invariant chain == chain0
        invariant ExploreExploits(sc, target, maxHops, current, chain0, i, State())
                  == ExploreExploits(sc, target, maxHops, current, chain0, 0, old(State()))
      {
        var e := sc.exploits[i];
        ghost var before := State();
        if e.requiredService == "" {
          var ok := CheckExploit(current, e, current, tokens, counts);
          if ok {
            counts := counts[e.name := 1];
            var h := Hop(current.name, current.name, e.name, Local);
            ApplyExploit(current, e);
            counts := counts[e.name := CountOf(counts, e.name) + 1];
            chain := chain + [h];
            assert State() == LocalChild(before, current, e);
            DoFindChain(sc, target, current, maxHops);
            chain := chain[..|chain| - 1];
          }
          assert State() == LocalMove(sc, target, maxHops, current, chain0, e, before);
        } else {
          var j := 0;
          while j < |current.routes|
            invariant 0 <= j <= |current.routes|
            invariant chain == chain0
            invariant ExploreRoutes(sc, target, maxHops, current, chain0, e, j, State())
                      == ExploreRoutes(sc, target, maxHops, current, chain0, e, 0, before)
          {
            var r := current.routes[j];
            ghost var atRoute := State();
            if r.to in sc.systems {
              var connection := sc.systems[r.to];
              if e.requiredService in connection.services && connection.name !in visited {
                var ok := CheckExploit(current, e, connection, tokens, counts);
                if ok {
                  var h := Hop(current.name, connection.name, e.name, Lateral);
                  ApplyExploit(connection, e);
                  visited := visited + {connection.name};
                  counts := counts[e.name := CountOf(counts, e.name) + 1];
                  chain := chain + [h];
                  assert State() == LateralChild(atRoute, connection, e);
                  DoFindChain(sc, target, connection, maxHops);
                  chain := chain[..|chain| - 1];
                }
              }
            }
            assert State() == LateralMove(sc, target, maxHops, current, chain0, e, r, atRoute);
            j := j + 1;
          }
        }
        i := i + 1;
      }
    }
  }

  /**
   * `findChains`: runs the search from `start` on a fresh state and returns
   * the solutions in the order they were found (no sorting is done).
   */
  method FindChains(sc: Scenario, start: SystemInfo, target: SystemInfo, maxHops: int)
    returns (solutions: seq<seq<Hop>>)
    ensures solutions == Chains(sc, start, target, maxHops)
  {
    var search := new ChainSearch(start);
    search.DoFindChain(sc, target, start, maxHops);
    solutions := search.solutions;
  }

  /**
   * What a caller of the source's `findChains` actually reads back. The
   * source records a solution by adding the working list itself, not a
   * copy, so every entry is that one list; since the search ends with the
   * working list restored to empty, every entry reads as the empty chain.
   */
  method FindChainsAliased(sc: Scenario, start: SystemInfo, target: SystemInfo, maxHops: int)
    returns (entries: seq<seq<Hop>>)
    ensures |entries| == |Chains(sc, start, target, maxHops)|
    ensures forall k :: 0 <= k < |entries| ==> entries[k] == []
  {
    var search := new ChainSearch(start);
    search.DoFindChain(sc, target, start, maxHops);
    var working := search.chain;
    entries := seq(|search.solutions|, _ => working);
  }
}
