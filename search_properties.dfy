/**
 * What every recorded chain looks like, and how the shared state moves
 * during a search. The central statement, `ExploreExtends`, is proved by
 * induction over the search functions, one lemma per function.
 */
module SearchProperties {
  import opened Model
  import opened Preconditions
  import opened Effects
  import opened Search

  /** A hop of the catalog's kind: a local exploit gives a LOCAL hop that stays put. */
  ghost predicate HopShape(sc: Scenario, h: Hop) {
    ((h.via == Local && h.from == h.to) || h.via == Lateral)
    && exists e :: e in sc.exploits && e.name == h.exploit && (e.requiredService == "" <==> h.via == Local)
  }

  /**
   * `sol` is a chain that a search begun at `from` with working chain `chain`
   * and visited set `visited` may record: it extends `chain`, respects the
   * hop bound, ends on the target and reaches it only at its last hop, its
   * new hops are connected and of the catalog's kinds, and its lateral hops
   * go to distinct systems outside `visited`, never to the system they leave.
   */
  ghost predicate Recorded(sc: Scenario, target: SystemInfo, maxHops: int,
                           chain: seq<Hop>, from: string, visited: set<string>, sol: seq<Hop>) {
    chain <= sol
    && (|sol| <= maxHops || sol == [])
    && (|sol| == |chain| <==> from == target.name)
    && (|sol| > |chain| ==> sol[|sol| - 1].to == target.name && sol[|chain|].from == from)
    && (forall j :: |chain| <= j < |sol| - 1 ==> sol[j].to != target.name)
    && (forall j :: |chain| < j < |sol| ==> sol[j].from == sol[j - 1].to)
    && (forall j :: |chain| <= j < |sol| ==> HopShape(sc, sol[j]))
    && (forall j :: |chain| <= j < |sol| && sol[j].via == Lateral ==>
          sol[j].to !in visited && sol[j].to != sol[j].from)
    && (forall j, k :: |chain| <= j < k < |sol| && sol[j].via == Lateral && sol[k].via == Lateral ==>
          sol[j].to != sol[k].to)
  }

  /**
   * From `s` to `t` the tokens and the visited set only grew, solutions were
   * only appended, and every appended one is `Recorded` relative to `s`.
   */
  ghost predicate Extends(sc: Scenario, target: SystemInfo, maxHops: int,
                          chain: seq<Hop>, from: string, s: Shared, t: Shared) {
    s.tokens <= t.tokens && s.visited <= t.visited && s.solutions <= t.solutions
    && forall k :: |s.solutions| <= k < |t.solutions| ==>
         Recorded(sc, target, maxHops, chain, from, s.visited, t.solutions[k])
  }

  lemma ExtendsTransitive(sc: Scenario, target: SystemInfo, maxHops: int,
                          chain: seq<Hop>, from: string, s: Shared, t: Shared, u: Shared)
    requires Extends(sc, target, maxHops, chain, from, s, t)
    requires Extends(sc, target, maxHops, chain, from, t, u)
    ensures Extends(sc, target, maxHops, chain, from, s, u)
  {
    forall k | |s.solutions| <= k < |u.solutions|
      ensures Recorded(sc, target, maxHops, chain, from, s.visited, u.solutions[k])
    {
      if k < |t.solutions| {
        assert u.solutions[k] == t.solutions[k];
      }
    }
  }

  /** A chain recorded one hop deeper, behind a legal hop `h`, is recorded here too. */
  lemma RecordedBehindHop(sc: Scenario, target: SystemInfo, maxHops: int, chain: seq<Hop>,
                          h: Hop, from: string, visited: set<string>, deeper: set<string>, sol: seq<Hop>)
    requires Recorded(sc, target, maxHops, chain + [h], h.to, deeper, sol)
    requires |chain| < maxHops && from != target.name && h.from == from && HopShape(sc, h)
    requires visited <= deeper
    requires h.via == Lateral ==> h.to !in visited && h.to in deeper && h.to != from
    ensures Recorded(sc, target, maxHops, chain, from, visited, sol)
  {
    var c := chain + [h];
    assert sol[..|c|] == c;
    assert sol[|chain|] == h;
    forall j, k | |chain| <= j < k < |sol| && sol[j].via == Lateral && sol[k].via == Lateral
      ensures sol[j].to != sol[k].to
    {
      if j == |chain| {
        assert sol[k].to !in deeper;
      }
    }
  }

  /**
   * The search from `current` only grows the tokens and the visited set,
   * only appends solutions, and every solution it appends is `Recorded`.
   */
  lemma {:induction false} ExploreExtends(sc: Scenario, target: SystemInfo, maxHops: int,
                                          current: SystemInfo, chain: seq<Hop>, s: Shared)
    requires |chain| <= maxHops || chain == []
    requires current.name in s.visited
    ensures Extends(sc, target, maxHops, chain, current.name, s,
                    Explore(sc, target, maxHops, current, chain, s))
    decreases Budget(maxHops, chain), 2, 0
  {
    if current.name == target.name {
      var t := Explore(sc, target, maxHops, current, chain, s);
      assert t.solutions[|s.solutions|] == chain;
    } else if |chain| < maxHops {
      ExploreExploitsExtends(sc, target, maxHops, current, chain, 0, s);
    }
  }

  lemma {:induction false} ExploreExploitsExtends(sc: Scenario, target: SystemInfo, maxHops: int,
                                                  current: SystemInfo, chain: seq<Hop>, i: nat, s: Shared)
    requires |chain| < maxHops && i <= |sc.exploits|
    requires current.name in s.visited && current.name != target.name
    ensures Extends(sc, target, maxHops, chain, current.name, s,
                    ExploreExploits(sc, target, maxHops, current, chain, i, s))
    decreases Budget(maxHops, chain), 1, |sc.exploits| - i
  {
    if i < |sc.exploits| {
      var e := sc.exploits[i];
      var next :=
        if e.requiredService == "" then LocalMove(sc, target, maxHops, current, chain, e, s)
        else ExploreRoutes(sc, target, maxHops, current, chain, e, 0, s);
      if e.requiredService == "" {
        LocalMoveExtends(sc, target, maxHops, current, chain, e, s);
      } else {
        ExploreRoutesExtends(sc, target, maxHops, current, chain, e, 0, s);
      }
      ExploreExploitsExtends(sc, target, maxHops, current, chain, i + 1, next);
      ExtendsTransitive(sc, target, maxHops, chain, current.name, s, next,
                        ExploreExploits(sc, target, maxHops, current, chain, i + 1, next));
    }
  }

  lemma {:induction false} LocalMoveExtends(sc: Scenario, target: SystemInfo, maxHops: int,
                                            current: SystemInfo, chain: seq<Hop>, e: Exploit, s: Shared)
    requires |chain| < maxHops && e in sc.exploits && e.requiredService == ""
    requires current.name in s.visited && current.name != target.name
    ensures Extends(sc, target, maxHops, chain, current.name, s,
                    LocalMove(sc, target, maxHops, current, chain, e, s))
    decreases Budget(maxHops, chain), 0, 0
  {
    if Accepts(e, current, s.tokens, s.counts) {
      var h := LocalHop(current, e);
      var child := LocalChild(s, current, e);
      ExploreExtends(sc, target, maxHops, current, chain + [h], child);
      var t := Explore(sc, target, maxHops, current, chain + [h], child);
      assert HopShape(sc, h);
      forall k | |s.solutions| <= k < |t.solutions|
        ensures Recorded(sc, target, maxHops, chain, current.name, s.visited, t.solutions[k])
      {
        RecordedBehindHop(sc, target, maxHops, chain, h, current.name, s.visited, child.visited, t.solutions[k]);
      }
    }
  }

  lemma {:induction false} ExploreRoutesExtends(sc: Scenario, target: SystemInfo, maxHops: int,
                                                current: SystemInfo, chain: seq<Hop>, e: Exploit, j: nat, s: Shared)
    requires |chain| < maxHops && j <= |current.routes| && e in sc.exploits && e.requiredService != ""
    requires current.name in s.visited && current.name != target.name
    ensures Extends(sc, target, maxHops, chain, current.name, s,
                    ExploreRoutes(sc, target, maxHops, current, chain, e, j, s))
    decreases Budget(maxHops, chain), 0, |current.routes| - j
  {
    if j < |current.routes| {
      var next := LateralMove(sc, target, maxHops, current, chain, e, current.routes[j], s);
      LateralMoveExtends(sc, target, maxHops, current, chain, e, current.routes[j], s);
      ExploreRoutesExtends(sc, target, maxHops, current, chain, e, j + 1, next);
      ExtendsTransitive(sc, target, maxHops, chain, current.name, s, next,
                        ExploreRoutes(sc, target, maxHops, current, chain, e, j + 1, next));
    }
  }

  lemma {:induction false} LateralMoveExtends(sc: Scenario, target: SystemInfo, maxHops: int,
                                              current: SystemInfo, chain: seq<Hop>, e: Exploit, r: Route, s: Shared)
    requires |chain| < maxHops && e in sc.exploits && e.requiredService != ""
    requires current.name in s.visited && current.name != target.name
    ensures Extends(sc, target, maxHops, chain, current.name, s,
                    LateralMove(sc, target, maxHops, current, chain, e, r, s))
    decreases Budget(maxHops, chain), 0, 0
  {
    if LateralFires(sc, e, r, s) {
      var dest := sc.systems[r.to];
      var h := LateralHop(current, dest, e);
      var child := LateralChild(s, dest, e);
      ExploreExtends(sc, target, maxHops, dest, chain + [h], child);
      var t := Explore(sc, target, maxHops, dest, chain + [h], child);
      assert HopShape(sc, h);
      forall k | |s.solutions| <= k < |t.solutions|
        ensures Recorded(sc, target, maxHops, chain, current.name, s.visited, t.solutions[k])
      {
        RecordedBehindHop(sc, target, maxHops, chain, h, current.name, s.visited, child.visited, t.solutions[k]);
      }
    }
  }

  /**
   * A local exploit either is refused and changes nothing, or every chain
   * it leads to continues the working chain with a LOCAL hop that stays on
   * `current`.
   */
  lemma LocalMoveFacts(sc: Scenario, target: SystemInfo, maxHops: int,
                       current: SystemInfo, chain: seq<Hop>, e: Exploit, s: Shared)
    requires |chain| < maxHops && current.name in s.visited
    ensures !Accepts(e, current, s.tokens, s.counts) ==> LocalMove(sc, target, maxHops, current, chain, e, s) == s
    ensures var t := LocalMove(sc, target, maxHops, current, chain, e, s);
            forall k :: |s.solutions| <= k < |t.solutions| ==>
              chain + [Hop(current.name, current.name, e.name, Local)] <= t.solutions[k]
  {
    if Accepts(e, current, s.tokens, s.counts) {
      ExploreExtends(sc, target, maxHops, current, chain + [LocalHop(current, e)], LocalChild(s, current, e));
    }
  }

  /**
   * A lateral exploit along route `r` fires only into an existing system
   * that exposes the exploit's service, has not been visited yet and passes
   * the precondition test; then that system is visited afterwards and every
   * chain found continues the working chain with a LATERAL hop into it.
   * Otherwise nothing changes.
   */
  lemma LateralMoveFacts(sc: Scenario, target: SystemInfo, maxHops: int,
                         current: SystemInfo, chain: seq<Hop>, e: Exploit, r: Route, s: Shared)
    requires |chain| < maxHops
    ensures !LateralFires(sc, e, r, s) ==> LateralMove(sc, target, maxHops, current, chain, e, r, s) == s
    ensures LateralFires(sc, e, r, s) ==>
              var dest := sc.systems[r.to];
              var t := LateralMove(sc, target, maxHops, current, chain, e, r, s);
              && e.requiredService in dest.services && dest.name !in s.visited
              && dest.name in t.visited
              && forall k :: |s.solutions| <= k < |t.solutions| ==>
                   chain + [Hop(current.name, dest.name, e.name, Lateral)] <= t.solutions[k]
  {
    if LateralFires(sc, e, r, s) {
      var dest := sc.systems[r.to];
      ExploreExtends(sc, target, maxHops, dest, chain + [LateralHop(current, dest, e)], LateralChild(s, dest, e));
    }
  }

  /**
   * Every chain the route loop of a lateral exploit finds takes, as its next
   * hop, a LATERAL hop from `current` along one of `current`'s routes into
   * a system exposing the exploit's service.
   */
  lemma {:induction false} ExploreRoutesHops(sc: Scenario, target: SystemInfo, maxHops: int,
                                             current: SystemInfo, chain: seq<Hop>, e: Exploit, j: nat, s: Shared)
    requires |chain| < maxHops && j <= |current.routes|
    ensures var t := ExploreRoutes(sc, target, maxHops, current, chain, e, j, s);
            && s.solutions <= t.solutions
            && forall k :: |s.solutions| <= k < |t.solutions| ==>
                 |t.solutions[k]| > |chain| && t.solutions[k][..|chain|] == chain
                 && exists r :: r in current.routes && r.to in sc.systems
                                && e.requiredService in sc.systems[r.to].services
                                && t.solutions[k][|chain|] == Hop(current.name, sc.systems[r.to].name, e.name, Lateral)
    decreases |current.routes| - j
  {
    if j < |current.routes| {
      var r := current.routes[j];
      var next := LateralMove(sc, target, maxHops, current, chain, e, r, s);
      var t := ExploreRoutes(sc, target, maxHops, current, chain, e, j + 1, next);
      LateralMoveFacts(sc, target, maxHops, current, chain, e, r, s);
      if LateralFires(sc, e, r, s) {
        ExploreExtends(sc, target, maxHops, sc.systems[r.to], chain + [LateralHop(current, sc.systems[r.to], e)],
                       LateralChild(s, sc.systems[r.to], e));
      }
      ExploreRoutesHops(sc, target, maxHops, current, chain, e, j + 1, next);
      forall k | |s.solutions| <= k < |t.solutions|
        ensures |t.solutions[k]| > |chain| && t.solutions[k][..|chain|] == chain
        ensures exists r :: r in current.routes && r.to in sc.systems
                            && e.requiredService in sc.systems[r.to].services
                            && t.solutions[k][|chain|] == Hop(current.name, sc.systems[r.to].name, e.name, Lateral)
      {
        if k < |next.solutions| {
          assert t.solutions[k] == next.solutions[k];
          var c := chain + [LateralHop(current, sc.systems[r.to], e)];
          assert next.solutions[k][..|c|] == c;
          assert next.solutions[k][|chain|] == c[|chain|];
        }
      }
    }
  }

  /** Every chain `findChains` returns is `Recorded` for a search begun at `start`. */
  lemma ChainsAreRecorded(sc: Scenario, start: SystemInfo, target: SystemInfo, maxHops: int)
    ensures forall sol :: sol in Chains(sc, start, target, maxHops) ==>
              Recorded(sc, target, maxHops, [], start.name, {start.name}, sol)
  {
    ExploreExtends(sc, target, maxHops, start, [], Initial(start));
  }

  /** The hop bound: no chain is longer than `maxHops`, except the empty one when start is the target. */
  lemma ChainsWithinBound(sc: Scenario, start: SystemInfo, target: SystemInfo, maxHops: int)
    ensures forall sol :: sol in Chains(sc, start, target, maxHops) ==>
              |sol| <= maxHops || (sol == [] && start.name == target.name)
  {
    ChainsAreRecorded(sc, start, target, maxHops);
  }

  /** Starting on the target yields exactly one, empty, chain. */
  lemma StartIsTarget(sc: Scenario, start: SystemInfo, target: SystemInfo, maxHops: int)
    requires start.name == target.name
    ensures Chains(sc, start, target, maxHops) == [[]]
  {
  }

  /** With no hop to spend and the target elsewhere, nothing is found. */
  lemma NoBudgetNoChains(sc: Scenario, start: SystemInfo, target: SystemInfo, maxHops: int)
    requires start.name != target.name && maxHops <= 0
    ensures Chains(sc, start, target, maxHops) == []
  {
  }

  /**
   * After a local application the counter reads 2, so the same exploit is
   * accepted again only if its limit exceeds 2; in particular an exploit
   * limited to two uses can be applied locally only once.
   */
  lemma LocalUseCounter(s: Shared, current: SystemInfo, e: Exploit, target: SystemInfo, tokens: set<string>)
    ensures Accepts(e, target, tokens, LocalChild(s, current, e).counts) ==> e.reusePolicy.limit > 2
    ensures CountOf(LocalChild(s, current, e).counts, e.name) == 2
  {
  }

  /**
   * After a lateral application the counter is one more than before, so an
   * exploit limited to a single use is never accepted again once it has
   * been applied laterally (counters never go below zero).
   */
  lemma LateralUseCounter(s: Shared, dest: SystemInfo, e: Exploit, target: SystemInfo, tokens: set<string>)
    requires forall n :: n in s.counts ==> s.counts[n] >= 0
    ensures CountOf(LateralChild(s, dest, e).counts, e.name) == CountOf(s.counts, e.name) + 1
    ensures e.reusePolicy.limit <= 1 ==> !Accepts(e, target, tokens, LateralChild(s, dest, e).counts)
  {
  }

  /**
   * From `s` to `t` at most one solution was appended, none once the
   * target's name was visited, and appending one leaves the target visited.
   */
  ghost predicate Once(target: SystemInfo, s: Shared, t: Shared) {
    s.visited <= t.visited && s.solutions <= t.solutions
    && |t.solutions| <= |s.solutions| + 1
    && (target.name in s.visited ==> |t.solutions| == |s.solutions|)
    && (|t.solutions| > |s.solutions| ==> target.name in t.visited)
  }

  lemma OnceTransitive(target: SystemInfo, s: Shared, t: Shared, u: Shared)
    requires Once(target, s, t) && Once(target, t, u)
    ensures Once(target, s, u)
  {
  }

  /**
   * Away from the target, a search appends at most one solution: the target
   * is only entered by a lateral hop, that hop marks it visited, and the
   * visited set is shared and never shrinks.
   */
  lemma {:induction false} ExploreOnce(sc: Scenario, target: SystemInfo, maxHops: int,
                                       current: SystemInfo, chain: seq<Hop>, s: Shared)
    requires current.name != target.name
    ensures Once(target, s, Explore(sc, target, maxHops, current, chain, s))
    decreases Budget(maxHops, chain), 2, 0
  {
    if |chain| < maxHops {
      ExploreExploitsOnce(sc, target, maxHops, current, chain, 0, s);
    }
  }

  lemma {:induction false} ExploreExploitsOnce(sc: Scenario, target: SystemInfo, maxHops: int,
                                               current: SystemInfo, chain: seq<Hop>, i: nat, s: Shared)
    requires |chain| < maxHops && i <= |sc.exploits| && current.name != target.name
    ensures Once(target, s, ExploreExploits(sc, target, maxHops, current, chain, i, s))
    decreases Budget(maxHops, chain), 1, |sc.exploits| - i
  {
    if i < |sc.exploits| {
      var e := sc.exploits[i];
      var next :=
        if e.requiredService == "" then LocalMove(sc, target, maxHops, current, chain, e, s)
        else ExploreRoutes(sc, target, maxHops, current, chain, e, 0, s);
      if e.requiredService == "" {
        LocalMoveOnce(sc, target, maxHops, current, chain, e, s);
      } else {
        ExploreRoutesOnce(sc, target, maxHops, current, chain, e, 0, s);
      }
      ExploreExploitsOnce(sc, target, maxHops, current, chain, i + 1, next);
      OnceTransitive(target, s, next, ExploreExploits(sc, target, maxHops, current, chain, i + 1, next));
    }
  }

  lemma {:induction false} LocalMoveOnce(sc: Scenario, target: SystemInfo, maxHops: int,
                                         current: SystemInfo, chain: seq<Hop>, e: Exploit, s: Shared)
    requires |chain| < maxHops && current.name != target.name
    ensures Once(target, s, LocalMove(sc, target, maxHops, current, chain, e, s))
    decreases Budget(maxHops, chain), 0, 0
  {
    if Accepts(e, current, s.tokens, s.counts) {
      ExploreOnce(sc, target, maxHops, current, chain + [LocalHop(current, e)], LocalChild(s, current, e));
    }
  }

  lemma {:induction false} ExploreRoutesOnce(sc: Scenario, target: SystemInfo, maxHops: int,
                                             current: SystemInfo, chain: seq<Hop>, e: Exploit, j: nat, s: Shared)
    requires |chain| < maxHops && j <= |current.routes|
    ensures Once(target, s, ExploreRoutes(sc, target, maxHops, current, chain, e, j, s))
    decreases Budget(maxHops, chain), 0, |current.routes| - j
  {
    if j < |current.routes| {
      var next := LateralMove(sc, target, maxHops, current, chain, e, current.routes[j], s);
      LateralMoveOnce(sc, target, maxHops, current, chain, e, current.routes[j], s);
      ExploreRoutesOnce(sc, target, maxHops, current, chain, e, j + 1, next);
      OnceTransitive(target, s, next, ExploreRoutes(sc, target, maxHops, current, chain, e, j + 1, next));
    }
  }

  lemma {:induction false} LateralMoveOnce(sc: Scenario, target: SystemInfo, maxHops: int,
                                           current: SystemInfo, chain: seq<Hop>, e: Exploit, r: Route, s: Shared)
    requires |chain| < maxHops
    ensures Once(target, s, LateralMove(sc, target, maxHops, current, chain, e, r, s))
    decreases Budget(maxHops, chain), 0, 0
  {
    if LateralFires(sc, e, r, s) {
      var dest := sc.systems[r.to];
      var child := LateralChild(s, dest, e);
      if dest.name != target.name {
        ExploreOnce(sc, target, maxHops, dest, chain + [LateralHop(current, dest, e)], child);
      }
    }
  }

  /**
   * Because the visited set is shared by all branches and never shrinks,
   * `findChains` returns at most one chain.
   */
  lemma AtMostOneChain(sc: Scenario, start: SystemInfo, target: SystemInfo, maxHops: int)
    ensures |Chains(sc, start, target, maxHops)| <= 1
  {
    if start.name != target.name {
      ExploreOnce(sc, target, maxHops, start, [], Initial(start));
    }
  }
}
