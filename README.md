# Intrusion chain search, modelled in Dafny

This project models the search engine of an attack-path analyser. Given a
scenario (systems, routes between them, and a catalog of exploits), a start
system, a target system and a hop bound, the engine searches for intrusion
chains by depth-first backtracking. At the current system it tries every
exploit of the catalog in order:

- A *local* exploit is one whose required service is empty. It is tested
  against the current system and gives a LOCAL hop that stays there.
- A *lateral* exploit follows each outbound route to a destination that
  exposes its service and has not been visited. It gives a LATERAL hop
  into that destination.

A chain is recorded as soon as the target is reached. It is never extended
once it holds `maxHops` hops.

The engine's documentation promises all valid chains, but the code as
written returns at most one. The visited set is shared by every branch and
never shrinks, and the target can only be entered by a lateral hop that
marks it visited (`SearchProperties.AtMostOneChain`). A branch that dies
out also keeps every system it entered, so a valid chain can be missed
altogether (`ScenarioCases.ThreeHopsMissed`).

The model follows the code as written, including its quirks:

- The attacker's state is one token set that mixes privilege names and
  credential strings.
- The privilege requirement is met when the required privilege's name is in
  that set. There is no rank comparison.
- The precondition test answers a flag that any one of three checks can
  raise.
- Every branch mutates the same token set, counter map and visited set, and
  nothing is undone, so later sibling branches see what earlier ones added.
- A local application sets the exploit's counter to 1 and then increments
  it, leaving 2.

Files and modules:

- `wrappers.dfy` (`Wrappers`): `Option` for the nullable fields.
- `model.dfy` (`Model`): the scenario data types `Priv`, `Route`, `ReusePolicy`,
  `Exploit`, `SystemInfo`, `Hop` and `Scenario`, with only the fields the
  engine reads. Systems can form cycles, so a route names its destination
  and the scenario maps names to systems.
- `preconditions.dfy` (`Preconditions`): `checkExploit`. The predicate
  `Accepts` says declaratively what it decides. The method `CheckExploit`
  follows the source's statement order, including the scan of the token set
  for a credential prefix, and is proved to agree with `Accepts`.
- `effects.dfy` (`Effects`): `applyExploit` as the function `Applied` on
  token sets.
- `search.dfy` (`Search`): the search as functions (`Explore` and the functions
  it calls for the exploit loop, the route loop, and the local and lateral
  moves). They pass the shared state (tokens, counters, visited names,
  solutions) from each call to the next, exactly as the mutations leak in
  the source.
- `search_properties.dfy` (`SearchProperties`): what every recorded chain
  looks like, and how the shared state moves, proved by induction over those
  functions.
- `finder.dfy` (`Finder`): the imperative engine. The class `ChainSearch` holds
  the shared mutable state and the working chain. `DoFindChain` is the
  recursive method with its nested loops, proved to leave the state `Explore`
  computes and to restore the working chain. `FindChains` is the entry point.
- `scenario_cases.dfy` (`ScenarioCases`): three concrete searches worked out from
  the definitions.

## Model

| member | source | states |
|---|---|---|
| `Model.PrivName` | src/main/java/IntrusionChainFinder.java:27 | a privilege's token is its name: one of NONE, USER, ADMIN, never empty |
| `Model.PrivNameInjective` | src/main/java/IntrusionChainFinder.java:102 | two privileges give the same token exactly when they are the same privilege |
| `Preconditions.StartsWith` | src/main/java/IntrusionChainFinder.java:115 | definition of `startsWith`: the string begins with the prefix; used by `CredMatches` and `Accepts`, whose properties are proved in the lemmas below |
| `Preconditions.Contains` | src/main/java/IntrusionChainFinder.java:106 | definition of `String.contains` by recursion on the string; `ContainsAt` proves it equals "occurs at some offset" |
| `Preconditions.Accepts` | src/main/java/IntrusionChainFinder.java:98-127 | definition of what `checkExploit` decides (OS gate, counter not exhausted, one of three flags); `CheckExploit` is proved equal to it, and `Rejections`, `PrivilegeIsMembership`, `HigherPrivilegeDoesNotSatisfy`, `OsMatchAloneSuffices` and `FirstUseIgnoresLimit` state its consequences |
| `Preconditions.ContainsAt` | src/main/java/IntrusionChainFinder.java:106 | the substring test used for the OS check holds exactly when the fragment occurs at some offset |
| `Preconditions.CheckExploit` | src/main/java/IntrusionChainFinder.java:98-127 | the outcome is `Accepts`: the OS requirement (if set) matches, the counter is not exhausted, and the privilege token is held, the OS matched, or some token starts with the credential tag |
| `Preconditions.Rejections` | src/main/java/IntrusionChainFinder.java:105-125 | rejected on an OS mismatch, on a recorded counter at or above the limit, and when a tag is set, no token starts with it and neither the privilege nor the OS check raised the flag |
| `Preconditions.PrivilegeIsMembership` | src/main/java/IntrusionChainFinder.java:102-104 | with no OS or credential requirement, acceptance is exactly "the required privilege's name is a token and the counter is not exhausted" |
| `Preconditions.HigherPrivilegeDoesNotSatisfy` | src/main/java/IntrusionChainFinder.java:102-104 | holding only the ADMIN token does not meet a USER requirement |
| `Preconditions.PrivilegeTokenMatchesCredTag` | src/main/java/IntrusionChainFinder.java:113-118 | because privilege names and credentials share one set, the token ADMIN meets the credential tag ADM |
| `Preconditions.OsMatchAloneSuffices` | src/main/java/IntrusionChainFinder.java:105-126 | a matching OS fragment raises the flag on its own: with an unexhausted counter the exploit is accepted without the required privilege, and even when it names a credential tag that no token carries (line 107 raises the flag that line 119 then reads) |
| `Preconditions.FirstUseIgnoresLimit` | src/main/java/IntrusionChainFinder.java:123-125 | with no counter recorded the limit is never consulted, even a limit of zero or less |
| `Effects.Applied` | src/main/java/IntrusionChainFinder.java:129-141 | the result contains the input tokens, the granted privilege's name if set and the target's credentials if harvesting is on, and nothing else |
| `Effects.AppliedIdempotent` | src/main/java/IntrusionChainFinder.java:129-141 | applying the same exploit to the same system a second time adds nothing |
| `Effects.AppliedWithoutEffect` | src/main/java/IntrusionChainFinder.java:129-141 | an exploit that grants nothing and harvests nothing returns the tokens unchanged |
| `Effects.AppliedMonotone` | src/main/java/IntrusionChainFinder.java:129-141 | more tokens before gives more tokens after |
| `Search.Initial` | src/main/java/IntrusionChainFinder.java:24-31 | the initial tokens are the start's credentials plus its privilege's name; visited is the start's name; no counters; no solutions |
| `Search.LocalChild` | src/main/java/IntrusionChainFinder.java:57-60 | after a local application the exploit's counter is 2 whatever it was, other counters are kept, tokens are `Applied`, visited is unchanged |
| `Search.LateralChild` | src/main/java/IntrusionChainFinder.java:81-83 | after a lateral application the counter is one more than before (0 if absent), the destination is visited, tokens are `Applied` |
| `Search.Explore` | src/main/java/IntrusionChainFinder.java:42-96 | definition of `doFindChain` on the shared state: record at the target, stop at the bound, else run the exploit loop; `DoFindChain` is proved equal to it, and `ExploreExtends` and `ExploreOnce` state its properties |
| `Search.ExploreExploits` | src/main/java/IntrusionChainFinder.java:52-93 | definition of the loop over the catalog, threading the state from one exploit to the next; properties in `ExploreExploitsExtends` and `ExploreExploitsOnce` |
| `Search.LocalMove` | src/main/java/IntrusionChainFinder.java:53-66 | definition of one local exploit: test against the current system, then recurse from `LocalChild` with the LOCAL hop appended; properties in `LocalMoveFacts`, `LocalMoveExtends` and `LocalMoveOnce` |
| `Search.ExploreRoutes` | src/main/java/IntrusionChainFinder.java:69-91 | definition of the loop over the current system's routes for one lateral exploit; properties in `ExploreRoutesExtends`, `ExploreRoutesHops` and `ExploreRoutesOnce` |
| `Search.LateralFires` | src/main/java/IntrusionChainFinder.java:70-79 | definition of when one route is taken: the destination exists, exposes the service, is not visited and passes `Accepts`; used by `LateralMoveFacts` |
| `Search.LateralMove` | src/main/java/IntrusionChainFinder.java:69-87 | definition of one route: if it fires, recurse into the destination from `LateralChild` with the LATERAL hop appended; properties in `LateralMoveFacts`, `LateralMoveExtends` and `LateralMoveOnce` |
| `Search.Chains` | src/main/java/IntrusionChainFinder.java:15-41 | definition of the result of `findChains`: the solutions of `Explore` from `Initial(start)`; `FindChains` returns it, and `ChainsAreRecorded`, `ChainsWithinBound` and `AtMostOneChain` state its properties |
| `SearchProperties.ExploreExtends` | src/main/java/IntrusionChainFinder.java:42-96 | the search from a system only grows the tokens and the visited set and only appends solutions; each appended chain is `Recorded`: it extends the working chain, has at most `maxHops` hops (or is empty), reaches the target at its last hop and at no earlier new hop, has connected hops of the catalog's kinds, and its lateral hops go to distinct systems that were not visited, never to the system they leave |
| `SearchProperties.ExploreExploitsExtends` | src/main/java/IntrusionChainFinder.java:52-93 | the same for the loop over the exploit catalog |
| `SearchProperties.LocalMoveExtends` | src/main/java/IntrusionChainFinder.java:53-66 | the same for one local exploit |
| `SearchProperties.ExploreRoutesExtends` | src/main/java/IntrusionChainFinder.java:69-91 | the same for the loop over the current system's routes |
| `SearchProperties.LateralMoveExtends` | src/main/java/IntrusionChainFinder.java:69-91 | the same for one route of a lateral exploit |
| `SearchProperties.LocalMoveFacts` | src/main/java/IntrusionChainFinder.java:53-64 | a refused local exploit changes nothing; otherwise every chain found continues the working chain with the hop current→current, this exploit, LOCAL |
| `SearchProperties.LateralMoveFacts` | src/main/java/IntrusionChainFinder.java:69-87 | a lateral move fires only into an existing destination that exposes the service, is not yet visited and passes the test, and then it is visited; every chain found continues the working chain with the hop current→destination, this exploit, LATERAL; otherwise nothing changes |
| `SearchProperties.ExploreRoutesHops` | src/main/java/IntrusionChainFinder.java:69-85 | every chain found by a lateral exploit's route loop has, as its next hop, a LATERAL hop along one of the current system's routes into a system exposing the service |
| `SearchProperties.ChainsAreRecorded` | src/main/java/IntrusionChainFinder.java:15-41 | every chain returned is `Recorded` for a search begun at the start with the start visited: it begins at the start, ends at the target, and never enters the start or any system twice by a lateral hop |
| `SearchProperties.ChainsWithinBound` | src/main/java/IntrusionChainFinder.java:44-51 | every returned chain has at most `maxHops` hops, except the empty chain when start is the target |
| `SearchProperties.StartIsTarget` | src/main/java/IntrusionChainFinder.java:44-47 | starting on the target gives exactly one, empty, chain |
| `SearchProperties.NoBudgetNoChains` | src/main/java/IntrusionChainFinder.java:49-51 | with `maxHops` at most 0 and the target elsewhere, no chain is found |
| `SearchProperties.ExploreOnce` | src/main/java/IntrusionChainFinder.java:42-96 | away from the target, a search appends at most one solution, none if the target is already visited, and appending one leaves the target visited; visited and solutions only grow |
| `SearchProperties.ExploreExploitsOnce` | src/main/java/IntrusionChainFinder.java:52-93 | the same for the loop over the exploit catalog |
| `SearchProperties.LocalMoveOnce` | src/main/java/IntrusionChainFinder.java:53-66 | the same for one local exploit, which stays on a system that is not the target |
| `SearchProperties.ExploreRoutesOnce` | src/main/java/IntrusionChainFinder.java:69-91 | the same for the loop over the current system's routes |
| `SearchProperties.LateralMoveOnce` | src/main/java/IntrusionChainFinder.java:69-87 | the same for one route: entering the target records one chain and marks the target visited (line 82) |
| `SearchProperties.AtMostOneChain` | src/main/java/IntrusionChainFinder.java:74-85 | because the shared visited set never shrinks, `findChains` returns at most one chain (the doc comment at lines 6 and 13 promises all valid chains) |
| `SearchProperties.LocalUseCounter` | src/main/java/IntrusionChainFinder.java:57-60 | after a local use the counter reads 2, so the exploit is accepted again only if its limit exceeds 2 |
| `SearchProperties.LateralUseCounter` | src/main/java/IntrusionChainFinder.java:83 | a lateral use adds one to the counter, so an exploit with limit 1 or less is refused afterwards |
| `Finder.ChainSearch.constructor` | src/main/java/IntrusionChainFinder.java:22-34 | the fresh state is `Initial(start)` with an empty working chain |
| `Finder.ChainSearch.ApplyExploit` | src/main/java/IntrusionChainFinder.java:129-141 | updates the token set in place to `Applied` of the old one and changes nothing else |
| `Finder.ChainSearch.DoFindChain` | src/main/java/IntrusionChainFinder.java:42-96 | the working chain is the same on return (each hop is added and removed again), and the shared state is what `Explore` computes from the state on entry |
| `Finder.FindChains` | src/main/java/IntrusionChainFinder.java:15-41 | returns `Chains`: the solutions of a search from the initial state (at most one, by `AtMostOneChain`) |
| `Finder.FindChainsAliased` | src/main/java/IntrusionChainFinder.java:46 | what the source's caller reads back: one entry per solution, each the working list itself, hence each empty |
| `ScenarioCases.OneHopReachesNothing` | src/main/java/IntrusionChainFinder.java:44-93 | in the network A→B→C, one hop from A finds no chain to C |
| `ScenarioCases.ThreeHopsMissed` | src/main/java/IntrusionChainFinder.java:74-87 | the path A→A escalate, A→B ssh-hop, B→C ssh-hop passes every test on its own states, but with `maxHops` 3 nothing is found: a branch that escalated twice before hopping to B left B visited, so no later branch can enter B |
| `ScenarioCases.LeakedTokenEnablesSibling` | src/main/java/IntrusionChainFinder.java:59-65 | the USER token gained in a local branch is still held when its sibling lateral hop is tested, so the chain A→B is found although none of its own hops granted USER |

## Left out

- Sorting of the solutions: the source has only a comment (line 38). Solutions are returned in the order found.
- Enumerating all chains: the source's doc comment (lines 6 and 13) promises every valid chain, but the code shares one visited set across branches and never removes from it (lines 74 and 82). The model keeps that behaviour. It returns at most one chain (`SearchProperties.AtMostOneChain`) and can miss valid paths (`ScenarioCases.ThreeHopsMissed`). A search with per-branch visited sets is not modelled.
- Undoing branch effects: the comments at lines 65 and 88 and the empty `undoExploit` (lines 142-144) describe it, but nothing is restored. The model keeps every change, as the code does.
- The privilege set `attackerPrivs` (lines 24-25) is built but never read, so it is not modelled.
- The `start` parameter of `doFindChain` is never read and is dropped. The `current` parameter of `checkExploit` is never read but is kept.
- Object identity: `current == target` becomes name equality, and `e.requiredService == ""` becomes string equality.
- Route destinations are references in the source and names here, looked up in the scenario. A name with no system is skipped. This case cannot arise in the source.
- Null values other than the optional exploit fields are not modelled: no null OS, name, service set, credential set, route list or required privilege, so no null-pointer paths.
- Integer width: reuse counters and the hop bound are unbounded integers. The source's 32-bit `Integer` could wrap on an increment, which a search bounded by `maxHops` would need about 2^31 uses of one exploit to reach.
- Hash-set iteration order: the loops over token and credential sets pick elements in an arbitrary order. Their outcomes do not depend on it.
- `Priv`, `SystemInfo`, `Route`, `Exploit`, `Hop` and the scenario builder are not part of this model. Their code is not available, so they are plain data types holding the fields the engine reads. `Priv`'s `toString` is taken to be the constant's name.
- `SearchProperties.LateralUseCounter` assumes the counters are non-negative. It is not proved as a search invariant that every counter the search writes is at least 1.
- The engine was meant to rank privileges (NONE < USER < ADMIN), to support three reuse policies (unlimited, once per target system, limited to n uses in total), to give each branch its own copy of the attacker's state, to filter routes by an allow-set of services, and to sort the solutions. The code does none of this, and the model follows the code:
  - privilege is checked by token membership, not by rank;
  - a single numeric limit is compared with one counter;
  - the first use is always allowed, even with a limit of zero or less;
  - branches share and leak state;
  - routes carry no allow-set;
  - nothing is sorted.

## Findings

| source | as written | input that shows it | evidently intended | confidence | as-written member | corrected member |
|---|---|---|---|---|---|---|
| src/main/java/IntrusionChainFinder.java:46 | `solutions.add(singleChain)` stores the working list itself. Every entry is that one list, and it is empty again when the search returns. | `ScenarioCases.LeakedTokenEnablesSibling`: start A, target B, `maxHops` 1. One chain [A→B] is found, but the caller reads [[]]. | store a copy of the working chain as it is at that moment | high (not executed) | `Finder.FindChainsAliased` | `Finder.FindChains` |

In the corrected version, `Finder.FindChains` returns snapshots. `SearchProperties.ChainsAreRecorded` proves that each returned chain ends at the target and respects the hop bound.
