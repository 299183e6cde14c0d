/**
 * Concrete runs of the search, computed from the definitions. The network is
 * A -> B -> C, every system exposing "ssh"; `Escalate` is a local exploit
 * that grants USER to anyone holding the NONE token, and `Hop` is an ssh
 * exploit that needs the USER token and grants USER.
 */
module ScenarioCases {
  import opened Wrappers
  import opened Model
  import opened Search

  const Big: int := 1000

  const Escalate: Exploit :=
    Exploit("escalate", "", NONE, None, None, Some(USER), false, ReusePolicy(Big))
  const SshHop: Exploit :=
    Exploit("ssh-hop", "ssh", USER, None, None, Some(USER), false, ReusePolicy(Big))

  const A: SystemInfo := SystemInfo("A", "linux", {"ssh"}, {}, NONE, [Route("B")])
  const B: SystemInfo := SystemInfo("B", "linux", {"ssh"}, {}, NONE, [Route("C")])
  const C: SystemInfo := SystemInfo("C", "linux", {"ssh"}, {}, NONE, [])

  const Net: Scenario := Scenario(map["A" := A, "B" := B, "C" := C], [Escalate, SshHop])

  /** C lies two lateral hops away, so one hop finds nothing. */
  lemma OneHopReachesNothing()
    ensures Chains(Net, A, C, 1) == []
  {
    var s0 := Initial(A);
    var s1 := LocalChild(s0, A, Escalate);
    var s2 := LateralChild(s1, B, SshHop);
    assert Preconditions.Accepts(Escalate, A, s0.tokens, s0.counts);
    assert Explore(Net, C, 1, A, [LocalHop(A, Escalate)], s1) == s1;
    assert LocalMove(Net, C, 1, A, [], Escalate, s0) == s1;
    assert "USER" in s1.tokens && "ssh-hop" !in s1.counts;
    assert LateralFires(Net, SshHop, Route("B"), s1);
    assert Explore(Net, C, 1, B, [LateralHop(A, B, SshHop)], s2) == s2;
    assert LateralMove(Net, C, 1, A, [], SshHop, Route("B"), s1) == s2;
    assert ExploreRoutes(Net, C, 1, A, [], SshHop, 1, s2) == s2;
    assert ExploreRoutes(Net, C, 1, A, [], SshHop, 0, s1) == s2;
    assert ExploreExploits(Net, C, 1, A, [], 2, s2) == s2;
    assert ExploreExploits(Net, C, 1, A, [], 1, s1) == s2;
    assert ExploreExploits(Net, C, 1, A, [], 0, s0) == s2;
  }

  /**
   * Branch state is not undone: the USER token that the local branch gained
   * is still held when its sibling, the lateral hop to B, is tested, so the
   * one-hop chain A -> B is found although none of its own hops granted USER.
   */
  lemma LeakedTokenEnablesSibling()
    ensures "USER" !in Initial(A).tokens
    ensures Chains(Net, A, B, 1) == [[Hop("A", "B", "ssh-hop", Lateral)]]
  {
    var s0 := Initial(A);
    var s1 := LocalChild(s0, A, Escalate);
    var s2 := LateralChild(s1, B, SshHop);
    var s3 := s2.(solutions := [[LateralHop(A, B, SshHop)]]);
    assert Preconditions.Accepts(Escalate, A, s0.tokens, s0.counts);
    assert Explore(Net, B, 1, A, [LocalHop(A, Escalate)], s1) == s1;
    assert LocalMove(Net, B, 1, A, [], Escalate, s0) == s1;
    assert "USER" in s1.tokens && "ssh-hop" !in s1.counts;
    assert LateralFires(Net, SshHop, Route("B"), s1) && Net.systems["B"] == B;
    assert [] + [LateralHop(A, B, SshHop)] == [LateralHop(A, B, SshHop)];
    assert Explore(Net, B, 1, B, [LateralHop(A, B, SshHop)], s2) == s3;
    assert LateralMove(Net, B, 1, A, [], SshHop, Route("B"), s1) == s3;
    assert ExploreRoutes(Net, B, 1, A, [], SshHop, 1, s3) == s3;
    assert ExploreRoutes(Net, B, 1, A, [], SshHop, 0, s1) == s3;
    assert ExploreExploits(Net, B, 1, A, [], 2, s3) == s3;
    assert ExploreExploits(Net, B, 1, A, [], 1, s1) == s3;
    assert ExploreExploits(Net, B, 1, A, [], 0, s0) == s3;
  }

  /**
   * The path A -> A (escalate), A -> B (ssh-hop), B -> C (ssh-hop) passes
   * every test along its own states, yet three hops find nothing: the
   * branch that escalates twice before hopping to B marks B visited for
   * good, so no later branch can enter B again.
   */
  lemma ThreeHopsMissed()
    ensures var s1 := LocalChild(Initial(A), A, Escalate);
            && Preconditions.Accepts(Escalate, A, Initial(A).tokens, Initial(A).counts)
            && LateralFires(Net, SshHop, Route("B"), s1)
            && LateralFires(Net, SshHop, Route("C"), LateralChild(s1, B, SshHop))
    ensures Chains(Net, A, C, 3) == []
  {
    var s0 := Initial(A);
    var s1 := LocalChild(s0, A, Escalate);
    var s2 := LocalChild(s1, A, Escalate);
    var s3 := LocalChild(s2, A, Escalate);
    var s4 := LateralChild(s3, B, SshHop);
    var l := LocalHop(A, Escalate);
    assert Net.systems["B"] == B && Net.systems["C"] == C;
    assert "USER" in s1.tokens && "ssh-hop" !in s1.counts;
    assert "USER" in LateralChild(s1, B, SshHop).tokens;
    assert LateralChild(s1, B, SshHop).counts["ssh-hop"] == 1;
    assert Preconditions.Accepts(SshHop, C, LateralChild(s1, B, SshHop).tokens, LateralChild(s1, B, SshHop).counts);
    // three escalations: the bound stops the third branch
    assert Preconditions.Accepts(Escalate, A, s0.tokens, s0.counts);
    assert Preconditions.Accepts(Escalate, A, s1.tokens, s1.counts);
    assert Preconditions.Accepts(Escalate, A, s2.tokens, s2.counts);
    assert Explore(Net, C, 3, A, [l, l, l], s3) == s3;
    assert LocalMove(Net, C, 3, A, [l, l], Escalate, s2) == s3;
    // the hop to B after two escalations marks B visited
    assert "USER" in s3.tokens && "ssh-hop" !in s3.counts;
    assert LateralFires(Net, SshHop, Route("B"), s3);
    assert Explore(Net, C, 3, B, [l, l, LateralHop(A, B, SshHop)], s4) == s4;
    assert LateralMove(Net, C, 3, A, [l, l], SshHop, Route("B"), s3) == s4;
    assert ExploreRoutes(Net, C, 3, A, [l, l], SshHop, 1, s4) == s4;
    assert ExploreRoutes(Net, C, 3, A, [l, l], SshHop, 0, s3) == s4;
    assert ExploreExploits(Net, C, 3, A, [l, l], 2, s4) == s4;
    assert ExploreExploits(Net, C, 3, A, [l, l], 1, s3) == s4;
    assert ExploreExploits(Net, C, 3, A, [l, l], 0, s2) == s4;
    assert [l] + [l] == [l, l] && [l, l] + [l] == [l, l, l];
    assert Explore(Net, C, 3, A, [l, l], s2) == s4;
    assert LocalMove(Net, C, 3, A, [l], Escalate, s1) == s4;
    // B stays visited, so shallower branches cannot hop there again
    assert "B" in s4.visited;
    assert LateralMove(Net, C, 3, A, [l], SshHop, Route("B"), s4) == s4;
    assert ExploreRoutes(Net, C, 3, A, [l], SshHop, 1, s4) == s4;
    assert ExploreRoutes(Net, C, 3, A, [l], SshHop, 0, s4) == s4;
    assert ExploreExploits(Net, C, 3, A, [l], 2, s4) == s4;
    assert ExploreExploits(Net, C, 3, A, [l], 1, s4) == s4;
    assert ExploreExploits(Net, C, 3, A, [l], 0, s1) == s4;
    assert [] + [l] == [l];
    assert Explore(Net, C, 3, A, [l], s1) == s4;
    assert LocalMove(Net, C, 3, A, [], Escalate, s0) == s4;
    assert LateralMove(Net, C, 3, A, [], SshHop, Route("B"), s4) == s4;
    assert ExploreRoutes(Net, C, 3, A, [], SshHop, 1, s4) == s4;
    assert ExploreRoutes(Net, C, 3, A, [], SshHop, 0, s4) == s4;
    assert ExploreExploits(Net, C, 3, A, [], 2, s4) == s4;
    assert ExploreExploits(Net, C, 3, A, [], 1, s4) == s4;
    assert ExploreExploits(Net, C, 3, A, [], 0, s0) == s4;
  }
}
