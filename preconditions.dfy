/**
 * The precondition test of an exploit. The attacker's state is one set of
 * tokens that mixes privilege names and credential strings, plus a map from
 * exploit name to a reuse counter. The test does not rank privileges: it asks
 * whether the required privilege's name is itself one of the tokens.
 */
module Preconditions {
  import opened Wrappers
  import opened Model

  /** `s.startsWith(prefix)` */
  predicate StartsWith(s: string, prefix: string) {
    |prefix| <= |s| && s[..|prefix|] == prefix
  }

  /** `s.contains(sub)`: `sub` occurs in `s` at some offset. */
  predicate Contains(s: string, sub: string)
    decreases |s|
  {
    StartsWith(s, sub) || (|s| > 0 && Contains(s[1..], sub))
  }

  /** `sub` sits in `s` at offset `i`. */
  predicate OccursAt(s: string, sub: string, i: int) {
    0 <= i <= |s| - |sub| && s[i..i + |sub|] == sub
  }

  /** The recursive `Contains` agrees with "occurs at some offset". */
  lemma {:induction false} ContainsAt(s: string, sub: string)
    ensures Contains(s, sub) <==> exists i :: OccursAt(s, sub, i)
    decreases |s|
  {
    if StartsWith(s, sub) {
      assert OccursAt(s, sub, 0);
    } else if |s| > 0 {
      ContainsAt(s[1..], sub);
      if Contains(s[1..], sub) {
        var i :| OccursAt(s[1..], sub, i);
        assert s[i + 1..i + 1 + |sub|] == s[1..][i..i + |sub|];
        assert OccursAt(s, sub, i + 1);
      }
      if exists i :: OccursAt(s, sub, i) {
        var i :| OccursAt(s, sub, i);
        assert i > 0;
        assert s[1..][i - 1..i - 1 + |sub|] == s[i..i + |sub|];
        assert OccursAt(s[1..], sub, i - 1);
      }
    }
  }

  /** The required privilege's name is one of the tokens. */
  predicate PrivHeld(e: Exploit, tokens: set<string>) {
    PrivName(e.requiredPrivOnSource) in tokens
  }

  /** The exploit names an OS fragment and the target's OS contains it. */
  predicate OsMatches(e: Exploit, target: SystemInfo) {
    e.osContains.Some? && Contains(target.os, e.osContains.value)
  }

  /** The OS requirement does not reject: none is set, or it matches. */
  predicate OsGate(e: Exploit, target: SystemInfo) {
    e.osContains.None? || OsMatches(e, target)
  }

  /** The exploit names a credential tag and some token starts with it. */
  predicate CredMatches(e: Exploit, tokens: set<string>) {
    e.requiredCredTag.Some? && exists t :: t in tokens && StartsWith(t, e.requiredCredTag.value)
  }

  /** A counter is recorded for the exploit and has reached its limit. */
  predicate Exhausted(e: Exploit, counts: map<string, int>) {
    e.name in counts && counts[e.name] >= e.reusePolicy.limit
  }

  /**
   * What `checkExploit` decides: the OS requirement holds if set, the reuse
   * counter is not exhausted, and at least one of the three checks raised
   * the flag (privilege token held, OS matched, credential prefix found).
   */
  predicate Accepts(e: Exploit, target: SystemInfo, tokens: set<string>, counts: map<string, int>) {
    OsGate(e, target) && !Exhausted(e, counts)
    && (PrivHeld(e, tokens) || OsMatches(e, target) || CredMatches(e, tokens))
  }

  /**
   * `checkExploit`, in the source's order: raise a flag for the privilege
   * token, reject on an OS mismatch, scan the tokens for the credential
   * prefix and reject if the flag is still down, reject on an exhausted
   * counter, and answer the flag. `current` is not consulted, and neither
   * the tokens nor the counters are changed (they are values here).
   */
  method CheckExploit(current: SystemInfo, e: Exploit, target: SystemInfo,
                      tokens: set<string>, counts: map<string, int>) returns (ok: bool)
    ensures ok == Accepts(e, target, tokens, counts)
  {
    var allChecks := false;
    if PrivName(e.requiredPrivOnSource) in tokens {
      allChecks := true;
    }
    if e.osContains.Some? {
      if Contains(target.os, e.osContains.value) {
        allChecks := true;
      } else {
        return false;
      }
    }
    if e.requiredCredTag.Some? {
      var tag := e.requiredCredTag.value;
      var rest := tokens;
      while rest != {}
        invariant rest <= tokens
        invariant allChecks == (PrivHeld(e, tokens) || OsMatches(e, target)
                                || exists t :: t in tokens - rest && StartsWith(t, tag))
        decreases rest
      {
        var cred :| cred in rest;
        if StartsWith(cred, tag) {
          allChecks := true;
        }
        rest := rest - {cred};
      }
      if !allChecks {
        return false;
      }
    }
    if e.name in counts && counts[e.name] >= e.reusePolicy.limit {
      return false;
    }
    return allChecks;
  }

  /** The three ways `checkExploit` rejects, whatever else holds. */
  lemma Rejections(e: Exploit, target: SystemInfo, tokens: set<string>, counts: map<string, int>)
    ensures e.osContains.Some? && !Contains(target.os, e.osContains.value) ==> !Accepts(e, target, tokens, counts)
    ensures e.name in counts && counts[e.name] >= e.reusePolicy.limit ==> !Accepts(e, target, tokens, counts)
    ensures e.requiredCredTag.Some? && (forall t :: t in tokens ==> !StartsWith(t, e.requiredCredTag.value))
            && !PrivHeld(e, tokens) && !OsMatches(e, target)
            ==> !Accepts(e, target, tokens, counts)
  {
  }

  /**
   * With neither an OS nor a credential requirement, the privilege check is
   * plain membership of the required privilege's name among the tokens.
   */
  lemma PrivilegeIsMembership(e: Exploit, target: SystemInfo, tokens: set<string>, counts: map<string, int>)
    requires e.osContains.None? && e.requiredCredTag.None?
    ensures Accepts(e, target, tokens, counts)
            <==> PrivName(e.requiredPrivOnSource) in tokens && !Exhausted(e, counts)
  {
  }

  /**
   * Holding a different (even a higher) privilege does not satisfy the
   * requirement: an exploit that needs USER is refused to an attacker whose
   * only token is ADMIN.
   */
  lemma HigherPrivilegeDoesNotSatisfy(e: Exploit, target: SystemInfo, counts: map<string, int>)
    requires e.requiredPrivOnSource == USER && e.osContains.None? && e.requiredCredTag.None?
    ensures !Accepts(e, target, {PrivName(ADMIN)}, counts)
  {
  }

  /**
   * Privilege names and credentials share one token set, so a privilege
   * token can satisfy a credential tag: the tag "ADM" is matched by the
   * token "ADMIN".
   */
  lemma PrivilegeTokenMatchesCredTag(e: Exploit, tokens: set<string>)
    requires e.requiredCredTag == Some("ADM") && PrivName(ADMIN) in tokens
    ensures CredMatches(e, tokens)
  {
    assert StartsWith(PrivName(ADMIN), "ADM");
  }

  /**
   * A matching OS fragment on its own raises the flag: with no credential
   * tag and an unexhausted counter, the exploit is accepted even when the
   * required privilege is not held.
   */
  lemma OsMatchAloneSuffices(e: Exploit, target: SystemInfo, tokens: set<string>, counts: map<string, int>)
    requires OsMatches(e, target) && !Exhausted(e, counts)
    ensures Accepts(e, target, tokens, counts)
  {
  }

  /** The first use of an exploit is never refused for reuse, whatever its limit. */
  lemma FirstUseIgnoresLimit(e: Exploit, target: SystemInfo, tokens: set<string>, counts: map<string, int>)
    requires e.name !in counts
    ensures Accepts(e, target, tokens, counts)
            <==> OsGate(e, target) && (PrivHeld(e, tokens) || OsMatches(e, target) || CredMatches(e, tokens))
  {
  }
}
