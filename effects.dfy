/**
 * The effect of a successful exploit on the attacker's token set: the
 * granted privilege's name is added, and the target's credentials are
 * harvested when the exploit says so. Nothing is ever removed.
 */
module Effects {
  import opened Model

  /** The tokens held after applying `e` to system `sys`. */
  function Applied(tokens: set<string>, sys: SystemInfo, e: Exploit): (r: set<string>)
    ensures tokens <= r
    ensures e.gainPrivOnTarget.Some? ==> PrivName(e.gainPrivOnTarget.value) in r
    ensures e.addCredsOnTarget ==> sys.creds <= r
    ensures forall t :: t in r ==>
              (t in tokens
               || (e.gainPrivOnTarget.Some? && t == PrivName(e.gainPrivOnTarget.value))
               || (e.addCredsOnTarget && t in sys.creds))
  {
    var granted := if e.gainPrivOnTarget.Some? then {PrivName(e.gainPrivOnTarget.value)} else {};
    var harvested := if e.addCredsOnTarget then sys.creds else {};
    tokens + granted + harvested
  }

  /** Applying the same exploit to the same system twice adds nothing new. */
  lemma AppliedIdempotent(tokens: set<string>, sys: SystemInfo, e: Exploit)
    ensures Applied(Applied(tokens, sys, e), sys, e) == Applied(tokens, sys, e)
  {
  }

  /** An exploit that grants nothing and harvests nothing leaves the tokens as they were. */
  lemma AppliedWithoutEffect(tokens: set<string>, sys: SystemInfo, e: Exploit)
    requires e.gainPrivOnTarget.None? && !e.addCredsOnTarget
    ensures Applied(tokens, sys, e) == tokens
  {
  }

  /** Applying is monotone: more tokens before give more tokens after. */
  lemma AppliedMonotone(small: set<string>, large: set<string>, sys: SystemInfo, e: Exploit)
    requires small <= large
    ensures Applied(small, sys, e) <= Applied(large, sys, e)
  {
  }
}
