/**
 * The scenario an attack-path search runs over: systems, the routes between
 * them and the exploit catalog. Only the fields the search engine reads are
 * modelled. Systems form a graph that may have cycles, so a route names its
 * destination and the scenario maps names to systems.
 */
module Model {
  import opened Wrappers

  /** Privilege level; the engine only ever uses its textual name. */
  datatype Priv = NONE | USER | ADMIN

  /** The text `toString` gives for a privilege, which becomes a token. */
  function PrivName(p: Priv): (r: string)
    ensures r != ""
    ensures r in {"NONE", "USER", "ADMIN"}
  {
    match p
    case NONE => "NONE"
    case USER => "USER"
    case ADMIN => "ADMIN"
  }

  /** A directed edge to the system of the given name. */
  datatype Route = Route(to: string)

  /** Only the numeric limit of a reuse policy is consulted. */
  datatype ReusePolicy = ReusePolicy(limit: int)

  /**
   * An exploit of the catalog. An empty `requiredService` marks a local
   * exploit; the optional requirements and the privilege grant are nullable
   * in the source and are `Option`s here.
   */
  datatype Exploit = Exploit(
    name: string,
    requiredService: string,
    requiredPrivOnSource: Priv,
    requiredCredTag: Option<string>,
    osContains: Option<string>,
    gainPrivOnTarget: Option<Priv>,
    addCredsOnTarget: bool,
    reusePolicy: ReusePolicy)

  datatype SystemInfo = SystemInfo(
    name: string,
    os: string,
    services: set<string>,
    creds: set<string>,
    priv: Priv,
    routes: seq<Route>)

  /** One step of a chain. `via` is "LOCAL" or "LATERAL". */
  datatype Hop = Hop(from: string, to: string, exploit: string, via: string)

  const Local: string := "LOCAL"
  const Lateral: string := "LATERAL"

  /** The systems by name, and the exploit catalog in its declared order. */
  datatype Scenario = Scenario(systems: map<string, SystemInfo>, exploits: seq<Exploit>)

  /** Different privileges give different tokens. */
  lemma PrivNameInjective(p: Priv, q: Priv)
    ensures PrivName(p) == PrivName(q) <==> p == q
  {
  }
}
