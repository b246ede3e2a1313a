/** The objects a published service is made of and how they refer to each other
    (ham/dnsapi.py, ham/webui.py). */
module ServiceGraph {
  import opened Options
  import opened Collections

  datatype Server = Server(
    address: string, port: nat, ssl: bool, checkPort: nat, proxyProtocol: string, wizardMade: bool)

  /** A health monitor's settings. */
  datatype Check = Check(
    kind: string, interval: string, httpMethod: string, httpUri: string, httpVersion: string,
    httpHost: string, expectStatus: string, dbUser: string, mysqlPost41: bool)

  datatype Pool = Pool(servers: seq<Id>, monitor: Option<Id>, options: map<string, string>)

  datatype ConditionKind = HostMatches | PathStartsWith | OtherKind

  datatype Condition = Condition(kind: ConditionKind, value: string, negate: bool)

  /** `if` or `unless` its conditions hold, all of them or any of them. */
  datatype Rule = Rule(
    useBackend: bool, unlessTest: bool, anyOf: bool, conditions: seq<Id>, pool: Option<Id>)

  datatype Bind = Bind(address: string, port: nat)

  datatype Listener = Listener(
    tcp: bool, ssl: bool, binds: seq<Bind>, certificates: seq<Id>, rules: seq<Id>,
    defaultPool: Option<Id>, toHttps: bool)

  /** `issued` is what the file on disk says: neither missing nor a placeholder. */
  datatype Certificate = Certificate(
    domains: seq<string>, account: string, challenge: string, issued: bool)

  datatype Graph = Graph(
    servers: seq<Item<Server>>, monitors: seq<Item<Check>>, pools: seq<Item<Pool>>,
    conditions: seq<Item<Condition>>, rules: seq<Item<Rule>>, listeners: seq<Item<Listener>>,
    certificates: seq<Item<Certificate>>)

  function SetOf(xs: seq<Id>): set<Id> {
    set x | x in xs
  }

  lemma SetOfAppend(xs: seq<Id>, x: Id)
    ensures SetOf(xs + [x]) == SetOf(xs) + {x}
  {
    assert forall y :: y in xs + [x] <==> y in xs || y == x;
  }

  ghost predicate NoRepeat(xs: seq<Id>) {
    xs == [] || (xs[0] !in xs[1..] && NoRepeat(xs[1..]))
  }

  function Optional(id: Option<Id>): set<Id> {
    if id.Some? then {id.value} else {}
  }

  // ----- well-formedness -----

  ghost predicate PoolResolves(p: Pool, servers: set<Id>, monitors: set<Id>) {
    SetOf(p.servers) <= servers && Optional(p.monitor) <= monitors
  }

  ghost predicate RuleResolves(r: Rule, conditions: set<Id>, pools: set<Id>) {
    SetOf(r.conditions) <= conditions && Optional(r.pool) <= pools
  }

  ghost predicate ListenerResolves(l: Listener, rules: set<Id>, pools: set<Id>, certificates: set<Id>) {
    SetOf(l.rules) <= rules && Optional(l.defaultPool) <= pools && SetOf(l.certificates) <= certificates
  }

  ghost predicate PoolsResolve(pools: seq<Item<Pool>>, servers: set<Id>, monitors: set<Id>) {
    forall p :: p in pools ==> PoolResolves(p.body, servers, monitors)
  }

  ghost predicate RulesResolve(rules: seq<Item<Rule>>, conditions: set<Id>, pools: set<Id>) {
    forall r :: r in rules ==> RuleResolves(r.body, conditions, pools)
  }

  ghost predicate ListenersResolve(listeners: seq<Item<Listener>>, rules: set<Id>, pools: set<Id>,
          certificates: set<Id>)
  {
    forall l :: l in listeners ==> ListenerResolves(l.body, rules, pools, certificates)
  }

  /** In every collection ids and names are unique, and every reference is to an
      object that exists. */
  ghost predicate WellFormed(g: Graph) {
    Distinct(g.servers) && Distinct(g.monitors) && Distinct(g.pools) && Distinct(g.conditions) &&
    Distinct(g.rules) && Distinct(g.listeners) && Distinct(g.certificates) &&
    PoolsResolve(g.pools, Ids(g.servers), Ids(g.monitors)) &&
    RulesResolve(g.rules, Ids(g.conditions), Ids(g.pools)) &&
    ListenersResolve(g.listeners, Ids(g.rules), Ids(g.pools), Ids(g.certificates))
  }
}
